/** The reactor: its start, its source's return, a reader of its errors and its shutdown, interleaved in every way. */
module Reacting {
  import opened World

  datatype State = Idle | Running | Stopping | Stopped

  /** What ends a source: a failure, or a handler's own cancellation. */
  datatype Error = Failure(text: string) | Cancelled

  /** Where the goroutine that runs the source is: before its critical section, after it, and after each close. */
  datatype Worker = NotLaunched | Receiving | Returned(err: Option<Error>) | Recorded | ErrsClosed | Finished

  /** Where the one shutdown is: not begun, waiting, with its handlers cancelled or not, or returned with what it reports. */
  datatype Shutdown = NotBegun | Waiting(cancelled: bool) | TimedOut | Done(report: Option<Error>, graceRanOut: bool) | Retired

  /** The reactor's fields; how often each channel was closed; what the source failed with, if it did; and how often the
      failure was read from the channel. */
  datatype Reactor = Reactor(state: State, err: Option<Error>, sent: Option<Error>, errsCloses: nat, doneCloses: nat,
                             worker: Worker, failed: Option<Error>, shutdown: Shutdown, heard: nat)

  const NEW := Reactor(Idle, None, None, 0, 0, NotLaunched, None, NotBegun, 0)

  datatype Step =
    | Start
    | Return(err: Option<Error>)
    | Record
    | CloseErrs
    | CloseDone
    | Read
    | Begin
    | GraceEnds
    | GiveUp
    | Drained

  // ----- The steps -----

  /** Start launches the source, once; a second start is refused. */
  function Started(r: Reactor): Reactor {
    if r.state != Idle then r else r.(state := Running, worker := Receiving)
  }

  /** The goroutine's critical section: an error is kept for a shutdown under way, or else sent. */
  function Recording(r: Reactor, err: Option<Error>): Reactor {
    var next := if r.state == Stopping then r.(err := err) else if err.Some? then r.(sent := err) else r;
    next.(state := Stopped, worker := Recorded)
  }

  /** Shutdown's critical section: before a start it retires the reactor; of a running one it stops the source. */
  function Begun(r: Reactor): Reactor {
    match r.state
    case Idle => r.(state := Stopped, errsCloses := r.errsCloses + 1, doneCloses := r.doneCloses + 1, shutdown := Retired)
    case Running => r.(state := Stopping, shutdown := Waiting(false))
    case _ => r.(shutdown := Waiting(false))
  }

  /** The drain is over: an error sent that nothing read is reported, or else the one kept, but not a cancellation the
      shutdown itself caused. */
  function Ended(r: Reactor, cancelled: bool): Reactor {
    if r.sent.Some? then r.(sent := None, shutdown := Done(r.sent, false))
    else if cancelled then r.(shutdown := Done(if r.err == Some(Cancelled) then None else r.err, true))
    else r.(shutdown := Done(r.err, false))
  }

  ghost predicate Steps(r: Reactor, step: Step, n: Reactor) {
    match step
    case Start => n == Started(r)
    case Return(err) => r.worker == Receiving && n == r.(worker := Returned(err), failed := err)
    case Record => r.worker.Returned? && n == Recording(r, r.worker.err)
    case CloseErrs => r.worker == Recorded && n == r.(errsCloses := r.errsCloses + 1, worker := ErrsClosed)
    case CloseDone => r.worker == ErrsClosed && n == r.(doneCloses := r.doneCloses + 1, worker := Finished)
    case Read => r.sent.Some? && n == r.(sent := None, heard := r.heard + 1)
    case Begin => r.shutdown == NotBegun && n == Begun(r)
    case GraceEnds =>
      r.shutdown.Waiting? && n == if r.doneCloses > 0 then r else r.(shutdown := Waiting(true))
    case GiveUp => r.shutdown.Waiting? && n == r.(shutdown := TimedOut)
    case Drained => r.shutdown.Waiting? && r.doneCloses > 0 && n == Ended(r, r.shutdown.cancelled)
  }

  /** How often the source's failure was reported: read from the channel, or by the shutdown. */
  function Reports(r: Reactor): nat {
    r.heard + if r.shutdown.Done? && r.shutdown.report.Some? then 1 else 0
  }

  /** How often it can still be: it waits in the channel, or with the reactor for a shutdown under way. */
  function Kept(r: Reactor): nat {
    (if r.sent.Some? then 1 else 0) + if r.err.Some? && r.shutdown.Waiting? then 1 else 0
  }

  // ----- What every step keeps -----

  /** How far the goroutine is says how often it closed each channel; a reactor retired before its start closed both. */
  ghost predicate ClosedOnce(r: Reactor) {
    && r.errsCloses == (if r.shutdown == Retired || r.worker == ErrsClosed || r.worker == Finished then 1 else 0)
    && r.doneCloses == (if r.shutdown == Retired || r.worker == Finished then 1 else 0)
    && (r.shutdown == Retired ==> r.worker == NotLaunched && r.state == Stopped)
  }

  /** The state follows the goroutine and the shutdown. */
  ghost predicate InState(r: Reactor) {
    && (r.state == Idle <==> r.worker == NotLaunched && r.shutdown == NotBegun)
    && (r.state == Running ==> (r.worker == Receiving || r.worker.Returned?) && r.shutdown == NotBegun)
    && (r.state == Stopping ==> (r.worker == Receiving || r.worker.Returned?) && r.shutdown in {Waiting(false), Waiting(true), TimedOut})
    && (r.state == Stopped ==> r.worker in {Recorded, ErrsClosed, Finished} || r.shutdown == Retired)
    && (r.shutdown.Done? ==> r.worker == Finished)
  }

  /** A failure is still to be recorded, or waits where it was put, or was reported; or its shutdown gave up waiting, or
      itself cancelled the handler that failed. */
  ghost predicate FailureKept(r: Reactor) {
    && (r.worker in {NotLaunched, Receiving} ==> r.failed.None?)
    && (r.worker.Returned? ==> r.failed == r.worker.err)
    && (r.worker in {NotLaunched, Receiving} || r.worker.Returned? ==> r.sent.None? && r.err.None? && Reports(r) == 0)
    && (r.sent.Some? ==> r.sent == r.failed && r.err.None?)
    && (r.err.Some? ==> r.err == r.failed && r.shutdown != NotBegun && r.heard == 0)
    && Reports(r) + Kept(r) <= 1
    && (r.failed.None? ==> r.sent.None? && r.err.None? && Reports(r) == 0)
    && (r.failed.Some? && r.worker in {Recorded, ErrsClosed, Finished} ==>
          || Reports(r) + Kept(r) == 1
          || (r.err.Some? && r.shutdown == TimedOut)
          || (r.err == Some(Cancelled) && r.shutdown == Done(None, true)))
    && (r.shutdown.Done? ==> r.sent.None? && (r.shutdown.report.Some? ==> r.shutdown.report == r.failed))
  }

  ghost predicate Sound(r: Reactor) {
    ClosedOnce(r) && InState(r) && FailureKept(r)
  }

  lemma NewIsSound()
    ensures Sound(NEW)
  {
  }

  lemma StepKeepsClosed(r: Reactor, step: Step, n: Reactor)
    requires ClosedOnce(r) && InState(r) && Steps(r, step, n)
    ensures ClosedOnce(n) && InState(n)
  {
  }

  lemma RecordKeepsFailure(r: Reactor)
    requires Sound(r) && r.worker.Returned?
    ensures FailureKept(Recording(r, r.worker.err))
  {
    hide ClosedOnce;
  }

  lemma DrainKeepsFailure(r: Reactor)
    requires Sound(r) && r.shutdown.Waiting? && r.doneCloses > 0
    ensures FailureKept(Ended(r, r.shutdown.cancelled))
  {
  }

  lemma BeginKeepsFailure(r: Reactor)
    requires Sound(r) && r.shutdown == NotBegun
    ensures FailureKept(Begun(r))
  {
    hide ClosedOnce;
  }

  lemma StepKeepsFailure(r: Reactor, step: Step, n: Reactor)
    requires Sound(r) && Steps(r, step, n)
    ensures FailureKept(n)
  {
    hide ClosedOnce, Recording, Ended, Begun;
    match step {
      case Record => RecordKeepsFailure(r);
      case Drained => DrainKeepsFailure(r);
      case Begin => BeginKeepsFailure(r);
      case _ =>
    }
  }

  lemma StepKeepsSound(r: Reactor, step: Step, n: Reactor)
    requires Sound(r) && Steps(r, step, n)
    ensures Sound(n)
  {
    hide Steps, ClosedOnce, InState, FailureKept;
    StepKeepsClosed(r, step, n);
    StepKeepsFailure(r, step, n);
  }

  // ----- Over whole runs -----

  ghost predicate Run(states: seq<Reactor>, steps: seq<Step>) {
    && |states| == |steps| + 1 && states[0] == NEW
    && forall i | 0 <= i < |steps| :: Steps(states[i], steps[i], states[i + 1])
  }

  lemma {:induction false} RunStaysSound(states: seq<Reactor>, steps: seq<Step>, n: nat)
    requires Run(states, steps) && n <= |steps|
    ensures Sound(states[n])
  {
    hide Steps, Sound;
    if n == 0 {
      NewIsSound();
    } else {
      RunStaysSound(states, steps, n - 1);
      StepKeepsSound(states[n - 1], steps[n - 1], states[n]);
    }
  }

  /** No channel is ever closed twice, nothing is sent on a closed one, and once the goroutine is through, or the reactor
      was retired before its start, each was closed once. */
  lemma ClosedExactlyOnce(states: seq<Reactor>, steps: seq<Step>, n: nat)
    requires Run(states, steps) && n <= |steps|
    ensures states[n].errsCloses <= 1 && states[n].doneCloses <= states[n].errsCloses
    ensures states[n].worker == Finished || states[n].shutdown == Retired ==> states[n].errsCloses == 1 == states[n].doneCloses
    ensures n < |steps| && steps[n] == Record ==> states[n].errsCloses == 0 && states[n].sent.None?
  {
    RunStaysSound(states, steps, n);
    if n < |steps| {
      assert Steps(states[n], steps[n], states[n + 1]);
    }
    hide Run;
  }

  /** The source's failure is reported at most once; and once, when the shutdown waited for the drain to end, unless it is
      the cancellation of a handler the shutdown cancelled after its grace. */
  lemma ReportedOnce(states: seq<Reactor>, steps: seq<Step>, n: nat)
    requires Run(states, steps) && n <= |steps|
    ensures Reports(states[n]) <= 1 && (states[n].failed.None? ==> Reports(states[n]) == 0)
    ensures states[n].shutdown.Done? && states[n].failed.Some?
            ==> Reports(states[n]) == 1 || (states[n].failed == Some(Cancelled) && states[n].shutdown == Done(None, true))
  {
    RunStaysSound(states, steps, n);
    hide Run, Steps, ClosedOnce;
  }

  lemma StepStaysBegun(r: Reactor, step: Step, n: Reactor)
    requires Sound(r) && Steps(r, step, n) && r.shutdown != NotBegun
    ensures n.shutdown != NotBegun
  {
    hide FailureKept, ClosedOnce;
  }

  lemma {:induction false} StaysBegun(states: seq<Reactor>, steps: seq<Step>, m: nat, n: nat)
    requires Run(states, steps) && m <= n <= |steps| && states[m].shutdown != NotBegun
    ensures states[n].shutdown != NotBegun
  {
    hide Steps, Sound;
    if m < n {
      StaysBegun(states, steps, m, n - 1);
      RunStaysSound(states, steps, n - 1);
      StepStaysBegun(states[n - 1], steps[n - 1], states[n]);
    }
  }

  /** Once a shutdown begins, the reactor is never ready again; and one retired before its start never runs its source. */
  lemma NeverReadyAgain(states: seq<Reactor>, steps: seq<Step>, m: nat, n: nat)
    requires Run(states, steps) && m <= n <= |steps| && states[m].shutdown != NotBegun
    ensures states[n].state != Running
    ensures states[n].shutdown == Retired ==> states[n].worker == NotLaunched
  {
    hide Steps, FailureKept;
    StaysBegun(states, steps, m, n);
    RunStaysSound(states, steps, n);
  }

  /** A start ahead of any shutdown runs the source, and only one ever does: the reactor is running from then until the
      source returned and that is recorded, or a shutdown begins. */
  lemma {:induction false} RunsOnceStarted(states: seq<Reactor>, steps: seq<Step>, m: nat, n: nat)
    requires Run(states, steps) && m < n <= |steps| && steps[m] == Start
    requires states[n].shutdown == NotBegun
    ensures states[n].worker != NotLaunched
    ensures (forall i | m <= i < n :: steps[i] != Record) && states[m].state == Idle ==> states[n].state == Running
  {
    hide Sound;
    RunStaysSound(states, steps, n - 1);
    assert Steps(states[n - 1], steps[n - 1], states[n]);
    if m < n - 1 {
      NotYetBegun(states[n - 1], steps[n - 1], states[n]);
      RunsOnceStarted(states, steps, m, n - 1);
      StaysLaunched(states[n - 1], steps[n - 1], states[n]);
    } else {
      StartsIdle(states[m], states[n]);
    }
  }

  lemma NotYetBegun(r: Reactor, step: Step, n: Reactor)
    requires Sound(r) && Steps(r, step, n) && n.shutdown == NotBegun
    ensures r.shutdown == NotBegun
  {
    if r.shutdown != NotBegun {
      StepStaysBegun(r, step, n);
    }
  }

  lemma StaysLaunched(r: Reactor, step: Step, n: Reactor)
    requires Steps(r, step, n) && r.worker != NotLaunched && r.shutdown == NotBegun == n.shutdown
    ensures n.worker != NotLaunched && (step != Record && r.state == Running ==> n.state == Running)
  {
  }

  lemma StartsIdle(r: Reactor, n: Reactor)
    requires Sound(r) && Steps(r, Start, n) && n.shutdown == NotBegun
    ensures n.worker != NotLaunched && (r.state == Idle ==> n.state == Running)
  {
    hide ClosedOnce, FailureKept;
  }

  // ----- The reactor's own code -----

  /** What Start, the goroutine's critical section and Shutdown's critical sections each do under the mutex. */
  class Machine {
    var r: Reactor

    constructor ()
      ensures r == NEW && Sound(r)
    {
      r := NEW;
    }

    method Launch() returns (refused: bool)
      requires Sound(r)
      modifies this
      ensures Sound(r) && Steps(old(r), Start, r)
      ensures refused <==> old(r).state != Idle
      ensures refused ==> r == old(r)
    {
      hide Sound;
      ghost var before := r;
      refused := r.state != Idle;
      if !refused {
        r := r.(state := Running, worker := Receiving);
      }
      StepKeepsSound(before, Start, r);
    }

    /** The goroutine, once Receive has returned: the result kept or sent, and both channels closed. */
    method Finish()
      requires Sound(r) && r.worker.Returned?
      modifies this
      ensures Sound(r) && r.worker == Finished && r.state == Stopped && r.errsCloses == 1 == r.doneCloses
      ensures r.failed == old(r).worker.err && r.shutdown == old(r).shutdown
      ensures r.failed.Some? ==> if old(r).state == Stopping then r.err == r.failed && r.sent.None? else r.sent == r.failed
    {
      ghost var before := r;
      var err := r.worker.err;
      NothingRecordedYet(r);
      hide Sound;
      if r.state == Stopping {
        r := r.(err := err);
      } else if err.Some? {
        r := r.(sent := err);
      }
      r := r.(state := Stopped, worker := Recorded);
      StepKeepsSound(before, Record, r);
      ghost var recorded := r;
      r := r.(errsCloses := r.errsCloses + 1, worker := ErrsClosed);
      StepKeepsSound(recorded, CloseErrs, r);
      ghost var closed := r;
      r := r.(doneCloses := r.doneCloses + 1, worker := Finished);
      StepKeepsSound(closed, CloseDone, r);
    }

    /** Shutdown's start: true when the reactor was never started, and is retired. */
    method Stop() returns (retired: bool)
      requires Sound(r) && r.shutdown == NotBegun
      modifies this
      ensures Sound(r) && Steps(old(r), Begin, r)
      ensures retired <==> old(r).state == Idle
      ensures retired ==> r.errsCloses == 1 == r.doneCloses && r.state == Stopped
      ensures !retired ==> r.shutdown == Waiting(false) && r.state in {Stopping, Stopped}
    {
      ghost var before := r;
      NotBegunYet(r);
      hide Sound;
      retired := r.state == Idle;
      if retired {
        r := r.(state := Stopped, errsCloses := r.errsCloses + 1, doneCloses := r.doneCloses + 1, shutdown := Retired);
      } else {
        var running := r.state == Running;
        r := r.(state := if running then Stopping else r.state, shutdown := Waiting(false));
      }
      StepKeepsSound(before, Step.Begin, r);
    }

    /** Shutdown's end, once the drain is over. */
    method Report() returns (report: Option<Error>, graceRanOut: bool)
      requires Sound(r) && r.shutdown.Waiting? && r.doneCloses > 0
      modifies this
      ensures Sound(r) && Steps(old(r), Drained, r)
      ensures r.shutdown == Done(report, graceRanOut)
      ensures old(r).sent.Some? ==> report == old(r).sent
    {
      hide Sound;
      ghost var before := r;
      var cancelled := r.shutdown.cancelled;
      if r.sent.Some? {
        report, graceRanOut := r.sent, false;
        r := r.(sent := None);
      } else if cancelled {
        report, graceRanOut := if r.err == Some(Cancelled) then None else r.err, true;
      } else {
        report, graceRanOut := r.err, false;
      }
      r := r.(shutdown := Done(report, graceRanOut));
      StepKeepsSound(before, Drained, r);
    }
  }

  lemma NothingRecordedYet(r: Reactor)
    requires Sound(r) && r.worker.Returned?
    ensures r.sent.None? && r.err.None? && r.errsCloses == 0 == r.doneCloses && r.failed == r.worker.err
    ensures r.state in {Running, Stopping}
  {
  }

  lemma NotBegunYet(r: Reactor)
    requires Sound(r) && r.shutdown == NotBegun
    ensures r.state == Idle ==> r.errsCloses == 0 == r.doneCloses
    ensures r.state != Stopping
  {
  }
}
