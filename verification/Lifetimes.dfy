/** Whole runs of a consumer, from the subscription on: any publishes, takes and outcomes in any order. */
module Lifetimes {
  import opened Consuming
  import opened Delivering

  /** The consumer begins at `start`, empty, with nothing delivered; each state is a step from the one before. */
  ghost predicate Lives(sub: Subscription, start: nat, states: seq<Run>, steps: seq<Step>) {
    && |states| == |steps| + 1
    && sub.Usable() && start <= |states[0].log| && 0 < states[0].clock
    && states[0] == Run(states[0].log, Queue(start, map[], [], map[], 0, 0), map[], {}, states[0].clock)
    && forall i | 0 <= i < |steps| :: Steps(sub, states[i], steps[i], states[i + 1])
  }

  /** Every state of every run keeps the invariant. */
  lemma {:induction false} RunStaysValid(sub: Subscription, start: nat, states: seq<Run>, steps: seq<Step>, n: nat)
    requires Lives(sub, start, states, steps) && n <= |steps|
    ensures Valid(sub, start, states[n])
  {
    if n == 0 {
      StartsValid(sub, states[0].log, start, states[0].clock);
    } else {
      RunStaysValid(sub, start, states, steps, n - 1);
      assert Steps(sub, states[n - 1], steps[n - 1], states[n]);
      hide *;
      StepKeepsValid(sub, start, states[n - 1], steps[n - 1], states[n]);
    }
  }

  lemma StepAt(sub: Subscription, start: nat, states: seq<Run>, steps: seq<Step>, i: nat)
    requires Lives(sub, start, states, steps) && i < |steps|
    ensures |states| == |steps| + 1 && Steps(sub, states[i], steps[i], states[i + 1])
  {
  }

  /** In every run each event from the start to the cursor is skipped, in flight, queued again or done, only one of these,
      and queued at most once. */
  lemma AlwaysOnePlace(sub: Subscription, start: nat, states: seq<Run>, steps: seq<Step>, n: nat, s: nat)
    requires Lives(sub, start, states, steps) && n <= |steps| && start <= s < states[n].q.cursor
    ensures s < |states[n].log|
    ensures var r := states[n];
            var skipped, flying, waiting, done := !sub.Matches(r.log[s]), s in r.q.pending, Lists(r.q.retries, s),
                                                  Done(sub, r.log, start, r.q, s);
            && (skipped || flying || waiting || done)
            && !(skipped && flying) && !(skipped && waiting) && !(skipped && done)
            && !(flying && waiting) && !(flying && done) && !(waiting && done)
            && forall i, j | 0 <= i < j < |r.q.retries| :: !(r.q.retries[i].seqno == s == r.q.retries[j].seqno)
  {
    RunStaysValid(sub, start, states, steps, n);
    hide *;
    OnePlace(sub, start, states[n], s);
  }

  /** In every run what is done stays done. */
  lemma {:induction false} StaysDone(sub: Subscription, start: nat, states: seq<Run>, steps: seq<Step>, m: nat, n: nat,
                                     s: nat)
    requires Lives(sub, start, states, steps) && m <= n <= |steps|
    requires Done(sub, states[m].log, start, states[m].q, s)
    ensures Done(sub, states[n].log, start, states[n].q, s)
    decreases n
  {
    hide *;
    if m < n {
      StaysDone(sub, start, states, steps, m, n - 1, s);
      DoneNext(sub, start, states, steps, n - 1, s);
    }
  }

  lemma DoneNext(sub: Subscription, start: nat, states: seq<Run>, steps: seq<Step>, n: nat, s: nat)
    requires Lives(sub, start, states, steps) && n < |steps|
    requires Done(sub, states[n].log, start, states[n].q, s)
    ensures Done(sub, states[n + 1].log, start, states[n + 1].q, s)
  {
    RunStaysValid(sub, start, states, steps, n);
    StepAt(sub, start, states, steps, n);
    hide *;
    DoneIsFinal(sub, start, states[n], steps[n], states[n + 1], s);
  }

  /** In every run, under a bound on deliveries, no event is taken more often than the bound, and a log is delivered at
      most the bound times its length. */
  lemma AlwaysBounded(sub: Subscription, start: nat, states: seq<Run>, steps: seq<Step>, n: nat)
    requires Lives(sub, start, states, steps) && n <= |steps| && sub.maxDeliver > 0
    ensures forall s | s in states[n].taken :: states[n].taken[s] <= sub.maxDeliver
    ensures states[n].q.tokens <= sub.maxDeliver * |states[n].log|
  {
    RunStaysValid(sub, start, states, steps, n);
    var r := states[n];
    DeliveriesBounded(sub, start, r);
    hide *;
    Grows(sub.maxDeliver, r.q.cursor - start, |r.log|);
  }

  lemma Grows(m: nat, a: int, b: int)
    requires a <= b
    ensures m * a <= m * b
  {
  }

  // ----- Why an event ends -----

  /** The outcome ends the event, and comes in time. */
  predicate Finishes(step: Step, s: nat) {
    step.Settle? && step.s == s && step.ends && step.now < step.d.deadline
  }

  /** The event has had all the deliveries its subscription allows. */
  predicate Exhausted(sub: Subscription, taken: map<nat, nat>, s: nat) {
    sub.maxDeliver > 0 && s in taken && taken[s] == sub.maxDeliver
  }

  lemma SpentIsExhausted(sub: Subscription, start: nat, r: Run, s: nat)
    requires Valid(sub, start, r) && Spent(sub, r.q.counts, s)
    ensures Exhausted(sub, r.taken, s)
  {
    hide Placed, Tracked, Timed, Lists, Mine;
  }

  /** An event stops being live in one step only because its outcome ends it in time, or because it is spent. */
  lemma EndsInStep(sub: Subscription, start: nat, r: Run, step: Step, n: Run, s: nat)
    requires Valid(sub, start, r) && Steps(sub, r, step, n) && Live(r.q, s) && !Live(n.q, s)
    ensures Finishes(step, s) || Exhausted(sub, n.taken, s)
  {
    match step {
      case Publish(_) =>
      case Take(now, got) =>
        assert n.taken == TakenWith(r.taken, got);
        var e :| Expires(sub, r.q, now, e) && TakesFrom(sub, r.log, e, now, n.q, got);
        hide *;
        StepKeepsValid(sub, start, r, step, n);
        ExpiryKeeps(sub, start, r, now, e);
        EndsInExpiry(sub, r.q, now, e, s);
        if Live(e, s) {
          TakeEndsNone(sub, start, r.(q := e, clock := now), now, n.q, got, s);
        }
        SpentStays(sub, start, r, got, n, s);
      case Settle(k, d, ends, now) =>
        assert n.taken == r.taken && (k, d) in r.out;
        var e :| Expires(sub, r.q, now, e) && SettlesFrom(sub, e, k, d, ends, now, n.q);
        hide *;
        ExpiryKeeps(sub, start, r, now, e);
        EndsInExpiry(sub, r.q, now, e, s);
        EndsInOutcome(sub, start, r, now, e, k, d, ends, n.q, s);
    }
  }

  lemma EndsInExpiry(sub: Subscription, q: Queue, now: int, e: Queue, s: nat)
    requires Expires(sub, q, now, e) && Live(q, s)
    ensures Live(e, s) || Spent(sub, q.counts, s)
  {
    ExpiryMoves(sub, q, now, e, s);
    hide Lists, Expires, Spent;
  }

  lemma TakeEndsNone(sub: Subscription, start: nat, r: Run, now: int, q: Queue, got: Taken, s: nat)
    requires Valid(sub, start, r) && TakesFrom(sub, r.log, r.q, now, q, got) && Live(r.q, s)
    ensures Live(q, s)
  {
    ValidParts(sub, start, r);
    hide TakesFrom, Valid, Subscription.Matches, Tallied, Tracked, Timed;
    var way := TakeGoes(sub, r.log, r.q, now, q, got);
    if way.FromRetries? {
      ListsWithout(r.q.retries, way.i, s);
    }
    hide Lists, DistinctRetries;
  }

  lemma SpentStays(sub: Subscription, start: nat, r: Run, got: Taken, n: Run, s: nat)
    requires Valid(sub, start, r) && Valid(sub, start, n) && n.taken == TakenWith(r.taken, got)
    ensures Spent(sub, r.q.counts, s) ==> Exhausted(sub, n.taken, s)
  {
    if Spent(sub, r.q.counts, s) {
      SpentIsExhausted(sub, start, r, s);
      ValidParts(sub, start, n);
      hide Placed, Tracked, Timed, Lists, Mine, Valid;
      assert s in n.taken && n.taken[s] >= r.taken[s];
    }
  }

  lemma EndsInOutcome(sub: Subscription, start: nat, r: Run, now: int, e: Queue, k: nat, d: Delivery, ends: bool, q: Queue,
                      s: nat)
    requires Valid(sub, start, r) && Valid(sub, start, r.(q := e, clock := now)) && (k, d) in r.out
    requires Expires(sub, r.q, now, e) && SettlesFrom(sub, e, k, d, ends, now, q)
    requires (Live(e, s) || Spent(sub, r.q.counts, s)) && !Live(q, s)
    ensures Finishes(Settle(k, d, ends, now), s) || Exhausted(sub, r.taken, s)
  {
    hide Valid, Expires, Exhausted, Spent, Lists, SettlesFrom;
    if Spent(sub, r.q.counts, s) {
      SpentIsExhausted(sub, start, r, s);
    } else {
      OutcomeEnds(sub, e, k, d, ends, now, q, s);
      if d.deadline <= now {
        NotCurrent(sub, start, r, now, e, k, d);
      }
      if Spent(sub, e.counts, s) {
        SpentIsExhausted(sub, start, r.(q := e, clock := now), s);
      }
    }
  }

  lemma OutcomeEnds(sub: Subscription, e: Queue, k: nat, d: Delivery, ends: bool, now: int, q: Queue, s: nat)
    requires SettlesFrom(sub, e, k, d, ends, now, q) && Live(e, s) && !Live(q, s)
    ensures k == s && IsCurrent(e, s, d) && (ends || Spent(sub, e.counts, s))
  {
    ListsOneMore(e.retries, Retry(k, now + sub.retryDelay), s);
    hide Lists;
  }

  /** An event new behind the cursor is one just claimed. */
  lemma NewIsLive(sub: Subscription, start: nat, r: Run, step: Step, n: Run, s: nat)
    requires Valid(sub, start, r) && Steps(sub, r, step, n)
    requires Mine(sub, n.log, start, n.q, s) && !Mine(sub, r.log, start, r.q, s)
    ensures Live(n.q, s)
  {
    StepKeepsValid(sub, start, r, step, n);
    ValidParts(sub, start, r);
    ValidParts(sub, start, n);
    assert s in n.taken && s !in r.taken by {
      hide Steps, Mine, Live, Lists, Placed, Tracked, Timed, Valid;
    }
    match step {
      case Publish(_) =>
      case Take(now, got) =>
        assert got.Claimed? && got.seqno == s;
        var e :| Expires(sub, r.q, now, e) && TakesFrom(sub, r.log, e, now, n.q, got);
        hide *;
        ExpiryKeeps(sub, start, r, now, e);
        ValidParts(sub, start, r.(q := e, clock := now));
        TakeIsNew(sub, r.log, start, e, now, n.q, got);
        LiveInFlight(n.q, s);
      case Settle(_, _, _, _) =>
    }
  }

  lemma LiveInFlight(q: Queue, s: nat)
    requires s in q.pending
    ensures Live(q, s)
  {
  }

  lemma DoneInStep(sub: Subscription, start: nat, r: Run, step: Step, n: Run, s: nat)
    requires Valid(sub, start, r) && Steps(sub, r, step, n) && Done(sub, n.log, start, n.q, s)
    ensures Finishes(step, s) || Exhausted(sub, n.taken, s) || (Done(sub, r.log, start, r.q, s) && !Exhausted(sub, r.taken, s))
  {
    hide Valid, Steps, Finishes, Exhausted, Live, Mine;
    if Exhausted(sub, r.taken, s) {
      ExhaustedStays(sub, start, r, step, n, s);
    } else if !Mine(sub, r.log, start, r.q, s) {
      NewIsLive(sub, start, r, step, n, s);
    } else if Live(r.q, s) {
      EndsInStep(sub, start, r, step, n, s);
    }
  }

  /** In every run an event is done for a reason: an outcome that ended it, in time, or all its deliveries made. */
  lemma {:induction false} DoneForReason(sub: Subscription, start: nat, states: seq<Run>, steps: seq<Step>, n: nat, s: nat)
    requires Lives(sub, start, states, steps) && n <= |steps| && Done(sub, states[n].log, start, states[n].q, s)
    ensures (exists i :: 0 <= i < n && Finishes(steps[i], s)) || Exhausted(sub, states[n].taken, s)
  {
    if n > 0 {
      RunStaysValid(sub, start, states, steps, n - 1);
      StepAt(sub, start, states, steps, n - 1);
      hide Lives, Valid, Steps, Done, Finishes, Exhausted;
      DoneInStep(sub, start, states[n - 1], steps[n - 1], states[n], s);
      if !Finishes(steps[n - 1], s) && !Exhausted(sub, states[n].taken, s) {
        DoneForReason(sub, start, states, steps, n - 1, s);
      }
    }
  }

  lemma ExhaustedStays(sub: Subscription, start: nat, r: Run, step: Step, n: Run, s: nat)
    requires Valid(sub, start, r) && Steps(sub, r, step, n) && Exhausted(sub, r.taken, s)
    ensures Exhausted(sub, n.taken, s)
  {
    StepKeepsValid(sub, start, r, step, n);
    ValidParts(sub, start, n);
    hide Takes, Settles, Placed, Tracked, Timed, Lists, Mine, Valid;
    assert s in n.taken && n.taken[s] >= r.taken[s];
  }

  // ----- Waiting -----

  /** The step leaves alone a member that waits until then. */
  predicate Early(step: Step, until: int) {
    step.Publish? || Before(step.now, until)
  }

  lemma WakeGrows(sub: Subscription, start: nat, r: Run, step: Step, n: Run)
    requires Valid(sub, start, r) && Steps(sub, r, step, n)
    ensures r.q.wake <= n.q.wake
  {
    match step {
      case Publish(_) =>
      case Take(now, got) =>
        var e :| Expires(sub, r.q, now, e) && TakesFrom(sub, r.log, e, now, n.q, got);
        assert r.q.wake <= e.wake;
        hide Expires, Valid;
        var way := TakeGoes(sub, r.log, e, now, n.q, got);
      case Settle(k, d, ends, now) =>
        var e :| Expires(sub, r.q, now, e) && SettlesFrom(sub, e, k, d, ends, now, n.q);
        assert r.q.wake <= e.wake;
    }
  }

  /** In every run a member told to wait misses nothing: as long as its channel is open and the time it waits for has not
      come, there is nothing to take, and nobody has taken anything. */
  lemma {:induction false} NothingMissed(sub: Subscription, start: nat, states: seq<Run>, steps: seq<Step>, m: nat, n: nat,
                                         until: int)
    requires Lives(sub, start, states, steps) && m <= n <= |steps|
    requires Quiet(states[m].log, states[m].q, until) && forall i | m <= i < n :: Early(steps[i], until)
    ensures states[m].q.wake <= states[n].q.wake
    ensures states[n].q.wake == states[m].q.wake ==>
              && Quiet(states[n].log, states[n].q, until)
              && forall i | m <= i < n :: steps[i].Take? ==> steps[i].got.Waiting?
    decreases n
  {
    hide Quiet;
    if m < n {
      NothingMissed(sub, start, states, steps, m, n - 1, until);
      RunStaysValid(sub, start, states, steps, n - 1);
      StepAt(sub, start, states, steps, n - 1);
      hide Lives, Valid, Steps;
      WakeGrows(sub, start, states[n - 1], steps[n - 1], states[n]);
      if states[n].q.wake == states[m].q.wake {
        assert Early(steps[n - 1], until);
        NoLostWakeup(sub, start, states[n - 1], until, steps[n - 1], states[n]);
      }
    }
  }

  /** The wait a member is told, over the run: there is a time it waits for, no later than its wait; until that time comes
      or its channel is closed nothing can be taken; and a take that comes next once the wait is over acts. */
  lemma WaitIsKept(sub: Subscription, start: nat, states: seq<Run>, steps: seq<Step>, m: nat, now: int, w: nat, wait: int)
    requires Lives(sub, start, states, steps) && m < |steps| && steps[m] == Take(now, Waiting(w, wait))
    ensures exists until :: WaitsFor(now, wait, until) && until <= now + wait
              && forall n | m < n <= |steps| && (forall i | m < i < n :: Early(steps[i], until)) ::
                   && w <= states[n].q.wake
                   && (states[n].q.wake == w ==>
                         && Quiet(states[n].log, states[n].q, until)
                         && forall i | m < i < n :: steps[i].Take? ==> steps[i].got.Waiting?)
  {
    RunStaysValid(sub, start, states, steps, m);
    StepAt(sub, start, states, steps, m);
    WaitIsRight(sub, start, states[m], now, w, wait, states[m + 1]);
    QuietAfterWait(sub, start, states[m], now, w, wait, states[m + 1]);
    hide Lives, Valid, Steps, Quiet, IsNext, WaitsFor;
    var until :| WaitsFor(now, wait, until) && until <= now + wait && Quiet(states[m + 1].log, states[m + 1].q, until);
    forall n | m < n <= |steps| && (forall i | m < i < n :: Early(steps[i], until))
      ensures && w <= states[n].q.wake
              && (states[n].q.wake == w ==>
                    && Quiet(states[n].log, states[n].q, until)
                    && forall i | m < i < n :: steps[i].Take? ==> steps[i].got.Waiting?)
    {
      NothingMissed(sub, start, states, steps, m + 1, n, until);
    }
  }
}
