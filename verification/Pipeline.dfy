/** From a command's transaction to a consumer's: outbox, relay, broker and inbox, under any crash and any order of steps. */
module Pipeline {
  import opened World

  /** What makes a CloudEvents event unique. */
  datatype Identity = Identity(source: string, id: string)

  /** An outbox row a command's transaction has inserted, and one committed. */
  datatype Staged = Staged(tx: nat, event: Identity)

  datatype Row = Row(event: Identity, published: bool)

  /** A consumer's handling of an event. */
  datatype Handling = Handling(consumer: string, event: Identity)

  /** Everything that outlives a crash, and the transactions in flight, which do not. A command's transaction has staged
      rows; a relay's holds a row, and may have had the broker's acknowledgement; a consumer's has claimed an event, for
      the first time or as a repeat. */
  datatype System = System(
    staged: map<nat, Staged>,
    rows: map<nat, Row>,
    next: nat,
    held: map<nat, bool>,
    log: seq<Identity>,
    window: set<Identity>,
    handling: map<Handling, bool>,
    inbox: set<Handling>,
    effects: map<Handling, nat>,
    acked: set<Handling>)

  const EMPTY := System(map[], map[], 0, map[], [], {}, map[], {}, map[], {})

  datatype Step =
    | Insert(tx: nat, event: Identity)
    | Commit(tx: nat)
    | Abort(tx: nat)
    | Claim(row: nat)
    | Send(row: nat, answered: bool)
    | Mark(row: nat)
    | Release(row: nat)
    | Lapse(event: Identity)
    | Take(h: Handling)
    | Finish(h: Handling)
    | Fail(h: Handling)
    | Ack(h: Handling)

  // ----- Commands -----

  /** The outbox's unique key: no row of the source and ID, committed or staged. */
  predicate Unlisted(s: System, e: Identity) {
    && (forall r | r in s.rows :: s.rows[r].event != e)
    && (forall r | r in s.staged :: s.staged[r].event != e)
  }

  function Inserted(s: System, tx: nat, e: Identity): System {
    s.(staged := s.staged[s.next := Staged(tx, e)], next := s.next + 1)
  }

  ghost predicate Inserts(s: System, tx: nat, e: Identity, n: System) {
    Unlisted(s, e) && n == Inserted(s, tx, e)
  }

  function RowsOf(s: System, tx: nat): set<nat> {
    set r | r in s.staged && s.staged[r].tx == tx
  }

  function NewRows(s: System, tx: nat): map<nat, Row> {
    map r | r in RowsOf(s, tx) :: Row(s.staged[r].event, false)
  }

  /** A transaction's rows become visible together, or go together. */
  function CommittedBy(s: System, tx: nat): System {
    s.(staged := s.staged - RowsOf(s, tx), rows := s.rows + NewRows(s, tx))
  }

  ghost predicate Commits(s: System, tx: nat, n: System) {
    n == CommittedBy(s, tx)
  }

  function Aborted(s: System, tx: nat): System {
    s.(staged := s.staged - RowsOf(s, tx))
  }

  ghost predicate Aborts(s: System, tx: nat, n: System) {
    n == Aborted(s, tx)
  }

  // ----- Relays -----

  /** The oldest unpublished row no relay holds. */
  predicate Oldest(s: System, row: nat) {
    && row in s.rows && !s.rows[row].published && row !in s.held
    && forall r | r in s.rows && !s.rows[r].published && r !in s.held :: row <= r
  }

  function Held(s: System, row: nat): System {
    s.(held := s.held[row := false])
  }

  ghost predicate Claims(s: System, row: nat, n: System) {
    Oldest(s, row) && n == Held(s, row)
  }

  /** The broker takes the event unless it is in the window; the relay may never hear of it. */
  function Sent(s: System, row: nat, answered: bool): System
    requires row in s.rows
  {
    var e := s.rows[row].event;
    s.(log := if e in s.window then s.log else s.log + [e], window := s.window + {e},
       held := if answered then s.held[row := true] else s.held)
  }

  ghost predicate Sends(s: System, row: nat, answered: bool, n: System) {
    row in s.held && row in s.rows && n == Sent(s, row, answered)
  }

  function Marked(s: System, row: nat): System
    requires row in s.rows
  {
    s.(rows := s.rows[row := s.rows[row].(published := true)], held := s.held - {row})
  }

  ghost predicate Marks(s: System, row: nat, n: System) {
    row in s.held && s.held[row] && row in s.rows && n == Marked(s, row)
  }

  function Released(s: System, row: nat): System {
    s.(held := s.held - {row})
  }

  ghost predicate Releases(s: System, row: nat, n: System) {
    row in s.held && n == Released(s, row)
  }

  // ----- Consumers -----

  /** How many times the consumer's effect of the event was committed. */
  function Effects(s: System, h: Handling): nat {
    if h in s.effects then s.effects[h] else 0
  }

  /** A delivery's transaction claims the event: for the first time, unless the inbox has it. */
  function Taken(s: System, h: Handling): System {
    s.(handling := s.handling[h := h !in s.inbox])
  }

  ghost predicate Takes(s: System, h: Handling, n: System) {
    h.event in s.log && h !in s.handling && n == Taken(s, h)
  }

  /** The transaction commits: on a first claim with the effect, on a repeat with nothing. */
  function Finished(s: System, h: Handling): System
    requires h in s.handling
  {
    if s.handling[h]
    then s.(handling := s.handling - {h}, inbox := s.inbox + {h}, effects := s.effects[h := Effects(s, h) + 1])
    else s.(handling := s.handling - {h})
  }

  ghost predicate Finishes(s: System, h: Handling, n: System) {
    h in s.handling && n == Finished(s, h)
  }

  function Failed(s: System, h: Handling): System {
    s.(handling := s.handling - {h})
  }

  ghost predicate Fails(s: System, h: Handling, n: System) {
    h in s.handling && n == Failed(s, h)
  }

  function Acked(s: System, h: Handling): System {
    s.(acked := s.acked + {h})
  }

  ghost predicate Acks(s: System, h: Handling, n: System) {
    h in s.inbox && n == Acked(s, h)
  }

  function Lapsed(s: System, e: Identity): System {
    s.(window := s.window - {e})
  }

  ghost predicate Steps(s: System, step: Step, n: System) {
    match step
    case Insert(tx, e) => Inserts(s, tx, e, n)
    case Commit(tx) => Commits(s, tx, n)
    case Abort(tx) => Aborts(s, tx, n)
    case Claim(row) => Claims(s, row, n)
    case Send(row, answered) => Sends(s, row, answered, n)
    case Mark(row) => Marks(s, row, n)
    case Release(row) => Releases(s, row, n)
    case Lapse(e) => n == Lapsed(s, e)
    case Take(h) => Takes(s, h, n)
    case Finish(h) => Finishes(s, h, n)
    case Fail(h) => Fails(s, h, n)
    case Ack(h) => Acks(s, h, n)
  }

  // ----- What every step keeps -----

  ghost predicate Committed(s: System, e: Identity) {
    exists r :: r in s.rows && s.rows[r].event == e
  }

  /** Each published event is in the log; the log holds committed events alone; a relay holds unpublished rows. */
  ghost predicate OutboxSound(s: System) {
    && (forall r | r in s.rows && s.rows[r].published :: s.rows[r].event in s.log)
    && (forall e | e in s.log :: Committed(s, e))
    && (forall r | r in s.held :: r in s.rows && !s.rows[r].published && (s.held[r] ==> s.rows[r].event in s.log))
    && (forall e | e in s.window :: e in s.log)
  }

  /** No two rows, staged or committed, have one number or one event. */
  ghost predicate RowsDistinct(s: System) {
    && (forall r | r in s.rows :: r < s.next && r !in s.staged)
    && (forall r | r in s.staged :: r < s.next)
    && (forall q, r | q in s.rows && r in s.rows && s.rows[q].event == s.rows[r].event :: q == r)
    && (forall q, r | q in s.staged && r in s.staged && s.staged[q].event == s.staged[r].event :: q == r)
    && (forall q, r | q in s.rows && r in s.staged :: s.rows[q].event != s.staged[r].event)
  }

  /** A consumer's effect is committed with its claim, once; what is acknowledged was. */
  ghost predicate InboxSound(s: System) {
    && (forall h :: Effects(s, h) == if h in s.inbox then 1 else 0)
    && (forall h | h in s.handling :: h.event in s.log && (s.handling[h] <==> h !in s.inbox))
    && (forall h | h in s.inbox :: h.event in s.log)
    && (forall h | h in s.acked :: h in s.inbox)
  }

  ghost predicate Sound(s: System) {
    OutboxSound(s) && RowsDistinct(s) && InboxSound(s)
  }

  lemma EmptyIsSound()
    ensures Sound(EMPTY)
  {
  }

  /** The rows keep their events, and grow; a step that changes nothing else of the outbox keeps it sound. */
  lemma OutboxFrame(s: System, n: System)
    requires OutboxSound(s) && n.log == s.log && n.rows == s.rows && n.window <= s.window
    requires forall r | r in n.held :: r in s.held && n.held[r] == s.held[r]
    ensures OutboxSound(n)
  {
    assert forall e :: Committed(n, e) <==> Committed(s, e);
    hide Committed;
  }

  lemma CommitKeepsOutbox(s: System, tx: nat, n: System)
    requires OutboxSound(s) && RowsDistinct(s) && Commits(s, tx, n)
    ensures OutboxSound(n)
  {
    forall r | r in s.rows ensures r in n.rows && n.rows[r] == s.rows[r] {
    }
    forall e | Committed(s, e) ensures Committed(n, e) {
      var r :| r in s.rows && s.rows[r].event == e;
      assert n.rows[r].event == e;
    }
    forall r | r in n.rows && n.rows[r].published ensures n.rows[r].event in n.log {
      assert r in s.rows;
    }
    hide Committed;
  }

  lemma ClaimKeepsOutbox(s: System, row: nat, n: System)
    requires OutboxSound(s) && Claims(s, row, n)
    ensures OutboxSound(n)
  {
    assert forall e :: Committed(n, e) <==> Committed(s, e);
    hide Committed;
  }

  lemma SendKeepsOutbox(s: System, row: nat, answered: bool, n: System)
    requires OutboxSound(s) && Sends(s, row, answered, n)
    ensures OutboxSound(n)
  {
    var e := s.rows[row].event;
    assert forall f :: Committed(n, f) <==> Committed(s, f);
    assert Committed(s, e);
    assert forall f :: f in n.log <==> f in s.log || f == e;
    hide Committed;
  }

  lemma MarkKeepsOutbox(s: System, row: nat, n: System)
    requires OutboxSound(s) && Marks(s, row, n)
    ensures OutboxSound(n)
  {
    forall f | Committed(s, f) ensures Committed(n, f) {
      var r :| r in s.rows && s.rows[r].event == f;
      assert n.rows[r].event == f;
    }
    hide Committed;
  }

  lemma StepKeepsOutbox(s: System, step: Step, n: System)
    requires OutboxSound(s) && RowsDistinct(s) && Steps(s, step, n)
    ensures OutboxSound(n)
  {
    hide OutboxSound, RowsDistinct, Unlisted, RowsOf, NewRows, Claims, Sends, Marks, Commits;
    match step {
      case Commit(tx) => CommitKeepsOutbox(s, tx, n);
      case Claim(row) => ClaimKeepsOutbox(s, row, n);
      case Send(row, answered) => SendKeepsOutbox(s, row, answered, n);
      case Mark(row) => MarkKeepsOutbox(s, row, n);
      case _ => OutboxFrame(s, n);
    }
  }

  lemma InsertKeepsDistinct(s: System, tx: nat, e: Identity, n: System)
    requires RowsDistinct(s) && Inserts(s, tx, e, n)
    ensures RowsDistinct(n)
  {
    assert s.next !in s.rows && s.next !in s.staged;
    assert forall r | r in s.staged :: n.staged[r] == s.staged[r];
  }

  lemma CommitKeepsDistinct(s: System, tx: nat, n: System)
    requires RowsDistinct(s) && Commits(s, tx, n)
    ensures RowsDistinct(n)
  {
    assert forall r :: r in n.rows <==> r in s.rows || r in RowsOf(s, tx);
    assert forall r | r in s.rows :: n.rows[r] == s.rows[r];
    assert forall r | r in RowsOf(s, tx) :: n.rows[r].event == s.staged[r].event;
    assert forall r :: r in n.staged <==> r in s.staged && r !in RowsOf(s, tx);
    hide NewRows;
  }

  /** A step that only drops staged rows, or marks a committed one, keeps the rows distinct. */
  lemma DistinctFrame(s: System, n: System)
    requires RowsDistinct(s) && n.next == s.next && n.rows.Keys == s.rows.Keys
    requires forall r | r in s.rows :: n.rows[r].event == s.rows[r].event
    requires forall r | r in n.staged :: r in s.staged && n.staged[r] == s.staged[r]
    ensures RowsDistinct(n)
  {
  }

  lemma StepKeepsDistinct(s: System, step: Step, n: System)
    requires RowsDistinct(s) && Steps(s, step, n)
    ensures RowsDistinct(n)
  {
    hide RowsDistinct, Unlisted, RowsOf, NewRows, Inserts, Commits, Oldest;
    match step {
      case Insert(tx, e) => InsertKeepsDistinct(s, tx, e, n);
      case Commit(tx) => CommitKeepsDistinct(s, tx, n);
      case _ => DistinctFrame(s, n);
    }
  }

  lemma FinishKeepsInbox(s: System, h: Handling, n: System)
    requires InboxSound(s) && Finishes(s, h, n)
    ensures InboxSound(n)
  {
    assert Effects(s, h) == if h in s.inbox then 1 else 0;
    forall g ensures Effects(n, g) == if g in n.inbox then 1 else 0 {
      assert Effects(s, g) == if g in s.inbox then 1 else 0;
    }
    hide Effects;
  }

  /** A step that only starts or drops handlings, acknowledges, or adds to the log, keeps the inbox sound. */
  lemma InboxFrame(s: System, n: System)
    requires InboxSound(s) && n.inbox == s.inbox && n.effects == s.effects
    requires forall e | e in s.log :: e in n.log
    requires forall h | h in n.handling ::
               (h in s.handling && n.handling[h] == s.handling[h]) || (h.event in s.log && n.handling[h] == (h !in s.inbox))
    requires forall h | h in n.acked :: h in s.acked || h in s.inbox
    ensures InboxSound(n)
  {
    assert forall h :: Effects(n, h) == Effects(s, h);
    hide Effects;
  }

  lemma StepKeepsInbox(s: System, step: Step, n: System)
    requires InboxSound(s) && Steps(s, step, n)
    ensures InboxSound(n)
  {
    hide InboxSound, Unlisted, Oldest, Finishes, RowsOf, NewRows;
    match step {
      case Finish(h) => FinishKeepsInbox(s, h, n);
      case _ => InboxFrame(s, n);
    }
  }

  /** Every step, of whichever process, with a crash anywhere, keeps the system sound. */
  lemma StepKeepsSound(s: System, step: Step, n: System)
    requires Sound(s) && Steps(s, step, n)
    ensures Sound(n)
  {
    hide OutboxSound, RowsDistinct, InboxSound, Steps;
    StepKeepsOutbox(s, step, n);
    StepKeepsDistinct(s, step, n);
    StepKeepsInbox(s, step, n);
  }

  // ----- Over whole runs -----

  ghost predicate Run(states: seq<System>, steps: seq<Step>) {
    && |states| == |steps| + 1 && states[0] == EMPTY
    && forall i | 0 <= i < |steps| :: Steps(states[i], steps[i], states[i + 1])
  }

  lemma {:induction false} RunStaysSound(states: seq<System>, steps: seq<Step>, n: nat)
    requires Run(states, steps) && n <= |steps|
    ensures Sound(states[n])
  {
    hide Steps, Sound;
    if n == 0 {
      EmptyIsSound();
    } else {
      RunStaysSound(states, steps, n - 1);
      StepKeepsSound(states[n - 1], steps[n - 1], states[n]);
    }
  }

  /** Nothing committed, logged, done or acknowledged is undone. */
  ghost predicate Keeps(s: System, n: System) {
    && s.log <= n.log
    && (forall r | r in s.rows :: r in n.rows && n.rows[r].event == s.rows[r].event)
    && (forall h :: Effects(s, h) <= Effects(n, h))
    && s.acked <= n.acked
  }

  lemma StepKeepsAll(s: System, step: Step, n: System)
    requires RowsDistinct(s) && Steps(s, step, n)
    ensures Keeps(s, n)
  {
    hide RowsDistinct, Unlisted, Oldest, RowsOf, NewRows, Keeps, Finishes, Commits;
    match step {
      case Commit(tx) => CommitKeepsAll(s, tx, n);
      case Finish(h) => FinishKeepsAll(s, h, n);
      case _ => KeepsFrame(s, n);
    }
  }

  lemma CommitKeepsAll(s: System, tx: nat, n: System)
    requires RowsDistinct(s) && Commits(s, tx, n)
    ensures Keeps(s, n)
  {
    assert forall r | r in s.rows :: r !in RowsOf(s, tx);
    assert forall h :: Effects(n, h) == Effects(s, h);
  }

  lemma FinishKeepsAll(s: System, h: Handling, n: System)
    requires Finishes(s, h, n)
    ensures Keeps(s, n)
  {
  }

  lemma KeepsFrame(s: System, n: System)
    requires s.log <= n.log && s.acked <= n.acked && n.effects == s.effects
    requires forall r | r in s.rows :: r in n.rows && n.rows[r].event == s.rows[r].event
    ensures Keeps(s, n)
  {
    assert forall h :: Effects(n, h) == Effects(s, h);
  }

  lemma KeepsTwice(a: System, b: System, c: System)
    requires Keeps(a, b) && Keeps(b, c)
    ensures Keeps(a, c)
  {
    hide Effects;
    forall h ensures Effects(a, h) <= Effects(c, h) {
      assert Effects(a, h) <= Effects(b, h) <= Effects(c, h);
    }
  }

  lemma KeepsNothing(a: System)
    ensures Keeps(a, a)
  {
  }

  lemma {:induction false} RunKeepsAll(states: seq<System>, steps: seq<Step>, m: nat, n: nat)
    requires Run(states, steps) && m <= n <= |steps|
    ensures Keeps(states[m], states[n])
  {
    hide Steps, Keeps, OutboxSound, RowsDistinct, InboxSound;
    if m == n {
      KeepsNothing(states[m]);
    } else {
      RunKeepsAll(states, steps, m, n - 1);
      RunStaysSound(states, steps, n - 1);
      StepKeepsAll(states[n - 1], steps[n - 1], states[n]);
      KeepsTwice(states[m], states[n - 1], states[n]);
    }
  }

  /** A committed event is never lost: from then on it waits in the outbox, or is in the log for good. */
  lemma NeverLost(states: seq<System>, steps: seq<Step>, m: nat, n: nat, row: nat)
    requires Run(states, steps) && m <= n <= |steps| && row in states[m].rows
    ensures row in states[n].rows && states[n].rows[row].event == states[m].rows[row].event
    ensures !states[n].rows[row].published || states[n].rows[row].event in states[n].log
  {
    hide Run, InboxSound, RowsDistinct, Committed, Effects;
    RunKeepsAll(states, steps, m, n);
    RunStaysSound(states, steps, n);
  }

  /** Nothing is in the log but what a command committed: an aborted command's events are never seen. */
  lemma OnlyCommitted(states: seq<System>, steps: seq<Step>, n: nat, e: Identity)
    requires Run(states, steps) && n <= |steps| && e in states[n].log
    ensures Committed(states[n], e)
  {
    hide Run, InboxSound, RowsDistinct, Committed;
    RunStaysSound(states, steps, n);
  }

  /** A consumer's effect is committed at most once, and once if the event was acknowledged, however many times the log
      holds the event: after the deduplication window lapses, too. */
  lemma EffectOnce(states: seq<System>, steps: seq<Step>, m: nat, n: nat, h: Handling)
    requires Run(states, steps) && m <= n <= |steps|
    ensures Effects(states[n], h) <= 1
    ensures h in states[m].acked ==> Effects(states[m], h) == 1 == Effects(states[n], h)
    ensures Effects(states[n], h) == 1 ==> h.event in states[n].log && Committed(states[n], h.event)
  {
    hide Run, RowsDistinct, Committed, Effects;
    RunKeepsAll(states, steps, m, n);
    RunStaysSound(states, steps, m);
    RunStaysSound(states, steps, n);
  }

  /** While no window lapses, an event is logged once. */
  lemma {:induction false} OnceWithoutLapse(states: seq<System>, steps: seq<Step>, n: nat)
    requires Run(states, steps) && n <= |steps| && forall i | 0 <= i < n :: !steps[i].Lapse?
    ensures Distinct(states[n].log) && forall e :: e in states[n].log <==> e in states[n].window
  {
    hide Steps, Distinct;
    if n == 0 {
      assert Distinct<Identity>([]) by {
        NothingRepeats();
      }
    } else {
      OnceWithoutLapse(states, steps, n - 1);
      StepLogsOnce(states[n - 1], steps[n - 1], states[n]);
    }
  }

  lemma NothingRepeats()
    ensures Distinct<Identity>([])
  {
  }

  lemma StepLogsOnce(s: System, step: Step, n: System)
    requires Steps(s, step, n) && !step.Lapse?
    requires Distinct(s.log) && forall e :: e in s.log <==> e in s.window
    ensures Distinct(n.log) && forall e :: e in n.log <==> e in n.window
  {
    hide Unlisted, Oldest, RowsOf, NewRows;
    if step.Send? {
      var e := s.rows[step.row].event;
      assert forall f :: f in n.log <==> f in s.log || f == e;
    } else {
      assert n.log == s.log && n.window == s.window;
    }
  }

  /** The step publishes an event the log has and the window has forgotten. */
  predicate Repeats(s: System, step: Step) {
    step.Send? && step.row in s.rows && s.rows[step.row].event in s.log && s.rows[step.row].event !in s.window
  }

  lemma StepRepeats(s: System, step: Step, n: System)
    requires Steps(s, step, n) && forall e | e in s.window :: e in s.log
    ensures Distinct(n.log) <==> Distinct(s.log) && !Repeats(s, step)
  {
    hide Unlisted, Oldest, RowsOf, NewRows;
    if step.Send? {
      var e := s.rows[step.row].event;
      if e !in s.window {
        AppendedDistinct(s.log, e);
      }
    } else {
      assert n.log == s.log;
    }
  }

  lemma AppendedDistinct(log: seq<Identity>, e: Identity)
    ensures Distinct(log + [e]) <==> Distinct(log) && e !in log
  {
    var more := log + [e];
    assert forall i | 0 <= i < |log| :: more[i] == log[i];
    assert more[|log|] == e;
  }

  /** In every run an event is logged twice exactly when it is once published while logged and out of the window. */
  lemma {:induction false} DistinctUnlessRepeated(states: seq<System>, steps: seq<Step>, n: nat)
    requires Run(states, steps) && n <= |steps|
    ensures Distinct(states[n].log) <==> forall i | 0 <= i < n :: !Repeats(states[i], steps[i])
  {
    if n == 0 {
      NothingRepeats();
    } else {
      DistinctUnlessRepeated(states, steps, n - 1);
      RunStaysSound(states, steps, n - 1);
      assert Steps(states[n - 1], steps[n - 1], states[n]);
      WindowIsLogged(states[n - 1]);
      hide *;
      StepRepeats(states[n - 1], steps[n - 1], states[n]);
    }
  }

  lemma WindowIsLogged(s: System)
    requires Sound(s)
    ensures forall e | e in s.window :: e in s.log
  {
    hide RowsDistinct, InboxSound, Committed;
  }

  /** A lapse can repeat one: a relay that stopped between the publish and the mark publishes its row again. */
  lemma LapseCanRepeat()
    ensures exists states: seq<System>, steps: seq<Step>, n: nat :: Run(states, steps) && n <= |steps| && !Distinct(states[n].log)
  {
    var e := Identity("s", "1");
    var states, steps := StoppedRelay(e);
    var n := |steps|;
    var s := states[n];
    var s7 := s.(held := map[0 := false]);
    var s8 := s.(held := map[0 := true], log := [e, e], window := {e});
    assert Steps(s, Claim(0), s7);
    assert Steps(s7, Send(0, true), s8) by {
      assert [e] + [e] == [e, e] && {} + {e} == {e};
    }
    assert s8.log[0] == s8.log[1];
    hide Steps;
    RunNext(states, steps, Claim(0), s7);
    RunNext(states + [s7], steps + [Claim(0)], Send(0, true), s8);
    assert (states + [s7] + [s8])[n + 2] == s8;
  }

  /** A relay published the row and stopped before the mark; then the window lapsed. */
  lemma StoppedRelay(e: Identity) returns (states: seq<System>, steps: seq<Step>)
    ensures Run(states, steps)
    ensures states[|steps|] == EMPTY.(next := 1, rows := map[0 := Row(e, false)], log := [e])
  {
    var s1 := EMPTY.(staged := map[0 := Staged(0, e)], next := 1);
    var s2 := s1.(staged := map[], rows := map[0 := Row(e, false)]);
    assert Steps(EMPTY, Insert(0, e), s1);
    CommitsOne(e, s1, s2);
    var s3 := s2.(held := map[0 := false]);
    var s4 := s3.(held := map[0 := true], log := [e], window := {e});
    var s5 := s4.(held := map[]);
    var s6 := s5.(window := {});
    assert Steps(s2, Claim(0), s3);
    assert Steps(s3, Send(0, true), s4) by {
      assert [] + [e] == [e] && {} + {e} == {e};
    }
    assert Steps(s4, Release(0), s5) by {
      assert s4.held - {0} == map[];
    }
    assert Steps(s5, Lapse(e), s6);
    assert s6 == EMPTY.(next := 1, rows := map[0 := Row(e, false)], log := [e]);
    hide Steps;
    states, steps := [EMPTY], [];
    RunNext(states, steps, Insert(0, e), s1);
    states, steps := states + [s1], steps + [Insert(0, e)];
    RunNext(states, steps, Commit(0), s2);
    states, steps := states + [s2], steps + [Commit(0)];
    RunNext(states, steps, Claim(0), s3);
    states, steps := states + [s3], steps + [Claim(0)];
    RunNext(states, steps, Send(0, true), s4);
    states, steps := states + [s4], steps + [Send(0, true)];
    RunNext(states, steps, Release(0), s5);
    states, steps := states + [s5], steps + [Release(0)];
    RunNext(states, steps, Lapse(e), s6);
    states, steps := states + [s6], steps + [Lapse(e)];
  }

  lemma RunNext(states: seq<System>, steps: seq<Step>, step: Step, n: System)
    requires Run(states, steps) && Steps(states[|steps|], step, n)
    ensures Run(states + [n], steps + [step])
  {
    hide Steps;
  }

  lemma CommitsOne(e: Identity, s: System, n: System)
    requires s == EMPTY.(staged := map[0 := Staged(0, e)], next := 1)
    requires n == s.(staged := map[], rows := map[0 := Row(e, false)])
    ensures Steps(s, Commit(0), n)
  {
    assert RowsOf(s, 0) == {0};
    assert s.staged - {0} == map[];
    assert s.rows + NewRows(s, 0) == map[0 := Row(e, false)];
  }
}
