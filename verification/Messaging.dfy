/** The recorder, the sink, the relay and the inbox, as the code of each takes the pipeline's steps. */
module Messaging {
  import opened World
  import opened Pipeline
  import Events
  import Codec

  /** What outlives a crash, as the processes share it. */
  class Bus {
    var s: System

    constructor ()
      ensures s == EMPTY
    {
      s := EMPTY;
    }
  }

  // ----- Paths -----

  ghost predicate Moves(s: System, n: System) {
    exists step :: Steps(s, step, n)
  }

  ghost predicate Leads(path: seq<System>, s: System, n: System) {
    && path != [] && path[0] == s && path[|path| - 1] == n
    && forall i | 0 < i < |path| :: Moves(path[i - 1], path[i])
  }

  /** Some steps lead from one state to the other. */
  ghost predicate Reaches(s: System, n: System) {
    exists path :: Leads(path, s, n)
  }

  lemma ReachesNext(s: System, m: System, step: Step, n: System)
    requires Reaches(s, m) && Steps(m, step, n)
    ensures Reaches(s, n)
  {
    hide Steps;
    assert Moves(m, n);
    hide Moves;
    var path :| Leads(path, s, m);
    var longer := path + [n];
    assert longer[|path| - 1] == path[|path| - 1] == m;
    assert Leads(longer, s, n);
  }

  lemma ReachesItself(s: System)
    ensures Reaches(s, s)
  {
    assert Leads([s], s, s);
  }

  lemma ReachesTwice(s: System, m: System, n: System)
    requires Reaches(s, m) && Reaches(m, n)
    ensures Reaches(s, n)
  {
    hide Moves;
    var a :| Leads(a, s, m);
    var b :| Leads(b, m, n);
    var path := a + b[1..];
    forall i | 0 < i < |path| ensures Moves(path[i - 1], path[i]) {
      if i < |a| {
        assert path[i - 1] == a[i - 1] && path[i] == a[i];
      } else {
        assert path[i] == b[i - |a| + 1] && path[i - 1] == b[i - |a|];
      }
    }
    assert Leads(path, s, n);
  }

  lemma {:induction false} PathStaysSound(path: seq<System>, s: System, n: System)
    requires Sound(s) && Leads(path, s, n)
    ensures Sound(n)
    decreases |path|
  {
    hide Sound, Steps;
    var last := |path| - 1;
    if last > 0 {
      assert Moves(path[last - 1], path[last]);
      PathStaysSound(path[..last], s, path[last - 1]);
      var step :| Steps(path[last - 1], step, path[last]);
      StepKeepsSound(path[last - 1], step, n);
    }
  }

  /** Whatever the code below does, the system it leaves is sound. */
  lemma ReachesSound(s: System, n: System)
    requires Sound(s) && Reaches(s, n)
    ensures Sound(n)
  {
    hide Sound, Leads;
    var path :| Leads(path, s, n);
    PathStaysSound(path, s, n);
  }

  // ----- The sink -----

  function IdentityOf(e: Events.Event): Identity { Identity(e.source, e.id) }

  /** The state once the transaction has inserted the events' rows, in their order. */
  function Wrote(s: System, tx: nat, es: seq<Events.Event>): System {
    if es == [] then s else Inserted(Wrote(s, tx, es[..|es| - 1]), tx, IdentityOf(es[|es| - 1]))
  }

  lemma WroteNext(s: System, tx: nat, es: seq<Events.Event>, n: nat)
    requires n < |es|
    ensures Wrote(s, tx, es[..n + 1]) == Inserted(Wrote(s, tx, es[..n]), tx, IdentityOf(es[n]))
  {
    assert es[..n + 1][..n] == es[..n];
  }

  /** Inserts each event's row, in order, until one fails: an invalid event, or one whose source and ID has a row. */
  method Write(bus: Bus, tx: nat, es: seq<Events.Event>, clock: Codec.Clockwork) returns (ok: bool, ghost written: nat)
    modifies bus
    ensures written <= |es| && (ok <==> written == |es|)
    ensures bus.s == Wrote(old(bus.s), tx, es[..written]) && Reaches(old(bus.s), bus.s)
    ensures forall i | 0 <= i < written :: Events.IsValid(es[i])
    ensures !ok ==> !Events.IsValid(es[written]) || !Unlisted(bus.s, IdentityOf(es[written]))
  {
    ghost var before := bus.s;
    written := 0;
    ReachesItself(before);
    for i := 0 to |es|
      invariant written == i && bus.s == Wrote(before, tx, es[..i]) && Reaches(before, bus.s)
      invariant forall j | 0 <= j < i :: Events.IsValid(es[j])
    {
      hide Reaches, Events.IsValid, Unlisted, Wrote, Inserted;
      var inserted := InsertOne(bus, tx, es[i], clock);
      if !inserted {
        return false, i;
      }
      WroteNext(before, tx, es, i);
      written := i + 1;
    }
    ok := true;
  }

  /** One event is inserted, unless it is invalid or listed. */
  method InsertOne(bus: Bus, tx: nat, e: Events.Event, clock: Codec.Clockwork) returns (inserted: bool)
    modifies bus
    ensures inserted <==> Events.IsValid(e) && Unlisted(old(bus.s), IdentityOf(e))
    ensures bus.s == if inserted then Inserted(old(bus.s), tx, IdentityOf(e)) else old(bus.s)
    ensures forall first | Reaches(first, old(bus.s)) :: Reaches(first, bus.s)
  {
    hide *;
    var encoded := Codec.Encode(e, clock);
    if encoded.Err? || !Unlisted(bus.s, IdentityOf(e)) {
      return false;
    }
    ghost var before := bus.s;
    bus.s := Inserted(bus.s, tx, IdentityOf(e));
    InsertReaches(before, tx, e);
    inserted := true;
  }

  lemma InsertReaches(s: System, tx: nat, e: Events.Event)
    requires Unlisted(s, IdentityOf(e))
    ensures forall first | Reaches(first, s) :: Reaches(first, Inserted(s, tx, IdentityOf(e)))
  {
    hide Reaches;
    forall first | Reaches(first, s) ensures Reaches(first, Inserted(s, tx, IdentityOf(e))) {
      ReachesNext(first, s, Insert(tx, IdentityOf(e)), Inserted(s, tx, IdentityOf(e)));
    }
  }

  // ----- The recorder -----

  /** What a command's body comes to: the state it leaves, unless it failed, and the events it raised, unless a raise
      failed. */
  datatype Outcome<S> = Outcome(state: Option<S>, raised: Option<seq<Events.Event>>)

  function Stamp(e: Events.Event, id: string, source: string, now: Events.Time): Events.Event {
    e.(id := id, source := source, time := now.(zone := Events.UTC))
  }

  function Stamped(es: seq<Events.Event>, ids: seq<string>, source: string, now: Events.Time): (r: seq<Events.Event>)
    requires |ids| >= |es|
    ensures |r| == |es|
  {
    seq(|es|, i requires 0 <= i < |es| => Stamp(es[i], ids[i], source, now))
  }

  method StampAll(es: seq<Events.Event>, ids: seq<string>, source: string, now: Events.Time)
    returns (stamped: Option<seq<Events.Event>>)
    requires |ids| >= |es|
    ensures stamped.Some? <==> forall e | e in Stamped(es, ids, source, now) :: Events.IsValid(e)
    ensures stamped.Some? ==> stamped.value == Stamped(es, ids, source, now)
  {
    ghost var all := Stamped(es, ids, source, now);
    var out: seq<Events.Event> := [];
    for i := 0 to |es|
      invariant |out| == i && out == all[..i] && forall j | 0 <= j < i :: Events.IsValid(all[j])
    {
      hide Events.IsValid;
      var e := Stamp(es[i], ids[i], source, now);
      assert e == all[i];
      var faults := Events.Validate(e);
      if faults != [] {
        assert all[i] in all;
        return None;
      }
      out := out + [e];
    }
    stamped := Some(out);
  }

  /** Stamps what the body raised and writes it in the transaction, in order; a failure of either fails the command. */
  method Emit<S>(bus: Bus, tx: nat, body: Outcome<S>, source: string, ids: seq<string>, now: Events.Time,
                 clock: Codec.Clockwork)
    returns (ok: bool, ghost es: seq<Events.Event>)
    requires body.raised.Some? ==> |ids| >= |body.raised.value|
    modifies bus
    ensures Reaches(old(bus.s), bus.s) && bus.s == Wrote(old(bus.s), tx, es)
    ensures ok ==> body.state.Some? && body.raised.Some? && es == Stamped(body.raised.value, ids, source, now)
    ensures body.state.None? || body.raised.None? ==> !ok && es == []
    ensures !ok && body.state.Some? && body.raised.Some? ==>
              var all := Stamped(body.raised.value, ids, source, now);
              if forall e | e in all :: Events.IsValid(e)
              then es < all && !Unlisted(bus.s, IdentityOf(all[|es|])) else es == []
  {
    ReachesItself(bus.s);
    if body.state.None? || body.raised.None? {
      return false, [];
    }
    hide Reaches;
    var stamped := StampAll(body.raised.value, ids, source, now);
    if stamped.None? {
      return false, [];
    }
    hide Wrote, Stamped, Events.IsValid;
    ghost var written;
    ok, written := Write(bus, tx, stamped.value, clock);
    es := stamped.value[..written];
    assert !ok ==> stamped.value[written] in stamped.value;
  }

  /** A command's transaction: its state and its events commit together, or neither does. */
  method Transact<S>(bus: Bus, tx: nat, state: S, body: Outcome<S>, source: string, ids: seq<string>, now: Events.Time,
                     clock: Codec.Clockwork)
    returns (next: S, ok: bool)
    requires body.raised.Some? ==> |ids| >= |body.raised.value|
    requires RowsDistinct(bus.s) && RowsOf(bus.s, tx) == {}
    modifies bus
    ensures Reaches(old(bus.s), bus.s) && bus.s.staged == old(bus.s.staged)
    ensures !ok ==> next == state && bus.s.rows == old(bus.s.rows)
    ensures ok ==> && body.state == Some(next) && body.raised.Some?
                   && RowsAdded(old(bus.s), Stamped(body.raised.value, ids, source, now), bus.s)
  {
    ghost var before := bus.s;
    hide Reaches, Wrote, Stamped, RowsAdded, RowsOf, NewRows, RowsDistinct;
    ghost var es;
    ok, es := Emit(bus, tx, body, source, ids, now, clock);
    ghost var m := bus.s;
    OwnRows(before, tx, es);
    if ok {
      bus.s := CommittedBy(bus.s, tx);
      ReachesNext(before, m, Commit(tx), bus.s);
      next := body.state.value;
    } else {
      bus.s := Aborted(bus.s, tx);
      ReachesNext(before, m, Abort(tx), bus.s);
      next := state;
    }
  }

  /** The events have rows, unpublished, numbered on from the last in their order; the other rows are as they were. */
  ghost predicate RowsAdded(s: System, es: seq<Events.Event>, n: System) {
    && n.next == s.next + |es|
    && (forall r :: r in n.rows <==> r in s.rows || s.next <= r < s.next + |es|)
    && (forall r | r in s.rows :: n.rows[r] == s.rows[r])
    && (forall r | s.next <= r < s.next + |es| :: n.rows[r] == Row(IdentityOf(es[r - s.next]), false))
  }

  /** What a transaction's writes stage, row by row. */
  lemma {:induction false} WroteRows(s: System, tx: nat, es: seq<Events.Event>)
    ensures var n := Wrote(s, tx, es);
            && n == s.(staged := n.staged, next := s.next + |es|)
            && (forall r :: r in n.staged <==> r in s.staged || s.next <= r < s.next + |es|)
            && (forall r | r in s.staged && r < s.next :: n.staged[r] == s.staged[r])
            && (forall r | s.next <= r < s.next + |es| :: n.staged[r] == Staged(tx, IdentityOf(es[r - s.next])))
  {
    if es != [] {
      WroteRows(s, tx, es[..|es| - 1]);
    }
  }

  /** Committing or aborting the transaction takes its rows, which are the ones just written, off the staged. */
  lemma OwnRows(s: System, tx: nat, es: seq<Events.Event>)
    requires RowsDistinct(s) && RowsOf(s, tx) == {}
    ensures var n := Wrote(s, tx, es);
            && n.staged - RowsOf(n, tx) == s.staged && n.rows == s.rows
            && RowsAdded(s, es, CommittedBy(n, tx))
  {
    WroteRows(s, tx, es);
    assert forall r | r in s.rows || r in s.staged :: r < s.next;
    var n := Wrote(s, tx, es);
    hide Wrote, RowsDistinct;
    forall r ensures r in RowsOf(n, tx) <==> s.next <= r < s.next + |es| {
      if r in s.staged {
        assert r !in RowsOf(s, tx);
      }
    }
    assert n.staged - RowsOf(n, tx) == s.staged by {
      hide RowsOf;
    }
    OwnAdded(s, tx, es, n);
  }

  lemma OwnAdded(s: System, tx: nat, es: seq<Events.Event>, n: System)
    requires n == s.(staged := n.staged, next := s.next + |es|)
    requires forall r :: r in RowsOf(n, tx) <==> s.next <= r < s.next + |es|
    requires forall r | s.next <= r < s.next + |es| :: r in n.staged && n.staged[r] == Staged(tx, IdentityOf(es[r - s.next]))
    requires forall r | r in s.rows :: r < s.next
    ensures RowsAdded(s, es, CommittedBy(n, tx))
  {
    var c, added := CommittedBy(n, tx), NewRows(n, tx);
    assert forall r :: r in added <==> s.next <= r < s.next + |es|;
    assert forall r | r in added :: added[r] == Row(n.staged[r].event, false);
    assert c.rows == s.rows + added && c.next == n.next;
    hide NewRows, RowsOf, CommittedBy;
  }

  // ----- The relay -----

  /** Where a row's handling fails: nowhere, at the claim, as the row cannot be decoded, at the publish, which the broker
      may have taken, or after. */
  datatype Fault = Nowhere | AtClaim | Corrupt | AtPublish(taken: bool) | AtMark

  predicate Waiting(s: System, row: nat) {
    row in s.rows && !s.rows[row].published && row !in s.held
  }

  method OldestRow(s: System) returns (row: Option<nat>)
    ensures row.Some? ==> Oldest(s, row.value)
    ensures row.None? ==> forall r :: !Waiting(s, r)
  {
    var waiting := set r | r in s.rows && Waiting(s, r);
    row := None;
    var left := waiting;
    while left != {}
      invariant left <= waiting
      invariant row.None? ==> left == waiting
      invariant row.Some? ==> row.value in waiting && forall r | r in waiting && r !in left :: row.value <= r
    {
      var r :| r in left;
      if row.None? || r < row.value {
        row := Some(r);
      }
      left := left - {r};
    }
    assert forall r | Waiting(s, r) :: r in waiting;
    assert forall r | r in s.rows && !s.rows[r].published && r !in s.held :: Waiting(s, r);
  }

  /** Handles the oldest unclaimed row: claims it, publishes its event, marks it and commits; a failure anywhere rolls
      back, and leaves the row to be published again. */
  method Next(bus: Bus, fault: Fault) returns (handled: bool, failed: bool, ghost row: nat)
    requires OutboxSound(bus.s)
    modifies bus
    ensures Reaches(old(bus.s), bus.s)
    ensures !handled && !failed ==> bus.s == old(bus.s) && forall r :: !Waiting(bus.s, r)
    ensures handled ==> && !failed && Oldest(old(bus.s), row)
                        && bus.s.rows == old(bus.s.rows)[row := old(bus.s.rows)[row].(published := true)]
                        && bus.s.rows[row].event in bus.s.log
    ensures failed ==> !handled && fault != Nowhere && bus.s.rows == old(bus.s.rows)
    ensures fault in {AtClaim, Corrupt} ==> bus.s.log == old(bus.s.log)
    ensures bus.s.held == old(bus.s.held) && old(bus.s.log) <= bus.s.log
  {
    ghost var before := bus.s;
    row := 0;
    ReachesItself(before);
    if fault == AtClaim {
      return false, true, 0;
    }
    var oldest := OldestRow(bus.s);
    if oldest.None? {
      return false, false, 0;
    }
    var claimed := oldest.value;
    row := claimed;
    hide Reaches, OutboxSound;
    WindowLogged(before, before.rows[row].event);
    ReachesNext(before, before, Claim(claimed), Held(before, claimed));
    bus.s := Held(bus.s, claimed);
    handled := PublishHeld(bus, claimed, fault, before);
    failed := !handled;
  }

  /** The held row's publish and mark, or its release. */
  method PublishHeld(bus: Bus, row: nat, fault: Fault, ghost before: System) returns (handled: bool)
    requires fault != AtClaim && row in before.rows && row !in before.held
    requires bus.s == Held(before, row) && Reaches(before, bus.s)
    requires before.rows[row].event in before.window ==> before.rows[row].event in before.log
    modifies bus
    ensures Reaches(before, bus.s) && bus.s.held == before.held && before.log <= bus.s.log
    ensures handled <==> fault == Nowhere
    ensures fault == Corrupt ==> bus.s.log == before.log
    ensures handled ==> && bus.s.rows == before.rows[row := before.rows[row].(published := true)]
                        && bus.s.rows[row].event in bus.s.log
    ensures !handled ==> bus.s.rows == before.rows
  {
    hide Reaches;
    if fault != Corrupt && fault != AtPublish(false) {
      var answered := fault != AtPublish(true);
      ReachesNext(before, bus.s, Send(row, answered), Sent(bus.s, row, answered));
      bus.s := Sent(bus.s, row, answered);
    }
    handled := fault == Nowhere;
    if handled {
      ReachesNext(before, bus.s, Mark(row), Marked(bus.s, row));
      bus.s := Marked(bus.s, row);
    } else {
      ReachesNext(before, bus.s, Release(row), Released(bus.s, row));
      bus.s := Released(bus.s, row);
    }
    assert bus.s.held == before.held;
  }

  /** The rows a pass still has to publish. */
  function Unpublished(s: System): set<nat> {
    set r | r in s.rows && Waiting(s, r)
  }

  lemma HandledLeaves(s: System, row: nat, n: System)
    requires Oldest(s, row) && n.held == s.held && n.rows == s.rows[row := s.rows[row].(published := true)]
    ensures |Unpublished(n)| + 1 == |Unpublished(s)|
  {
    assert row in Unpublished(s);
    assert Unpublished(n) == Unpublished(s) - {row};
  }

  /** The rows stay, with their events; the log grows; a row newly published is in it. */
  ghost predicate Relayed(s: System, n: System) {
    && n.rows.Keys == s.rows.Keys && n.held == s.held && s.log <= n.log
    && forall r | r in s.rows ::
         && n.rows[r].event == s.rows[r].event
         && (n.rows[r].published ==> s.rows[r].published || n.rows[r].event in n.log)
  }

  lemma RelayedTwice(a: System, b: System, c: System)
    requires Relayed(a, b) && Relayed(b, c)
    ensures Relayed(a, c)
  {
    forall r | r in a.rows ensures c.rows[r].published ==> a.rows[r].published || c.rows[r].event in c.log {
      if b.rows[r].published && !a.rows[r].published {
        var i :| 0 <= i < |b.log| && b.log[i] == b.rows[r].event;
        assert c.log[i] == c.rows[r].event;
      }
    }
  }

  /** Handles rows, oldest first, until none is left, one fails, or the pass is cut short after `steps` of them: a pass
      that is neither leaves every row published that no other relay holds. */
  method Pass(bus: Bus, faults: nat -> Fault, steps: nat) returns (failed: bool, done: bool)
    requires Sound(bus.s)
    modifies bus
    ensures Reaches(old(bus.s), bus.s) && Relayed(old(bus.s), bus.s)
    ensures done ==> !failed && forall r | r in bus.s.rows && r !in bus.s.held :: && bus.s.rows[r].published
                                                                               && bus.s.rows[r].event in bus.s.log
    ensures (forall i :: faults(i) == Nowhere) ==> !failed && (done <==> |Unpublished(old(bus.s))| < steps)
  {
    hide Reaches, Oldest, Sound, Unpublished, Relayed;
    ghost var before := bus.s;
    ReachesItself(before);
    RelayedItself(before);
    for i := 0 to steps
      invariant Reaches(before, bus.s) && Sound(bus.s) && Relayed(before, bus.s)
      invariant |Unpublished(bus.s)| + i <= |Unpublished(before)|
      invariant (forall k :: faults(k) == Nowhere) ==> |Unpublished(bus.s)| + i == |Unpublished(before)|
    {
      ghost var s := bus.s;
      SoundOutbox(s);
      ghost var row;
      var handled;
      handled, failed, row := Next(bus, faults(i));
      ReachesTwice(before, s, bus.s);
      ReachesSound(s, bus.s);
      RelayedNext(s, bus.s, handled, failed, row);
      RelayedTwice(before, s, bus.s);
      if failed || !handled {
        return failed, !failed;
      }
    }
    failed, done := false, false;
  }

  lemma SoundOutbox(s: System)
    requires Sound(s)
    ensures OutboxSound(s)
  {
  }

  lemma RelayedItself(s: System)
    ensures Relayed(s, s)
  {
  }

  /** What one call leaves, as the pass counts it. */
  lemma RelayedNext(s: System, n: System, handled: bool, failed: bool, row: nat)
    requires OutboxSound(s) && n.held == s.held && s.log <= n.log && (handled ==> !failed)
    requires !handled && !failed ==> n == s && forall r :: !Waiting(n, r)
    requires handled ==> Oldest(s, row) && n.rows == s.rows[row := s.rows[row].(published := true)] && n.rows[row].event in n.log
    requires failed ==> n.rows == s.rows
    ensures Relayed(s, n)
    ensures handled ==> |Unpublished(n)| + 1 == |Unpublished(s)|
    ensures !handled ==> |Unpublished(n)| == |Unpublished(s)|
    ensures !handled && !failed ==> && Unpublished(n) == {}
                                    && forall r | r in n.rows && r !in n.held :: n.rows[r].published && n.rows[r].event in n.log
  {
    if handled {
      HandledLeaves(s, row, n);
    } else {
      assert Unpublished(n) == Unpublished(s);
      if !failed {
        assert forall r | r in n.rows && r !in n.held :: !Waiting(n, r);
      }
    }
  }

  lemma WindowLogged(s: System, e: Identity)
    requires OutboxSound(s)
    ensures e in s.window ==> e in s.log
  {
    hide Committed;
  }

  // ----- The inbox -----

  /** Records the consumer's handling in its transaction, and tells whether it is the first; a consumer must have a
      name. */
  method ClaimEvent(bus: Bus, h: Handling) returns (first: bool, refused: bool)
    requires InboxSound(bus.s) && h.event in bus.s.log && h !in bus.s.handling
    modifies bus
    ensures refused <==> h.consumer == ""
    ensures refused ==> !first && bus.s == old(bus.s)
    ensures !refused ==> (first <==> Effects(old(bus.s), h) == 0) && (first <==> h !in old(bus.s).inbox)
    ensures !refused ==> Reaches(old(bus.s), bus.s) && bus.s == Taken(old(bus.s), h)
  {
    if h.consumer == "" {
      return false, true;
    }
    refused := false;
    assert Effects(bus.s, h) == if h in bus.s.inbox then 1 else 0;
    hide InboxSound, Reaches;
    first := h !in bus.s.inbox;
    ReachesItself(bus.s);
    ReachesNext(bus.s, bus.s, Take(h), Taken(bus.s, h));
    bus.s := Taken(bus.s, h);
  }

  /** One delivery handled: the event claimed, the effect on a first claim unless it fails, and the commit. An event whose
      handling commits is acknowledged. */
  method Handle(bus: Bus, h: Handling, works: bool) returns (acknowledged: bool)
    requires InboxSound(bus.s) && h.event in bus.s.log && h !in bus.s.handling
    modifies bus
    ensures Reaches(old(bus.s), bus.s)
    ensures acknowledged ==> Effects(bus.s, h) == 1 && h in bus.s.acked
    ensures acknowledged <==> h.consumer != "" && (works || h in old(bus.s).inbox)
    ensures !acknowledged ==> bus.s == old(bus.s)
    ensures forall g | g != h :: Effects(bus.s, g) == Effects(old(bus.s), g)
  {
    ghost var before := bus.s;
    assert Effects(before, h) == if h in before.inbox then 1 else 0;
    hide InboxSound, Reaches;
    var first, refused := ClaimEvent(bus, h);
    if refused {
      ReachesItself(before);
      return false;
    }
    SameEffects(before, bus.s);
    if first && !works {
      ReachesNext(before, bus.s, Fail(h), Failed(bus.s, h));
      bus.s := Failed(bus.s, h);
      assert bus.s.handling == before.handling;
      return false;
    }
    Complete(bus, h, before);
    acknowledged := true;
  }

  /** The commit, and the acknowledgement that follows it. */
  method Complete(bus: Bus, h: Handling, ghost before: System)
    requires Reaches(before, bus.s) && h in bus.s.handling
    requires if bus.s.handling[h] then Effects(bus.s, h) == 0 else h in bus.s.inbox && Effects(bus.s, h) == 1
    modifies bus
    ensures Reaches(before, bus.s) && Effects(bus.s, h) == 1 && h in bus.s.acked
    ensures forall g | g != h :: Effects(bus.s, g) == Effects(old(bus.s), g)
  {
    hide Finished, Effects, Reaches;
    EffectsAfter(bus.s, h);
    ReachesNext(before, bus.s, Finish(h), Finished(bus.s, h));
    bus.s := Finished(bus.s, h);
    SameEffects(bus.s, Acked(bus.s, h));
    ReachesNext(before, bus.s, Ack(h), Acked(bus.s, h));
    bus.s := Acked(bus.s, h);
  }

  lemma SameEffects(s: System, n: System)
    requires n.effects == s.effects
    ensures forall g :: Effects(n, g) == Effects(s, g)
  {
  }

  lemma EffectsAfter(s: System, h: Handling)
    requires h in s.handling && (s.handling[h] ==> Effects(s, h) == 0) && (!s.handling[h] ==> h in s.inbox && Effects(s, h) == 1)
    ensures Effects(Finished(s, h), h) == 1 && h in Finished(s, h).inbox
    ensures forall g | g != h :: Effects(Finished(s, h), g) == Effects(s, g)
  {
  }
}
