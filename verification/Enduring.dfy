/** From exercise to operations: the issues of intelligence's desk are what command may rely on. */
module Enduring {
  import opened World
  import opened State
  import opened Sorting
  import opened Observing
  import opened Fusion
  import opened Assessing
  import opened TheaterCheck
  import opened Believing
  import opened Hearing
  import opened Suppressing
  import opened Rounds
  import opened Resolution
  import Deciding
  import Directing
  import Maneuver
  import Moves
  import Route
  import Terrain

  /** The faction's elements alive after the round; of no round of the history, those of the nearest. */
  ghost function AliveAfter(h: seq<HistoryRound>, f: string): Living
    requires h != []
  {
    (n: int) => set e | e in h[Clamp(|h|, n)].state.elements && e.faction == f :: e.id
  }

  /** Everything alive after a round was alive before it, in the same faction. */
  lemma AliveBefore(s: State, orders: seq<Order>, next: State, res: Resolution, w: Passage, e: Element)
    requires ValidState(s) && Resolved(s, orders, next, res, w) && e in next.elements
    ensures exists d :: d in s.elements && d.id == e.id && d.faction == e.faction
  {
    FiredFacts(s, orders, res, w);
    MovedFacts(s, orders);
    var fs := AfterFights(s, orders, w);
    var moved := AfterMoves(s, orders);
    assert |moved| == |s.elements| && |fs| == |moved| by {
      MovedSize(s, orders);
    }
    hide Fired, Captured, CapturesOf, AfterFights, AfterMoves, ValidState;
    var k :| 0 <= k < |next.elements| && next.elements[k] == e;
    var live := w.live[k];
    assert live in w.live;
    var i := LiveIndex(s, orders, res, w, live);
    assert Weakened(moved[i], fs[i]) && moved[i] == s.elements[i].(at := moved[i].at);
    assert s.elements[i] in s.elements;
  }

  lemma MovedSize(s: State, orders: seq<Order>)
    ensures |AfterMoves(s, orders)| == |s.elements|
  {
  }

  lemma LiveIndex(s: State, orders: seq<Order>, res: Resolution, w: Passage, f: Element) returns (i: nat)
    requires Fired(s, orders, res, w) && f in w.live
    ensures i < |AfterFights(s, orders, w)|
    ensures f.id == AfterFights(s, orders, w)[i].id && f.faction == AfterFights(s, orders, w)[i].faction
  {
    var es := AfterFights(s, orders, w);
    i :| 0 <= i < |es| && Positive(es[i].health) != [] && f == Buried(es[i]);
  }

  lemma AliveShrinks(h: seq<HistoryRound>, f: string, n: nat)
    requires Recorded(h) && 0 < n < |h|
    ensures AliveAfter(h, f)(n) <= AliveAfter(h, f)(n - 1)
  {
    hide *;
    RecordStaysValid(h, n - 1);
    RoundAt(h, n);
    forall e | e in h[n].state.elements ensures exists d :: d in h[n - 1].state.elements && d.id == e.id && d.faction == e.faction {
      AliveBeforeTo(h[n - 1].state, h[n].state, h[n].resolution.value, e);
    }
    AliveWithin(h, f, n);
  }

  lemma AliveBeforeTo(s: State, next: State, res: Resolution, e: Element)
    requires ValidState(s) && ResolvedTo(s, next, res) && e in next.elements
    ensures exists d :: d in s.elements && d.id == e.id && d.faction == e.faction
  {
    var orders, w :| Resolved(s, orders, next, res, w);
    hide *;
    AliveBefore(s, orders, next, res, w, e);
  }

  lemma AliveWithin(h: seq<HistoryRound>, f: string, n: nat)
    requires 0 < n < |h|
    requires forall e | e in h[n].state.elements :: exists d :: d in h[n - 1].state.elements && d.id == e.id && d.faction == e.faction
    ensures AliveAfter(h, f)(n) <= AliveAfter(h, f)(n - 1)
  {
  }

  lemma {:induction false} AliveAntitone(h: seq<HistoryRound>, f: string, m: nat, n: nat)
    requires Recorded(h) && m <= n < |h|
    ensures AliveAfter(h, f)(n) <= AliveAfter(h, f)(m)
  {
    hide Recorded, AliveAfter;
    if m < n {
      AliveAntitone(h, f, m, n - 1);
      AliveShrinks(h, f, n);
    }
  }

  /** Over any run the live elements only ever become fewer. */
  lemma HistoryShrinks(h: seq<HistoryRound>, f: string)
    requires h != [] && Recorded(h)
    ensures Shrinking(AliveAfter(h, f))
  {
    hide Recorded;
    forall m: int, n: int | m <= n ensures AliveAfter(h, f)(n) <= AliveAfter(h, f)(m) {
      AliveClamped(h, f, m);
      AliveClamped(h, f, n);
      hide AliveAfter;
      AliveAntitone(h, f, Clamp(|h|, m), Clamp(|h|, n));
    }
  }

  function Clamp(size: nat, n: int): (i: nat)
    requires 0 < size
    ensures i < size
  {
    if n < 0 then 0 else if n >= size then size - 1 else n
  }

  lemma AliveClamped(h: seq<HistoryRound>, f: string, n: int)
    requires h != []
    ensures AliveAfter(h, f)(n) == AliveAfter(h, f)(Clamp(|h|, n))
  {
  }

  /** Every issue lists the live elements of its round, each once. */
  lemma IssueIsOf(h: seq<HistoryRound>, side: nat, k: int, grid: seq<Sector>, t: Trace, i: nat)
    requires Hears(h, side, k, grid, t.ds, t.rows, t.issued) && i < |t.ds| && t.issued[i].Some?
    ensures IsOf(AliveAfter(h, Factions(h)[side]), t.issued[i].value)
  {
    hide *;
    HearsAt(h, side, k, grid, t.ds, t.rows, t.issued, i);
    RowsSound(h, side, k, grid, t.ds, t.rows, t.issued, i);
    RowsSound(h, side, k, grid, t.ds, t.rows, t.issued, i + 1);
    RevisionsCount(h, side, k, grid, t, i);
    IssuedIsRow(h, side, k, t.rows[i], t.ds[i], t.rows[i + 1], t.issued[i]);
    SoundOwn(h, side, k, t.rows[i + 1]);
    StepRevision(h, side, k, t.rows[i], t.ds[i], t.rows[i + 1], t.issued[i]);
    OwnIsOf(h, side, t.issued[i].value);
  }

  lemma SoundOwn(h: seq<HistoryRound>, side: nat, k: int, row: Row)
    requires h != [] && Sound(h, side, k, row)
    ensures Viewable(h, side, row.picture.round) && row.picture.round < |h|
    ensures row.picture.own == SortBy(View(h, side, row.picture.round).own, IdOf)
    ensures Ordered(row.picture)
  {
    hide View;
  }

  lemma OwnIsOf(h: seq<HistoryRound>, side: nat, a: Assessment)
    requires h != [] && Recorded(h) && side < 2 && 0 <= a.picture.round < |h| && 0 < a.revision
    requires Viewable(h, side, a.picture.round)
    requires a.picture.own == SortBy(View(h, side, a.picture.round).own, IdOf)
    ensures IsOf(AliveAfter(h, Factions(h)[side]), a)
  {
    hide Recorded, IsOf, AliveAfter, IsObservation, ObservationTellsApart, StrictlySortedBy, DistinctKeys, Factions, View,
         HolderOf;
    var n, f := a.picture.round, Factions(h)[side];
    ViewFacts(h, side, n);
    OwnIds(h[n].state, f, n, View(h, side, n));
    AliveAt(h, f, n);
    ListsIds(AliveAfter(h, f), a);
  }

  lemma AliveAt(h: seq<HistoryRound>, f: string, n: nat)
    requires n < |h|
    ensures AliveAfter(h, f)(n) == set e | e in h[n].state.elements && e.faction == f :: e.id
  {
  }

  lemma ListsIds(live: Living, a: Assessment)
    requires 0 <= a.picture.round && 0 < a.revision && DistinctKeys(a.picture.own, IdOf)
    requires live(a.picture.round) == set e | e in a.picture.own :: e.id
    ensures IsOf(live, a)
  {
  }

  lemma OwnIds(s: State, f: string, round: int, o: Observation)
    requires IsObservation(s, f, round, o)
    ensures DistinctKeys(SortBy(o.own, IdOf), IdOf)
    ensures (set e | e in SortBy(o.own, IdOf) :: e.id) == set e | e in s.elements && e.faction == f :: e.id
  {
    StrictIsDistinct(o.own, IdOf);
    SortedList(o.own, IdOf);
    StrictIsDistinct(SortBy(o.own, IdOf), IdOf);
    assert forall e :: e in o.own <==> e in s.elements && e.faction == f;
    hide *;
    assert forall e :: e in SortBy(o.own, IdOf) <==> e in s.elements && e.faction == f;
  }

  lemma {:induction false} RevisionsCount(h: seq<HistoryRound>, side: nat, k: int, grid: seq<Sector>, t: Trace, n: nat)
    requires Hears(h, side, k, grid, t.ds, t.rows, t.issued) && n <= |t.ds|
    ensures 0 <= t.rows[n].revision
  {
    hide Step, Genuine, Recorded, Factions;
    if n > 0 {
      RevisionsCount(h, side, k, grid, t, n - 1);
      RowsSound(h, side, k, grid, t.ds, t.rows, t.issued, n - 1);
      HearsAt(h, side, k, grid, t.ds, t.rows, t.issued, n - 1);
      StepRevision(h, side, k, t.rows[n - 1], t.ds[n - 1], t.rows[n], t.issued[n - 1]);
    }
  }

  /** Each issue is the next revision, and no later row is of an earlier round. */
  lemma StepRevision(h: seq<HistoryRound>, side: nat, k: int, row: Row, d: Delivery, next: Row, issued: Option<Assessment>)
    requires h != [] && Sound(h, side, k, row) && Step(row, d, k, next, issued)
    ensures next.revision == row.revision + (if issued.Some? then 1 else 0) && row.picture.round <= next.picture.round
    ensures issued.Some? ==> issued.value.revision == next.revision && issued.value.picture == next.picture
  {
    hide Faithful, Step;
    SoundOrdered(h, side, k, row);
    StepKeepsOrder(row, d, k, next, issued);
  }

  lemma SoundOrdered(h: seq<HistoryRound>, side: nat, k: int, row: Row)
    requires h != [] && Sound(h, side, k, row)
    ensures Ordered(row.picture)
  {
  }

  lemma {:induction false} RowsGrow(h: seq<HistoryRound>, side: nat, k: int, grid: seq<Sector>, t: Trace, m: nat, n: nat)
    requires Hears(h, side, k, grid, t.ds, t.rows, t.issued) && m <= n <= |t.ds|
    ensures t.rows[m].revision <= t.rows[n].revision && t.rows[m].picture.round <= t.rows[n].picture.round
  {
    hide Step, Genuine, Recorded, Factions, Sound;
    if m < n {
      RowsGrow(h, side, k, grid, t, m, n - 1);
      RowsSound(h, side, k, grid, t.ds, t.rows, t.issued, n - 1);
      HearsAt(h, side, k, grid, t.ds, t.rows, t.issued, n - 1);
      StepRevision(h, side, k, t.rows[n - 1], t.ds[n - 1], t.rows[n], t.issued[n - 1]);
    }
  }

  lemma IssueRow(h: seq<HistoryRound>, side: nat, k: int, grid: seq<Sector>, t: Trace, i: nat)
    requires Hears(h, side, k, grid, t.ds, t.rows, t.issued) && i < |t.ds| && t.issued[i].Some?
    ensures t.issued[i].value.revision == t.rows[i + 1].revision == t.rows[i].revision + 1
    ensures t.issued[i].value.picture.round == t.rows[i + 1].picture.round
  {
    hide *;
    RowsSound(h, side, k, grid, t.ds, t.rows, t.issued, i);
    HearsAt(h, side, k, grid, t.ds, t.rows, t.issued, i);
    StepRevision(h, side, k, t.rows[i], t.ds[i], t.rows[i + 1], t.issued[i]);
  }

  /** A later revision of a desk is of no earlier round. */
  lemma IssuesInStep(h: seq<HistoryRound>, side: nat, k: int, grid: seq<Sector>, t: Trace, i: nat, j: nat)
    requires Hears(h, side, k, grid, t.ds, t.rows, t.issued)
    requires i < |t.ds| && j < |t.ds| && t.issued[i].Some? && t.issued[j].Some?
    ensures InStep(t.issued[i].value, t.issued[j].value)
  {
    assert |t.rows| == |t.ds| + 1;
    hide Hears;
    IssueRow(h, side, k, grid, t, i);
    IssueRow(h, side, k, grid, t, j);
    if j < i {
      RowsGrow(h, side, k, grid, t, j + 1, i);
    } else {
      RowsGrow(h, side, k, grid, t, i + 1, j + 1);
    }
  }

  /** So a run of command on any of one desk's issues, in any order and repetition, is one that loses nothing. */
  lemma DeskKeepsCommand(h: seq<HistoryRound>, side: nat, k: int, grid: seq<Sector>, t: Trace, ins: seq<Input>)
    requires Hears(h, side, k, grid, t.ds, t.rows, t.issued)
    requires forall n | 0 <= n < |ins| && ins[n].Assessed? :: Issued(t, ins[n].a)
    ensures h != [] && side < 2
    ensures var live := AliveAfter(h, Factions(h)[side]);
            && Shrinking(live)
            && (forall n | 0 <= n < |ins| && ins[n].Assessed? :: IsOf(live, ins[n].a))
            && (forall m, n | 0 <= m < |ins| && 0 <= n < |ins| && ins[m].Assessed? && ins[n].Assessed? ::
                  InStep(ins[m].a, ins[n].a))
  {
    assert h != [] && Recorded(h) && side < 2 && |t.issued| == |t.ds| by {
      hide Step, Genuine, Recorded, Factions;
    }
    hide Hears, Recorded, IsOf, InStep, AliveAfter, Factions, Shrinking;
    HistoryShrinks(h, Factions(h)[side]);
    forall n | 0 <= n < |ins| && ins[n].Assessed? ensures IsOf(AliveAfter(h, Factions(h)[side]), ins[n].a) {
      var i :| 0 <= i < |t.issued| && t.issued[i] == Some(ins[n].a);
      IssueIsOf(h, side, k, grid, t, i);
    }
    forall m, n | 0 <= m < |ins| && 0 <= n < |ins| && ins[m].Assessed? && ins[n].Assessed?
      ensures InStep(ins[m].a, ins[n].a)
    {
      var i :| 0 <= i < |t.issued| && t.issued[i] == Some(ins[m].a);
      var j :| 0 <= j < |t.issued| && t.issued[j] == Some(ins[n].a);
      IssuesInStep(h, side, k, grid, t, i, j);
    }
  }

  // ----- Operations' observations -----

  /** A faction's own elements as operations reads them of an observation. */
  function ReadOwn(own: seq<Element>): (r: seq<Route.Element>)
    ensures |r| == |own| && forall i | 0 <= i < |own| :: r[i] == Maneuver.Reported(own[i])
  {
    seq(|own|, i requires 0 <= i < |own| => Maneuver.Reported(own[i]))
  }

  /** The arrival is the observation of one of the history's rounds. */
  ghost predicate IsView(h: seq<HistoryRound>, side: nat, d: Arrival)
    requires side < 2
  {
    d.Observed? && 0 <= d.round < |h| && Viewable(h, side, d.round) && d.own == ReadOwn(View(h, side, d.round).own)
  }

  /** The observations of a recorded history list the living. */
  lemma ViewLists(h: seq<HistoryRound>, side: nat, d: Arrival)
    requires h != [] && Recorded(h) && side < 2 && IsView(h, side, d)
    ensures Suppressing.Lists(AliveAfter(h, Factions(h)[side]), d.round, d.own)
  {
    var f, n, own := Factions(h)[side], d.round, View(h, side, d.round).own;
    ViewFacts(h, side, n);
    AliveAt(h, f, n);
    assert IsObservation(h[n].state, f, n, View(h, side, n));
    assert forall e :: e in own <==> e in h[n].state.elements && e.faction == f;
    hide AliveAfter, Recorded, View, Factions, IsObservation;
    OwnListed(own, h[n].state.elements, f, d.own, AliveAfter(h, f), n);
  }

  lemma {:induction false} OwnListed(own: seq<Element>, es: seq<Element>, f: string, told: seq<Route.Element>, live: Living,
                                     round: int)
    requires 0 <= round && told == ReadOwn(own) && forall e :: e in own <==> e in es && e.faction == f
    requires live(round) == set e | e in es && e.faction == f :: e.id
    ensures Suppressing.Lists(live, round, told)
  {
    forall id ensures id in live(round) <==> exists r :: r in told && r.id == id {
      if id in live(round) {
        var e :| e in es && e.faction == f && e.id == id;
        var i :| 0 <= i < |own| && own[i] == e;
        assert told[i] in told;
      }
      if r :| r in told && r.id == id {
        var i :| 0 <= i < |told| && told[i] == r;
        assert own[i] in own;
      }
    }
  }

  /** Command's rows and directives over any of the desk's issues, in any order and repetition. */
  ghost predicate CommandRuns(t: Terrain.Terrain, f: string, desk: Trace, ins: seq<Input>, rows: seq<Directing.Direction>,
                              outs: seq<Option<Directing.Directive>>)
  {
    && |rows| == |ins| + 1 && |outs| == |ins|
    && rows[0] == Directing.Direction(f, -1, 0, 0, [], None)
    && (forall i | 0 <= i < |ins| && ins[i].Assessed? :: Issued(desk, ins[i].a))
    && (forall i | 0 <= i < |ins| :: DirectStep(t, rows[i], ins[i], rows[i + 1], outs[i]))
  }

  /** Operations' rows over any of the directives and any of the history's observations, in any order and repetition. */
  ghost predicate OperationsRun(t: Terrain.Terrain, h: seq<HistoryRound>, side: nat, limit: int,
                                outs: seq<Option<Directing.Directive>>, ins: seq<Arrival>, ops: seq<Directing.Operation>,
                                issues: seq<Option<Directing.Issue>>)
    requires side < 2
  {
    && |ops| == |ins| + 1 && |issues| == |ins|
    && ops[0] == Directing.Operation([], map[], 0, -1, true, limit)
    && (forall i | 0 <= i < |ins| && ins[i].Directed? :: Some(ins[i].d) in outs)
    && (forall i | 0 <= i < |ins| && ins[i].Observed? :: IsView(h, side, ins[i]))
    && (forall i | 0 <= i < |ins| :: OperateStep(t, ops[i], ins[i], ops[i + 1], issues[i]))
  }

  lemma DeskDirects(h: seq<HistoryRound>, side: nat, k: int, grid: seq<Sector>, desk: Trace, t: Terrain.Terrain,
                    ins: seq<Input>, rows: seq<Directing.Direction>, outs: seq<Option<Directing.Directive>>)
    requires Hears(h, side, k, grid, desk.ds, desk.rows, desk.issued) && h != [] && side < 2
    requires CommandRuns(t, Factions(h)[side], desk, ins, rows, outs)
    ensures Directs(t, Factions(h)[side], AliveAfter(h, Factions(h)[side]), ins, rows, outs)
  {
    hide Hears, DirectStep, AliveAfter, Factions, IsOf, InStep, Shrinking, Issued;
    DeskKeepsCommand(h, side, k, grid, desk, ins);
  }

  lemma HistoryOperates(h: seq<HistoryRound>, side: nat, t: Terrain.Terrain, limit: int,
                        outs: seq<Option<Directing.Directive>>, ins: seq<Arrival>, ops: seq<Directing.Operation>,
                        issues: seq<Option<Directing.Issue>>)
    requires h != [] && Recorded(h) && side < 2 && OperationsRun(t, h, side, limit, outs, ins, ops, issues)
    ensures Operates(t, AliveAfter(h, Factions(h)[side]), limit, outs, ins, ops, issues)
  {
    hide OperateStep, AliveAfter, Factions, Recorded, Suppressing.Lists, IsView;
    forall i | 0 <= i < |ins| && ins[i].Observed? ensures Suppressing.Lists(AliveAfter(h, Factions(h)[side]), ins[i].round, ins[i].own) {
      ViewLists(h, side, ins[i]);
    }
  }

  /** From the record of an exercise to operations' orders: whatever reaches the three services, and in whatever order, once
      operations has applied the last directive issued, every living element stands where command's decisions send it. */
  lemma HistoryLosesNothing(h: seq<HistoryRound>, side: nat, k: int, grid: seq<Sector>, desk: Trace, t: Terrain.Terrain,
                            ins: seq<Input>, rows: seq<Directing.Direction>, outs: seq<Option<Directing.Directive>>,
                            limit: int, arrivals: seq<Arrival>, ops: seq<Directing.Operation>,
                            issues: seq<Option<Directing.Issue>>, id: string)
    requires Hears(h, side, k, grid, desk.ds, desk.rows, desk.issued) && h != [] && side < 2
    requires CommandRuns(t, Factions(h)[side], desk, ins, rows, outs)
    requires OperationsRun(t, h, side, limit, outs, arrivals, ops, issues)
    requires var row, op, live := rows[|ins|], ops[|arrivals|], AliveAfter(h, Factions(h)[side]);
             op.sequence == row.sequence && id in live(row.round) && (op.round < 0 || id in live(op.round))
    ensures Suppressing.Stands(ops[|arrivals|].standing, id, Directing.WasTold(rows[|ins|].decisions, id))
  {
    assert Recorded(h) by {
      hide Step, Genuine, Factions;
    }
    assert |rows| == |ins| + 1 && |ops| == |arrivals| + 1;
    hide Hears, CommandRuns, OperationsRun, AliveAfter, Factions, Suppressing.Stands, Directing.WasTold, Recorded, Directs, Operates;
    DeskDirects(h, side, k, grid, desk, t, ins, rows, outs);
    HistoryOperates(h, side, t, limit, outs, arrivals, ops, issues);
    NothingLost(t, Factions(h)[side], AliveAfter(h, Factions(h)[side]), ins, rows, outs, limit, arrivals, ops, issues, id);
  }
}
