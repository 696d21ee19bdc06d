/** Issuing only the decisions that change something loses nothing: operations stands where command has decided. */
module Suppressing {
  import opened World
  import opened State
  import opened Sorting
  import opened Fusion
  import opened Assessing
  import opened Deciding
  import opened Steady
  import opened Directing
  import Route
  import Terrain

  /** The IDs of a faction's live elements after each round. */
  type Living = int -> set<string>

  ghost predicate Shrinking(live: Living) {
    forall m, n | m <= n :: live(n) <= live(m)
  }

  // ----- Command -----

  /** What reaches command: an assessment, or the conclusion. */
  datatype Input = Assessed(a: Assessment) | Concluded(round: int)

  /** The assessment lists the live elements of its round, each once. */
  ghost predicate IsOf(live: Living, a: Assessment) {
    && 0 <= a.picture.round && 0 < a.revision
    && DistinctKeys(a.picture.own, IdOf)
    && (forall id :: id in live(a.picture.round) <==> exists e :: e in a.picture.own && e.id == id)
  }

  /** A later issue is of no earlier round. */
  ghost predicate InStep(a: Assessment, b: Assessment) {
    a.revision < b.revision ==> a.picture.round <= b.picture.round
  }

  ghost predicate DirectStep(t: Terrain.Terrain, row: Direction, d: Input, next: Direction, out: Option<Directive>) {
    match d
    case Assessed(a) => Decides(t, row, a, next, out)
    case Concluded(round) => next == row.(closed := Some(round)) && out.None?
  }

  /** Command's rows and directives, input by input, whatever came and in whatever order. */
  ghost predicate Directs(t: Terrain.Terrain, faction: string, live: Living, ins: seq<Input>, rows: seq<Direction>,
                          outs: seq<Option<Directive>>)
  {
    && Shrinking(live)
    && |rows| == |ins| + 1 && |outs| == |ins|
    && rows[0] == Direction(faction, -1, 0, 0, [], None)
    && (forall i | 0 <= i < |ins| && ins[i].Assessed? :: IsOf(live, ins[i].a))
    && (forall i, j | 0 <= i < |ins| && 0 <= j < |ins| && ins[i].Assessed? && ins[j].Assessed? :: InStep(ins[i].a, ins[j].a))
    && (forall i | 0 <= i < |ins| :: DirectStep(t, rows[i], ins[i], rows[i + 1], outs[i]))
  }

  function Decisions(last: Option<Directive>): seq<Decision> {
    if last.Some? then last.value.decisions else []
  }

  ghost predicate CoversLive(live: Living, round: int, ds: seq<Decision>) {
    forall id | id in live(round) :: WasOf(ds, id).Some?
  }

  /** The last directive still says what command has decided of every live element. */
  ghost predicate Current(live: Living, row: Direction, last: Option<Directive>) {
    && 0 <= row.sequence && 0 <= row.revision
    && (row.sequence == 0 <==> last.None?)
    && (last.Some? ==> last.value.sequence == row.sequence && last.value.round <= row.round
                       && CoversLive(live, last.value.round, last.value.decisions))
    && (row.revision == 0 ==> row.decisions == [] && last.None?)
    && forall id | id in live(row.round) :: SameCourse(WasTold(Decisions(last), id), WasTold(row.decisions, id))
  }

  lemma {:induction false} WasOfListed(ds: seq<Decision>, id: string)
    ensures WasOf(ds, id).Some? ==> WasOf(ds, id).value in ds && WasOf(ds, id).value.element == id
    ensures WasOf(ds, id).None? ==> forall d | d in ds :: d.element != id
  {
    if ds != [] {
      WasOfListed(ds[..|ds| - 1], id);
      assert ds == ds[..|ds| - 1] + [ds[|ds| - 1]];
    }
  }

  /** Command decides for every live element of the round it decides on. */
  lemma DecidesForLive(t: Terrain.Terrain, faction: string, live: Living, a: Assessment, g: Ground, standing: seq<Decision>)
    requires IsOf(live, a) && IsGround(t, faction, a.picture, g)
    ensures CoversLive(live, a.picture.round, Decided(g, standing))
  {
    hide *;
    HomeIsReached(t, faction, a.picture, g);
    GroundOwn(t, faction, a.picture, g);
    DecidedNames(g, standing);
    SortByMembers(a.picture.own, IdOf);
    var ds := Decided(g, standing);
    forall id | id in live(a.picture.round) ensures WasOf(ds, id).Some? {
      LiveIsListed(live, a, id);
      var e :| e in a.picture.own && e.id == id;
      var i :| 0 <= i < |g.own| && g.own[i] == e;
      assert ds[i].element == id && ds[i] in ds;
      WasOfListed(ds, id);
    }
    assert CoversLive(live, a.picture.round, ds) by {
      AllCovered(live, a.picture.round, ds);
    }
  }

  lemma AllCovered(live: Living, round: int, ds: seq<Decision>)
    requires forall id | id in live(round) :: WasOf(ds, id).Some?
    ensures CoversLive(live, round, ds)
  {
  }

  lemma LiveIsListed(live: Living, a: Assessment, id: string)
    requires IsOf(live, a) && id in live(a.picture.round)
    ensures exists e :: e in a.picture.own && e.id == id
  {
  }

  lemma GroundOwn(t: Terrain.Terrain, faction: string, p: Picture, g: Ground)
    requires IsGround(t, faction, p, g)
    ensures g.own == SortBy(p.own, IdOf) && |g.own| == |g.dist|
  {
  }

  lemma DecidesKeepsCurrent(t: Terrain.Terrain, live: Living, row: Direction, last: Option<Directive>, a: Assessment,
                            next: Direction, out: Option<Directive>)
    requires Shrinking(live) && IsOf(live, a) && Current(live, row, last) && Decides(t, row, a, next, out)
    requires a.revision > row.revision ==> row.round <= a.picture.round
    ensures Current(live, next, if out.Some? then out else last)
  {
    if next != row {
      hide *;
      var g := GroundOf(t, row, a, next, out);
      DecidesForLive(t, row.faction, live, a, g, row.decisions);
      StillCurrent(t, live, row, last, a, next, out);
    }
  }

  lemma GroundOf(t: Terrain.Terrain, row: Direction, a: Assessment, next: Direction, out: Option<Directive>) returns (g: Ground)
    requires Decides(t, row, a, next, out) && next != row
    ensures IsGround(t, row.faction, a.picture, g) && |g.own| == |g.dist| && next.decisions == Decided(g, row.decisions)
    ensures a.revision > row.revision && next.round == a.picture.round
  {
    hide AreDistances, Decided, Redirects;
    g :| IsGround(t, row.faction, a.picture, g) && next.decisions == Decided(g, row.decisions);
    GroundOwn(t, row.faction, a.picture, g);
  }

  lemma StillCurrent(t: Terrain.Terrain, live: Living, row: Direction, last: Option<Directive>, a: Assessment,
                     next: Direction, out: Option<Directive>)
    requires Shrinking(live) && IsOf(live, a) && Current(live, row, last)
    requires Decides(t, row, a, next, out) && next != row && row.round <= next.round
    requires CoversLive(live, next.round, next.decisions)
    ensures Current(live, next, if out.Some? then out else last)
  {
    hide IsGround, Decided;
    if out.None? {
      forall id | id in live(next.round) ensures SameCourse(WasTold(Decisions(last), id), WasTold(next.decisions, id)) {
        assert id in live(row.round);
        assert SameCourse(WasTold(Decisions(last), id), WasTold(row.decisions, id));
        CourseKept(row.decisions, next.decisions, id);
      }
    }
    hide WasTold;
  }

  lemma CourseKept(prev: seq<Decision>, next: seq<Decision>, id: string)
    requires !Redirects(prev, next) && WasOf(next, id).Some?
    ensures SameCourse(WasTold(prev, id), WasTold(next, id))
  {
    WasOfListed(next, id);
    hide WasOf;
  }

  /** The last directive among the first `n` outputs. */
  function LastOf(outs: seq<Option<Directive>>, n: nat): Option<Directive>
    requires n <= |outs|
  {
    if n == 0 then None else if outs[n - 1].Some? then outs[n - 1] else LastOf(outs, n - 1)
  }

  /** The row's revision and round are those of an assessment it decided on, or it decided on none. */
  ghost predicate Recalls(ins: seq<Input>, n: nat, row: Direction)
    requires n <= |ins|
  {
    || (row.revision == 0 && row.round == -1)
    || exists i :: 0 <= i < n && ins[i].Assessed? && row.revision == ins[i].a.revision && row.round == ins[i].a.picture.round
  }

  lemma {:induction false} StaysCurrent(t: Terrain.Terrain, faction: string, live: Living, ins: seq<Input>,
                                        rows: seq<Direction>, outs: seq<Option<Directive>>, n: nat)
    requires Directs(t, faction, live, ins, rows, outs) && n <= |ins|
    ensures Current(live, rows[n], LastOf(outs, n)) && Recalls(ins, n, rows[n])
  {
    hide *;
    if n == 0 {
      StartsCurrent(t, faction, live, ins, rows, outs);
    } else {
      StepAt(t, faction, live, ins, rows, outs, n - 1);
      StaysCurrent(t, faction, live, ins, rows, outs, n - 1);
      RecallsNext(t, faction, live, ins, rows, outs, n - 1);
      CurrentNext(t, live, rows[n - 1], LastOf(outs, n - 1), ins[n - 1], rows[n], outs[n - 1]);
      LastNext(outs, n);
    }
  }

  lemma LastNext(outs: seq<Option<Directive>>, n: nat)
    requires 0 < n <= |outs|
    ensures LastOf(outs, n) == if outs[n - 1].Some? then outs[n - 1] else LastOf(outs, n - 1)
  {
  }

  lemma StartsCurrent(t: Terrain.Terrain, faction: string, live: Living, ins: seq<Input>, rows: seq<Direction>,
                      outs: seq<Option<Directive>>)
    requires Directs(t, faction, live, ins, rows, outs)
    ensures Current(live, rows[0], LastOf(outs, 0)) && Recalls(ins, 0, rows[0])
  {
    hide DirectStep, IsOf;
  }

  lemma StepAt(t: Terrain.Terrain, faction: string, live: Living, ins: seq<Input>, rows: seq<Direction>,
               outs: seq<Option<Directive>>, i: nat)
    requires Directs(t, faction, live, ins, rows, outs) && i < |ins|
    ensures Shrinking(live) && |rows| == |ins| + 1 && |outs| == |ins|
    ensures DirectStep(t, rows[i], ins[i], rows[i + 1], outs[i]) && (ins[i].Assessed? ==> IsOf(live, ins[i].a))
  {
    hide DirectStep, IsOf, Shrinking;
  }

  lemma CurrentNext(t: Terrain.Terrain, live: Living, row: Direction, last: Option<Directive>, d: Input, next: Direction,
                    out: Option<Directive>)
    requires Shrinking(live) && Current(live, row, last) && DirectStep(t, row, d, next, out)
    requires d.Assessed? ==> IsOf(live, d.a) && (d.a.revision > row.revision ==> row.round <= d.a.picture.round)
    ensures Current(live, next, if out.Some? then out else last)
  {
    hide IsOf, Decides, Current, Shrinking;
    match d {
      case Assessed(a) => DecidesKeepsCurrent(t, live, row, last, a, next, out);
      case Concluded(_) => ClosedIsCurrent(live, row, last, next);
    }
  }

  lemma ClosedIsCurrent(live: Living, row: Direction, last: Option<Directive>, next: Direction)
    requires Current(live, row, last) && next == row.(closed := next.closed)
    ensures Current(live, next, last)
  {
  }

  lemma RecallsNext(t: Terrain.Terrain, faction: string, live: Living, ins: seq<Input>, rows: seq<Direction>,
                    outs: seq<Option<Directive>>, n: nat)
    requires Directs(t, faction, live, ins, rows, outs) && n < |ins| && Recalls(ins, n, rows[n])
    ensures Recalls(ins, n + 1, rows[n + 1])
    ensures ins[n].Assessed? && ins[n].a.revision > rows[n].revision ==> rows[n].round <= ins[n].a.picture.round
  {
    assert DirectStep(t, rows[n], ins[n], rows[n + 1], outs[n]);
    hide IsGround, Decided, Redirects, Shrinking;
    if ins[n].Assessed? {
      assert IsOf(live, ins[n].a);
      if i :| 0 <= i < n && ins[i].Assessed? && rows[n].revision == ins[i].a.revision && rows[n].round == ins[i].a.picture.round {
        assert InStep(ins[i].a, ins[n].a);
      }
    }
  }

  // ----- Operations -----

  /** What reaches operations: a directive, an observation of a round, or the conclusion. */
  datatype Arrival = Directed(d: Directive) | Observed(round: int, own: seq<Route.Element>) | Ended

  /** The observation lists the live elements of its round. */
  ghost predicate Lists(live: Living, round: int, own: seq<Route.Element>) {
    0 <= round && forall id :: id in live(round) <==> exists e :: e in own && e.id == id
  }

  ghost predicate OperateStep(t: Terrain.Terrain, op: Operation, d: Arrival, next: Operation, out: Option<Issue>) {
    match d
    case Directed(directive) => Assigns(t, op, directive, next, out)
    case Observed(round, own) => Maneuvers(t, op, round, own, next, out)
    case Ended => next == op.(open := false) && out.None?
  }

  /** Operations' rows, arrival by arrival: of what command issued, any directives, in any order and repetition. */
  ghost predicate Operates(t: Terrain.Terrain, live: Living, limit: int, outs: seq<Option<Directive>>, ins: seq<Arrival>,
                           ops: seq<Operation>, issues: seq<Option<Issue>>)
  {
    && |ops| == |ins| + 1 && |issues| == |ins|
    && ops[0] == Operation([], map[], 0, -1, true, limit)
    && (forall i | 0 <= i < |ins| && ins[i].Directed? :: Some(ins[i].d) in outs)
    && (forall i | 0 <= i < |ins| && ins[i].Observed? :: Lists(live, ins[i].round, ins[i].own))
    && (forall i | 0 <= i < |ins| :: OperateStep(t, ops[i], ins[i], ops[i + 1], issues[i]))
  }

  /** The element stands where the decision sends it: at its target by its rule, or without one. */
  predicate Stands(standing: Targets, id: string, d: Decision) {
    if d.target.None? then id !in standing else id in standing && standing[id] == Route.Standing(d.target.value, d.rule)
  }

  lemma {:induction false} SetAllStands(standing: Targets, ds: seq<Decision>, id: string)
    ensures WasOf(ds, id).Some? ==> Stands(SetAll(standing, ds), id, WasOf(ds, id).value)
    ensures WasOf(ds, id).None? ==> (id in SetAll(standing, ds) <==> id in standing)
  {
    if ds != [] {
      SetAllStands(standing, ds[..|ds| - 1], id);
    }
  }

  /** Of the live elements, each stands where the last directive applied sends it. */
  ghost predicate Obeys(live: Living, op: Operation, d: Directive) {
    && d.sequence == op.sequence
    && forall id | id in live(d.round) && (op.round < 0 || id in live(op.round)) :: Stands(op.standing, id, WasTold(d.decisions, id))
  }

  ghost predicate Followed(live: Living, outs: seq<Option<Directive>>, op: Operation) {
    if op.sequence == 0 then op.standing == map[]
    else exists d :: Some(d) in outs && Obeys(live, op, d)
  }

  /** Every directive issued decides for its round's live elements, and its sequence is its own. */
  ghost predicate WellIssued(live: Living, outs: seq<Option<Directive>>) {
    && (forall d | Some(d) in outs :: 0 < d.sequence && CoversLive(live, d.round, d.decisions))
    && (forall d, e | Some(d) in outs && Some(e) in outs && d.sequence == e.sequence :: d == e)
  }

  lemma StepFollows(t: Terrain.Terrain, live: Living, outs: seq<Option<Directive>>, op: Operation, d: Arrival,
                    next: Operation, out: Option<Issue>)
    requires Shrinking(live) && WellIssued(live, outs) && 0 <= op.sequence && Followed(live, outs, op)
    requires d.Directed? ==> Some(d.d) in outs
    requires d.Observed? ==> Lists(live, d.round, d.own)
    requires OperateStep(t, op, d, next, out)
    ensures 0 <= next.sequence && Followed(live, outs, next)
  {
    hide OrdersOf;
    match d {
      case Directed(directive) =>
        if next != op {
          forall id | id in live(directive.round) ensures Stands(next.standing, id, WasTold(directive.decisions, id)) {
            SetAllStands(op.standing, directive.decisions, id);
          }
          hide SetAll, Stands;
          assert Obeys(live, next, directive);
        }
      case Observed(round, own) =>
        if next != op {
          if op.sequence == 0 {
            assert next.standing == map[];
          } else {
            var e :| Some(e) in outs && Obeys(live, op, e);
            assert Obeys(live, next, e);
          }
        }
      case Ended =>
        if op.sequence != 0 {
          var e :| Some(e) in outs && Obeys(live, op, e);
          assert Obeys(live, next, e);
        }
    }
  }

  lemma {:induction false} StaysFollowed(t: Terrain.Terrain, live: Living, limit: int, outs: seq<Option<Directive>>,
                                         ins: seq<Arrival>, ops: seq<Operation>, issues: seq<Option<Issue>>, n: nat)
    requires Shrinking(live) && WellIssued(live, outs) && Operates(t, live, limit, outs, ins, ops, issues) && n <= |ins|
    ensures 0 <= ops[n].sequence && Followed(live, outs, ops[n])
  {
    hide OperateStep, Followed, Lists, Shrinking, WellIssued;
    if n == 0 {
      NothingFollowed(live, outs, limit);
    } else {
      StaysFollowed(t, live, limit, outs, ins, ops, issues, n - 1);
      assert OperateStep(t, ops[n - 1], ins[n - 1], ops[n], issues[n - 1]);
      StepFollows(t, live, outs, ops[n - 1], ins[n - 1], ops[n], issues[n - 1]);
    }
  }

  lemma NothingFollowed(live: Living, outs: seq<Option<Directive>>, limit: int)
    ensures Followed(live, outs, Operation([], map[], 0, -1, true, limit))
  {
  }

  // ----- Both -----

  lemma SequenceGrows(t: Terrain.Terrain, row: Direction, d: Input, next: Direction, out: Option<Directive>)
    requires DirectStep(t, row, d, next, out)
    ensures next.sequence == row.sequence + if out.Some? then 1 else 0
    ensures out.Some? ==> out.value.sequence == next.sequence
  {
    hide IsGround, Decided, Redirects;
  }

  lemma {:induction false} SequencesDiffer(t: Terrain.Terrain, faction: string, live: Living, ins: seq<Input>,
                                           rows: seq<Direction>, outs: seq<Option<Directive>>, n: nat)
    requires Directs(t, faction, live, ins, rows, outs) && n <= |ins|
    ensures forall i | 0 <= i < n && outs[i].Some? :: 0 < outs[i].value.sequence <= rows[n].sequence
    ensures forall i, j | 0 <= i < j < n && outs[i].Some? && outs[j].Some? :: outs[i].value.sequence < outs[j].value.sequence
    ensures 0 <= rows[n].sequence
  {
    hide IsOf, DirectStep, Shrinking;
    if n > 0 {
      SequencesDiffer(t, faction, live, ins, rows, outs, n - 1);
      assert DirectStep(t, rows[n - 1], ins[n - 1], rows[n], outs[n - 1]);
      SequenceGrows(t, rows[n - 1], ins[n - 1], rows[n], outs[n - 1]);
    }
  }

  lemma LastIsIssued(t: Terrain.Terrain, faction: string, live: Living, ins: seq<Input>, rows: seq<Direction>,
                     outs: seq<Option<Directive>>, i: nat)
    requires Directs(t, faction, live, ins, rows, outs) && i < |ins| && outs[i].Some?
    ensures CoversLive(live, outs[i].value.round, outs[i].value.decisions)
  {
    hide *;
    StepAt(t, faction, live, ins, rows, outs, i);
    StaysCurrent(t, faction, live, ins, rows, outs, i + 1);
    LastNext(outs, i + 1);
    LastCovers(live, rows[i + 1], outs[i]);
  }

  lemma LastCovers(live: Living, row: Direction, last: Option<Directive>)
    requires Current(live, row, last) && last.Some?
    ensures CoversLive(live, last.value.round, last.value.decisions)
  {
    hide CoversLive;
  }

  lemma AllWellIssued(t: Terrain.Terrain, faction: string, live: Living, ins: seq<Input>, rows: seq<Direction>,
                      outs: seq<Option<Directive>>)
    requires Directs(t, faction, live, ins, rows, outs)
    ensures WellIssued(live, outs)
  {
    assert |outs| == |ins|;
    SequencesDiffer(t, faction, live, ins, rows, outs, |ins|);
    hide Directs, CoversLive;
    forall d | Some(d) in outs ensures 0 < d.sequence && CoversLive(live, d.round, d.decisions) {
      var i :| 0 <= i < |outs| && outs[i] == Some(d);
      LastIsIssued(t, faction, live, ins, rows, outs, i);
    }
    forall d, e | Some(d) in outs && Some(e) in outs && d.sequence == e.sequence ensures d == e {
      var i :| 0 <= i < |outs| && outs[i] == Some(d);
      var j :| 0 <= j < |outs| && outs[j] == Some(e);
      assert i == j;
    }
  }

  lemma {:induction false} LastAmong(outs: seq<Option<Directive>>, n: nat)
    requires n <= |outs|
    ensures LastOf(outs, n).Some? ==> LastOf(outs, n) in outs
  {
    if n > 0 {
      LastAmong(outs, n - 1);
    }
  }

  /** Once operations has applied the last directive issued, every live element stands where command's decisions, of
      its last assessment, send it; however many later decisions were never issued. */
  lemma NothingLost(t: Terrain.Terrain, faction: string, live: Living, ins: seq<Input>, rows: seq<Direction>,
                    outs: seq<Option<Directive>>, limit: int, arrivals: seq<Arrival>, ops: seq<Operation>,
                    issues: seq<Option<Issue>>, id: string)
    requires Directs(t, faction, live, ins, rows, outs) && Operates(t, live, limit, outs, arrivals, ops, issues)
    requires var row, op := rows[|ins|], ops[|arrivals|];
             && op.sequence == row.sequence
             && id in live(row.round) && (op.round < 0 || id in live(op.round))
    ensures Stands(ops[|arrivals|].standing, id, WasTold(rows[|ins|].decisions, id))
  {
    assert Shrinking(live) && |outs| == |ins|;
    AllWellIssued(t, faction, live, ins, rows, outs);
    StaysCurrent(t, faction, live, ins, rows, outs, |ins|);
    StaysFollowed(t, live, limit, outs, arrivals, ops, issues, |arrivals|);
    LastAmong(outs, |ins|);
    hide Directs, Operates;
    StandsAsDecided(live, outs, rows[|ins|], LastOf(outs, |ins|), ops[|arrivals|], id);
  }

  lemma StandsAsDecided(live: Living, outs: seq<Option<Directive>>, row: Direction, last: Option<Directive>, op: Operation,
                        id: string)
    requires Shrinking(live) && WellIssued(live, outs) && Current(live, row, last) && Followed(live, outs, op)
    requires last.Some? ==> last in outs
    requires op.sequence == row.sequence && id in live(row.round) && (op.round < 0 || id in live(op.round))
    ensures Stands(op.standing, id, WasTold(row.decisions, id))
  {
    hide CoversLive;
    assert SameCourse(WasTold(Decisions(last), id), WasTold(row.decisions, id));
    if op.sequence != 0 {
      var d :| Some(d) in outs && Obeys(live, op, d);
      assert Some(last.value) in outs && d == last.value;
      assert id in live(d.round);
    }
  }
}
