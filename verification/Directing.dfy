/** Command's service and operations': when a decision is issued as a directive, and what a directive sets. */
module Directing {
  import opened World
  import opened State
  import opened Fusion
  import opened Assessing
  import opened Deciding
  import Command
  import Planning
  import Route
  import Terrain

  // ----- Command -----

  /** One faction's row: the last assessment decided on, the decisions, and how many directives were issued. */
  datatype Direction = Direction(faction: string, round: int, revision: int, sequence: int, decisions: seq<Decision>,
                                 closed: Option<int>)

  /** Every live element's decision, as issued, under the faction's next sequence. */
  datatype Directive = Directive(sequence: int, round: int, decisions: seq<Decision>)

  /** What an element was told: without a decision, it held. */
  function WasTold(ds: seq<Decision>, id: string): Decision {
    var d := WasOf(ds, id);
    if d.Some? then d.value else Decision("", Hold, "", None)
  }

  /** The two direct an element alike: by one rule, to one target or none. */
  predicate SameCourse(a: Decision, b: Decision) {
    a.rule == b.rule && a.target == b.target
  }

  ghost predicate Redirects(prev: seq<Decision>, next: seq<Decision>) {
    exists d :: d in next && !SameCourse(WasTold(prev, d.element), d)
  }

  ghost predicate Decides(t: Terrain.Terrain, row: Direction, a: Assessment, next: Direction, issued: Option<Directive>) {
    if a.revision <= row.revision || (row.closed.Some? && a.picture.round > row.closed.value) then next == row && issued.None?
    else
      && (exists g :: IsGround(t, row.faction, a.picture, g) && next.decisions == Decided(g, row.decisions))
      && var changed := Redirects(row.decisions, next.decisions);
      && next == row.(round := a.picture.round, revision := a.revision, decisions := next.decisions,
                      sequence := if changed then row.sequence + 1 else row.sequence)
      && issued == if changed then Some(Directive(next.sequence, next.round, next.decisions)) else None
  }

  /** The element is told otherwise than it last was: by another rule, or to another target, where one not told was to
      hold. */
  ghost predicate ToldAnew(prev: seq<Decision>, d: Decision) {
    if exists k :: IsLastTold(prev, d.element, k) then
      exists k :: IsLastTold(prev, d.element, k) && (prev[k].rule != d.rule || prev[k].target != d.target)
    else d.rule != Hold || d.target.Some?
  }

  ghost predicate IsLastTold(prev: seq<Decision>, id: string, k: int) {
    0 <= k < |prev| && prev[k].element == id && forall j | k < j < |prev| :: prev[j].element != id
  }

  lemma {:induction false} WasOfLast(prev: seq<Decision>, id: string)
    ensures forall d :: WasOf(prev, id) == Some(d) <==> exists k :: IsLastTold(prev, id, k) && prev[k] == d
  {
    if prev != [] {
      var n := |prev| - 1;
      WasOfLast(prev[..n], id);
      if prev[n].element == id {
        assert IsLastTold(prev, id, n);
      } else {
        forall k ensures IsLastTold(prev, id, k) <==> IsLastTold(prev[..n], id, k) {
          assert forall j | 0 <= j < n :: prev[..n][j] == prev[j];
        }
      }
    }
  }

  lemma CourseTold(prev: seq<Decision>, d: Decision)
    ensures !SameCourse(WasTold(prev, d.element), d) <==> ToldAnew(prev, d)
  {
    WasOfLast(prev, d.element);
    var was := WasOf(prev, d.element);
    if was.Some? {
      var k :| IsLastTold(prev, d.element, k) && prev[k] == was.value;
    } else {
      forall k ensures !IsLastTold(prev, d.element, k) {
        if IsLastTold(prev, d.element, k) {
          assert WasOf(prev, d.element) == Some(prev[k]);
        }
      }
    }
  }

  /** An assessment of a later revision, of no round after the end, is decided on; and the decisions are issued, under the
      next sequence, exactly when one of them tells an element otherwise than it last was told. */
  lemma LaterIsDecided(t: Terrain.Terrain, row: Direction, a: Assessment, next: Direction, issued: Option<Directive>)
    requires Decides(t, row, a, next, issued)
    requires row.revision < a.revision && (row.closed.None? || a.picture.round <= row.closed.value)
    ensures next.revision == a.revision && next.round == a.picture.round && next.faction == row.faction
    ensures exists g :: IsGround(t, row.faction, a.picture, g) && next.decisions == Decided(g, row.decisions)
    ensures issued.Some? <==> exists d: Decision :: d in next.decisions && ToldAnew(row.decisions, d)
    ensures issued.Some? ==> issued.value == Directive(row.sequence + 1, a.picture.round, next.decisions)
    ensures next.sequence == row.sequence + if issued.Some? then 1 else 0
  {
    hide IsGround, Decided, ToldAnew, WasTold, SameCourse;
    forall d: Decision ensures !SameCourse(WasTold(row.decisions, d.element), d) <==> ToldAnew(row.decisions, d) {
      CourseTold(row.decisions, d);
    }
  }

  class Director {
    const t: Terrain.Terrain
    var row: Direction

    constructor (t: Terrain.Terrain, faction: string)
      ensures this.t == t && row == Direction(faction, -1, 0, 0, [], None)
    {
      this.t, row := t, Direction(faction, -1, 0, 0, [], None);
    }

    /** Decides on an assessment of a higher revision, and issues the decisions when one of them redirects an element. */
    method Decide(a: Assessment) returns (issued: Option<Directive>)
      modifies `row
      ensures Decides(t, old(row), a, row, issued)
    {
      if a.revision <= row.revision || (row.closed.Some? && a.picture.round > row.closed.value) {
        return None;
      }
      var next, g := Command.Decide(t, row.faction, a.picture, row.decisions);
      var changed := RedirectsAny(row.decisions, next);
      hide Redirects, IsGround, Decided;
      row := row.(round := a.picture.round, revision := a.revision, decisions := next);
      issued := None;
      if changed {
        row := row.(sequence := row.sequence + 1);
        issued := Some(Directive(row.sequence, row.round, row.decisions));
      }
    }

    method Close(round: int)
      modifies `row
      ensures row == old(row).(closed := Some(round))
    {
      row := row.(closed := Some(round));
    }
  }

  method RedirectsAny(prev: seq<Decision>, next: seq<Decision>) returns (changed: bool)
    ensures changed == Redirects(prev, next)
  {
    var was := Command.StandingById(prev);
    for i := 0 to |next|
      invariant forall j | 0 <= j < i :: SameCourse(WasTold(prev, next[j].element), next[j])
    {
      var d := next[i];
      var before := if d.element in was then was[d.element] else Decision("", Hold, "", None);
      assert WasOf(prev, d.element) == if d.element in was then Some(was[d.element]) else None;
      if !SameCourse(before, d) {
        assert d in next;
        return true;
      }
    }
    changed := false;
  }

  // ----- Operations -----

  type Targets = map<string, Route.Standing>

  /** One faction's row: its live elements, where each is sent and by which rule, and what it last acted on. */
  datatype Operation = Operation(elements: seq<Route.Element>, standing: Targets, sequence: int, round: int, open: bool,
                                 limit: int)

  /** The orders issued for a round. */
  datatype Issue = Issue(round: int, orders: seq<Order>)

  /** A decision with a target sets it, and one without removes it. */
  function Set(standing: Targets, d: Decision): Targets {
    if d.target.None? then standing - {d.element} else standing[d.element := Route.Standing(d.target.value, d.rule)]
  }

  function SetAll(standing: Targets, ds: seq<Decision>): Targets {
    if ds == [] then standing else Set(SetAll(standing, ds[..|ds| - 1]), ds[|ds| - 1])
  }

  /** What operations plans for the elements it last heard of, under their targets. */
  ghost function OrdersOf(t: Terrain.Terrain, op: Operation): seq<Order> {
    Planning.PlanOf(t, op.elements, op.standing)
  }

  /** Orders are issued for the round after the last, while the exercise has one. */
  function IssueFor(op: Operation, orders: seq<Order>): Option<Issue> {
    if op.round + 1 <= op.limit then Some(Issue(op.round + 1, orders)) else None
  }

  ghost predicate Assigns(t: Terrain.Terrain, op: Operation, d: Directive, next: Operation, issued: Option<Issue>) {
    if !op.open || d.sequence <= op.sequence then next == op && issued.None?
    else
      && next == op.(sequence := d.sequence, standing := SetAll(op.standing, d.decisions))
      && issued == if d.round == op.round && op.round + 1 <= op.limit && OrdersOf(t, next) != OrdersOf(t, op)
                   then Some(Issue(op.round + 1, OrdersOf(t, next))) else None
  }

  ghost predicate Maneuvers(t: Terrain.Terrain, op: Operation, round: int, own: seq<Route.Element>, next: Operation,
                            issued: Option<Issue>)
  {
    if !op.open || round <= op.round then next == op && issued.None?
    else
      && next == op.(elements := own, round := round,
                     standing := map id | id in op.standing && (exists e :: e in own && e.id == id) :: op.standing[id])
      && issued == if round + 1 <= op.limit then Some(Issue(round + 1, OrdersOf(t, next))) else None
  }

  // ----- Every run of operations -----

  /** One delivery to operations: a directive, a round's live elements, or the end. */
  datatype Delivery = Directed(d: Directive) | Lives(round: int, own: seq<Route.Element>) | Ends

  ghost predicate Steps(t: Terrain.Terrain, op: Operation, x: Delivery, next: Operation, issued: Option<Issue>) {
    match x
    case Directed(d) => Assigns(t, op, d, next, issued)
    case Lives(round, own) => Maneuvers(t, op, round, own, next, issued)
    case Ends => next == op.(open := false) && issued.None?
  }

  /** The rows and issues of a run over the deliveries, from a new operation. */
  ghost predicate IsRun(t: Terrain.Terrain, limit: int, xs: seq<Delivery>, rows: seq<Operation>,
                        issues: seq<Option<Issue>>)
  {
    && |rows| == |xs| + 1 && |issues| == |xs|
    && rows[0] == Operation([], map[], 0, -1, true, limit)
    && forall n | 0 <= n < |xs| :: Steps(t, rows[n], xs[n], rows[n + 1], issues[n])
  }

  /** The round of the delivery, for one operations acts on: a later round than those before, ahead of the end. */
  ghost predicate ActsOn(xs: seq<Delivery>, n: int) {
    && 0 <= n < |xs| && xs[n].Lives? && xs[n].round > -1
    && (forall m | 0 <= m < n && xs[m].Lives? :: xs[m].round < xs[n].round)
    && (forall m | 0 <= m < n :: !xs[m].Ends?)
  }

  /** The row's round is that of the last delivery acted on, -1 before any, and its elements are that delivery's. */
  ghost predicate LastActedOn(xs: seq<Delivery>, n: nat, row: Operation)
    requires n <= |xs|
  {
    && (row.open <==> forall m | 0 <= m < n :: !xs[m].Ends?)
    && -1 <= row.round
    && (row.open ==> forall m | 0 <= m < n && xs[m].Lives? :: xs[m].round <= row.round)
    && (row.round > -1 ==> exists m :: m < n && ActsOn(xs, m) && xs[m].round == row.round && xs[m].own == row.elements)
  }

  lemma {:induction false} RowsFollow(t: Terrain.Terrain, limit: int, xs: seq<Delivery>, rows: seq<Operation>,
                                      issues: seq<Option<Issue>>, n: nat)
    requires n <= |xs| && IsRun(t, limit, xs, rows, issues)
    ensures LastActedOn(xs, n, rows[n]) && rows[n].limit == limit
  {
    if n > 0 {
      RowsFollow(t, limit, xs, rows, issues, n - 1);
      assert Steps(t, rows[n - 1], xs[n - 1], rows[n], issues[n - 1]);
      hide OrdersOf, SetAll, IsRun;
      RowFollows(t, xs, rows[n - 1], rows[n], issues[n - 1], n - 1);
    }
  }

  lemma RowFollows(t: Terrain.Terrain, xs: seq<Delivery>, row: Operation, next: Operation, issued: Option<Issue>, n: nat)
    requires n < |xs| && LastActedOn(xs, n, row) && Steps(t, row, xs[n], next, issued)
    ensures LastActedOn(xs, n + 1, next) && next.limit == row.limit
  {
    hide OrdersOf, SetAll;
    if xs[n].Lives? && row.open && xs[n].round > row.round {
      assert ActsOn(xs, n);
    } else if row.round > -1 {
      var m :| m < n && ActsOn(xs, m) && xs[m].round == row.round && xs[m].own == row.elements;
      assert m < n + 1;
    }
  }

  /** Over any run, every issue is for the round after the last that operations acted on, within the limit, and orders
      what is planned for that round's elements under the targets standing; and a round acted on ahead of the limit is
      always issued for. */
  lemma IssuesFollow(t: Terrain.Terrain, limit: int, xs: seq<Delivery>, rows: seq<Operation>,
                     issues: seq<Option<Issue>>, n: nat)
    requires n < |xs| && IsRun(t, limit, xs, rows, issues)
    ensures issues[n].Some? ==>
              && issues[n].value.round <= limit
              && issues[n].value.orders == Planning.PlanOf(t, rows[n + 1].elements, rows[n + 1].standing)
              && rows[n + 1].round == issues[n].value.round - 1
              && (forall m | 0 <= m <= n && xs[m].Lives? :: xs[m].round < issues[n].value.round)
    ensures ActsOn(xs, n) ==> rows[n + 1].round == xs[n].round && rows[n + 1].elements == xs[n].own
                              && (issues[n].Some? <==> xs[n].round + 1 <= limit)
  {
    RowsFollow(t, limit, xs, rows, issues, n);
    RowsFollow(t, limit, xs, rows, issues, n + 1);
    assert Steps(t, rows[n], xs[n], rows[n + 1], issues[n]);
    hide SetAll;
    if ActsOn(xs, n) && rows[n].round > -1 {
      var m :| m < n && ActsOn(xs, m) && xs[m].round == rows[n].round;
    }
  }

  class Operator {
    const t: Terrain.Terrain
    var row: Operation

    constructor (t: Terrain.Terrain, limit: int)
      ensures this.t == t && row == Operation([], map[], 0, -1, true, limit)
    {
      this.t, row := t, Operation([], map[], 0, -1, true, limit);
    }

    /** Sets the targets of a directive of a higher sequence; on the round last acted on, issues the orders it changes. */
    method Assign(d: Directive) returns (issued: Option<Issue>)
      modifies `row
      ensures Assigns(t, old(row), d, row, issued)
      ensures issued.Some? <==> && old(row).open && old(row).sequence < d.sequence && d.round == old(row).round
                                && old(row).round + 1 <= old(row).limit
                                && Planning.PlanOf(t, row.elements, row.standing) != Planning.PlanOf(t, old(row).elements, old(row).standing)
      ensures issued.Some? ==> issued.value == Issue(old(row).round + 1, Planning.PlanOf(t, row.elements, row.standing))
    {
      hide Planning.PlanOf;
      if !row.open || d.sequence <= row.sequence {
        return None;
      }
      var before := Planning.Plan(t, row.elements, row.standing);
      var standing := row.standing;
      for i := 0 to |d.decisions|
        invariant standing == SetAll(row.standing, d.decisions[..i])
      {
        assert d.decisions[..i + 1][..i] == d.decisions[..i];
        standing := Set(standing, d.decisions[i]);
      }
      assert d.decisions[..|d.decisions|] == d.decisions;
      row := row.(sequence := d.sequence, standing := standing);
      var after := Planning.Plan(t, row.elements, row.standing);
      issued := if d.round == row.round && before != after then IssueFor(row, after) else None;
    }

    /** Takes the round's live elements, drops the targets of the others, and issues the next round's orders. */
    method Maneuver(round: int, own: seq<Route.Element>) returns (issued: Option<Issue>)
      modifies `row
      ensures Maneuvers(t, old(row), round, own, row, issued)
      ensures issued.Some? <==> old(row).open && old(row).round < round && round + 1 <= old(row).limit
      ensures issued.Some? ==> issued.value == Issue(round + 1, Planning.PlanOf(t, own, row.standing))
    {
      hide Planning.PlanOf;
      if !row.open || round <= row.round {
        return None;
      }
      var ids := set e | e in own :: e.id;
      var standing := map id | id in row.standing && id in ids :: row.standing[id];
      row := row.(elements := own, round := round, standing := standing);
      var orders := Planning.Plan(t, row.elements, row.standing);
      issued := IssueFor(row, orders);
    }

    method Close()
      modifies `row
      ensures row == old(row).(open := false)
    {
      row := row.(open := false);
    }
  }
}
