/** Operations against exercise: the orders one service plans are orders the other's rules obey. */
module Maneuver {
  import Keys
  import opened World
  import opened State
  import opened Moves
  import opened Sorting
  import Terrain
  import Search
  import Route
  import Planning

  ghost predicate ClearCell(m: Map, l: Location) {
    var s := FindSector(m.sectors, l.sector);
    s.Some? && Clear(s.value, l.point)
  }

  /** The gates operations tries at a cell come to the one gate exercise finds there. */
  lemma OneGateLeads(m: Map, from: Sector, at: Location, to: Location)
    requires ValidMap(m) && FindSector(m.sectors, at.sector) == Some(from)
    ensures (exists k :: k in from.gates && Terrain.Leads(Terrain.Of(m.sectors), k, at.point) && k.to == to)
            <==> (var g := FindGate(from.gates, at.point); g.Some? && g.value.to == to && ClearCell(m, to))
    ensures var g := FindGate(from.gates, at.point); g.Some? ==> g.value.to.sector != at.sector
  {
    GridOfSector(m.sectors, to.sector);
    var g := FindGate(from.gates, at.point);
    if k :| k in from.gates && Terrain.Leads(Terrain.Of(m.sectors), k, at.point) && k.to == to {
      FindGateUnique(from.gates, k);
    }
    if g.Some? {
      assert Linked(m, from, g.value);
    }
  }

  /** The steps operations lists on the public map are the steps exercise's rules allow. */
  lemma StepsAreAllowed(m: Map, at: Location, to: Location)
    requires ValidMap(m)
    ensures to in Terrain.Steps(Terrain.Of(m.sectors), at) <==> CanStep(m, at, to)
  {
    Terrain.StepsAreTheLegalSteps(Terrain.Of(m.sectors), at, to);
    GridOfSector(m.sectors, at.sector);
    var from := FindSector(m.sectors, at.sector);
    if from.Some? {
      OneGateLeads(m, from.value, at, to);
    }
  }

  lemma {:induction false} GridOfSector(sectors: seq<Sector>, id: string)
    ensures var s, g := FindSector(sectors, id), Terrain.FindGrid(Terrain.Of(sectors), id);
            && (s.Some? <==> g.Some?)
            && (s.Some? ==> && g.value.id == s.value.id && g.value.gates == s.value.gates
                            && forall p :: g.value.Open(p) <==> Clear(s.value, p))
  {
    if sectors != [] && sectors[0].id != id {
      GridOfSector(sectors[1..], id);
      assert Terrain.Of(sectors)[1..] == Terrain.Of(sectors[1..]);
    }
  }

  // ----- What operations reads, and what exercise keeps of its orders -----

  function Reported(e: Element): Route.Element {
    Route.Element(e.id, e.kind, e.status, e.at)
  }

  /** A faction's own elements, as its observation lists them. */
  function Own(es: seq<Element>, f: string): (own: seq<Route.Element>)
    ensures forall r :: r in own <==> exists e :: e in es && e.faction == f && r == Reported(e)
  {
    if es == [] then []
    else
      assert es == [es[0]] + es[1..];
      (if es[0].faction == f then [Reported(es[0])] else []) + Own(es[1..], f)
  }

  /** The faction of the element with the ID, as the first listed has it. */
  predicate Owns(es: seq<Element>, f: string, id: string) {
    exists e :: e in es && e.id == id && e.faction == f
  }

  function OwnedOrders(es: seq<Element>, f: string, recorded: seq<Order>): seq<Order> {
    if recorded == [] then []
    else (if Owns(es, f, recorded[0].element) then [recorded[0]] else []) + OwnedOrders(es, f, recorded[1..])
  }

  /** Each faction's recorded orders, those for its own elements. */
  function OwnOrders(s: State, recorded: map<string, seq<Order>>): seq<Order> {
    (if s.factions.0 in recorded then OwnedOrders(s.elements, s.factions.0, recorded[s.factions.0]) else [])
    + (if s.factions.1 in recorded then OwnedOrders(s.elements, s.factions.1, recorded[s.factions.1]) else [])
  }

  ghost function PlanFor(s: State, f: string, standing: map<string, Route.Standing>): seq<Order> {
    Planning.PlanOf(Terrain.Of(s.world.sectors), Own(s.elements, f), standing)
  }

  // ----- A faction's plan, element by element -----

  lemma {:induction false} OwnDistinct(es: seq<Element>, f: string)
    requires UniqueElements(es)
    ensures DistinctKeys(Own(es, f), Route.IdOf)
  {
    if es != [] {
      OwnDistinct(es[1..], f);
      assert forall r | r in Own(es[1..], f) :: r.id != es[0].id;
    }
  }

  /** What the plan orders of the element with the `k`-th lowest ID. */
  function PlannedOrder(e: Route.Element, standing: map<string, Route.Standing>, path: seq<Location>): Option<Order> {
    if Planning.Pursues(e, standing) then Some(Order(e.id, [], false, true))
    else if path != [] then Some(Order(e.id, path, e.status.Engaged?, false))
    else None
  }

  lemma {:induction false} PlanOrdersEach(es: seq<Route.Element>, standing: map<string, Route.Standing>,
                                          paths: Planning.Paths, n: nat, k: nat)
    requires |paths| == |es| && n <= |es| && k < |es|
    requires DistinctKeys(es, Route.IdOf)
    ensures OrderFor(Planning.OrdersOf(es, standing, paths, n), es[k].id)
            == if k < n then PlannedOrder(es[k], standing, paths[k]) else None
    decreases n
  {
    if n > 0 {
      var before := Planning.OrdersOf(es, standing, paths, n - 1);
      var last := PlannedOrder(es[n - 1], standing, paths[n - 1]);
      assert Planning.OrdersOf(es, standing, paths, n) == before + AsList(last);
      assert last.Some? ==> last.value.element == es[n - 1].id;
      assert k != n - 1 ==> Route.IdOf(es[k]) != Route.IdOf(es[n - 1]);
      hide OrderFor, Planning.OrdersOf, PlannedOrder;
      PlanOrdersEach(es, standing, paths, n - 1, k);
      OrderForConcat(before, AsList(last), es[k].id);
      OrderForOne(last, es[k].id);
    }
  }

  function AsList(o: Option<Order>): seq<Order> {
    if o.Some? then [o.value] else []
  }

  lemma OrderForOne(o: Option<Order>, id: string)
    ensures OrderFor(AsList(o), id) == if o.Some? && o.value.element == id then o else None
  {
    if o.Some? {
      assert AsList(o)[1..] == [];
    }
  }

  lemma {:induction false} PlanOrdersOnlyOwn(es: seq<Route.Element>, standing: map<string, Route.Standing>,
                                             paths: Planning.Paths, n: nat)
    requires |paths| == |es| && n <= |es|
    ensures forall o | o in Planning.OrdersOf(es, standing, paths, n) :: exists e :: e in es && e.id == o.element
    decreases n
  {
    if n > 0 {
      PlanOrdersOnlyOwn(es, standing, paths, n - 1);
      assert es[n - 1] in es;
    }
  }

  lemma {:induction false} OwnedKeepsAll(es: seq<Element>, f: string, recorded: seq<Order>)
    requires forall o | o in recorded :: Owns(es, f, o.element)
    ensures OwnedOrders(es, f, recorded) == recorded
  {
    if recorded != [] {
      OwnedKeepsAll(es, f, recorded[1..]);
    }
  }

  lemma {:induction false} OrderForConcat(a: seq<Order>, b: seq<Order>, id: string)
    ensures OrderFor(a + b, id) == if OrderFor(b, id).Some? then OrderFor(b, id) else OrderFor(a, id)
  {
    if a == [] {
      assert a + b == b;
    } else {
      assert (a + b)[1..] == a[1..] + b;
      OrderForConcat(a[1..], b, id);
    }
  }

  lemma {:induction false} NoOrderFor(orders: seq<Order>, id: string)
    requires forall o | o in orders :: o.element != id
    ensures OrderFor(orders, id) == None
  {
    if orders != [] {
      NoOrderFor(orders[1..], id);
    }
  }

  /** A faction's plan, its elements in ID order and their final paths. */
  datatype FactionPlan = FactionPlan(es: seq<Route.Element>, standing: map<string, Route.Standing>,
                                     first: Planning.Paths, paths: Planning.Paths)

  ghost function PlanData(s: State, f: string, standing: map<string, Route.Standing>): (p: FactionPlan)
    ensures |p.paths| == |p.es| == |p.first|
    ensures PlanFor(s, f, standing) == Planning.OrdersOf(p.es, p.standing, p.paths, |p.es|)
    ensures p.standing == standing
  {
    var t, es := Terrain.Of(s.world.sectors), SortBy(Own(s.elements, f), Route.IdOf);
    FactionPlan(es, standing, Planning.FirstPaths(t, es, standing), Planning.FinalPaths(t, es, standing))
  }

  /** The place in its faction's plan of a state's element. */
  lemma PlaceInPlan(s: State, f: string, standing: map<string, Route.Standing>, e: Element) returns (k: nat)
    requires UniqueElements(s.elements) && e in s.elements && e.faction == f
    ensures var p := PlanData(s, f, standing); k < |p.es| && p.es[k] == Reported(e)
  {
    var own := Own(s.elements, f);
    assert Reported(e) in own;
    SortByMembers(own, Route.IdOf);
    assert Reported(e) in PlanData(s, f, standing).es;
    k :| 0 <= k < |PlanData(s, f, standing).es| && PlanData(s, f, standing).es[k] == Reported(e);
  }

  lemma PlanFacts(s: State, f: string, standing: map<string, Route.Standing>)
    requires UniqueElements(s.elements)
    ensures var p := PlanData(s, f, standing);
            && DistinctKeys(p.es, Route.IdOf)
            && (forall r | r in p.es :: exists e :: e in s.elements && e.faction == f && r == Reported(e))
            && Planning.NoneShared(p.es, Planning.Fights(p.es), p.paths)
            && (forall k | 0 <= k < |p.es| :: Planning.IsPrefix(p.paths[k], p.first[k]))
  {
    var p := PlanData(s, f, standing);
    OwnDistinct(s.elements, f);
    SortByStrict(Own(s.elements, f), Route.IdOf);
    SortByMembers(Own(s.elements, f), Route.IdOf);
    forall i, j | 0 <= i < j < |p.es| ensures p.es[i].id != p.es[j].id {
      Keys.LessTotal(p.es[i].id, p.es[j].id);
      assert Keys.Less(Route.IdOf(p.es[i]), Route.IdOf(p.es[j]));
    }
    Planning.ApartLeavesNoneShared(p.es, Planning.Fights(p.es), p.first);
  }

  // ----- A planned path is a legal order -----

  /** Each cell of the path is one of operations' steps from the cell before it. */
  ghost predicate Leads(m: Map, at: Location, path: seq<Location>)
    decreases |path|
  {
    path == [] || (path[0] in Terrain.Steps(Terrain.Of(m.sectors), at) && Leads(m, path[0], path[1..]))
  }

  lemma {:induction false} LeadsByWalk(m: Map, at: Location, path: seq<Location>)
    requires Search.Walk(Route.StepsOn(Terrain.Of(m.sectors)), [at] + path)
    ensures Leads(m, at, path)
    decreases |path|
  {
    if path != [] {
      var w := [at] + path;
      assert w[1] in Route.StepsOn(Terrain.Of(m.sectors))(w[0]);
      assert [path[0]] + path[1..] == path;
      forall i | 0 <= i < |path| - 1 ensures path[i + 1] in Route.StepsOn(Terrain.Of(m.sectors))(path[i]) {
        assert w[i + 1] == path[i] && w[i + 2] == path[i + 1];
      }
      LeadsByWalk(m, path[0], path[1..]);
    }
  }

  lemma {:induction false} LeadsPrefix(m: Map, at: Location, path: seq<Location>, p: seq<Location>)
    requires Leads(m, at, path) && p <= path
    ensures Leads(m, at, p)
    decreases |p|
  {
    if p != [] {
      LeadsPrefix(m, path[0], path[1..], p[1..]);
    }
  }

  lemma {:induction false} WalksToItsEnd(m: Map, at: Location, path: seq<Location>)
    requires ValidMap(m) && Leads(m, at, path)
    ensures WalkFrom(m, at, path) == Some(if path == [] then at else path[|path| - 1])
    decreases |path|
  {
    if path != [] {
      StepsAreAllowed(m, at, path[0]);
      hide Terrain.Steps, CanStep;
      WalksToItsEnd(m, path[0], path[1..]);
    }
  }

  /** A planned path is legal from where the element stands, and short enough for its kind. */
  lemma FirstPathLegal(m: Map, e: Route.Element, standing: map<string, Route.Standing>)
    ensures var path := Planning.FirstPath(Terrain.Of(m.sectors), e, standing);
            && Leads(m, e.at, path)
            && |path| <= (if e.status.Engaged? then 1 else e.kind.Moves())
  {
    var t := Terrain.Of(m.sectors);
    var path := Planning.FirstPath(t, e, standing);
    if path != [] && !e.status.Engaged? {
      var target := standing[e.id].target;
      var w: seq<Location> :| Search.Preferred(Route.StepsOn(t), e.at, target, w)
                              && Route.BestPath(Route.StepsOn(t), e.at, target) == Some(w[1..]);
      assert [e.at] + w[1..] == w;
      LeadsByWalk(m, e.at, w[1..]);
      LeadsPrefix(m, e.at, w[1..], path);
    }
  }

  lemma FirstPathByStatus(m: Map, e: Route.Element, standing: map<string, Route.Standing>)
    ensures var path := Planning.FirstPath(Terrain.Of(m.sectors), e, standing);
            && (e.status.Recovering? ==> path == [])
            && (Planning.Pursues(e, standing) ==> path == [])
  {
  }

  // ----- The plans are obeyed -----

  /** Where an element that is obeyed ends: at its order's last step, or where it stands. */
  function Obeyed(e: Element, orders: seq<Order>): Location {
    var o := OrderFor(orders, e.id);
    if o.None? || o.value.steps == [] then e.at else o.value.steps[|o.value.steps| - 1]
  }

  /** Both factions' plans, as exercise keeps them for the round. */
  ghost function BothPlans(s: State, a: map<string, Route.Standing>, b: map<string, Route.Standing>): seq<Order> {
    OwnOrders(s, map[s.factions.0 := PlanFor(s, s.factions.0, a), s.factions.1 := PlanFor(s, s.factions.1, b)])
  }

  lemma BothPlansKept(s: State, a: map<string, Route.Standing>, b: map<string, Route.Standing>)
    requires ValidState(s)
    ensures BothPlans(s, a, b) == PlanFor(s, s.factions.0, a) + PlanFor(s, s.factions.1, b)
  {
    PlanOwned(s, s.factions.0, a);
    PlanOwned(s, s.factions.1, b);
  }

  lemma PlanOwned(s: State, f: string, standing: map<string, Route.Standing>)
    requires UniqueElements(s.elements)
    ensures forall o | o in PlanFor(s, f, standing) :: Owns(s.elements, f, o.element)
    ensures OwnedOrders(s.elements, f, PlanFor(s, f, standing)) == PlanFor(s, f, standing)
  {
    var p := PlanData(s, f, standing);
    PlanFacts(s, f, standing);
    PlanOrdersOnlyOwn(p.es, p.standing, p.paths, |p.es|);
    forall o | o in PlanFor(s, f, standing) ensures Owns(s.elements, f, o.element) {
      var r :| r in p.es && r.id == o.element;
      assert exists e :: e in s.elements && e.faction == f && r == Reported(e);
    }
    OwnedKeepsAll(s.elements, f, PlanFor(s, f, standing));
  }

  ghost function StandingOf(s: State, f: string, a: map<string, Route.Standing>, b: map<string, Route.Standing>)
    : map<string, Route.Standing>
  {
    if f == s.factions.0 then a else b
  }

  /** The orders tell the faction's elements what the plan tells them, whatever they tell others. */
  ghost predicate Carries(s: State, f: string, orders: seq<Order>, plan: seq<Order>) {
    forall e | e in s.elements && e.faction == f :: OrderFor(orders, e.id) == OrderFor(plan, e.id)
  }

  /** Both plans together tell each faction's elements what its own plan tells them. */
  lemma BothCarry(s: State, a: map<string, Route.Standing>, b: map<string, Route.Standing>, f: string)
    requires ValidState(s) && IsFaction(s.factions, f)
    ensures Carries(s, f, BothPlans(s, a, b), PlanFor(s, f, StandingOf(s, f, a, b)))
  {
    BothPlansKept(s, a, b);
    var other, its := if f == s.factions.0 then s.factions.1 else s.factions.0, if f == s.factions.0 then b else a;
    PlanOwned(s, other, its);
    hide PlanFor, BothPlans, ValidMap, ValidElement;
    forall e | e in s.elements && e.faction == f
      ensures OrderFor(BothPlans(s, a, b), e.id) == OrderFor(PlanFor(s, f, StandingOf(s, f, a, b)), e.id)
    {
      OrderForConcat(PlanFor(s, s.factions.0, a), PlanFor(s, s.factions.1, b), e.id);
      NoOrderFor(PlanFor(s, other, its), e.id);
    }
  }

  /** An element's order is the one its faction planned. */
  lemma OrderFromPlan(s: State, f: string, standing: map<string, Route.Standing>, orders: seq<Order>, e: Element, k: nat)
    requires ValidState(s) && e in s.elements && e.faction == f && Carries(s, f, orders, PlanFor(s, f, standing))
    requires var p := PlanData(s, f, standing); k < |p.es| && p.es[k] == Reported(e)
    ensures var p := PlanData(s, f, standing); OrderFor(orders, e.id) == PlannedOrder(p.es[k], p.standing, p.paths[k])
  {
    var p := PlanData(s, f, standing);
    PlanFacts(s, f, standing);
    PlanOrdersEach(p.es, standing, p.paths, |p.es|, k);
  }

  /** The path is short enough for the element, and empty for one that recovers or pursues. */
  ghost predicate Holds(e: Route.Element, standing: map<string, Route.Standing>, path: seq<Location>) {
    && (e.status.Recovering? || Planning.Pursues(e, standing) ==> path == [])
    && |path| <= if e.status.Engaged? then 1 else e.kind.Moves()
  }

  /** An element whose order is its planned path heads along it: a retreat out of a fight, or a move outside one. */
  lemma HeadsAlong(m: Map, es: seq<Element>, orders: seq<Order>, e: Element,
                   standing: map<string, Route.Standing>, path: seq<Location>)
    requires OrderFor(orders, e.id) == PlannedOrder(Reported(e), standing, path)
    requires Holds(Reported(e), standing, path)
    requires WalkFrom(m, e.at, path) == Some(Planning.End(Reported(e), path))
    requires Fits(es, e) && 1 <= e.kind.Moves() && !e.status.OtherStatus?
    ensures Heading(m, es, orders, e) == Obeyed(e, orders) == Planning.End(Reported(e), path)
  {
  }

  lemma ElementFits(s: State, e: Element)
    requires ValidState(s) && Settled(s.elements) && e in s.elements
    ensures Fits(s.elements, e) && 1 <= e.kind.Moves() && !e.status.OtherStatus?
  {
    assert ValidElement(s.world, s.factions, e);
  }

  /** Where an element heads is where its faction's plan ends it. */
  lemma HeadsToPlannedEnd(s: State, f: string, standing: map<string, Route.Standing>, orders: seq<Order>, e: Element,
                          k: nat)
    requires ValidState(s) && Settled(s.elements) && e in s.elements && e.faction == f
    requires Carries(s, f, orders, PlanFor(s, f, standing))
    requires var p := PlanData(s, f, standing); k < |p.es| && p.es[k] == Reported(e)
    ensures var p := PlanData(s, f, standing);
            Heading(s.world, s.elements, orders, e) == Obeyed(e, orders) == Planning.End(p.es[k], p.paths[k])
  {
    hide *;
    var path := PlanData(s, f, standing).paths[k];
    ElementFits(s, e);
    OrderFromPlan(s, f, standing, orders, e, k);
    PlannedPathFacts(s, f, standing, e, k);
    HeadsAlong(s.world, s.elements, orders, e, standing, path);
  }

  /** What a final path is, whatever was refused: legal, short enough, and none for an element that holds. */
  lemma PlannedPathFacts(s: State, f: string, standing: map<string, Route.Standing>, e: Element, k: nat)
    requires ValidState(s)
    requires k < |PlanData(s, f, standing).es| && PlanData(s, f, standing).es[k] == Reported(e)
    ensures var path := PlanData(s, f, standing).paths[k];
            && Holds(Reported(e), standing, path)
            && WalkFrom(s.world, e.at, path) == Some(Planning.End(Reported(e), path))
  {
    var p := PlanData(s, f, standing);
    PlanFacts(s, f, standing);
    var path, first := p.paths[k], p.first[k];
    assert Planning.IsPrefix(path, first);
    FirstPathLegal(s.world, Reported(e), standing);
    FirstPathByStatus(s.world, Reported(e), standing);
    LeadsPrefix(s.world, e.at, first, path);
    WalksToItsEnd(s.world, e.at, path);
  }

  /** What the plan tells of one faction's elements stands in the ends: they are where their orders head. */
  ghost predicate Headed(s: State, f: string, orders: seq<Order>, final: seq<Location>)
    requires |final| == |s.elements|
  {
    forall i | 0 <= i < |s.elements| && s.elements[i].faction == f ::
      final[i] == Heading(s.world, s.elements, orders, s.elements[i])
  }

  lemma PlannedMoverNotRefused(s: State, f: string, standing: map<string, Route.Standing>, orders: seq<Order>,
                               final: seq<Location>, i: nat)
    requires ValidState(s) && Settled(s.elements) && NamesApart(s.factions.0, s.factions.1)
    requires i < |s.elements| == |final| && s.elements[i].faction == f
    requires Carries(s, f, orders, PlanFor(s, f, standing)) && Headed(s, f, orders, final)
    ensures !Moves.Refused(s.elements, final, i) && final[i] == Obeyed(s.elements[i], orders)
  {
    var es, e := s.elements, s.elements[i];
    var p := PlanData(s, f, standing);
    hide Heading, Carries, PlanFor, Obeyed, PlanData;
    var k := PlaceInPlan(s, f, standing, e);
    HeadsToPlannedEnd(s, f, standing, orders, e, k);
    JoinsItsOwn(s, final, i);
    if Moves.Refused(es, final, i) {
      var j :| 0 <= j < |es| && j != i && es[j].faction == f && final[j] == final[i];
      var l := PlaceInPlan(s, f, standing, es[j]);
      HeadsToPlannedEnd(s, f, standing, orders, es[j], l);
      PlanFacts(s, f, standing);
      FightsAreContested(s, f, standing, final[i]);
    }
  }

  /** Whoever else is refused, the faction's elements stay where their orders head. */
  lemma {:induction false} EndsKeepPlan(s: State, f: string, standing: map<string, Route.Standing>, orders: seq<Order>,
                                        final: seq<Location>)
    requires ValidState(s) && Settled(s.elements) && NamesApart(s.factions.0, s.factions.1)
    requires |final| == |s.elements|
    requires Carries(s, f, orders, PlanFor(s, f, standing)) && Headed(s, f, orders, final)
    ensures Headed(s, f, orders, Ends(s.elements, final))
    ensures forall i | 0 <= i < |s.elements| && s.elements[i].faction == f ::
              Ends(s.elements, final)[i] == Obeyed(s.elements[i], orders)
    decreases Movers(s.elements, final)
  {
    hide Moves.Refused, Heading, Carries, PlanFor, Obeyed, ValidState, Settled, NamesApart;
    var es := s.elements;
    forall i | 0 <= i < |es| && es[i].faction == f
      ensures !Moves.Refused(es, final, i) && final[i] == Obeyed(es[i], orders)
    {
      PlannedMoverNotRefused(s, f, standing, orders, final, i);
    }
    if Refuse(es, final) != final {
      RefuseStopsMovers(es, final);
      EndsKeepPlan(s, f, standing, orders, Refuse(es, final));
    }
  }

  /** A faction's plan, under any standing, is never refused by exercise, whatever the other faction orders, unless a
      faction's name with "@" after it begins the other's: every element ends the moves at its order's last step, or
      where it stood when it has none. */
  lemma PlanIsObeyed(s: State, f: string, standing: map<string, Route.Standing>, orders: seq<Order>, i: nat)
    requires ValidState(s) && Settled(s.elements) && NamesApart(s.factions.0, s.factions.1)
    requires i < |s.elements| && s.elements[i].faction == f && Carries(s, f, orders, PlanFor(s, f, standing))
    ensures Moved(s.world, s.elements, orders)[i]
            == s.elements[i].(at := Obeyed(s.elements[i], PlanFor(s, f, standing)))
  {
    hide PlanFor, ValidState, Settled, NamesApart, Ends;
    assert s.elements[i] in s.elements;
    EndsKeepPlan(s, f, standing, orders, Headings(s.world, s.elements, orders));
  }

  /** Every ordered element ends the moves at its order's last step, and every other stands still. */
  ghost predicate AreObeyed(s: State, a: map<string, Route.Standing>, b: map<string, Route.Standing>) {
    forall i | 0 <= i < |s.elements| ::
      Moved(s.world, s.elements, BothPlans(s, a, b))[i] == s.elements[i].(at := Obeyed(s.elements[i], BothPlans(s, a, b)))
  }

  /** Operations' plans, under any standing, are never refused by exercise, unless a faction's name with "@" after it
      begins the other's. */
  lemma PlansAreObeyed(s: State, a: map<string, Route.Standing>, b: map<string, Route.Standing>)
    requires ValidState(s) && Settled(s.elements) && NamesApart(s.factions.0, s.factions.1)
    ensures AreObeyed(s, a, b)
  {
    hide BothPlans, PlanFor, Moved, NamesApart, Settled;
    forall i | 0 <= i < |s.elements|
      ensures Moved(s.world, s.elements, BothPlans(s, a, b))[i]
              == s.elements[i].(at := Obeyed(s.elements[i], BothPlans(s, a, b)))
    {
      var f := s.elements[i].faction;
      assert s.elements[i] in s.elements && ValidElement(s.world, s.factions, s.elements[i]);
      BothCarry(s, a, b, f);
      PlanIsObeyed(s, f, StandingOf(s, f, a, b), BothPlans(s, a, b), i);
    }
  }

  lemma JoinsItsOwn(s: State, final: seq<Location>, i: nat)
    requires ValidState(s) && NamesApart(s.factions.0, s.factions.1) && |final| == |s.elements| && i < |s.elements|
    ensures Crowded(s.elements, final, i) <==> Joined(s.elements, final, i)
  {
    assert forall e | e in s.elements :: ValidElement(s.world, s.factions, e);
    assert s.elements[i] in s.elements;
    hide Crowded, Joined, NamesApart, ValidMap, Standable;
    forall j | 0 <= j < |s.elements| && s.elements[j].faction != s.elements[i].faction
      ensures NamesApart(s.elements[j].faction, s.elements[i].faction)
    {
      assert s.elements[j] in s.elements;
      ApartBothWays(s.factions.0, s.factions.1);
    }
    CrowdedIsJoined(s.elements, final, i);
  }

  lemma ApartBothWays(f: string, g: string)
    ensures NamesApart(f, g) <==> NamesApart(g, f)
  {
  }

  /** What operations takes for a fight is one: an own engaged element stands in it. */
  lemma FightsAreContested(s: State, f: string, standing: map<string, Route.Standing>, l: Location)
    requires ValidState(s) && Settled(s.elements)
    ensures l in Planning.Fights(PlanData(s, f, standing).es) ==> Contested(s.elements, l)
  {
    var p := PlanData(s, f, standing);
    PlanFacts(s, f, standing);
    if l in Planning.Fights(p.es) {
      Planning.FightMembers(p.es, |p.es|, l);
      var r :| r in p.es && r.status.Engaged? && r.at == l;
      var e :| e in s.elements && e.faction == f && r == Reported(e);
      assert Fits(s.elements, e);
    }
  }
}
