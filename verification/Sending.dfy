/** What operations orders of each element, told by where it is sent and what it stands in. */
module Sending {
  import opened World
  import opened Search
  import opened Sorting
  import opened Route
  import opened Planning
  import Terrain
  import Keys

  // ----- The allowance -----

  /** The walk is the shortest there, of those as short the first in step order. */
  ghost predicate Leads(t: Terrain.Terrain, from: Location, to: Location, w: seq<Location>) {
    Preferred(StepsOn(t), from, to, w)
  }

  /** An element's allowance for one round: nothing without a target or while it recovers; out of a fight, the one step of
      its retreat; otherwise the first steps of the shortest walk to its target, as many as its kind takes. */
  ghost predicate IsAllowance(t: Terrain.Terrain, e: Element, standing: map<string, Standing>, path: seq<Location>) {
    if e.id !in standing || e.status.Recovering? then path == []
    else
      var to, rule := standing[e.id].target, standing[e.id].rule;
      if e.status.Engaged? then path == if rule == Retreat && to in Terrain.Steps(t, e.at) then [to] else []
      else
        || (path == [] && forall w :: !Leads(t, e.at, to, w))
        || exists w :: Leads(t, e.at, to, w) && Takes(e, w, path)
  }

  /** The path is as much of the walk as the element's kind takes in a round: one step a squad, two a scout. */
  predicate Takes(e: Element, w: seq<Location>, path: seq<Location>) {
    var n := if e.kind.Squad? then 1 else if e.kind.Scout? then 2 else 0;
    w != [] && path == if n < |w| - 1 then w[1..n + 1] else w[1..]
  }

  lemma FirstIsAllowance(t: Terrain.Terrain, e: Element, standing: map<string, Standing>)
    ensures IsAllowance(t, e, standing, FirstPath(t, e, standing))
  {
    var path := FirstPath(t, e, standing);
    if e.id in standing && !e.status.Recovering? && !e.status.Engaged? {
      var to := standing[e.id].target;
      var best := BestPath(StepsOn(t), e.at, to);
      if best.Some? {
        var w: seq<Location> :| Preferred(StepsOn(t), e.at, to, w) && best == Some(w[1..]);
        assert Leads(t, e.at, to, w) && Takes(e, w, path);
      } else {
        forall w ensures !Leads(t, e.at, to, w) {
          if Preferred(StepsOn(t), e.at, to, w) {
            BestPathIs(StepsOn(t), e.at, to, w);
          }
        }
      }
    }
  }

  // ----- The refusals, pass by pass -----

  function EndOf(e: Element, path: seq<Location>): Location {
    if path == [] then e.at else path[|path| - 1]
  }

  /** Element `i` moves where another ends and none of its own fights, and the other stays or has the lesser ID. */
  ghost predicate Yields(es: seq<Element>, paths: Paths, i: nat)
    requires |paths| == |es| && i < |es|
  {
    && paths[i] != []
    && (forall e | e in es && e.status.Engaged? :: e.at != EndOf(es[i], paths[i]))
    && exists j :: 0 <= j < |es| && j != i && EndOf(es[j], paths[j]) == EndOf(es[i], paths[i])
                   && (paths[j] == [] || Keys.Less(es[j].id, es[i].id))
  }

  /** Everyone who yields gives up a last step, and nobody else. */
  ghost predicate GivesUp(es: seq<Element>, paths: Paths, next: Paths) {
    && |paths| == |next| == |es|
    && forall i | 0 <= i < |es| :: next[i] == if Yields(es, paths, i) then paths[i][..|paths[i]| - 1] else paths[i]
  }

  /** Pass after pass, until nobody yields. */
  ghost predicate ArePasses(es: seq<Element>, passes: seq<Paths>) {
    && passes != [] && (forall k | 0 <= k < |passes| :: |passes[k]| == |es|)
    && (forall k: nat | k < |passes| - 1 :: OnePass(es, passes, k))
    && NobodyYields(es, passes[|passes| - 1])
  }

  ghost predicate NobodyYields(es: seq<Element>, paths: Paths)
    requires |paths| == |es|
  {
    forall i: nat | i < |es| :: !Yields(es, paths, i)
  }

  ghost predicate OnePass(es: seq<Element>, passes: seq<Paths>, k: nat)
    requires k + 1 < |passes|
  {
    GivesUp(es, passes[k], passes[k + 1])
  }

  lemma FightsTold(es: seq<Element>, l: Location)
    ensures l in Fights(es) <==> exists e :: e in es && e.status.Engaged? && e.at == l
  {
    FightMembers(es, |es|, l);
    if e :| e in es && e.status.Engaged? && e.at == l {
      var i :| 0 <= i < |es| && es[i] == e;
    }
  }

  lemma RefusedYields(es: seq<Element>, paths: Paths, i: nat)
    requires |paths| == |es| && i < |es| && StrictlySortedBy(es, IdOf)
    ensures Planning.Refused(es, Fights(es), paths, i) <==> Yields(es, paths, i)
  {
    FightsTold(es, End(es[i], paths[i]));
    forall j | 0 <= j < |es| && j != i ensures j < i <==> Keys.Less(es[j].id, es[i].id) {
      if j < i {
        assert Keys.Less(IdOf(es[j]), IdOf(es[i]));
      } else {
        assert Keys.Less(IdOf(es[i]), IdOf(es[j]));
        Keys.LessTotal(es[i].id, es[j].id);
      }
    }
    hide Fights;
  }

  lemma {:induction false} ApartInPasses(es: seq<Element>, paths: Paths) returns (passes: seq<Paths>)
    requires |paths| == |es| && StrictlySortedBy(es, IdOf)
    ensures ArePasses(es, passes) && passes[0] == paths && passes[|passes| - 1] == Apart(es, Fights(es), paths)
    decreases StepsHeld(paths)
  {
    hide Planning.Refused, Yields, Fights;
    var after := Shorten(es, Fights(es), paths);
    forall i: nat | i < |es|
      ensures Yields(es, paths, i) ==> paths[i] != []
      ensures after[i] == if Yields(es, paths, i) then paths[i][..|paths[i]| - 1] else paths[i]
    {
      YieldingMoves(es, paths, i);
      RefusedYields(es, paths, i);
    }
    if after == paths {
      passes := [paths];
      forall i: nat | i < |es| ensures !Yields(es, paths, i) {
        YieldingMoves(es, paths, i);
        assert after[i] == paths[i];
      }
    } else {
      ShortenTakesSteps(es, Fights(es), paths);
      var rest := ApartInPasses(es, after);
      passes := [paths] + rest;
      PassesBegin(es, paths, after, rest);
    }
  }

  lemma YieldingMoves(es: seq<Element>, paths: Paths, i: nat)
    requires |paths| == |es| && i < |es|
    ensures Yields(es, paths, i) ==> paths[i] != []
  {
  }

  lemma PassesBegin(es: seq<Element>, paths: Paths, after: Paths, rest: seq<Paths>)
    requires ArePasses(es, rest) && rest[0] == after && GivesUp(es, paths, after)
    ensures ArePasses(es, [paths] + rest)
  {
    var passes := [paths] + rest;
    hide GivesUp, Yields;
    forall k | 0 <= k < |passes| ensures |passes[k]| == |es| {
      assert k > 0 ==> passes[k] == rest[k - 1];
      assert k == 0 ==> |passes[k]| == |paths|;
      SizedPaths(es, paths, after);
    }
    forall k: nat | k < |passes| - 1 ensures OnePass(es, passes, k) {
      if k > 0 {
        assert OnePass(es, rest, k - 1);
      }
    }
    assert passes[|passes| - 1] == rest[|rest| - 1];
  }

  lemma SizedPaths(es: seq<Element>, paths: Paths, after: Paths)
    requires GivesUp(es, paths, after)
    ensures |paths| == |es|
  {
  }

  // ----- The orders -----

  /** The element stays in its fight to pursue. */
  predicate StaysToPursue(e: Element, standing: map<string, Standing>) {
    e.status.Engaged? && e.id in standing && standing[e.id].rule == Pursue
  }

  /** The order tells the element its path, a retreat out of a fight, and whether to pursue. */
  predicate TellsOf(e: Element, standing: map<string, Standing>, path: seq<Location>, o: Order) {
    && o.element == e.id && o.steps == path
    && (o.retreat <==> e.status.Engaged? && path != [])
    && (o.pursue <==> StaysToPursue(e, standing))
  }

  /** The orders are told of the first `n` elements, each with steps or staying to pursue, and of nobody else. */
  ghost predicate Told(es: seq<Element>, standing: map<string, Standing>, paths: Paths, n: nat, orders: seq<Order>)
    requires n <= |es| == |paths|
  {
    && (forall o | o in orders :: exists i :: 0 <= i < n && TellsOf(es[i], standing, paths[i], o))
    && (forall i | 0 <= i < n && (paths[i] != [] || StaysToPursue(es[i], standing)) ::
          exists o :: o in orders && TellsOf(es[i], standing, paths[i], o))
  }

  lemma {:induction false} OrdersTold(es: seq<Element>, standing: map<string, Standing>, paths: Paths, n: nat)
    requires |paths| == |es| && n <= |es|
    requires forall i | 0 <= i < |es| && StaysToPursue(es[i], standing) :: paths[i] == []
    ensures Told(es, standing, paths, n, OrdersOf(es, standing, paths, n))
    decreases n
  {
    if n > 0 {
      OrdersTold(es, standing, paths, n - 1);
      OrderAdded(es, standing, paths, n);
      hide *;
      ToldNext(es, standing, paths, n, OrdersOf(es, standing, paths, n - 1), OrdersOf(es, standing, paths, n));
    }
  }

  lemma ToldNext(es: seq<Element>, standing: map<string, Standing>, paths: Paths, n: nat, before: seq<Order>,
                 more: seq<Order>)
    requires |paths| == |es| && 0 < n <= |es| && Told(es, standing, paths, n - 1, before)
    requires if paths[n - 1] != [] || StaysToPursue(es[n - 1], standing) then
               exists o :: more == before + [o] && TellsOf(es[n - 1], standing, paths[n - 1], o)
             else more == before
    ensures Told(es, standing, paths, n, more)
  {
    hide TellsOf, StaysToPursue;
  }

  lemma OrderAdded(es: seq<Element>, standing: map<string, Standing>, paths: Paths, n: nat)
    requires |paths| == |es| && 0 < n <= |es| && (StaysToPursue(es[n - 1], standing) ==> paths[n - 1] == [])
    ensures var before, more := OrdersOf(es, standing, paths, n - 1), OrdersOf(es, standing, paths, n);
            if paths[n - 1] != [] || StaysToPursue(es[n - 1], standing) then
              exists o :: more == before + [o] && TellsOf(es[n - 1], standing, paths[n - 1], o)
            else more == before
  {
    var e, path := es[n - 1], paths[n - 1];
    var o := if StaysToPursue(e, standing) then Order(e.id, [], false, true) else Order(e.id, path, e.status.Engaged?, false);
    assert StaysToPursue(e, standing) || path != [] ==> TellsOf(e, standing, path, o);
  }

  /** Operations' plan: from each element's allowance, pass by pass, those who would share a cell outside their own fights
      give up last steps, all but one that stays or the least by ID, until none would; and each element that then has steps,
      or stays to pursue, is told so by an order, and nobody else is told anything. */
  lemma PlanTold(t: Terrain.Terrain, elements: seq<Element>, standing: map<string, Standing>)
    returns (es: seq<Element>, passes: seq<Paths>)
    requires DistinctKeys(elements, IdOf)
    ensures StrictlySortedBy(es, IdOf) && forall e :: e in es <==> e in elements
    ensures ArePasses(es, passes) && forall i | 0 <= i < |es| :: IsAllowance(t, es[i], standing, passes[0][i])
    ensures Told(es, standing, passes[|passes| - 1], |es|, PlanOf(t, elements, standing))
  {
    es := SortBy(elements, IdOf);
    SortByStrict(elements, IdOf);
    SortByMembers(elements, IdOf);
    var first, final := FirstPaths(t, es, standing), FinalPaths(t, es, standing);
    passes := ApartInPasses(es, first);
    ApartLeavesNoneShared(es, Fights(es), first);
    forall i | 0 <= i < |es| ensures IsAllowance(t, es[i], standing, first[i]) {
      FirstIsAllowance(t, es[i], standing);
    }
    forall i | 0 <= i < |es| && StaysToPursue(es[i], standing) ensures final[i] == [] {
      assert IsAllowance(t, es[i], standing, first[i]) && first[i] == [];
      assert IsPrefix(final[i], first[i]);
    }
    hide IsAllowance, FirstPath, Apart, Fights, ArePasses, OrdersOf;
    OrdersTold(es, standing, final, |es|);
  }
}
