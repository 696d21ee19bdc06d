/** The simultaneous moves of a round: which orders the rules refuse, and where
    every element ends. */
module Moves {
  import opened World
  import Keys
  import opened State

  // ----- One order's steps -----

  /** One step from `at` to `to`: a traversal of the gate at `at`, or an orthogonal adjacency, into a clear cell. */
  predicate CanStep(m: Map, at: Location, to: Location) {
    var from := FindSector(m.sectors, at.sector);
    && from.Some?
    && var g := FindGate(from.value.gates, at.point);
    if g.Some? && to == g.value.to then
      var sec := FindSector(m.sectors, to.sector);
      sec.Some? && Clear(sec.value, to.point)
    else
      && to.sector == at.sector
      && Abs(to.point.x - at.point.x) + Abs(to.point.y - at.point.y) == 1
      && Clear(from.value, to.point)
  }

  predicate Clear(s: Sector, p: Point) {
    s.Inside(p) && p !in s.obstacles
  }

  function WalkFrom(m: Map, at: Location, steps: seq<Location>): Option<Location>
    decreases |steps|
  {
    if steps == [] then Some(at)
    else if CanStep(m, at, steps[0]) then WalkFrom(m, steps[0], steps[1..])
    else None
  }

  function WalkOf(m: Map, e: Element, steps: seq<Location>): Option<Location> {
    if |steps| > e.kind.Moves() then None else WalkFrom(m, e.at, steps)
  }

  /** Where the element ends after the steps, or none when the rules refuse the order. */
  method Walk(m: Map, e: Element, steps: seq<Location>) returns (r: Option<Location>)
    ensures r == WalkOf(m, e, steps)
  {
    if |steps| > e.kind.Moves() {
      return None;
    }
    var at := e.at;
    for i := 0 to |steps|
      invariant WalkFrom(m, e.at, steps) == WalkFrom(m, at, steps[i..])
    {
      if !CanStep(m, at, steps[i]) {
        return None;
      }
      at := steps[i];
    }
    r := Some(at);
  }

  lemma {:induction false} WalkStaysStandable(m: Map, at: Location, steps: seq<Location>)
    requires Standable(m, at)
    ensures var r := WalkFrom(m, at, steps); r.Some? ==> Standable(m, r.value)
    decreases |steps|
  {
    if steps != [] && CanStep(m, at, steps[0]) {
      WalkStaysStandable(m, steps[0], steps[1..]);
    }
  }

  // ----- Every order at once -----

  /** The last of the orders for an element. */
  function OrderFor(orders: seq<Order>, id: string): Option<Order> {
    if orders == [] then None
    else
      var later := OrderFor(orders[1..], id);
      if later.Some? then later
      else if orders[0].element == id then Some(orders[0])
      else None
  }

  /** The list's `k`-th order is the element's, and no later one is. */
  ghost predicate IsLastFor(orders: seq<Order>, id: string, k: int) {
    && 0 <= k < |orders| && orders[k].element == id
    && forall j | k < j < |orders| :: orders[j].element != id
  }

  /** An element is told its last order in the list, and nothing when it has none there. */
  lemma {:induction false} OrderForIsLast(orders: seq<Order>, id: string)
    ensures forall o :: OrderFor(orders, id) == Some(o) <==> exists k :: IsLastFor(orders, id, k) && orders[k] == o
    ensures OrderFor(orders, id) == None <==> forall o | o in orders :: o.element != id
  {
    if orders != [] {
      var rest := orders[1..];
      OrderForIsLast(rest, id);
      assert orders == [orders[0]] + rest;
      forall o ensures OrderFor(orders, id) == Some(o) <==> exists k :: IsLastFor(orders, id, k) && orders[k] == o {
        if k :| IsLastFor(rest, id, k) && rest[k] == o {
          assert IsLastFor(orders, id, k + 1) && orders[k + 1] == o;
        }
        if k :| IsLastFor(orders, id, k) && orders[k] == o {
          if k > 0 {
            assert forall j | k - 1 < j < |rest| :: rest[j] == orders[j + 1];
            assert IsLastFor(rest, id, k - 1) && rest[k - 1] == o;
          } else {
            assert forall j | 0 <= j < |rest| :: rest[j] == orders[j + 1];
          }
        }
        if OrderFor(rest, id).None? && orders[0].element == id {
          assert forall j | 0 < j < |orders| :: orders[j] == rest[j - 1];
          assert IsLastFor(orders, id, 0);
        }
      }
    }
  }

  // ----- The text key of an end -----

  /** The key the umpire counts a faction's ends in a cell by. */
  function EndKey(f: string, l: Location): string { f + ("@" + l.Key()) }

  /** One faction's ends are told apart by their keys. */
  lemma OwnEndKeys(f: string, a: Location, b: Location)
    requires EndKey(f, a) == EndKey(f, b)
    ensures a == b
  {
    hide Location.Key;
    Cancel(f, "@" + a.Key(), "@" + b.Key());
    Cancel("@", a.Key(), b.Key());
    KeyInjective(a, b);
  }

  lemma Cancel(p: string, x: string, y: string)
    requires p + x == p + y
    ensures x == y
  {
    assert (p + x)[|p|..] == x && (p + y)[|p|..] == y;
  }

  lemma KeyStarts(f: string, l: Location)
    ensures EndKey(f, l)[..|f|] == f
  {
    hide Location.Key;
  }

  lemma KeyPrefix(f: string, g: string, a: Location, b: Location)
    requires |f| < |g| && EndKey(f, a) == EndKey(g, b)
    ensures f + "@" <= g
  {
    var k := EndKey(f, a);
    assert k[..|f|] == f && k[|f|] == '@' && k[..|g|] == g;
    assert g[..|f|] == f && g[|f|] == '@';
  }

  /** Neither name, with the mark after it, begins the other. */
  predicate NamesApart(f: string, g: string) {
    !(f + "@" <= g) && !(g + "@" <= f)
  }

  /** Two factions' ends can share a key exactly when one's name, with the mark after it, begins the other's. */
  lemma EndKeysMeet(f: string, g: string)
    requires f != g
    ensures (exists a, b :: EndKey(f, a) == EndKey(g, b)) <==> !NamesApart(f, g)
  {
    if a, b :| EndKey(f, a) == EndKey(g, b) {
      KeyStarts(f, a);
      KeyStarts(g, b);
      hide EndKey;
      if |f| < |g| {
        KeyPrefix(f, g, a, b);
      } else if |g| < |f| {
        KeyPrefix(g, f, b, a);
      }
    }
    if f + "@" <= g {
      MeetsBeyond(f, g);
    }
    if g + "@" <= f {
      MeetsBeyond(g, f);
    }
  }

  lemma MeetsBeyond(f: string, g: string)
    requires f + "@" <= g
    ensures exists a, b :: EndKey(f, a) == EndKey(g, b)
    ensures exists a, b :: EndKey(g, a) == EndKey(f, b)
  {
    var p := Point(0, 0);
    var rest := g[|f| + 1..];
    var a, b := Location(rest + "@s", p), Location("s", p);
    var tail := ":" + (Keys.Itoa(0) + "," + Keys.Itoa(0));
    assert a.Key() == rest + ("@s" + tail) && b.Key() == "s" + tail;
    assert g == f + ("@" + rest);
    assert EndKey(f, a) == EndKey(g, b);
  }

  // ----- Moves and their refusal -----

  /** Where an element heads before any sharing of cells is looked at. */
  ghost function Heading(m: Map, es: seq<Element>, orders: seq<Order>, e: Element): Location {
    var o := OrderFor(orders, e.id);
    if o.None? || e.status.Recovering? then e.at
    else if Contested(es, e.at) && (!o.value.retreat || |o.value.steps| != 1) then e.at
    else
      var to := WalkOf(m, e, o.value.steps);
      if to.Some? then to.value else e.at
  }

  ghost function Headings(m: Map, es: seq<Element>, orders: seq<Order>): seq<Location> {
    seq(|es|, i requires 0 <= i < |es| => Heading(m, es, orders, es[i]))
  }

  /** Element `i` moves to a cell outside the round's fights, and another's end has the key of its own. */
  ghost predicate Refused(es: seq<Element>, final: seq<Location>, i: nat)
    requires |final| == |es| && i < |es|
  {
    && final[i] != es[i].at
    && !Contested(es, final[i])
    && Crowded(es, final, i)
  }

  ghost predicate Crowded(es: seq<Element>, final: seq<Location>, i: nat)
    requires |final| == |es| && i < |es|
  {
    exists j :: 0 <= j < |es| && j != i && EndKey(es[j].faction, final[j]) == EndKey(es[i].faction, final[i])
  }

  /** Another element of its faction ends where element `i` does. */
  ghost predicate Joined(es: seq<Element>, final: seq<Location>, i: nat)
    requires |final| == |es| && i < |es|
  {
    exists j :: 0 <= j < |es| && j != i && es[j].faction == es[i].faction && final[j] == final[i]
  }

  /** Counting by key misses no element that joins its own, and counts no other when the factions' names are apart. */
  lemma CrowdedIsJoined(es: seq<Element>, final: seq<Location>, i: nat)
    requires |final| == |es| && i < |es|
    ensures Joined(es, final, i) ==> Crowded(es, final, i)
    ensures (forall j | 0 <= j < |es| && es[j].faction != es[i].faction :: NamesApart(es[j].faction, es[i].faction))
            ==> (Crowded(es, final, i) <==> Joined(es, final, i))
  {
    hide EndKey, NamesApart;
    if Crowded(es, final, i) && forall j | 0 <= j < |es| && es[j].faction != es[i].faction :: NamesApart(es[j].faction, es[i].faction) {
      var j :| 0 <= j < |es| && j != i && EndKey(es[j].faction, final[j]) == EndKey(es[i].faction, final[i]);
      if es[j].faction != es[i].faction {
        EndKeysMeet(es[j].faction, es[i].faction);
      } else {
        OwnEndKeys(es[i].faction, final[j], final[i]);
      }
    }
  }

  /** Every refused element stays where it stood. */
  ghost function Refuse(es: seq<Element>, final: seq<Location>): (r: seq<Location>)
    requires |final| == |es|
    ensures |r| == |es|
  {
    seq(|es|, i requires 0 <= i < |es| => if Refused(es, final, i) then es[i].at else final[i])
  }

  ghost function Movers(es: seq<Element>, final: seq<Location>): set<int>
    requires |final| == |es|
  {
    set i | 0 <= i < |es| && final[i] != es[i].at
  }

  lemma RefuseStopsMovers(es: seq<Element>, final: seq<Location>)
    requires |final| == |es| && Refuse(es, final) != final
    ensures Movers(es, Refuse(es, final)) < Movers(es, final)
  {
    var i :| 0 <= i < |es| && Refuse(es, final)[i] != final[i];
    assert i in Movers(es, final) && i !in Movers(es, Refuse(es, final));
  }

  /** Where every element ends once no order is refused. */
  ghost function Ends(es: seq<Element>, final: seq<Location>): (r: seq<Location>)
    requires |final| == |es|
    ensures |r| == |es|
    decreases Movers(es, final)
  {
    var after := Refuse(es, final);
    if after == final then final
    else
      RefuseStopsMovers(es, final);
      Ends(es, after)
  }

  ghost function Finals(m: Map, es: seq<Element>, orders: seq<Order>): (r: seq<Location>)
    ensures |r| == |es|
  {
    Ends(es, Headings(m, es, orders))
  }

  ghost function Moved(m: Map, es: seq<Element>, orders: seq<Order>): (r: seq<Element>)
    ensures |r| == |es|
  {
    seq(|es|, i requires 0 <= i < |es| => es[i].(at := Finals(m, es, orders)[i]))
  }

  /** Each element that left a fight, with the cell it left. */
  ghost predicate AreRetreats(m: Map, es: seq<Element>, orders: seq<Order>, retreats: map<string, Location>) {
    && (forall i | 0 <= i < |es| && Retreats(m, es, orders, i) ::
          es[i].id in retreats && retreats[es[i].id] == es[i].at)
    && (forall id | id in retreats :: exists i :: 0 <= i < |es| && es[i].id == id && Retreats(m, es, orders, i))
  }

  ghost predicate Retreats(m: Map, es: seq<Element>, orders: seq<Order>, i: nat)
    requires i < |es|
  {
    Finals(m, es, orders)[i] != es[i].at && Contested(es, es[i].at)
  }

  // ----- What the refusals leave -----

  /** Nobody who moves ends, outside the round's fights, where another of its faction ends; and each element ends
      where it headed or where it stood. */
  lemma {:induction false} EndsLeaveNoneRefused(es: seq<Element>, final: seq<Location>)
    requires |final| == |es|
    ensures forall i | 0 <= i < |es| :: !Refused(es, Ends(es, final), i)
    ensures forall i | 0 <= i < |es| :: Ends(es, final)[i] == final[i] || Ends(es, final)[i] == es[i].at
    decreases Movers(es, final)
  {
    var after := Refuse(es, final);
    if after == final {
      forall i | 0 <= i < |es| ensures !Refused(es, final, i) {
        assert after[i] == final[i];
      }
    } else {
      RefuseStopsMovers(es, final);
      EndsLeaveNoneRefused(es, after);
    }
  }

  /** So nobody who moves ends, outside the round's fights, where another of its faction does, whatever the names. */
  lemma {:induction false} EndsLeaveNoneJoined(es: seq<Element>, final: seq<Location>, i: nat)
    requires |final| == |es| && i < |es|
    ensures var ends := Ends(es, final);
            ends[i] == es[i].at || Contested(es, ends[i]) || !Joined(es, ends, i)
  {
    hide Ends, Contested, Crowded, Joined, NamesApart;
    EndsLeaveNoneRefused(es, final);
    CrowdedIsJoined(es, Ends(es, final), i);
    assert !Refused(es, Ends(es, final), i);
  }

  /** The listing of `b` is that of `a`, rearranged by `p`. */
  ghost predicate Rearranged<T>(a: seq<T>, b: seq<T>, p: seq<nat>) {
    && |a| == |b| == |p|
    && (forall i | 0 <= i < |p| :: p[i] < |a| && b[i] == a[p[i]])
    && Distinct(p)
    && (forall k | 0 <= k < |a| :: k in p)
  }

  lemma RefusedIgnoresListing(a: seq<Element>, fa: seq<Location>, b: seq<Element>, fb: seq<Location>,
                              p: seq<nat>, i: nat)
    requires Rearranged(a, b, p) && Rearranged(fa, fb, p) && i < |b|
    ensures Refused(b, fb, i) <==> Refused(a, fa, p[i])
  {
    hide EndKey;
    ContestedIgnoresListing(a, b, p, fb[i]);
    if Crowded(b, fb, i) {
      var j :| 0 <= j < |b| && j != i && EndKey(b[j].faction, fb[j]) == EndKey(b[i].faction, fb[i]);
      assert p[j] != p[i];
    }
    if Crowded(a, fa, p[i]) {
      var k :| 0 <= k < |a| && k != p[i] && EndKey(a[k].faction, fa[k]) == EndKey(a[p[i]].faction, fa[p[i]]);
      assert k in p;
      var j :| 0 <= j < |p| && p[j] == k;
      assert b[j] == a[k] && fb[j] == fa[k];
    }
  }

  lemma ContestedIgnoresListing(a: seq<Element>, b: seq<Element>, p: seq<nat>, l: Location)
    requires Rearranged(a, b, p)
    ensures Contested(a, l) <==> Contested(b, l)
  {
    if Contested(a, l) {
      var i, j :| 0 <= i < |a| && 0 <= j < |a| && a[i].at == l == a[j].at && a[i].faction != a[j].faction;
      assert i in p && j in p;
      var x :| 0 <= x < |p| && p[x] == i;
      var y :| 0 <= y < |p| && p[y] == j;
      assert b[x] == a[i] && b[y] == a[j];
    }
  }

  /** The refusals do not depend on the order in which the elements are listed. */
  lemma {:induction false} EndsIgnoreListing(a: seq<Element>, fa: seq<Location>, b: seq<Element>, fb: seq<Location>,
                                             p: seq<nat>)
    requires Rearranged(a, b, p) && Rearranged(fa, fb, p)
    ensures Rearranged(Ends(a, fa), Ends(b, fb), p)
    decreases Movers(a, fa)
  {
    forall i | 0 <= i < |b| ensures Refuse(b, fb)[i] == Refuse(a, fa)[p[i]] {
      RefusedIgnoresListing(a, fa, b, fb, p, i);
    }
    if Refuse(a, fa) == fa {
      assert Refuse(b, fb) == fb;
    } else {
      assert Refuse(b, fb) != fb by {
        var k :| 0 <= k < |a| && Refuse(a, fa)[k] != fa[k];
        assert k in p;
        var i :| 0 <= i < |p| && p[i] == k;
        assert Refuse(b, fb)[i] != fb[i];
      }
      RefuseStopsMovers(a, fa);
      EndsIgnoreListing(a, Refuse(a, fa), b, Refuse(b, fb), p);
    }
  }

  /** A round's moves do not depend on the order in which the elements are listed. */
  lemma MovesIgnoreListing(m: Map, a: seq<Element>, b: seq<Element>, p: seq<nat>, orders: seq<Order>)
    requires Rearranged(a, b, p)
    ensures Rearranged(Moved(m, a, orders), Moved(m, b, orders), p)
  {
    forall i | 0 <= i < |b| ensures Heading(m, b, orders, b[i]) == Heading(m, a, orders, a[p[i]]) {
      ContestedIgnoresListing(a, b, p, b[i].at);
    }
    EndsIgnoreListing(a, Headings(m, a, orders), b, Headings(m, b, orders), p);
  }

  // ----- What an order does -----

  /** Each step is one the rules allow from the cell before it. */
  predicate Treads(m: Map, from: Location, steps: seq<Location>) {
    forall n: nat | n < |steps| :: StepAllowed(m, from, steps, n)
  }

  predicate StepAllowed(m: Map, from: Location, steps: seq<Location>, n: nat)
    requires n < |steps|
  {
    CanStep(m, if n == 0 then from else steps[n - 1], steps[n])
  }

  lemma {:induction false} WalkTreads(m: Map, from: Location, steps: seq<Location>)
    ensures WalkFrom(m, from, steps)
            == if Treads(m, from, steps) then Some(if steps == [] then from else steps[|steps| - 1]) else None
    decreases |steps|
  {
    if steps != [] {
      TreadsFirst(m, from, steps);
      hide Treads, CanStep;
      WalkTreads(m, steps[0], steps[1..]);
    }
  }

  lemma TreadsFirst(m: Map, from: Location, steps: seq<Location>)
    requires steps != []
    ensures Treads(m, from, steps) <==> CanStep(m, from, steps[0]) && Treads(m, steps[0], steps[1..])
  {
    hide CanStep;
    var rest := steps[1..];
    if Treads(m, from, steps) {
      assert StepAllowed(m, from, steps, 0);
      forall n: nat | n < |rest| ensures StepAllowed(m, steps[0], rest, n) {
        assert StepAllowed(m, from, steps, n + 1);
      }
    }
    if CanStep(m, from, steps[0]) && Treads(m, steps[0], rest) {
      forall n: nat | n < |steps| ensures StepAllowed(m, from, steps, n) {
        assert n > 0 ==> StepAllowed(m, steps[0], rest, n - 1);
      }
    }
  }

  /** The element's last order is one the rules let it follow: it is not recovering, the steps are legal and no more than
      its kind takes, and out of a fight it only retreats, by one step. */
  ghost predicate Lawful(m: Map, es: seq<Element>, orders: seq<Order>, e: Element, k: int) {
    && IsLastFor(orders, e.id, k) && !e.status.Recovering?
    && orders[k].steps != [] && |orders[k].steps| <= e.kind.Moves() && Treads(m, e.at, orders[k].steps)
    && (Contested(es, e.at) ==> orders[k].retreat && |orders[k].steps| == 1)
  }

  function LastStep(o: Order): Location
    requires o.steps != []
  {
    o.steps[|o.steps| - 1]
  }

  /** An element heads off exactly under a lawful last order that ends elsewhere, to that order's last step. */
  lemma HeadsByOrder(m: Map, es: seq<Element>, orders: seq<Order>, e: Element)
    ensures var to := Heading(m, es, orders, e);
            || (to == e.at && forall k | Lawful(m, es, orders, e, k) :: LastStep(orders[k]) == e.at)
            || exists k :: Lawful(m, es, orders, e, k) && to == LastStep(orders[k])
  {
    OrderForIsLast(orders, e.id);
    hide Contested, Treads, CanStep, StepAllowed;
    var o := OrderFor(orders, e.id);
    if o.Some? {
      WalkTreads(m, e.at, o.value.steps);
      var k :| IsLastFor(orders, e.id, k) && orders[k] == o.value;
      assert forall n | IsLastFor(orders, e.id, n) :: n == k;
      if Lawful(m, es, orders, e, k) {
        assert Heading(m, es, orders, e) == LastStep(orders[k]);
      }
    } else {
      assert forall k :: !IsLastFor(orders, e.id, k);
    }
  }

  /** Nobody moves but by a lawful last order, to its last step, where outside a fight no other of its faction ends. */
  lemma MovesByOrder(m: Map, es: seq<Element>, orders: seq<Order>, i: nat)
    requires i < |es|
    ensures var e, at := es[i], Moved(m, es, orders)[i].at;
            at != e.at ==> && (exists k :: Lawful(m, es, orders, e, k) && at == LastStep(orders[k]))
                           && (Contested(es, at)
                               || forall j | 0 <= j < |es| && j != i && es[j].faction == e.faction :: Moved(m, es, orders)[j].at != at)
  {
    var first := Headings(m, es, orders);
    EndsLeaveNoneRefused(es, first);
    EndsLeaveNoneJoined(es, first, i);
    HeadsByOrder(m, es, orders, es[i]);
    hide Heading, Ends, Lawful, Contested;
  }

  /** Nobody else stands, or is ordered to end, where the end has the key of this one. */
  ghost predicate Unsought(es: seq<Element>, orders: seq<Order>, i: nat, to: Location)
    requires i < |es|
  {
    forall j | 0 <= j < |es| && j != i ::
      && EndKey(es[j].faction, es[j].at) != EndKey(es[i].faction, to)
      && forall o | o in orders && o.element == es[j].id && o.steps != [] ::
           EndKey(es[j].faction, LastStep(o)) != EndKey(es[i].faction, to)
  }

  /** Each end is where its element heads or stands. */
  ghost predicate Between(m: Map, es: seq<Element>, orders: seq<Order>, final: seq<Location>) {
    |final| == |es| && forall j | 0 <= j < |es| :: final[j] == Heading(m, es, orders, es[j]) || final[j] == es[j].at
  }

  lemma NotCrowded(m: Map, es: seq<Element>, orders: seq<Order>, final: seq<Location>, i: nat)
    requires i < |es| && Between(m, es, orders, final) && Unsought(es, orders, i, final[i])
    ensures !Crowded(es, final, i)
  {
    hide EndKey, Heading, Treads, Contested;
    forall j | 0 <= j < |es| && j != i ensures EndKey(es[j].faction, final[j]) != EndKey(es[i].faction, final[i]) {
      HeadsByOrder(m, es, orders, es[j]);
      if final[j] != es[j].at {
        var k :| Lawful(m, es, orders, es[j], k) && final[j] == LastStep(orders[k]);
        OrderListed(m, es, orders, es[j], k);
      }
    }
  }

  lemma OrderListed(m: Map, es: seq<Element>, orders: seq<Order>, e: Element, k: int)
    requires Lawful(m, es, orders, e, k)
    ensures 0 <= k < |orders| && orders[k] in orders && orders[k].element == e.id && orders[k].steps != []
  {
  }

  lemma {:induction false} EndsAllow(m: Map, es: seq<Element>, orders: seq<Order>, final: seq<Location>, i: nat)
    requires i < |es| && Between(m, es, orders, final)
    requires Contested(es, final[i]) || Unsought(es, orders, i, final[i])
    ensures Ends(es, final)[i] == final[i]
    decreases Movers(es, final)
  {
    hide Heading, Contested, Unsought, Crowded;
    if Unsought(es, orders, i, final[i]) {
      NotCrowded(m, es, orders, final, i);
    }
    if Refuse(es, final) != final {
      RefuseStopsMovers(es, final);
      EndsAllow(m, es, orders, Refuse(es, final), i);
    }
  }

  /** A lawful order is followed when it ends in a fight, or where nobody else stands or is ordered to end. */
  lemma LawfulIsFollowed(m: Map, es: seq<Element>, orders: seq<Order>, i: nat, k: int)
    requires i < |es| && Lawful(m, es, orders, es[i], k)
    requires Contested(es, LastStep(orders[k])) || Unsought(es, orders, i, LastStep(orders[k]))
    ensures Moved(m, es, orders)[i].at == LastStep(orders[k])
  {
    hide Contested, Unsought, Ends;
    HeadsByOrder(m, es, orders, es[i]);
    assert forall n | Lawful(m, es, orders, es[i], n) :: n == k;
    EndsAllow(m, es, orders, Headings(m, es, orders), i);
  }
}
