/** The umpire's board: one round's resolution, done in place on a copy of the state. */
module Umpire {
  import opened World
  import opened State
  import opened Moves
  import opened Chance
  import opened Fire
  import opened Resolution
  import opened Sorting
  import Keys

  /** The factions of the elements in each cell that holds any. */
  method FactionsAt(es: seq<Element>) returns (on: map<Location, set<string>>)
    ensures AreFactionsAt(es, |es|, on)
  {
    on := map[];
    for i := 0 to |es|
      invariant AreFactionsAt(es, i, on)
    {
      FactionsAtNext(es, i, on);
      on := on[es[i].at := (if es[i].at in on then on[es[i].at] else {}) + {es[i].faction}];
    }
  }

  ghost predicate AreFactionsAt(es: seq<Element>, n: nat, on: map<Location, set<string>>)
    requires n <= |es|
  {
    && (forall l | l in on :: on[l] != {})
    && (forall l, f :: Holds(on, l, f) <==> StandsAmong(es, n, l, f))
  }

  ghost predicate Holds(on: map<Location, set<string>>, l: Location, f: string) {
    l in on && f in on[l]
  }

  ghost predicate StandsAmong(es: seq<Element>, n: nat, l: Location, f: string)
    requires n <= |es|
  {
    exists k :: 0 <= k < n && es[k].at == l && es[k].faction == f
  }

  lemma FactionsAtNext(es: seq<Element>, n: nat, on: map<Location, set<string>>)
    requires n < |es| && AreFactionsAt(es, n, on)
    ensures AreFactionsAt(es, n + 1, on[es[n].at := (if es[n].at in on then on[es[n].at] else {}) + {es[n].faction}])
  {
    var e := es[n];
    var on' := on[e.at := (if e.at in on then on[e.at] else {}) + {e.faction}];
    forall l | l in on' ensures on'[l] != {} {
      assert l == e.at ==> e.faction in on'[l];
    }
    forall l, f ensures Holds(on', l, f) <==> StandsAmong(es, n + 1, l, f) {
      if StandsAmong(es, n, l, f) {
        var k :| 0 <= k < n && es[k].at == l && es[k].faction == f;
        assert 0 <= k < n + 1;
      }
      if l == e.at && f == e.faction {
        assert es[n].at == l && es[n].faction == f;
      } else if StandsAmong(es, n + 1, l, f) {
        var k :| 0 <= k < n + 1 && es[k].at == l && es[k].faction == f;
        assert 0 <= k < n;
      }
    }
  }

  lemma ContestedBySets(es: seq<Element>, on: map<Location, set<string>>, l: Location)
    requires AreFactionsAt(es, |es|, on)
    ensures Contested(es, l) <==> l in on && |on[l]| > 1
  {
    if Contested(es, l) {
      var i, j :| 0 <= i < |es| && 0 <= j < |es| && es[i].at == l == es[j].at && es[i].faction != es[j].faction;
      assert StandsAmong(es, |es|, l, es[i].faction) && StandsAmong(es, |es|, l, es[j].faction);
      assert es[i].faction in on[l] && es[j].faction in on[l];
      MoreThanOne(on[l]);
    } else if l in on {
      forall x, y | x in on[l] && y in on[l] ensures x == y {
        assert StandsAmong(es, |es|, l, x) && StandsAmong(es, |es|, l, y);
      }
      MoreThanOne(on[l]);
    }
  }

  class Board {
    const world: Map
    const factions: (string, string)
    var elements: seq<Element>
    var holders: map<Location, string>
    var progress: map<Location, Progress>

    constructor (s: State)
      ensures world == s.world && factions == s.factions
      ensures elements == s.elements && holders == s.holders && progress == s.progress
    {
      world, factions, elements, holders, progress := s.world, s.factions, s.elements, s.holders, s.progress;
    }

    // ----- Moves -----

    /** The cells that hold elements of more than one faction. */
    method ContestedCells() returns (cells: set<Location>)
      ensures forall l :: l in cells <==> Contested(elements, l)
    {
      var on := FactionsAt(elements);
      cells := set l | l in on && |on[l]| > 1;
      forall l ensures l in cells <==> Contested(elements, l) {
        ContestedBySets(elements, on, l);
      }
    }

    /** Applies every order at once, and returns the elements that left a fight, each with the cell it left. */
    method Move(orders: seq<Order>) returns (retreats: map<string, Location>)
      requires UniqueElements(elements)
      modifies this`elements
      ensures elements == Moved(world, old(elements), orders)
      ensures AreRetreats(world, old(elements), orders, retreats)
    {
      ghost var es := elements;
      var pinned := ContestedCells();
      var final := Head(orders, pinned);
      final := StopRefused(pinned, final);
      assert final == Finals(world, es, orders);
      retreats := map[];
      for i := 0 to |elements|
        invariant |elements| == |es|
        invariant forall k | 0 <= k < |es| :: elements[k] == if k < i then es[k].(at := final[k]) else es[k]
        invariant RetreatsAmong(world, es, orders, i, retreats)
      {
        hide Finals, Contested, RetreatsAmong;
        RetreatsNext(world, es, orders, i, retreats);
        if final[i] != elements[i].at && elements[i].at in pinned {
          retreats := retreats[elements[i].id := elements[i].at];
        }
        elements := elements[i := elements[i].(at := final[i])];
      }
    }

    /** Where every element heads: the orders the rules refuse outright leave it where it stands. */
    method Head(orders: seq<Order>, pinned: set<Location>) returns (final: seq<Location>)
      requires forall l :: l in pinned <==> Contested(elements, l)
      ensures final == Headings(world, elements, orders)
    {
      var byId: map<string, Order> := map[];
      for i := 0 to |orders|
        invariant LastOrders(orders[..i], byId)
      {
        assert orders[..i + 1] == orders[..i] + [orders[i]];
        LastOrdersNext(orders[..i], byId, orders[i]);
        byId := byId[orders[i].element := orders[i]];
      }
      assert orders[..|orders|] == orders;
      final := [];
      for i := 0 to |elements|
        invariant |final| == i
        invariant forall k | 0 <= k < i :: final[k] == Heading(world, elements, orders, elements[k])
      {
        var e := elements[i];
        var end := e.at;
        if e.id in byId && !e.status.Recovering?
           && !(e.at in pinned && (!byId[e.id].retreat || |byId[e.id].steps| != 1)) {
          var to := Walk(world, e, byId[e.id].steps);
          if to.Some? {
            end := to.value;
          }
        }
        assert end == Heading(world, elements, orders, e);
        final := final + [end];
      }
    }

    /** Refuses moves until no two of a faction end on one cell outside the round's fights. */
    method StopRefused(pinned: set<Location>, first: seq<Location>) returns (final: seq<Location>)
      requires |first| == |elements|
      requires forall l :: l in pinned <==> Contested(elements, l)
      ensures final == Ends(elements, first)
    {
      final := first;
      var refused := true;
      while refused
        invariant |final| == |elements|
        invariant Ends(elements, final) == Ends(elements, first)
        invariant !refused ==> Refuse(elements, final) == final
        decreases refused, Movers(elements, final)
      {
        var out;
        out, refused := RefuseOnce(pinned, final);
        if refused {
          RefuseStopsMovers(elements, final);
        }
        final := out;
      }
    }

    /** One test of every end. */
    method RefuseOnce(pinned: set<Location>, final: seq<Location>) returns (out: seq<Location>, refused: bool)
      requires |final| == |elements|
      requires forall l :: l in pinned <==> Contested(elements, l)
      ensures out == Refuse(elements, final)
      ensures refused <==> out != final
    {
      hide EndKey, Contested;
      var ends := CountEnds(final);
      hide Refused;
      out, refused := final, false;
      for i := 0 to |elements|
        invariant |out| == |elements|
        invariant forall k | 0 <= k < |elements| :: out[k] == if k < i then Refuse(elements, final)[k] else final[k]
        invariant refused <==> exists k :: 0 <= k < i && Refuse(elements, final)[k] != final[k]
      {
        var e := elements[i];
        RefusedByCount(elements, final, ends, i);
        if out[i] != e.at && out[i] !in pinned && ends[EndKey(e.faction, out[i])] > 1 {
          out := out[i := e.at];
          refused := true;
        }
      }
    }

    /** How many elements end under each key. */
    method CountEnds(final: seq<Location>) returns (ends: map<string, nat>)
      requires |final| == |elements|
      ensures Counted(elements, final, |elements|, ends)
    {
      hide EndKey, Counted;
      ends := map[];
      NoneCounted(elements, final);
      for i := 0 to |elements|
        invariant Counted(elements, final, i, ends)
      {
        var k := EndKey(elements[i].faction, final[i]);
        CountedNext(elements, final, i, ends);
        ends := ends[k := (if k in ends then ends[k] else 0) + 1];
      }
    }

    // ----- Fire -----

    /** The living operators of the elements at the places given, in the order of the elements' IDs. */
    method OperatorsOf(at: seq<nat>) returns (ops: seq<Operator>)
      requires Places(elements, at)
      ensures AreOperators(elements, at, ops) && ops == Fielded(elements, at)
    {
      var order := SortBy(at, IdAt(elements));
      SortedPlaces(elements, at);
      ops := [];
      for n := 0 to |order|
        invariant AreOperators(elements, order[..n], ops) && ops == OperatorsIn(elements, order[..n])
      {
        ghost var before := ops;
        ops := AddOperators(ops, order[n]);
        OperatorsNext(elements, order[..n], before, order[n], ops);
        PrefixNext(order, n);
      }
      PrefixWhole(order);
    }

    /** An element's living operators join the list, in the order it fields them. */
    method AddOperators(before: seq<Operator>, i: nat) returns (ops: seq<Operator>)
      requires i < |elements|
      ensures OperatorsAdded(elements, before, i, |elements[i].health|, ops)
    {
      ops := before;
      for slot := 0 to |elements[i].health|
        invariant OperatorsAdded(elements, before, i, slot, ops)
      {
        OperatorAdded(elements, before, i, slot, ops);
        if elements[i].health[slot] > 0 {
          ops := ops + [Operator(i, slot)];
        }
      }
    }

    /** Each shooter fires once, aiming first and then, on a hit, picking its target and its damage; every hit is drawn
        before anyone falls. */
    method Shoot(rng: Random, shooters: seq<Operator>, targets: seq<Operator>)
      returns (damage: map<Operator, int>, ghost shots: seq<Shot>, ghost hits: seq<Hit>)
      modifies rng`asked
      ensures AreShots(shots, |shooters|, |targets|)
      ensures (shots, rng.asked) == ShotsFrom(rng.rolls, old(rng.asked), |shooters|, |targets|)
      ensures AreDealt(damage, shots, targets)
      ensures damage == Tally(hits) && AreHits(hits, targets, |shooters|)
    {
      damage, shots, hits := map[], [], [];
      if |targets| == 0 {
        return;
      }
      for n := 0 to |shooters|
        invariant AreShots(shots, n, |targets|)
        invariant (shots, rng.asked) == ShotsFrom(rng.rolls, old(rng.asked), n, |targets|)
        invariant AreDealt(damage, shots, targets)
        invariant damage == Tally(hits) && AreHits(hits, targets, n)
      {
        hide AreDealt, Tally, AreShots, ShotsFrom;
        ghost var before := damage;
        ghost var shot := NextShot(rng.rolls, rng.asked, |targets|).0;
        var aim := rng.IntN(100);
        if aim < HIT_CHANCE {
          var k := rng.IntN(|targets|);
          var t := targets[k];
          var d := rng.IntN(MAX_DAMAGE - MIN_DAMAGE + 1);
          damage := damage[t := (if t in damage then damage[t] else 0) + (MIN_DAMAGE + d)];
          TallyNext(hits, Hit(t, MIN_DAMAGE + d));
          hits := hits + [Hit(t, MIN_DAMAGE + d)];
        }
        ShotLands(shots, targets, before, shot, damage);
        ShotDrawn(rng.rolls, old(rng.asked), n, shots, |targets|, shot);
        shots := shots + [shot];
      }
    }

    /** Applies the damage to the operators it keys; the fallen keep their places at 0. */
    method Wound(damage: map<Operator, int>)
      requires forall op | op in damage :: Alive(elements, op)
      modifies this`elements
      ensures elements == Wounded(old(elements), damage)
    {
      ghost var es := elements;
      var left := damage.Keys;
      while left != {}
        invariant left <= damage.Keys
        invariant WoundedBut(es, damage, left, elements)
      {
        var op :| op in left;
        WoundedBy(es, damage, left, elements, op);
        var e := elements[op.element];
        elements := elements[op.element := e.(health := e.health[op.slot := Less0(e.health[op.slot], damage[op])])];
        left := left - {op};
      }
      AllWounded(es, damage, elements);
    }

    /** Two sides' living operators fire once at each other, all at once; our draws are made first. */
    method Exchange(rng: Random, us: seq<nat>, them: seq<nat>) returns (ghost onThem: seq<Shot>, ghost onUs: seq<Shot>)
      requires Places(elements, us) && Places(elements, them) && Distinct(us) && Distinct(them)
      requires forall i | i in us :: i !in them
      requires NonNegative(elements)
      modifies this`elements, rng`asked
      ensures Exchanged(old(elements), elements, us, them)
      ensures Landed(old(elements), elements, us, them, onThem, onUs)
      ensures Drawn(rng.rolls, old(rng.asked), old(elements), us, them, onThem, onUs, rng.asked)
    {
      ghost var es := elements;
      var ours := OperatorsOf(us);
      var theirs := OperatorsOf(them);
      var damage, struck;
      ghost var hits, hitsOnUs;
      damage, onThem, hits := Shoot(rng, ours, theirs);
      struck, onUs, hitsOnUs := Shoot(rng, theirs, ours);
      TalliedAlive(es, theirs, hits);
      Wound(damage);
      SideWounded(es, them, us, theirs, hits);
      ghost var fs := elements;
      AliveAside(es, fs, them, us, ours);
      TalliedAlive(fs, ours, hitsOnUs);
      Wound(struck);
      SideWounded(fs, us, them, ours, hitsOnUs);
      BothWounded(es, fs, elements, us, them);
      BothLanded(es, damage, struck, us, them, onThem, onUs);
    }

    // ----- Pursuit -----

    /** The place of the element with the ID. */
    method FindElement(id: string) returns (i: nat)
      requires exists k :: 0 <= k < |elements| && elements[k].id == id
      ensures i < |elements| && elements[i].id == id
    {
      i := 0;
      while elements[i].id != id
        invariant i < |elements|
        invariant forall k | 0 <= k < i :: elements[k].id != id
        decreases |elements| - i
      {
        i := i + 1;
      }
    }

    /** The enemy elements that fire on the retreater, in the order of their IDs. */
    method Pursuers(ghost start: seq<Element>, stayed: map<string, Element>, ghost orders: seq<Order>,
                    pursues: map<string, bool>, from: Location, i: nat)
      returns (pursuers: seq<nat>)
      requires i < |elements| && UniqueElements(elements) && AreStayed(start, elements, stayed)
      requires ArePursuing(orders, pursues)
      ensures InIdOrder(elements, pursuers) && Distinct(pursuers)
      ensures forall j | 0 <= j < |elements| :: j in pursuers <==> IsPursuer(start, elements, orders, from, i, j)
    {
      pursuers := [];
      for j := 0 to |elements|
        invariant Ascending(pursuers, j)
        invariant forall k | 0 <= k < j :: k in pursuers <==> IsPursuer(start, elements, orders, from, i, k)
      {
        var o := elements[j];
        var was := stayed[o.id];
        if o.faction != elements[i].faction && o.at == from && was.at == from && !was.status.Recovering?
           && o.id in pursues && pursues[o.id] {
          pursuers := pursuers + [j];
        }
      }
      SortedInIdOrder(elements, pursuers);
      pursuers := SortBy(pursuers, IdAt(elements));
    }

    /** Whether the last order for each element pursues. */
    method Pursuing(orders: seq<Order>) returns (pursues: map<string, bool>)
      ensures ArePursuing(orders, pursues)
    {
      pursues := map[];
      for k := 0 to |orders|
        invariant ArePursuing(orders[..k], pursues)
      {
        PursuingNext(orders[..k], pursues, orders[k]);
        PrefixNext(orders, k);
        pursues := pursues[orders[k].element := orders[k].pursue];
      }
      PrefixWhole(orders);
    }

    /** Plays out the pursuit of each retreat, in the order of the retreaters' IDs. */
    method Volley(rng: Random, ghost start: seq<Element>, stayed: map<string, Element>,
                  retreats: map<string, Location>, orders: seq<Order>)
      returns (reports: seq<RetreatReport>, ghost ids: seq<string>, ghost xs: seq<Clash>)
      requires ReadyToFire(start, elements, stayed, retreats)
      modifies this`elements, rng`asked
      ensures Volleyed(start, old(elements), orders, retreats, ids, xs, reports)
      ensures Rolled(rng.rolls, old(rng.asked), old(elements), xs) && rng.asked == AskedAfter(old(rng.asked), xs)
      ensures StrictlySortedBy(ids, ItsText) && forall id :: id in ids <==> id in retreats
      ensures elements == After(old(elements), xs)
    {
      ghost var es, asked := elements, rng.asked;
      var pursues := Pursuing(orders);
      var sorted := Sorted(retreats.Keys, ItsText);
      reports, xs := [], [];
      for n := 0 to |sorted|
        invariant Volleyed(start, es, orders, retreats, sorted[..n], xs, reports)
        invariant elements == After(es, xs)
        invariant Rolled(rng.rolls, asked, es, xs) && rng.asked == AskedAfter(asked, xs)
        invariant ReadyToFire(start, elements, stayed, retreats)
      {
        hide Volleyed, ReadyToFire, IsRetreat, ClashFrom, Rolled, RolledFrom, After, AskedAfter;
        ghost var before := elements;
        assert sorted[n] in retreats;
        var r: RetreatReport;
        ghost var x: Clash;
        r, x := OneRetreat(rng, start, stayed, retreats, orders, pursues, sorted[n]);
        VolleyedNext(start, es, orders, retreats, sorted[..n], xs, reports, sorted[n], x, r);
        RolledNext(rng.rolls, asked, es, xs, x);
        AfterLast(es, asked, xs, x);
        HurtKeeps(start, before, stayed, retreats, x);
        PrefixNext(sorted, n);
        reports, xs := reports + [r], xs + [x];
      }
      PrefixWhole(sorted);
      ids := sorted;
    }

    /** One retreat and the exchange it draws. */
    method OneRetreat(rng: Random, ghost start: seq<Element>, stayed: map<string, Element>,
                      retreats: map<string, Location>, ghost orders: seq<Order>, pursues: map<string, bool>, id: string)
      returns (r: RetreatReport, ghost x: Clash)
      requires ReadyToFire(start, elements, stayed, retreats) && id in retreats
      requires ArePursuing(orders, pursues)
      modifies this`elements, rng`asked
      ensures x.after == elements && ClashFrom(old(elements), x)
      ensures RolledFrom(rng.rolls, old(rng.asked), old(elements), x) && x.asked == rng.asked
      ensures IsRetreat(start, old(elements), orders, id, retreats[id], x, r)
    {
      var from := retreats[id];
      var i := FindElement(id);
      var e := elements[i];
      var pursuers := Pursuers(start, stayed, orders, pursues, from, i);
      var places := [i] + pursuers;
      assert !IsPursuer(start, elements, orders, from, i, i);
      DistinctPrepended(i, pursuers);
      var before := elements;
      ghost var onThem, onUs := Exchange(rng, pursuers, [i]);
      var fs := elements;
      x := Clash(pursuers, [i], places, onThem, onUs, rng.asked, fs);
      r := RetreatReport(id, e.faction, from, e.at, Sum(before[i].health), Sum(fs[i].health),
                         Living(before[i].health) - Living(fs[i].health), Records(before, fs, pursuers));
    }

    // ----- Fights -----

    /** The places of the elements in each cell that holds any. */
    method CellsHeld() returns (cells: map<Location, seq<nat>>)
      ensures AreCells(elements, |elements|, cells)
    {
      cells := map[];
      for i := 0 to |elements|
        invariant AreCells(elements, i, cells)
      {
        CellsNext(elements, i, cells);
        var l := elements[i].at;
        cells := cells[l := (if l in cells then cells[l] else []) + [i]];
      }
    }

    /** A cell's elements by side: the first faction's, and the rest. */
    method Sides(places: seq<nat>) returns (us: seq<nat>, them: seq<nat>)
      requires Ascending(places, |elements|)
      ensures Ascending(us, |elements|) && Ascending(them, |elements|)
      ensures forall i :: i in us <==> i in places && i < |elements| && elements[i].faction == factions.0
      ensures forall i :: i in them <==> i in places && i < |elements| && elements[i].faction != factions.0
    {
      us, them := [], [];
      for n := 0 to |places|
        invariant SidesOf(elements, factions, places[..n], us, them)
      {
        PrefixNext(places, n);
        SidesNext(elements, factions, places, n, us, them);
        if elements[places[n]].faction == factions.0 {
          us := us + [places[n]];
        } else {
          them := them + [places[n]];
        }
      }
      PrefixWhole(places);
    }

    /** Every cell that holds both sides fights, in the order of the cells' keys. */
    method Fight(rng: Random) returns (reports: seq<FightReport>, ghost cells: seq<Location>, ghost xs: seq<Clash>)
      requires UniqueElements(elements) && NonNegative(elements)
      modifies this`elements, rng`asked
      ensures Rolled(rng.rolls, old(rng.asked), old(elements), xs) && rng.asked == AskedAfter(old(rng.asked), xs)
      ensures Fought(factions, old(elements), xs, cells, reports)
      ensures elements == After(old(elements), xs)
    {
      ghost var es, asked := elements, rng.asked;
      var held := CellsHeld();
      KeysTellApart();
      var keys := Sorted(held.Keys, KeyOf);
      reports, cells, xs := [], [], [];
      for n := 0 to |keys|
        invariant FoughtAmong(factions, es, xs, cells, reports)
        invariant FightingCells(factions, es, keys[..n], cells)
        invariant elements == After(es, xs) && InPlace(es, elements)
        invariant Rolled(rng.rolls, asked, es, xs) && rng.asked == AskedAfter(asked, xs)
      {
        hide FoughtAmong, FightingCells, IsFight, ClashFrom, BothStand, InPlace, AreCells, Rolled, RolledFrom, After, AskedAfter;
        PrefixNext(keys, n);
        CellPlaces(es, elements, held, keys[n]);
        var us, them := Sides(held[keys[n]]);
        SidesStand(factions, es, elements, held, keys[n], us, them);
        FightingNext(factions, es, keys, n, cells);
        if |us| != 0 && |them| != 0 {
          ghost var before := elements;
          var g: FightReport;
          ghost var x: Clash;
          g, x := OneFight(rng, es, held, keys[n], us, them);
          FoughtNext(factions, es, xs, cells, reports, keys[n], x, g);
          RolledNext(rng.rolls, asked, es, xs, x);
          AfterLast(es, asked, xs, x);
          StillInPlace(es, before, x);
          reports, cells, xs := reports + [g], cells + [keys[n]], xs + [x];
        }
      }
      PrefixWhole(keys);
      AllFought(factions, es, held, keys, cells);
    }

    /** One cell's fight. */
    method OneFight(rng: Random, ghost es: seq<Element>, held: map<Location, seq<nat>>, l: Location, us: seq<nat>,
                    them: seq<nat>)
      returns (g: FightReport, ghost x: Clash)
      requires InPlace(es, elements) && AreCells(es, |es|, held) && l in held
      requires AreSides(factions, elements, held[l], us, them)
      modifies this`elements, rng`asked
      ensures x.after == elements && ClashFrom(old(elements), x)
      ensures RolledFrom(rng.rolls, old(rng.asked), old(elements), x) && x.asked == rng.asked
      ensures IsFight(factions, old(elements), l, x, g)
    {
      CellPlaces(es, elements, held, l);
      SortedInIdOrder(elements, held[l]);
      var here := SortBy(held[l], IdAt(elements));
      var before := elements;
      ghost var onThem, onUs := Exchange(rng, us, them);
      x := Clash(us, them, here, onThem, onUs, rng.asked, elements);
      g := FightReport(before[here[0]].at, Records(before, elements, here));
    }

    // ----- Burial, statuses and captures -----

    /** Removes every fallen operator, and every element with none left. */
    method Bury() returns (losses: seq<Loss>)
      requires UniqueElements(elements)
      modifies this`elements
      ensures AreLive(old(elements), elements)
      ensures AreLosses(old(elements), losses)
    {
      var es := elements;
      var live: seq<Element> := [];
      losses := [];
      for i := 0 to |es|
        invariant BuriedAmong(es, i, live, losses)
      {
        BuriedNext(es, i, live, losses);
        hide BuriedAmong;
        var e := Buried(es[i]);
        if |e.health| == 0 {
          losses := losses + [Loss(e.id, e.faction)];
        } else {
          live := live + [e];
        }
      }
      BuriedSorted(es, live, losses);
      elements, losses := SortBy(live, IdOf), SortBy(losses, LossId);
    }

    /** Sets each element's status for the next round. */
    method Settle(retreats: map<string, Location>)
      modifies this`elements
      ensures AreSettled(old(elements), retreats, elements)
    {
      ghost var es := elements;
      var fights := ContestedCells();
      for i := 0 to |elements|
        invariant |elements| == |es|
        invariant forall k | 0 <= k < |es| ::
            elements[k] == if k < i then es[k].(status := StatusAfter(es, retreats, es[k])) else es[k]
      {
        hide Contested;
        var e := elements[i];
        var status := if e.id in retreats then Recovering else if e.at in fights then Status.Engaged else Ready;
        elements := elements[i := e.(status := status)];
      }
    }

    /** Counts the rounds each faction ends alone on each objective, and gives it those it has counted enough on. */
    method TakeObjectives() returns (captures: seq<Capture>, advances: seq<Advance>)
      requires Distinct(Objectives(world.sectors))
      modifies this`holders, this`progress
      ensures Captured(world, elements, old(holders), old(progress), holders, progress)
      ensures (captures, advances) == CapturesOf(elements, old(holders), old(progress), Objectives(world.sectors))
    {
      var on := FactionsAt(elements);
      var objectives := Objectives(world.sectors);
      captures, advances := [], [];
      for n := 0 to |objectives|
        invariant CountedAmong(elements, old(holders), old(progress), objectives[..n], holders, progress)
        invariant (captures, advances) == CapturesOf(elements, old(holders), old(progress), objectives[..n])
      {
        hide CountedAmong, CapturesOf, AreFactionsAt;
        var o := objectives[n];
        ghost var holders0, progress0 := holders, progress;
        var took, counted;
        took, counted := TakeOne(on, o);
        PrefixNext(objectives, n);
        CountedNextObjective(elements, old(holders), old(progress), objectives, n, holders0, progress0, holders, progress);
        CapturesNext(elements, old(holders), old(progress), objectives[..n], o);
        captures, advances := captures + took, advances + counted;
      }
      PrefixWhole(objectives);
    }

    /** Counts one objective. */
    method TakeOne(on: map<Location, set<string>>, o: Location) returns (took: seq<Capture>, counted: seq<Advance>)
      requires AreFactionsAt(elements, |elements|, on)
      modifies this`holders, this`progress
      ensures CapturedAt(elements, old(holders), old(progress), holders, progress, o)
      ensures (took, counted) == CaptureReports(elements, old(holders), old(progress), o)
      ensures forall l | l != o :: Unmoved(old(holders), holders, l) && Unmoved(old(progress), progress, l)
    {
      took, counted := [], [];
      if o !in on || |on[o]| != 1 {
        NobodyAlone(elements, on, o);
        progress := progress - {o};
        return;
      }
      var f :| f in on[o];
      SomebodyAlone(elements, on, o, f);
      var from := HolderOf(holders, o);
      if from == f {
        progress := progress - {o};
        return;
      }
      var rounds := if o in progress && progress[o].faction == f then progress[o].rounds else 0;
      rounds := rounds + 1;
      if rounds < CAPTURE_ROUNDS {
        progress := progress[o := Progress(f, rounds)];
        counted := [Advance(o, f, rounds)];
        return;
      }
      progress := progress - {o};
      holders := holders[o := f];
      took := [Capture(o, f, from)];
    }
  }

  /** The retreats of the first `n` elements. */
  ghost predicate RetreatsAmong(m: Map, es: seq<Element>, orders: seq<Order>, n: nat, retreats: map<string, Location>)
    requires n <= |es|
  {
    && (forall i | 0 <= i < n && Retreats(m, es, orders, i) :: es[i].id in retreats && retreats[es[i].id] == es[i].at)
    && (forall id | id in retreats :: exists i :: 0 <= i < n && es[i].id == id && Retreats(m, es, orders, i))
  }

  lemma RetreatsNext(m: Map, es: seq<Element>, orders: seq<Order>, n: nat, retreats: map<string, Location>)
    requires n < |es| && UniqueElements(es) && RetreatsAmong(m, es, orders, n, retreats)
    ensures RetreatsAmong(m, es, orders, n + 1,
                          if Retreats(m, es, orders, n) then retreats[es[n].id := es[n].at] else retreats)
  {
    hide Retreats;
    var retreats' := if Retreats(m, es, orders, n) then retreats[es[n].id := es[n].at] else retreats;
    forall id | id in retreats' ensures exists i :: 0 <= i < n + 1 && es[i].id == id && Retreats(m, es, orders, i) {
      if id in retreats {
        var i :| 0 <= i < n && es[i].id == id && Retreats(m, es, orders, i);
      }
    }
  }

  lemma MoreThanOne(s: set<string>)
    ensures |s| > 1 <==> exists x, y :: x in s && y in s && x != y
  {
    if x :| x in s {
      assert |s| == |s - {x}| + 1;
      if y :| y in s - {x} {
        assert |s - {x}| == |s - {x} - {y}| + 1;
      }
      if x', y' :| x' in s && y' in s && x' != y' {
        var z := if x' == x then y' else x';
        assert z in s - {x};
      }
    }
  }

  /** The last order for each element that has one. */
  ghost predicate LastOrders(orders: seq<Order>, byId: map<string, Order>) {
    forall id {:trigger id in byId} {:trigger OrderFor(orders, id)} ::
      OrderFor(orders, id) == if id in byId then Some(byId[id]) else None
  }

  lemma LastOrdersNext(orders: seq<Order>, byId: map<string, Order>, last: Order)
    requires LastOrders(orders, byId)
    ensures LastOrders(orders + [last], byId[last.element := last])
  {
    var byId' := byId[last.element := last];
    forall id ensures OrderFor(orders + [last], id) == if id in byId' then Some(byId'[id]) else None {
      OrderForLast(orders, last, id);
    }
  }

  lemma {:induction false} OrderForLast(orders: seq<Order>, last: Order, id: string)
    ensures OrderFor(orders + [last], id) == if last.element == id then Some(last) else OrderFor(orders, id)
  {
    if orders == [] {
      assert orders + [last] == [last] && [last][1..] == [];
    } else {
      assert (orders + [last])[1..] == orders[1..] + [last];
      OrderForLast(orders[1..], last, id);
    }
  }

  /** The elements, of the first `n`, whose ends have the key. */
  ghost function EndingAt(es: seq<Element>, final: seq<Location>, n: nat, key: string): set<nat>
    requires |final| == |es| && n <= |es|
  {
    set i: nat | i < n && EndKey(es[i].faction, final[i]) == key
  }

  lemma EndingAtNext(es: seq<Element>, final: seq<Location>, n: nat, key: string)
    requires |final| == |es| && n < |es|
    ensures EndingAt(es, final, n + 1, key)
            == EndingAt(es, final, n, key) + if EndKey(es[n].faction, final[n]) == key then {n} else {}
    ensures |EndingAt(es, final, n + 1, key)|
            == |EndingAt(es, final, n, key)| + if EndKey(es[n].faction, final[n]) == key then 1 else 0
  {
    hide EndKey;
  }

  /** The counts of the first `n` ends. */
  ghost predicate Counted(es: seq<Element>, final: seq<Location>, n: nat, ends: map<string, nat>)
    requires |final| == |es| && n <= |es|
  {
    && (forall k | 0 <= k < n :: EndKey(es[k].faction, final[k]) in ends)
    && (forall key :: |EndingAt(es, final, n, key)| == if key in ends then ends[key] else 0)
  }

  lemma CountedNext(es: seq<Element>, final: seq<Location>, n: nat, ends: map<string, nat>)
    requires |final| == |es| && n < |es| && Counted(es, final, n, ends)
    ensures var k := EndKey(es[n].faction, final[n]);
            Counted(es, final, n + 1, ends[k := (if k in ends then ends[k] else 0) + 1])
  {
    hide EndKey;
    var k := EndKey(es[n].faction, final[n]);
    var ends' := ends[k := (if k in ends then ends[k] else 0) + 1];
    forall key ensures |EndingAt(es, final, n + 1, key)| == if key in ends' then ends'[key] else 0 {
      EndingAtNext(es, final, n, key);
    }
  }

  lemma NoneCounted(es: seq<Element>, final: seq<Location>)
    requires |final| == |es|
    ensures Counted(es, final, 0, map[])
  {
    forall key ensures EndingAt(es, final, 0, key) == {} {
    }
  }

  lemma RefusedByCount(es: seq<Element>, final: seq<Location>, ends: map<string, nat>, i: nat)
    requires |final| == |es| && i < |es| && Counted(es, final, |es|, ends)
    ensures EndKey(es[i].faction, final[i]) in ends
    ensures Refused(es, final, i)
            <==> final[i] != es[i].at && !Contested(es, final[i]) && ends[EndKey(es[i].faction, final[i])] > 1
  {
    hide EndKey, Contested, Crowded;
    CrowdedByCount(es, final, |es|, i);
  }

  lemma CrowdedByCount(es: seq<Element>, final: seq<Location>, n: nat, i: nat)
    requires |final| == |es| == n && i < |es|
    ensures Crowded(es, final, i) <==> |EndingAt(es, final, n, EndKey(es[i].faction, final[i]))| > 1
  {
    hide EndKey;
    var here := EndingAt(es, final, n, EndKey(es[i].faction, final[i]));
    assert i in here && |here| == |here - {i}| + 1;
    if Crowded(es, final, i) {
      var j :| 0 <= j < |es| && j != i && EndKey(es[j].faction, final[j]) == EndKey(es[i].faction, final[i]);
      assert j in here - {i};
    } else {
      assert here - {i} == {};
    }
  }

  lemma PrefixNext<T>(s: seq<T>, n: nat)
    requires n < |s|
    ensures s[..n + 1] == s[..n] + [s[n]]
  {
  }

  lemma PrefixWhole<T>(s: seq<T>)
    ensures s[..|s|] == s
  {
  }

  // ----- Operators -----

  /** The list holds the living operators of the places, one for each. */
  ghost predicate AreOperators(es: seq<Element>, at: seq<nat>, ops: seq<Operator>) {
    && Places(es, at)
    && |ops| == Shooters(es, at)
    && forall op | op in ops :: Alive(es, op) && op.element in at
  }

  /** To the operators before are added the living of the first `n` places of element `i`. */
  ghost predicate OperatorsAdded(es: seq<Element>, before: seq<Operator>, i: nat, n: nat, ops: seq<Operator>)
    requires i < |es| && n <= |es[i].health|
  {
    && |ops| == |before| + Living(es[i].health[..n])
    && ops == before + LivingOf(i, es[i].health[..n])
    && forall op | op in ops :: op in before || (op.element == i && Alive(es, op))
  }

  lemma OperatorAdded(es: seq<Element>, before: seq<Operator>, i: nat, n: nat, ops: seq<Operator>)
    requires i < |es| && n < |es[i].health| && OperatorsAdded(es, before, i, n, ops)
    ensures OperatorsAdded(es, before, i, n + 1, if es[i].health[n] > 0 then ops + [Operator(i, n)] else ops)
  {
    assert es[i].health[..n + 1] == es[i].health[..n] + [es[i].health[n]];
    LivingLast(es[i].health[..n], es[i].health[n]);
  }

  lemma {:induction false} LivingLast(hs: seq<int>, h: int)
    ensures Living(hs + [h]) == Living(hs) + if h > 0 then 1 else 0
  {
    if hs == [] {
      assert hs + [h] == [h];
    } else {
      assert (hs + [h])[1..] == hs[1..] + [h];
      LivingLast(hs[1..], h);
    }
  }

  lemma OperatorsNext(es: seq<Element>, at: seq<nat>, before: seq<Operator>, i: nat, ops: seq<Operator>)
    requires AreOperators(es, at, before) && i < |es| && OperatorsAdded(es, before, i, |es[i].health|, ops)
    ensures AreOperators(es, at + [i], ops)
    ensures before == OperatorsIn(es, at) ==> ops == OperatorsIn(es, at + [i])
  {
    assert (at + [i])[..|at|] == at;
    assert es[i].health[..|es[i].health|] == es[i].health;
    ShootersLast(es, at, i);
  }

  lemma {:induction false} ShootersLast(es: seq<Element>, at: seq<nat>, i: nat)
    requires Places(es, at) && i < |es|
    ensures Places(es, at + [i]) && Shooters(es, at + [i]) == Shooters(es, at) + Living(es[i].health)
  {
    if at == [] {
      assert at + [i] == [i] && [i][1..] == [];
    } else {
      assert (at + [i])[1..] == at[1..] + [i];
      ShootersLast(es, at[1..], i);
    }
  }

  lemma {:induction false} InsertedPlaces(es: seq<Element>, i: nat, at: seq<nat>)
    requires Places(es, at) && i < |es|
    ensures var r := Insert(i, at, IdAt(es)); Places(es, r) && Shooters(es, r) == Shooters(es, at) + Living(es[i].health)
  {
    if at != [] && !Keys.Less(IdAt(es)(i), IdAt(es)(at[0])) {
      InsertedPlaces(es, i, at[1..]);
      var tail := Insert(i, at[1..], IdAt(es));
      assert ([at[0]] + tail)[1..] == tail;
    } else {
      assert ([i] + at)[1..] == at;
    }
  }

  /** Sorting places keeps their members and their operators. */
  lemma {:induction false} SortedPlaces(es: seq<Element>, at: seq<nat>)
    requires Places(es, at)
    ensures var r := SortBy(at, IdAt(es));
            Places(es, r) && Shooters(es, r) == Shooters(es, at) && forall i :: i in r <==> i in at
  {
    if at != [] {
      SortedPlaces(es, at[1..]);
      InsertedPlaces(es, at[0], SortBy(at[1..], IdAt(es)));
    }
    SortByMembers(at, IdAt(es));
  }

  // ----- Wounds -----

  /** Every wound has been dealt but those left. */
  ghost predicate WoundedBut(es: seq<Element>, damage: map<Operator, int>, left: set<Operator>, fs: seq<Element>) {
    && |fs| == |es|
    && forall i | 0 <= i < |es| :: fs[i] == es[i].(health := HealthAfter(i, es[i].health, damage - left))
  }

  lemma WoundedBy(es: seq<Element>, damage: map<Operator, int>, left: set<Operator>, fs: seq<Element>, op: Operator)
    requires WoundedBut(es, damage, left, fs) && op in left && left <= damage.Keys && Alive(es, op)
    ensures op.element < |fs| && op.slot < |fs[op.element].health|
    ensures var e := fs[op.element];
            WoundedBut(es, damage, left - {op},
                       fs[op.element := e.(health := e.health[op.slot := Less0(e.health[op.slot], damage[op])])])
  {
    var e := fs[op.element];
    var gs := fs[op.element := e.(health := e.health[op.slot := Less0(e.health[op.slot], damage[op])])];
    forall i | 0 <= i < |es| ensures gs[i].health == HealthAfter(i, es[i].health, damage - (left - {op})) {
    }
  }

  lemma AllWounded(es: seq<Element>, damage: map<Operator, int>, fs: seq<Element>)
    requires WoundedBut(es, damage, {}, fs)
    ensures fs == Wounded(es, damage)
  {
    assert damage - {} == damage;
  }

  /** The operators a side's hits fall on are alive. */
  lemma TalliedAlive(es: seq<Element>, targets: seq<Operator>, hits: seq<Hit>)
    requires (forall op | op in targets :: Alive(es, op)) && AreHits(hits, targets, |hits|)
    ensures ValidHits(es, targets, hits)
    ensures forall op | op in Tally(hits) :: Alive(es, op)
  {
    TallyTargets(hits);
    forall op | op in Tally(hits) ensures Alive(es, op) {
      assert Targets(hits, op);
    }
  }

  /** One side's wounds: it alone is hurt, by no more than its enemy's shots can do. */
  lemma SideWounded(es: seq<Element>, us: seq<nat>, them: seq<nat>, ours: seq<Operator>, hits: seq<Hit>)
    requires AreOperators(es, us, ours) && ValidHits(es, ours, hits) && NonNegative(es)
    requires Places(es, them) && Distinct(us) && Distinct(them) && forall i | i in us :: i !in them
    ensures var fs := Wounded(es, Tally(hits));
            && HurtOnly(es, fs, us)
            && 0 <= Total(es, us) - Total(fs, us) <= MAX_DAMAGE * |hits|
            && Total(es, them) == Total(fs, them) && Shooters(es, them) == Shooters(fs, them)
            && NonNegative(fs)
  {
    WoundsHurtTargets(es, ours, hits, us);
    HitsTake(es, ours, hits, us);
    var fs := Wounded(es, Tally(hits));
    hide Wounded, Tally, ValidHits, AreOperators, Total, Shooters, Hurt;
    HurtAside(es, fs, us, them);
    TotalAgrees(es, fs, them);
    ShootersAgree(es, fs, them);
  }

  lemma HurtAside(es: seq<Element>, fs: seq<Element>, us: seq<nat>, them: seq<nat>)
    requires HurtOnly(es, fs, us) && NonNegative(es) && Places(es, them) && forall i | i in us :: i !in them
    ensures NonNegative(fs) && forall k | 0 <= k < |them| :: es[them[k]].health == fs[them[k]].health
  {
    forall i | 0 <= i < |fs| ensures forall k | 0 <= k < |fs[i].health| :: 0 <= fs[i].health[k] {
      assert SameButHealth(es[i], fs[i]);
    }
    forall k | 0 <= k < |them| ensures es[them[k]].health == fs[them[k]].health {
      assert them[k] in them;
    }
  }

  lemma {:induction false} ShootersAgree(es: seq<Element>, fs: seq<Element>, at: seq<nat>)
    requires |es| == |fs| && Places(es, at) && forall k | 0 <= k < |at| :: es[at[k]].health == fs[at[k]].health
    ensures Shooters(es, at) == Shooters(fs, at)
  {
    if at != [] {
      ShootersAgree(es, fs, at[1..]);
    }
  }

  /** The other side's operators are untouched by the first wounds. */
  lemma AliveAside(es: seq<Element>, fs: seq<Element>, us: seq<nat>, them: seq<nat>, theirs: seq<Operator>)
    requires HurtOnly(es, fs, us) && AreOperators(es, them, theirs) && forall i | i in us :: i !in them
    requires Shooters(es, them) == Shooters(fs, them)
    ensures AreOperators(fs, them, theirs)
  {
  }

  lemma BothWounded(es: seq<Element>, fs: seq<Element>, gs: seq<Element>, us: seq<nat>, them: seq<nat>)
    requires Places(es, us) && Places(es, them) && forall i | i in us :: i !in them
    requires HurtOnly(es, fs, them) && HurtOnly(fs, gs, us)
    requires 0 <= Total(es, them) - Total(fs, them) <= MAX_DAMAGE * Shooters(es, us) && Total(fs, them) == Total(gs, them)
    requires 0 <= Total(fs, us) - Total(gs, us) <= MAX_DAMAGE * Shooters(es, them) && Total(es, us) == Total(fs, us)
    ensures Exchanged(es, gs, us, them)
  {
    forall i | 0 <= i < |es|
      ensures SameButHealth(es[i], gs[i]) && (i !in us + them ==> gs[i] == es[i])
    {
      assert fs[i] == es[i] || gs[i] == fs[i];
    }
  }

  /** A shot's damage joins what its target has taken, and a miss changes nothing. */
  lemma ShotLands(shots: seq<Shot>, targets: seq<Operator>, damage: map<Operator, int>, shot: Shot,
                  damage': map<Operator, int>)
    requires shot.pick < |targets| && AreDealt(damage, shots, targets)
    requires damage' == if shot.aim < HIT_CHANCE then Land(damage, Hit(targets[shot.pick], MIN_DAMAGE + shot.extra)) else damage
    ensures AreDealt(damage', shots + [shot], targets)
  {
    forall op ensures DamageTo(damage', op) == DamageOn(shots + [shot], targets, op) {
      DamageOnNext(shots, targets, op, shot);
      hide DamageOn;
      assert DamageTo(damage, op) == DamageOn(shots, targets, op);
    }
  }

  /** One more shooter's draws. */
  lemma ShotDrawn(rolls: Rolls, asked: seq<nat>, n: nat, shots: seq<Shot>, targets: nat, shot: Shot)
    requires 0 < targets && shots == ShotsFrom(rolls, asked, n, targets).0 && AreShots(shots, n, targets)
    requires shot == NextShot(rolls, ShotsFrom(rolls, asked, n, targets).1, targets).0
    ensures AreShots(shots + [shot], n + 1, targets)
    ensures ShotsFrom(rolls, asked, n + 1, targets)
            == (shots + [shot], NextShot(rolls, ShotsFrom(rolls, asked, n, targets).1, targets).1)
  {
  }

  /** Both sides' wounds, dealt one side after the other, are the hits both drew before either was dealt. */
  lemma BothLanded(es: seq<Element>, damage: map<Operator, int>, struck: map<Operator, int>, us: seq<nat>,
                   them: seq<nat>, onThem: seq<Shot>, onUs: seq<Shot>)
    requires NonNegative(es) && Places(es, us) && Places(es, them) && forall i | i in us :: i !in them
    requires AreOperators(es, us, Fielded(es, us)) && AreOperators(es, them, Fielded(es, them))
    requires AreShots(onThem, |Fielded(es, us)|, |Fielded(es, them)|)
    requires AreShots(onUs, |Fielded(es, them)|, |Fielded(es, us)|)
    requires AreDealt(damage, onThem, Fielded(es, them)) && AreDealt(struck, onUs, Fielded(es, us))
    ensures Landed(es, Wounded(Wounded(es, damage), struck), us, them, onThem, onUs)
  {
    var ours, theirs := Fielded(es, us), Fielded(es, them);
    var gs := Wounded(Wounded(es, damage), struck);
    assert forall op | op in ours :: op !in theirs;
    hide *;
    forall i: nat, k: nat | i < |es| && k < |es[i].health|
      ensures |gs[i].health| == |es[i].health|
      ensures LeftBy(es[i].health[k], gs[i].health[k], onThem, theirs, onUs, ours, Operator(i, k))
    {
      HealthLanded(es, damage, struck, onThem, theirs, onUs, ours, i, k);
    }
    LandedByEach(es, gs, us, them, onThem, onUs);
  }

  lemma LandedByEach(es: seq<Element>, gs: seq<Element>, us: seq<nat>, them: seq<nat>, onThem: seq<Shot>, onUs: seq<Shot>)
    requires Places(es, us) && Places(es, them)
    requires AreShots(onThem, |Fielded(es, us)|, |Fielded(es, them)|)
    requires AreShots(onUs, |Fielded(es, them)|, |Fielded(es, us)|)
    requires |gs| == |es| && forall i | 0 <= i < |es| :: |gs[i].health| == |es[i].health|
    requires forall i: nat, k: nat | i < |es| && k < |es[i].health| ::
               LeftBy(es[i].health[k], gs[i].health[k], onThem, Fielded(es, them), onUs, Fielded(es, us), Operator(i, k))
    ensures Landed(es, gs, us, them, onThem, onUs)
  {
    hide Fielded, LeftBy, AreShots;
  }

  lemma HealthLanded(es: seq<Element>, damage: map<Operator, int>, struck: map<Operator, int>, onThem: seq<Shot>,
                     theirs: seq<Operator>, onUs: seq<Shot>, ours: seq<Operator>, i: nat, k: nat)
    requires NonNegative(es) && i < |es| && k < |es[i].health|
    requires AreDealt(damage, onThem, theirs) && AreDealt(struck, onUs, ours)
    requires forall op | op in ours :: op !in theirs
    ensures |Wounded(Wounded(es, damage), struck)[i].health| == |es[i].health|
    ensures LeftBy(es[i].health[k], Wounded(Wounded(es, damage), struck)[i].health[k], onThem, theirs, onUs, ours,
                   Operator(i, k))
  {
    var op := Operator(i, k);
    WoundedTwice(es, damage, struck, i, k);
    assert 0 <= es[i].health[k];
    assert DamageTo(damage, op) == DamageOn(onThem, theirs, op) && DamageTo(struck, op) == DamageOn(onUs, ours, op);
    hide DamageOn, Wounded, DamageTo, Less0;
    DamageByOne(onThem, theirs, onUs, ours, op);
    TwoBlows(es[i].health[k], DamageTo(damage, op), DamageTo(struck, op));
  }

  lemma WoundedTwice(es: seq<Element>, damage: map<Operator, int>, struck: map<Operator, int>, i: nat, k: nat)
    requires NonNegative(es) && i < |es| && k < |es[i].health|
    ensures |Wounded(Wounded(es, damage), struck)[i].health| == |es[i].health|
    ensures Wounded(Wounded(es, damage), struck)[i].health[k]
            == Less0(Less0(es[i].health[k], DamageTo(damage, Operator(i, k))), DamageTo(struck, Operator(i, k)))
  {
  }

  lemma DamageByOne(onThem: seq<Shot>, theirs: seq<Operator>, onUs: seq<Shot>, ours: seq<Operator>, op: Operator)
    requires op in ours ==> op !in theirs
    ensures DamageOn(onThem, theirs, op) == 0 || DamageOn(onUs, ours, op) == 0
  {
    if op !in theirs {
      DamageAsideIsNone(onThem, theirs, op);
    } else {
      DamageAsideIsNone(onUs, ours, op);
    }
  }

  lemma TwoBlows(h: int, d: int, e: int)
    requires 0 <= h && (d == 0 || e == 0)
    ensures Less0(Less0(h, d), e) == Less0(h, d + e)
  {
  }

  lemma DistinctPrepended(i: nat, places: seq<nat>)
    requires Distinct(places) && i !in places
    ensures Distinct([i] + places)
  {
    var r := [i] + places;
    forall k, l | 0 <= k < l < |r| ensures r[k] != r[l] {
      assert r[l] == places[l - 1] && places[l - 1] in places;
    }
  }

  // ----- Pursuit -----

  function ItsText(id: string): string { id }

  /** The elements as the round found them, by ID. */
  ghost predicate AreStayed(start: seq<Element>, es: seq<Element>, stayed: map<string, Element>) {
    && |start| == |es|
    && forall i | 0 <= i < |es| :: es[i].id == start[i].id && es[i].id in stayed && stayed[es[i].id] == start[i]
  }

  ghost predicate ArePursuing(orders: seq<Order>, pursues: map<string, bool>) {
    forall id :: PursuesBy(orders, id) <==> id in pursues && pursues[id]
  }

  lemma PursuingNext(orders: seq<Order>, pursues: map<string, bool>, last: Order)
    requires ArePursuing(orders, pursues)
    ensures ArePursuing(orders + [last], pursues[last.element := last.pursue])
  {
    forall id ensures PursuesBy(orders + [last], id)
                      <==> id in pursues[last.element := last.pursue] && pursues[last.element := last.pursue][id] {
      OrderForLast(orders, last, id);
      assert PursuesBy(orders, id) <==> id in pursues && pursues[id];
    }
  }

  ghost predicate Ascending(places: seq<nat>, n: nat) {
    && (forall k | 0 <= k < |places| :: places[k] < n)
    && (forall k, l | 0 <= k < l < |places| :: places[k] < places[l])
  }

  lemma SortedInIdOrder(es: seq<Element>, places: seq<nat>)
    requires UniqueElements(es) && Ascending(places, |es|)
    ensures var r := SortBy(places, IdAt(es)); InIdOrder(es, r) && Distinct(r) && forall i :: i in r <==> i in places
  {
    SortByStrict(places, IdAt(es));
    SortByMembers(places, IdAt(es));
    var r := SortBy(places, IdAt(es));
    forall k | 0 <= k < |r| ensures r[k] < |es| {
      assert r[k] in r;
    }
    forall k, l | 0 <= k < l < |r|
      ensures Keys.Less(es[r[k]].id, es[r[l]].id) && r[k] != r[l]
    {
      assert Keys.Less(IdAt(es)(r[k]), IdAt(es)(r[l]));
      Keys.LessTotal(es[r[k]].id, es[r[l]].id);
    }
  }

  /** What a pursuit reads of the state. */
  ghost predicate ReadyToFire(start: seq<Element>, es: seq<Element>, stayed: map<string, Element>,
                              retreats: map<string, Location>)
  {
    && UniqueElements(es) && NonNegative(es) && AreStayed(start, es, stayed)
    && forall id | id in retreats :: exists k :: 0 <= k < |es| && es[k].id == id
  }

  /** An exchange keeps what the next one needs. */
  lemma HurtKeeps(start: seq<Element>, es: seq<Element>, stayed: map<string, Element>, retreats: map<string, Location>,
                  x: Clash)
    requires ReadyToFire(start, es, stayed, retreats) && ClashFrom(es, x)
    ensures ReadyToFire(start, x.after, stayed, retreats)
  {
    var fs := x.after;
    forall i | 0 <= i < |es| ensures fs[i].id == es[i].id && forall k | 0 <= k < |fs[i].health| :: 0 <= fs[i].health[k] {
      assert SameButHealth(es[i], fs[i]);
    }
    forall id | id in retreats ensures exists k :: 0 <= k < |fs| && fs[k].id == id {
      var k :| 0 <= k < |es| && es[k].id == id;
      assert fs[k].id == id;
    }
  }

  // ----- Fights -----

  ghost predicate AreCells(es: seq<Element>, n: nat, cells: map<Location, seq<nat>>)
    requires n <= |es|
  {
    && (forall i | 0 <= i < n :: es[i].at in cells)
    && (forall l | l in cells :: cells[l] != [] && Ascending(cells[l], n)
                                 && forall i | 0 <= i < n :: i in cells[l] <==> es[i].at == l)
  }

  lemma CellsNext(es: seq<Element>, n: nat, cells: map<Location, seq<nat>>)
    requires n < |es| && AreCells(es, n, cells)
    ensures AreCells(es, n + 1, cells[es[n].at := (if es[n].at in cells then cells[es[n].at] else []) + [n]])
  {
  }

  ghost predicate SidesOf(es: seq<Element>, factions: (string, string), places: seq<nat>, us: seq<nat>, them: seq<nat>) {
    && Ascending(places, |es|)
    && Ascending(us, |es|) && Ascending(them, |es|)
    && (forall i :: i in us <==> i in places && i < |es| && es[i].faction == factions.0)
    && (forall i :: i in them <==> i in places && i < |es| && es[i].faction != factions.0)
  }

  lemma SidesNext(es: seq<Element>, factions: (string, string), places: seq<nat>, n: nat, us: seq<nat>, them: seq<nat>)
    requires n < |places| && Ascending(places, |es|) && SidesOf(es, factions, places[..n], us, them)
    ensures places[n] < |es|
    ensures SidesOf(es, factions, places[..n + 1],
                    if es[places[n]].faction == factions.0 then us + [places[n]] else us,
                    if es[places[n]].faction == factions.0 then them else them + [places[n]])
  {
    PrefixNext(places, n);
    forall k | 0 <= k < |us| ensures us[k] < places[n] {
      assert us[k] in us;
    }
    forall k | 0 <= k < |them| ensures them[k] < places[n] {
      assert them[k] in them;
    }
  }

  lemma KeysTellApart()
    ensures forall a, b | KeyOf(a) == KeyOf(b) :: a == b
  {
    forall a, b | KeyOf(a) == KeyOf(b) ensures a == b {
      KeyInjective(a, b);
    }
  }

  /** The elements stand where they stood, and no more than their health has changed. */
  ghost predicate InPlace(es: seq<Element>, fs: seq<Element>) {
    && |es| == |fs| && UniqueElements(fs) && NonNegative(fs)
    && forall i | 0 <= i < |es| :: fs[i].at == es[i].at && fs[i].faction == es[i].faction
  }

  lemma StillInPlace(es: seq<Element>, fs: seq<Element>, x: Clash)
    requires InPlace(es, fs) && ClashFrom(fs, x)
    ensures InPlace(es, x.after)
  {
    forall i | 0 <= i < |fs| ensures && x.after[i].id == fs[i].id && x.after[i].at == fs[i].at
                                     && x.after[i].faction == fs[i].faction
                                     && forall k | 0 <= k < |x.after[i].health| :: 0 <= x.after[i].health[k] {
      assert SameButHealth(fs[i], x.after[i]);
    }
  }

  lemma CellPlaces(es: seq<Element>, fs: seq<Element>, held: map<Location, seq<nat>>, l: Location)
    requires InPlace(es, fs) && AreCells(es, |es|, held) && l in held
    ensures held[l] != [] && Ascending(held[l], |fs|) && UniqueElements(fs) && NonNegative(fs)
    ensures forall i | 0 <= i < |fs| :: i in held[l] <==> fs[i].at == l
  {
  }

  ghost predicate AreSides(factions: (string, string), fs: seq<Element>, places: seq<nat>, us: seq<nat>, them: seq<nat>) {
    && Ascending(us, |fs|) && Ascending(them, |fs|)
    && (forall i :: i in us <==> i in places && i < |fs| && fs[i].faction == factions.0)
    && (forall i :: i in them <==> i in places && i < |fs| && fs[i].faction != factions.0)
  }

  lemma SidesStand(factions: (string, string), es: seq<Element>, fs: seq<Element>, held: map<Location, seq<nat>>,
                   l: Location, us: seq<nat>, them: seq<nat>)
    requires InPlace(es, fs) && AreCells(es, |es|, held) && l in held && AreSides(factions, fs, held[l], us, them)
    ensures BothStand(factions, es, l) <==> |us| != 0 && |them| != 0
  {
    if |us| != 0 && |them| != 0 {
      assert us[0] in us && them[0] in them;
    }
    if BothStand(factions, es, l) {
      var i :| 0 <= i < |es| && es[i].at == l && es[i].faction == factions.0;
      var j :| 0 <= j < |es| && es[j].at == l && es[j].faction != factions.0;
      assert i in us && j in them;
    }
  }

  /** Of the keys looked at, the cells are those where both sides stand, in order. */
  ghost predicate FightingCells(factions: (string, string), es: seq<Element>, keys: seq<Location>, cells: seq<Location>) {
    && StrictlySortedBy(keys, KeyOf) && StrictlySortedBy(cells, KeyOf)
    && forall l :: l in cells <==> l in keys && BothStand(factions, es, l)
  }

  lemma FightingNext(factions: (string, string), es: seq<Element>, keys: seq<Location>, n: nat, cells: seq<Location>)
    requires n < |keys| && StrictlySortedBy(keys, KeyOf) && FightingCells(factions, es, keys[..n], cells)
    ensures FightingCells(factions, es, keys[..n + 1],
                          if BothStand(factions, es, keys[n]) then cells + [keys[n]] else cells)
  {
    hide BothStand;
    PrefixNext(keys, n);
    forall k | 0 <= k < |cells| ensures Keys.Less(KeyOf(cells[k]), KeyOf(keys[n])) {
      assert cells[k] in cells;
      var m :| 0 <= m < n && keys[..n][m] == cells[k];
    }
  }

  lemma AllFought(factions: (string, string), es: seq<Element>, held: map<Location, seq<nat>>, keys: seq<Location>,
                  cells: seq<Location>)
    requires AreCells(es, |es|, held) && (forall l :: l in keys <==> l in held)
    requires FightingCells(factions, es, keys, cells)
    ensures StrictlySortedBy(cells, KeyOf) && forall l :: l in cells <==> BothStand(factions, es, l)
  {
  }

  // ----- Burial -----

  ghost predicate LivesOn(es: seq<Element>, n: nat, f: Element)
    requires n <= |es|
  {
    exists i :: 0 <= i < n && Positive(es[i].health) != [] && f == Buried(es[i])
  }

  ghost predicate IsLost(es: seq<Element>, n: nat, l: Loss)
    requires n <= |es|
  {
    exists i :: 0 <= i < n && Positive(es[i].health) == [] && l == Loss(es[i].id, es[i].faction)
  }

  ghost predicate LiveAmong(es: seq<Element>, n: nat, live: seq<Element>)
    requires n <= |es|
  {
    DistinctKeys(live, IdOf) && forall f :: f in live <==> LivesOn(es, n, f)
  }

  ghost predicate LostAmong(es: seq<Element>, n: nat, losses: seq<Loss>)
    requires n <= |es|
  {
    DistinctKeys(losses, LossId) && forall l :: l in losses <==> IsLost(es, n, l)
  }

  ghost predicate BuriedAmong(es: seq<Element>, n: nat, live: seq<Element>, losses: seq<Loss>)
    requires n <= |es|
  {
    LiveAmong(es, n, live) && LostAmong(es, n, losses)
  }

  lemma BuriedNext(es: seq<Element>, n: nat, live: seq<Element>, losses: seq<Loss>)
    requires n < |es| && UniqueElements(es) && BuriedAmong(es, n, live, losses)
    ensures BuriedAmong(es, n + 1,
                        if Buried(es[n]).health == [] then live else live + [Buried(es[n])],
                        if Buried(es[n]).health == [] then losses + [Loss(es[n].id, es[n].faction)] else losses)
  {
    hide LiveAmong, LostAmong;
    LiveNext(es, n, live);
    LostNext(es, n, losses);
  }

  lemma LiveNext(es: seq<Element>, n: nat, live: seq<Element>)
    requires n < |es| && UniqueElements(es) && LiveAmong(es, n, live)
    ensures LiveAmong(es, n + 1, if Positive(es[n].health) == [] then live else live + [Buried(es[n])])
  {
    forall k | 0 <= k < |live| ensures IdOf(live[k]) != es[n].id {
      assert live[k] in live;
    }
    forall f
      ensures LivesOn(es, n + 1, f) <==> LivesOn(es, n, f) || (Positive(es[n].health) != [] && f == Buried(es[n]))
    {
      hide Positive, Buried;
      if i :| 0 <= i < n && Positive(es[i].health) != [] && f == Buried(es[i]) {
        assert i < n + 1;
      }
      if Positive(es[n].health) != [] && f == Buried(es[n]) {
        assert n < n + 1;
      }
    }
  }

  lemma LostNext(es: seq<Element>, n: nat, losses: seq<Loss>)
    requires n < |es| && UniqueElements(es) && LostAmong(es, n, losses)
    ensures LostAmong(es, n + 1, if Positive(es[n].health) == [] then losses + [Loss(es[n].id, es[n].faction)] else losses)
  {
    forall k | 0 <= k < |losses| ensures LossId(losses[k]) != es[n].id {
      assert losses[k] in losses;
    }
    forall l
      ensures IsLost(es, n + 1, l) <==>
              IsLost(es, n, l) || (Positive(es[n].health) == [] && l == Loss(es[n].id, es[n].faction))
    {
      hide Positive;
      if i :| 0 <= i < n && Positive(es[i].health) == [] && l == Loss(es[i].id, es[i].faction) {
        assert i < n + 1;
      }
      if Positive(es[n].health) == [] && l == Loss(es[n].id, es[n].faction) {
        assert n < n + 1;
      }
    }
  }

  lemma BuriedSorted(es: seq<Element>, live: seq<Element>, losses: seq<Loss>)
    requires BuriedAmong(es, |es|, live, losses)
    ensures AreLive(es, SortBy(live, IdOf)) && AreLosses(es, SortBy(losses, LossId))
  {
    SortByStrict(live, IdOf);
    SortByMembers(live, IdOf);
    SortByStrict(losses, LossId);
    SortByMembers(losses, LossId);
  }

  // ----- Captures -----

  lemma NobodyAlone(es: seq<Element>, on: map<Location, set<string>>, o: Location)
    requires AreFactionsAt(es, |es|, on) && (o !in on || |on[o]| != 1)
    ensures Lone(es, o) == None
  {
    forall f ensures !Alone(es, o, f) {
      if Alone(es, o, f) {
        AloneIsOne(es, on, o, f);
      }
    }
  }

  lemma AloneIsOne(es: seq<Element>, on: map<Location, set<string>>, o: Location, f: string)
    requires AreFactionsAt(es, |es|, on) && Alone(es, o, f)
    ensures o in on && on[o] == {f}
  {
    var e :| e in es && e.at == o;
    var k :| 0 <= k < |es| && es[k] == e;
    assert StandsAmong(es, |es|, o, f) && Holds(on, o, f);
    forall g | g in on[o] ensures g == f {
      assert Holds(on, o, g);
      var j :| 0 <= j < |es| && es[j].at == o && es[j].faction == g;
      assert es[j] in es;
    }
  }

  lemma SomebodyAlone(es: seq<Element>, on: map<Location, set<string>>, o: Location, f: string)
    requires AreFactionsAt(es, |es|, on) && o in on && |on[o]| == 1 && f in on[o]
    ensures Lone(es, o) == Some(f)
  {
    assert Holds(on, o, f);
    var k :| 0 <= k < |es| && es[k].at == o && es[k].faction == f;
    assert es[k] in es;
    assert |on[o] - {f}| == 0;
    forall e | e in es && e.at == o ensures e.faction == f {
      var j :| 0 <= j < |es| && es[j] == e;
      assert StandsAmong(es, |es|, o, e.faction) && Holds(on, o, e.faction);
      assert e.faction !in on[o] - {f};
    }
    assert Alone(es, o, f);
  }

  /** The objectives counted so far have their new holders and counts; every other cell stands. */
  ghost predicate CountedAmong(es: seq<Element>, holders: map<Location, string>, progress: map<Location, Progress>,
                               counted: seq<Location>, holders': map<Location, string>, progress': map<Location, Progress>)
  {
    && (forall l | l in counted :: CapturedAt(es, holders, progress, holders', progress', l))
    && (forall l | l !in counted :: Unmoved(holders, holders', l) && Unmoved(progress, progress', l))
  }

  lemma CountedNextObjective(es: seq<Element>, holders: map<Location, string>, progress: map<Location, Progress>,
                             objectives: seq<Location>, n: nat,
                             holders0: map<Location, string>, progress0: map<Location, Progress>,
                             holders1: map<Location, string>, progress1: map<Location, Progress>)
    requires n < |objectives| && Distinct(objectives)
    requires CountedAmong(es, holders, progress, objectives[..n], holders0, progress0)
    requires CapturedAt(es, holders0, progress0, holders1, progress1, objectives[n])
    requires forall l | l != objectives[n] :: Unmoved(holders0, holders1, l) && Unmoved(progress0, progress1, l)
    ensures CountedAmong(es, holders, progress, objectives[..n + 1], holders1, progress1)
    ensures CaptureReports(es, holders0, progress0, objectives[n]) == CaptureReports(es, holders, progress, objectives[n])
  {
    var o := objectives[n];
    PrefixNext(objectives, n);
    assert o !in objectives[..n];
    CapturedFromUnmoved(es, holders, progress, holders0, progress0, holders1, progress1, o);
    hide CapturedAt, CaptureReports, Unmoved;
    forall l | l in objectives[..n] ensures CapturedAt(es, holders, progress, holders1, progress1, l) {
      assert l != o;
      CapturedThenUnmoved(es, holders, progress, holders0, progress0, holders1, progress1, l);
    }
    forall l | l !in objectives[..n + 1] ensures Unmoved(holders, holders1, l) && Unmoved(progress, progress1, l) {
      assert l !in objectives[..n] && l != o;
      UnmovedTwice(holders, holders0, holders1, l);
      UnmovedTwice(progress, progress0, progress1, l);
    }
  }

  lemma UnmovedTwice<V(!new)>(a: map<Location, V>, b: map<Location, V>, c: map<Location, V>, l: Location)
    requires Unmoved(a, b, l) && Unmoved(b, c, l)
    ensures Unmoved(a, c, l)
  {
  }

  lemma CapturedThenUnmoved(es: seq<Element>, holders: map<Location, string>, progress: map<Location, Progress>,
                            holders0: map<Location, string>, progress0: map<Location, Progress>,
                            holders1: map<Location, string>, progress1: map<Location, Progress>, l: Location)
    requires CapturedAt(es, holders, progress, holders0, progress0, l)
    requires Unmoved(holders0, holders1, l) && Unmoved(progress0, progress1, l)
    ensures CapturedAt(es, holders, progress, holders1, progress1, l)
  {
  }

  lemma CapturedFromUnmoved(es: seq<Element>, holders: map<Location, string>, progress: map<Location, Progress>,
                            holders0: map<Location, string>, progress0: map<Location, Progress>,
                            holders1: map<Location, string>, progress1: map<Location, Progress>, l: Location)
    requires Unmoved(holders, holders0, l) && Unmoved(progress, progress0, l)
    requires CapturedAt(es, holders0, progress0, holders1, progress1, l)
    ensures CapturedAt(es, holders, progress, holders1, progress1, l)
    ensures CaptureReports(es, holders0, progress0, l) == CaptureReports(es, holders, progress, l)
  {
  }

  lemma CapturesNext(es: seq<Element>, holders: map<Location, string>, progress: map<Location, Progress>,
                     before: seq<Location>, o: Location)
    ensures CapturesOf(es, holders, progress, before + [o])
            == (CapturesOf(es, holders, progress, before).0 + CaptureReports(es, holders, progress, o).0,
                CapturesOf(es, holders, progress, before).1 + CaptureReports(es, holders, progress, o).1)
  {
    assert (before + [o])[..|before|] == before;
  }
}
