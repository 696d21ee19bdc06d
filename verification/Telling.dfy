/** What a round does, told by the state before it and the orders: who is pursued and by whom, where it is fought, what
    becomes of each survivor, what each faction sees, and who has won. */
module Telling {
  import opened World
  import opened State
  import opened Moves
  import opened Fire
  import opened Resolution
  import opened Rounds
  import opened Observing
  import opened Sorting
  import opened Replaying
  import Umpire
  import Keys

  // ----- Pursuit -----

  /** Element `j` keeps the cell the retreat of element `i` left, under a last order that pursues, and is not recovering. */
  ghost predicate Pursues(s: State, moved: seq<Element>, orders: seq<Order>, i: nat, j: nat)
    requires |moved| == |s.elements| && i < |moved| && j < |moved|
  {
    && s.elements[j].faction != s.elements[i].faction
    && s.elements[j].at == s.elements[i].at == moved[j].at
    && !s.elements[j].status.Recovering?
    && exists k :: IsLastFor(orders, s.elements[j].id, k) && orders[k].pursue
  }

  /** Element `i` left a fight. */
  ghost predicate Withdrew(s: State, moved: seq<Element>, i: nat)
    requires |moved| == |s.elements| && i < |moved|
  {
    Contested(s.elements, s.elements[i].at) && moved[i].at != s.elements[i].at
  }

  /** The report is of element `i`'s retreat, and names just its pursuers. */
  ghost predicate Tells(s: State, moved: seq<Element>, orders: seq<Order>, r: RetreatReport, i: nat)
    requires |moved| == |s.elements| && i < |moved|
  {
    && r.id == s.elements[i].id && r.faction == s.elements[i].faction
    && r.from == s.elements[i].at && r.to == moved[i].at
    && forall j: nat | j < |moved| ::
         Pursues(s, moved, orders, i, j) <==> exists n :: 0 <= n < |r.pursuers| && r.pursuers[n].id == s.elements[j].id
  }

  /** The elements stand as they moved, whatever the fire did to them. */
  ghost predicate AsMoved(s: State, moved: seq<Element>, es: seq<Element>) {
    && |s.elements| == |moved| == |es|
    && forall i | 0 <= i < |es| :: && es[i].id == moved[i].id == s.elements[i].id
                                   && es[i].faction == moved[i].faction == s.elements[i].faction
                                   && es[i].at == moved[i].at
  }

  lemma PursuerTold(s: State, moved: seq<Element>, es: seq<Element>, orders: seq<Order>, i: nat, j: nat)
    requires AsMoved(s, moved, es) && i < |es| && j < |es|
    ensures IsPursuer(s.elements, es, orders, s.elements[i].at, i, j) <==> Pursues(s, moved, orders, i, j)
  {
    OrderForIsLast(orders, es[j].id);
    hide OrderFor;
  }

  lemma RetreatTold(s: State, moved: seq<Element>, es: seq<Element>, orders: seq<Order>,
                    x: Clash, r: RetreatReport, i: nat)
    requires AsMoved(s, moved, es) && UniqueElements(s.elements) && i < |es|
    requires IsRetreat(s.elements, es, orders, s.elements[i].id, s.elements[i].at, x, r)
    ensures Tells(s, moved, orders, r, i)
  {
    assert x.them[0] == i;
    hide IsPursuer, Pursues;
    forall j: nat | j < |moved|
      ensures Pursues(s, moved, orders, i, j) <==> exists n :: 0 <= n < |r.pursuers| && r.pursuers[n].id == s.elements[j].id
    {
      PursuerTold(s, moved, es, orders, i, j);
      if j in x.us {
        var n :| 0 <= n < |x.us| && x.us[n] == j;
        assert r.pursuers[n].id == s.elements[j].id;
      }
      if n :| 0 <= n < |r.pursuers| && r.pursuers[n].id == s.elements[j].id {
        assert x.us[n] in x.us && es[x.us[n]].id == es[j].id;
      }
    }
  }

  /** The report, under the ID, is of the retreat of an element that left a fight. */
  ghost predicate IsTold(s: State, orders: seq<Order>, id: string, r: RetreatReport) {
    var moved := AfterMoves(s, orders);
    && |moved| == |s.elements|
    && exists i: nat :: i < |moved| && Withdrew(s, moved, i) && s.elements[i].id == id && Tells(s, moved, orders, r, i)
  }

  lemma {:induction false} RetreatsTold(s: State, orders: seq<Order>, retreats: map<string, Location>, ids: seq<string>,
                                        xs: seq<Clash>, reports: seq<RetreatReport>)
    requires ValidState(s) && AreRetreats(s.world, s.elements, orders, retreats)
    requires Volleyed(s.elements, AfterMoves(s, orders), orders, retreats, ids, xs, reports)
    ensures |ids| == |reports| && forall n | 0 <= n < |ids| :: IsTold(s, orders, ids[n], reports[n])
    decreases |xs|
  {
    hide *;
    var moved := AfterMoves(s, orders);
    VolleyLength(s.elements, moved, orders, retreats, ids, xs, reports);
    if xs != [] {
      var n := |xs| - 1;
      LastOf(ids);
      LastOf(xs);
      LastOf(reports);
      VolleyLast(s.elements, moved, orders, retreats, ids[..n], xs[..n], reports[..n], ids[n], xs[n], reports[n]);
      RetreatsTold(s, orders, retreats, ids[..n], xs[..n], reports[..n]);
      MovesAreMoves(s, orders);
      VolleyStands(s, moved, orders, retreats, ids[..n], xs[..n], reports[..n]);
      var i := WhoWithdrew(s, orders, retreats, ids[n]);
      RetreatTold(s, moved, After(moved, xs[..n]), orders, xs[n], reports[n], i);
      AsTold(s, orders, reports[n], i);
    }
  }

  lemma AsTold(s: State, orders: seq<Order>, r: RetreatReport, i: nat)
    requires i < |s.elements| == |AfterMoves(s, orders)|
    requires Withdrew(s, AfterMoves(s, orders), i) && Tells(s, AfterMoves(s, orders), orders, r, i)
    ensures IsTold(s, orders, s.elements[i].id, r)
  {
    hide AfterMoves, Withdrew, Tells;
  }

  lemma MovesAreMoves(s: State, orders: seq<Order>)
    requires ValidState(s)
    ensures AsMoved(s, AfterMoves(s, orders), AfterMoves(s, orders)) && UniqueElements(s.elements)
  {
    MovedFacts(s, orders);
  }

  lemma VolleyStands(s: State, moved: seq<Element>, orders: seq<Order>, retreats: map<string, Location>, ids: seq<string>,
                     xs: seq<Clash>, reports: seq<RetreatReport>)
    requires AsMoved(s, moved, moved) && Volleyed(s.elements, moved, orders, retreats, ids, xs, reports)
    ensures AsMoved(s, moved, After(moved, xs)) && |After(moved, xs)| == |s.elements|
  {
    hide Volleyed, Clashed, After;
    RetreatTolls(s.elements, moved, orders, retreats, ids, xs, reports);
    ClashesMoveNobody(moved, xs);
  }

  lemma WhoWithdrew(s: State, orders: seq<Order>, retreats: map<string, Location>, id: string) returns (i: nat)
    requires AreRetreats(s.world, s.elements, orders, retreats) && id in retreats && UniqueElements(s.elements)
    ensures i < |s.elements| == |AfterMoves(s, orders)| && s.elements[i].id == id
    ensures retreats[id] == s.elements[i].at && Withdrew(s, AfterMoves(s, orders), i)
  {
    i :| 0 <= i < |s.elements| && s.elements[i].id == id && Retreats(s.world, s.elements, orders, i);
    hide Contested, Finals;
  }

  lemma WithdrawnIsReported(s: State, orders: seq<Order>, retreats: map<string, Location>, i: nat)
    requires AreRetreats(s.world, s.elements, orders, retreats) && i < |s.elements|
    ensures |AfterMoves(s, orders)| == |s.elements| && (Withdrew(s, AfterMoves(s, orders), i) ==> s.elements[i].id in retreats)
  {
    hide Contested, Finals;
    assert Retreats(s.world, s.elements, orders, i) <==> Withdrew(s, AfterMoves(s, orders), i);
  }

  /** The retreats a round reports are those of the elements that left a fight, one each, each pursued by just the enemies
      that kept the cell it left under a last order that pursues and were not recovering. */
  lemma PursuitTold(s: State, orders: seq<Order>, res: Resolution, w: Passage)
    requires ValidState(s) && Fired(s, orders, res, w)
    ensures |AfterMoves(s, orders)| == |s.elements|
    ensures forall n | 0 <= n < |res.retreats| :: IsTold(s, orders, res.retreats[n].id, res.retreats[n])
    ensures forall i: nat | i < |s.elements| && Withdrew(s, AfterMoves(s, orders), i) ::
              exists n :: 0 <= n < |res.retreats| && res.retreats[n].id == s.elements[i].id
    ensures forall m, n | 0 <= m < n < |res.retreats| :: res.retreats[m].id != res.retreats[n].id
  {
    FiredVolley(s, orders, res, w);
    hide *;
    MovesAreMoves(s, orders);
    RetreatsTold(s, orders, w.retreats, w.ids, w.pursuits, res.retreats);
    forall n | 0 <= n < |res.retreats| ensures res.retreats[n].id == w.ids[n] {
      ToldId(s, orders, w.ids[n], res.retreats[n]);
    }
    forall i: nat | i < |s.elements| && Withdrew(s, AfterMoves(s, orders), i)
      ensures exists n :: 0 <= n < |res.retreats| && res.retreats[n].id == s.elements[i].id
    {
      WithdrawnIsReported(s, orders, w.retreats, i);
      var n :| 0 <= n < |w.ids| && w.ids[n] == s.elements[i].id;
      assert res.retreats[n].id == w.ids[n];
    }
    forall m, n | 0 <= m < n < |res.retreats| ensures res.retreats[m].id != res.retreats[n].id {
      IdsDiffer(w.ids, m, n);
    }
    AfterMovesSize(s, orders);
  }

  lemma AfterMovesSize(s: State, orders: seq<Order>)
    ensures |AfterMoves(s, orders)| == |s.elements|
  {
  }

  lemma FiredVolley(s: State, orders: seq<Order>, res: Resolution, w: Passage)
    requires Fired(s, orders, res, w)
    ensures AreRetreats(s.world, s.elements, orders, w.retreats)
    ensures Volleyed(s.elements, AfterMoves(s, orders), orders, w.retreats, w.ids, w.pursuits, res.retreats)
    ensures StrictlySortedBy(w.ids, Umpire.ItsText) && forall id :: id in w.ids <==> id in w.retreats
  {
    hide AreRetreats, Volleyed, AfterMoves, StrictlySortedBy, Fought, AreLive, AreLosses;
  }

  lemma ToldId(s: State, orders: seq<Order>, id: string, r: RetreatReport)
    requires IsTold(s, orders, id, r)
    ensures r.id == id
  {
    hide AfterMoves, Withdrew, Pursues;
  }

  lemma IdsDiffer(ids: seq<string>, m: nat, n: nat)
    requires StrictlySortedBy(ids, Umpire.ItsText) && m < n < |ids|
    ensures ids[m] != ids[n]
  {
    assert Keys.Less(Umpire.ItsText(ids[m]), Umpire.ItsText(ids[n]));
    Keys.LessTotal(ids[m], ids[n]);
  }

  // ----- Fights -----

  /** The report is of the cell's fight, and names just the elements in it. */
  ghost predicate FightTold(es: seq<Element>, g: FightReport) {
    && Contested(es, g.at)
    && forall i: nat | i < |es| :: es[i].at == g.at <==> exists n :: 0 <= n < |g.elements| && g.elements[n].id == es[i].id
  }

  lemma FightIsTold(s: State, moved: seq<Element>, es: seq<Element>, l: Location, x: Clash, g: FightReport)
    requires ValidState(s) && AsMoved(s, moved, es) && BothStand(s.factions, es, l) && IsFight(s.factions, es, l, x, g)
    ensures FightTold(moved, g)
  {
    assert UniqueElements(s.elements);
    hide ValidState, BothStand, Records, InIdOrder;
    BothAreContested(s, moved, es, l);
    hide Contested;
    forall i: nat | i < |moved|
      ensures moved[i].at == g.at <==> exists n :: 0 <= n < |g.elements| && g.elements[n].id == moved[i].id
    {
      RecordListed(es, x.after, x.places, i);
    }
  }

  lemma BothAreContested(s: State, moved: seq<Element>, es: seq<Element>, l: Location)
    requires ValidState(s) && AsMoved(s, moved, es)
    ensures BothStand(s.factions, es, l) <==> Contested(moved, l)
  {
    forall i | 0 <= i < |es| ensures es[i].faction == s.factions.0 || es[i].faction == s.factions.1 {
      assert ValidElement(s.world, s.factions, s.elements[i]);
    }
    hide ValidState;
    if BothStand(s.factions, es, l) {
      var i :| 0 <= i < |es| && es[i].at == l && es[i].faction == s.factions.0;
      var j :| 0 <= j < |es| && es[j].at == l && es[j].faction != s.factions.0;
      assert moved[i].at == l == moved[j].at;
    }
    if Contested(moved, l) {
      var i, j :| 0 <= i < |moved| && 0 <= j < |moved| && moved[i].at == l == moved[j].at && moved[i].faction != moved[j].faction;
      assert es[i].at == l && es[j].at == l;
    }
  }

  lemma RecordListed(es: seq<Element>, fs: seq<Element>, places: seq<nat>, i: nat)
    requires |es| == |fs| && i < |es| && (forall k | 0 <= k < |places| :: places[k] < |es|)
    requires forall a, b | 0 <= a < b < |es| :: es[a].id != es[b].id
    ensures i in places <==> exists n :: 0 <= n < |places| && Records(es, fs, places)[n].id == es[i].id
  {
    if i in places {
      var n :| 0 <= n < |places| && places[n] == i;
      assert Records(es, fs, places)[n].id == es[i].id;
    }
  }

  lemma {:induction false} FightsTold(s: State, moved: seq<Element>, es: seq<Element>, xs: seq<Clash>,
                                      cells: seq<Location>, gs: seq<FightReport>)
    requires ValidState(s) && AsMoved(s, moved, es) && FoughtAmong(s.factions, es, xs, cells, gs)
    requires forall l | l in cells :: BothStand(s.factions, es, l)
    ensures |cells| == |gs| && forall n | 0 <= n < |gs| :: gs[n].at == cells[n] && FightTold(moved, gs[n])
    decreases |xs|
  {
    hide *;
    FightLength(s.factions, es, cells, xs, gs);
    if xs != [] {
      var n := |xs| - 1;
      LastOf(cells);
      LastOf(xs);
      LastOf(gs);
      FightLast(s.factions, es, cells[..n], xs[..n], gs[..n], cells[n], xs[n], gs[n]);
      FightsTold(s, moved, es, xs[..n], cells[..n], gs[..n]);
      FightsStand(s, moved, es, xs[..n], cells[..n], gs[..n]);
      StillBoth(s, moved, es, After(es, xs[..n]), cells[n]);
      FightIsTold(s, moved, After(es, xs[..n]), cells[n], xs[n], gs[n]);
      FightAt(s.factions, After(es, xs[..n]), cells[n], xs[n], gs[n]);
    }
  }

  lemma FightAt(factions: (string, string), es: seq<Element>, l: Location, x: Clash, g: FightReport)
    requires IsFight(factions, es, l, x, g)
    ensures g.at == l
  {
  }

  lemma StillBoth(s: State, moved: seq<Element>, es: seq<Element>, fs: seq<Element>, l: Location)
    requires ValidState(s) && AsMoved(s, moved, es) && AsMoved(s, moved, fs) && BothStand(s.factions, es, l)
    ensures BothStand(s.factions, fs, l)
  {
    hide *;
    BothAreContested(s, moved, es, l);
    BothAreContested(s, moved, fs, l);
  }

  lemma FightsStand(s: State, moved: seq<Element>, es: seq<Element>, xs: seq<Clash>, cells: seq<Location>,
                    gs: seq<FightReport>)
    requires AsMoved(s, moved, es) && FoughtAmong(s.factions, es, xs, cells, gs)
    ensures AsMoved(s, moved, After(es, xs))
  {
    hide FoughtAmong, Clashed, After;
    FightTolls(s.factions, es, xs, cells, gs);
    ClashesMoveNobody(es, xs);
  }

  /** The fights a round reports are those of the cells that hold both factions once everyone has moved, one each, and each
      names just the elements in its cell. */
  lemma FightingTold(s: State, orders: seq<Order>, res: Resolution, w: Passage)
    requires ValidState(s) && Fired(s, orders, res, w)
    ensures forall n | 0 <= n < |res.fights| :: FightTold(AfterMoves(s, orders), res.fights[n])
    ensures forall l | Contested(AfterMoves(s, orders), l) :: exists n :: 0 <= n < |res.fights| && res.fights[n].at == l
    ensures forall m, n | 0 <= m < n < |res.fights| :: res.fights[m].at != res.fights[n].at
  {
    FiredFights(s, orders, res, w);
    FiredVolley(s, orders, res, w);
    hide *;
    var moved, es := AfterMoves(s, orders), AfterPursuit(s, orders, w);
    MovesAreMoves(s, orders);
    VolleyStands(s, moved, orders, w.retreats, w.ids, w.pursuits, res.retreats);
    PursuitIs(s, orders, w);
    FightsTold(s, moved, es, w.fights, w.cells, res.fights);
    forall l | Contested(moved, l) ensures exists n :: 0 <= n < |res.fights| && res.fights[n].at == l {
      BothAreContested(s, moved, es, l);
      var n :| 0 <= n < |w.cells| && w.cells[n] == l;
      assert res.fights[n].at == l;
    }
    forall m, n | 0 <= m < n < |res.fights| ensures res.fights[m].at != res.fights[n].at {
      CellsDiffer(w.cells, m, n);
    }
  }

  lemma PursuitIs(s: State, orders: seq<Order>, w: Passage)
    ensures AfterPursuit(s, orders, w) == After(AfterMoves(s, orders), w.pursuits)
  {
    hide AfterMoves, After;
  }

  lemma CellsDiffer(cells: seq<Location>, m: nat, n: nat)
    requires StrictlySortedBy(cells, KeyOf) && m < n < |cells|
    ensures cells[m] != cells[n]
  {
    assert Keys.Less(KeyOf(cells[m]), KeyOf(cells[n]));
    Keys.LessTotal(KeyOf(cells[m]), KeyOf(cells[n]));
  }

  lemma FiredFights(s: State, orders: seq<Order>, res: Resolution, w: Passage)
    requires Fired(s, orders, res, w)
    ensures FoughtAmong(s.factions, AfterPursuit(s, orders, w), w.fights, w.cells, res.fights)
    ensures StrictlySortedBy(w.cells, KeyOf)
    ensures forall l :: l in w.cells <==> BothStand(s.factions, AfterPursuit(s, orders, w), l)
  {
    hide AreRetreats, Volleyed, AfterPursuit, StrictlySortedBy, FoughtAmong, BothStand, AreLive, AreLosses;
  }

  // ----- Survivors -----

  /** A survivor is recovering exactly if it left a fight this round, and otherwise engaged exactly if an enemy survives in
      its cell, and ready if none does. */
  lemma StatusTold(s: State, orders: seq<Order>, next: State, res: Resolution, w: Passage, g: Element)
    requires ValidState(s) && Resolved(s, orders, next, res, w) && g in next.elements
    ensures var moved := AfterMoves(s, orders);
            |moved| == |s.elements|
            && exists i: nat :: i < |moved| && s.elements[i].id == g.id
                                && (g.status.Recovering? <==> Withdrew(s, moved, i))
                                && (!Withdrew(s, moved, i) ==>
                                      if Contested(next.elements, g.at) then g.status.Engaged? else g.status.Ready?)
  {
    hide *;
    var k :| 0 <= k < |next.elements| && next.elements[k] == g;
    SettledAt(s, orders, next, res, w, k);
    var i := SurvivorPlace(s, orders, next, res, w, k);
    AfterMovesSize(s, orders);
    WithdrewAsRetreat(s, orders, w.retreats, i);
  }

  lemma SurvivorPlace(s: State, orders: seq<Order>, next: State, res: Resolution, w: Passage, k: nat) returns (i: nat)
    requires ValidState(s) && Resolved(s, orders, next, res, w) && k < |next.elements|
    ensures i < |s.elements| && s.elements[i].id == next.elements[k].id
    ensures AreRetreats(s.world, s.elements, orders, w.retreats) && UniqueElements(s.elements)
  {
    FiredFacts(s, orders, res, w);
    MovedFacts(s, orders);
    var es := AfterFights(s, orders, w);
    hide StatusAfter, Volleyed, Fought, AreRetreats, Captured, CapturesOf, Positive, StrictlySortedBy;
    assert w.live[k] in w.live;
    i :| 0 <= i < |es| && Positive(es[i].health) != [] && w.live[k] == Buried(es[i]);
    assert Weakened(AfterMoves(s, orders)[i], es[i]);
  }

  lemma SettledAt(s: State, orders: seq<Order>, next: State, res: Resolution, w: Passage, k: nat)
    requires Resolved(s, orders, next, res, w) && k < |next.elements|
    ensures next.elements[k].status == (if next.elements[k].id in w.retreats then Recovering
                                        else if Contested(next.elements, next.elements[k].at) then Status.Engaged else Ready)
  {
    hide Fired, Captured, CapturesOf, Contested;
    ContestedAlike(w.live, next.elements, next.elements[k].at);
  }

  lemma WithdrewAsRetreat(s: State, orders: seq<Order>, retreats: map<string, Location>, i: nat)
    requires AreRetreats(s.world, s.elements, orders, retreats) && i < |s.elements| && UniqueElements(s.elements)
    ensures |AfterMoves(s, orders)| == |s.elements|
    ensures Withdrew(s, AfterMoves(s, orders), i) <==> s.elements[i].id in retreats
  {
    WithdrawnIsReported(s, orders, retreats, i);
    if s.elements[i].id in retreats {
      var j := WhoWithdrew(s, orders, retreats, s.elements[i].id);
      assert j == i;
    }
  }

  // ----- What is seen -----

  /** One of the faction's elements of the kind is within its sight of the cell: one cell away for a squad, two for a
      scout, along either axis, in one sector. */
  ghost predicate InEyes(es: seq<Element>, f: string, at: Location) {
    exists e :: e in es && e.faction == f && e.at.sector == at.sector && Within(e, at.point)
  }

  predicate Within(e: Element, p: Point) {
    var n := if e.kind.Scout? then 2 else if e.kind.Squad? then 1 else 0;
    -n <= e.at.point.x - p.x <= n && -n <= e.at.point.y - p.y <= n
  }

  /** A faction observes all its elements, the enemies one of them has in sight and the objectives one of them has in sight,
      each with its holder, or "" for none. */
  lemma ObservedTold(s: State, f: string, round: int, o: Observation)
    requires IsObservation(s, f, round, o)
    ensures forall e :: e in o.own <==> e in s.elements && e.faction == f
    ensures forall e :: e in o.contacts <==> e in s.elements && e.faction != f && InEyes(s.elements, f, e.at)
    ensures forall l, h :: ObjectiveStatus(l, h) in o.objectives
              <==> && l in Objectives(s.world.sectors) && InEyes(s.elements, f, l)
                   && if l in s.holders then h == s.holders[l] else h == ""
  {
    assert forall e :: e in o.own <==> e in s.elements && e.faction == f;
    forall at ensures Seen(o.own, at) <==> InEyes(s.elements, f, at) {
      SeenInEyes(s, f, o.own, at);
    }
    hide Seen, InEyes;
  }

  lemma SeenInEyes(s: State, f: string, own: seq<Element>, at: Location)
    requires forall e :: e in own <==> e in s.elements && e.faction == f
    ensures Seen(own, at) <==> InEyes(s.elements, f, at)
  {
    forall e: Element ensures Sees(e, at) <==> e.at.sector == at.sector && Within(e, at.point) {
    }
    hide Sees, Within;
  }

  // ----- Who has won -----

  /** How many objectives the faction holds. */
  ghost function Holding(s: State, f: string): set<Location> {
    set l | l in Objectives(s.world.sectors) && l in s.holders && s.holders[l] == f
  }

  ghost predicate Alive(s: State, f: string) {
    exists e :: e in s.elements && e.faction == f
  }

  ghost predicate HoldsEvery(s: State, f: string) {
    Objectives(s.world.sectors) != [] && forall l | l in Objectives(s.world.sectors) :: l in s.holders && s.holders[l] == f
  }

  /** An exercise is over when a side has no element left, or one holds every objective, or its rounds are spent; then a
      side alone left has won, or else one that holds every objective, or the one that holds more, and a draw has no
      winner. */
  lemma VerdictTold(s: State, round: int, limit: int, v: Verdict)
    requires s.factions.0 != "" && s.factions.1 != "" && s.factions.0 != s.factions.1 && IsVerdict(s, round, limit, v)
    ensures var (a, b) := s.factions;
            && (v.over <==> !Alive(s, a) || !Alive(s, b) || HoldsEvery(s, a) || HoldsEvery(s, b) || limit <= round)
            && (v.over && !Alive(s, a) && !Alive(s, b) ==> v.winner == "")
            && (v.over && Alive(s, a) && !Alive(s, b) ==> v.winner == a)
            && (v.over && !Alive(s, a) && Alive(s, b) ==> v.winner == b)
            && (v.over && Alive(s, a) && Alive(s, b) ==>
                  v.winner == if |Holding(s, b)| < |Holding(s, a)| then a else if |Holding(s, a)| < |Holding(s, b)| then b else "")
            && (!v.over ==> v.winner == "")
  {
    var (a, b) := s.factions;
    HeldIsHolding(s, a);
    HeldIsHolding(s, b);
    if HoldsEvery(s, a) {
      EveryIsMost(s, a, b);
    }
    if HoldsEvery(s, b) {
      EveryIsMost(s, b, a);
    }
  }

  lemma HeldIsHolding(s: State, f: string)
    requires f != ""
    ensures Held(s, f) == Holding(s, f) && (All(s) != {} && Held(s, f) == All(s) <==> HoldsEvery(s, f))
  {
    var all := Objectives(s.world.sectors);
    if all != [] {
      assert all[0] in All(s);
    }
    if HoldsEvery(s, f) {
      assert Held(s, f) == All(s);
    }
    if Held(s, f) == All(s) {
      assert forall l | l in all :: l in All(s) && l in Held(s, f);
    }
  }

  /** Who holds every objective holds more than the other. */
  lemma EveryIsMost(s: State, f: string, g: string)
    requires f != g && HoldsEvery(s, f)
    ensures |Holding(s, g)| == 0 < |Holding(s, f)| && !HoldsEvery(s, g)
  {
    assert Holding(s, g) == {};
    assert Objectives(s.world.sectors)[0] in Holding(s, f);
  }
}
