/** Where a plan can be refused after all: the exercise counts the ends of moves by a text of faction and cell, and the
    texts of two factions can meet. */
module Crossing {
  import opened World
  import opened State
  import opened Moves
  import opened Maneuver
  import Keys
  import Planning
  import Route
  import Search
  import Sorting
  import Terrain

  type Standings = map<string, Route.Standing>

  // ----- The state -----

  const HOME := Point(0, 0)
  const NEXT := Point(1, 0)

  /** What the longer name has after the shorter and its mark. */
  function Rest(f: string, g: string): string
    requires f + "@" <= g
  {
    g[|f| + 1..]
  }

  function Field(id: string): Sector {
    Sector(id, 2, 1, [], [HOME], [])
  }

  function Squads(id: string, faction: string, at: Location): Element {
    Element(id, faction, Squad, 100, [100], Ready, at)
  }

  /** `f` has a squad with room beside it; `g` a squad whose end there reads as one of `f`'s. */
  function Start(factions: (string, string), f: string, g: string): State
    requires f + "@" <= g
  {
    var here, there := Rest(f, g) + "@s", "s";
    State(Map([Field(here), Field(there)]), factions,
          [Squads("a", f, Location(here, HOME)), Squads("b", g, Location(there, NEXT))], map[], map[])
  }

  /** Who is sent where: `f`'s squad beside its cell. */
  function Sent(f: string, g: string): Standings
    requires f + "@" <= g
  {
    map["a" := Route.Standing(Location(Rest(f, g) + "@s", NEXT), Secure)]
  }

  ghost predicate Meets(factions: (string, string), f: string, g: string) {
    f != "" && f + "@" <= g && (factions == (f, g) || factions == (g, f))
  }

  lemma StartIsValid(factions: (string, string), f: string, g: string)
    requires Meets(factions, f, g)
    ensures ValidState(Start(factions, f, g)) && Settled(Start(factions, f, g).elements)
  {
    var s := Start(factions, f, g);
    assert |Rest(f, g) + "@s"| > |"s"|;
    FieldsAreValid(s.world);
    hide ValidMap, Standable;
    SquadsAreValid(s.world, factions, s.elements[0].id, s.elements[0].faction, s.elements[0].at);
    SquadsAreValid(s.world, factions, s.elements[1].id, s.elements[1].faction, s.elements[1].at);
    hide ValidElement;
    TwoAreSettled(s.elements);
  }

  lemma SquadsAreValid(m: Map, factions: (string, string), id: string, f: string, at: Location)
    requires id != "" && IsFaction(factions, f) && Standable(m, at)
    ensures ValidElement(m, factions, Squads(id, f, at))
  {
    assert Sum([100]) == 100;
  }

  lemma {:induction false} TwoAreSettled(es: seq<Element>)
    requires |es| == 2 && es[0].at != es[1].at && es[0].status.Ready? && es[1].status.Ready?
    ensures Settled(es)
  {
    assert !Contested(es, es[0].at) && !Contested(es, es[1].at);
  }

  lemma FieldsAreValid(m: Map)
    requires |m.sectors| == 2 && m.sectors[0].id != m.sectors[1].id
    requires forall s | s in m.sectors :: s.id != "" && s == Field(s.id)
    ensures ValidMap(m)
    ensures forall s | s in m.sectors :: Standable(m, Location(s.id, HOME)) && Standable(m, Location(s.id, NEXT))
  {
    forall s | s in m.sectors ensures FindSector(m.sectors, s.id) == Some(s) {
      FindSectorUnique(m.sectors, s);
    }
    assert m.sectors[0].objectives != [];
  }

  /** The two ends read alike. */
  lemma EndsMeet(f: string, g: string, p: Point)
    requires f + "@" <= g
    ensures EndKey(f, Location(Rest(f, g) + "@s", p)) == EndKey(g, Location("s", p))
  {
    var rest := Rest(f, g);
    var tail := ":" + (Keys.Itoa(p.x) + "," + Keys.Itoa(p.y));
    assert Location(rest + "@s", p).Key() == rest + ("@s" + tail) && Location("s", p).Key() == "s" + tail;
    assert g == f + ("@" + rest);
  }

  // ----- What is planned -----

  lemma OneStep(steps: Search.Graph, a: Location, b: Location)
    requires a != b && b in steps(a)
    ensures Route.BestPath(steps, a, b) == Some([b])
  {
    var w := [a, b];
    assert Search.WalkBetween(steps, a, b, w);
    forall v | Search.WalkBetween(steps, a, b, v) ensures |w| < |v| || v == w {
      if |v| <= 2 {
        assert |v| == 2;
        assert v == [v[0], v[1]];
      }
    }
    assert Search.Preferred(steps, a, b, w);
    Route.BestPathIs(steps, a, b, w);
  }

  lemma PlansStep(factions: (string, string), f: string, g: string)
    requires Meets(factions, f, g)
    ensures var s := Start(factions, f, g);
            Planning.FirstPath(Terrain.Of(s.world.sectors), Reported(s.elements[0]), Sent(f, g))
            == [Location(s.elements[0].at.sector, NEXT)]
  {
    var s := Start(factions, f, g);
    StartIsValid(factions, f, g);
    var at, to := s.elements[0].at, Location(s.elements[0].at.sector, NEXT);
    assert CanStep(s.world, at, to) by {
      assert FindSector(s.world.sectors, at.sector) == Some(s.world.sectors[0]);
    }
    StepsAreAllowed(s.world, at, to);
    OneStep(Route.StepsOn(Terrain.Of(s.world.sectors)), at, to);
  }

  /** With one element of its own a plan shortens nothing. */
  lemma AloneKeepsPath(es: seq<Route.Element>, fights: set<Location>, paths: Planning.Paths)
    requires |es| == |paths| == 1
    ensures Planning.Apart(es, fights, paths) == paths
  {
    assert Planning.Shorten(es, fights, paths) == paths;
  }

  lemma {:induction false} OneKey(es: seq<Route.Element>, e: Route.Element)
    requires Sorting.DistinctKeys(es, Route.IdOf) && es != [] && forall r | r in es :: r == e
    ensures es == [e]
  {
    hide Sorting.DistinctKeys;
    forall i | 0 <= i < |es| ensures es[i] == e {
      assert es[i] in es;
    }
    if |es| > 1 {
      TwiceIsNotDistinct(es);
    }
  }

  lemma {:induction false} TwiceIsNotDistinct(es: seq<Route.Element>)
    requires |es| > 1 && es[0] == es[1]
    ensures !Sorting.DistinctKeys(es, Route.IdOf)
  {
    assert Route.IdOf(es[0]) == Route.IdOf(es[1]);
  }

  lemma PlannedAlone(s: State, f: string, standing: Standings, e: Element) returns (k: nat)
    requires ValidState(s) && e in s.elements && e.faction == f
    requires forall d | d in s.elements && d.faction == f :: d == e
    ensures var p := PlanData(s, f, standing);
            && k < |p.es| && p.es[k] == Reported(e)
            && p.paths[k] == Planning.FirstPath(Terrain.Of(s.world.sectors), Reported(e), standing)
  {
    k := PlaceInPlan(s, f, standing, e);
    PlanFacts(s, f, standing);
    var p := PlanData(s, f, standing);
    assert forall r | r in p.es :: r == Reported(e);
    hide PlanData, ValidState;
    OneKey(p.es, Reported(e));
    AloneKeepsPath(p.es, Planning.Fights(p.es), p.first);
  }

  // ----- What is refused -----

  lemma {:induction false} Stays(es: seq<Element>, final: seq<Location>)
    requires |es| == |final| == 2 && final[1] == es[1].at && final[0] != es[0].at && !Contested(es, final[0])
    requires EndKey(es[0].faction, final[0]) == EndKey(es[1].faction, final[1])
    ensures Ends(es, final)[0] == es[0].at
  {
    EndsLeaveNoneRefused(es, final);
    RefusedByOther(es, Ends(es, final), final);
    hide EndKey, Contested, Ends, Refused;
  }

  lemma {:induction false} RefusedByOther(es: seq<Element>, ends: seq<Location>, final: seq<Location>)
    requires |es| == |ends| == |final| == 2
    requires final[1] == es[1].at && final[0] != es[0].at && !Contested(es, final[0])
    requires EndKey(es[0].faction, final[0]) == EndKey(es[1].faction, final[1])
    ensures ends == final ==> Refused(es, ends, 0)
  {
    hide EndKey, Contested;
  }

  /** The squad is ordered to the cell beside it, and kept where it stands. */
  lemma PlanIsRefused(factions: (string, string), f: string, g: string) returns (a: Standings, b: Standings)
    requires Meets(factions, f, g)
    ensures var s := Start(factions, f, g);
            ValidState(s) && Settled(s.elements) && s.factions == factions && !AreObeyed(s, a, b)
  {
    var s := Start(factions, f, g);
    a, b := if f == factions.0 then Sent(f, g) else map[], if f == factions.0 then map[] else Sent(f, g);
    var final := Headings(s.world, s.elements, BothPlans(s, a, b));
    StartIsValid(factions, f, g);
    HeadsApart(factions, f, g, a, b);
    EndsMeet(f, g, NEXT);
    hide ValidState, Settled;
    StaysBehind(s, a, b, final);
  }

  lemma {:induction false} StaysBehind(s: State, a: Standings, b: Standings, final: seq<Location>)
    requires |s.elements| == |final| == 2 && final == Headings(s.world, s.elements, BothPlans(s, a, b))
    requires final[1] == s.elements[1].at && final[0] != s.elements[0].at
    requires final[0] == Obeyed(s.elements[0], BothPlans(s, a, b))
    requires EndKey(s.elements[0].faction, final[0]) == EndKey(s.elements[1].faction, final[1])
    ensures !AreObeyed(s, a, b)
  {
    hide Headings, BothPlans, Obeyed, EndKey, Ends;
    assert !Contested(s.elements, final[0]);
    hide Contested;
    Stays(s.elements, final);
    assert Moved(s.world, s.elements, BothPlans(s, a, b))[0].at == s.elements[0].at;
  }

  lemma HeadsApart(factions: (string, string), f: string, g: string, a: Standings, b: Standings)
    requires Meets(factions, f, g)
    requires a == if f == factions.0 then Sent(f, g) else map[]
    requires b == if f == factions.0 then map[] else Sent(f, g)
    ensures var s := Start(factions, f, g);
            var final := Headings(s.world, s.elements, BothPlans(s, a, b));
            && final[0] == Location(s.elements[0].at.sector, NEXT) == Obeyed(s.elements[0], BothPlans(s, a, b))
            && final[1] == s.elements[1].at
  {
    var s := Start(factions, f, g);
    StartIsValid(factions, f, g);
    PlansStep(factions, f, g);
    var x, y := s.elements[0], s.elements[1];
    assert StandingOf(s, f, a, b) == Sent(f, g) && StandingOf(s, g, a, b) == map[];
    assert x.faction == f && y.faction == g && f != g && s.elements == [x, y];
    assert Planning.FirstPath(Terrain.Of(s.world.sectors), Reported(y), map[]) == [];
    PairHeads(s, x, y, a, b, Location(x.at.sector, NEXT));
  }

  lemma {:induction false} PairHeads(s: State, x: Element, y: Element, a: Standings, b: Standings, to: Location)
    requires ValidState(s) && Settled(s.elements) && s.elements == [x, y] && x.faction != y.faction
    requires Planning.FirstPath(Terrain.Of(s.world.sectors), Reported(x), StandingOf(s, x.faction, a, b)) == [to]
    requires Planning.FirstPath(Terrain.Of(s.world.sectors), Reported(y), StandingOf(s, y.faction, a, b)) == []
    ensures var final := Headings(s.world, s.elements, BothPlans(s, a, b));
            final[0] == to == Obeyed(x, BothPlans(s, a, b)) && final[1] == y.at
  {
    hide Settled, PlanData, BothPlans, Obeyed, Heading, Planning.FirstPath, StandingOf, ValidMap, ValidHoldings, PlanFor, Carries;
    assert ValidElement(s.world, s.factions, x) && ValidElement(s.world, s.factions, y);
    BothCarry(s, a, b, x.faction);
    BothCarry(s, a, b, y.faction);
    hide ValidState;
    var k := PlannedAlone(s, x.faction, StandingOf(s, x.faction, a, b), x);
    var l := PlannedAlone(s, y.faction, StandingOf(s, y.faction, a, b), y);
    HeadsToPlannedEnd(s, x.faction, StandingOf(s, x.faction, a, b), BothPlans(s, a, b), x, k);
    HeadsToPlannedEnd(s, y.faction, StandingOf(s, y.faction, a, b), BothPlans(s, a, b), y, l);
  }

  /** Between two named factions every plan is obeyed, from every valid settled state and under any standing, exactly when
      neither name with "@" after it begins the other. */
  lemma ObeyedExactly(f: string, g: string)
    requires f != "" && g != "" && f != g
    ensures (forall s, a, b | ValidState(s) && Settled(s.elements) && s.factions == (f, g) :: AreObeyed(s, a, b))
            <==> NamesApart(f, g)
  {
    if NamesApart(f, g) {
      forall s, a, b | ValidState(s) && Settled(s.elements) && s.factions == (f, g) ensures AreObeyed(s, a, b) {
        hide ValidState, Settled, AreObeyed, NamesApart;
        PlansAreObeyed(s, a, b);
      }
    } else if f + "@" <= g {
      var a, b := PlanIsRefused((f, g), f, g);
    } else {
      var a, b := PlanIsRefused((f, g), g, f);
    }
  }
}
