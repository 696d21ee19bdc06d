/** Which target of a rule command picks: the nearest left, the farthest spread, the stalest. */
module Choosing {
  import opened World
  import opened State
  import opened Observing
  import opened Fusion
  import opened Sorting
  import opened Deciding
  import opened Steady
  import opened Facing
  import opened Tasking
  import Terrain
  import Route
  import Keys

  /** The first is fewer steps away, or as many with a lesser key. */
  ghost predicate Sooner(t: Terrain.Terrain, from: Location, a: Location, b: Location) {
    exists n: nat, m: nat :: Away(t, from, a, n) && Away(t, from, b, m) && (n < m || (n == m && Keys.Less(a.Key(), b.Key())))
  }

  /** The cell is more than two away from each of those in its sector. */
  predicate Clear(at: Location, taken: set<Location>) {
    forall l | l in taken && l.sector == at.sector :: Gap(l.point, at.point) > 2
  }

  /** With some targets taken, the element picks this one: to secure, the soonest reached; to search, the soonest of those
      clear of every one taken, or the soonest of all when none is; to rescout, the objective longest unseen, and of
      those as long the soonest. */
  ghost predicate Picks(t: Terrain.Terrain, faction: string, p: Picture, e: Element, rule: Rule, taken: set<Location>,
                        at: Location)
  {
    && Suits(t, faction, p, e, rule, at) && at !in taken
    && match rule
       case Secure =>
         forall l | Suits(t, faction, p, e, rule, l) && l !in taken && l != at :: Sooner(t, e.at, at, l)
       case Search =>
         if Clear(at, taken) then
           forall l | Suits(t, faction, p, e, rule, l) && l !in taken && l != at && Clear(l, taken) :: Sooner(t, e.at, at, l)
         else
           && (forall l | Suits(t, faction, p, e, rule, l) && l !in taken :: !Clear(l, taken))
           && forall l | Suits(t, faction, p, e, rule, l) && l !in taken && l != at :: Sooner(t, e.at, at, l)
       case Rescout =>
         exists o :: o in p.objectives && o.at == at
                     && forall q | q in p.objectives && Suits(t, faction, p, e, rule, q.at) && q.at !in taken ::
                          q.age < o.age || (q.age == o.age && (q.at == at || Sooner(t, e.at, at, q.at)))
       case _ => true
  }

  // ----- A choice is a pick -----

  lemma NearestSoonest(t: Terrain.Terrain, from: Location, dist: Distances, ok: Location -> bool)
    requires forall at :: at in dist <==> exists n: nat :: Away(t, from, at, n)
    requires forall at | at in dist :: Away(t, from, at, dist[at])
    ensures Nearest(dist, ok).None? ==> forall l, n: nat | Away(t, from, l, n) :: !ok(l)
    ensures Nearest(dist, ok).Some? ==>
              var at := Nearest(dist, ok).value;
              ok(at) && (exists n: nat :: Away(t, from, at, n))
              && forall l, n: nat | Away(t, from, l, n) && ok(l) && l != at :: Sooner(t, from, at, l)
  {
    if Nearest(dist, ok).None? {
      NearestNone(dist, ok);
    } else {
      var at :| IsNearest(dist, ok, at) && Nearest(dist, ok) == Some(at);
      hide Away;
      forall l, n: nat | Away(t, from, l, n) && ok(l) && l != at ensures Sooner(t, from, at, l) {
        assert Away(t, from, at, dist[at]) && Away(t, from, l, dist[l]);
      }
    }
  }

  lemma SecurePicks(t: Terrain.Terrain, faction: string, p: Picture, g: Ground, i: nat, claimed: set<Location>)
    requires IsGround(t, faction, p, g) && i < |g.own| && Chosen(g, Securing, i, claimed).Some?
    ensures Picks(t, faction, p, g.own[i], Secure, claimed, Chosen(g, Securing, i, claimed).value)
  {
    assert |g.own| == |g.dist|;
    GroundTells(t, faction, p, g, i);
    hide *;
    var e, dist := g.own[i], g.dist[i];
    NearestSoonest(t, e.at, dist, Unclaimed(g, Securing, e, claimed));
    ChosenFits(g, Securing, i, claimed);
    ChosenSecure(g, i, claimed);
    forall at ensures Fit(g, Securing, i, at) <==> Suits(t, faction, p, e, Secure, at) {
      SuitsAsFit(t, faction, p, g, i, at);
    }
    var at := Chosen(g, Securing, i, claimed).value;
    forall l | Suits(t, faction, p, e, Secure, l) && l !in claimed && l != at ensures Sooner(t, e.at, at, l) {
      var n := SuitsAway(t, faction, p, e, Secure, l);
      FitWanted(g, Securing, i, l, claimed);
    }
    PickSecure(t, faction, p, e, claimed, at);
  }

  lemma SuitsAway(t: Terrain.Terrain, faction: string, p: Picture, e: Element, rule: Rule, at: Location) returns (n: nat)
    requires Suits(t, faction, p, e, rule, at)
    ensures Away(t, e.at, at, n)
  {
    n :| Away(t, e.at, at, n);
  }

  lemma FitWanted(g: Ground, goal: Goal, i: nat, at: Location, claimed: set<Location>)
    requires i < |g.own| == |g.dist| && Fit(g, goal, i, at)
    ensures at !in claimed ==> Unclaimed(g, goal, g.own[i], claimed)(at)
    ensures at !in claimed && Apart(at, claimed) ==> Spread(g, goal, g.own[i], claimed)(at)
  {
    hide Wants, May;
  }

  lemma ChosenSecure(g: Ground, i: nat, claimed: set<Location>)
    requires i < |g.own| == |g.dist| && Chosen(g, Securing, i, claimed).Some?
    ensures Chosen(g, Securing, i, claimed) == Nearest(g.dist[i], Unclaimed(g, Securing, g.own[i], claimed))
  {
    hide Nearest;
  }

  lemma PickSecure(t: Terrain.Terrain, faction: string, p: Picture, e: Element, taken: set<Location>, at: Location)
    requires Suits(t, faction, p, e, Secure, at) && at !in taken
    requires forall l | Suits(t, faction, p, e, Secure, l) && l !in taken && l != at :: Sooner(t, e.at, at, l)
    ensures Picks(t, faction, p, e, Secure, taken, at)
  {
    hide Suits, Sooner;
  }

  lemma SearchPicks(t: Terrain.Terrain, faction: string, p: Picture, g: Ground, i: nat, claimed: set<Location>)
    requires IsGround(t, faction, p, g) && i < |g.own| && Chosen(g, Searching(g.own[i].kind), i, claimed).Some?
    ensures Picks(t, faction, p, g.own[i], Search, claimed, Chosen(g, Searching(g.own[i].kind), i, claimed).value)
  {
    assert |g.own| == |g.dist|;
    GroundTells(t, faction, p, g, i);
    hide *;
    var e, dist, goal := g.own[i], g.dist[i], Searching(g.own[i].kind);
    NearestSoonest(t, e.at, dist, Unclaimed(g, goal, e, claimed));
    NearestSoonest(t, e.at, dist, Spread(g, goal, e, claimed));
    ChosenFits(g, goal, i, claimed);
    ChosenSearch(g, i, claimed);
    forall at ensures Fit(g, goal, i, at) <==> Suits(t, faction, p, e, Search, at) {
      SuitsAsFit(t, faction, p, g, i, at);
    }
    forall at ensures Apart(at, claimed) <==> Clear(at, claimed) {
      ApartIsClear(at, claimed);
    }
    var at := Chosen(g, goal, i, claimed).value;
    forall l | Suits(t, faction, p, e, Search, l) && l !in claimed
      ensures Clear(l, claimed) ==> Spread(g, goal, e, claimed)(l) && exists n: nat :: Away(t, e.at, l, n)
      ensures Unclaimed(g, goal, e, claimed)(l) && exists n: nat :: Away(t, e.at, l, n)
    {
      var n := SuitsAway(t, faction, p, e, Search, l);
      FitWanted(g, goal, i, l, claimed);
    }
    SpreadIsApart(g, goal, e, claimed, at);
    PickSearch(t, faction, p, e, claimed, at);
  }

  lemma SpreadIsApart(g: Ground, goal: Goal, e: Element, claimed: set<Location>, at: Location)
    ensures Spread(g, goal, e, claimed)(at) ==> Apart(at, claimed)
  {
    hide Wants, Apart;
  }

  lemma ApartIsClear(at: Location, taken: set<Location>)
    ensures Apart(at, taken) <==> Clear(at, taken)
  {
  }

  lemma ChosenSearch(g: Ground, i: nat, claimed: set<Location>)
    requires i < |g.own| == |g.dist| && Chosen(g, Searching(g.own[i].kind), i, claimed).Some?
    ensures var goal := Searching(g.own[i].kind);
            var clear := Nearest(g.dist[i], Spread(g, goal, g.own[i], claimed));
            Chosen(g, goal, i, claimed)
            == if clear.Some? then clear else Nearest(g.dist[i], Unclaimed(g, goal, g.own[i], claimed))
  {
    hide Nearest;
  }

  lemma PickSearch(t: Terrain.Terrain, faction: string, p: Picture, e: Element, taken: set<Location>, at: Location)
    requires Suits(t, faction, p, e, Search, at) && at !in taken
    requires (Clear(at, taken) && forall l | Suits(t, faction, p, e, Search, l) && l !in taken && l != at && Clear(l, taken) :: Sooner(t, e.at, at, l))
             || ((forall l | Suits(t, faction, p, e, Search, l) && l !in taken :: !Clear(l, taken))
                 && forall l | Suits(t, faction, p, e, Search, l) && l !in taken && l != at :: Sooner(t, e.at, at, l))
    ensures Picks(t, faction, p, e, Search, taken, at)
  {
    hide Suits, Sooner, Clear;
  }

  lemma RescoutPicks(t: Terrain.Terrain, faction: string, p: Picture, g: Ground, i: nat, claimed: set<Location>)
    requires IsGround(t, faction, p, g) && i < |g.own| && Chosen(g, Rescouting, i, claimed).Some?
    ensures Picks(t, faction, p, g.own[i], Rescout, claimed, Chosen(g, Rescouting, i, claimed).value)
  {
    assert |g.own| == |g.dist| && g.objectives == p.objectives;
    GroundTells(t, faction, p, g, i);
    hide *;
    var e, dist := g.own[i], g.dist[i];
    ChosenFits(g, Rescouting, i, claimed);
    forall at ensures Fit(g, Rescouting, i, at) <==> Suits(t, faction, p, e, Rescout, at) {
      SuitsAsFit(t, faction, p, g, i, at);
    }
    var o := ChosenRescout(g, i, claimed);
    forall q | q in p.objectives && Suits(t, faction, p, e, Rescout, q.at) && q.at !in claimed
      ensures q.age < o.age || (q.age == o.age && (q.at == o.at || Sooner(t, e.at, o.at, q.at)))
    {
      StalerTold(t, g, i, claimed, o, q);
    }
    PickRescout(t, faction, p, e, claimed, o);
  }

  lemma ChosenRescout(g: Ground, i: nat, claimed: set<Location>) returns (o: Belief)
    requires i < |g.own| == |g.dist| && Chosen(g, Rescouting, i, claimed).Some?
    ensures o in g.objectives && o.at == Chosen(g, Rescouting, i, claimed).value && o.at in g.dist[i]
    ensures forall q | q in g.objectives && Fit(g, Rescouting, i, q.at) && q.at !in claimed :: !Staler(g.dist[i])(q, o)
  {
    var ok, better := Stale(g, g.own[i], g.dist[i], claimed), Staler(g.dist[i]);
    var k: int :| IsFirstBest(g.objectives, ok, better, k) && FirstBest(g.objectives, ok, better) == Some(g.objectives[k]);
    o := g.objectives[k];
    hide Wants;
    forall q | q in g.objectives && Fit(g, Rescouting, i, q.at) && q.at !in claimed ensures !better(q, o) {
      assert ok(q);
    }
  }

  lemma StalerTold(t: Terrain.Terrain, g: Ground, i: nat, claimed: set<Location>, o: Belief, q: Belief)
    requires i < |g.own| == |g.dist| && o.at in g.dist[i] && q.at in g.dist[i] && !Staler(g.dist[i])(q, o)
    requires forall at | at in g.dist[i] :: Away(t, g.own[i].at, at, g.dist[i][at])
    ensures q.age < o.age || (q.age == o.age && (q.at == o.at || Sooner(t, g.own[i].at, o.at, q.at)))
  {
    hide Away;
    KeyOrderTotal(q.at, o.at);
  }

  lemma PickRescout(t: Terrain.Terrain, faction: string, p: Picture, e: Element, taken: set<Location>, o: Belief)
    requires o in p.objectives && Suits(t, faction, p, e, Rescout, o.at) && o.at !in taken
    requires forall q | q in p.objectives && Suits(t, faction, p, e, Rescout, q.at) && q.at !in taken ::
               q.age < o.age || (q.age == o.age && (q.at == o.at || Sooner(t, e.at, o.at, q.at)))
    ensures Picks(t, faction, p, e, Rescout, taken, o.at)
  {
    hide Suits, Sooner;
  }

  // ----- Every choice of a decision -----

  /** The new decision was chosen with no more claimed than is in the end. */
  ghost predicate ChosenAmong(g: Ground, goal: Goal, r: Claims, i: nat)
    requires i < |g.own| == |g.dist| == |r.ds| && r.ds[i].Some? && r.ds[i].value.target.Some?
  {
    exists claimed :: claimed <= r.claimed && Chosen(g, goal, i, claimed) == Some(TargetOf(r, i))
  }

  lemma {:induction false} ChoosingChooses(g: Ground, standing: seq<Decision>, goal: Goal, s: Claims, n: nat, i: nat)
    requires Sized(g, s) && n <= |s.ds| && i < |s.ds| && s.ds[i].None?
    ensures var r := Passed(g, standing, Choosing(goal), s, n);
            r.ds[i].Some? ==> r.ds[i].value.target.Some? && ChosenAmong(g, goal, r, i)
  {
    if n > 0 {
      ChoosingChooses(g, standing, goal, s, n - 1, i);
      PassedNext(g, standing, Choosing(goal), s, n);
      hide Passed, Chosen;
      ChosenInTurn(g, standing, goal, Passed(g, standing, Choosing(goal), s, n - 1), n - 1, i);
    }
  }

  lemma ChosenInTurn(g: Ground, standing: seq<Decision>, goal: Goal, r: Claims, k: nat, i: nat)
    requires Sized(g, r) && k < |r.ds| && i < |r.ds|
    requires r.ds[i].Some? ==> r.ds[i].value.target.Some? && ChosenAmong(g, goal, r, i)
    ensures var q := Turn(g, standing, Choosing(goal), r, k);
            q.ds[i].Some? ==> q.ds[i].value.target.Some? && ChosenAmong(g, goal, q, i)
  {
    hide Chosen;
    var q := Turn(g, standing, Choosing(goal), r, k);
    if r.ds[i].Some? {
      var claimed :| claimed <= r.claimed && Chosen(g, goal, i, claimed) == Some(TargetOf(r, i));
      assert claimed <= q.claimed && TargetOf(q, i) == TargetOf(r, i);
    } else if q.ds[i].Some? {
      assert r.claimed <= q.claimed && Chosen(g, goal, i, r.claimed) == Some(TargetOf(q, i));
    }
  }

  /** Without a standing decision by the goal's rule an element keeps nothing. */
  lemma {:induction false} KeepingSkips(g: Ground, standing: seq<Decision>, goal: Goal, s: Claims, n: nat, i: nat)
    requires Sized(g, s) && n <= |s.ds| && i < |s.ds|
    requires var was := WasOf(standing, g.own[i].id); was.Some? ==> was.value.rule != RuleOf(goal)
    ensures Passed(g, standing, Keeping(goal), s, n).ds[i] == s.ds[i]
  {
    if n > 0 {
      KeepingSkips(g, standing, goal, s, n - 1, i);
      PassedNext(g, standing, Keeping(goal), s, n);
      hide Passed, WasOf, Wants, May;
      if n - 1 == i {
        assert Deciding.Kept(g, standing, goal, i, Passed(g, standing, Keeping(goal), s, n - 1).claimed).None?;
      }
    }
  }

  /** What a goal newly decides of an element without a standing decision by its rule, it chose. */
  lemma PursuedChooses(g: Ground, standing: seq<Decision>, goal: Goal, s: Claims, i: nat)
    requires Sized(g, s) && i < |s.ds| && s.ds[i].None?
    requires var was := WasOf(standing, g.own[i].id); was.Some? ==> was.value.rule != RuleOf(goal)
    ensures var r := Pursued(g, standing, goal, s);
            r.ds[i].Some? ==> r.ds[i].value.target.Some? && ChosenAmong(g, goal, r, i)
  {
    KeepingSkips(g, standing, goal, s, |s.ds|, i);
    var kept := Whole(g, standing, Keeping(goal), s);
    ChoosingChooses(g, standing, goal, kept, |kept.ds|, i);
    hide Passed, ChosenAmong;
  }

  /** The first pass gives an element the objective it stands on. */
  lemma {:induction false} StandingStays(g: Ground, standing: seq<Decision>, s: Claims, n: nat, i: nat)
    requires Sized(g, s) && n <= |s.ds| && i < |s.ds| && s.ds[i].None?
    ensures var r := Passed(g, standing, Pass.Standing, s, n);
            r.ds[i].Some? ==> r.ds[i].value.target == Some(g.own[i].at)
  {
    if n > 0 {
      StandingStays(g, standing, s, n - 1, i);
      PassedNext(g, standing, Pass.Standing, s, n);
      hide Passed, Wants, Searches;
    }
  }

  /** By which stage each rule was decided. */
  lemma DecidedBy(g: Ground, standing: seq<Decision>, i: nat)
    requires HomeReached(g) && i < |g.own|
    ensures var d := Decided(g, standing)[i];
            && (d.rule == Secure ==> Early(g).ds[i].None? && Secured(g, standing).ds[i] == Some(d))
            && (d.rule == Search && g.own[i].kind.Scout? ==> Secured(g, standing).ds[i].None? && Scouted(g, standing).ds[i] == Some(d))
            && (d.rule == Search && g.own[i].kind.Squad? ==> Scouted(g, standing).ds[i].None? && Searched(g, standing).ds[i] == Some(d))
            && (d.rule == Search ==> g.own[i].kind.Scout? || g.own[i].kind.Squad?)
            && (d.rule == Rescout ==> Searched(g, standing).ds[i].None? && Rescouted(g, standing).ds[i] == Some(d))
  {
    EarlyIs(g, i);
    FightingRules(g, g.own[i], g.dist[i]);
    GoalsAdd(g, standing);
    DecidedIs(g, standing, i);
    assert ByFighting(Secure) == ByFighting(Search) == ByFighting(Rescout) == false;
    hide Early, Stood, Secured, Scouted, Searched, Rescouted, Fighting, ByFighting, Decided;
    AddsRule(g, Securing, Early(g), Stood(g, standing), i);
    AddsRule(g, Securing, Stood(g, standing), Secured(g, standing), i);
    AddsRule(g, Searching(Scout), Anew(Secured(g, standing)), Scouted(g, standing), i);
    AddsRule(g, Searching(Squad), Scouted(g, standing), Searched(g, standing), i);
    AddsRule(g, Rescouting, Anew(Searched(g, standing)), Rescouted(g, standing), i);
    AddsKind(g, Scout, Anew(Secured(g, standing)), Scouted(g, standing), i);
    AddsKind(g, Squad, Scouted(g, standing), Searched(g, standing), i);
    hide Adds;
  }

  lemma AddsKind(g: Ground, kind: Kind, s: Claims, r: Claims, i: nat)
    requires Adds(g, Searching(kind), s, r) && i < |s.ds|
    ensures s.ds[i].None? && r.ds[i].Some? ==> g.own[i].kind == kind
  {
    if New(s, r, i) {
      assert Sent(g, Searching(kind), s, r, i);
    }
  }

  // ----- The theorem -----

  /** The targets taken are each someone's by the rule. */
  ghost predicate AreTaken(ds: seq<Decision>, rule: Rule, taken: set<Location>) {
    forall l | l in taken :: SomeoneSent(ds, rule, l)
  }

  lemma ChosenIsPicked(t: Terrain.Terrain, faction: string, p: Picture, g: Ground, standing: seq<Decision>, goal: Goal,
                       r: Claims, i: nat)
    requires IsGround(t, faction, p, g) && i < |g.own| == |r.ds| && r.ds[i] == Some(Decided(g, standing)[i])
    requires goal == Securing || goal == Rescouting || goal == Searching(g.own[i].kind)
    requires r.ds[i].value.target.Some? && ChosenAmong(g, goal, r, i) && ClaimsSent(r, RuleOf(goal))
    requires forall j | 0 <= j < |g.own| && r.ds[j].Some? :: Decided(g, standing)[j] == r.ds[j].value
    ensures var d := Decided(g, standing)[i];
            d.target.Some? && exists taken :: AreTaken(Decided(g, standing), RuleOf(goal), taken)
                                              && Picks(t, faction, p, g.own[i], RuleOf(goal), taken, d.target.value)
  {
    var ds := Decided(g, standing);
    assert |ds| == |g.own|;
    var taken :| taken <= r.claimed && Chosen(g, goal, i, taken) == Some(TargetOf(r, i));
    hide Chosen, Decided, IsGround, Picks;
    forall l | l in taken ensures SomeoneSent(ds, RuleOf(goal), l) {
      var j :| SentTo(r, j, RuleOf(goal), l);
      assert ds[j] == r.ds[j].value;
    }
    if goal == Securing {
      SecurePicks(t, faction, p, g, i, taken);
    } else if goal == Rescouting {
      RescoutPicks(t, faction, p, g, i, taken);
    } else {
      SearchPicks(t, faction, p, g, i, taken);
    }
    assert AreTaken(ds, RuleOf(goal), taken);
  }

  /** An element that had no decision by a rule before and now has one by it, other than to secure where it stands, was
      given its pick of what others sent by that rule had left. */
  lemma TargetsArePicked(t: Terrain.Terrain, faction: string, p: Picture, g: Ground, standing: seq<Decision>, i: nat)
    requires IsGround(t, faction, p, g) && i < |g.own|
    requires var was := WasOf(standing, g.own[i].id); was.Some? ==> was.value.rule != Decided(g, standing)[i].rule
    requires Decided(g, standing)[i].rule in {Secure, Search, Rescout}
    ensures var d, e := Decided(g, standing)[i], g.own[i];
            && d.target.Some?
            && ((d.rule == Secure && d.target.value == e.at)
                || exists taken :: AreTaken(Decided(g, standing), d.rule, taken) && Picks(t, faction, p, e, d.rule, taken, d.target.value))
  {
    assert |g.own| == |g.dist|;
    hide *;
    HomeIsReached(t, faction, p, g);
    StagesLast(g, standing);
    StagesAre(g, standing);
    StagesClaim(g, standing);
    DecidedBy(g, standing, i);
    GoalRules();
    var d, e := Decided(g, standing)[i], g.own[i];
    if d.rule == Secure {
      if Stood(g, standing).ds[i].Some? {
        StoodStays(g, standing, i);
      } else {
        PursuedChooses(g, standing, Securing, Stood(g, standing), i);
        ChosenIsPicked(t, faction, p, g, standing, Securing, Secured(g, standing), i);
      }
    } else if d.rule == Rescout {
      PursuedChooses(g, standing, Rescouting, Anew(Searched(g, standing)), i);
      ChosenIsPicked(t, faction, p, g, standing, Rescouting, Rescouted(g, standing), i);
    } else if e.kind.Scout? {
      PursuedChooses(g, standing, Searching(Scout), Anew(Secured(g, standing)), i);
      ChosenIsPicked(t, faction, p, g, standing, Searching(Scout), Scouted(g, standing), i);
    } else {
      PursuedChooses(g, standing, Searching(Squad), Scouted(g, standing), i);
      ChosenIsPicked(t, faction, p, g, standing, Searching(Squad), Searched(g, standing), i);
    }
  }

  lemma StoodStays(g: Ground, standing: seq<Decision>, i: nat)
    requires HomeReached(g) && i < |g.own| && Early(g).ds[i].None? && Stood(g, standing).ds[i].Some?
    ensures Secured(g, standing).ds[i] == Stood(g, standing).ds[i]
    ensures Stood(g, standing).ds[i].value.target == Some(g.own[i].at)
  {
    StandingStays(g, standing, Early(g), |Early(g).ds|, i);
    GoalsAdd(g, standing);
    hide Secured, Scouted, Searched, Rescouted, Sent, Passed, Early;
  }

  /** Each stage's claims are its own rule's. */
  lemma StagesClaim(g: Ground, standing: seq<Decision>)
    requires HomeReached(g)
    ensures ClaimsSent(Secured(g, standing), Secure) && ClaimsSent(Scouted(g, standing), Search)
    ensures ClaimsSent(Searched(g, standing), Search) && ClaimsSent(Rescouted(g, standing), Rescout)
    ensures |Stood(g, standing).ds| == |g.own| && Anew(Secured(g, standing)).ds == Secured(g, standing).ds
    ensures Anew(Searched(g, standing)).ds == Searched(g, standing).ds
  {
    assert ClaimsSent(Early(g), Secure);
    StagesAre(g, standing);
    GoalsAdd(g, standing);
    hide Early, Stood, Secured, Scouted, Searched, Rescouted, Adds;
    GoalRules();
    AddsClaims(g, Securing, Early(g), Stood(g, standing));
    AddsClaims(g, Securing, Stood(g, standing), Secured(g, standing));
    NothingClaimed(Secured(g, standing), Search);
    AddsClaims(g, Searching(Scout), Anew(Secured(g, standing)), Scouted(g, standing));
    AddsClaims(g, Searching(Squad), Scouted(g, standing), Searched(g, standing));
    NothingClaimed(Searched(g, standing), Rescout);
    AddsClaims(g, Rescouting, Anew(Searched(g, standing)), Rescouted(g, standing));
    hide ClaimsSent;
  }

  // ----- Standing on an objective -----

  lemma {:induction false} StandingExhausts(g: Ground, standing: seq<Decision>, s: Claims, n: nat, i: nat)
    requires HomeReached(g) && Sized(g, s) && n <= |s.ds| && i < n && Fit(g, Securing, i, g.own[i].at)
    ensures var r := Passed(g, standing, Pass.Standing, s, n); r.ds[i].None? ==> g.own[i].at in r.claimed
  {
    PassedNext(g, standing, Pass.Standing, s, n);
    var before := Passed(g, standing, Pass.Standing, s, n - 1);
    TurnGrows(g, standing, Pass.Standing, before, n - 1);
    if i < n - 1 {
      StandingExhausts(g, standing, s, n - 1, i);
      hide *;
    } else {
      hide Passed, Turn, Wants, Searches;
    }
  }

  /** An objective to secure that an element free to secure it stands on is secured by one that stands on it. */
  lemma StandsToSecure(t: Terrain.Terrain, faction: string, p: Picture, g: Ground, standing: seq<Decision>, i: nat)
    requires IsGround(t, faction, p, g) && i < |g.own| && ByGoal(Decided(g, standing)[i].rule)
    requires Suits(t, faction, p, g.own[i], Secure, g.own[i].at)
    ensures exists j: nat :: j < |g.own| && g.own[j].at == g.own[i].at
                             && Decided(g, standing)[j].rule == Secure && Decided(g, standing)[j].target == Some(g.own[i].at)
  {
    assert |g.own| == |g.dist|;
    hide *;
    HomeIsReached(t, faction, p, g);
    SuitsAsFit(t, faction, p, g, i, g.own[i].at);
    StagesLast(g, standing);
    EarlyFree(g, standing, i);
    var j := SecuredOn(g, standing, i);
    StoodStays(g, standing, j);
    StoodSecures(g, standing, j);
  }

  lemma StoodSecures(g: Ground, standing: seq<Decision>, j: nat)
    requires HomeReached(g) && j < |g.own| && Early(g).ds[j].None? && Stood(g, standing).ds[j].Some?
    ensures Stood(g, standing).ds[j].value.rule == Secure
  {
    GoalsAdd(g, standing);
    hide Early, Stood, Secured, Scouted, Searched, Rescouted;
    AddsRule(g, Securing, Early(g), Stood(g, standing), j);
  }

  /** What is decided by a goal was not decided by the fighting. */
  lemma EarlyFree(g: Ground, standing: seq<Decision>, i: nat)
    requires HomeReached(g) && i < |g.own| && ByGoal(Decided(g, standing)[i].rule)
    ensures Early(g).ds[i].None?
  {
    EarlyIs(g, i);
    FightingRules(g, g.own[i], g.dist[i]);
    GoalsAdd(g, standing);
    DecidedIs(g, standing, i);
    hide Early, Stood, Secured, Scouted, Searched, Rescouted, Fighting, Decided, Sent;
  }

  lemma SecuredOn(g: Ground, standing: seq<Decision>, i: nat) returns (j: nat)
    requires HomeReached(g) && i < |g.own| && Early(g).ds[i].None? && Fit(g, Securing, i, g.own[i].at)
    ensures j < |g.own| && g.own[j].at == g.own[i].at && Early(g).ds[j].None? && Stood(g, standing).ds[j].Some?
  {
    var n := |Early(g).ds|;
    StandingExhausts(g, standing, Early(g), n, i);
    assert Early(g).claimed == {};
    GoalsAdd(g, standing);
    hide Secured, Scouted, Searched, Rescouted, Passed, Fit, Early;
    if Stood(g, standing).ds[i].Some? {
      j := i;
    } else {
      j :| 0 <= j < n && New(Early(g), Stood(g, standing), j) && TargetOf(Stood(g, standing), j) == g.own[i].at;
      StandingStays(g, standing, Early(g), n, j);
    }
  }
}
