/** What command's rules send an element to, told by the picture alone, and what they leave nobody to do. */
module Tasking {
  import opened World
  import opened State
  import opened Observing
  import opened Fusion
  import opened Sorting
  import opened Deciding
  import opened Steady
  import opened Facing
  import Terrain
  import Route
  import Keys

  // ----- What is known -----

  /** The steps of the shortest path there. */
  ghost predicate Away(t: Terrain.Terrain, from: Location, to: Location, n: nat) {
    var path := Route.BestPath(Route.StepsOn(t), from, to);
    path.Some? && |path.value| == n
  }

  /** The objective is known, and as last listed not held by the faction. */
  ghost predicate KnownOpen(objectives: seq<Belief>, faction: string, at: Location) {
    exists k :: 0 <= k < |objectives| && objectives[k].at == at && objectives[k].holder != faction
                && forall m | k < m < |objectives| :: objectives[m].at != at
  }

  lemma {:induction false} OpenIsKnown(objectives: seq<Belief>, faction: string, at: Location)
    ensures OpenAt(objectives, faction, at) <==> KnownOpen(objectives, faction, at)
  {
    if objectives != [] {
      var n := |objectives| - 1;
      OpenIsKnown(objectives[..n], faction, at);
      if objectives[n].at == at {
        if OpenAt(objectives, faction, at) {
          assert objectives[n].holder != faction;
        }
      } else {
        KnownBelow(objectives, faction, at);
      }
    }
  }

  lemma KnownBelow(objectives: seq<Belief>, faction: string, at: Location)
    requires objectives != [] && objectives[|objectives| - 1].at != at
    ensures KnownOpen(objectives[..|objectives| - 1], faction, at) <==> KnownOpen(objectives, faction, at)
  {
    var n := |objectives| - 1;
    var before := objectives[..n];
    if KnownOpen(before, faction, at) {
      var k :| 0 <= k < n && before[k].at == at && before[k].holder != faction && forall m | k < m < n :: before[m].at != at;
      forall m | k < m < |objectives| ensures objectives[m].at != at {
        assert m < n ==> before[m] == objectives[m];
      }
      assert objectives[k].at == at;
    }
    if KnownOpen(objectives, faction, at) {
      var k :| 0 <= k < |objectives| && objectives[k].at == at && objectives[k].holder != faction
               && forall m | k < m < |objectives| :: objectives[m].at != at;
      assert before[k] == objectives[k];
    }
  }

  /** No own element has had the cell in sight or stands in it. */
  ghost predicate Unknown(p: Picture, at: Location) {
    at !in p.explored && forall e | e in p.own :: e.at != at
  }

  /** What the ground keeps of the picture. */
  lemma GroundTells(t: Terrain.Terrain, faction: string, p: Picture, g: Ground, i: nat)
    requires IsGround(t, faction, p, g) && i < |g.own|
    ensures forall at :: at in g.dist[i] <==> exists n: nat :: Away(t, g.own[i].at, at, n)
    ensures forall at | at in g.dist[i] :: Away(t, g.own[i].at, at, g.dist[i][at])
    ensures forall at :: at !in g.explored <==> Unknown(p, at)
    ensures forall at :: OpenAt(g.objectives, g.faction, at) <==> KnownOpen(p.objectives, faction, at)
    ensures g.contacts == p.contacts && g.own[i] in p.own
  {
    SortByMembers(p.own, IdOf);
    assert g.own[i] in g.own;
    assert AreDistances(Route.StepsOn(t), g.own[i].at, g.dist[i]);
    forall at ensures at in g.dist[i] <==> exists n: nat :: Away(t, g.own[i].at, at, n) {
      if at in g.dist[i] {
        assert Away(t, g.own[i].at, at, g.dist[i][at]);
      }
    }
    forall at ensures at !in g.explored <==> Unknown(p, at) {
    }
    forall at ensures OpenAt(g.objectives, g.faction, at) <==> KnownOpen(p.objectives, faction, at) {
      OpenIsKnown(p.objectives, faction, at);
    }
  }

  // ----- What each rule asks -----

  /** The element may secure: it is no scout with an unknown cell in its reach. */
  ghost predicate Secures(t: Terrain.Terrain, p: Picture, e: Element) {
    e.kind.Scout? ==> forall at, n: nat | Away(t, e.at, at, n) :: !Unknown(p, at)
  }

  /** The element may be sent there by the rule. */
  ghost predicate Suits(t: Terrain.Terrain, faction: string, p: Picture, e: Element, rule: Rule, at: Location) {
    && (exists n: nat :: Away(t, e.at, at, n))
    && match rule
       case Secure => KnownOpen(p.objectives, faction, at) && Secures(t, p, e)
       case Search => Unknown(p, at)
       case Rescout => KnownOpen(p.objectives, faction, at) && at != e.at
       case _ => false
  }

  lemma SuitsAsFit(t: Terrain.Terrain, faction: string, p: Picture, g: Ground, i: nat, at: Location)
    requires IsGround(t, faction, p, g) && i < |g.own|
    ensures Fit(g, Securing, i, at) <==> Suits(t, faction, p, g.own[i], Secure, at)
    ensures Fit(g, Searching(g.own[i].kind), i, at) <==> Suits(t, faction, p, g.own[i], Search, at)
    ensures Fit(g, Rescouting, i, at) <==> Suits(t, faction, p, g.own[i], Rescout, at)
  {
    GroundTells(t, faction, p, g, i);
    hide *;
    SearchingTold(t, p, g, i);
    FitTold(t, faction, p, g, i, at);
  }

  lemma SearchingTold(t: Terrain.Terrain, p: Picture, g: Ground, i: nat)
    requires i < |g.own| == |g.dist|
    requires forall at :: at in g.dist[i] <==> exists n: nat :: Away(t, g.own[i].at, at, n)
    requires forall at :: at !in g.explored <==> Unknown(p, at)
    ensures Searches(g, i) <==> !Secures(t, p, g.own[i])
  {
    hide Away, Unknown;
  }

  lemma FitTold(t: Terrain.Terrain, faction: string, p: Picture, g: Ground, i: nat, at: Location)
    requires i < |g.own| == |g.dist| && (Searches(g, i) <==> !Secures(t, p, g.own[i]))
    requires at in g.dist[i] <==> exists n: nat :: Away(t, g.own[i].at, at, n)
    requires at !in g.explored <==> Unknown(p, at)
    requires OpenAt(g.objectives, g.faction, at) <==> KnownOpen(p.objectives, faction, at)
    ensures Fit(g, Securing, i, at) <==> Suits(t, faction, p, g.own[i], Secure, at)
    ensures Fit(g, Searching(g.own[i].kind), i, at) <==> Suits(t, faction, p, g.own[i], Search, at)
    ensures Fit(g, Rescouting, i, at) <==> Suits(t, faction, p, g.own[i], Rescout, at)
  {
    hide Away, Unknown, Secures, Searches, OpenAt, KnownOpen;
  }

  // ----- Reinforcing and engaging -----

  /** An own element holds its cell in a fight there. */
  ghost predicate HeldAt(g: Ground, standing: seq<Decision>, at: Location)
    requires |g.own| == |g.dist|
  {
    exists k: nat :: k < |g.own| && g.own[k].at == at && Faces(g, g.own[k]) && Decided(g, standing)[k].rule != Retreat
  }

  lemma HeldAsFights(t: Terrain.Terrain, faction: string, p: Picture, g: Ground, standing: seq<Decision>, at: Location)
    requires IsGround(t, faction, p, g)
    ensures at in Fights(g) <==> HeldAt(g, standing, at)
  {
    assert |g.own| == |g.dist|;
    hide *;
    forall k: nat | k < |g.own|
      ensures FightOf(g, g.own[k]).Some? <==> Faces(g, g.own[k])
      ensures FightOf(g, g.own[k]).Some? ==> Decided(g, standing)[k] == FightOf(g, g.own[k]).value
    {
      FightIs(g, g.own[k]);
      FightingStands(t, faction, p, g, standing, k);
      FightFirst(g, k, Decided(g, standing)[k]);
    }
    HeldByPlace(g, standing, at);
  }

  lemma HeldByPlace(g: Ground, standing: seq<Decision>, at: Location)
    requires |g.own| == |g.dist|
    requires forall k: nat | k < |g.own| :: && (FightOf(g, g.own[k]).Some? <==> Faces(g, g.own[k]))
                                            && (FightOf(g, g.own[k]).Some? ==> Decided(g, standing)[k] == FightOf(g, g.own[k]).value)
    ensures at in Fights(g) <==> HeldAt(g, standing, at)
  {
    hide FightOf, Decided, Faces;
    if at in Fights(g) {
      var e :| e in g.own && e.at == at && FightOf(g, e).Some? && FightOf(g, e).value.rule != Retreat;
      var k: nat :| k < |g.own| && g.own[k] == e;
      assert HeldAt(g, standing, at);
    }
    if HeldAt(g, standing, at) {
      var k: nat :| k < |g.own| && g.own[k].at == at && Faces(g, g.own[k]) && Decided(g, standing)[k].rule != Retreat;
      assert g.own[k] in g.own && FightsAt(g, at);
    }
  }

  /** A fight the element can reinforce: held, and within four steps. */
  ghost predicate InAid(t: Terrain.Terrain, g: Ground, standing: seq<Decision>, e: Element, at: Location, n: nat)
    requires |g.own| == |g.dist|
  {
    HeldAt(g, standing, at) && n <= 4 && Away(t, e.at, at, n)
  }

  predicate MayReinforce(e: Element) { e.kind.Squad? && (e.status.Ready? || e.status.Recovering?) }

  lemma AidTold(t: Terrain.Terrain, faction: string, p: Picture, g: Ground, standing: seq<Decision>, i: nat, at: Location)
    requires IsGround(t, faction, p, g) && i < |g.own|
    ensures at in g.dist[i] && InReach(Fights(g), g.dist[i], REINFORCE_RANGE)(at)
            <==> exists n: nat :: InAid(t, g, standing, g.own[i], at, n)
    ensures at in g.dist[i] ==> Away(t, g.own[i].at, at, g.dist[i][at])
  {
    HeldAsFights(t, faction, p, g, standing, at);
    GroundTells(t, faction, p, g, i);
    hide IsGround, HeldAt, Fights, Unknown, KnownOpen, OpenAt;
    if at in g.dist[i] && InReach(Fights(g), g.dist[i], REINFORCE_RANGE)(at) {
      assert InAid(t, g, standing, g.own[i], at, g.dist[i][at]);
    }
  }

  lemma NearestExactly(dist: Distances, ok: Location -> bool)
    ensures Nearest(dist, ok).Some? <==> exists at :: at in dist && ok(at)
    ensures Nearest(dist, ok).Some? ==> var at := Nearest(dist, ok).value;
                                        at in dist && ok(at) && forall l | l in dist && ok(l) :: dist[at] <= dist[l]
  {
    if Nearest(dist, ok).None? {
      NearestNone(dist, ok);
    }
  }

  /** What a reinforcement is, of those within the element's reach. */
  lemma ReinforcementTold(g: Ground, e: Element, dist: Distances)
    ensures var ok, r := InReach(Fights(g), dist, REINFORCE_RANGE), Reinforcement(g, e, dist);
            && (r.Some? <==> MayReinforce(e) && exists at :: at in dist && ok(at))
            && (r.Some? ==> && r.value.rule == Reinforce && r.value.element == e.id && r.value.target.Some?
                            && r.value.contact == StrongestId(g.contacts, r.value.target.value)
                            && var to := r.value.target.value;
                               to in dist && ok(to) && forall l | l in dist && ok(l) :: dist[to] <= dist[l])
  {
    NearestExactly(dist, InReach(Fights(g), dist, REINFORCE_RANGE));
    hide Nearest, Fights, StrongestId;
  }

  /** Without a fight of its own, an element reinforces exactly if it has a reinforcement to give. */
  lemma ReinforcementSecond(g: Ground, i: nat, d: Decision)
    requires i < |g.own| == |g.dist| && FightOf(g, g.own[i]).None?
    requires var f := Fighting(g, g.own[i], g.dist[i]); if f.Some? then d == f.value else ByGoal(d.rule)
    ensures d.rule == Reinforce <==> Reinforcement(g, g.own[i], g.dist[i]).Some?
    ensures d.rule == Reinforce ==> d == Reinforcement(g, g.own[i], g.dist[i]).value
  {
    hide FightOf, Nearest, FirstBest, Fights, StrongestId;
  }

  lemma HeldIsSeen(g: Ground, standing: seq<Decision>, at: Location)
    requires |g.own| == |g.dist| && HeldAt(g, standing, at)
    ensures exists c :: StrongestSeen(g.contacts, at, c) && StrongestId(g.contacts, at) == c.element.id
  {
    hide Decided, Strongest, StrongestSeen;
    StrongestIsSeen(g.contacts, at);
  }

  /** An element out of any fight reinforces exactly when it may and a fight its side holds is within four steps; it goes
      to the nearest such, against the strongest enemy seen there. */
  lemma ReinforcesNearest(t: Terrain.Terrain, faction: string, p: Picture, g: Ground, standing: seq<Decision>, i: nat)
    requires IsGround(t, faction, p, g) && i < |g.own| && !Faces(g, g.own[i])
    ensures var d, e := Decided(g, standing)[i], g.own[i];
            && (d.rule == Reinforce <==> MayReinforce(e) && exists at, n: nat :: InAid(t, g, standing, e, at, n))
            && (d.rule == Reinforce ==>
                  && d.element == e.id && d.target.Some?
                  && (exists n: nat :: InAid(t, g, standing, e, d.target.value, n)
                                       && forall at, m: nat | InAid(t, g, standing, e, at, m) :: n <= m)
                  && exists c :: StrongestSeen(g.contacts, d.target.value, c) && d.contact == c.element.id)
  {
    assert |g.own| == |g.dist|;
    hide *;
    var d, e := Decided(g, standing)[i], g.own[i];
    var ok := InReach(Fights(g), g.dist[i], REINFORCE_RANGE);
    forall at ensures at in g.dist[i] && ok(at) <==> exists n: nat :: InAid(t, g, standing, e, at, n) {
      AidTold(t, faction, p, g, standing, i, at);
    }
    FightingStands(t, faction, p, g, standing, i);
    FightIs(g, e);
    ReinforcementSecond(g, i, d);
    ReinforcementTold(g, e, g.dist[i]);
    if d.rule == Reinforce {
      var to := d.target.value;
      AidTold(t, faction, p, g, standing, i, to);
      var n: nat :| InAid(t, g, standing, e, to, n);
      forall at, m: nat | InAid(t, g, standing, e, at, m) ensures n <= m {
        AidTold(t, faction, p, g, standing, i, at);
        AidAway(t, g, standing, e, at, m);
        AidAway(t, g, standing, e, to, n);
        AwayOnce(t, e.at, at, m, g.dist[i][at]);
        AwayOnce(t, e.at, to, n, g.dist[i][to]);
      }
      AidAway(t, g, standing, e, to, n);
      HeldIsSeen(g, standing, to);
    }
  }

  lemma AidAway(t: Terrain.Terrain, g: Ground, standing: seq<Decision>, e: Element, at: Location, n: nat)
    requires |g.own| == |g.dist| && InAid(t, g, standing, e, at, n)
    ensures HeldAt(g, standing, at) && n <= 4 && Away(t, e.at, at, n)
  {
  }

  lemma AwayOnce(t: Terrain.Terrain, from: Location, to: Location, n: nat, m: nat)
    requires Away(t, from, to, n) && Away(t, from, to, m)
    ensures n == m
  {
  }

  /** A contact the element can engage: weaker than it, and within three steps. */
  ghost predicate InStrike(t: Terrain.Terrain, contacts: seq<Contact>, e: Element, c: Contact, n: nat) {
    c in contacts && c.element.strength < e.strength && n <= 3 && Away(t, e.at, c.element.at, n)
  }

  lemma EngagementThird(g: Ground, i: nat, d: Decision)
    requires i < |g.own| == |g.dist| && FightOf(g, g.own[i]).None? && Reinforcement(g, g.own[i], g.dist[i]).None?
    requires var f := Fighting(g, g.own[i], g.dist[i]); if f.Some? then d == f.value else ByGoal(d.rule)
    ensures d.rule == Engage <==> Engagement(g, g.own[i], g.dist[i]).Some?
    ensures d.rule == Engage ==> d == Engagement(g, g.own[i], g.dist[i]).value
  {
    hide FightOf, Reinforcement, FirstBest;
  }

  lemma EngagementTold(g: Ground, e: Element, dist: Distances)
    ensures var r := Engagement(g, e, dist);
            && (r.Some? <==> e.kind.Squad? && exists c :: c in g.contacts && Weaker(e, dist)(c))
            && (r.Some? ==> && r.value.element == e.id && r.value.rule == Engage
                            && exists c :: c in g.contacts && Weaker(e, dist)(c) && r.value.contact == c.element.id
                                           && r.value.target == Some(c.element.at)
                                           && forall x | x in g.contacts && Weaker(e, dist)(x) :: !Closer(dist)(x, c))
  {
    CloserRanks(dist);
    if FirstBest(g.contacts, Weaker(e, dist), Closer(dist)).None? {
      FirstBestNone(g.contacts, Weaker(e, dist), Closer(dist));
    } else {
      var k: int :| IsFirstBest(g.contacts, Weaker(e, dist), Closer(dist), k)
                    && FirstBest(g.contacts, Weaker(e, dist), Closer(dist)) == Some(g.contacts[k]);
      assert g.contacts[k] in g.contacts;
    }
  }

  /** An element out of any fight that has none to reinforce engages exactly when it is a squad and a weaker contact is
      within three steps: the nearest, of those as near the least by ID, where it is known to stand. */
  lemma EngagesNearest(t: Terrain.Terrain, faction: string, p: Picture, g: Ground, standing: seq<Decision>, i: nat)
    requires IsGround(t, faction, p, g) && i < |g.own| && !Faces(g, g.own[i]) && Decided(g, standing)[i].rule != Reinforce
    ensures var d, e := Decided(g, standing)[i], g.own[i];
            && (d.rule == Engage <==> e.kind.Squad? && exists c, n: nat :: InStrike(t, g.contacts, e, c, n))
            && (d.rule == Engage ==>
                  d.element == e.id
                  && exists c, n: nat :: InStrike(t, g.contacts, e, c, n) && d.contact == c.element.id
                                         && d.target == Some(c.element.at)
                                         && forall x, m: nat | InStrike(t, g.contacts, e, x, m) ::
                                              n <= m && (n == m ==> !Keys.Less(x.element.id, c.element.id)))
  {
    assert |g.own| == |g.dist|;
    hide *;
    FightingStands(t, faction, p, g, standing, i);
    FightIs(g, g.own[i]);
    ReinforcementSecond(g, i, Decided(g, standing)[i]);
    EngagementThird(g, i, Decided(g, standing)[i]);
    EngagementTold(g, g.own[i], g.dist[i]);
    GroundTells(t, faction, p, g, i);
    EngagesAsTold(t, g, g.own[i], g.dist[i], Decided(g, standing)[i]);
  }

  lemma EngagesAsTold(t: Terrain.Terrain, g: Ground, e: Element, dist: Distances, d: Decision)
    requires forall at :: at in dist <==> exists n: nat :: Away(t, e.at, at, n)
    requires forall at | at in dist :: Away(t, e.at, at, dist[at])
    requires d.rule == Engage <==> e.kind.Squad? && exists c :: c in g.contacts && Weaker(e, dist)(c)
    requires d.rule == Engage ==>
               && d.element == e.id
               && exists c :: c in g.contacts && Weaker(e, dist)(c) && d.contact == c.element.id && d.target == Some(c.element.at)
                              && forall x | x in g.contacts && Weaker(e, dist)(x) :: !Closer(dist)(x, c)
    ensures d.rule == Engage <==> e.kind.Squad? && exists c, n: nat :: InStrike(t, g.contacts, e, c, n)
    ensures d.rule == Engage ==>
              d.element == e.id
              && exists c, n: nat :: InStrike(t, g.contacts, e, c, n) && d.contact == c.element.id
                                     && d.target == Some(c.element.at)
                                     && forall x, m: nat | InStrike(t, g.contacts, e, x, m) ::
                                          n <= m && (n == m ==> !Keys.Less(x.element.id, c.element.id))
  {
    hide *;
    forall c ensures c in g.contacts && Weaker(e, dist)(c) <==> exists n: nat :: InStrike(t, g.contacts, e, c, n) {
      if c in g.contacts {
        StrikeTold(t, g.contacts, e, dist, c);
      } else {
        StrikeListed(t, g.contacts, e, c);
      }
    }
    if c, n: nat :| InStrike(t, g.contacts, e, c, n) {
      assert c in g.contacts && Weaker(e, dist)(c);
    }
    if d.rule == Engage {
      var c :| c in g.contacts && Weaker(e, dist)(c) && d.contact == c.element.id && d.target == Some(c.element.at)
               && forall x | x in g.contacts && Weaker(e, dist)(x) :: !Closer(dist)(x, c);
      var n: nat :| InStrike(t, g.contacts, e, c, n);
      forall x, m: nat | InStrike(t, g.contacts, e, x, m)
        ensures n <= m && (n == m ==> !Keys.Less(x.element.id, c.element.id))
      {
        CloserTold(t, g.contacts, e, dist, c, n, x, m);
      }
    }
  }

  lemma StrikeListed(t: Terrain.Terrain, contacts: seq<Contact>, e: Element, c: Contact)
    requires c !in contacts
    ensures forall n: nat :: !InStrike(t, contacts, e, c, n)
  {
  }

  lemma StrikeTold(t: Terrain.Terrain, contacts: seq<Contact>, e: Element, dist: Distances, c: Contact)
    requires c in contacts
    requires forall at :: at in dist <==> exists n: nat :: Away(t, e.at, at, n)
    requires forall at | at in dist :: Away(t, e.at, at, dist[at])
    ensures Weaker(e, dist)(c) <==> exists n: nat :: InStrike(t, contacts, e, c, n)
  {
    if Weaker(e, dist)(c) {
      assert InStrike(t, contacts, e, c, dist[c.element.at]);
    }
    if n: nat :| InStrike(t, contacts, e, c, n) {
      AwayOnce(t, e.at, c.element.at, n, dist[c.element.at]);
    }
  }

  lemma CloserTold(t: Terrain.Terrain, contacts: seq<Contact>, e: Element, dist: Distances, c: Contact, n: nat,
                   x: Contact, m: nat)
    requires forall at :: at in dist <==> exists n: nat :: Away(t, e.at, at, n)
    requires forall at | at in dist :: Away(t, e.at, at, dist[at])
    requires InStrike(t, contacts, e, c, n) && InStrike(t, contacts, e, x, m)
    requires x in contacts && Weaker(e, dist)(x) ==> !Closer(dist)(x, c)
    ensures n <= m && (n == m ==> !Keys.Less(x.element.id, c.element.id))
  {
    StrikeTold(t, contacts, e, dist, c);
    StrikeTold(t, contacts, e, dist, x);
    AwayOnce(t, e.at, c.element.at, n, dist[c.element.at]);
    AwayOnce(t, e.at, x.element.at, m, dist[x.element.at]);
  }

  // ----- Goals -----

  /** What a goal's rule sends an element to is one of the rule's own targets. */
  lemma GoalsSuit(t: Terrain.Terrain, faction: string, p: Picture, g: Ground, standing: seq<Decision>, i: nat)
    requires IsGround(t, faction, p, g) && i < |g.own|
    ensures var d := Decided(g, standing)[i];
            d.rule in {Secure, Search, Rescout} ==> d.target.Some? && Suits(t, faction, p, g.own[i], d.rule, d.target.value)
  {
    assert |g.own| == |g.dist|;
    hide *;
    var d := Decided(g, standing)[i];
    DecidedInReach(t, faction, p, g, standing, i);
    if d.target.Some? {
      SuitsAsFit(t, faction, p, g, i, d.target.value);
    }
    GoalFits(g, i, d);
  }

  lemma GoalFits(g: Ground, i: nat, d: Decision)
    requires i < |g.own| == |g.dist| && GoalInReach(g, i, d)
    ensures d.rule in {Secure, Search, Rescout} ==> d.target.Some?
    ensures d.rule == Secure ==> Fit(g, Securing, i, d.target.value)
    ensures d.rule == Search ==> Fit(g, Searching(g.own[i].kind), i, d.target.value)
    ensures d.rule == Rescout ==> Fit(g, Rescouting, i, d.target.value)
  {
    hide Fit;
  }

  /** Element `j` is sent to the cell by the rule. */
  predicate SentTo(s: Claims, j: int, rule: Rule, at: Location) {
    0 <= j < |s.ds| && s.ds[j].Some? && s.ds[j].value.rule == rule && s.ds[j].value.target == Some(at)
  }

  ghost predicate ClaimsSent(s: Claims, rule: Rule) {
    forall at | at in s.claimed :: exists j :: SentTo(s, j, rule, at)
  }

  lemma AddsClaims(g: Ground, goal: Goal, s: Claims, r: Claims)
    requires Adds(g, goal, s, r) && ClaimsSent(s, RuleOf(goal))
    ensures ClaimsSent(r, RuleOf(goal)) && s.claimed <= r.claimed
  {
    hide Fit;
    forall at | at in r.claimed ensures exists j :: SentTo(r, j, RuleOf(goal), at) {
      if at in s.claimed {
        var j :| SentTo(s, j, RuleOf(goal), at);
        assert SentTo(r, j, RuleOf(goal), at);
      } else {
        var j :| New(s, r, j) && TargetOf(r, j) == at;
        assert Sent(g, goal, s, r, j);
        assert SentTo(r, j, RuleOf(goal), at);
      }
    }
  }

  lemma PursuedExhausts(g: Ground, standing: seq<Decision>, goal: Goal, s: Claims, i: nat, at: Location)
    requires Sized(g, s) && i < |g.own| && Pursued(g, standing, goal, s).ds[i].None? && Fit(g, goal, i, at)
    ensures at in Pursued(g, standing, goal, s).claimed
  {
    var kept := Whole(g, standing, Keeping(goal), s);
    ChoosingExhausts(g, standing, goal, kept, |kept.ds|);
    hide Fit, Passed;
  }

  /** The goal's turn has come and gone: its rule is decided, or every fit target has someone sent to it. */
  ghost predicate Covers(g: Ground, goal: Goal, r: Claims, ds: seq<Decision>, i: nat)
    requires i < |g.own| == |g.dist| == |r.ds| == |ds|
  {
    && (r.ds[i].Some? ==> ds[i] == r.ds[i].value)
    && (r.ds[i].None? ==> forall at | Fit(g, goal, i, at) ::
          exists j :: 0 <= j < |ds| && ds[j].rule == RuleOf(goal) && ds[j].target == Some(at))
  }

  lemma StageCovers(g: Ground, standing: seq<Decision>, goal: Goal, s: Claims, r: Claims, ds: seq<Decision>, i: nat)
    requires i < |g.own| == |g.dist| == |ds| && Sized(g, s) && r == Pursued(g, standing, goal, s)
    requires Adds(g, goal, s, r) && ClaimsSent(s, RuleOf(goal))
    requires forall j | 0 <= j < |ds| && r.ds[j].Some? :: ds[j] == r.ds[j].value
    ensures Covers(g, goal, r, ds, i) && ClaimsSent(r, RuleOf(goal))
  {
    AddsClaims(g, goal, s, r);
    hide Fit, Adds, Pursued;
    forall at | r.ds[i].None? && Fit(g, goal, i, at)
      ensures exists j :: 0 <= j < |ds| && ds[j].rule == RuleOf(goal) && ds[j].target == Some(at)
    {
      PursuedExhausts(g, standing, goal, s, i, at);
      var j :| SentTo(r, j, RuleOf(goal), at);
      assert ds[j] == r.ds[j].value;
    }
  }

  /** What a stage decided is what is decided in the end. */
  lemma StagesLast(g: Ground, standing: seq<Decision>)
    requires HomeReached(g)
    ensures |Decided(g, standing)| == |g.own| == |g.dist|
    ensures forall j | 0 <= j < |g.own| && Secured(g, standing).ds[j].Some? :: Decided(g, standing)[j] == Secured(g, standing).ds[j].value
    ensures forall j | 0 <= j < |g.own| && Scouted(g, standing).ds[j].Some? :: Decided(g, standing)[j] == Scouted(g, standing).ds[j].value
    ensures forall j | 0 <= j < |g.own| && Searched(g, standing).ds[j].Some? :: Decided(g, standing)[j] == Searched(g, standing).ds[j].value
    ensures forall j | 0 <= j < |g.own| && Rescouted(g, standing).ds[j].Some? :: Decided(g, standing)[j] == Rescouted(g, standing).ds[j].value
  {
    GoalsAdd(g, standing);
    hide Stood, Secured, Scouted, Searched, Rescouted, Sent, Early, Decided, HomeReached, New;
    forall j: nat | j < |g.own|
      ensures Decided(g, standing)[j] == var d := Rescouted(g, standing).ds[j];
                                         if d.Some? then d.value else Decision(g.own[j].id, Hold, "", None)
    {
      DecidedIs(g, standing, j);
    }
  }

  /** The claims a goal starts from are its own rule's. */
  lemma StagesCover(g: Ground, standing: seq<Decision>, i: nat)
    requires HomeReached(g) && i < |g.own|
    ensures var ds := Decided(g, standing);
            && Covers(g, Securing, Secured(g, standing), ds, i)
            && Covers(g, Searching(Scout), Scouted(g, standing), ds, i)
            && Covers(g, Searching(Squad), Searched(g, standing), ds, i)
            && Covers(g, Rescouting, Rescouted(g, standing), ds, i)
  {
    StagesLast(g, standing);
    GoalsAdd(g, standing);
    StagesAre(g, standing);
    assert ClaimsSent(Early(g), Secure);
    hide *;
    var ds := Decided(g, standing);
    assert RuleOf(Securing) == Secure && RuleOf(Searching(Scout)) == Search == RuleOf(Searching(Squad)) && RuleOf(Rescouting) == Rescout by {
      GoalRules();
    }
    AddsClaims(g, Securing, Early(g), Stood(g, standing));
    StageCovers(g, standing, Securing, Stood(g, standing), Secured(g, standing), ds, i);
    NothingClaimed(Secured(g, standing), Search);
    StageCovers(g, standing, Searching(Scout), Anew(Secured(g, standing)), Scouted(g, standing), ds, i);
    StageCovers(g, standing, Searching(Squad), Scouted(g, standing), Searched(g, standing), ds, i);
    NothingClaimed(Searched(g, standing), Rescout);
    StageCovers(g, standing, Rescouting, Anew(Searched(g, standing)), Rescouted(g, standing), ds, i);
  }

  lemma GoalRules()
    ensures RuleOf(Securing) == Secure && RuleOf(Searching(Scout)) == Search == RuleOf(Searching(Squad))
    ensures RuleOf(Rescouting) == Rescout
  {
  }

  lemma NothingClaimed(s: Claims, rule: Rule)
    ensures ClaimsSent(Anew(s), rule)
  {
  }

  lemma StagesAre(g: Ground, standing: seq<Decision>)
    requires |g.own| == |g.dist|
    ensures Sized(g, Early(g)) && Sized(g, Stood(g, standing)) && Sized(g, Secured(g, standing))
    ensures Sized(g, Scouted(g, standing)) && Sized(g, Searched(g, standing)) && Sized(g, Rescouted(g, standing))
    ensures Sized(g, Anew(Secured(g, standing))) && Sized(g, Anew(Searched(g, standing)))
    ensures Secured(g, standing) == Pursued(g, standing, Securing, Stood(g, standing))
    ensures Scouted(g, standing) == Pursued(g, standing, Searching(Scout), Anew(Secured(g, standing)))
    ensures Searched(g, standing) == Pursued(g, standing, Searching(Squad), Scouted(g, standing))
    ensures Rescouted(g, standing) == Pursued(g, standing, Rescouting, Anew(Searched(g, standing)))
  {
    hide Pursued, Whole, Early;
  }

  /** The rules of the fighting. */
  predicate ByFighting(rule: Rule) { rule == Retreat || rule == Pursue || rule == Reinforce || rule == Engage }

  lemma FightingRules(g: Ground, e: Element, dist: Distances)
    ensures Fighting(g, e, dist).Some? ==> ByFighting(Fighting(g, e, dist).value.rule)
  {
    hide Nearest, FirstBest, Fights, StrongestId, Strongest, RetreatTo, OwnStrength, EnemyStrength;
  }

  /** What each stage can have decided. */
  lemma StageRules(g: Ground, standing: seq<Decision>, i: nat)
    requires HomeReached(g) && i < |g.own|
    ensures var d := Secured(g, standing).ds[i]; d.Some? ==> ByFighting(d.value.rule) || d.value.rule == Secure
    ensures var d := Searched(g, standing).ds[i]; d.Some? ==> ByFighting(d.value.rule) || d.value.rule in {Secure, Search}
    ensures var d := Rescouted(g, standing).ds[i]; d.Some? ==> ByFighting(d.value.rule) || d.value.rule in {Secure, Search, Rescout}
  {
    EarlyIs(g, i);
    FightingRules(g, g.own[i], g.dist[i]);
    GoalsAdd(g, standing);
    hide Early, Stood, Secured, Scouted, Searched, Rescouted, Fit, Fighting, ByFighting;
    AddsRule(g, Securing, Early(g), Stood(g, standing), i);
    AddsRule(g, Securing, Stood(g, standing), Secured(g, standing), i);
    AddsRule(g, Searching(Scout), Anew(Secured(g, standing)), Scouted(g, standing), i);
    AddsRule(g, Searching(Squad), Scouted(g, standing), Searched(g, standing), i);
    AddsRule(g, Rescouting, Anew(Searched(g, standing)), Rescouted(g, standing), i);
    hide Adds;
  }

  /** Some element is sent to the cell by the rule. */
  ghost predicate SomeoneSent(ds: seq<Decision>, rule: Rule, at: Location) {
    exists j :: 0 <= j < |ds| && ds[j].rule == rule && ds[j].target == Some(at)
  }

  /** Nobody is left idle beside work: an element that neither fights nor secures suits no objective to secure but those
      others are sent to secure; one that does not search either suits no cell to search that nobody is sent to; and one
      that holds suits no objective to rescout that nobody is. */
  lemma NoWorkLeft(t: Terrain.Terrain, faction: string, p: Picture, g: Ground, standing: seq<Decision>, i: nat)
    requires IsGround(t, faction, p, g) && i < |g.own|
    ensures var ds, e := Decided(g, standing), g.own[i];
            && (ds[i].rule in {Search, Rescout, Hold} ==>
                  forall at | Suits(t, faction, p, e, Secure, at) :: SomeoneSent(ds, Secure, at))
            && (ds[i].rule in {Rescout, Hold} && (e.kind.Scout? || e.kind.Squad?) ==>
                  forall at | Suits(t, faction, p, e, Search, at) :: SomeoneSent(ds, Search, at))
            && (ds[i].rule == Hold ==>
                  forall at | Suits(t, faction, p, e, Rescout, at) :: SomeoneSent(ds, Rescout, at))
  {
    assert |g.own| == |g.dist|;
    hide *;
    HomeIsReached(t, faction, p, g);
    forall at
      ensures Fit(g, Securing, i, at) <==> Suits(t, faction, p, g.own[i], Secure, at)
      ensures Fit(g, Searching(g.own[i].kind), i, at) <==> Suits(t, faction, p, g.own[i], Search, at)
      ensures Fit(g, Rescouting, i, at) <==> Suits(t, faction, p, g.own[i], Rescout, at)
    {
      SuitsAsFit(t, faction, p, g, i, at);
    }
    StagesCover(g, standing, i);
    StagesLast(g, standing);
    StageRules(g, standing, i);
    StagesAre(g, standing);
    GoalRules();
    FightingApart();
    CoversAll(g, Decided(g, standing), Securing, Secured(g, standing), i);
    CoversAll(g, Decided(g, standing), Searching(Scout), Scouted(g, standing), i);
    CoversAll(g, Decided(g, standing), Searching(Squad), Searched(g, standing), i);
    CoversAll(g, Decided(g, standing), Rescouting, Rescouted(g, standing), i);
    ScoutsFirst(g, standing, i);
  }

  lemma FightingApart()
    ensures forall rule | ByFighting(rule) :: rule !in {Secure, Search, Rescout, Hold}
  {
  }

  lemma CoversAll(g: Ground, ds: seq<Decision>, goal: Goal, r: Claims, i: nat)
    requires i < |g.own| == |g.dist| == |r.ds| == |ds| && Covers(g, goal, r, ds, i)
    ensures r.ds[i].Some? ==> ds[i] == r.ds[i].value
    ensures r.ds[i].None? ==> forall at | Fit(g, goal, i, at) :: SomeoneSent(ds, RuleOf(goal), at)
  {
    hide Fit;
  }

  /** What the scouts' search decided stands after the squads'. */
  lemma ScoutsFirst(g: Ground, standing: seq<Decision>, i: nat)
    requires HomeReached(g) && i < |g.own|
    ensures Scouted(g, standing).ds[i].Some? ==> Searched(g, standing).ds[i] == Scouted(g, standing).ds[i]
  {
    GoalsAdd(g, standing);
    hide Stood, Secured, Scouted, Searched, Rescouted, Sent, Early;
  }
}
