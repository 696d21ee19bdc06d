/** The fights command faces: who retreats, who pursues and who engages, told by what stands in the cell. */
module Facing {
  import opened World
  import opened State
  import opened Observing
  import opened Fusion
  import opened Terrain
  import opened Sorting
  import opened Deciding
  import opened Steady
  import Keys

  // ----- What stands in a cell -----

  /** The faction's elements in the cell, in the list's order. */
  function OursIn(own: seq<Element>, l: Location): seq<Element> {
    if own == [] then []
    else OursIn(own[..|own| - 1], l) + if own[|own| - 1].at == l then [own[|own| - 1]] else []
  }

  /** The enemies seen in the cell this round, in the list's order. */
  function TheirsIn(contacts: seq<Contact>, l: Location): seq<Element> {
    if contacts == [] then []
    else
      var c := contacts[|contacts| - 1];
      TheirsIn(contacts[..|contacts| - 1], l) + if c.age == 0 && c.element.at == l then [c.element] else []
  }

  function StrengthOf(es: seq<Element>): int {
    Sum(seq(|es|, i requires 0 <= i < |es| => es[i].strength))
  }

  lemma StrengthNext(es: seq<Element>, e: Element)
    ensures StrengthOf(es + [e]) == StrengthOf(es) + e.strength
  {
    var before := seq(|es|, i requires 0 <= i < |es| => es[i].strength);
    assert seq(|es + [e]|, i requires 0 <= i < |es + [e]| => (es + [e])[i].strength) == before + [e.strength];
    SumLast(before, e.strength);
  }

  lemma {:induction false} OwnStrengthIsSum(own: seq<Element>, l: Location)
    ensures OwnStrength(own, l) == StrengthOf(OursIn(own, l))
    ensures forall e :: e in OursIn(own, l) <==> e in own && e.at == l
  {
    if own != [] {
      var n := |own| - 1;
      OwnStrengthIsSum(own[..n], l);
      StrengthNext(OursIn(own[..n], l), own[n]);
      assert own == own[..n] + [own[n]];
      hide StrengthOf;
      assert OursIn(own[..n], l) + [] == OursIn(own[..n], l);
    }
  }

  lemma {:induction false} EnemyStrengthIsSum(contacts: seq<Contact>, l: Location)
    ensures EnemyStrength(contacts, l) == StrengthOf(TheirsIn(contacts, l))
    ensures forall e :: e in TheirsIn(contacts, l) <==> exists c :: c in contacts && c.age == 0 && c.element == e && e.at == l
  {
    if contacts != [] {
      var n := |contacts| - 1;
      EnemyStrengthIsSum(contacts[..n], l);
      StrengthNext(TheirsIn(contacts[..n], l), contacts[n].element);
      assert contacts == contacts[..n] + [contacts[n]];
      hide StrengthOf;
      assert TheirsIn(contacts[..n], l) + [] == TheirsIn(contacts[..n], l);
    }
  }

  /** A cell beside, open, in which nobody of the faction stands and no enemy was seen this round. */
  ghost predicate FreeBeside(g: Ground, at: Location, to: Location) {
    && to.sector == at.sector
    && ((to.point.x == at.point.x && (to.point.y == at.point.y - 1 || to.point.y == at.point.y + 1))
        || (to.point.y == at.point.y && (to.point.x == at.point.x - 1 || to.point.x == at.point.x + 1)))
    && (exists s :: FindGrid(g.t, at.sector) == Some(s) && s.Open(to.point))
    && (forall e | e in g.own :: e.at != to)
    && (forall c | c in g.contacts && c.age == 0 :: c.element.at != to)
  }

  lemma FreeIsBeside(g: Ground, grid: Grid, at: Location, d: nat)
    requires d < 4 && FindGrid(g.t, at.sector) == Some(grid)
    ensures Free(grid, at, g.contacts, g.own, d) <==> FreeBeside(g, at, Location(at.sector, Neighbour(at.point, d)))
  {
  }

  lemma BesideIsNeighbour(at: Point, to: Point) returns (d: nat)
    requires || (to.x == at.x && (to.y == at.y - 1 || to.y == at.y + 1))
             || (to.y == at.y && (to.x == at.x - 1 || to.x == at.x + 1))
    ensures d < 4 && to == Neighbour(at, d)
  {
    d := if to.y == at.y - 1 then 0 else if to.x == at.x + 1 then 1 else if to.y == at.y + 1 then 2 else 3;
  }

  /** Of the free neighbours the first farthest from any other contact is taken, whenever one is free. */
  lemma {:induction false} FarthestFree(grid: Grid, at: Location, contacts: seq<Contact>, own: seq<Element>, n: nat)
    returns (d: nat)
    requires n <= 4 && exists e: nat :: e < n && Free(grid, at, contacts, own, e)
    ensures d < n && Free(grid, at, contacts, own, d)
    ensures forall e: nat | e < n && Free(grid, at, contacts, own, e) ::
              var here, there := GapTo(contacts, at, Neighbour(at.point, d)), GapTo(contacts, at, Neighbour(at.point, e));
              here > there || (here == there && d <= e)
  {
    hide Free, GapTo;
    if exists e: nat :: e < n - 1 && Free(grid, at, contacts, own, e) {
      d := FarthestFree(grid, at, contacts, own, n - 1);
      if Free(grid, at, contacts, own, n - 1)
         && GapTo(contacts, at, Neighbour(at.point, n - 1)) > GapTo(contacts, at, Neighbour(at.point, d)) {
        d := n - 1;
      }
    } else {
      d := n - 1;
    }
  }

  lemma RetreatsIfFree(g: Ground, at: Location)
    ensures RetreatTo(g.t, at, g.contacts, g.own).Some? <==> exists to :: FreeBeside(g, at, to)
    ensures RetreatTo(g.t, at, g.contacts, g.own).Some? ==> FreeBeside(g, at, RetreatTo(g.t, at, g.contacts, g.own).value)
  {
    var grid := FindGrid(g.t, at.sector);
    if to :| FreeBeside(g, at, to) {
      var k := BesideIsNeighbour(at.point, to.point);
      FreeIsBeside(g, grid.value, at, k);
      var d := FarthestFree(grid.value, at, g.contacts, g.own, 4);
      assert IsRetreatTo(grid.value, at, g.contacts, g.own, d);
    }
    if RetreatTo(g.t, at, g.contacts, g.own).Some? {
      var d: nat :| IsRetreatTo(grid.value, at, g.contacts, g.own, d)
                    && RetreatTo(g.t, at, g.contacts, g.own).value == Location(at.sector, Neighbour(at.point, d));
      FreeIsBeside(g, grid.value, at, d);
    }
  }

  /** Every contact of the sector outside the fight is at least `n` away. */
  ghost predicate Clears(contacts: seq<Contact>, at: Location, p: Point, n: int) {
    n <= FAR && forall c | c in contacts && c.element.at.sector == at.sector && c.element.at != at :: n <= Gap(c.element.at.point, p)
  }

  lemma {:induction false} GapIsClearance(contacts: seq<Contact>, at: Location, p: Point, n: int)
    ensures n <= GapTo(contacts, at, p) <==> Clears(contacts, at, p, n)
  {
    if contacts != [] {
      var k := |contacts| - 1;
      GapIsClearance(contacts[..k], at, p, n);
      assert contacts == contacts[..k] + [contacts[k]];
    }
  }

  /** A retreat goes where no other contact is nearer than it would be at any other free neighbour. */
  lemma RetreatsFarthest(g: Ground, at: Location, to: Location, n: int)
    requires RetreatTo(g.t, at, g.contacts, g.own).Some? && FreeBeside(g, at, to) && Clears(g.contacts, at, to.point, n)
    ensures Clears(g.contacts, at, RetreatTo(g.t, at, g.contacts, g.own).value.point, n)
  {
    var grid := FindGrid(g.t, at.sector).value;
    var d: nat :| IsRetreatTo(grid, at, g.contacts, g.own, d)
                  && RetreatTo(g.t, at, g.contacts, g.own).value == Location(at.sector, Neighbour(at.point, d));
    var k := BesideIsNeighbour(at.point, to.point);
    FreeIsBeside(g, grid, at, k);
    GapIsClearance(g.contacts, at, Neighbour(at.point, k), n);
    GapIsClearance(g.contacts, at, Neighbour(at.point, d), n);
  }

  // ----- The strongest seen -----

  /** An enemy seen in the cell this round, as strong as any seen there, and of those as strong the least by ID. */
  ghost predicate StrongestSeen(contacts: seq<Contact>, l: Location, c: Contact) {
    && c in contacts && c.age == 0 && c.element.at == l
    && forall d | d in contacts && d.age == 0 && d.element.at == l ::
         d.element.strength <= c.element.strength
         && (d.element.strength == c.element.strength ==> !Keys.Less(d.element.id, c.element.id))
  }

  lemma StrongestIsSeen(contacts: seq<Contact>, l: Location)
    ensures Strongest(contacts, l).Some? <==> exists c :: c in contacts && c.age == 0 && c.element.at == l
    ensures Strongest(contacts, l).Some? ==> StrongestSeen(contacts, l, Strongest(contacts, l).value)
  {
    StrongerRanks();
    if Strongest(contacts, l).None? {
      FirstBestNone(contacts, SeenAt(l), Stronger());
      assert forall c | c in contacts :: !SeenAt(l)(c);
    } else {
      var i: int :| IsFirstBest(contacts, SeenAt(l), Stronger(), i) && Strongest(contacts, l).value == contacts[i];
      var c := contacts[i];
      forall d | d in contacts && d.age == 0 && d.element.at == l
        ensures d.element.strength <= c.element.strength
        ensures d.element.strength == c.element.strength ==> !Keys.Less(d.element.id, c.element.id)
      {
        assert SeenAt(l)(d) && !Stronger()(d, c);
      }
    }
  }

  // ----- Who retreats, pursues and engages -----

  /** The element is in a fight whose enemy was seen this round. */
  ghost predicate Faces(g: Ground, e: Element) {
    e.status.Engaged? && exists c :: c in g.contacts && c.age == 0 && c.element.at == e.at
  }

  lemma FightIs(g: Ground, e: Element)
    ensures FightOf(g, e).Some? <==> Faces(g, e)
    ensures FightOf(g, e).Some? ==>
              var d, ours, theirs := FightOf(g, e).value, StrengthOf(OursIn(g.own, e.at)), StrengthOf(TheirsIn(g.contacts, e.at));
              && d.element == e.id
              && (d.rule == Retreat <==> (e.kind.Scout? || 3 * ours < 2 * theirs) && exists to :: FreeBeside(g, e.at, to))
              && (d.rule == Pursue <==> d.rule != Retreat && theirs <= ours)
              && (d.rule == Engage <==> d.rule != Retreat && ours < theirs)
              && d.target.Some? && (if d.rule == Retreat then FreeBeside(g, e.at, d.target.value) else d.target.value == e.at)
              && exists c :: StrongestSeen(g.contacts, e.at, c) && d.contact == c.element.id
  {
    StrongestIsSeen(g.contacts, e.at);
    RetreatsIfFree(g, e.at);
    OwnStrengthIsSum(g.own, e.at);
    EnemyStrengthIsSum(g.contacts, e.at);
    hide Strongest, RetreatTo, OwnStrength, EnemyStrength, FreeBeside, StrongestSeen, StrengthOf, OursIn, TheirsIn;
  }

  /** The rules that a goal gives, or none. */
  predicate ByGoal(rule: Rule) { rule == Secure || rule == Search || rule == Rescout || rule == Hold }

  /** An element's part in the fighting, if it has one, is what is decided; any other's rule is a goal's, or it holds. */
  lemma FightingStands(t: Terrain, faction: string, p: Picture, g: Ground, standing: seq<Decision>, i: nat)
    requires IsGround(t, faction, p, g) && i < |g.own|
    ensures var d := Fighting(g, g.own[i], g.dist[i]);
            if d.Some? then Decided(g, standing)[i] == d.value else ByGoal(Decided(g, standing)[i].rule)
  {
    HomeIsReached(t, faction, p, g);
    GoalsAdd(g, standing);
    DecidedIs(g, standing, i);
    EarlyIs(g, i);
    hide *;
    FightingLasts(g, standing, i);
    assert ByGoal(Hold) by { HoldIsByGoal(); }
  }

  lemma HoldIsByGoal()
    ensures ByGoal(Hold)
  {
  }

  lemma EarlyIs(g: Ground, i: nat)
    requires i < |g.own| == |g.dist|
    ensures Early(g).ds[i] == Fighting(g, g.own[i], g.dist[i])
  {
    hide Fighting;
  }

  lemma FightingLasts(g: Ground, standing: seq<Decision>, i: nat)
    requires i < |g.own| == |g.dist|
    requires Adds(g, Securing, Early(g), Stood(g, standing)) && Adds(g, Securing, Stood(g, standing), Secured(g, standing))
    requires Adds(g, Searching(Scout), Anew(Secured(g, standing)), Scouted(g, standing))
    requires Adds(g, Searching(Squad), Scouted(g, standing), Searched(g, standing))
    requires Adds(g, Rescouting, Anew(Searched(g, standing)), Rescouted(g, standing))
    ensures var d := Rescouted(g, standing).ds[i];
            if Early(g).ds[i].Some? then d == Early(g).ds[i] else d.Some? ==> ByGoal(d.value.rule)
  {
    hide Early, Stood, Secured, Scouted, Searched, Rescouted, Fit;
    AddsRule(g, Securing, Early(g), Stood(g, standing), i);
    AddsRule(g, Securing, Stood(g, standing), Secured(g, standing), i);
    AddsRule(g, Searching(Scout), Anew(Secured(g, standing)), Scouted(g, standing), i);
    AddsRule(g, Searching(Squad), Scouted(g, standing), Searched(g, standing), i);
    AddsRule(g, Rescouting, Anew(Searched(g, standing)), Rescouted(g, standing), i);
    hide Adds;
  }

  lemma AddsRule(g: Ground, goal: Goal, s: Claims, r: Claims, i: nat)
    requires Adds(g, goal, s, r) && i < |s.ds|
    ensures |r.ds| == |s.ds|
    ensures s.ds[i].Some? ==> r.ds[i] == s.ds[i]
    ensures s.ds[i].None? && r.ds[i].Some? ==> r.ds[i].value.rule == RuleOf(goal)
  {
    hide Fit;
    if s.ds[i].None? && r.ds[i].Some? {
      assert New(s, r, i);
      assert Sent(g, goal, s, r, i);
    }
  }

  /** An engaged element with an enemy seen in its cell retreats exactly when it is a scout, or its side there is
      outnumbered three to two, and a free cell is beside it, and goes to one; any other such element keeps its cell, and
      pursues exactly when its side there is at least as strong. Its contact is the strongest seen there. Nobody else
      retreats or pursues. */
  lemma FightsAsCounted(t: Terrain, faction: string, p: Picture, g: Ground, standing: seq<Decision>, i: nat)
    requires IsGround(t, faction, p, g) && i < |g.own|
    ensures var d, e := Decided(g, standing)[i], g.own[i];
            if Faces(g, e) then
              var ours, theirs := StrengthOf(OursIn(g.own, e.at)), StrengthOf(TheirsIn(g.contacts, e.at));
              && d.element == e.id
              && (d.rule == Retreat <==> (e.kind.Scout? || 3 * ours < 2 * theirs) && exists to :: FreeBeside(g, e.at, to))
              && (d.rule == Pursue <==> d.rule != Retreat && theirs <= ours)
              && (d.rule == Engage <==> d.rule != Retreat && ours < theirs)
              && d.target.Some? && (if d.rule == Retreat then FreeBeside(g, e.at, d.target.value) else d.target.value == e.at)
              && exists c :: StrongestSeen(g.contacts, e.at, c) && d.contact == c.element.id
            else d.rule != Retreat && d.rule != Pursue
  {
    assert |g.own| == |g.dist|;
    hide *;
    FightingStands(t, faction, p, g, standing, i);
    FightIs(g, g.own[i]);
    FightFirst(g, i, Decided(g, standing)[i]);
  }

  /** A fight comes first, and only a fight gives its two rules. */
  lemma FightFirst(g: Ground, i: nat, d: Decision)
    requires i < |g.own| == |g.dist|
    requires var f := Fighting(g, g.own[i], g.dist[i]); if f.Some? then d == f.value else ByGoal(d.rule)
    ensures if FightOf(g, g.own[i]).Some? then d == FightOf(g, g.own[i]).value else d.rule != Retreat && d.rule != Pursue
  {
    hide FightOf, Nearest, FirstBest, Fights, StrongestId;
  }

  // ----- Two factions in one cell -----

  /** The picture shows the faction's elements, and of the enemy's those it now sees, as the state has them: every enemy in
      a cell of the faction's own is among them. */
  ghost predicate ShowsNow(s: State, f: string, own: seq<Element>, contacts: seq<Contact>) {
    && StrictlySortedBy(own, IdOf) && (forall e :: e in own <==> e in s.elements && e.faction == f)
    && StrictlySortedBy(contacts, ContactId)
    && (forall c | c in contacts && c.age == 0 :: c.element in s.elements && c.element.faction != f)
    && (forall e, o | e in s.elements && e.faction != f && o in own && o.at == e.at ::
          exists c :: c in contacts && c.age == 0 && c.element == e)
  }

  /** Fusing a round's observation into a picture of earlier ones shows the state as it is. */
  lemma FusedShows(s: State, f: string, round: int, o: Observation, prev: Picture, k: int, p: Picture)
    requires IsObservation(s, f, round, o) && IsFused(prev, o, k, p)
    requires forall c | c in prev.contacts :: c.seen < round
    ensures ShowsNow(s, f, SortBy(p.own, IdOf), p.contacts)
  {
    assert o.round == round && StrictlySortedBy(o.own, IdOf);
    hide *;
    SortedOwn(o.own);
    SortedOwn(p.own);
    NowObserved(o, prev, k, p);
    SeesBeside(s, f, round, o);
    ShownNow(s, f, round, o, p);
  }

  lemma ShownNow(s: State, f: string, round: int, o: Observation, p: Picture)
    requires StrictlySortedBy(SortBy(p.own, IdOf), IdOf) && StrictlySortedBy(p.contacts, ContactId)
    requires forall e :: e in SortBy(p.own, IdOf) <==> e in p.own
    requires forall e :: e in p.own <==> e in s.elements && e.faction == f
    requires forall c | c in p.contacts && c.age == 0 :: c.element in o.contacts
    requires forall e | e in o.contacts :: Contact(e, round, 0) in p.contacts && e in s.elements && e.faction != f
    requires forall e, own | e in s.elements && e.faction != f && own in p.own && own.at == e.at :: e in o.contacts
    ensures ShowsNow(s, f, SortBy(p.own, IdOf), p.contacts)
  {
    hide StrictlySortedBy, SortBy;
    forall e, own | e in s.elements && e.faction != f && own in p.own && own.at == e.at
      ensures exists c :: c in p.contacts && c.age == 0 && c.element == e
    {
      assert e in o.contacts;
      assert Contact(e, round, 0) in p.contacts;
    }
  }

  /** The contacts of age 0 are those the round observed. */
  lemma NowObserved(o: Observation, prev: Picture, k: int, p: Picture)
    requires IsFused(prev, o, k, p) && forall c | c in prev.contacts :: c.seen < o.round
    ensures StrictlySortedBy(p.contacts, ContactId)
    ensures forall c | c in p.contacts && c.age == 0 :: c.element in o.contacts
    ensures forall e | e in o.contacts :: Contact(e, o.round, 0) in p.contacts
    ensures p.own == SortBy(o.own, IdOf)
    ensures forall e :: e in SortBy(o.own, IdOf) <==> e in o.own
  {
    SortByMembers(o.own, IdOf);
    hide FusedObjectives, SeesInGrid, Seen;
  }

  /** An enemy in an own element's cell is in sight. */
  lemma SeesBeside(s: State, f: string, round: int, o: Observation)
    requires IsObservation(s, f, round, o)
    ensures forall e, own | e in s.elements && e.faction != f && own in o.own && own.at == e.at :: e in o.contacts
    ensures forall e :: e in o.own <==> e in s.elements && e.faction == f
    ensures forall e | e in o.contacts :: e in s.elements && e.faction != f
    ensures StrictlySortedBy(o.own, IdOf)
  {
    forall e, own | e in s.elements && e.faction != f && own in o.own && own.at == e.at ensures e in o.contacts {
      assert Sees(own, e.at);
    }
  }

  lemma SortedOwn(own: seq<Element>)
    ensures forall e :: e in SortBy(own, IdOf) <==> e in own
    ensures StrictlySortedBy(own, IdOf) ==> StrictlySortedBy(SortBy(own, IdOf), IdOf)
  {
    SortByMembers(own, IdOf);
    if StrictlySortedBy(own, IdOf) {
      StrictIsDistinct(own, IdOf);
      SortByStrict(own, IdOf);
    }
  }

  lemma {:induction false} OursSorted(own: seq<Element>, l: Location)
    requires StrictlySortedBy(own, IdOf)
    ensures StrictlySortedBy(OursIn(own, l), IdOf) && forall e | e in OursIn(own, l) :: e in own
  {
    if own != [] {
      var n := |own| - 1;
      OursSorted(own[..n], l);
      var before := OursIn(own[..n], l);
      forall k | 0 <= k < |before| ensures Keys.Less(IdOf(before[k]), IdOf(own[n])) {
        assert before[k] in own[..n];
      }
    }
  }

  lemma {:induction false} TheirsSorted(contacts: seq<Contact>, l: Location)
    requires StrictlySortedBy(contacts, ContactId)
    ensures StrictlySortedBy(TheirsIn(contacts, l), IdOf)
    ensures forall e | e in TheirsIn(contacts, l) :: exists c :: c in contacts && c.element == e
  {
    if contacts != [] {
      var n := |contacts| - 1;
      TheirsSorted(contacts[..n], l);
      var before := TheirsIn(contacts[..n], l);
      forall k | 0 <= k < |before| ensures Keys.Less(IdOf(before[k]), IdOf(contacts[n].element)) {
        assert before[k] in before;
        var c :| c in contacts[..n] && c.element == before[k];
        var m :| 0 <= m < n && contacts[..n][m] == c;
        assert Keys.Less(ContactId(contacts[m]), ContactId(contacts[n]));
      }
      assert contacts == contacts[..n] + [contacts[n]];
    }
  }

  /** What one side has in a cell both stand in is what the other sees there. */
  lemma SeenAsIs(s: State, f: string, own: seq<Element>, g: string, others: seq<Element>, contacts: seq<Contact>,
                 ours: seq<Contact>, y: Element)
    requires f != g && forall e | e in s.elements :: e.faction == f || e.faction == g
    requires ShowsNow(s, f, own, ours) && ShowsNow(s, g, others, contacts) && y in others
    ensures OursIn(own, y.at) == TheirsIn(contacts, y.at)
  {
    OursSorted(own, y.at);
    TheirsSorted(contacts, y.at);
    OwnStrengthIsSum(own, y.at);
    EnemyStrengthIsSum(contacts, y.at);
    hide OursIn, TheirsIn, StrengthOf, OwnStrength, EnemyStrength, StrictlySortedBy;
    SortedUnique(OursIn(own, y.at), TheirsIn(contacts, y.at), IdOf);
  }

  lemma {:induction false} SomeStrength(es: seq<Element>)
    requires forall e | e in es :: 0 <= e.strength
    ensures 0 <= StrengthOf(es)
  {
    if es != [] {
      var n := |es| - 1;
      SomeStrength(es[..n]);
      StrengthNext(es[..n], es[n]);
      assert es == es[..n] + [es[n]];
    }
  }

  lemma ElementsCount(s: State)
    requires ValidState(s)
    ensures forall e | e in s.elements :: 0 <= e.strength && (e.faction == s.factions.0 || e.faction == s.factions.1)
  {
    forall e | e in s.elements ensures 0 <= e.strength {
      assert ValidElement(s.world, s.factions, e);
      SumOfLiving(e.health);
    }
  }

  lemma {:induction false} SumOfLiving(hs: seq<int>)
    requires forall h | h in hs :: 1 <= h
    ensures 0 <= Sum(hs)
  {
    if hs != [] {
      assert hs[0] in hs && forall h | h in hs[1..] :: h in hs;
      SumOfLiving(hs[1..]);
    }
  }

  /** Two squads of the two sides, engaged in one cell: whatever either command decided before, the sides never both
      retreat, and when neither does, the stronger pursues, both when they are as strong. */
  lemma NeverBothRetreat(s: State, t: Terrain, p: Picture, q: Picture, g: Ground, h: Ground, standing: seq<Decision>,
                         others: seq<Decision>, i: nat, j: nat)
    requires ValidState(s) && IsGround(t, s.factions.0, p, g) && IsGround(t, s.factions.1, q, h)
    requires ShowsNow(s, s.factions.0, g.own, g.contacts) && ShowsNow(s, s.factions.1, h.own, h.contacts)
    requires i < |g.own| && j < |h.own| && g.own[i].at == h.own[j].at
    requires g.own[i].status.Engaged? && g.own[i].kind.Squad? && h.own[j].status.Engaged? && h.own[j].kind.Squad?
    ensures var d, e := Decided(g, standing)[i], Decided(h, others)[j];
            var ours, theirs := StrengthOf(OursIn(g.own, g.own[i].at)), StrengthOf(OursIn(h.own, g.own[i].at));
            && !(d.rule == Retreat && e.rule == Retreat)
            && (d.rule == Retreat ==> 3 * ours < 2 * theirs && e.rule == Pursue)
            && (e.rule == Retreat ==> 3 * theirs < 2 * ours && d.rule == Pursue)
            && (d.rule != Retreat && e.rule != Retreat ==>
                  && (d.rule == Pursue <==> theirs <= ours) && (e.rule == Pursue <==> ours <= theirs))
  {
    var x, y, f, k := g.own[i], h.own[j], s.factions.0, s.factions.1;
    ElementsCount(s);
    assert f != k;
    hide ValidState, ValidElement, IsGround, Decided, StrictlySortedBy;
    assert x in g.own && y in h.own;
    SeenAsIs(s, f, g.own, k, h.own, h.contacts, g.contacts, y);
    SeenAsIs(s, k, h.own, f, g.own, g.contacts, h.contacts, x);
    FacesOther(s, f, g, h.own, x, y);
    FacesOther(s, k, h, g.own, y, x);
    OwnStrengthIsSum(g.own, x.at);
    OwnStrengthIsSum(h.own, x.at);
    hide ShowsNow;
    SomeStrength(OursIn(g.own, x.at));
    SomeStrength(OursIn(h.own, x.at));
    FightsAsCounted(t, f, p, g, standing, i);
    FightsAsCounted(t, k, q, h, others, j);
  }

  lemma FacesOther(s: State, f: string, g: Ground, others: seq<Element>, x: Element, y: Element)
    requires ShowsNow(s, f, g.own, g.contacts) && x in g.own && x.status.Engaged? && x.at == y.at
    requires y in s.elements && y.faction != f
    ensures Faces(g, x)
  {
  }
}
