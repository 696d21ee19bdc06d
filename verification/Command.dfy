/** Command's decision engine: the plan it fills in, pass by pass. */
module Command {
  import opened World
  import opened State
  import opened Fusion
  import opened Terrain
  import opened Sorting
  import opened Deciding
  import opened Steady
  import Distancing
  import Route
  import Keys

  // ----- Picking one of many -----

  /** The first best of a list: how command finds the strongest contact, the nearest one, and the stalest objective. */
  method PickFirst<T(!new)>(xs: seq<T>, ok: T -> bool, better: (T, T) -> bool) returns (r: Option<T>)
    requires Ranks(better)
    ensures r == FirstBest(xs, ok, better)
  {
    var best := -1;
    for i := 0 to |xs|
      invariant best == -1 ==> forall j | 0 <= j < i :: !ok(xs[j])
      invariant best != -1 ==> IsFirstBest(xs[..i], ok, better, best)
    {
      if best != -1 {
        BestNext(xs, i, ok, better, best);
      }
      if ok(xs[i]) && (best == -1 || better(xs[i], xs[best])) {
        best := i;
      }
    }
    assert xs[..|xs|] == xs;
    if best == -1 {
      return None;
    }
    FirstBestIs(xs, ok, better, best);
    r := Some(xs[best]);
  }

  /** No accepted cell looked at is nearer than the best. */
  ghost predicate NearestSoFar(dist: Distances, ok: Location -> bool, left: set<Location>, best: Option<Location>) {
    if best.None? then forall l | l in dist && l !in left :: !ok(l)
    else
      && best.value in dist && best.value !in left && ok(best.value)
      && forall l | l in dist && l !in left && ok(l) :: l == best.value || Nearer(dist, best.value, l)
  }

  predicate Nearer(dist: Distances, a: Location, b: Location)
    requires a in dist && b in dist
  {
    dist[a] < dist[b] || (dist[a] == dist[b] && Keys.Less(a.Key(), b.Key()))
  }

  lemma NearestNext(dist: Distances, ok: Location -> bool, left: set<Location>, best: Option<Location>, l: Location)
    requires NearestSoFar(dist, ok, left, best) && l in left && l in dist
    ensures NearestSoFar(dist, ok, left - {l},
                         if ok(l) && (best.None? || Nearer(dist, l, best.value)) then Some(l) else best)
  {
    if best.Some? {
      KeyOrderTotal(l, best.value);
      forall k | k in dist && Nearer(dist, l, best.value) && Nearer(dist, best.value, k) ensures Nearer(dist, l, k) {
        KeysRank(l.Key(), best.value.Key(), k.Key());
        Keys.LessTotal(best.value.Key(), k.Key());
      }
    }
  }

  /** The nearest accepted cell, whatever order the map's cells come in. */
  method NearestIn(dist: Distances, ok: Location -> bool) returns (r: Option<Location>)
    ensures r == Nearest(dist, ok)
  {
    r := None;
    var left := dist.Keys;
    while left != {}
      invariant left <= dist.Keys && NearestSoFar(dist, ok, left, r)
    {
      var l :| l in left;
      NearestNext(dist, ok, left, r, l);
      hide NearestSoFar;
      BestIsReached(dist, ok, left, r);
      if ok(l) && (r.None? || Nearer(dist, l, r.value)) {
        r := Some(l);
      }
      left := left - {l};
    }
    if r.Some? {
      NearestIs(dist, ok, r.value);
    }
  }

  lemma BestIsReached(dist: Distances, ok: Location -> bool, left: set<Location>, best: Option<Location>)
    requires NearestSoFar(dist, ok, left, best)
    ensures best.Some? ==> best.value in dist
  {
  }

  method StrongestIn(contacts: seq<Contact>, at: Location) returns (r: Option<Contact>)
    ensures r == Strongest(contacts, at)
  {
    StrongerRanks();
    r := PickFirst(contacts, SeenAt(at), Stronger());
  }

  // ----- Retreat -----

  /** The gap from the cell to the contacts outside the fight, and whether one seen this round holds the cell. */
  method Survey(contacts: seq<Contact>, at: Location, to: Location) returns (gap: int, held: bool)
    requires to.sector == at.sector && to != at
    ensures held <==> exists c :: c in contacts && c.age == 0 && c.element.at == to
    ensures !held ==> gap == GapTo(contacts, at, to.point)
  {
    gap, held := FAR, false;
    for i := 0 to |contacts|
      invariant !held && forall j | 0 <= j < i :: !(contacts[j].age == 0 && contacts[j].element.at == to)
      invariant gap == GapTo(contacts[..i], at, to.point)
    {
      assert contacts[..i + 1][..i] == contacts[..i];
      var c := contacts[i];
      if c.element.at.sector == at.sector && c.element.at != at {
        if c.element.at == to && c.age == 0 {
          assert c in contacts;
          held := true;
          return;
        }
        var here := Gap(c.element.at.point, to.point);
        if here < gap {
          gap := here;
        }
      }
    }
    assert contacts[..|contacts|] == contacts;
  }

  /** The free neighbour of the first `n` directions farthest from any other contact, the first of equals. */
  ghost predicate BestRetreat(grid: Grid, at: Location, contacts: seq<Contact>, own: seq<Element>, n: nat, best: Option<nat>,
                              gap: int)
    requires n <= 4
  {
    if best.None? then gap == -1 && forall e: nat | e < n :: !Free(grid, at, contacts, own, e)
    else
      && best.value < n && Free(grid, at, contacts, own, best.value)
      && gap == GapTo(contacts, at, Neighbour(at.point, best.value))
      && forall e: nat | e < n && Free(grid, at, contacts, own, e) ::
           var there := GapTo(contacts, at, Neighbour(at.point, e)); gap > there || (gap == there && best.value <= e)
  }

  lemma {:induction false} GapIsPositive(contacts: seq<Contact>, at: Location, p: Point)
    ensures GapTo(contacts, at, p) >= 0
  {
    if contacts != [] {
      GapIsPositive(contacts[..|contacts| - 1], at, p);
    }
  }

  lemma OneRetreat(t: Terrain, at: Location, contacts: seq<Contact>, own: seq<Element>, d: nat)
    requires var grid := FindGrid(t, at.sector); grid.Some? && IsRetreatTo(grid.value, at, contacts, own, d)
    ensures RetreatTo(t, at, contacts, own) == Some(Location(at.sector, Neighbour(at.point, d)))
  {
    hide Free, GapTo;
    var grid := FindGrid(t, at.sector).value;
    var e: nat :| IsRetreatTo(grid, at, contacts, own, e)
                  && RetreatTo(t, at, contacts, own) == Some(Location(at.sector, Neighbour(at.point, e)));
  }

  method RetreatFrom(t: Terrain, at: Location, contacts: seq<Contact>, ghost own: seq<Element>, occupied: set<Location>)
    returns (r: Option<Location>)
    requires forall l :: l in occupied <==> Occupied(own, l)
    ensures r == RetreatTo(t, at, contacts, own)
  {
    var grid := FindGrid(t, at.sector);
    if grid.None? {
      return None;
    }
    r := None;
    var gap := -1;
    ghost var best: Option<nat> := None;
    for d := 0 to 4
      invariant BestRetreat(grid.value, at, contacts, own, d, best, gap)
      invariant r == if best.Some? then Some(Location(at.sector, Neighbour(at.point, best.value))) else None
    {
      hide FindGrid, GapTo;
      var to := Location(grid.value.id, Neighbour(at.point, d));
      assert to != at;
      GapIsPositive(contacts, at, to.point);
      if grid.value.Open(to.point) && to !in occupied {
        var there, held := Survey(contacts, at, to);
        if !held && there > gap {
          r, gap, best := Some(to), there, Some(d);
        }
      }
    }
    if best.Some? {
      OneRetreat(t, at, contacts, own, best.value);
    }
  }

  // ----- What the assessment and the standing decisions say -----

  method Opens(objectives: seq<Belief>, faction: string) returns (open: map<Location, bool>)
    ensures forall l :: OpenAt(objectives, faction, l) <==> l in open && open[l]
  {
    open := map[];
    for i := 0 to |objectives|
      invariant forall l :: OpenAt(objectives[..i], faction, l) <==> l in open && open[l]
    {
      assert objectives[..i + 1][..i] == objectives[..i];
      open := open[objectives[i].at := objectives[i].holder != faction];
    }
    assert objectives[..|objectives|] == objectives;
  }

  function Lookup(m: map<Location, int>, l: Location): int { if l in m then m[l] else 0 }

  method OwnStrengths(own: seq<Element>) returns (ours: map<Location, int>)
    ensures forall l :: Lookup(ours, l) == OwnStrength(own, l)
  {
    ours := map[];
    for i := 0 to |own|
      invariant forall l :: Lookup(ours, l) == OwnStrength(own[..i], l)
    {
      assert own[..i + 1][..i] == own[..i];
      ours := ours[own[i].at := Lookup(ours, own[i].at) + own[i].strength];
    }
    assert own[..|own|] == own;
  }

  method EnemyStrengths(contacts: seq<Contact>) returns (theirs: map<Location, int>)
    ensures forall l :: Lookup(theirs, l) == EnemyStrength(contacts, l)
  {
    theirs := map[];
    for i := 0 to |contacts|
      invariant forall l :: Lookup(theirs, l) == EnemyStrength(contacts[..i], l)
    {
      assert contacts[..i + 1][..i] == contacts[..i];
      var c := contacts[i];
      if c.age == 0 {
        theirs := theirs[c.element.at := Lookup(theirs, c.element.at) + c.element.strength];
      }
    }
    assert contacts[..|contacts|] == contacts;
  }

  ghost predicate IsWas(standing: seq<Decision>, was: map<string, Decision>) {
    forall id :: WasOf(standing, id) == if id in was then Some(was[id]) else None
  }

  method StandingById(standing: seq<Decision>) returns (was: map<string, Decision>)
    ensures IsWas(standing, was)
  {
    was := map[];
    for i := 0 to |standing|
      invariant IsWas(standing[..i], was)
    {
      assert standing[..i + 1][..i] == standing[..i];
      was := was[standing[i].element := standing[i]];
    }
    assert standing[..|standing|] == standing;
  }

  method CellsOf(own: seq<Element>) returns (cells: set<Location>)
    ensures forall l :: l in cells <==> Occupied(own, l)
  {
    cells := {};
    for i := 0 to |own|
      invariant forall l :: l in cells <==> exists j :: 0 <= j < i && own[j].at == l
    {
      cells := cells + {own[i].at};
    }
    forall l ensures l in cells <==> Occupied(own, l) {
      if j :| 0 <= j < |own| && own[j].at == l {
        assert own[j] in own;
      }
    }
  }

  method MeasureAll(t: Terrain, own: seq<Element>) returns (dist: seq<Distances>)
    ensures |dist| == |own| && forall i | 0 <= i < |own| :: AreDistances(Route.StepsOn(t), own[i].at, dist[i])
  {
    dist := [];
    for i := 0 to |own|
      invariant |dist| == i && forall j | 0 <= j < i :: AreDistances(Route.StepsOn(t), own[j].at, dist[j])
    {
      hide AreDistances;
      var here := Distancing.Distances(t, own[i].at);
      dist := dist + [here];
    }
  }

  // ----- The plan -----

  /** The decisions so far, beside what every rule reads. */
  function CellsIn(ls: seq<Location>): set<Location> {
    set l | l in ls
  }

  lemma CellsNext(ls: seq<Location>, at: Location)
    ensures CellsIn(ls + [at]) == CellsIn(ls) + {at}
  {
  }

  /** One element's turn to choose a goal's target. */
  lemma ChoosingTurn(g: Ground, standing: seq<Decision>, goal: Goal, s: Claims, i: nat)
    requires Sized(g, s) && i < |s.ds|
    ensures var at := Chosen(g, goal, i, s.claimed);
            Turn(g, standing, Choosing(goal), s, i)
            == if s.ds[i].Some? || at.None? then s
               else Claims(s.ds[i := Some(Decision(g.own[i].id, RuleOf(goal), "", at))], s.claimed + {at.value})
  {
    hide Chosen;
  }

  class Plan {
    const t: Terrain
    const faction: string
    const own: seq<Element>
    const dist: seq<Distances>
    const contacts: seq<Contact>
    const objectives: seq<Belief>
    const explored: set<Location>
    const open: map<Location, bool>
    const occupied: set<Location>
    const ours: map<Location, int>
    const theirs: map<Location, int>
    const was: map<string, Decision>
    var decisions: seq<Option<Decision>>

    ghost function Facts(): Ground {
      Ground(t, faction, own, dist, contacts, objectives, explored)
    }

    /** The indexes say what the lists they were made from say. */
    ghost predicate Indexed(standing: seq<Decision>) {
      && |own| == |dist|
      && (forall l :: OpenAt(objectives, faction, l) <==> l in open && open[l])
      && (forall l :: l in occupied <==> Occupied(own, l))
      && (forall l :: Lookup(ours, l) == OwnStrength(own, l))
      && (forall l :: Lookup(theirs, l) == EnemyStrength(contacts, l))
      && IsWas(standing, was)
    }

    ghost function Claimed(claimed: set<Location>): Claims
      reads this
    {
      Claims(decisions, claimed)
    }

    constructor (t: Terrain, faction: string, own: seq<Element>, dist: seq<Distances>, p: Picture, cells: set<Location>,
                 open: map<Location, bool>, ours: map<Location, int>, theirs: map<Location, int>, was: map<string, Decision>)
      ensures Facts() == Ground(t, faction, own, dist, p.contacts, p.objectives, p.explored + cells)
      ensures this.open == open && occupied == cells && this.ours == ours && this.theirs == theirs && this.was == was
      ensures decisions == seq(|own|, _ => None)
    {
      this.t, this.faction, this.own, this.dist, contacts, objectives := t, faction, own, dist, p.contacts, p.objectives;
      explored, occupied, this.open, this.ours, this.theirs, this.was := p.explored + cells, cells, open, ours, theirs, was;
      decisions := seq(|own|, _ => None);
    }

    /** Decides each engaged element's fight; returns the cells held in one. */
    method Fight(ghost standing: seq<Decision>) returns (fights: set<Location>)
      requires Indexed(standing) && decisions == seq(|own|, _ => None)
      modifies `decisions
      ensures decisions == seq(|own|, i requires 0 <= i < |own| => FightOf(Facts(), own[i]))
      ensures fights == Fights(Facts())
    {
      fights := {};
      for i := 0 to |own|
        invariant |decisions| == |own| && forall j | 0 <= j < |own| :: decisions[j] == if j < i then FightOf(Facts(), own[j]) else None
        invariant forall l :: l in fights <==> exists j :: 0 <= j < i && own[j].at == l && HoldsOn(Facts(), own[j])
      {
        var d, holds := FightFor(standing, own[i]);
        hide FightOf, HoldsOn;
        decisions := decisions[i := d];
        if holds {
          fights := fights + {own[i].at};
        }
      }
      FightsAreHeld(Facts(), fights);
    }

    method FightFor(ghost standing: seq<Decision>, e: Element) returns (d: Option<Decision>, holds: bool)
      requires Indexed(standing)
      ensures d == FightOf(Facts(), e) && holds == HoldsOn(Facts(), e)
    {
      var enemy := StrongestIn(contacts, e.at);
      var us, them := Lookup(ours, e.at), Lookup(theirs, e.at);
      assert us == OwnStrength(own, e.at) && them == EnemyStrength(contacts, e.at);
      hide Strongest, OwnStrength, EnemyStrength, IsWas, OpenAt;
      if e.status != Engaged || enemy.None? {
        return None, false;
      }
      if e.kind.Scout? || 3 * us < 2 * them {
        var to := RetreatFrom(t, e.at, contacts, own, occupied);
        if to.Some? {
          return Some(Decision(e.id, Retreat, enemy.value.element.id, to)), false;
        }
      }
      d := Some(Decision(e.id, if us >= them then Pursue else Engage, enemy.value.element.id, Some(e.at)));
      holds := true;
    }

    method Reinforce(e: Element, dist: Distances, fights: set<Location>) returns (d: Option<Decision>)
      requires fights == Fights(Facts())
      ensures d == Reinforcement(Facts(), e, dist)
    {
      hide Fights, Nearest;
      if !e.kind.Squad? || !(e.status.Ready? || e.status.Recovering?) {
        return None;
      }
      var at := NearestIn(dist, InReach(fights, dist, REINFORCE_RANGE));
      if at.None? {
        return None;
      }
      var enemy := StrongestIn(contacts, at.value);
      d := Some(Decision(e.id, Rule.Reinforce, if enemy.Some? then enemy.value.element.id else "", at));
    }

    method EngageFor(e: Element, dist: Distances) returns (d: Option<Decision>)
      ensures d == Engagement(Facts(), e, dist)
    {
      hide FirstBest;
      if !e.kind.Squad? {
        return None;
      }
      CloserRanks(dist);
      var c := PickFirst(contacts, Weaker(e, dist), Closer(dist));
      d := if c.None? then None else Some(Decision(e.id, Engage, c.value.element.id, Some(c.value.element.at)));
    }

    /** The fighting: who fights where, then who joins a fight. */
    method DecideFighting(ghost standing: seq<Decision>)
      requires Indexed(standing) && decisions == seq(|own|, _ => None)
      modifies `decisions
      ensures Claimed({}) == Early(Facts())
    {
      var fights := Fight(standing);
      for i := 0 to |own|
        invariant |decisions| == |own|
        invariant forall j | 0 <= j < i :: decisions[j] == Fighting(Facts(), own[j], dist[j])
        invariant forall j | i <= j < |own| :: decisions[j] == FightOf(Facts(), own[j])
      {
        hide FightOf, Reinforcement, Engagement, Fights;
        if decisions[i].None? {
          var d := Reinforce(own[i], dist[i], fights);
          if d.None? {
            d := EngageFor(own[i], dist[i]);
          }
          decisions := decisions[i := d];
        }
      }
      hide Fighting;
      assert decisions == Early(Facts()).ds;
    }

    /** Which scouts still have an unexplored cell in their reach. */
    method SearchingScouts(ghost standing: seq<Decision>) returns (searches: seq<bool>)
      requires Indexed(standing)
      ensures |searches| == |own| && forall i | 0 <= i < |own| :: searches[i] == Searches(Facts(), i)
    {
      searches := [];
      for i := 0 to |own|
        invariant |searches| == i && forall j | 0 <= j < i :: searches[j] == Searches(Facts(), j)
      {
        var found := false;
        if own[i].kind.Scout? {
          var at := NearestIn(dist[i], Unknown(explored));
          found := at.Some?;
        }
        hide Searches, Nearest;
        assert found == Searches(Facts(), i) by {
          SearchesIs(Facts(), i);
        }
        searches := searches + [found];
      }
    }

    /** An element standing on an objective to secure claims it first. */
    method StandOnTargets(ghost standing: seq<Decision>, searches: seq<bool>) returns (claimed: set<Location>)
      requires Indexed(standing) && |decisions| == |own|
      requires |searches| == |own| && forall i | 0 <= i < |own| :: searches[i] == Searches(Facts(), i)
      modifies `decisions
      ensures Claimed(claimed) == Whole(Facts(), standing, Pass.Standing, old(Claimed({})))
    {
      ghost var start := Claimed({});
      claimed := {};
      for i := 0 to |own|
        invariant |decisions| == |own|
        invariant Claimed(claimed) == Passed(Facts(), standing, Pass.Standing, start, i)
      {
        hide Searches, OpenAt;
        var e := own[i];
        if decisions[i].None? && !searches[i] && e.at in open && open[e.at] && e.at !in claimed {
          decisions := decisions[i := Some(Decision(e.id, Secure, "", Some(e.at)))];
          claimed := claimed + {e.at};
        }
      }
    }

    /** Whether the element's pass may send it for the goal. */
    method MayGo(ghost standing: seq<Decision>, goal: Goal, searches: seq<bool>, i: nat) returns (may: bool)
      requires Indexed(standing) && i < |own|
      requires |searches| == |own| && forall j | 0 <= j < |own| :: searches[j] == Searches(Facts(), j)
      ensures may == May(Facts(), goal, i)
    {
      hide Searches;
      may := match goal case Securing => !searches[i] case Searching(kind) => own[i].kind == kind case Rescouting => true;
    }

    method StillWants(ghost standing: seq<Decision>, goal: Goal, e: Element, at: Location) returns (wants: bool)
      requires Indexed(standing)
      ensures wants == Wants(Facts(), goal, e, at)
    {
      hide OpenAt;
      var isOpen := at in open && open[at];
      wants := match goal case Securing => isOpen case Searching(_) => at !in explored case Rescouting => isOpen && at != e.at;
    }

    /** Gives each undecided element its standing target again, while it is still one to go to; returns those kept. */
    method Keep(ghost standing: seq<Decision>, goal: Goal, claimed: set<Location>, searches: seq<bool>)
      returns (claims: set<Location>, kept: seq<Location>)
      requires Indexed(standing) && |decisions| == |own|
      requires |searches| == |own| && forall i | 0 <= i < |own| :: searches[i] == Searches(Facts(), i)
      modifies `decisions
      ensures Claimed(claims) == Whole(Facts(), standing, Keeping(goal), old(Claimed(claimed)))
      ensures claims == claimed + set l | l in kept
    {
      ghost var start := Claimed(claimed);
      claims, kept := claimed, [];
      for i := 0 to |own|
        invariant |decisions| == |own| && claims == claimed + set l | l in kept
        invariant Claimed(claims) == Passed(Facts(), standing, Keeping(goal), start, i)
      {
        var at := KeptTarget(standing, goal, claims, searches, i);
        hide Deciding.Kept, Searches;
        if decisions[i].None? && at.Some? {
          decisions := decisions[i := Some(Decision(own[i].id, RuleOf(goal), "", at))];
          claims := claims + {at.value};
          kept := kept + [at.value];
        }
      }
    }

    method KeptTarget(ghost standing: seq<Decision>, goal: Goal, claims: set<Location>, searches: seq<bool>, i: nat)
      returns (at: Option<Location>)
      requires Indexed(standing) && i < |own|
      requires |searches| == |own| && forall j | 0 <= j < |own| :: searches[j] == Searches(Facts(), j)
      ensures at == Deciding.Kept(Facts(), standing, goal, i, claims)
    {
      var may := MayGo(standing, goal, searches, i);
      ghost var stood := WasOf(standing, own[i].id);
      hide May, Wants, WasOf;
      if !may || own[i].id !in was {
        return None;
      }
      var d := was[own[i].id];
      assert stood == Some(d);
      if d.rule != RuleOf(goal) || d.target.None? {
        return None;
      }
      var wants := StillWants(standing, goal, own[i], d.target.value);
      at := if d.target.value in dist[i] && wants && d.target.value !in claims then d.target else None;
    }

    /** The nearest objective to secure that nobody has claimed. */
    method ChooseObjectives(ghost standing: seq<Decision>, claimed: set<Location>, searches: seq<bool>)
      returns (claims: set<Location>)
      requires Indexed(standing) && |decisions| == |own|
      requires |searches| == |own| && forall i | 0 <= i < |own| :: searches[i] == Searches(Facts(), i)
      modifies `decisions
      ensures Claimed(claims) == Whole(Facts(), standing, Choosing(Securing), old(Claimed(claimed)))
    {
      ghost var start := Claimed(claimed);
      claims := claimed;
      PassedNone(Facts(), standing, Choosing(Securing), start);
      for i := 0 to |own|
        invariant |decisions| == |own|
        invariant Claimed(claims) == Passed(Facts(), standing, Choosing(Securing), start, i)
      {
        assert |own| == |dist|;
        hide Chosen, Searches, Indexed, Passed, Turn;
        PassedNext(Facts(), standing, Choosing(Securing), start, i + 1);
        ghost var before := Claimed(claims);
        ChoosingTurn(Facts(), standing, Securing, before, i);
        if decisions[i].None? {
          var at := ObjectiveFor(standing, claims, searches, i);
          if at.Some? {
            decisions := decisions[i := Some(Decision(own[i].id, Secure, "", at))];
            claims := claims + {at.value};
          }
        }
      }
    }

    method ObjectiveFor(ghost standing: seq<Decision>, claims: set<Location>, searches: seq<bool>, i: nat)
      returns (at: Option<Location>)
      requires Indexed(standing) && i < |own|
      requires |searches| == |own| && forall j | 0 <= j < |own| :: searches[j] == Searches(Facts(), j)
      ensures at == Chosen(Facts(), Securing, i, claims)
    {
      hide Searches, Nearest, OpenAt;
      if searches[i] {
        return None;
      }
      var isOpen := open;
      var ok := (l: Location) => l in isOpen && isOpen[l] && l !in claims;
      NearestAlike(dist[i], ok, Unclaimed(Facts(), Securing, own[i], claims));
      at := NearestIn(dist[i], ok);
    }

    /** The nearest unexplored cell clear of every search target so far, or else the nearest nobody has claimed. */
    method ChooseCells(ghost standing: seq<Decision>, kind: Kind, sought: set<Location>, listed: seq<Location>)
      returns (claims: set<Location>, targets: seq<Location>)
      requires Indexed(standing) && |decisions| == |own| && sought == CellsIn(listed)
      modifies `decisions
      ensures Claimed(claims) == Whole(Facts(), standing, Choosing(Searching(kind)), old(Claimed(sought)))
      ensures claims == CellsIn(targets)
    {
      ghost var start := Claimed(sought);
      claims, targets := sought, listed;
      PassedNone(Facts(), standing, Choosing(Searching(kind)), start);
      for i := 0 to |own|
        invariant |decisions| == |own| && claims == CellsIn(targets)
        invariant Claimed(claims) == Passed(Facts(), standing, Choosing(Searching(kind)), start, i)
      {
        hide Indexed, Passed, Turn, CellsIn;
        PassedNext(Facts(), standing, Choosing(Searching(kind)), start, i + 1);
        claims, targets := ChooseCell(standing, kind, claims, targets, i);
      }
    }

    /** One element's turn to search. */
    method ChooseCell(ghost standing: seq<Decision>, kind: Kind, sought: set<Location>, listed: seq<Location>, i: nat)
      returns (claims: set<Location>, targets: seq<Location>)
      requires Indexed(standing) && i < |own| == |decisions| && sought == CellsIn(listed)
      modifies `decisions
      ensures |decisions| == |own| && claims == CellsIn(targets)
      ensures Claimed(claims) == Turn(Facts(), standing, Choosing(Searching(kind)), old(Claimed(sought)), i)
    {
      assert |own| == |dist|;
      hide Chosen, Indexed, Turn, CellsIn;
      claims, targets := sought, listed;
      ChoosingTurn(Facts(), standing, Searching(kind), Claimed(sought), i);
      if decisions[i].None? {
        var at := CellFor(standing, kind, claims, targets, i);
        if at.Some? {
          CellsNext(targets, at.value);
          decisions := decisions[i := Some(Decision(own[i].id, Search, "", at))];
          claims, targets := claims + {at.value}, targets + [at.value];
        }
      }
    }

    method CellFor(ghost standing: seq<Decision>, kind: Kind, claims: set<Location>, targets: seq<Location>, i: nat)
      returns (at: Option<Location>)
      requires Indexed(standing) && i < |own| && claims == CellsIn(targets)
      ensures at == Chosen(Facts(), Searching(kind), i, claims)
    {
      hide Nearest;
      if own[i].kind != kind {
        return None;
      }
      var seen := explored;
      var free := (l: Location) => l !in seen && l !in claims;
      var clear := (l: Location) => l !in seen && l !in claims && forall t | t in targets :: t.sector == l.sector ==> Gap(t.point, l.point) > SPREAD_RANGE;
      NearestAlike(dist[i], clear, Spread(Facts(), Searching(kind), own[i], claims));
      NearestAlike(dist[i], free, Unclaimed(Facts(), Searching(kind), own[i], claims));
      at := NearestIn(dist[i], clear);
      if at.None? {
        at := NearestIn(dist[i], free);
      }
    }

    /** The objective seen longest ago that no other element rescouts. */
    method ChooseStalest(ghost standing: seq<Decision>, claimed: set<Location>) returns (claims: set<Location>)
      requires Indexed(standing) && |decisions| == |own|
      modifies `decisions
      ensures Claimed(claims) == Whole(Facts(), standing, Choosing(Rescouting), old(Claimed(claimed)))
    {
      ghost var start := Claimed(claimed);
      claims := claimed;
      PassedNone(Facts(), standing, Choosing(Rescouting), start);
      for i := 0 to |own|
        invariant |decisions| == |own|
        invariant Claimed(claims) == Passed(Facts(), standing, Choosing(Rescouting), start, i)
      {
        assert |own| == |dist|;
        hide Chosen, Indexed, Passed, Turn;
        PassedNext(Facts(), standing, Choosing(Rescouting), start, i + 1);
        ghost var before := Claimed(claims);
        ChoosingTurn(Facts(), standing, Rescouting, before, i);
        if decisions[i].None? {
          var at := StalestFor(standing, claims, i);
          if at.Some? {
            decisions := decisions[i := Some(Decision(own[i].id, Rescout, "", at))];
            claims := claims + {at.value};
          }
        }
      }
    }

    method StalestFor(ghost standing: seq<Decision>, claims: set<Location>, i: nat) returns (at: Option<Location>)
      requires Indexed(standing) && i < |own|
      ensures at == Chosen(Facts(), Rescouting, i, claims)
    {
      hide FirstBest, OpenAt;
      var isOpen, here, reach := open, own[i].at, dist[i];
      var ok := (o: Belief) => o.at in reach && o.at in isOpen && isOpen[o.at] && o.at != here && o.at !in claims;
      FirstBestAlike(objectives, ok, Stale(Facts(), own[i], reach, claims), Staler(reach));
      StalerRanks(reach);
      var o := PickFirst(objectives, ok, Staler(reach));
      at := if o.Some? then Some(o.value.at) else None;
    }

    /** What no rule has claimed holds. */
    method Finish(ghost standing: seq<Decision>) returns (ds: seq<Decision>)
      requires Indexed(standing) && decisions == Rescouted(Facts(), standing).ds
      ensures ds == Decided(Facts(), standing)
    {
      hide Rescouted;
      ds := [];
      for i := 0 to |own|
        invariant |ds| == i && forall j | 0 <= j < i :: ds[j] == Decided(Facts(), standing)[j]
      {
        ds := ds + [if decisions[i].Some? then decisions[i].value else Decision(own[i].id, Hold, "", None)];
      }
    }
  }

  lemma NearestAlike(dist: Distances, a: Location -> bool, b: Location -> bool)
    requires forall l :: a(l) == b(l)
    ensures Nearest(dist, a) == Nearest(dist, b)
  {
    assert forall at :: IsNearest(dist, a, at) <==> IsNearest(dist, b, at);
    if at: Location :| IsNearest(dist, a, at) {
      NearestIs(dist, a, at);
      NearestIs(dist, b, at);
    }
  }

  lemma FirstBestAlike<T(!new)>(xs: seq<T>, a: T -> bool, b: T -> bool, better: (T, T) -> bool)
    requires forall x :: a(x) == b(x)
    ensures FirstBest(xs, a, better) == FirstBest(xs, b, better)
  {
    assert forall i :: IsFirstBest(xs, a, better, i) <==> IsFirstBest(xs, b, better, i);
    if i: int :| IsFirstBest(xs, a, better, i) {
      FirstBestIs(xs, a, better, i);
      FirstBestIs(xs, b, better, i);
    }
  }

  ghost predicate HoldsOn(g: Ground, e: Element) {
    FightOf(g, e).Some? && FightOf(g, e).value.rule != Retreat
  }

  lemma FightsAreHeld(g: Ground, fights: set<Location>)
    requires forall l :: l in fights <==> exists j :: 0 <= j < |g.own| && g.own[j].at == l && HoldsOn(g, g.own[j])
    ensures fights == Fights(g)
  {
    hide FightOf;
    forall l ensures l in fights <==> l in Fights(g) {
      if j :| 0 <= j < |g.own| && g.own[j].at == l && HoldsOn(g, g.own[j]) {
        assert g.own[j] in g.own && FightsAt(g, l);
      }
    }
  }

  function Unknown(explored: set<Location>): Location -> bool {
    (l: Location) => l !in explored
  }

  lemma AnyUnknown(g: Ground, i: nat)
    requires i < |g.own| == |g.dist|
    ensures Nearest(g.dist[i], Unknown(g.explored)).Some? <==> Unexplored(g, i)
  {
    if Nearest(g.dist[i], Unknown(g.explored)).Some? {
      NearestSome(g.dist[i], Unknown(g.explored));
    } else {
      NearestNone(g.dist[i], Unknown(g.explored));
      assert forall l | l in g.dist[i] :: !Unknown(g.explored)(l);
    }
  }

  lemma SearchesIs(g: Ground, i: nat)
    requires i < |g.own| == |g.dist|
    ensures Searches(g, i) <==> g.own[i].kind.Scout? && Nearest(g.dist[i], Unknown(g.explored)).Some?
  {
    AnyUnknown(g, i);
  }

  // ----- Deciding -----

  /** The plan for the faction's elements on the assessment, with no element decided yet. */
  method NewPlan(t: Terrain, faction: string, p: Picture, standing: seq<Decision>) returns (plan: Plan)
    ensures fresh(plan) && IsGround(t, faction, p, plan.Facts()) && plan.Indexed(standing)
    ensures plan.decisions == seq(|plan.own|, _ => None)
  {
    var own := SortBy(p.own, IdOf);
    var dist := MeasureAll(t, own);
    var cells := CellsOf(own);
    var open := Opens(p.objectives, faction);
    var ours := OwnStrengths(own);
    var theirs := EnemyStrengths(p.contacts);
    var was := StandingById(standing);
    hide AreDistances, IsWas, OpenAt, OwnStrength, EnemyStrength;
    plan := new Plan(t, faction, own, dist, p, cells, open, ours, theirs, was);
    assert cells == set e | e in own :: e.at by {
      assert forall l :: l in cells <==> exists e :: e in own && e.at == l;
    }
  }

  /** A decision for each of the assessment's own elements, in ID order. */
  method Decide(t: Terrain, faction: string, p: Picture, standing: seq<Decision>)
    returns (ds: seq<Decision>, ghost g: Ground)
    ensures IsGround(t, faction, p, g) && ds == Decided(g, standing)
    ensures exists ground :: IsGround(t, faction, p, ground) && ds == Decided(ground, standing)
  {
    var plan := NewPlan(t, faction, p, standing);
    g := plan.Facts();
    hide Whole, Early, Decided, IsGround, Plan.Indexed, Searches;
    plan.DecideFighting(standing);
    var searches := plan.SearchingScouts(standing);
    var claimed := plan.StandOnTargets(standing, searches);
    var kept;
    claimed, kept := plan.Keep(standing, Securing, claimed, searches);
    claimed := plan.ChooseObjectives(standing, claimed, searches);
    assert plan.Claimed(claimed) == Secured(g, standing);
    var sought := DecideSearches(plan, standing, searches);
    assert plan.Claimed(sought) == Searched(g, standing);
    var rescouted;
    rescouted, kept := plan.Keep(standing, Rescouting, {}, searches);
    rescouted := plan.ChooseStalest(standing, rescouted);
    ds := plan.Finish(standing);
  }

  /** Scouts search before squads, and each kind's standing targets before its new ones. */
  method DecideSearches(plan: Plan, ghost standing: seq<Decision>, searches: seq<bool>) returns (sought: set<Location>)
    requires plan.Indexed(standing) && plan.decisions == Secured(plan.Facts(), standing).ds
    requires |searches| == |plan.own| && forall i | 0 <= i < |plan.own| :: searches[i] == Searches(plan.Facts(), i)
    modifies plan`decisions
    ensures plan.Claimed(sought) == Searched(plan.Facts(), standing)
  {
    hide Whole, Secured, Plan.Indexed, Searches;
    var kept, targets;
    sought, kept := plan.Keep(standing, Searching(Scout), {}, searches);
    sought, targets := plan.ChooseCells(standing, Scout, sought, kept);
    sought, kept := plan.Keep(standing, Searching(Squad), sought, searches);
    sought, targets := plan.ChooseCells(standing, Squad, sought, targets + kept);
  }
}
