/** What command decides of an assessment, rule by rule, and why deciding again on its own decisions changes nothing. */
module Deciding {
  import opened World
  import opened State
  import opened Fusion
  import opened Terrain
  import opened Search
  import opened Observing
  import Route
  import opened Sorting
  import Keys

  const ENGAGE_RANGE := 3
  const REINFORCE_RANGE := 4
  const SPREAD_RANGE := 2

  /** What command directs one element to do; the contact is "" and the target none where the rule has none. */
  datatype Decision = Decision(element: string, rule: Rule, contact: string, target: Option<Location>)

  type Distances = map<Location, nat>

  /** What every rule reads: the elements in ID order, how far each is from what it reaches, and the assessment. */
  datatype Ground = Ground(t: Terrain, faction: string, own: seq<Element>, dist: seq<Distances>, contacts: seq<Contact>,
                           objectives: seq<Belief>, explored: set<Location>)

  // ----- The ground -----

  /** How far each cell is that a walk reaches, and no other. */
  ghost predicate AreDistances(steps: Graph, from: Location, dist: Distances) {
    && (forall l :: l in dist <==> Route.BestPath(steps, from, l).Some?)
    && (forall l | l in dist :: dist[l] == |Route.BestPath(steps, from, l).value|)
  }

  lemma DistancesUnique(steps: Graph, from: Location, a: Distances, b: Distances)
    requires AreDistances(steps, from, a) && AreDistances(steps, from, b)
    ensures a == b
  {
    assert forall l :: l in a <==> l in b;
  }

  ghost predicate IsGround(t: Terrain, faction: string, p: Picture, g: Ground) {
    && g.t == t && g.faction == faction && g.contacts == p.contacts && g.objectives == p.objectives
    && g.own == SortBy(p.own, IdOf)
    && |g.dist| == |g.own| && (forall i | 0 <= i < |g.own| :: AreDistances(Route.StepsOn(t), g.own[i].at, g.dist[i]))
    && g.explored == p.explored + set e | e in g.own :: e.at
  }

  lemma GroundUnique(t: Terrain, faction: string, p: Picture, g: Ground, h: Ground)
    requires IsGround(t, faction, p, g) && IsGround(t, faction, p, h)
    ensures g == h
  {
    forall i | 0 <= i < |g.dist| ensures g.dist[i] == h.dist[i] {
      DistancesUnique(Route.StepsOn(t), g.own[i].at, g.dist[i], h.dist[i]);
    }
  }

  /** The objective at the cell, as last listed, is not the faction's. */
  predicate OpenAt(objectives: seq<Belief>, faction: string, l: Location) {
    objectives != []
    && var o := objectives[|objectives| - 1];
       if o.at == l then o.holder != faction else OpenAt(objectives[..|objectives| - 1], faction, l)
  }

  /** The strength the faction's elements have in the cell. */
  function OwnStrength(own: seq<Element>, l: Location): int {
    if own == [] then 0
    else OwnStrength(own[..|own| - 1], l) + if own[|own| - 1].at == l then own[|own| - 1].strength else 0
  }

  /** The strength the contacts seen this round have in the cell. */
  function EnemyStrength(contacts: seq<Contact>, l: Location): int {
    if contacts == [] then 0
    else
      var c := contacts[|contacts| - 1];
      EnemyStrength(contacts[..|contacts| - 1], l) + if c.age == 0 && c.element.at == l then c.element.strength else 0
  }

  predicate Occupied(own: seq<Element>, l: Location) {
    exists e :: e in own && e.at == l
  }

  // ----- The best of a list, and the nearest of a reach -----

  /** The first of the list's accepted items that none is better than. */
  ghost predicate IsFirstBest<T(!new)>(xs: seq<T>, ok: T -> bool, better: (T, T) -> bool, i: int) {
    && 0 <= i < |xs| && ok(xs[i])
    && (forall j | 0 <= j < |xs| && ok(xs[j]) :: !better(xs[j], xs[i]))
    && (forall j | 0 <= j < i && ok(xs[j]) :: better(xs[i], xs[j]))
  }

  ghost function FirstBest<T(!new)>(xs: seq<T>, ok: T -> bool, better: (T, T) -> bool): Option<T> {
    if i: int :| IsFirstBest(xs, ok, better, i) then Some(xs[i]) else None
  }

  lemma FirstBestIs<T(!new)>(xs: seq<T>, ok: T -> bool, better: (T, T) -> bool, i: int)
    requires IsFirstBest(xs, ok, better, i)
    ensures FirstBest(xs, ok, better) == Some(xs[i])
  {
    var j: int :| IsFirstBest(xs, ok, better, j) && FirstBest(xs, ok, better) == Some(xs[j]);
    OneFirstBest(xs, ok, better, i, j);
  }

  lemma OneFirstBest<T(!new)>(xs: seq<T>, ok: T -> bool, better: (T, T) -> bool, i: int, j: int)
    requires IsFirstBest(xs, ok, better, i) && IsFirstBest(xs, ok, better, j)
    ensures i == j
  {
  }

  /** A better item is better than all its equals are: what makes one pass over a list find the best. */
  ghost predicate Ranks<T(!new)>(better: (T, T) -> bool) {
    && (forall x, y :: better(x, y) ==> !better(y, x))
    && (forall x, y, z :: better(x, y) && !better(z, y) ==> better(x, z))
  }

  /** The nearest accepted cell, of those the least by key. */
  ghost predicate IsNearest(dist: Distances, ok: Location -> bool, at: Location) {
    && at in dist && ok(at)
    && forall l | l in dist && ok(l) :: dist[at] < dist[l] || (dist[at] == dist[l] && (l == at || Keys.Less(at.Key(), l.Key())))
  }

  ghost function Nearest(dist: Distances, ok: Location -> bool): Option<Location> {
    if at: Location :| IsNearest(dist, ok, at) then Some(at) else None
  }

  lemma NearestIs(dist: Distances, ok: Location -> bool, at: Location)
    requires IsNearest(dist, ok, at)
    ensures Nearest(dist, ok) == Some(at)
  {
    var l: Location :| IsNearest(dist, ok, l) && Nearest(dist, ok) == Some(l);
    if l != at {
      Keys.LessTotal(l.Key(), at.Key());
    }
  }

  ghost function FoundIn(dist: Distances, ok: Location -> bool): set<Location> {
    set l | l in dist && ok(l)
  }

  // ----- Fights -----

  function SeenAt(at: Location): Contact -> bool { (c: Contact) => c.age == 0 && c.element.at == at }

  function Stronger(): (Contact, Contact) -> bool {
    (c: Contact, d: Contact) =>
      c.element.strength > d.element.strength
      || (c.element.strength == d.element.strength && Keys.Less(c.element.id, d.element.id))
  }

  /** The strongest contact seen this round in the cell, of equals the one of least ID. */
  ghost function Strongest(contacts: seq<Contact>, at: Location): Option<Contact> {
    FirstBest(contacts, SeenAt(at), Stronger())
  }

  ghost function StrongestId(contacts: seq<Contact>, at: Location): string {
    var c := Strongest(contacts, at);
    if c.Some? then c.value.element.id else ""
  }

  const FAR := 0x7FFF_FFFF_FFFF_FFFF

  /** How near the nearest contact of the sector outside the fight is. */
  function GapTo(contacts: seq<Contact>, at: Location, p: Point): int {
    if contacts == [] then FAR
    else
      var c := contacts[|contacts| - 1].element.at;
      var rest := GapTo(contacts[..|contacts| - 1], at, p);
      if c.sector != at.sector || c == at || Gap(c.point, p) >= rest then rest else Gap(c.point, p)
  }

  /** The neighbour is open and nobody known is in it. */
  predicate Free(grid: Grid, at: Location, contacts: seq<Contact>, own: seq<Element>, d: nat)
    requires d < 4
  {
    var to := Location(grid.id, Neighbour(at.point, d));
    grid.Open(to.point) && !Occupied(own, to) && !(exists c :: c in contacts && c.age == 0 && c.element.at == to)
  }

  /** The first of the free neighbours farthest from any other contact. */
  ghost predicate IsRetreatTo(grid: Grid, at: Location, contacts: seq<Contact>, own: seq<Element>, d: nat) {
    && d < 4 && Free(grid, at, contacts, own, d)
    && forall e: nat | e < 4 && Free(grid, at, contacts, own, e) ::
         var here, there := GapTo(contacts, at, Neighbour(at.point, d)), GapTo(contacts, at, Neighbour(at.point, e));
         here > there || (here == there && d <= e)
  }

  ghost function RetreatTo(t: Terrain, at: Location, contacts: seq<Contact>, own: seq<Element>): Option<Location> {
    var grid := FindGrid(t, at.sector);
    if grid.None? then None
    else if d: nat :| IsRetreatTo(grid.value, at, contacts, own, d) then Some(Location(at.sector, Neighbour(at.point, d)))
    else None
  }

  ghost function FightOf(g: Ground, e: Element): Option<Decision> {
    var enemy := Strongest(g.contacts, e.at);
    var ours, theirs := OwnStrength(g.own, e.at), EnemyStrength(g.contacts, e.at);
    var to := RetreatTo(g.t, e.at, g.contacts, g.own);
    if !e.status.Engaged? || enemy.None? then None
    else if (e.kind.Scout? || 3 * ours < 2 * theirs) && to.Some? then
      Some(Decision(e.id, Retreat, enemy.value.element.id, to))
    else Some(Decision(e.id, if ours >= theirs then Pursue else Engage, enemy.value.element.id, Some(e.at)))
  }

  ghost predicate FightsAt(g: Ground, l: Location) {
    exists e :: e in g.own && e.at == l && FightOf(g, e).Some? && FightOf(g, e).value.rule != Retreat
  }

  ghost function Fights(g: Ground): set<Location> {
    set e | e in g.own && FightsAt(g, e.at) :: e.at
  }

  function InReach(cells: set<Location>, dist: Distances, range: nat): Location -> bool {
    (l: Location) => l in cells && l in dist && dist[l] <= range
  }

  ghost function Reinforcement(g: Ground, e: Element, dist: Distances): Option<Decision> {
    if !e.kind.Squad? || !(e.status.Ready? || e.status.Recovering?) then None
    else
      var at := Nearest(dist, InReach(Fights(g), dist, REINFORCE_RANGE));
      if at.None? then None else Some(Decision(e.id, Reinforce, StrongestId(g.contacts, at.value), at))
  }

  function Weaker(e: Element, dist: Distances): Contact -> bool {
    (c: Contact) => c.element.at in dist && dist[c.element.at] <= ENGAGE_RANGE && c.element.strength < e.strength
  }

  function DistanceTo(dist: Distances, l: Location): int { if l in dist then dist[l] else 0 }

  function Closer(dist: Distances): (Contact, Contact) -> bool {
    (c: Contact, d: Contact) =>
      var n, m := DistanceTo(dist, c.element.at), DistanceTo(dist, d.element.at);
      n < m || (n == m && Keys.Less(c.element.id, d.element.id))
  }

  ghost function Engagement(g: Ground, e: Element, dist: Distances): Option<Decision> {
    var c := FirstBest(g.contacts, Weaker(e, dist), Closer(dist));
    if !e.kind.Squad? || c.None? then None
    else Some(Decision(e.id, Engage, c.value.element.id, Some(c.value.element.at)))
  }

  /** An element's part in the fighting, if it has one. */
  ghost function Fighting(g: Ground, e: Element, dist: Distances): Option<Decision> {
    if FightOf(g, e).Some? then FightOf(g, e)
    else if Reinforcement(g, e, dist).Some? then Reinforcement(g, e, dist)
    else Engagement(g, e, dist)
  }

  // ----- Targets -----

  /** What an element without a fight is sent to do. */
  datatype Goal = Securing | Searching(kind: Kind) | Rescouting

  function RuleOf(goal: Goal): Rule {
    match goal
    case Securing => Secure
    case Searching(_) => Search
    case Rescouting => Rescout
  }

  predicate Unexplored(g: Ground, i: nat)
    requires i < |g.dist|
  {
    exists l :: l in g.dist[i] && l !in g.explored
  }

  /** A scout searches while an unexplored cell is in its reach. */
  predicate Searches(g: Ground, i: nat)
    requires i < |g.own| == |g.dist|
  {
    g.own[i].kind.Scout? && Unexplored(g, i)
  }

  predicate May(g: Ground, goal: Goal, i: nat)
    requires i < |g.own| == |g.dist|
  {
    match goal
    case Securing => !Searches(g, i)
    case Searching(kind) => g.own[i].kind == kind
    case Rescouting => true
  }

  /** The cell is one to secure, search, or rescout for the element. */
  predicate Wants(g: Ground, goal: Goal, e: Element, at: Location) {
    match goal
    case Securing => OpenAt(g.objectives, g.faction, at)
    case Searching(_) => at !in g.explored
    case Rescouting => OpenAt(g.objectives, g.faction, at) && at != e.at
  }

  function Unclaimed(g: Ground, goal: Goal, e: Element, claimed: set<Location>): Location -> bool {
    (l: Location) => Wants(g, goal, e, l) && l !in claimed
  }

  predicate Apart(l: Location, targets: set<Location>) {
    forall t | t in targets :: t.sector == l.sector ==> Gap(t.point, l.point) > SPREAD_RANGE
  }

  function Spread(g: Ground, goal: Goal, e: Element, claimed: set<Location>): Location -> bool {
    (l: Location) => Wants(g, goal, e, l) && l !in claimed && Apart(l, claimed)
  }

  function Stale(g: Ground, e: Element, dist: Distances, claimed: set<Location>): Belief -> bool {
    (o: Belief) => o.at in dist && Wants(g, Rescouting, e, o.at) && o.at !in claimed
  }

  function Staler(dist: Distances): (Belief, Belief) -> bool {
    (o: Belief, p: Belief) =>
      var n, m := DistanceTo(dist, o.at), DistanceTo(dist, p.at);
      o.age > p.age || (o.age == p.age && (n < m || (n == m && Keys.Less(o.at.Key(), p.at.Key()))))
  }

  /** The target the element is given, of those not claimed yet. */
  ghost function Chosen(g: Ground, goal: Goal, i: nat, claimed: set<Location>): Option<Location>
    requires i < |g.own| == |g.dist|
  {
    var e, dist := g.own[i], g.dist[i];
    if !May(g, goal, i) then None
    else
      match goal
      case Securing => Nearest(dist, Unclaimed(g, goal, e, claimed))
      case Searching(_) =>
        var clear := Nearest(dist, Spread(g, goal, e, claimed));
        if clear.Some? then clear else Nearest(dist, Unclaimed(g, goal, e, claimed))
      case Rescouting =>
        var o := FirstBest(g.objectives, Stale(g, e, dist, claimed), Staler(dist));
        if o.Some? then Some(o.value.at) else None
  }

  /** The element's standing decision, the last listed of its ID. */
  function WasOf(standing: seq<Decision>, id: string): Option<Decision> {
    if standing == [] then None
    else
      var d := standing[|standing| - 1];
      if d.element == id then Some(d) else WasOf(standing[..|standing| - 1], id)
  }

  /** The target of the element's standing decision, while it is still one to keep. */
  function Kept(g: Ground, standing: seq<Decision>, goal: Goal, i: nat, claimed: set<Location>): Option<Location>
    requires i < |g.own| == |g.dist|
  {
    var e, was := g.own[i], WasOf(standing, g.own[i].id);
    if May(g, goal, i) && was.Some? && was.value.rule == RuleOf(goal) && was.value.target.Some?
       && was.value.target.value in g.dist[i] && Wants(g, goal, e, was.value.target.value)
       && was.value.target.value !in claimed
    then was.value.target else None
  }

  /** An element on an objective to secure claims it. */
  function OnTarget(g: Ground, i: nat, claimed: set<Location>): Option<Location>
    requires i < |g.own| == |g.dist|
  {
    var e := g.own[i];
    if !Searches(g, i) && Wants(g, Securing, e, e.at) && e.at !in claimed then Some(e.at) else None
  }

  // ----- Passes over the elements, in ID order -----

  /** The decisions so far, by element, and the targets claimed so far. */
  datatype Claims = Claims(ds: seq<Option<Decision>>, claimed: set<Location>)

  datatype Pass = Standing | Keeping(goal: Goal) | Choosing(goal: Goal)

  function RuleBy(pass: Pass): Rule {
    if pass.Standing? then Secure else RuleOf(pass.goal)
  }

  ghost function TargetBy(g: Ground, standing: seq<Decision>, pass: Pass, i: nat, claimed: set<Location>): Option<Location>
    requires i < |g.own| == |g.dist|
  {
    match pass
    case Standing => OnTarget(g, i, claimed)
    case Keeping(goal) => Kept(g, standing, goal, i, claimed)
    case Choosing(goal) => Chosen(g, goal, i, claimed)
  }

  ghost predicate Sized(g: Ground, s: Claims) {
    |g.own| == |g.dist| == |s.ds|
  }

  /** The `i`-th element's turn: undecided, it takes the pass's target, if there is one, and claims it. */
  ghost function Turn(g: Ground, standing: seq<Decision>, pass: Pass, s: Claims, i: nat): (r: Claims)
    requires Sized(g, s) && i < |s.ds|
    ensures Sized(g, r)
  {
    var at := TargetBy(g, standing, pass, i, s.claimed);
    if s.ds[i].Some? || at.None? then s
    else Claims(s.ds[i := Some(Decision(g.own[i].id, RuleBy(pass), "", at))], s.claimed + {at.value})
  }

  /** The pass over the first `n` elements. */
  ghost function Passed(g: Ground, standing: seq<Decision>, pass: Pass, s: Claims, n: nat): (r: Claims)
    requires Sized(g, s) && n <= |s.ds|
    ensures Sized(g, r)
  {
    if n == 0 then s else Turn(g, standing, pass, Passed(g, standing, pass, s, n - 1), n - 1)
  }

  ghost function Whole(g: Ground, standing: seq<Decision>, pass: Pass, s: Claims): (r: Claims)
    requires Sized(g, s)
    ensures Sized(g, r)
  {
    Passed(g, standing, pass, s, |s.ds|)
  }

  /** Standing targets first, then new ones. */
  ghost function Pursued(g: Ground, standing: seq<Decision>, goal: Goal, s: Claims): (r: Claims)
    requires Sized(g, s)
    ensures Sized(g, r)
  {
    Whole(g, standing, Choosing(goal), Whole(g, standing, Keeping(goal), s))
  }

  ghost function Early(g: Ground): (s: Claims)
    requires |g.own| == |g.dist|
    ensures Sized(g, s)
  {
    Claims(seq(|g.own|, i requires 0 <= i < |g.own| => Fighting(g, g.own[i], g.dist[i])), {})
  }

  ghost function Secured(g: Ground, standing: seq<Decision>): (r: Claims)
    requires |g.own| == |g.dist|
    ensures Sized(g, r)
  {
    Pursued(g, standing, Securing, Whole(g, standing, Pass.Standing, Early(g)))
  }

  ghost function Scouted(g: Ground, standing: seq<Decision>): (r: Claims)
    requires |g.own| == |g.dist|
    ensures Sized(g, r)
  {
    Pursued(g, standing, Searching(Scout), Claims(Secured(g, standing).ds, {}))
  }

  ghost function Searched(g: Ground, standing: seq<Decision>): (r: Claims)
    requires |g.own| == |g.dist|
    ensures Sized(g, r)
  {
    Pursued(g, standing, Searching(Squad), Scouted(g, standing))
  }

  ghost function Rescouted(g: Ground, standing: seq<Decision>): (r: Claims)
    requires |g.own| == |g.dist|
    ensures Sized(g, r)
  {
    Pursued(g, standing, Rescouting, Claims(Searched(g, standing).ds, {}))
  }

  /** A decision for every element, in ID order: what no rule claims holds. */
  ghost function Decided(g: Ground, standing: seq<Decision>): (r: seq<Decision>)
    requires |g.own| == |g.dist|
    ensures |r| == |g.own|
  {
    var ds := Rescouted(g, standing).ds;
    seq(|ds|, i requires 0 <= i < |ds| => if ds[i].Some? then ds[i].value else Decision(g.own[i].id, Hold, "", None))
  }
}
