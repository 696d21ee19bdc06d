/** A whole round, and what every round keeps. */
module Rounds {
  import opened World
  import opened State
  import opened Moves
  import opened Chance
  import opened Fire
  import opened Resolution
  import opened Sorting
  import Keys
  import opened Umpire
  import opened Observing

  /** What a round passes through: its retreats and the exchanges they drew, its fights, and the living. */
  datatype Passage = Passage(retreats: map<string, Location>, ids: seq<string>, pursuits: seq<Clash>,
                             cells: seq<Location>, fights: seq<Clash>, live: seq<Element>)

  ghost function AfterMoves(s: State, orders: seq<Order>): seq<Element> {
    Moved(s.world, s.elements, orders)
  }

  ghost function AfterPursuit(s: State, orders: seq<Order>, w: Passage): seq<Element> {
    After(AfterMoves(s, orders), w.pursuits)
  }

  ghost function AfterFights(s: State, orders: seq<Order>, w: Passage): seq<Element> {
    After(AfterPursuit(s, orders, w), w.fights)
  }

  /** The fire of a round: pursuits, then fights, then burial. */
  ghost predicate Fired(s: State, orders: seq<Order>, res: Resolution, w: Passage) {
    && AreRetreats(s.world, s.elements, orders, w.retreats)
    && Volleyed(s.elements, AfterMoves(s, orders), orders, w.retreats, w.ids, w.pursuits, res.retreats)
    && StrictlySortedBy(w.ids, ItsText) && (forall id :: id in w.ids <==> id in w.retreats)
    && Fought(s.factions, AfterPursuit(s, orders, w), w.fights, w.cells, res.fights)
    && AreLive(AfterFights(s, orders, w), w.live)
    && AreLosses(AfterFights(s, orders, w), res.losses)
  }

  /** The round took the state to the next one, and recorded what it did. */
  ghost predicate Resolved(s: State, orders: seq<Order>, next: State, res: Resolution, w: Passage) {
    && Fired(s, orders, res, w)
    && next.world == s.world && next.factions == s.factions
    && AreSettled(w.live, w.retreats, next.elements)
    && Captured(s.world, next.elements, s.holders, s.progress, next.holders, next.progress)
    && (res.captures, res.progress)
       == CapturesOf(next.elements, s.holders, s.progress, Objectives(s.world.sectors))
  }

  /** The round drew its shots from the source, each retreat's and then each fight's, and nothing else. */
  ghost predicate Played(s: State, rolls: Rolls, orders: seq<Order>, w: Passage) {
    && Rolled(rolls, [], AfterMoves(s, orders), w.pursuits)
    && Rolled(rolls, AskedAfter([], w.pursuits), AfterPursuit(s, orders, w), w.fights)
  }

  // ----- What moving keeps -----

  lemma MovedFacts(s: State, orders: seq<Order>)
    requires ValidState(s)
    ensures var es := AfterMoves(s, orders);
            && UniqueElements(es) && NonNegative(es)
            && (forall i | 0 <= i < |es| :: Standable(s.world, es[i].at)
                                            && es[i] == s.elements[i].(at := es[i].at))
  {
    var es := AfterMoves(s, orders);
    EndsLeaveNoneRefused(s.elements, Headings(s.world, s.elements, orders));
    forall i | 0 <= i < |es| ensures Standable(s.world, es[i].at) {
      assert ValidElement(s.world, s.factions, s.elements[i]);
      HeadingStandable(s.world, s.elements, orders, s.elements[i]);
    }
    forall i, k | 0 <= i < |es| && 0 <= k < |es[i].health| ensures 0 <= es[i].health[k] {
      assert ValidElement(s.world, s.factions, s.elements[i]);
      assert s.elements[i].health[k] in s.elements[i].health;
    }
  }

  lemma HeadingStandable(m: Map, es: seq<Element>, orders: seq<Order>, e: Element)
    requires Standable(m, e.at)
    ensures Standable(m, Heading(m, es, orders, e))
  {
    var o := OrderFor(orders, e.id);
    if o.Some? {
      WalkStaysStandable(m, e.at, o.value.steps);
    }
  }

  // ----- What the fire keeps -----

  lemma RetreatersRemain(s: State, orders: seq<Order>, retreats: map<string, Location>, stayed: map<string, Element>)
    requires ValidState(s) && AreRetreats(s.world, s.elements, orders, retreats)
    requires Keeps(s.elements, stayed)
    ensures ReadyToFire(s.elements, Moved(s.world, s.elements, orders), stayed, retreats)
  {
    MovedFacts(s, orders);
    var moved := AfterMoves(s, orders);
    assert forall i | 0 <= i < |moved| :: moved[i].id == s.elements[i].id;
    forall id | id in retreats ensures exists k :: 0 <= k < |s.elements| && s.elements[k].id == id {
      var i :| 0 <= i < |s.elements| && s.elements[i].id == id && Retreats(s.world, s.elements, orders, i);
    }
    assert moved == Moved(s.world, s.elements, orders);
    hide *;
    ReadyByPlace(s.elements, moved, stayed, retreats);
  }

  lemma ReadyByPlace(start: seq<Element>, es: seq<Element>, stayed: map<string, Element>, retreats: map<string, Location>)
    requires |start| == |es| && (forall i | 0 <= i < |es| :: es[i].id == start[i].id)
    requires UniqueElements(es) && NonNegative(es) && Keeps(start, stayed)
    requires forall id | id in retreats :: exists k :: 0 <= k < |start| && start[k].id == id
    ensures ReadyToFire(start, es, stayed, retreats)
  {
    forall id | id in retreats ensures exists k :: 0 <= k < |es| && es[k].id == id {
      var k :| 0 <= k < |start| && start[k].id == id;
      assert es[k].id == id;
    }
  }

  /** The second list is the first with some health lost and nothing else changed. */
  ghost predicate OnlyHurt(es: seq<Element>, fs: seq<Element>) {
    && |fs| == |es|
    && forall i | 0 <= i < |es| :: Weakened(es[i], fs[i])
  }

  ghost predicate Weakened(e: Element, f: Element) {
    && f == e.(health := f.health) && |f.health| == |e.health|
    && forall k | 0 <= k < |e.health| :: 0 <= f.health[k] <= e.health[k]
  }

  lemma {:induction false} ClashesOnlyHurt(es: seq<Element>, xs: seq<Clash>)
    requires Clashed(es, xs) && UniqueElements(es) && NonNegative(es)
    ensures OnlyHurt(es, After(es, xs)) && UniqueElements(After(es, xs)) && NonNegative(After(es, xs))
  {
    if xs != [] {
      var n := |xs| - 1;
      ClashesOnlyHurt(es, xs[..n]);
      hide Clashed, Exchanged;
      HurtOnlyHurts(es, After(es, xs[..n]), xs[n]);
    }
  }

  lemma HurtOnlyHurts(es: seq<Element>, fs: seq<Element>, x: Clash)
    requires OnlyHurt(es, fs) && UniqueElements(fs) && NonNegative(fs) && ClashFrom(fs, x)
    ensures OnlyHurt(es, x.after) && UniqueElements(x.after) && NonNegative(x.after)
  {
    forall i | 0 <= i < |fs| ensures Weakened(es[i], x.after[i]) && x.after[i].id == fs[i].id {
      assert SameButHealth(fs[i], x.after[i]) && Weakened(es[i], fs[i]);
    }
    forall i, k | 0 <= i < |x.after| && 0 <= k < |x.after[i].health| ensures 0 <= x.after[i].health[k] {
      assert Weakened(es[i], x.after[i]);
    }
  }

  lemma PursuitKeeps(s: State, orders: seq<Order>, retreats: map<string, Location>, ids: seq<string>,
                     pursuits: seq<Clash>, reports: seq<RetreatReport>)
    requires ValidState(s)
    requires Volleyed(s.elements, Moved(s.world, s.elements, orders), orders, retreats, ids, pursuits, reports)
    ensures var es := Moved(s.world, s.elements, orders);
            var fs := After(es, pursuits);
            OnlyHurt(es, fs) && UniqueElements(fs) && NonNegative(fs)
  {
    MovedFacts(s, orders);
    RetreatTolls(s.elements, AfterMoves(s, orders), orders, retreats, ids, pursuits, reports);
    ClashesOnlyHurt(AfterMoves(s, orders), pursuits);
  }

  lemma FightsKeep(factions: (string, string), es: seq<Element>, fights: seq<Clash>, cells: seq<Location>,
                   reports: seq<FightReport>)
    requires UniqueElements(es) && NonNegative(es) && Fought(factions, es, fights, cells, reports)
    ensures OnlyHurt(es, After(es, fights)) && UniqueElements(After(es, fights)) && NonNegative(After(es, fights))
  {
    FightTolls(factions, es, fights, cells, reports);
    ClashesOnlyHurt(es, fights);
  }

  lemma OnlyHurtTwice(es: seq<Element>, fs: seq<Element>, gs: seq<Element>)
    requires OnlyHurt(es, fs) && OnlyHurt(fs, gs)
    ensures OnlyHurt(es, gs)
  {
    forall i | 0 <= i < |es| ensures Weakened(es[i], gs[i]) {
      assert Weakened(es[i], fs[i]) && Weakened(fs[i], gs[i]);
    }
  }

  /** After the round's fire, every element is the one the round found, moved and weakened. */
  lemma FiredFacts(s: State, orders: seq<Order>, res: Resolution, w: Passage)
    requires ValidState(s) && Fired(s, orders, res, w)
    ensures OnlyHurt(AfterMoves(s, orders), AfterFights(s, orders, w))
    ensures UniqueElements(AfterFights(s, orders, w)) && NonNegative(AfterFights(s, orders, w))
  {
    PursuitKeeps(s, orders, w.retreats, w.ids, w.pursuits, res.retreats);
    FightsKeep(s.factions, AfterPursuit(s, orders, w), w.fights, w.cells, res.fights);
    OnlyHurtTwice(AfterMoves(s, orders), AfterPursuit(s, orders, w), AfterFights(s, orders, w));
  }

  // ----- What every round keeps -----

  /** A living element is valid again once buried. */
  lemma LiveIsValid(s: State, orders: seq<Order>, res: Resolution, w: Passage, f: Element)
    requires ValidState(s) && Fired(s, orders, res, w) && f in w.live
    ensures ValidElement(s.world, s.factions, f)
  {
    var es := AfterFights(s, orders, w);
    FiredFacts(s, orders, res, w);
    MovedFacts(s, orders);
    var i :| 0 <= i < |es| && Positive(es[i].health) != [] && f == Buried(es[i]);
    assert ValidElement(s.world, s.factions, s.elements[i]);
    assert Weakened(AfterMoves(s, orders)[i], es[i]);
    hide *;
    BuriedIsValid(s.world, s.factions, s.elements[i], AfterMoves(s, orders)[i], es[i]);
  }

  lemma BuriedIsValid(m: Map, factions: (string, string), e: Element, moved: Element, f: Element)
    requires ValidElement(m, factions, e) && moved == e.(at := moved.at) && Standable(m, moved.at)
    requires Weakened(moved, f) && Positive(f.health) != []
    ensures ValidElement(m, factions, Buried(f))
  {
    forall h | h in Buried(f).health ensures 1 <= h <= 100 {
      assert h in f.health && h > 0;
      var k :| 0 <= k < |f.health| && f.health[k] == h;
      assert e.health[k] in e.health;
    }
  }

  lemma NextAreValid(s: State, orders: seq<Order>, next: State, res: Resolution, w: Passage)
    requires ValidState(s) && Resolved(s, orders, next, res, w)
    ensures |next.elements| == |w.live|
    ensures forall i | 0 <= i < |next.elements| :: ValidElement(s.world, s.factions, next.elements[i])
  {
    hide ValidState, Fired, Captured, Contested;
    forall i | 0 <= i < |w.live| ensures ValidElement(s.world, s.factions, next.elements[i]) {
      assert w.live[i] in w.live;
      LiveIsValid(s, orders, res, w, w.live[i]);
    }
  }

  /** Every round leaves a valid state and statuses that fit their cells. */
  lemma ResolvedIsValid(s: State, orders: seq<Order>, next: State, res: Resolution, w: Passage)
    requires ValidState(s) && Resolved(s, orders, next, res, w)
    ensures ValidState(next) && Settled(next.elements) && StrictlySortedBy(next.elements, IdOf)
  {
    NextAreValid(s, orders, next, res, w);
    assert StrictlySortedBy(w.live, IdOf) && forall i | 0 <= i < |w.live| :: next.elements[i].id == w.live[i].id;
    hide Fired, ValidElement, ValidHoldings, ValidMap, AreSettled, Captured, UniqueElements, StrictlySortedBy, DistinctKeys;
    LiveInOrder(w.live, next.elements);
    SettledFits(w.live, w.retreats, next.elements);
    HoldingsKept(s, next);
  }

  lemma LiveInOrder(live: seq<Element>, es: seq<Element>)
    requires StrictlySortedBy(live, IdOf) && |es| == |live| && forall i | 0 <= i < |es| :: es[i].id == live[i].id
    ensures StrictlySortedBy(es, IdOf) && UniqueElements(es) && DistinctKeys(es, IdOf)
  {
    forall i, j | 0 <= i < j < |es| ensures Keys.Less(IdOf(es[i]), IdOf(es[j])) && es[i].id != es[j].id {
      assert Keys.Less(IdOf(live[i]), IdOf(live[j]));
      Keys.LessTotal(es[i].id, es[j].id);
    }
  }

  lemma SettledFits(live: seq<Element>, retreats: map<string, Location>, es: seq<Element>)
    requires AreSettled(live, retreats, es)
    ensures Settled(es)
  {
    forall e | e in es ensures Fits(es, e) {
      var i :| 0 <= i < |es| && es[i] == e;
      ContestedAlike(live, es, e.at);
    }
  }

  lemma ContestedAlike(a: seq<Element>, b: seq<Element>, l: Location)
    requires |a| == |b| && forall i | 0 <= i < |a| :: b[i].at == a[i].at && b[i].faction == a[i].faction
    ensures Contested(a, l) <==> Contested(b, l)
  {
  }

  lemma HoldingsKept(s: State, next: State)
    requires ValidHoldings(s.world, s.factions, s.holders, s.progress)
    requires next.world == s.world && next.factions == s.factions
    requires forall i | 0 <= i < |next.elements| :: ValidElement(s.world, s.factions, next.elements[i])
    requires Captured(s.world, next.elements, s.holders, s.progress, next.holders, next.progress)
    ensures ValidHoldings(next.world, next.factions, next.holders, next.progress)
  {
    forall l | l !in Objectives(s.world.sectors) ensures l !in next.holders && l !in next.progress {
      assert Unmoved(s.holders, next.holders, l) && Unmoved(s.progress, next.progress, l);
    }
    forall l | l in Objectives(s.world.sectors) ensures HoldingValid(s.factions, next.holders, next.progress, l) {
      if Lone(next.elements, l).Some? {
        LoneIsFaction(s, next.elements, l);
      }
      HoldingKept(s, next, l);
    }
  }

  ghost predicate HoldingValid(factions: (string, string), holders: map<Location, string>,
                               progress: map<Location, Progress>, l: Location) {
    && (l in holders ==> IsFaction(factions, holders[l]))
    && (l in progress ==> IsFaction(factions, progress[l].faction) && 1 <= progress[l].rounds < CAPTURE_ROUNDS)
  }

  lemma HoldingKept(s: State, next: State, l: Location)
    requires HoldingValid(s.factions, s.holders, s.progress, l)
    requires Lone(next.elements, l).Some? ==> IsFaction(s.factions, Lone(next.elements, l).value)
    requires CapturedAt(next.elements, s.holders, s.progress, next.holders, next.progress, l)
    ensures HoldingValid(s.factions, next.holders, next.progress, l)
  {
    hide Lone;
  }

  lemma LoneIsFaction(s: State, es: seq<Element>, l: Location)
    requires forall i | 0 <= i < |es| :: ValidElement(s.world, s.factions, es[i])
    requires Lone(es, l).Some?
    ensures IsFaction(s.factions, Lone(es, l).value)
  {
    var e :| e in es && e.at == l;
    var i :| 0 <= i < |es| && es[i] == e;
    assert ValidElement(s.world, s.factions, es[i]);
  }

  // ----- The umpire's round -----

  /** The elements as the round found them, by ID. */
  method Snapshot(s: State) returns (stayed: map<string, Element>)
    requires UniqueElements(s.elements)
    ensures Keeps(s.elements, stayed)
  {
    stayed := map[];
    for i := 0 to |s.elements|
      invariant forall k | 0 <= k < i :: s.elements[k].id in stayed && stayed[s.elements[k].id] == s.elements[k]
    {
      stayed := stayed[s.elements[i].id := s.elements[i]];
    }
  }

  ghost predicate Keeps(es: seq<Element>, stayed: map<string, Element>) {
    forall k | 0 <= k < |es| :: es[k].id in stayed && stayed[es[k].id] == es[k]
  }

  /** A round's fire on the board, once the elements have moved. */
  method FireOn(board: Board, rng: Random, ghost s: State, stayed: map<string, Element>,
                retreats: map<string, Location>, orders: seq<Order>)
    returns (reports: seq<RetreatReport>, fought: seq<FightReport>, losses: seq<Loss>, ghost w: Passage)
    requires ValidState(s) && Keeps(s.elements, stayed)
    requires board.world == s.world && board.factions == s.factions
    requires board.elements == Moved(s.world, s.elements, orders)
    requires AreRetreats(s.world, s.elements, orders, retreats)
    requires rng.asked == []
    modifies board`elements, rng`asked
    ensures Played(s, rng.rolls, orders, w)
    ensures w.retreats == retreats && board.elements == w.live
    ensures FiredFrom(s, orders, reports, fought, losses, w)
  {
    hide *;
    ghost var moved := board.elements;
    RetreatersRemain(s, orders, retreats, stayed);
    ghost var ids, pursuits, cells, fights;
    reports, ids, pursuits := board.Volley(rng, s.elements, stayed, retreats, orders);
    PursuitKeeps(s, orders, retreats, ids, pursuits, reports);
    fought, cells, fights := board.Fight(rng);
    FightsKeep(s.factions, After(moved, pursuits), fights, cells, fought);
    losses := board.Bury();
    w := Passage(retreats, ids, pursuits, cells, fights, board.elements);
    FireAssembled(s, orders, reports, fought, losses, w);
    DrawsAssembled(s, rng.rolls, orders, w);
  }

  lemma DrawsAssembled(s: State, rolls: Rolls, orders: seq<Order>, w: Passage)
    requires var moved := Moved(s.world, s.elements, orders);
             && Rolled(rolls, [], moved, w.pursuits)
             && Rolled(rolls, AskedAfter([], w.pursuits), After(moved, w.pursuits), w.fights)
    ensures Played(s, rolls, orders, w)
  {
    hide Rolled;
  }

  ghost predicate FiredFrom(s: State, orders: seq<Order>, reports: seq<RetreatReport>, fought: seq<FightReport>,
                            losses: seq<Loss>, w: Passage) {
    Fired(s, orders, Resolution(reports, fought, losses, [], []), w)
  }

  lemma FireAssembled(s: State, orders: seq<Order>, reports: seq<RetreatReport>, fought: seq<FightReport>,
                      losses: seq<Loss>, w: Passage)
    requires var moved := Moved(s.world, s.elements, orders);
             var pursued := After(moved, w.pursuits);
             var after := After(pursued, w.fights);
             && AreRetreats(s.world, s.elements, orders, w.retreats)
             && Volleyed(s.elements, moved, orders, w.retreats, w.ids, w.pursuits, reports)
             && StrictlySortedBy(w.ids, ItsText) && (forall id :: id in w.ids <==> id in w.retreats)
             && Fought(s.factions, pursued, w.fights, w.cells, fought)
             && AreLive(after, w.live) && AreLosses(after, losses)
    ensures FiredFrom(s, orders, reports, fought, losses, w)
  {
    hide Volleyed, Fought, AreRetreats, AreLive, AreLosses, After, Moved, StrictlySortedBy;
  }

  /** A round's next state and record, worked out on a copy of the state. */
  method ResolveState(s: State, rolls: Rolls, orders: seq<Order>)
    returns (next: State, res: Resolution, ghost w: Passage)
    requires ValidState(s)
    ensures Played(s, rolls, orders, w)
    ensures Resolved(s, orders, next, res, w)
    ensures exists passage :: Resolved(s, orders, next, res, passage)
  {
    hide *;
    Startable(s);
    var stayed := Snapshot(s);
    var rng := new Random(rolls);
    var board := new Board(s);
    var retreats := board.Move(orders);
    var reports, fought, losses;
    reports, fought, losses, w := FireOn(board, rng, s, stayed, retreats, orders);
    board.Settle(retreats);
    var captures, progress := board.TakeObjectives();
    next := State(board.world, board.factions, board.elements, board.holders, board.progress);
    res := Resolution(reports, fought, losses, captures, progress);
    Assembled(s, orders, next, res, w);
  }

  /** Resolves a round: the next state, each faction's observation of it, the verdict, and the record. */
  method Resolve(s: State, rolls: Rolls, round: int, limit: int, orders: seq<Order>)
    returns (next: State, a: Observation, b: Observation, v: Verdict, res: Resolution, ghost w: Passage)
    requires ValidState(s)
    ensures Resolved(s, orders, next, res, w) && Played(s, rolls, orders, w)
    ensures ValidState(next) && Settled(next.elements)
    ensures IsObservation(next, s.factions.0, round, a) && IsObservation(next, s.factions.1, round, b)
    ensures IsVerdict(next, round, limit, v)
  {
    next, res, w := ResolveState(s, rolls, orders);
    assert next.factions == s.factions;
    hide *;
    ResolvedIsValid(s, orders, next, res, w);
    Readable(next);
    a, b := Observe(next, round);
    v := Judge(next, round, limit);
  }

  lemma Startable(s: State)
    requires ValidState(s)
    ensures UniqueElements(s.elements) && Distinct(Objectives(s.world.sectors))
  {
    ObjectivesDistinct(s.world.sectors);
  }

  lemma Assembled(s: State, orders: seq<Order>, next: State, res: Resolution, w: Passage)
    requires FiredFrom(s, orders, res.retreats, res.fights, res.losses, w)
    requires next.world == s.world && next.factions == s.factions
    requires AreSettled(w.live, w.retreats, next.elements)
    requires Captured(s.world, next.elements, s.holders, s.progress, next.holders, next.progress)
    requires (res.captures, res.progress)
             == CapturesOf(next.elements, s.holders, s.progress, Objectives(s.world.sectors))
    ensures Resolved(s, orders, next, res, w)
  {
    hide Volleyed, Fought, AreRetreats, AreLive, AreLosses, AreSettled, Captured, CapturesOf, After, StrictlySortedBy;
  }

  lemma Readable(s: State)
    requires ValidState(s) && StrictlySortedBy(s.elements, IdOf)
    ensures Observable(s)
    ensures s.factions.0 != "" && s.factions.1 != "" && s.factions.0 != s.factions.1
  {
    ObjectivesDistinct(s.world.sectors);
    LiveInOrder(s.elements, s.elements);
  }
}
