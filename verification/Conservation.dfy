/** The account of a round: every bit of strength and every operator lost is on record, once. */
module Conservation {
  import opened World
  import opened State
  import opened Moves
  import opened Fire
  import opened Resolution
  import opened Rounds

  /** Everything the round recorded of who lost what, in the order it happened. */
  function RoundTolls(res: Resolution): seq<Toll> {
    TollsOfRetreats(res.retreats) + TollsOfFights(res.fights)
  }

  lemma {:induction false} PositiveKeeps(hs: seq<int>)
    requires forall k | 0 <= k < |hs| :: 0 <= hs[k]
    ensures Sum(Positive(hs)) == Sum(hs) && |Positive(hs)| == Living(hs)
    ensures Positive(hs) == [] ==> Sum(hs) == 0
  {
    if hs != [] {
      PositiveKeeps(hs[1..]);
      var rest := Positive(hs[1..]);
      assert ([hs[0]] + rest)[1..] == rest && [] + rest == rest;
    }
  }

  lemma {:induction false} AllLiving(hs: seq<int>)
    requires forall k | 0 <= k < |hs| :: 1 <= hs[k]
    ensures Living(hs) == |hs|
  {
    if hs != [] {
      AllLiving(hs[1..]);
    }
  }

  /** The round's records account for all that the fire took. */
  lemma FireAccounts(s: State, orders: seq<Order>, res: Resolution, w: Passage)
    requires ValidState(s) && Fired(s, orders, res, w)
    ensures Accounts(AfterMoves(s, orders), AfterFights(s, orders, w), RoundTolls(res))
  {
    hide *;
    PursuitAccounts(s, orders, res, w);
    FightsListed(s, orders, res, w);
    Joined(s, orders, res, w);
  }

  /** The pursuits' records account for what they took. */
  lemma PursuitAccounts(s: State, orders: seq<Order>, res: Resolution, w: Passage)
    requires ValidState(s) && Fired(s, orders, res, w)
    ensures Accounts(AfterMoves(s, orders), AfterPursuit(s, orders, w), TollsOfRetreats(res.retreats))
    ensures UniqueElements(AfterPursuit(s, orders, w)) && NonNegative(AfterPursuit(s, orders, w))
  {
    hide *;
    var es := AfterMoves(s, orders);
    FiredParts(s, orders, res, w);
    MovedFacts(s, orders);
    RetreatTolls(s.elements, es, orders, w.retreats, w.ids, w.pursuits, res.retreats);
    NothingYet(es);
    ClashesAccount(es, es, [], w.pursuits);
    assert [] + TollsOfRetreats(res.retreats) == TollsOfRetreats(res.retreats);
  }

  lemma FightsListed(s: State, orders: seq<Order>, res: Resolution, w: Passage)
    requires Fired(s, orders, res, w)
    ensures Clashed(AfterPursuit(s, orders, w), w.fights)
    ensures AllRecords(AfterPursuit(s, orders, w), w.fights) == TollsOfFights(res.fights)
  {
    hide *;
    FiredParts(s, orders, res, w);
    FightTolls(s.factions, AfterPursuit(s, orders, w), w.fights, w.cells, res.fights);
  }

  lemma FiredParts(s: State, orders: seq<Order>, res: Resolution, w: Passage)
    requires Fired(s, orders, res, w)
    ensures Volleyed(s.elements, AfterMoves(s, orders), orders, w.retreats, w.ids, w.pursuits, res.retreats)
    ensures Volleyed(s.elements, Moved(s.world, s.elements, orders), orders, w.retreats, w.ids, w.pursuits, res.retreats)
    ensures FoughtAmong(s.factions, AfterPursuit(s, orders, w), w.fights, w.cells, res.fights)
    ensures AfterPursuit(s, orders, w) == After(Moved(s.world, s.elements, orders), w.pursuits)
    ensures AfterMoves(s, orders) == Moved(s.world, s.elements, orders)
  {
    hide Volleyed, FoughtAmong, Moved, After, AreRetreats, AreLive, AreLosses;
  }

  lemma NothingYet(es: seq<Element>)
    ensures Accounts(es, es, [])
  {
  }

  lemma Joined(s: State, orders: seq<Order>, res: Resolution, w: Passage)
    requires var es, fs := AfterMoves(s, orders), AfterPursuit(s, orders, w);
             && Accounts(es, fs, TollsOfRetreats(res.retreats))
             && UniqueElements(fs) && NonNegative(fs) && Clashed(fs, w.fights)
             && AllRecords(fs, w.fights) == TollsOfFights(res.fights)
    ensures Accounts(AfterMoves(s, orders), AfterFights(s, orders, w), RoundTolls(res))
  {
    ClashesAccount(AfterMoves(s, orders), AfterPursuit(s, orders, w), TollsOfRetreats(res.retreats), w.fights);
  }

  /** The element survives as `f`, or not at all. */
  ghost predicate Survives(next: State, id: string, f: Element) {
    f in next.elements && f.id == id
  }

  /** For each element, the strength and operators it lost are what its records add up to, each record taking up where
      the one before it left; the elements lost are exactly those whose records end at nothing. */
  lemma DamageConserved(s: State, orders: seq<Order>, next: State, res: Resolution, w: Passage, e: Element)
    requires ValidState(s) && Resolved(s, orders, next, res, w) && e in s.elements
    ensures var mine := Of(e.id, RoundTolls(res));
            if f: Element :| Survives(next, e.id, f) then
              && Chained(mine, e.strength, |e.health|, f.strength, |f.health|)
              && Spent(mine) == e.strength - f.strength && Fallen(mine) == |e.health| - |f.health|
              && Loss(e.id, e.faction) !in res.losses
            else
              && Chained(mine, e.strength, |e.health|, 0, 0)
              && Spent(mine) == e.strength && Fallen(mine) == |e.health|
              && Loss(e.id, e.faction) in res.losses
  {
    var i :| 0 <= i < |s.elements| && s.elements[i] == e;
    ElementAccount(s, orders, res, w, i);
    var g := AfterFights(s, orders, w)[i];
    FiredFacts(s, orders, res, w);
    FateOf(AfterFights(s, orders, w), w.live, w.retreats, next, res.losses, i);
    hide *;
    var mine := Of(e.id, RoundTolls(res));
    ChainAddsUp(mine, e.strength, |e.health|, Sum(g.health), Living(g.health));
    if f: Element :| Survives(next, e.id, f) {
      assert f.strength == Sum(g.health);
    }
  }

  /** An element's records lead from what the round found to what the fire left. */
  lemma ElementAccount(s: State, orders: seq<Order>, res: Resolution, w: Passage, i: nat)
    requires ValidState(s) && Fired(s, orders, res, w) && i < |s.elements|
    ensures |AfterFights(s, orders, w)| == |s.elements|
    ensures var e, g := s.elements[i], AfterFights(s, orders, w)[i];
            && g.id == e.id && g.faction == e.faction
            && Chained(Of(e.id, RoundTolls(res)), e.strength, |e.health|, Sum(g.health), Living(g.health))
            && Sum(Positive(g.health)) == Sum(g.health) && |Positive(g.health)| == Living(g.health)
            && (Positive(g.health) == [] ==> Sum(g.health) == 0)
  {
    FireAccounts(s, orders, res, w);
    FiredFacts(s, orders, res, w);
    MovedFacts(s, orders);
    var e, m, g := s.elements[i], AfterMoves(s, orders)[i], AfterFights(s, orders, w)[i];
    assert AccountsFor(m, g, Of(e.id, RoundTolls(res))) && Weakened(m, g) && m.health == e.health;
    assert ValidElement(s.world, s.factions, e);
    assert forall k | 0 <= k < |e.health| :: e.health[k] in e.health;
    hide Chained, Of, RoundTolls, AfterFights, AfterMoves;
    AllLiving(e.health);
    PositiveKeeps(g.health);
  }

  /** An element with an operator left survives with what it has left, and one with none is listed as lost. */
  lemma FateOf(es: seq<Element>, live: seq<Element>, retreats: map<string, Location>, next: State, losses: seq<Loss>,
               i: nat)
    requires UniqueElements(es) && i < |es|
    requires AreLive(es, live) && AreLosses(es, losses) && AreSettled(live, retreats, next.elements)
    ensures var g := es[i];
            if Positive(g.health) != [] then
              && (exists f :: Survives(next, g.id, f))
              && (forall f | Survives(next, g.id, f) :: f.strength == Sum(Positive(g.health)) && f.health == Positive(g.health))
              && Loss(g.id, g.faction) !in losses
            else
              && (forall f :: !Survives(next, g.id, f))
              && Loss(g.id, g.faction) in losses
  {
    var g := es[i];
    hide StatusAfter, Positive, Sum;
    forall f | Survives(next, g.id, f) ensures Positive(g.health) != [] && f.strength == Sum(Positive(g.health)) && f.health == Positive(g.health) {
      var k :| 0 <= k < |next.elements| && next.elements[k] == f;
      assert live[k] in live;
      var j :| 0 <= j < |es| && Positive(es[j].health) != [] && live[k] == Buried(es[j]);
      assert j == i;
    }
    if Positive(g.health) != [] {
      assert Buried(g) in live;
      var k :| 0 <= k < |live| && live[k] == Buried(g);
      assert Survives(next, g.id, next.elements[k]);
    }
  }
}
