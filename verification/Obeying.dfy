/** From operations' issue to exercise's round: what is issued is recorded, played and obeyed. */
module Obeying {
  import opened World
  import opened State
  import opened Moves
  import opened Sorting
  import opened Observing
  import opened TheaterCheck
  import opened Believing
  import opened Resolution
  import opened Rounds
  import opened Exercising
  import opened Maneuver
  import opened Directing
  import Planning
  import Keys
  import Route
  import Terrain

  // ----- Recorded, then played -----

  /** The command for the round after the exercise's own. */
  ghost predicate RecordsNext(ex: Exercise, f: string, orders: seq<Order>, after: Exercise, refused: Option<Refusal>) {
    Records(ex, f, ex.round + 1, orders, after, refused)
  }

  /** A running exercise took the faction's orders for its next round, and then perhaps another's. */
  ghost predicate Recording(ex: Exercise, f: string, orders: seq<Order>, refused: Option<Refusal>, ready: Exercise) {
    && IsFaction(ex.state.factions, f)
    && exists after :: RecordsNext(ex, f, orders, after, refused) && (ready == after || OthersRecord(after, f, ready))
  }

  ghost predicate OthersRecord(ex: Exercise, f: string, ready: Exercise) {
    exists g, others, refused :: g != f && RecordsNext(ex, g, others, ready, refused)
  }

  /** What is recorded for the next round of a running exercise is accepted, and the other faction's takes nothing from
      it. */
  lemma RecordingKeeps(ex: Exercise, f: string, orders: seq<Order>, refused: Option<Refusal>, ready: Exercise)
    requires ex.phase == Running && 0 <= ex.round < ex.limit && Recording(ex, f, orders, refused, ready)
    ensures refused.None? && (f == ex.state.factions.0 || f == ex.state.factions.1)
    ensures ready.state == ex.state && ready.round == ex.round
    ensures (ex.round + 1, f) in ready.orders && ready.orders[(ex.round + 1, f)] == orders
  {
    var after :| RecordsNext(ex, f, orders, after, refused) && (ready == after || OthersRecord(after, f, ready));
    assert after.orders[(ex.round + 1, f)] == orders;
    if ready != after {
      var g, others, refused' :| g != f && RecordsNext(after, g, others, ready, refused');
      assert (ex.round + 1, g) != (ex.round + 1, f);
    }
  }

  /** Orders recorded for the next round of a running exercise are the orders it then plays, for every element of the
      faction that recorded them and whatever the other faction records after them. */
  lemma RecordedIsPlayed(ex: Exercise, f: string, orders: seq<Order>, refused: Option<Refusal>, ready: Exercise,
                         next: Exercise)
    requires Kept(ex) && ex.phase == Running
    requires Recording(ex, f, orders, refused, ready) && ResolvedBy(ready, next)
    ensures refused.None? && next.round == ex.round + 1
    ensures exists played, res, w ::
              && Resolved(ex.state, played, next.state, res, w)
              && forall id | Owns(ex.state.elements, f, id) :: OrderFor(played, id) == OrderFor(orders, id)
  {
    hide *;
    RunningEntry(ex);
    RecordingKeeps(ex, f, orders, refused, ready);
    var played, res, w := PlayedOnce(ready, next);
    PlaysRecorded(ready, f, played);
    assert Resolved(ex.state, played, next.state, res, w);
  }

  lemma PlayedOnce(ex: Exercise, next: Exercise) returns (played: seq<Order>, res: Resolution, w: Passage)
    requires ResolvedBy(ex, next)
    ensures Plays(ex, played) && Resolved(ex.state, played, next.state, res, w) && next.round == ex.round + 1
  {
    hide Resolved, Played, IsObservation, IsVerdict, Plays;
    var orders, s, a, b, v, r, u :| Plays(ex, orders) && RoundOf(ex, orders, s, a, b, v, r, u, next);
    played, res, w := orders, r, u;
  }

  lemma PlaysRecorded(ex: Exercise, f: string, played: seq<Order>)
    requires Plays(ex, played) && (f == ex.state.factions.0 || f == ex.state.factions.1) && (ex.round + 1, f) in ex.orders
    ensures forall id | Owns(ex.state.elements, f, id) :: OrderFor(played, id) == OrderFor(ex.orders[(ex.round + 1, f)], id)
  {
    hide OrderFor, Owns, NextOrders;
  }

  // ----- Obeyed -----

  /** Every element of the faction that survives the round stands where its order's steps end, or where it stood. */
  ghost predicate Stand(s: State, f: string, orders: seq<Order>, next: State) {
    forall g | g in next.elements && g.faction == f ::
      exists e :: e in s.elements && e.id == g.id && e.faction == f && g.at == Obeyed(e, orders)
  }

  /** The fire moves nobody: a survivor stands where its move ended. */
  lemma SurvivorStands(s: State, orders: seq<Order>, next: State, res: Resolution, w: Passage, g: Element)
    requires ValidState(s) && Resolved(s, orders, next, res, w) && g in next.elements
    ensures exists i :: 0 <= i < |s.elements| && g.id == s.elements[i].id && g.faction == s.elements[i].faction
                        && g.at == Moved(s.world, s.elements, orders)[i].at
  {
    hide *;
    SurvivorsListed(s, orders, next, res, w);
    FiredFacts(s, orders, res, w);
    MovesAre(s, orders);
    var es, fs := AfterMoves(s, orders), AfterFights(s, orders, w);
    var k :| 0 <= k < |next.elements| && next.elements[k] == g;
    var i := LivedOn(fs, w.live, w.retreats, next.elements, k);
    HurtStands(es, fs, i);
  }

  lemma SurvivorsListed(s: State, orders: seq<Order>, next: State, res: Resolution, w: Passage)
    requires Resolved(s, orders, next, res, w)
    ensures Fired(s, orders, res, w)
    ensures AreLive(AfterFights(s, orders, w), w.live) && AreSettled(w.live, w.retreats, next.elements)
  {
    hide AreLive, AreSettled, Volleyed, Fought, AreLosses, AfterFights, Captured, CapturesOf;
  }

  lemma MovesAre(s: State, orders: seq<Order>)
    ensures AfterMoves(s, orders) == Moved(s.world, s.elements, orders)
    ensures |AfterMoves(s, orders)| == |s.elements|
    ensures forall i | 0 <= i < |s.elements| :: && AfterMoves(s, orders)[i].id == s.elements[i].id
                                                && AfterMoves(s, orders)[i].faction == s.elements[i].faction
  {
  }

  lemma HurtStands(es: seq<Element>, fs: seq<Element>, i: nat)
    requires OnlyHurt(es, fs) && i < |fs|
    ensures |es| == |fs| && fs[i].id == es[i].id && fs[i].faction == es[i].faction && fs[i].at == es[i].at
  {
    assert Weakened(es[i], fs[i]);
  }

  lemma LivedOn(fs: seq<Element>, live: seq<Element>, retreats: map<string, Location>, next: seq<Element>, k: nat)
    returns (i: nat)
    requires AreLive(fs, live) && AreSettled(live, retreats, next) && k < |next|
    ensures i < |fs| && next[k].id == fs[i].id && next[k].faction == fs[i].faction && next[k].at == fs[i].at
  {
    hide StatusAfter, Positive, StrictlySortedBy;
    assert live[k] in live;
    i :| 0 <= i < |fs| && Positive(fs[i].health) != [] && live[k] == Buried(fs[i]);
  }

  /** Under orders that carry a faction's plan, whatever else they hold, its survivors stand as planned. */
  lemma CarriedIsObeyed(s: State, f: string, standing: map<string, Route.Standing>, orders: seq<Order>, next: State,
                        res: Resolution, w: Passage)
    requires ValidState(s) && Settled(s.elements) && NamesApart(s.factions.0, s.factions.1)
    requires Resolved(s, orders, next, res, w) && Carries(s, f, orders, PlanFor(s, f, standing))
    ensures Stand(s, f, PlanFor(s, f, standing), next)
  {
    hide *;
    forall g | g in next.elements && g.faction == f
      ensures exists e :: e in s.elements && e.id == g.id && e.faction == f && g.at == Obeyed(e, PlanFor(s, f, standing))
    {
      SurvivorStands(s, orders, next, res, w, g);
      var i :| 0 <= i < |s.elements| && g.id == s.elements[i].id && g.faction == s.elements[i].faction
               && g.at == Moved(s.world, s.elements, orders)[i].at;
      PlanIsObeyed(s, f, standing, orders, i);
      assert s.elements[i] in s.elements;
    }
    StandByEach(s, f, PlanFor(s, f, standing), next);
  }

  lemma StandByEach(s: State, f: string, orders: seq<Order>, next: State)
    requires forall g | g in next.elements && g.faction == f ::
               exists e :: e in s.elements && e.id == g.id && e.faction == f && g.at == Obeyed(e, orders)
    ensures Stand(s, f, orders, next)
  {
    hide Obeyed;
  }

  // ----- From the issue -----

  /** The orders an issue for the exercise's next round carries: the plan for the faction's elements as it observed them. */
  ghost predicate IssuedOn(ex: Exercise, f: string, o: Observation, standing: map<string, Route.Standing>, issue: Issue) {
    && IsObservation(ex.state, f, ex.round, o)
    && issue == Issue(ex.round + 1, Planning.PlanOf(Terrain.Of(ex.state.world.sectors), Reports(o.own), standing))
  }

  function Reports(own: seq<Element>): seq<Route.Element> {
    seq(|own|, i requires 0 <= i < |own| => Reported(own[i]))
  }

  /** Operations plans for an observation what it would plan for the state's own list. */
  lemma PlanFromObservation(s: State, f: string, round: int, o: Observation, standing: map<string, Route.Standing>)
    requires UniqueElements(s.elements) && IsObservation(s, f, round, o)
    ensures Planning.PlanOf(Terrain.Of(s.world.sectors), Reports(o.own), standing) == PlanFor(s, f, standing)
  {
    var a, b := Reports(o.own), Own(s.elements, f);
    ReportsDistinct(o.own);
    OwnDistinct(s.elements, f);
    forall r ensures r in a <==> r in b {
      if r in a {
        var i :| 0 <= i < |a| && a[i] == r;
        assert o.own[i] in o.own;
      }
      if r in b {
        var e :| e in s.elements && e.faction == f && r == Reported(e);
        var i :| 0 <= i < |o.own| && o.own[i] == e;
        assert a[i] == r;
      }
    }
    hide *;
    SortedAlike(a, b);
    PlanByOrder(Terrain.Of(s.world.sectors), a, b, standing);
    PlanForIs(s, f, standing);
  }

  lemma PlanForIs(s: State, f: string, standing: map<string, Route.Standing>)
    ensures PlanFor(s, f, standing) == Planning.PlanOf(Terrain.Of(s.world.sectors), Own(s.elements, f), standing)
  {
  }

  lemma PlanByOrder(t: Terrain.Terrain, a: seq<Route.Element>, b: seq<Route.Element>, standing: map<string, Route.Standing>)
    requires SortBy(a, Route.IdOf) == SortBy(b, Route.IdOf)
    ensures Planning.PlanOf(t, a, standing) == Planning.PlanOf(t, b, standing)
  {
  }

  lemma ReportsDistinct(own: seq<Element>)
    requires StrictlySortedBy(own, IdOf)
    ensures DistinctKeys(Reports(own), Route.IdOf)
  {
    forall i, j | 0 <= i < j < |own| ensures own[i].id != own[j].id {
      assert Keys.Less(IdOf(own[i]), IdOf(own[j]));
      Keys.LessTotal(own[i].id, own[j].id);
    }
  }

  lemma SortedAlike(a: seq<Route.Element>, b: seq<Route.Element>)
    requires DistinctKeys(a, Route.IdOf) && DistinctKeys(b, Route.IdOf) && forall r :: r in a <==> r in b
    ensures SortBy(a, Route.IdOf) == SortBy(b, Route.IdOf)
  {
    SortByStrict(a, Route.IdOf);
    SortByStrict(b, Route.IdOf);
    SortByMembers(a, Route.IdOf);
    SortByMembers(b, Route.IdOf);
    SortedUnique(SortBy(a, Route.IdOf), SortBy(b, Route.IdOf), Route.IdOf);
  }

  /** Told of the round an exercise is at, operations issues for the next one, and the issue carries the plan. */
  lemma ManeuverIssues(ex: Exercise, f: string, o: Observation, op: Operation, next: Operation, issued: Option<Issue>)
    requires Kept(ex) && ex.phase == Running && IsObservation(ex.state, f, ex.round, o)
    requires op.open && op.round < ex.round && op.limit == ex.limit
    requires Maneuvers(Terrain.Of(ex.state.world.sectors), op, ex.round, Reports(o.own), next, issued)
    ensures issued.Some? && IssuedOn(ex, f, o, next.standing, issued.value)
  {
    RunningEntry(ex);
    hide Kept, IsObservation;
  }

  /** So is what a directive changes while operations stands at that round. */
  lemma AssignIssues(ex: Exercise, f: string, o: Observation, op: Operation, d: Directive, next: Operation,
                     issued: Option<Issue>)
    requires IsObservation(ex.state, f, ex.round, o) && op.round == ex.round && op.elements == Reports(o.own)
    requires Assigns(Terrain.Of(ex.state.world.sectors), op, d, next, issued) && issued.Some?
    ensures IssuedOn(ex, f, o, next.standing, issued.value)
  {
    hide IsObservation, SetAll;
  }

  /** An issue that reaches a running exercise still at its round is accepted, and once the round is resolved, whatever
      the other faction recorded, every survivor of the faction stands where its order's last step is. */
  lemma IssueIsObeyed(ex: Exercise, f: string, o: Observation, standing: map<string, Route.Standing>, issue: Issue,
                      refused: Option<Refusal>, ready: Exercise, next: Exercise)
    requires Kept(ex) && ex.phase == Running && Settled(ex.state.elements)
    requires NamesApart(ex.state.factions.0, ex.state.factions.1)
    requires IssuedOn(ex, f, o, standing, issue)
    requires Recording(ex, f, issue.orders, refused, ready) && ResolvedBy(ready, next)
    ensures issue.round == ex.round + 1 && refused.None?
    ensures next.round == ex.round + 1 && Stand(ex.state, f, issue.orders, next.state)
  {
    RunningFacts(ex);
    hide *;
    PlannedOn(ex, f, o, standing, issue);
    RecordedIsObeyed(ex, f, standing, refused, ready, next);
  }

  lemma PlannedOn(ex: Exercise, f: string, o: Observation, standing: map<string, Route.Standing>, issue: Issue)
    requires UniqueElements(ex.state.elements) && IssuedOn(ex, f, o, standing, issue)
    ensures issue.round == ex.round + 1 && issue.orders == PlanFor(ex.state, f, standing)
  {
    hide IsObservation, Planning.PlanOf, PlanFor;
    PlanFromObservation(ex.state, f, ex.round, o, standing);
  }

  lemma OwnCarried(s: State, f: string, played: seq<Order>, orders: seq<Order>)
    requires forall id | Owns(s.elements, f, id) :: OrderFor(played, id) == OrderFor(orders, id)
    ensures Carries(s, f, played, orders)
  {
    hide OrderFor;
    assert forall e | e in s.elements && e.faction == f :: Owns(s.elements, f, e.id);
  }

  /** Both factions' plans, recorded for the next round one after the other, are obeyed by the round: every survivor
      stands where its own faction's plan sends it. */
  lemma BothAreObeyed(ex: Exercise, a: map<string, Route.Standing>, b: map<string, Route.Standing>, mid: Exercise,
                      refused: Option<Refusal>, ready: Exercise, refused': Option<Refusal>, next: Exercise)
    requires Kept(ex) && ex.phase == Running && Settled(ex.state.elements)
    requires NamesApart(ex.state.factions.0, ex.state.factions.1)
    requires Records(ex, ex.state.factions.0, ex.round + 1, PlanFor(ex.state, ex.state.factions.0, a), mid, refused)
    requires Records(mid, ex.state.factions.1, ex.round + 1, PlanFor(ex.state, ex.state.factions.1, b), ready, refused')
    requires ResolvedBy(ready, next)
    ensures refused.None? && refused'.None? && next.round == ex.round + 1
    ensures Stand(ex.state, ex.state.factions.0, PlanFor(ex.state, ex.state.factions.0, a), next.state)
    ensures Stand(ex.state, ex.state.factions.1, PlanFor(ex.state, ex.state.factions.1, b), next.state)
  {
    hide *;
    var s, f, g := ex.state, ex.state.factions.0, ex.state.factions.1;
    RunningFacts(ex);
    Named(ex.state);
    RecordsKeep(ex, f, ex.round + 1, PlanFor(s, f, a), mid, refused);
    NextIsRecorded(ex, f, PlanFor(s, f, a), mid, refused);
    NextIsRecorded(mid, g, PlanFor(s, g, b), ready, refused');
    RecordedFirst(ex, f, PlanFor(s, f, a), refused, mid, g, PlanFor(s, g, b), refused', ready);
    RecordedLast(mid, g, PlanFor(s, g, b), refused', ready);
    RecordedIsObeyed(ex, f, a, refused, ready, next);
    RecordedIsObeyed(mid, g, b, refused', ready, next);
  }

  lemma Named(s: State)
    requires ValidState(s)
    ensures IsFaction(s.factions, s.factions.0) && IsFaction(s.factions, s.factions.1) && s.factions.0 != s.factions.1
  {
  }

  lemma NextIsRecorded(ex: Exercise, f: string, orders: seq<Order>, after: Exercise, refused: Option<Refusal>)
    requires Records(ex, f, ex.round + 1, orders, after, refused)
    ensures RecordsNext(ex, f, orders, after, refused)
  {
  }

  lemma RecordsKeep(ex: Exercise, f: string, round: int, orders: seq<Order>, after: Exercise, refused: Option<Refusal>)
    requires Kept(ex) && Records(ex, f, round, orders, after, refused)
    ensures Kept(after) && after == ex.(orders := after.orders)
  {
    hide Recorded, ValidState;
  }

  lemma RecordedFirst(ex: Exercise, f: string, orders: seq<Order>, refused: Option<Refusal>, mid: Exercise, g: string,
                      others: seq<Order>, refused': Option<Refusal>, ready: Exercise)
    requires IsFaction(ex.state.factions, f) && f != g
    requires RecordsNext(ex, f, orders, mid, refused) && RecordsNext(mid, g, others, ready, refused')
    ensures Recording(ex, f, orders, refused, ready)
  {
    hide RecordsNext;
    assert OthersRecord(mid, f, ready);
  }

  lemma RecordedLast(ex: Exercise, f: string, orders: seq<Order>, refused: Option<Refusal>, ready: Exercise)
    requires IsFaction(ex.state.factions, f) && RecordsNext(ex, f, orders, ready, refused)
    ensures Recording(ex, f, orders, refused, ready)
  {
    hide RecordsNext;
  }

  lemma RecordedIsObeyed(ex: Exercise, f: string, standing: map<string, Route.Standing>, refused: Option<Refusal>,
                         ready: Exercise, next: Exercise)
    requires Kept(ex) && ex.phase == Running && Settled(ex.state.elements)
    requires NamesApart(ex.state.factions.0, ex.state.factions.1)
    requires Recording(ex, f, PlanFor(ex.state, f, standing), refused, ready) && ResolvedBy(ready, next)
    ensures refused.None? && next.round == ex.round + 1
    ensures Stand(ex.state, f, PlanFor(ex.state, f, standing), next.state)
  {
    RunningFacts(ex);
    hide *;
    var orders := PlanFor(ex.state, f, standing);
    RecordedIsPlayed(ex, f, orders, refused, ready, next);
    var played, res, w :| Resolved(ex.state, played, next.state, res, w)
                          && forall id | Owns(ex.state.elements, f, id) :: OrderFor(played, id) == OrderFor(orders, id);
    OwnCarried(ex.state, f, played, orders);
    CarriedIsObeyed(ex.state, f, standing, played, next.state, res, w);
  }

  // ----- Every round ahead -----

  /** Every state an exercise stands in after its first round is settled. */
  lemma LaterIsSettled(ex: Exercise)
    requires Kept(ex) && ex.history != [] && 0 < ex.round
    ensures Settled(ex.state.elements)
  {
    hide *;
    HistoryEnds(ex);
    EntryIsSettled(ex.history, ex.round);
  }

  lemma EntryIsSettled(h: seq<HistoryRound>, n: nat)
    requires Recorded(h) && 0 < n < |h|
    ensures Settled(h[n].state.elements)
  {
    hide *;
    RoundAt(h, n);
    RecordStaysValid(h, n - 1);
    ResolvedIsSettled(h[n - 1].state, h[n].state, h[n].resolution.value);
  }

  lemma HistoryEnds(ex: Exercise)
    requires Kept(ex) && ex.history != []
    ensures Recorded(ex.history) && |ex.history| == ex.round + 1 && ex.history[ex.round].state == ex.state
  {
    hide Recorded, ValidState;
  }

  lemma ResolvedIsSettled(s: State, next: State, res: Resolution)
    requires ValidState(s) && ResolvedTo(s, next, res)
    ensures Settled(next.elements)
  {
    hide ValidState, Resolved, Settled;
    var orders, w :| Resolved(s, orders, next, res, w);
    ResolvedIsValid(s, orders, next, res, w);
  }
}
