/** What intelligence believes against what exercise recorded: no assessment it issues draws a finding. */
module Believing {
  import opened World
  import opened State
  import opened Sorting
  import opened Observing
  import opened Fusion
  import opened Assessing
  import opened TheaterCheck
  import opened Reconciling
  import opened Resolution
  import opened Rounds
  import Capturing

  // ----- Exercise's record of a run -----

  ghost predicate ResolvedTo(s: State, next: State, res: Resolution) {
    exists orders, w :: Resolved(s, orders, next, res, w)
  }

  /** The state is what a round made of the one before it, and both factions observed it. */
  ghost predicate IsRound(h: seq<HistoryRound>, n: nat)
    requires n < |h|
  {
    var r := h[n];
    && r.round == n
    && |r.observations| == 2
    && IsObservation(r.state, r.state.factions.0, n, r.observations[0])
    && IsObservation(r.state, r.state.factions.1, n, r.observations[1])
    && (if n == 0 then ValidState(r.state) && r.resolution.None?
        else r.resolution.Some? && ResolvedTo(h[n - 1].state, r.state, r.resolution.value))
  }

  ghost predicate Recorded(h: seq<HistoryRound>) {
    h != [] && forall n | 0 <= n < |h| :: IsRound(h, n)
  }

  function Factions(h: seq<HistoryRound>): (fs: seq<string>)
    requires h != []
    ensures |fs| == 2
  {
    [h[0].state.factions.0, h[0].state.factions.1]
  }

  /** What the faction sees after a round; nothing before the first. */
  function View(h: seq<HistoryRound>, side: nat, n: int): Observation
    requires n < |h| && (0 <= n ==> side < |h[n].observations|)
  {
    if n < 0 then Observation("", -1, [], [], []) else h[n].observations[side]
  }

  ghost predicate Viewable(h: seq<HistoryRound>, side: nat, n: int) {
    side < 2 && -1 <= n < |h| && (0 <= n ==> |h[n].observations| == 2)
  }

  /** The round took the objective from the faction. */
  ghost predicate Lost(h: seq<HistoryRound>, f: string, at: Location, holder: string, round: int) {
    0 <= round < |h| && Took(h[round], f, at, holder)
  }

  lemma RoundAt(h: seq<HistoryRound>, n: nat)
    requires Recorded(h) && n < |h|
    ensures h[n].round == n && |h[n].observations| == 2
    ensures if n == 0 then ValidState(h[n].state) && h[n].resolution.None?
            else h[n].resolution.Some? && ResolvedTo(h[n - 1].state, h[n].state, h[n].resolution.value)
  {
    hide ValidState, ResolvedTo, IsObservation;
    assert IsRound(h, n);
  }

  lemma {:induction false} RecordStaysValid(h: seq<HistoryRound>, n: nat)
    requires Recorded(h) && n < |h|
    ensures ValidState(h[n].state) && h[n].state.world == h[0].state.world && h[n].state.factions == h[0].state.factions
  {
    hide *;
    RoundAt(h, n);
    if n > 0 {
      RecordStaysValid(h, n - 1);
      ResolvedToIsValid(h[n - 1].state, h[n].state, h[n].resolution.value);
    }
  }

  lemma ResolvedToIsValid(s: State, next: State, res: Resolution)
    requires ValidState(s) && ResolvedTo(s, next, res)
    ensures ValidState(next) && next.world == s.world && next.factions == s.factions
  {
    var orders, w :| Resolved(s, orders, next, res, w);
    hide *;
    ResolvedIsValid(s, orders, next, res, w);
    SameWorld(s, orders, next, res, w);
  }

  lemma SameWorld(s: State, orders: seq<Order>, next: State, res: Resolution, w: Passage)
    requires Resolved(s, orders, next, res, w)
    ensures next.world == s.world && next.factions == s.factions
  {
    hide Fired, AreSettled, Captured, CapturesOf;
  }

  // ----- Reports are true of the round they name -----

  lemma CaptureTakes(s: State, orders: seq<Order>, next: State, res: Resolution, w: Passage, c: Capture)
    requires Resolved(s, orders, next, res, w) && c in res.captures
    ensures HolderOf(next.holders, c.at) == c.faction
  {
    hide Resolved;
    Capturing.CapturesAreChanges(s, orders, next, res, w, c);
  }

  lemma LossIsTrue(h: seq<HistoryRound>, f: string, at: Location, holder: string, round: int)
    requires Recorded(h) && Lost(h, f, at, holder, round)
    ensures HolderOf(h[round].state.holders, at) == holder
  {
    assert IsRound(h, round);
    var c := Capture(at, holder, f);
    var orders, w :| Resolved(h[round - 1].state, orders, h[round].state, h[round].resolution.value, w);
    hide *;
    CaptureTakes(h[round - 1].state, orders, h[round].state, h[round].resolution.value, w, c);
  }

  lemma ViewFacts(h: seq<HistoryRound>, side: nat, n: nat)
    requires Recorded(h) && n < |h| && side < 2
    ensures Viewable(h, side, n) && View(h, side, n).faction == Factions(h)[side] && View(h, side, n).round == n
    ensures IsObservation(h[n].state, Factions(h)[side], n, View(h, side, n))
    ensures ObservationTellsApart(View(h, side, n)) && StrictlySortedBy(View(h, side, n).own, IdOf)
    ensures forall st | st in View(h, side, n).objectives :: st.holder == HolderOf(h[n].state.holders, st.at)
  {
    assert IsRound(h, n);
    RecordStaysValid(h, n);
    hide IsObservation, ValidState;
    ObservationFacts(h[n].state, Factions(h)[side], n, View(h, side, n));
  }

  lemma ObservationFacts(s: State, f: string, round: int, o: Observation)
    requires IsObservation(s, f, round, o)
    ensures o.faction == f && o.round == round && ObservationTellsApart(o)
    ensures StrictlySortedBy(o.own, IdOf) && StrictlySortedBy(o.contacts, IdOf) && StrictlySortedBy(o.objectives, StatusKey)
    ensures forall st | st in o.objectives :: st.holder == HolderOf(s.holders, st.at)
  {
    StrictIsDistinct(o.own, IdOf);
    StrictIsDistinct(o.contacts, IdOf);
    StrictIsDistinct(o.objectives, StatusKey);
  }

  // ----- A faithful picture -----

  /** The contact is in sight as the faction saw it, or remembered, not too long, in a cell out of sight. */
  ghost predicate FaithfulContact(h: seq<HistoryRound>, side: nat, k: int, round: int, c: Contact)
    requires Viewable(h, side, round)
  {
    var obs := View(h, side, round);
    && c.age == round - c.seen && 0 <= c.seen && 0 <= c.age <= k
    && (c.age == 0 ==> c.element in obs.contacts)
    && (c.age > 0 ==> !Seen(obs.own, c.element.at))
    && Viewable(h, side, c.seen) && c.element in View(h, side, c.seen).contacts
  }

  /** The belief is of the round an alert told of, or of a round the faction had the objective in sight. */
  ghost predicate FaithfulBelief(h: seq<HistoryRound>, side: nat, round: int, o: Belief)
    requires h != [] && side < 2
  {
    && 0 <= o.seen < |h| && o.age == Max0(round - o.seen)
    && (Lost(h, Factions(h)[side], o.at, o.holder, o.seen)
        || (o.seen <= round && Viewable(h, side, o.seen)
            && ObjectiveStatus(o.at, o.holder) in View(h, side, o.seen).objectives))
  }

  /** The objective is known as of the round or a later one. */
  ghost predicate Current(objectives: seq<Belief>, at: Location, round: int) {
    exists o :: o in objectives && o.at == at && o.seen >= round
  }

  ghost predicate Faithful(h: seq<HistoryRound>, side: nat, k: int, p: Picture)
    requires h != []
  {
    && Ordered(p) && Viewable(h, side, p.round)
    && var obs := View(h, side, p.round);
    && p.own == SortBy(obs.own, IdOf)
    && (forall c | c in p.contacts :: FaithfulContact(h, side, k, p.round, c))
    && (forall e | e in obs.contacts :: Contact(e, p.round, 0) in p.contacts)
    && (forall o | o in p.objectives :: FaithfulBelief(h, side, p.round, o))
    && (forall st | st in obs.objectives :: Current(p.objectives, st.at, p.round))
  }

  /** The delivery is one exercise sent the faction. */
  ghost predicate Genuine(h: seq<HistoryRound>, side: nat, d: Delivery)
    requires h != [] && side < 2
  {
    match d
    case Sighting(obs) => 0 <= obs.round < |h| && Viewable(h, side, obs.round) && obs == View(h, side, obs.round)
    case Loss(at, holder, round) => Lost(h, Factions(h)[side], at, holder, round)
    case Conclusion(round) => round == |h| - 1
  }

  lemma OpenIsFaithful(h: seq<HistoryRound>, side: nat, k: int, grid: seq<Sector>)
    requires h != [] && side < 2 && UniqueIds(grid)
    ensures Faithful(h, side, k, Open(grid))
  {
  }

  // ----- Fusing keeps a picture faithful -----

  lemma FusedContactsFaithful(h: seq<HistoryRound>, side: nat, k: int, p: Picture, q: Picture)
    requires Recorded(h) && side < 2 && 0 <= k && Faithful(h, side, k, p) && p.round < q.round < |h|
    requires Viewable(h, side, q.round) && IsFused(p, View(h, side, q.round), k, q)
    ensures forall c | c in q.contacts :: FaithfulContact(h, side, k, q.round, c)
    ensures forall e | e in View(h, side, q.round).contacts :: Contact(e, q.round, 0) in q.contacts
  {
    var obs := View(h, side, q.round);
    hide Seen, IsRound, FusedObjectives, SeesInGrid, FaithfulBelief, Current;
    assert FusedContacts(p.contacts, obs.own, obs.contacts, obs.round, k, q.contacts);
    ViewFacts(h, side, q.round);
    forall c | c in q.contacts ensures FaithfulContact(h, side, k, q.round, c) {
      if !(c.element in obs.contacts && c == Contact(c.element, obs.round, 0)) {
        var d :| d in p.contacts && c == Contact(d.element, d.seen, obs.round - d.seen)
                 && c.age <= k && !Seen(obs.own, d.element.at);
        assert FaithfulContact(h, side, k, p.round, d);
      }
    }
  }

  lemma FusedBeliefsFaithful(h: seq<HistoryRound>, side: nat, k: int, p: Picture, q: Picture)
    requires Recorded(h) && side < 2 && Faithful(h, side, k, p) && p.round < q.round < |h|
    requires Viewable(h, side, q.round) && IsFused(p, View(h, side, q.round), k, q)
    ensures forall o | o in q.objectives :: FaithfulBelief(h, side, q.round, o)
    ensures forall st | st in View(h, side, q.round).objectives :: Current(q.objectives, st.at, q.round)
  {
    var obs := View(h, side, q.round);
    ViewFacts(h, side, q.round);
    hide Recorded, FusedContacts, SeesInGrid, FaithfulContact, IsObservation, Factions, View, Current, Updated,
         FaithfulBelief, ObservationTellsApart, Ordered, Viewable;
    assert FusedObjectives(p.objectives, obs.objectives, q.round, q.objectives);
    forall o | o in q.objectives ensures FaithfulBelief(h, side, q.round, o) {
      if d :| d in p.objectives && Updated(d, obs.objectives, q.round, o) {
        assert FaithfulBelief(h, side, p.round, d);
        UpdatedFaithful(h, side, p.round, q.round, d, o);
      } else {
        SightedFaithful(h, side, q.round, o);
      }
    }
    forall st | st in obs.objectives ensures Current(q.objectives, st.at, q.round) {
      SightedIsCurrent(p.objectives, obs.objectives, q.round, q.objectives, st);
    }
  }

  lemma SightedFaithful(h: seq<HistoryRound>, side: nat, round: int, o: Belief)
    requires h != [] && Viewable(h, side, round) && 0 <= round
    requires ObjectiveStatus(o.at, o.holder) in View(h, side, round).objectives && o == Belief(o.at, o.holder, round, 0)
    ensures FaithfulBelief(h, side, round, o)
  {
  }

  lemma UpdatedFaithful(h: seq<HistoryRound>, side: nat, before: int, round: int, d: Belief, o: Belief)
    requires h != [] && side < 2 && Viewable(h, side, round) && 0 <= round && before < round
    requires FaithfulBelief(h, side, before, d) && Updated(d, View(h, side, round).objectives, round, o)
    ensures FaithfulBelief(h, side, round, o)
  {
    hide Lost, Factions;
  }

  lemma SightedIsCurrent(prev: seq<Belief>, status: seq<ObjectiveStatus>, round: int, objectives: seq<Belief>,
                         st: ObjectiveStatus)
    requires FusedObjectives(prev, status, round, objectives) && st in status
    ensures Current(objectives, st.at, round)
  {
    assert ObjectiveStatus(st.at, st.holder) in status && Lists(status, st.at);
    if o :| o in prev && o.at == st.at {
      var p := if o.seen <= round then Belief(o.at, st.holder, round, 0) else Belief(o.at, o.holder, o.seen, Max0(round - o.seen));
      assert Updated(o, status, round, p);
      assert p in objectives;
    } else {
      assert Belief(st.at, st.holder, round, 0) in objectives;
    }
  }

  lemma FusedFaithful(h: seq<HistoryRound>, side: nat, k: int, p: Picture, q: Picture)
    requires Recorded(h) && side < 2 && 0 <= k && Faithful(h, side, k, p) && p.round < q.round < |h|
    requires Viewable(h, side, q.round) && IsFused(p, View(h, side, q.round), k, q)
    ensures Faithful(h, side, k, q)
  {
    FusedContactsFaithful(h, side, k, p, q);
    FusedBeliefsFaithful(h, side, k, p, q);
    hide FusedContacts, FusedObjectives, FaithfulContact, FaithfulBelief, SeesInGrid, Current, IsRound, View;
    assert FusedContacts(p.contacts, View(h, side, q.round).own, View(h, side, q.round).contacts, View(h, side, q.round).round, k, q.contacts);
    assert Ordered(q) by {
      FusedOrdered(p, View(h, side, q.round), k, q);
    }
  }

  /** So does an alert of a loss, whichever round the picture is of. */
  lemma AlertedFaithful(h: seq<HistoryRound>, side: nat, k: int, p: Picture, at: Location, holder: string, round: int,
                        q: Picture, changed: bool)
    requires Recorded(h) && side < 2 && Faithful(h, side, k, p)
    requires Lost(h, Factions(h)[side], at, holder, round) && IsAlerted(p, at, holder, round, q, changed)
    ensures Faithful(h, side, k, q)
  {
    hide FaithfulContact, IsRound, Factions, View;
    var obs := View(h, side, p.round);
    var told := Belief(at, holder, round, Max0(p.round - round));
    if !(exists o :: o in p.objectives && o.at == at && o.seen > round) {
      assert FaithfulBelief(h, side, p.round, told);
      forall st | st in obs.objectives ensures Current(q.objectives, st.at, p.round) {
        var o :| o in p.objectives && o.at == st.at && o.seen >= p.round;
        if o.at == at {
          assert told in q.objectives;
        } else {
          assert o in q.objectives;
        }
      }
    }
  }

  // ----- A faithful picture draws no finding -----

  lemma SightIsCurrent(own: seq<Element>, at: Location)
    ensures InSight(own, at, CURRENT_SIGHT) <==> Seen(own, at)
  {
    forall e: Element ensures (if e.kind in CURRENT_SIGHT then CURRENT_SIGHT[e.kind] else 0) == e.kind.Sight() {
    }
  }

  lemma SameElementsReflexive(own: seq<Element>)
    requires StrictlySortedBy(own, IdOf)
    ensures SameElements(SortBy(own, IdOf), own)
  {
    StrictIsDistinct(own, IdOf);
    SortedList(own, IdOf);
    SortedUnique(SortBy(own, IdOf), own, IdOf);
  }

  lemma ContactsAgree(h: seq<HistoryRound>, side: nat, k: int, p: Picture, x: Finding)
    requires h != [] && Faithful(h, side, k, p) && 0 <= p.round
    ensures !ContactDeparts(p, View(h, side, p.round), k, CURRENT_SIGHT, x)
  {
    var obs := View(h, side, p.round);
    hide FaithfulBelief, Seen, InSight, Current, IsRound, View;
    forall e | e in obs.contacts ensures Reports(p, e) {
      var c := Contact(e, p.round, 0);
      var i :| 0 <= i < |p.contacts| && p.contacts[i] == c;
      StrictIsDistinct(p.contacts, ContactId);
      assert forall j | i < j < |p.contacts| :: ContactId(p.contacts[i]) != ContactId(p.contacts[j]);
    }
    forall c | c in p.contacts ensures !ContactFinding(c, obs, k, CURRENT_SIGHT, x) {
      assert FaithfulContact(h, side, k, p.round, c);
      SightIsCurrent(obs.own, c.element.at);
    }
  }

  /** Every belief was true in the round it names. */
  lemma BeliefWasTrue(h: seq<HistoryRound>, side: nat, round: int, o: Belief)
    requires Recorded(h) && side < 2 && FaithfulBelief(h, side, round, o)
    ensures o.holder == HolderOf(h[o.seen].state.holders, o.at)
  {
    hide Recorded, View, Factions, IsObservation, ObservationTellsApart, HolderOf, Took, Viewable;
    if Lost(h, Factions(h)[side], o.at, o.holder, o.seen) {
      LossIsTrue(h, Factions(h)[side], o.at, o.holder, o.seen);
    } else {
      ViewFacts(h, side, o.seen);
      assert ObjectiveStatus(o.at, o.holder).holder == HolderOf(h[o.seen].state.holders, o.at);
    }
  }

  lemma CurrentIsListed(objectives: seq<Belief>, o: Belief, round: int)
    requires StrictlySortedBy(objectives, BeliefKey) && o in objectives && Current(objectives, o.at, round)
    ensures o.seen >= round
  {
    var q :| q in objectives && q.at == o.at && q.seen >= round;
    OneOfKey(objectives, BeliefKey, q, o);
  }

  /** Of an objective in sight, the belief of its round or an earlier one is what the faction sees. */
  lemma BeliefInSight(h: seq<HistoryRound>, side: nat, k: int, p: Picture, o: Belief, holder: string)
    requires Recorded(h) && Faithful(h, side, k, p) && 0 <= p.round && o in p.objectives && o.seen <= p.round
    requires ObjectiveStatus(o.at, holder) in View(h, side, p.round).objectives
    ensures o.age == 0 && o.holder == holder
  {
    var st := ObjectiveStatus(o.at, holder);
    hide Recorded, FaithfulContact, View, Factions, IsObservation, ObservationTellsApart, HolderOf, Lost, Current;
    assert Current(p.objectives, st.at, p.round);
    CurrentIsListed(p.objectives, o, p.round);
    assert FaithfulBelief(h, side, p.round, o);
    BeliefWasTrue(h, side, p.round, o);
    ViewFacts(h, side, p.round);
    assert st.holder == HolderOf(h[p.round].state.holders, o.at);
  }

  lemma OneOfKey<T>(s: seq<T>, key: T -> string, x: T, y: T)
    requires StrictlySortedBy(s, key) && x in s && y in s && key(x) == key(y)
    ensures x == y
  {
    StrictIsDistinct(s, key);
  }

  lemma RecordSees(h: seq<HistoryRound>, rec: Record, side: nat, at: Location, holder: string, n: nat)
    requires Recorded(h) && IsRecord(h, Factions(h), rec) && side < 2 && n < |h|
    requires Viewable(h, side, n) && ObjectiveStatus(at, holder) in View(h, side, n).objectives
    ensures SeenBefore(rec, Factions(h)[side], at, n)
  {
    var f := Factions(h)[side];
    assert IsRound(h, n);
    assert Lists(h[n].observations[side].objectives, at);
    assert Sighted(h[n], Factions(h), f, at);
    hide LastByKey, AreLossAlerts, IsObservation, ResolvedTo, ValidState, Lists;
    assert AreFirstSightings(h, Factions(h), rec.firstSeen) && f in rec.firstSeen && at in rec.firstSeen[f];
    var m :| 0 <= m < |h| && h[m].round == rec.firstSeen[f][at] && Sighted(h[m], Factions(h), f, at)
             && forall i | 0 <= i < m :: !Sighted(h[i], Factions(h), f, at);
    assert IsRound(h, m);
  }

  lemma RecordTells(h: seq<HistoryRound>, rec: Record, side: nat, o: Belief)
    requires Recorded(h) && IsRecord(h, Factions(h), rec) && side < 2
    requires Lost(h, Factions(h)[side], o.at, o.holder, o.seen)
    ensures Alerted(rec, Factions(h)[side], o)
  {
    var f, n := Factions(h)[side], o.seen;
    assert IsRound(h, n);
    hide LastByKey, AreFirstSightings, IsObservation, ResolvedTo, ValidState;
    var a := LossAlert(o.seen, o.holder);
    assert h[n].round == a.round && Took(h[n], f, o.at, a.holder);
    assert AlertedIn(rec.alerts[f], o.at, a);
  }

  lemma BeliefAgrees(h: seq<HistoryRound>, rec: Record, side: nat, k: int, p: Picture, o: Belief, now: Option<string>)
    requires Recorded(h) && IsRecord(h, Factions(h), rec) && Faithful(h, side, k, p) && 0 <= p.round
    requires o in p.objectives && SaysNow(View(h, side, p.round).objectives, o.at, now)
    ensures JudgeBelief(rec, Factions(h)[side], p.round, now, o).None?
  {
    assert FaithfulBelief(h, side, p.round, o);
    assert o.age == Max0(p.round - o.seen);
    hide *;
    var f := Factions(h)[side];
    if now.Some? && o.seen <= p.round {
      NowInSight(h, side, p.round, o.at, now);
      BeliefInSight(h, side, k, p, o, now.value);
    }
    BeliefKnown(h, rec, side, p.round, o);
    OutOfSight(View(h, side, p.round).objectives, o, now);
    Explained(rec, f, p.round, now, o);
  }

  /** The record explains where a faithful belief comes from. */
  lemma BeliefKnown(h: seq<HistoryRound>, rec: Record, side: nat, round: int, o: Belief)
    requires Recorded(h) && IsRecord(h, Factions(h), rec) && side < 2 && FaithfulBelief(h, side, round, o)
    requires Viewable(h, side, round)
    ensures || Alerted(rec, Factions(h)[side], o)
            || (SeenBefore(rec, Factions(h)[side], o.at, round) && o.seen <= round
                && (o.seen == round ==> ObjectiveStatus(o.at, o.holder) in View(h, side, round).objectives))
  {
    hide Recorded, View, Factions, IsRecord, Alerted, SeenBefore, Lost;
    if Lost(h, Factions(h)[side], o.at, o.holder, o.seen) {
      RecordTells(h, rec, side, o);
    } else {
      RecordSees(h, rec, side, o.at, o.holder, o.seen);
      SeenBeforeLater(rec, Factions(h)[side], o.at, o.seen, round);
    }
  }

  lemma NowInSight(h: seq<HistoryRound>, side: nat, round: int, at: Location, now: Option<string>)
    requires Viewable(h, side, round) && now.Some? && SaysNow(View(h, side, round).objectives, at, now)
    ensures ObjectiveStatus(at, now.value) in View(h, side, round).objectives
  {
    hide View;
  }

  lemma OutOfSight(status: seq<ObjectiveStatus>, o: Belief, now: Option<string>)
    requires SaysNow(status, o.at, now)
    ensures now.None? ==> ObjectiveStatus(o.at, o.holder) !in status
  {
  }

  lemma SeenBeforeLater(rec: Record, f: string, at: Location, n: int, m: int)
    requires SeenBefore(rec, f, at, n) && n <= m
    ensures SeenBefore(rec, f, at, m)
  {
  }

  /** When the rules explain a belief. */
  lemma Explained(rec: Record, f: string, round: int, now: Option<string>, o: Belief)
    requires o.age == Max0(round - o.seen)
    requires now.Some? && o.seen <= round ==> o.age == 0 && o.holder == now.value
    requires Alerted(rec, f, o) || (SeenBefore(rec, f, o.at, round) && o.seen <= round && (now.None? ==> o.seen < round))
    ensures JudgeBelief(rec, f, round, now, o).None?
  {
    hide Alerted, SeenBefore;
  }

  lemma ObjectivesAgree(h: seq<HistoryRound>, rec: Record, side: nat, k: int, p: Picture, x: Finding)
    requires Recorded(h) && IsRecord(h, Factions(h), rec) && Faithful(h, side, k, p) && 0 <= p.round
    ensures !ObjectiveDeparts(rec, Factions(h)[side], p, View(h, side, p.round), x)
  {
    var obs := View(h, side, p.round);
    forall st | st in obs.objectives ensures Believes(p.objectives, st.at) {
      assert Current(p.objectives, st.at, p.round);
    }
    hide FaithfulContact, FaithfulBelief, IsRound, View, Factions, IsRecord, JudgeBelief, SaysNow;
    forall o, now | o in p.objectives && SaysNow(obs.objectives, o.at, now)
      ensures JudgeBelief(rec, Factions(h)[side], p.round, now, o).None?
    {
      BeliefAgrees(h, rec, side, k, p, o, now);
    }
  }

  /** The record finds the round and the faction of the assessment. */
  lemma RecordFinds(h: seq<HistoryRound>, rec: Record, side: nat, a: Assessment)
    requires Recorded(h) && IsRecord(h, Factions(h), rec) && side < 2
    requires a.faction == Factions(h)[side] && 0 <= a.picture.round < |h|
    ensures |h[a.picture.round].observations| == 2
    ensures ObservationOf(rec, a) == Some(View(h, side, a.picture.round))
  {
    var n := a.picture.round;
    RecordStaysValid(h, 0);
    assert h[0].state.factions.0 != h[0].state.factions.1;
    hide AreFirstSightings, AreLossAlerts, IsObservation, ResolvedTo, ValidState;
    assert IsRound(h, n);
    assert RoundOf(h[n]) in rec.rounds;
    var i :| IsLastOf(h, RoundOf, n, i) && rec.rounds[n] == h[i];
    assert IsRound(h, i);
  }

  /** An assessment of a faithful picture draws no finding. */
  lemma FaithfulDrawsNone(h: seq<HistoryRound>, rec: Record, side: nat, k: int, a: Assessment, x: Finding)
    requires Recorded(h) && IsRecord(h, Factions(h), rec) && Faithful(h, side, k, a.picture) && 0 <= a.picture.round
    requires a.faction == Factions(h)[side]
    ensures !Departs(rec, a, k, CURRENT_SIGHT, x)
  {
    var p := a.picture;
    RecordFinds(h, rec, side, a);
    ViewFacts(h, side, p.round);
    SameElementsReflexive(View(h, side, p.round).own);
    ContactsAgree(h, side, k, p, x);
    ObjectivesAgree(h, rec, side, k, p, x);
    hide ContactDeparts, ObjectiveDeparts, SameElements, ObservationOf, View, Factions, Recorded, IsRecord,
         FaithfulContact, FaithfulBelief, Current, Ordered, Viewable, IsObservation, ObservationTellsApart;
  }
}
