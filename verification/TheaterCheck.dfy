/** Courier's check of assessments against the exercise's own record: a reading of the fusion rules written apart from
    the fusion. */
module TheaterCheck {
  import opened World
  import opened State
  import opened Observing
  import opened Fusion
  import opened Assessing
  import opened Sorting
  import opened Resolution

  datatype HistoryRound = HistoryRound(round: int, state: State, observations: seq<Observation>,
                                       resolution: Option<Resolution>)

  /** A loss alert exercise sent: the round of the loss, and the new holder. */
  datatype LossAlert = LossAlert(round: int, holder: string)

  datatype Record = Record(rounds: map<int, HistoryRound>, factions: seq<string>,
                           firstSeen: map<string, map<Location, int>>,
                           alerts: map<string, map<Location, seq<LossAlert>>>)

  /** A way an assessment departs from the record. */
  datatype Finding =
    | NoSuchRound
    | OwnDiffers
    | NotReportedInSight(id: string)
    | ReportedUnseen(id: string)
    | RememberedInSight(id: string)
    | RememberedTooLong(id: string)
    | ObjectiveUnreported(at: Location)
    | ObjectiveMisreported(at: Location)
    | ObjectiveNeverSeen(at: Location)
    | ObjectiveOutOfSight(at: Location)

  // ----- Elements -----

  predicate SameElement(a: Element, b: Element) {
    a.id == b.id && a.strength == b.strength && a.health == b.health && a.status == b.status && a.at == b.at
  }

  predicate SameElements(a: seq<Element>, b: seq<Element>) {
    var s, t := SortBy(a, IdOf), SortBy(b, IdOf);
    |s| == |t| && forall i | 0 <= i < |s| :: SameElement(s[i], t[i])
  }

  predicate InSight(own: seq<Element>, at: Location, sight: map<Kind, int>) {
    exists e :: e in own && e.at.sector == at.sector
                && Gap(e.at.point, at.point) <= if e.kind in sight then sight[e.kind] else 0
  }

  /** The sight rule exercise publishes with an exercise. */
  const CURRENT_SIGHT: map<Kind, int> := map[Squad := Squad.Sight(), Scout := Scout.Sight()]

  // ----- What counts as a finding -----

  /** The picture's contact of the ID, the last listed if several are. */
  ghost predicate Reports(p: Picture, e: Element) {
    exists i :: 0 <= i < |p.contacts| && p.contacts[i].element.id == e.id
                && (forall j | i < j < |p.contacts| :: p.contacts[j].element.id != e.id)
                && p.contacts[i].age == 0 && SameElement(p.contacts[i].element, e)
  }

  /** A finding on one reported contact. */
  ghost predicate ContactFinding(c: Contact, obs: Observation, k: int, sight: map<Kind, int>, x: Finding) {
    var id := c.element.id;
    || (x == ReportedUnseen(id) && c.age == 0 && forall e | e in obs.contacts :: e.id != id)
    || (x == RememberedInSight(id) && c.age > 0 && InSight(obs.own, c.element.at, sight))
    || (x == RememberedTooLong(id) && c.age > k)
  }

  ghost predicate ContactDeparts(p: Picture, obs: Observation, k: int, sight: map<Kind, int>, x: Finding) {
    || (exists e :: e in obs.contacts && x == NotReportedInSight(e.id) && !Reports(p, e))
    || (exists c :: c in p.contacts && ContactFinding(c, obs, k, sight, x))
  }

  predicate Alerted(rec: Record, f: string, o: Belief) {
    f in rec.alerts && o.at in rec.alerts[f] && LossAlert(o.seen, o.holder) in rec.alerts[f][o.at]
  }

  predicate SeenBefore(rec: Record, f: string, at: Location, round: int) {
    f in rec.firstSeen && at in rec.firstSeen[f] && rec.firstSeen[f][at] <= round
  }

  /** The finding on one reported objective, if any; `now` is what the observation says of its cell. */
  function JudgeBelief(rec: Record, f: string, round: int, now: Option<string>, o: Belief): Option<Finding> {
    if Alerted(rec, f, o) && (now.None? || o.seen > round) then None
    else if now.Some? && (o.age != 0 || o.holder != now.value) then Some(ObjectiveMisreported(o.at))
    else if now.Some? then None
    else if !SeenBefore(rec, f, o.at, round) then Some(ObjectiveNeverSeen(o.at))
    else if o.age == 0 then Some(ObjectiveOutOfSight(o.at))
    else None
  }

  function CellOf(st: ObjectiveStatus): Location { st.at }

  /** What the observation says of the cell, the last listed of it. */
  ghost predicate SaysNow(status: seq<ObjectiveStatus>, at: Location, now: Option<string>) {
    if now.Some? then exists i :: IsLastOf(status, CellOf, at, i) && status[i].holder == now.value
    else !Lists(status, at)
  }

  ghost predicate BeliefFinding(rec: Record, f: string, round: int, status: seq<ObjectiveStatus>, o: Belief, x: Finding) {
    exists now :: SaysNow(status, o.at, now) && JudgeBelief(rec, f, round, now, o) == Some(x)
  }

  ghost predicate ObjectiveDeparts(rec: Record, f: string, p: Picture, obs: Observation, x: Finding) {
    || (exists st :: st in obs.objectives && x == ObjectiveUnreported(st.at) && !Believes(p.objectives, st.at))
    || (exists o :: o in p.objectives && BeliefFinding(rec, f, p.round, obs.objectives, o, x))
  }

  /** The observation the check reads an assessment against. */
  function ObservationOf(rec: Record, a: Assessment): Option<Observation> {
    if a.picture.round !in rec.rounds then None
    else
      var h := rec.rounds[a.picture.round];
      if |rec.factions| > 0 && rec.factions[0] == a.faction then
        if |h.observations| > 0 then Some(h.observations[0]) else None
      else if |rec.factions| > 1 && rec.factions[1] == a.faction then
        if |h.observations| > 1 then Some(h.observations[1]) else None
      else None
  }

  ghost predicate Departs(rec: Record, a: Assessment, k: int, sight: map<Kind, int>, x: Finding) {
    var obs := ObservationOf(rec, a);
    if obs.None? then x == NoSuchRound
    else
      || (x == OwnDiffers && !SameElements(a.picture.own, obs.value.own))
      || ContactDeparts(a.picture, obs.value, k, sight, x)
      || ObjectiveDeparts(rec, a.faction, a.picture, obs.value, x)
  }

  // ----- The check -----

  method InSightOf(own: seq<Element>, at: Location, sight: map<Kind, int>) returns (seen: bool)
    ensures seen == InSight(own, at, sight)
  {
    for i := 0 to |own|
      invariant forall j | 0 <= j < i ::
          !(own[j].at.sector == at.sector
            && Gap(own[j].at.point, at.point) <= if own[j].kind in sight then sight[own[j].kind] else 0)
    {
      var e := own[i];
      if e.at.sector == at.sector && Gap(e.at.point, at.point) <= (if e.kind in sight then sight[e.kind] else 0) {
        return true;
      }
    }
    return false;
  }

  lemma ReportsById(p: Picture, byId: map<string, Contact>, e: Element)
    requires LastByKey(p.contacts, ContactId, byId)
    ensures Reports(p, e) <==> e.id in byId && byId[e.id].age == 0 && SameElement(byId[e.id].element, e)
  {
  }

  method CheckContacts(p: Picture, obs: Observation, k: int, sight: map<Kind, int>) returns (found: seq<Finding>)
    ensures forall x :: x in found <==> ContactDeparts(p, obs, k, sight, x)
  {
    var byId := LastOfEach(p.contacts, ContactId);
    var visible: set<string> := {};
    found := [];
    for i := 0 to |obs.contacts|
      invariant forall id :: id in visible <==> exists j :: 0 <= j < i && obs.contacts[j].id == id
      invariant forall x :: x in found <==>
          exists j :: 0 <= j < i && x == NotReportedInSight(obs.contacts[j].id) && !Reports(p, obs.contacts[j])
    {
      hide Reports, LastByKey;
      var e := obs.contacts[i];
      visible := visible + {e.id};
      ReportsById(p, byId, e);
      if e.id !in byId || byId[e.id].age != 0 || !SameElement(byId[e.id].element, e) {
        found := found + [NotReportedInSight(e.id)];
      }
    }
    assert forall id :: id in visible <==> exists e :: e in obs.contacts && e.id == id;
    ghost var first := found;
    for i := 0 to |p.contacts|
      invariant forall x :: x in found <==> x in first || exists j :: 0 <= j < i && ContactFinding(p.contacts[j], obs, k, sight, x)
    {
      var here := CheckContact(p.contacts[i], obs, visible, k, sight);
      hide ContactFinding;
      found := found + here;
    }
  }

  method CheckContact(c: Contact, obs: Observation, visible: set<string>, k: int, sight: map<Kind, int>)
    returns (found: seq<Finding>)
    requires forall id :: id in visible <==> exists e :: e in obs.contacts && e.id == id
    ensures forall x :: x in found <==> ContactFinding(c, obs, k, sight, x)
  {
    found := [];
    if c.age == 0 && c.element.id !in visible {
      found := found + [ReportedUnseen(c.element.id)];
    }
    var seen := InSightOf(obs.own, c.element.at, sight);
    if c.age > 0 && seen {
      found := found + [RememberedInSight(c.element.id)];
    }
    if c.age > k {
      found := found + [RememberedTooLong(c.element.id)];
    }
  }

  method CheckObjectives(rec: Record, f: string, p: Picture, obs: Observation) returns (found: seq<Finding>)
    ensures forall x :: x in found <==> ObjectiveDeparts(rec, f, p, obs, x)
  {
    var seen := LastOfEach(obs.objectives, CellOf);
    found := Unreported(p.objectives, obs.objectives);
    ghost var first := found;
    for i := 0 to |p.objectives|
      invariant forall x :: x in found <==>
          x in first || exists j :: 0 <= j < i && BeliefFinding(rec, f, p.round, obs.objectives, p.objectives[j], x)
    {
      var o := p.objectives[i];
      var now := if o.at in seen then Some(seen[o.at].holder) else None;
      var judged := JudgeBelief(rec, f, p.round, now, o);
      JudgedNow(rec, f, p.round, obs.objectives, seen, o);
      hide BeliefFinding, JudgeBelief, Believes, LastByKey;
      if judged.Some? {
        found := found + [judged.value];
      }
    }
  }

  method Unreported(objectives: seq<Belief>, status: seq<ObjectiveStatus>) returns (found: seq<Finding>)
    ensures forall x :: x in found
                        <==> exists st :: st in status && x == ObjectiveUnreported(st.at) && !Believes(objectives, st.at)
  {
    var reported: set<Location> := {};
    for i := 0 to |objectives|
      invariant forall at :: at in reported <==> exists j :: 0 <= j < i && objectives[j].at == at
    {
      reported := reported + {objectives[i].at};
    }
    assert forall at :: at in reported <==> Believes(objectives, at);
    found := [];
    for i := 0 to |status|
      invariant forall x :: x in found <==> exists j :: 0 <= j < i && x == ObjectiveUnreported(status[j].at)
                                                        && !Believes(objectives, status[j].at)
    {
      hide Believes;
      if status[i].at !in reported {
        found := found + [ObjectiveUnreported(status[i].at)];
      }
    }
  }

  lemma JudgedNow(rec: Record, f: string, round: int, status: seq<ObjectiveStatus>, seen: map<Location, ObjectiveStatus>,
                  o: Belief)
    requires LastByKey(status, CellOf, seen)
    ensures var now := if o.at in seen then Some(seen[o.at].holder) else None;
            forall x :: BeliefFinding(rec, f, round, status, o, x) <==> JudgeBelief(rec, f, round, now, o) == Some(x)
  {
    var now := if o.at in seen then Some(seen[o.at].holder) else None;
    hide JudgeBelief;
    LastSays(status, seen, o.at);
    forall n | SaysNow(status, o.at, n) ensures n == now {
      OneNow(status, o.at, n, now);
    }
  }

  lemma LastSays(status: seq<ObjectiveStatus>, seen: map<Location, ObjectiveStatus>, at: Location)
    requires LastByKey(status, CellOf, seen)
    ensures SaysNow(status, at, if at in seen then Some(seen[at].holder) else None)
  {
    forall st | st in status ensures st.at in seen {
      var i :| 0 <= i < |status| && status[i] == st;
      assert CellOf(status[i]) in seen;
    }
    if at in seen {
      var i :| IsLastOf(status, CellOf, at, i) && seen[at] == status[i];
    }
  }

  lemma OneNow(status: seq<ObjectiveStatus>, at: Location, a: Option<string>, b: Option<string>)
    requires SaysNow(status, at, a) && SaysNow(status, at, b)
    ensures a == b
  {
    if a.Some? {
      var i :| IsLastOf(status, CellOf, at, i) && status[i].holder == a.value;
      assert status[i] in status;
    }
    if b.Some? {
      var i :| IsLastOf(status, CellOf, at, i) && status[i].holder == b.value;
      assert status[i] in status;
    }
  }

  /** Every way one assessment departs from the record. */
  method Check(rec: Record, a: Assessment, k: int, sight: map<Kind, int>) returns (found: seq<Finding>)
    ensures forall x :: x in found <==> Departs(rec, a, k, sight, x)
  {
    var obs := ObservationOf(rec, a);
    if obs.None? {
      return [NoSuchRound];
    }
    hide ContactDeparts, ObjectiveDeparts, SameElements;
    found := if SameElements(a.picture.own, obs.value.own) then [] else [OwnDiffers];
    var contacts := CheckContacts(a.picture, obs.value, k, sight);
    var objectives := CheckObjectives(rec, a.faction, a.picture, obs.value);
    found := found + contacts + objectives;
  }

  // ----- What no finding means -----

  /** An own element of a kind the sight rule has is near enough to see the cell. */
  ghost predicate InRange(own: seq<Element>, at: Location, sight: map<Kind, int>) {
    exists e :: e in own && e.at.sector == at.sector && Close(e, at.point, if e.kind in sight then sight[e.kind] else 0)
  }

  predicate Close(e: Element, p: Point, n: int) {
    -n <= e.at.point.x - p.x <= n && -n <= e.at.point.y - p.y <= n
  }

  lemma SightIsRange(own: seq<Element>, at: Location, sight: map<Kind, int>)
    ensures InSight(own, at, sight) <==> InRange(own, at, sight)
  {
    forall e: Element, n: int ensures Gap(e.at.point, at.point) <= n <==> Close(e, at.point, n) {
    }
    hide Gap, Close;
  }

  /** Some listed element is the one given, in all that is reported of it. */
  ghost predicate ListsAs(es: seq<Element>, e: Element) {
    exists x :: x in es && x.id == e.id && x.strength == e.strength && x.health == e.health && x.status == e.status && x.at == e.at
  }

  /** The own elements, contacts and objectives reported are what the round's observation and the record bear out. */
  ghost predicate BorneOut(rec: Record, f: string, p: Picture, obs: Observation, k: int, sight: map<Kind, int>) {
    && |p.own| == |obs.own|
    && (forall e | e in obs.own :: ListsAs(p.own, e)) && (forall e | e in p.own :: ListsAs(obs.own, e))
    && (forall e | e in obs.contacts :: exists c :: c in p.contacts && c.age == 0 && ListsAs([c.element], e))
    && (forall c | c in p.contacts :: c.age <= k && (c.age == 0 ==> exists e :: e in obs.contacts && e.id == c.element.id))
    && (forall c | c in p.contacts && c.age > 0 :: !InRange(obs.own, c.element.at, sight))
    && (forall st | st in obs.objectives :: exists o :: o in p.objectives && o.at == st.at)
    && (forall o | o in p.objectives :: BeliefBorneOut(rec, f, p.round, obs.objectives, o))
  }

  /** An alert told of the belief, while the objective was out of sight or for a later round; or the objective is in sight
      with the holder believed, as of now; or it was seen in an earlier round or this, and is not as of now. */
  ghost predicate BeliefBorneOut(rec: Record, f: string, round: int, status: seq<ObjectiveStatus>, o: Belief) {
    var told := f in rec.alerts && o.at in rec.alerts[f] && LossAlert(o.seen, o.holder) in rec.alerts[f][o.at];
    var inSight := exists st :: st in status && st.at == o.at;
    || (told && (!inSight || round < o.seen))
    || (inSight && o.age == 0 && ObjectiveStatus(o.at, o.holder) in status)
    || (!inSight && o.age != 0 && f in rec.firstSeen && o.at in rec.firstSeen[f] && rec.firstSeen[f][o.at] <= round)
  }

  lemma SameAsListed(a: seq<Element>, b: seq<Element>)
    requires SameElements(a, b)
    ensures |a| == |b| && (forall e | e in b :: ListsAs(a, e)) && (forall e | e in a :: ListsAs(b, e))
  {
    var s, t := SortBy(a, IdOf), SortBy(b, IdOf);
    SortByMembers(a, IdOf);
    SortByMembers(b, IdOf);
    forall e | e in b ensures ListsAs(a, e) {
      var i :| 0 <= i < |t| && t[i] == e;
      assert s[i] in a && SameElement(s[i], t[i]);
    }
    forall e | e in a ensures ListsAs(b, e) {
      var i :| 0 <= i < |s| && s[i] == e;
      assert t[i] in b && SameElement(s[i], t[i]);
    }
  }

  lemma CleanContacts(p: Picture, obs: Observation, k: int, sight: map<Kind, int>)
    requires forall x :: !ContactDeparts(p, obs, k, sight, x)
    ensures forall e | e in obs.contacts :: exists c :: c in p.contacts && c.age == 0 && ListsAs([c.element], e)
    ensures forall c | c in p.contacts :: c.age <= k && (c.age == 0 ==> exists e :: e in obs.contacts && e.id == c.element.id)
    ensures forall c | c in p.contacts && c.age > 0 :: !InRange(obs.own, c.element.at, sight)
  {
    forall e | e in obs.contacts ensures exists c :: c in p.contacts && c.age == 0 && ListsAs([c.element], e) {
      assert !ContactDeparts(p, obs, k, sight, NotReportedInSight(e.id));
      ReportedContact(p, e);
    }
    hide Reports, InSight;
    forall c | c in p.contacts
      ensures c.age <= k && (c.age == 0 ==> exists e :: e in obs.contacts && e.id == c.element.id)
      ensures c.age > 0 ==> !InRange(obs.own, c.element.at, sight)
    {
      assert !ContactDeparts(p, obs, k, sight, ReportedUnseen(c.element.id));
      assert !ContactDeparts(p, obs, k, sight, RememberedInSight(c.element.id));
      assert !ContactDeparts(p, obs, k, sight, RememberedTooLong(c.element.id));
      SightIsRange(obs.own, c.element.at, sight);
    }
  }

  lemma ReportedContact(p: Picture, e: Element)
    requires Reports(p, e)
    ensures exists c :: c in p.contacts && c.age == 0 && ListsAs([c.element], e)
  {
    var i :| 0 <= i < |p.contacts| && p.contacts[i].element.id == e.id
             && (forall j | i < j < |p.contacts| :: p.contacts[j].element.id != e.id)
             && p.contacts[i].age == 0 && SameElement(p.contacts[i].element, e);
    assert p.contacts[i].element in [p.contacts[i].element];
  }

  lemma CleanBelief(rec: Record, f: string, round: int, status: seq<ObjectiveStatus>, o: Belief)
    requires forall x :: !BeliefFinding(rec, f, round, status, o, x)
    ensures BeliefBorneOut(rec, f, round, status, o)
  {
    var now := WhatIsSaid(status, o.at);
    var judged := JudgeBelief(rec, f, round, now, o);
    if judged.Some? {
      assert BeliefFinding(rec, f, round, status, o, judged.value);
    }
    if now.Some? {
      var i :| IsLastOf(status, CellOf, o.at, i) && status[i].holder == now.value;
      assert status[i] == ObjectiveStatus(o.at, now.value) && status[i] in status;
    }
  }

  lemma WhatIsSaid(status: seq<ObjectiveStatus>, at: Location) returns (now: Option<string>)
    ensures SaysNow(status, at, now)
  {
    if Lists(status, at) {
      var i := LastListed(status, at);
      now := Some(status[i].holder);
    } else {
      now := None;
    }
  }

  lemma {:induction false} LastListed(status: seq<ObjectiveStatus>, at: Location) returns (i: int)
    requires Lists(status, at)
    ensures IsLastOf(status, CellOf, at, i)
  {
    i := |status| - 1;
    if status[i].at != at {
      assert forall st | st in status :: st in status[..i] || st == status[i];
      i := LastListed(status[..|status| - 1], at);
    }
  }

  lemma CleanObjectives(rec: Record, f: string, p: Picture, obs: Observation)
    requires forall x :: !ObjectiveDeparts(rec, f, p, obs, x)
    ensures forall st | st in obs.objectives :: exists o :: o in p.objectives && o.at == st.at
    ensures forall o | o in p.objectives :: BeliefBorneOut(rec, f, p.round, obs.objectives, o)
  {
    hide BeliefFinding, BeliefBorneOut;
    forall st | st in obs.objectives ensures exists o :: o in p.objectives && o.at == st.at {
      assert !ObjectiveDeparts(rec, f, p, obs, ObjectiveUnreported(st.at));
    }
    forall o | o in p.objectives ensures BeliefBorneOut(rec, f, p.round, obs.objectives, o) {
      forall x ensures !BeliefFinding(rec, f, p.round, obs.objectives, o, x) {
        assert !ObjectiveDeparts(rec, f, p, obs, x);
      }
      CleanBelief(rec, f, p.round, obs.objectives, o);
    }
  }

  /** An assessment the check finds nothing in is of a round on record, and what it reports is borne out. */
  lemma CleanIsBorneOut(rec: Record, a: Assessment, k: int, sight: map<Kind, int>)
    requires forall x :: !Departs(rec, a, k, sight, x)
    ensures a.picture.round in rec.rounds
    ensures exists side, obs ::
              && 0 <= side < 2 && side < |rec.factions| && rec.factions[side] == a.faction
              && side < |rec.rounds[a.picture.round].observations| && obs == rec.rounds[a.picture.round].observations[side]
              && BorneOut(rec, a.faction, a.picture, obs, k, sight)
  {
    var obs := ObservationOf(rec, a);
    assert !Departs(rec, a, k, sight, NoSuchRound);
    assert obs.Some?;
    var side := if |rec.factions| > 0 && rec.factions[0] == a.faction then 0 else 1;
    hide ContactDeparts, ObjectiveDeparts, SameElements, BorneOut;
    assert !Departs(rec, a, k, sight, OwnDiffers);
    SameAsListed(a.picture.own, obs.value.own);
    forall x ensures !ContactDeparts(a.picture, obs.value, k, sight, x) && !ObjectiveDeparts(rec, a.faction, a.picture, obs.value, x) {
      assert !Departs(rec, a, k, sight, x);
    }
    CleanContacts(a.picture, obs.value, k, sight);
    CleanObjectives(rec, a.faction, a.picture, obs.value);
    BearsOut(rec, a.faction, a.picture, obs.value, k, sight);
    assert rec.factions[side] == a.faction && obs.value == rec.rounds[a.picture.round].observations[side];
  }

  lemma BearsOut(rec: Record, f: string, p: Picture, obs: Observation, k: int, sight: map<Kind, int>)
    requires |p.own| == |obs.own| && (forall e | e in obs.own :: ListsAs(p.own, e)) && (forall e | e in p.own :: ListsAs(obs.own, e))
    requires forall e | e in obs.contacts :: exists c :: c in p.contacts && c.age == 0 && ListsAs([c.element], e)
    requires forall c | c in p.contacts :: c.age <= k && (c.age == 0 ==> exists e :: e in obs.contacts && e.id == c.element.id)
    requires forall c | c in p.contacts && c.age > 0 :: !InRange(obs.own, c.element.at, sight)
    requires forall st | st in obs.objectives :: exists o :: o in p.objectives && o.at == st.at
    requires forall o | o in p.objectives :: BeliefBorneOut(rec, f, p.round, obs.objectives, o)
    ensures BorneOut(rec, f, p, obs, k, sight)
  {
    hide ListsAs, InRange, BeliefBorneOut;
  }
}
