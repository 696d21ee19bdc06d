/** Courier's whole check: the record it reads off exercise's history, and a run's assessments against it. */
module Reconciling {
  import opened World
  import opened State
  import opened Sorting
  import opened Observing
  import opened Fusion
  import opened Assessing
  import opened TheaterCheck
  import opened Resolution

  function RoundOf(r: HistoryRound): int { r.round }

  function FactionRound(a: Assessment): (string, int) { (a.faction, a.picture.round) }

  // ----- The record -----

  /** Faction `f`'s observation of the round reports the objective. */
  ghost predicate Sighted(r: HistoryRound, factions: seq<string>, f: string, at: Location) {
    exists i :: 0 <= i < |r.observations| && i < |factions| && factions[i] == f && Lists(r.observations[i].objectives, at)
  }

  /** The first round of the history in which the faction had the objective in sight. */
  ghost predicate FirstSighting(h: seq<HistoryRound>, factions: seq<string>, f: string, at: Location, round: int) {
    exists n :: 0 <= n < |h| && h[n].round == round && Sighted(h[n], factions, f, at)
                && forall m | 0 <= m < n :: !Sighted(h[m], factions, f, at)
  }

  ghost predicate AreFirstSightings(h: seq<HistoryRound>, factions: seq<string>, first: map<string, map<Location, int>>) {
    && (forall f :: f in first <==> f in factions)
    && (forall f, at | f in first :: at in first[f] ==> FirstSighting(h, factions, f, at, first[f][at]))
    && (forall f, at, n | f in first && 0 <= n < |h| && Sighted(h[n], factions, f, at) :: at in first[f])
  }

  /** The round took the objective from the faction. */
  ghost predicate Took(r: HistoryRound, f: string, at: Location, holder: string) {
    f != "" && r.resolution.Some? && Capture(at, holder, f) in r.resolution.value.captures
  }

  ghost predicate AreLossAlerts(h: seq<HistoryRound>, factions: seq<string>,
                                alerts: map<string, map<Location, seq<LossAlert>>>)
  {
    && (forall f :: f in alerts <==> f in factions)
    && (forall f, at, a | f in alerts ::
          AlertedIn(alerts[f], at, a) <==> exists n :: 0 <= n < |h| && h[n].round == a.round && Took(h[n], f, at, a.holder))
  }

  ghost predicate AlertedIn(alerts: map<Location, seq<LossAlert>>, at: Location, a: LossAlert) {
    at in alerts && a in alerts[at]
  }

  ghost predicate IsRecord(h: seq<HistoryRound>, factions: seq<string>, rec: Record) {
    && rec.factions == factions
    && LastByKey(h, RoundOf, rec.rounds)
    && AreFirstSightings(h, factions, rec.firstSeen)
    && AreLossAlerts(h, factions, rec.alerts)
  }

  // ----- First sightings -----

  /** Notes the objectives one observation reports, unless they are noted already. */
  method NoteObjectives(known: map<Location, int>, status: seq<ObjectiveStatus>, round: int) returns (out: map<Location, int>)
    ensures forall at :: at in out <==> at in known || Lists(status, at)
    ensures forall at | at in out :: out[at] == if at in known then known[at] else round
  {
    out := known;
    for i := 0 to |status|
      invariant forall at :: at in out <==> at in known || Lists(status[..i], at)
      invariant forall at | at in out :: out[at] == if at in known then known[at] else round
    {
      assert status[..i + 1] == status[..i] + [status[i]];
      forall at ensures Lists(status[..i + 1], at) <==> Lists(status[..i], at) || at == status[i].at {
        ListsNext(status[..i], status[i], at);
      }
      hide Lists;
      if status[i].at !in out {
        out := out[status[i].at := round];
      }
    }
    assert status[..|status|] == status;
  }

  lemma ListsNext(status: seq<ObjectiveStatus>, st: ObjectiveStatus, at: Location)
    ensures Lists(status + [st], at) <==> Lists(status, at) || at == st.at
  {
    if t :| t in status && t.at == at {
      assert t in status + [st];
    }
    assert st in status + [st];
  }

  /** One of the first `n` factions' observations of the round, `f`'s, reports the objective. */
  ghost predicate SightedAmong(r: HistoryRound, factions: seq<string>, n: nat, f: string, at: Location) {
    exists i :: 0 <= i < n && i < |r.observations| && i < |factions| && factions[i] == f && Lists(r.observations[i].objectives, at)
  }

  /** What a round adds to the sightings known before it. */
  ghost predicate Notes(r: HistoryRound, factions: seq<string>, n: nat, known: map<string, map<Location, int>>,
                        out: map<string, map<Location, int>>)
  {
    && out.Keys == known.Keys
    && (forall f, at | f in out :: at in out[f] <==> at in known[f] || SightedAmong(r, factions, n, f, at))
    && (forall f, at | f in out && at in out[f] :: out[f][at] == if at in known[f] then known[f][at] else r.round)
  }

  method NoteRound(r: HistoryRound, factions: seq<string>, known: map<string, map<Location, int>>)
    returns (out: map<string, map<Location, int>>)
    requires forall f :: f in known <==> f in factions
    ensures Notes(r, factions, |factions|, known, out)
  {
    out := known;
    var i := 0;
    while i < |r.observations| && i < |factions|
      invariant i <= |factions| && i <= |r.observations| && Notes(r, factions, i, known, out)
    {
      assert factions[i] in out;
      var here := NoteObjectives(out[factions[i]], r.observations[i].objectives, r.round);
      NotesNext(r, factions, i, known, out, here);
      out := out[factions[i] := here];
      i := i + 1;
    }
  }

  lemma NotesNext(r: HistoryRound, factions: seq<string>, i: nat, known: map<string, map<Location, int>>,
                  out: map<string, map<Location, int>>, here: map<Location, int>)
    requires i < |factions| && i < |r.observations| && factions[i] in out && Notes(r, factions, i, known, out)
    requires forall at :: at in here <==> at in out[factions[i]] || Lists(r.observations[i].objectives, at)
    requires forall at | at in here :: here[at] == if at in out[factions[i]] then out[factions[i]][at] else r.round
    ensures Notes(r, factions, i + 1, known, out[factions[i] := here])
  {
    hide Lists, SightedAmong;
    forall f, at ensures SightedAmong(r, factions, i + 1, f, at)
                         <==> SightedAmong(r, factions, i, f, at)
                              || (factions[i] == f && Lists(r.observations[i].objectives, at)) {
      SightedNext(r, factions, i, f, at);
    }
  }

  lemma SightedNext(r: HistoryRound, factions: seq<string>, i: nat, f: string, at: Location)
    requires i < |factions| && i < |r.observations|
    ensures SightedAmong(r, factions, i + 1, f, at)
            <==> SightedAmong(r, factions, i, f, at) || (factions[i] == f && Lists(r.observations[i].objectives, at))
  {
    hide Lists;
    if m :| 0 <= m < i + 1 && factions[m] == f && Lists(r.observations[m].objectives, at) {
      assert m < i ==> SightedAmong(r, factions, i, f, at);
    }
  }

  /** The first round each faction had each objective in sight. */
  method FirstSightings(h: seq<HistoryRound>, factions: seq<string>) returns (first: map<string, map<Location, int>>)
    ensures AreFirstSightings(h, factions, first)
  {
    first := map f | f in factions :: map[];
    for n := 0 to |h|
      invariant AreFirstSightings(h[..n], factions, first)
    {
      hide AreFirstSightings, Notes;
      ghost var before := first;
      FirstKeys(h[..n], factions, first);
      first := NoteRound(h[n], factions, first);
      FirstNext(h[..n], h[n], factions, before, first);
      assert h[..n + 1] == h[..n] + [h[n]];
    }
    assert h[..|h|] == h;
  }

  lemma FirstKeys(h: seq<HistoryRound>, factions: seq<string>, first: map<string, map<Location, int>>)
    requires AreFirstSightings(h, factions, first)
    ensures forall f :: f in first <==> f in factions
  {
  }

  lemma FirstNext(h: seq<HistoryRound>, r: HistoryRound, factions: seq<string>, before: map<string, map<Location, int>>,
                  first: map<string, map<Location, int>>)
    requires AreFirstSightings(h, factions, before) && Notes(r, factions, |factions|, before, first)
    ensures AreFirstSightings(h + [r], factions, first)
  {
    var more := h + [r];
    hide Lists;
    forall f, at ensures SightedAmong(r, factions, |factions|, f, at) <==> Sighted(r, factions, f, at) {
    }
    hide SightedAmong, Sighted;
    forall f, at | f in first && at in first[f] ensures FirstSighting(more, factions, f, at, first[f][at]) {
      FirstFound(h, r, factions, before, first, f, at);
    }
    forall f, at, n | f in first && 0 <= n < |more| && Sighted(more[n], factions, f, at) ensures at in first[f] {
      assert n < |h| ==> more[n] == h[n];
      assert n == |h| ==> more[n] == r;
    }
  }

  lemma FirstFound(h: seq<HistoryRound>, r: HistoryRound, factions: seq<string>, before: map<string, map<Location, int>>,
                   first: map<string, map<Location, int>>, f: string, at: Location)
    requires AreFirstSightings(h, factions, before) && Notes(r, factions, |factions|, before, first)
    requires SightedAmong(r, factions, |factions|, f, at) <==> Sighted(r, factions, f, at)
    requires f in first && at in first[f]
    ensures FirstSighting(h + [r], factions, f, at, first[f][at])
  {
    var more := h + [r];
    hide SightedAmong, Sighted;
    if at in before[f] {
      assert FirstSighting(h, factions, f, at, before[f][at]);
      var n :| 0 <= n < |h| && h[n].round == before[f][at] && Sighted(h[n], factions, f, at)
               && forall m | 0 <= m < n :: !Sighted(h[m], factions, f, at);
      assert more[n] == h[n] && forall m | 0 <= m < n :: more[m] == h[m];
    } else {
      assert more[|h|] == r && forall m | 0 <= m < |h| :: more[m] == h[m];
    }
  }

  // ----- Loss alerts -----

  /** The alerts after the first `n` captures of the round. */
  ghost predicate Tells(r: HistoryRound, captures: seq<Capture>, known: map<string, map<Location, seq<LossAlert>>>,
                        out: map<string, map<Location, seq<LossAlert>>>)
  {
    && out.Keys == known.Keys
    && forall f, at, a | f in out ::
         AlertedIn(out[f], at, a)
         <==> AlertedIn(known[f], at, a) || (a.round == r.round && f != "" && Capture(at, a.holder, f) in captures)
  }

  method NoteCaptures(r: HistoryRound, captures: seq<Capture>, known: map<string, map<Location, seq<LossAlert>>>)
    returns (out: map<string, map<Location, seq<LossAlert>>>)
    ensures Tells(r, captures, known, out)
  {
    out := known;
    for i := 0 to |captures|
      invariant Tells(r, captures[..i], known, out)
    {
      hide Tells;
      var c := captures[i];
      TellsNext(r, captures[..i], known, out, c);
      assert captures[..i + 1] == captures[..i] + [c];
      if c.from != "" && c.from in out {
        out := out[c.from := WithAlert(out[c.from], c.at, LossAlert(r.round, c.faction))];
      }
    }
    assert captures[..|captures|] == captures;
  }

  function WithAlert(alerts: map<Location, seq<LossAlert>>, at: Location, a: LossAlert): map<Location, seq<LossAlert>> {
    alerts[at := (if at in alerts then alerts[at] else []) + [a]]
  }

  lemma TellsNext(r: HistoryRound, captures: seq<Capture>, known: map<string, map<Location, seq<LossAlert>>>,
                  out: map<string, map<Location, seq<LossAlert>>>, c: Capture)
    requires Tells(r, captures, known, out)
    ensures Tells(r, captures + [c], known,
                  if c.from != "" && c.from in out then out[c.from := WithAlert(out[c.from], c.at, LossAlert(r.round, c.faction))]
                  else out)
  {
    if c.from != "" && c.from in out {
      var told := WithAlert(out[c.from], c.at, LossAlert(r.round, c.faction));
      forall at, a ensures AlertedIn(told, at, a)
                           <==> AlertedIn(out[c.from], at, a) || (at == c.at && a == LossAlert(r.round, c.faction)) {
      }
      hide AlertedIn, WithAlert;
      forall f, at, a | f in out
        ensures f == c.from && at == c.at && a == LossAlert(r.round, c.faction)
                <==> a.round == r.round && c == Capture(at, a.holder, f) {
      }
    }
  }

  /** The loss alerts exercise sent each faction. */
  method LossAlerts(h: seq<HistoryRound>, factions: seq<string>) returns (alerts: map<string, map<Location, seq<LossAlert>>>)
    ensures AreLossAlerts(h, factions, alerts)
  {
    alerts := map f | f in factions :: map[];
    for n := 0 to |h|
      invariant AreLossAlerts(h[..n], factions, alerts)
    {
      hide AreLossAlerts, Tells;
      ghost var before := alerts;
      var captures := if h[n].resolution.None? then [] else h[n].resolution.value.captures;
      alerts := NoteCaptures(h[n], captures, alerts);
      AlertsNext(h[..n], h[n], captures, factions, before, alerts);
      assert h[..n + 1] == h[..n] + [h[n]];
    }
    assert h[..|h|] == h;
  }

  lemma AlertsNext(h: seq<HistoryRound>, r: HistoryRound, captures: seq<Capture>, factions: seq<string>,
                   before: map<string, map<Location, seq<LossAlert>>>, alerts: map<string, map<Location, seq<LossAlert>>>)
    requires AreLossAlerts(h, factions, before) && Tells(r, captures, before, alerts)
    requires captures == if r.resolution.None? then [] else r.resolution.value.captures
    ensures AreLossAlerts(h + [r], factions, alerts)
  {
    var more := h + [r];
    assert more[|h|] == r && forall n | 0 <= n < |h| :: more[n] == h[n];
    hide AlertedIn;
    forall f, at, holder ensures Took(r, f, at, holder) <==> f != "" && Capture(at, holder, f) in captures {
    }
    hide Took;
    forall f, at, a: LossAlert | f in alerts
      ensures AlertedIn(alerts[f], at, a)
              <==> exists n :: 0 <= n < |more| && more[n].round == a.round && Took(more[n], f, at, a.holder)
    {
      if n :| 0 <= n < |h| && h[n].round == a.round && Took(h[n], f, at, a.holder) {
        assert more[n].round == a.round;
      }
      if a.round == r.round && Took(r, f, at, a.holder) {
        assert Took(more[|h|], f, at, a.holder);
      }
      if n :| 0 <= n < |more| && more[n].round == a.round && Took(more[n], f, at, a.holder) {
        assert n < |h| ==> Took(h[n], f, at, a.holder);
      }
    }
  }

  // ----- The whole check -----

  /** A finding of the whole check: a round without an assessment of a faction, or one an assessment departs in. */
  datatype Inconsistency = Missing(faction: string, round: int) | Departing(a: Assessment, finding: Finding)

  ghost predicate Covers(h: seq<HistoryRound>, round: int) {
    exists n :: 0 <= n < |h| && h[n].round == round
  }

  ghost predicate Assessed(assessments: seq<Assessment>, f: string, round: int) {
    exists a :: a in assessments && a.faction == f && a.picture.round == round
  }

  ghost predicate IsInconsistent(h: seq<HistoryRound>, factions: seq<string>, rec: Record, assessments: seq<Assessment>,
                                 k: int, sight: map<Kind, int>, x: Inconsistency)
  {
    match x
    case Missing(f, round) => f in factions && Covers(h, round) && !Assessed(assessments, f, round)
    case Departing(a, finding) => a in assessments && Departs(rec, a, k, sight, finding)
  }

  ghost predicate LastIssued(all: seq<Assessment>, a: Assessment) {
    exists i :: 0 <= i < |all| && all[i] == a && forall j | i < j < |all| :: FactionRound(all[j]) != FactionRound(a)
  }

  /** Of a stream of assessments, those a faction issued of a round for the last time. */
  ghost predicate AreLast(all: seq<Assessment>, last: seq<Assessment>) {
    && (forall a :: a in last <==> LastIssued(all, a))
    && (forall i, j | 0 <= i < j < |last| :: FactionRound(last[i]) != FactionRound(last[j]))
  }

  method LastAssessments(all: seq<Assessment>) returns (last: seq<Assessment>)
    ensures AreLast(all, last)
  {
    var byRound := LastOfEach(all, FactionRound);
    last := [];
    var left := byRound.Keys;
    while left != {}
      invariant left <= byRound.Keys
      invariant forall a :: a in last <==> FactionRound(a) in byRound && FactionRound(a) !in left && byRound[FactionRound(a)] == a
      invariant forall i, j | 0 <= i < j < |last| :: FactionRound(last[i]) != FactionRound(last[j])
      invariant LastByKey(all, FactionRound, byRound)
    {
      var key :| key in left;
      assert FactionRound(byRound[key]) == key;
      forall i | 0 <= i < |last| ensures FactionRound(last[i]) != key {
        assert last[i] in last;
      }
      hide LastByKey, FactionRound;
      last := last + [byRound[key]];
      left := left - {key};
    }
    forall a ensures a in last <==> LastIssued(all, a) {
      if i :| 0 <= i < |all| && all[i] == a && forall j | i < j < |all| :: FactionRound(all[j]) != FactionRound(a) {
        assert FactionRound(all[i]) in byRound;
        var j :| IsLastOf(all, FactionRound, FactionRound(a), j) && byRound[FactionRound(a)] == all[j];
      }
    }
  }

  method CheckCoverage(h: seq<HistoryRound>, factions: seq<string>, assessments: seq<Assessment>)
    returns (missing: seq<Inconsistency>)
    ensures forall x :: x in missing <==> && x.Missing? && x.faction in factions && Covers(h, x.round)
                                          && !Assessed(assessments, x.faction, x.round)
  {
    missing := [];
    for n := 0 to |h|
      invariant forall x :: x in missing <==> && x.Missing? && x.faction in factions
                                              && Covers(h[..n], x.round)
                                              && !Assessed(assessments, x.faction, x.round)
    {
      var here := CheckRound(h[n].round, factions, assessments);
      forall round ensures Covers(h[..n + 1], round) <==> Covers(h[..n], round) || round == h[n].round {
        CoversNext(h, n, round);
      }
      hide Assessed, Covers;
      missing := missing + here;
    }
    assert h[..|h|] == h;
  }

  lemma CoversNext(h: seq<HistoryRound>, n: nat, round: int)
    requires n < |h|
    ensures Covers(h[..n + 1], round) <==> Covers(h[..n], round) || round == h[n].round
  {
    assert h[..n + 1] == h[..n] + [h[n]];
    assert forall i | 0 <= i < n :: (h[..n] + [h[n]])[i] == h[..n][i];
    assert (h[..n] + [h[n]])[n] == h[n];
  }

  method CheckRound(round: int, factions: seq<string>, assessments: seq<Assessment>) returns (missing: seq<Inconsistency>)
    ensures forall x :: x in missing <==> && x.Missing? && x.faction in factions && x.round == round
                                          && !Assessed(assessments, x.faction, round)
  {
    missing := [];
    for i := 0 to |factions|
      invariant forall x :: x in missing <==> && x.Missing? && x.faction in factions[..i] && x.round == round
                                              && !Assessed(assessments, x.faction, round)
    {
      assert factions[..i + 1] == factions[..i] + [factions[i]];
      var issued := IsAssessed(assessments, factions[i], round);
      hide Assessed;
      if !issued {
        missing := missing + [Missing(factions[i], round)];
      }
    }
    assert factions[..|factions|] == factions;
  }

  method IsAssessed(assessments: seq<Assessment>, f: string, round: int) returns (issued: bool)
    ensures issued == Assessed(assessments, f, round)
  {
    for i := 0 to |assessments|
      invariant forall j | 0 <= j < i :: !(assessments[j].faction == f && assessments[j].picture.round == round)
    {
      if assessments[i].faction == f && assessments[i].picture.round == round {
        return true;
      }
    }
    return false;
  }

  /** Every way the assessments depart from the history, and the record they were checked against. */
  method Reconcile(h: seq<HistoryRound>, factions: seq<string>, assessments: seq<Assessment>, k: int, sight: map<Kind, int>)
    returns (found: seq<Inconsistency>, rec: Record)
    ensures IsRecord(h, factions, rec)
    ensures forall x :: x in found <==> IsInconsistent(h, factions, rec, assessments, k, sight, x)
  {
    var firstSeen := FirstSightings(h, factions);
    var alerts := LossAlerts(h, factions);
    var rounds := LastOfEach(h, RoundOf);
    rec := Record(rounds, factions, firstSeen, alerts);
    hide AreFirstSightings, AreLossAlerts, Departs;
    found := CheckCoverage(h, factions, assessments);
    ghost var missing := found;
    for i := 0 to |assessments|
      invariant forall x :: x in found <==> x in missing || (x.Departing? && x.a in assessments[..i] && Departs(rec, x.a, k, sight, x.finding))
    {
      assert assessments[..i + 1] == assessments[..i] + [assessments[i]];
      var here := CheckOne(rec, assessments[i], k, sight);
      hide LastByKey, DistinctKeys, Assessed;
      found := found + here;
    }
    assert assessments[..|assessments|] == assessments;
  }

  method CheckOne(rec: Record, a: Assessment, k: int, sight: map<Kind, int>) returns (found: seq<Inconsistency>)
    ensures forall x :: x in found <==> x.Departing? && x.a == a && Departs(rec, a, k, sight, x.finding)
  {
    hide Departs;
    var findings := Check(rec, a, k, sight);
    found := seq(|findings|, j requires 0 <= j < |findings| => Departing(a, findings[j]));
    forall x: Inconsistency | x.Departing? && x.a == a && x.finding in findings ensures x in found {
      var j :| 0 <= j < |findings| && findings[j] == x.finding;
      assert found[j] == x;
    }
  }
}
