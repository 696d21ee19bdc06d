/** Two desks that heard the same rounds and losses, each in its own order, hold one picture. */
module Converging {
  import opened World
  import opened State
  import opened Sorting
  import opened Observing
  import opened Fusion
  import opened Assessing
  import opened TheaterCheck
  import opened Believing
  import opened Hearing

  // ----- Everything but the objectives follows from the rounds heard -----

  lemma FusedAlike(p: Picture, q: Picture, obs: Observation, k: int, p': Picture, q': Picture)
    requires OnlyObjectives(p, q) && IsFused(p, obs, k, p') && IsFused(q, obs, k, q')
    ensures OnlyObjectives(p', q')
  {
    hide FusedObjectives;
    SortedUnique(p'.contacts, q'.contacts, ContactId);
    assert p'.explored == q'.explored;
  }

  /** One step of a run: the picture either fuses the observation of a round just heard, or keeps all but its
      objectives. */
  lemma LastStep(h: seq<HistoryRound>, side: nat, k: int, grid: seq<Sector>, ds: seq<Delivery>, rows: seq<Row>,
                 issued: seq<Option<Assessment>>, n: nat)
    requires Hears(h, side, k, grid, ds, rows, issued) && n < |ds|
    ensures if Heard(ds[..n + 1]) == Heard(ds[..n]) then OnlyObjectives(rows[n].picture, rows[n + 1].picture)
            else
              && Heard(ds[..n + 1]) == Heard(ds[..n]) + [rows[n + 1].picture.round]
              && Viewable(h, side, rows[n + 1].picture.round)
              && IsFused(rows[n].picture, View(h, side, rows[n + 1].picture.round), k, rows[n + 1].picture)
  {
    hide Step, Sound, Recorded, Factions, IsFused, OnlyObjectives, Heard, Lost, View;
    HeardNext(ds, n);
    RowsSound(h, side, k, grid, ds, rows, issued, n);
    RoundIsLatest(h, side, k, grid, ds, rows, issued, n);
    assert Genuine(h, side, ds[n]) && Step(rows[n], ds[n], k, rows[n + 1], issued[n]);
    StepHears(h, side, k, rows[n], ds[n], rows[n + 1], issued[n]);
  }

  lemma {:induction false} BaseConverges(
      h: seq<HistoryRound>, side: nat, k: int, grid: seq<Sector>,
      ds: seq<Delivery>, rows: seq<Row>, issued: seq<Option<Assessment>>, n: nat,
      ds': seq<Delivery>, rows': seq<Row>, issued': seq<Option<Assessment>>, n': nat)
    requires Hears(h, side, k, grid, ds, rows, issued) && Hears(h, side, k, grid, ds', rows', issued')
    requires n <= |ds| && n' <= |ds'| && Heard(ds[..n]) == Heard(ds'[..n'])
    ensures OnlyObjectives(rows[n].picture, rows'[n'].picture)
    decreases n + n'
  {
    hide Step, Recorded, Genuine, Factions, IsFused, Heard, View;
    if n > 0 {
      LastStep(h, side, k, grid, ds, rows, issued, n - 1);
    }
    if n' > 0 {
      LastStep(h, side, k, grid, ds', rows', issued', n' - 1);
    }
    if n > 0 && Heard(ds[..n]) == Heard(ds[..n - 1]) {
      BaseConverges(h, side, k, grid, ds, rows, issued, n - 1, ds', rows', issued', n');
    } else if n' > 0 && Heard(ds'[..n']) == Heard(ds'[..n' - 1]) {
      BaseConverges(h, side, k, grid, ds, rows, issued, n, ds', rows', issued', n' - 1);
    } else if n > 0 && n' > 0 {
      ButLast(Heard(ds[..n - 1]), rows[n].picture.round, Heard(ds'[..n' - 1]), rows'[n'].picture.round);
      BaseConverges(h, side, k, grid, ds, rows, issued, n - 1, ds', rows', issued', n' - 1);
      FusedAlike(rows[n - 1].picture, rows'[n' - 1].picture, View(h, side, rows[n].picture.round), k,
                 rows[n].picture, rows'[n'].picture);
    } else {
      HeardNothing(ds, n);
      HeardNothing(ds', n');
    }
  }

  lemma HeardNothing(ds: seq<Delivery>, n: nat)
    requires n <= |ds|
    ensures n == 0 ==> Heard(ds[..n]) == []
  {
  }

  lemma ButLast(a: seq<int>, x: int, b: seq<int>, y: int)
    requires a + [x] == b + [y]
    ensures a == b && x == y
  {
    assert (a + [x])[|a|] == x && |a| == |b|;
    assert a == (a + [x])[..|a|] && b == (b + [y])[..|b|];
  }

  // ----- Objectives: the latest report wins -----

  function Losses(ds: seq<Delivery>): set<Delivery> {
    set d | d in ds && d.Loss?
  }

  /** A report the desk took: a loss alert, or what a round it heard shows. */
  ghost predicate Reported(h: seq<HistoryRound>, side: nat, heard: seq<int>, losses: set<Delivery>, at: Location,
                           holder: string, round: int)
  {
    Loss(at, holder, round) in losses || Shown(h, side, heard, at, holder, round)
  }

  ghost predicate Shown(h: seq<HistoryRound>, side: nat, heard: seq<int>, at: Location, holder: string, round: int) {
    round in heard && 0 <= round && Viewable(h, side, round) && ObjectiveStatus(at, holder) in View(h, side, round).objectives
  }

  /** The objectives are the latest reports, each aged to the picture's round. */
  ghost predicate LatestReports(h: seq<HistoryRound>, side: nat, heard: seq<int>, losses: set<Delivery>, p: Picture) {
    && (forall o | o in p.objectives ::
          Reported(h, side, heard, losses, o.at, o.holder, o.seen) && o.age == Max0(p.round - o.seen))
    && (forall at, holder, round | Reported(h, side, heard, losses, at, holder, round) :: Current(p.objectives, at, round))
  }

  lemma CurrentAfterFuse(prev: seq<Belief>, status: seq<ObjectiveStatus>, round: int, objectives: seq<Belief>, at: Location,
                         n: int)
    requires FusedObjectives(prev, status, round, objectives) && Current(prev, at, n)
    ensures Current(objectives, at, n)
  {
    var o :| o in prev && o.at == at && o.seen >= n;
    if Lists(status, at) && o.seen <= round {
      var st :| st in status && st.at == at;
      assert ObjectiveStatus(o.at, st.holder) in status;
      assert Updated(o, status, round, Belief(o.at, st.holder, round, 0));
    } else {
      assert Updated(o, status, round, Belief(o.at, o.holder, o.seen, Max0(round - o.seen)));
    }
  }

  lemma FuseLatest(h: seq<HistoryRound>, side: nat, heard: seq<int>, losses: set<Delivery>, k: int, p: Picture, q: Picture)
    requires Recorded(h) && side < 2 && 0 <= q.round < |h| && Viewable(h, side, q.round)
    requires LatestReports(h, side, heard, losses, p) && IsFused(p, View(h, side, q.round), k, q)
    ensures LatestReports(h, side, heard + [q.round], losses, q)
  {
    var obs := View(h, side, q.round);
    ViewFacts(h, side, q.round);
    hide Recorded, FusedContacts, View, IsObservation, Viewable, ObservationTellsApart, Current, Lists, SeesInGrid;
    assert FusedObjectives(p.objectives, obs.objectives, q.round, q.objectives);
    hide FusedObjectives;
    hide LatestReports, Reported;
    forall o | o in q.objectives
      ensures Reported(h, side, heard + [q.round], losses, o.at, o.holder, o.seen) && o.age == Max0(q.round - o.seen)
    {
      FusedReported(h, side, heard, losses, p, q, o);
    }
    forall at, holder, round | Reported(h, side, heard + [q.round], losses, at, holder, round)
      ensures Current(q.objectives, at, round)
    {
      FusedCurrent(h, side, heard, losses, p, q, at, holder, round);
    }
    LatestBy(h, side, heard + [q.round], losses, q);
  }

  lemma FusedCurrent(h: seq<HistoryRound>, side: nat, heard: seq<int>, losses: set<Delivery>, p: Picture, q: Picture,
                     at: Location, holder: string, round: int)
    requires Recorded(h) && side < 2 && 0 <= q.round < |h| && Viewable(h, side, q.round)
    requires LatestReports(h, side, heard, losses, p)
    requires FusedObjectives(p.objectives, View(h, side, q.round).objectives, q.round, q.objectives)
    requires Reported(h, side, heard + [q.round], losses, at, holder, round)
    ensures Current(q.objectives, at, round)
  {
    ViewFacts(h, side, q.round);
    hide Recorded, FusedObjectives, View, IsObservation, Viewable, ObservationTellsApart, Current;
    var status := View(h, side, q.round).objectives;
    if Reported(h, side, heard, losses, at, holder, round) {
      CurrentAfterFuse(p.objectives, status, q.round, q.objectives, at, round);
    } else {
      SightedIsCurrent(p.objectives, status, q.round, q.objectives, ObjectiveStatus(at, holder));
    }
  }

  lemma LatestBy(h: seq<HistoryRound>, side: nat, heard: seq<int>, losses: set<Delivery>, p: Picture)
    requires forall o | o in p.objectives ::
               Reported(h, side, heard, losses, o.at, o.holder, o.seen) && o.age == Max0(p.round - o.seen)
    requires forall at, holder, round | Reported(h, side, heard, losses, at, holder, round) :: Current(p.objectives, at, round)
    ensures LatestReports(h, side, heard, losses, p)
  {
    hide Reported, Current;
  }

  lemma FusedReported(h: seq<HistoryRound>, side: nat, heard: seq<int>, losses: set<Delivery>, p: Picture, q: Picture,
                      o: Belief)
    requires 0 <= q.round && Viewable(h, side, q.round) && o in q.objectives
    requires LatestReports(h, side, heard, losses, p)
    requires FusedObjectives(p.objectives, View(h, side, q.round).objectives, q.round, q.objectives)
    ensures Reported(h, side, heard + [q.round], losses, o.at, o.holder, o.seen) && o.age == Max0(q.round - o.seen)
  {
    var status := View(h, side, q.round).objectives;
    hide View, Viewable, Lists, LatestReports;
    if ObjectiveStatus(o.at, o.holder) in status && o == Belief(o.at, o.holder, q.round, 0) {
      assert Shown(h, side, heard + [q.round], o.at, o.holder, o.seen);
    } else {
      var d :| d in p.objectives && Updated(d, status, q.round, o);
      BeliefReported(h, side, heard, losses, p, d);
    }
  }

  lemma AlertLatest(h: seq<HistoryRound>, side: nat, heard: seq<int>, losses: set<Delivery>, p: Picture, at: Location,
                    holder: string, round: int, q: Picture, changed: bool)
    requires LatestReports(h, side, heard, losses, p) && IsAlerted(p, at, holder, round, q, changed)
    ensures LatestReports(h, side, heard, losses + {Loss(at, holder, round)}, q)
  {
    hide Shown;
    var told := Belief(at, holder, round, Max0(p.round - round));
    var losses' := losses + {Loss(at, holder, round)};
    forall l, f, n | Reported(h, side, heard, losses', l, f, n) ensures Current(q.objectives, l, n) {
      if Reported(h, side, heard, losses, l, f, n) {
        var o :| o in p.objectives && o.at == l && o.seen >= n;
        assert o in q.objectives || (told in q.objectives && o.at == at && o.seen <= round);
      }
    }
  }

  lemma UnchangedIsSame(p: Picture, at: Location, holder: string, round: int, q: Picture)
    requires Ordered(p) && IsAlerted(p, at, holder, round, q, false)
    ensures q == p
  {
    if !(exists o :: o in p.objectives && o.at == at && o.seen > round) {
      var told := Belief(at, holder, round, Max0(p.round - round));
      forall o | o in p.objectives && o.at == at ensures o == told {
        OneOfKey(p.objectives, BeliefKey, o, told);
      }
      SortedUnique(p.objectives, q.objectives, BeliefKey);
    }
  }

  /** One step keeps the latest reports latest. */
  lemma StepLatest(h: seq<HistoryRound>, side: nat, k: int, heard: seq<int>, losses: set<Delivery>, row: Row, d: Delivery,
                   next: Row, issued: Option<Assessment>)
    requires h != [] && Recorded(h) && side < 2 && Sound(h, side, k, row)
    requires Genuine(h, side, d) && Step(row, d, k, next, issued)
    requires row.picture.round == Latest(heard) && LatestReports(h, side, heard, losses, row.picture)
    ensures LatestReports(h, side, if d.Sighting? && d.obs.round > Latest(heard) then heard + [d.obs.round] else heard,
                          losses + if d.Loss? then {d} else {}, next.picture)
  {
    hide Recorded, IsFused, IsAlerted, LatestReports, Faithful, Factions, View;
    match d {
      case Sighting(obs) =>
        assert losses + {} == losses;
        if obs.round > Latest(heard) {
          FusedRound(row.picture, obs, k, next.picture);
          FuseLatest(h, side, heard, losses, k, row.picture, next.picture);
        }
      case Loss(at, holder, round) =>
        var p, changed :| IsAlerted(row.picture, at, holder, round, p, changed)
                          && Told(row, round, p, changed, next, issued);
        AlertLatest(h, side, heard, losses, row.picture, at, holder, round, p, changed);
        if !changed {
          FaithfulOrdered(h, side, k, row.picture);
          UnchangedIsSame(row.picture, at, holder, round, p);
        }
      case Conclusion(_) =>
        assert losses + {} == losses;
    }
  }

  lemma FaithfulOrdered(h: seq<HistoryRound>, side: nat, k: int, p: Picture)
    requires h != [] && Faithful(h, side, k, p)
    ensures Ordered(p)
  {
  }

  lemma LossesNext(ds: seq<Delivery>, n: nat)
    requires n < |ds|
    ensures Losses(ds[..n + 1]) == Losses(ds[..n]) + if ds[n].Loss? then {ds[n]} else {}
  {
    assert ds[..n + 1] == ds[..n] + [ds[n]];
  }

  /** A desk's picture always shows, of each objective, the latest report that reached it. */
  lemma {:induction false} ShowsLatest(h: seq<HistoryRound>, side: nat, k: int, grid: seq<Sector>, ds: seq<Delivery>,
                                       rows: seq<Row>, issued: seq<Option<Assessment>>, n: nat)
    requires Hears(h, side, k, grid, ds, rows, issued) && n <= |ds|
    ensures LatestReports(h, side, Heard(ds[..n]), Losses(ds[..n]), rows[n].picture)
  {
    hide *;
    if n == 0 {
      NothingReported(h, side, k, grid, ds, rows, issued);
    } else {
      HearsAt(h, side, k, grid, ds, rows, issued, n - 1);
      ShowsLatest(h, side, k, grid, ds, rows, issued, n - 1);
      RowsSound(h, side, k, grid, ds, rows, issued, n - 1);
      RoundIsLatest(h, side, k, grid, ds, rows, issued, n - 1);
      HeardNext(ds, n - 1);
      LossesNext(ds, n - 1);
      HeardGrown(Heard(ds[..n - 1]), ds[n - 1]);
      StepLatest(h, side, k, Heard(ds[..n - 1]), Losses(ds[..n - 1]), rows[n - 1], ds[n - 1], rows[n], issued[n - 1]);
    }
  }

  lemma HeardGrown(heard: seq<int>, d: Delivery)
    ensures heard + (if d.Sighting? && d.obs.round > Latest(heard) then [d.obs.round] else [])
            == if d.Sighting? && d.obs.round > Latest(heard) then heard + [d.obs.round] else heard
  {
    hide Latest;
  }

  lemma NothingReported(h: seq<HistoryRound>, side: nat, k: int, grid: seq<Sector>, ds: seq<Delivery>, rows: seq<Row>,
                        issued: seq<Option<Assessment>>)
    requires Hears(h, side, k, grid, ds, rows, issued)
    ensures LatestReports(h, side, Heard(ds[..0]), Losses(ds[..0]), rows[0].picture)
  {
    hide Step, Recorded, Genuine, Factions, View, Viewable;
    assert Heard(ds[..0]) == [] && Losses(ds[..0]) == {};
  }

  /** Every belief is of a round of the history, and was true in it. */
  ghost predicate AllTrue(h: seq<HistoryRound>, objectives: seq<Belief>) {
    forall o | o in objectives :: 0 <= o.seen < |h| && o.holder == HolderOf(h[o.seen].state.holders, o.at)
  }

  lemma FaithfulIsTrue(h: seq<HistoryRound>, side: nat, k: int, p: Picture)
    requires h != [] && Recorded(h) && Faithful(h, side, k, p)
    ensures AllTrue(h, p.objectives) && StrictlySortedBy(p.objectives, BeliefKey)
  {
    hide Recorded, FaithfulContact, View, HolderOf, Factions, Lost;
    forall o | o in p.objectives ensures 0 <= o.seen < |h| && o.holder == HolderOf(h[o.seen].state.holders, o.at) {
      assert FaithfulBelief(h, side, p.round, o);
      BeliefWasTrue(h, side, p.round, o);
    }
  }

  lemma LatestUnique(h: seq<HistoryRound>, side: nat, heard: seq<int>, losses: set<Delivery>, p: Picture, q: Picture)
    requires AllTrue(h, p.objectives) && AllTrue(h, q.objectives) && p.round == q.round
    requires StrictlySortedBy(p.objectives, BeliefKey) && StrictlySortedBy(q.objectives, BeliefKey)
    requires LatestReports(h, side, heard, losses, p) && LatestReports(h, side, heard, losses, q)
    ensures p.objectives == q.objectives
  {
    hide LatestReports, AllTrue, StrictlySortedBy;
    forall o ensures o in p.objectives <==> o in q.objectives {
      if o in p.objectives {
        ReportsAgree(h, side, heard, losses, p, q, o);
      }
      if o in q.objectives {
        ReportsAgree(h, side, heard, losses, q, p, o);
      }
    }
    SortedUnique(p.objectives, q.objectives, BeliefKey);
  }

  lemma ReportsAgree(h: seq<HistoryRound>, side: nat, heard: seq<int>, losses: set<Delivery>, p: Picture, q: Picture,
                     o: Belief)
    requires AllTrue(h, p.objectives) && AllTrue(h, q.objectives) && p.round == q.round && o in p.objectives
    requires StrictlySortedBy(p.objectives, BeliefKey)
    requires LatestReports(h, side, heard, losses, p) && LatestReports(h, side, heard, losses, q)
    ensures o in q.objectives
  {
    hide LatestReports, StrictlySortedBy, HolderOf, Current;
    BeliefReported(h, side, heard, losses, p, o);
    var t := LatestListed(h, side, heard, losses, q, o.at, o.holder, o.seen);
    BeliefReported(h, side, heard, losses, q, t);
    var u := LatestListed(h, side, heard, losses, p, t.at, t.holder, t.seen);
    OneOfKey(p.objectives, BeliefKey, o, u);
  }

  lemma BeliefReported(h: seq<HistoryRound>, side: nat, heard: seq<int>, losses: set<Delivery>, p: Picture, o: Belief)
    requires LatestReports(h, side, heard, losses, p) && o in p.objectives
    ensures Reported(h, side, heard, losses, o.at, o.holder, o.seen) && o.age == Max0(p.round - o.seen)
  {
    hide Current, Reported;
  }

  lemma LatestListed(h: seq<HistoryRound>, side: nat, heard: seq<int>, losses: set<Delivery>, p: Picture, at: Location,
                     holder: string, round: int)
    returns (o: Belief)
    requires LatestReports(h, side, heard, losses, p) && Reported(h, side, heard, losses, at, holder, round)
    ensures o in p.objectives && o.at == at && o.seen >= round
  {
    assert Current(p.objectives, at, round) by {
      hide Current, Reported;
    }
    hide LatestReports;
    o :| o in p.objectives && o.at == at && o.seen >= round;
  }

  /** Any two runs that heard the same rounds and were told the same losses end with one picture. */
  lemma Converges(h: seq<HistoryRound>, side: nat, k: int, grid: seq<Sector>,
                  ds: seq<Delivery>, rows: seq<Row>, issued: seq<Option<Assessment>>,
                  ds': seq<Delivery>, rows': seq<Row>, issued': seq<Option<Assessment>>)
    requires Hears(h, side, k, grid, ds, rows, issued) && Hears(h, side, k, grid, ds', rows', issued')
    requires Heard(ds) == Heard(ds') && Losses(ds) == Losses(ds')
    ensures rows[|ds|].picture == rows'[|ds'|].picture
  {
    hide Step, Genuine, Recorded, Factions, Heard, Losses, LatestReports, Faithful;
    assert ds[..|ds|] == ds && ds'[..|ds'|] == ds';
    BaseConverges(h, side, k, grid, ds, rows, issued, |ds|, ds', rows', issued', |ds'|);
    ShowsLatest(h, side, k, grid, ds, rows, issued, |ds|);
    ShowsLatest(h, side, k, grid, ds', rows', issued', |ds'|);
    RowsSound(h, side, k, grid, ds, rows, issued, |ds|);
    RowsSound(h, side, k, grid, ds', rows', issued', |ds'|);
    FaithfulIsTrue(h, side, k, rows[|ds|].picture);
    FaithfulIsTrue(h, side, k, rows'[|ds'|].picture);
    LatestUnique(h, side, Heard(ds), Losses(ds), rows[|ds|].picture, rows'[|ds'|].picture);
  }
}
