/** A whole run of intelligence's service under any delivery: order, loss and repetition of what exercise sent. */
module Hearing {
  import opened World
  import opened State
  import opened Sorting
  import opened Observing
  import opened Fusion
  import opened Assessing
  import opened TheaterCheck
  import opened Reconciling
  import opened Believing

  /** The desk's rows and issues, delivery by delivery, from an open row over the map's grid. */
  ghost predicate Hears(h: seq<HistoryRound>, side: nat, k: int, grid: seq<Sector>, ds: seq<Delivery>, rows: seq<Row>,
                        issued: seq<Option<Assessment>>)
  {
    && h != [] && Recorded(h) && side < 2 && 0 <= k && UniqueIds(grid)
    && |rows| == |ds| + 1 && |issued| == |ds|
    && rows[0] == Row(Factions(h)[side], Open(grid), 0, None)
    && forall i | 0 <= i < |ds| :: Genuine(h, side, ds[i]) && Step(rows[i], ds[i], k, rows[i + 1], issued[i])
  }

  lemma HearsAt(h: seq<HistoryRound>, side: nat, k: int, grid: seq<Sector>, ds: seq<Delivery>, rows: seq<Row>,
                issued: seq<Option<Assessment>>, i: nat)
    requires Hears(h, side, k, grid, ds, rows, issued) && i < |ds|
    ensures h != [] && Recorded(h) && side < 2 && 0 <= k && |rows| == |ds| + 1 && |issued| == |ds|
    ensures Genuine(h, side, ds[i]) && Step(rows[i], ds[i], k, rows[i + 1], issued[i])
  {
    hide Step, Genuine, Recorded, Factions;
  }

  /** The row is the faction's, its picture faithful, and it is closed, if at all, after the history's last round. */
  ghost predicate Sound(h: seq<HistoryRound>, side: nat, k: int, row: Row)
    requires h != []
  {
    && Faithful(h, side, k, row.picture) && row.faction == Factions(h)[side]
    && (row.closed.Some? ==> row.closed.value == |h| - 1)
  }

  lemma StepSound(h: seq<HistoryRound>, side: nat, k: int, row: Row, d: Delivery, next: Row, issued: Option<Assessment>)
    requires Recorded(h) && side < 2 && 0 <= k && Sound(h, side, k, row)
    requires Genuine(h, side, d) && Step(row, d, k, next, issued)
    ensures Sound(h, side, k, next)
  {
    hide IsFused, IsAlerted, Recorded, Factions, View, Lost, Faithful;
    match d {
      case Sighting(obs) =>
        if next != row {
          assert Viewable(h, side, obs.round) && obs == View(h, side, obs.round);
          FusedRound(row.picture, obs, k, next.picture);
          FusedFaithful(h, side, k, row.picture, next.picture);
        }
      case Loss(at, holder, round) =>
        if next != row {
          var p, changed :| IsAlerted(row.picture, at, holder, round, p, changed)
                            && Told(row, round, p, changed, next, issued);
          AlertedFaithful(h, side, k, row.picture, at, holder, round, p, changed);
        }
      case Conclusion(_) =>
    }
  }

  lemma FusedRound(prev: Picture, obs: Observation, k: int, p: Picture)
    requires IsFused(prev, obs, k, p)
    ensures p.round == obs.round
  {
  }

  lemma {:induction false} RowsSound(h: seq<HistoryRound>, side: nat, k: int, grid: seq<Sector>, ds: seq<Delivery>,
                                     rows: seq<Row>, issued: seq<Option<Assessment>>, n: nat)
    requires Hears(h, side, k, grid, ds, rows, issued) && n <= |ds|
    ensures Sound(h, side, k, rows[n])
  {
    hide Step, Genuine, Sound, Recorded, Factions;
    if n == 0 {
      OpenIsSound(h, side, k, grid);
    } else {
      RowsSound(h, side, k, grid, ds, rows, issued, n - 1);
      assert Genuine(h, side, ds[n - 1]) && Step(rows[n - 1], ds[n - 1], k, rows[n], issued[n - 1]);
      StepSound(h, side, k, rows[n - 1], ds[n - 1], rows[n], issued[n - 1]);
    }
  }

  lemma OpenIsSound(h: seq<HistoryRound>, side: nat, k: int, grid: seq<Sector>)
    requires h != [] && side < 2 && UniqueIds(grid)
    ensures Sound(h, side, k, Row(Factions(h)[side], Open(grid), 0, None))
  {
    OpenIsFaithful(h, side, k, grid);
  }

  /** What a step issues is the row it leaves, of a round of the history. */
  lemma IssuedIsRow(h: seq<HistoryRound>, side: nat, k: int, row: Row, d: Delivery, next: Row, issued: Option<Assessment>)
    requires h != [] && side < 2 && Genuine(h, side, d) && Step(row, d, k, next, issued) && issued.Some?
    ensures issued.value.picture == next.picture && issued.value.faction == row.faction && 0 <= next.picture.round
  {
    if d.Loss? {
      var p, changed :| IsAlerted(row.picture, d.at, d.holder, d.round, p, changed)
                        && Told(row, d.round, p, changed, next, issued);
      AlertedRound(row.picture, d.at, d.holder, d.round, p, changed);
    }
  }

  /** No assessment a desk issues, whatever reached it and in whatever order, draws a finding from courier's check. */
  lemma IssuesDrawNone(h: seq<HistoryRound>, side: nat, k: int, grid: seq<Sector>, ds: seq<Delivery>, rows: seq<Row>,
                       issued: seq<Option<Assessment>>, rec: Record, i: nat, x: Finding)
    requires Hears(h, side, k, grid, ds, rows, issued) && IsRecord(h, Factions(h), rec)
    requires i < |ds| && issued[i].Some?
    ensures !Departs(rec, issued[i].value, k, CURRENT_SIGHT, x)
  {
    hide Step, Genuine, Departs, IsRecord, Recorded, Faithful, Factions;
    RowsSound(h, side, k, grid, ds, rows, issued, i);
    RowsSound(h, side, k, grid, ds, rows, issued, i + 1);
    assert Genuine(h, side, ds[i]) && Step(rows[i], ds[i], k, rows[i + 1], issued[i]);
    IssuedIsRow(h, side, k, rows[i], ds[i], rows[i + 1], issued[i]);
    FaithfulDrawsNone(h, rec, side, k, issued[i].value, x);
  }

  // ----- Which rounds are assessed -----

  /** The rounds whose observations the desk fuses: each later than those before it. */
  function Heard(ds: seq<Delivery>): seq<int> {
    if ds == [] then []
    else
      var before, d := Heard(ds[..|ds| - 1]), ds[|ds| - 1];
      if d.Sighting? && d.obs.round > Latest(before) then before + [d.obs.round] else before
  }

  function Latest(rounds: seq<int>): int { if rounds == [] then -1 else rounds[|rounds| - 1] }

  /** A genuine sighting is fused exactly when its round is later than the picture's. */
  lemma StepHears(h: seq<HistoryRound>, side: nat, k: int, row: Row, d: Delivery, next: Row, issued: Option<Assessment>)
    requires h != [] && Sound(h, side, k, row) && side < 2 && Genuine(h, side, d) && Step(row, d, k, next, issued)
    ensures var heard := d.Sighting? && d.obs.round > row.picture.round;
            && next.picture.round == (if heard then d.obs.round else row.picture.round)
            && (heard ==> IsFused(row.picture, d.obs, k, next.picture) && issued.Some?)
            && (!heard ==> OnlyObjectives(row.picture, next.picture))
  {
    if d.Loss? && !Past(row, d.round) {
      var p, changed :| IsAlerted(row.picture, d.at, d.holder, d.round, p, changed)
                        && Told(row, d.round, p, changed, next, issued);
    }
  }

  /** The pictures differ in their objectives, if at all. */
  ghost predicate OnlyObjectives(p: Picture, q: Picture) {
    q == p.(objectives := q.objectives)
  }

  lemma HeardNext(ds: seq<Delivery>, n: nat)
    requires n < |ds|
    ensures Heard(ds[..n + 1]) == Heard(ds[..n]) + if ds[n].Sighting? && ds[n].obs.round > Latest(Heard(ds[..n])) then [ds[n].obs.round] else []
  {
    assert ds[..n + 1][..n] == ds[..n];
  }

  lemma {:induction false} RoundIsLatest(h: seq<HistoryRound>, side: nat, k: int, grid: seq<Sector>, ds: seq<Delivery>,
                                         rows: seq<Row>, issued: seq<Option<Assessment>>, n: nat)
    requires Hears(h, side, k, grid, ds, rows, issued) && n <= |ds|
    ensures rows[n].picture.round == Latest(Heard(ds[..n]))
  {
    if n == 0 {
      NothingHeard(h, side, k, grid, ds, rows, issued);
    } else {
      hide *;
      HearsAt(h, side, k, grid, ds, rows, issued, n - 1);
      HeardNext(ds, n - 1);
      RoundIsLatest(h, side, k, grid, ds, rows, issued, n - 1);
      RowsSound(h, side, k, grid, ds, rows, issued, n - 1);
      StepHears(h, side, k, rows[n - 1], ds[n - 1], rows[n], issued[n - 1]);
      LatestNext(Heard(ds[..n - 1]), ds[n - 1]);
    }
  }

  lemma NothingHeard(h: seq<HistoryRound>, side: nat, k: int, grid: seq<Sector>, ds: seq<Delivery>, rows: seq<Row>,
                     issued: seq<Option<Assessment>>)
    requires Hears(h, side, k, grid, ds, rows, issued)
    ensures rows[0].picture.round == Latest(Heard(ds[..0]))
  {
    hide Step, Genuine, Recorded, Factions;
  }

  lemma LatestNext(rounds: seq<int>, d: Delivery)
    ensures var next := rounds + if d.Sighting? && d.obs.round > Latest(rounds) then [d.obs.round] else [];
            Latest(next) == if d.Sighting? && d.obs.round > Latest(rounds) then d.obs.round else Latest(rounds)
  {
    assert rounds + [] == rounds;
  }

  /** The `i`-th delivery is the first report of its round or a later one. */
  ghost predicate InOrder(ds: seq<Delivery>, i: int, round: int) {
    && 0 <= i < |ds| && ds[i].Sighting? && ds[i].obs.round == round
    && forall j | 0 <= j < i && ds[j].Sighting? :: ds[j].obs.round < round
  }

  lemma {:induction false} LatestIsHighest(ds: seq<Delivery>, round: int)
    requires round >= 0
    ensures Latest(Heard(ds)) < round <==> forall j | 0 <= j < |ds| && ds[j].Sighting? :: ds[j].obs.round < round
  {
    if ds != [] {
      var n := |ds| - 1;
      LatestIsHighest(ds[..n], round);
      assert forall j | 0 <= j < n :: ds[..n][j] == ds[j];
      if (forall j | 0 <= j < |ds| && ds[j].Sighting? :: ds[j].obs.round < round) {
        assert forall j | 0 <= j < n && ds[..n][j].Sighting? :: ds[..n][j].obs.round < round;
      }
    }
  }

  /** An issue of the round exists exactly when its observation came before that of any later round. */
  lemma CoveredInOrder(h: seq<HistoryRound>, side: nat, k: int, grid: seq<Sector>, ds: seq<Delivery>, rows: seq<Row>,
                       issued: seq<Option<Assessment>>, round: nat)
    requires Hears(h, side, k, grid, ds, rows, issued)
    ensures (exists i :: 0 <= i < |ds| && issued[i].Some? && issued[i].value.picture.round == round)
            <==> exists i :: InOrder(ds, i, round)
  {
    hide Step, Genuine, Sound, Recorded, Factions, IsFused, OnlyObjectives, Heard, Latest;
    forall i | 0 <= i < |ds|
      ensures issued[i].Some? && issued[i].value.picture.round == round ==> Reached(ds, i + 1, round)
      ensures InOrder(ds, i, round) ==> issued[i].Some? && issued[i].value.picture.round == round
    {
      IssueInOrder(h, side, k, grid, ds, rows, issued, round, i);
    }
    if i :| 0 <= i < |ds| && issued[i].Some? && issued[i].value.picture.round == round {
      assert Reached(ds, i + 1, round);
    }
  }

  /** The round is the latest of the first `n` deliveries' sightings. */
  ghost predicate Reached(ds: seq<Delivery>, n: nat, round: int) {
    exists i :: i < n && InOrder(ds, i, round)
  }

  lemma {:induction false} LatestReached(ds: seq<Delivery>, n: nat)
    requires n <= |ds| && Latest(Heard(ds[..n])) >= 0
    ensures Reached(ds, n, Latest(Heard(ds[..n])))
  {
    if n > 0 {
      var m := n - 1;
      assert ds[..n][..m] == ds[..m];
      if Heard(ds[..n]) == Heard(ds[..m]) {
        LatestReached(ds, m);
      } else {
        LatestIsHighest(ds[..m], ds[m].obs.round);
        assert forall j | 0 <= j < m :: ds[..m][j] == ds[j];
        assert InOrder(ds, m, ds[m].obs.round);
      }
    }
  }

  lemma IssueInOrder(h: seq<HistoryRound>, side: nat, k: int, grid: seq<Sector>, ds: seq<Delivery>, rows: seq<Row>,
                     issued: seq<Option<Assessment>>, round: nat, i: nat)
    requires Hears(h, side, k, grid, ds, rows, issued) && i < |ds|
    ensures issued[i].Some? && issued[i].value.picture.round == round ==> Reached(ds, i + 1, round)
    ensures InOrder(ds, i, round) ==> issued[i].Some? && issued[i].value.picture.round == round
  {
    hide Step, Genuine, Sound, Recorded, Factions, IsFused, OnlyObjectives, Heard, Latest, Reached;
    RowsSound(h, side, k, grid, ds, rows, issued, i);
    RoundIsLatest(h, side, k, grid, ds, rows, issued, i);
    RoundIsLatest(h, side, k, grid, ds, rows, issued, i + 1);
    assert Genuine(h, side, ds[i]) && Step(rows[i], ds[i], k, rows[i + 1], issued[i]);
    StepHears(h, side, k, rows[i], ds[i], rows[i + 1], issued[i]);
    if issued[i].Some? {
      IssuedIsRow(h, side, k, rows[i], ds[i], rows[i + 1], issued[i]);
    }
    if issued[i].Some? && issued[i].value.picture.round == round {
      LatestReached(ds, i + 1);
    }
    if InOrder(ds, i, round) {
      LatestIsHighest(ds[..i], round);
    }
  }

  // ----- Courier's check of a whole run -----

  /** One desk's run. */
  datatype Trace = Trace(ds: seq<Delivery>, rows: seq<Row>, issued: seq<Option<Assessment>>)

  ghost predicate Issued(t: Trace, a: Assessment) {
    exists i :: 0 <= i < |t.issued| && t.issued[i] == Some(a)
  }

  /** The stream holds what the two desks issued, in any order. */
  ghost predicate Streamed(a: Trace, b: Trace, all: seq<Assessment>) {
    forall x :: x in all <==> Issued(a, x) || Issued(b, x)
  }

  lemma {:induction false} SomeLast(all: seq<Assessment>, key: (string, int))
    ensures (exists a :: a in all && FactionRound(a) == key) ==> exists a :: LastIssued(all, a) && FactionRound(a) == key
  {
    if all != [] {
      var n := |all| - 1;
      SomeLast(all[..n], key);
      if FactionRound(all[n]) == key {
        assert LastIssued(all, all[n]);
      } else if a :| LastIssued(all[..n], a) && FactionRound(a) == key {
        LastIssuedGrows(all, n, a);
      } else {
        assert all == all[..n] + [all[n]];
      }
    }
  }

  lemma LastIssuedGrows(all: seq<Assessment>, n: nat, a: Assessment)
    requires n + 1 == |all| && LastIssued(all[..n], a) && FactionRound(all[n]) != FactionRound(a)
    ensures LastIssued(all, a)
  {
    var before := all[..n];
    assert all == before + [all[n]];
    var i :| 0 <= i < |before| && before[i] == a && forall j | i < j < |before| :: FactionRound(before[j]) != FactionRound(a);
    assert all[i] == a;
  }

  lemma AssessedAlike(all: seq<Assessment>, last: seq<Assessment>, f: string, round: int)
    requires AreLast(all, last)
    ensures Assessed(last, f, round) <==> Assessed(all, f, round)
  {
    SomeLast(all, (f, round));
    if a :| a in all && a.faction == f && a.picture.round == round {
      assert FactionRound(a) == (f, round);
      var b :| LastIssued(all, b) && FactionRound(b) == (f, round);
      assert b in last;
    }
    if a :| a in last && a.faction == f && a.picture.round == round {
      assert LastIssued(all, a);
    }
  }

  lemma DeskIssues(h: seq<HistoryRound>, side: nat, k: int, grid: seq<Sector>, t: Trace, rec: Record, a: Assessment)
    requires Hears(h, side, k, grid, t.ds, t.rows, t.issued) && IsRecord(h, Factions(h), rec) && Issued(t, a)
    ensures a.faction == Factions(h)[side]
    ensures forall x :: !Departs(rec, a, k, CURRENT_SIGHT, x)
  {
    hide Step, Genuine, Departs, IsRecord, Recorded, Faithful, Factions;
    var i :| 0 <= i < |t.issued| && t.issued[i] == Some(a);
    RowsSound(h, side, k, grid, t.ds, t.rows, t.issued, i);
    assert Genuine(h, side, t.ds[i]) && Step(t.rows[i], t.ds[i], k, t.rows[i + 1], t.issued[i]);
    IssuedIsRow(h, side, k, t.rows[i], t.ds[i], t.rows[i + 1], t.issued[i]);
    forall x ensures !Departs(rec, a, k, CURRENT_SIGHT, x) {
      IssuesDrawNone(h, side, k, grid, t.ds, t.rows, t.issued, rec, i, x);
    }
  }

  /** The observation of the round came before that of any later round. */
  ghost predicate Arrived(ds: seq<Delivery>, round: int) {
    exists i :: InOrder(ds, i, round)
  }

  ghost predicate Assesses(t: Trace, round: int) {
    exists a :: Issued(t, a) && a.picture.round == round
  }

  lemma DeskCovers(h: seq<HistoryRound>, side: nat, k: int, grid: seq<Sector>, t: Trace, round: nat)
    requires Hears(h, side, k, grid, t.ds, t.rows, t.issued)
    ensures Assesses(t, round) <==> Arrived(t.ds, round)
  {
    CoveredInOrder(h, side, k, grid, t.ds, t.rows, t.issued, round);
    hide Step, Genuine, Recorded, Factions, InOrder;
    if i :| 0 <= i < |t.ds| && t.issued[i].Some? && t.issued[i].value.picture.round == round {
      assert Issued(t, t.issued[i].value);
    }
    if a :| Issued(t, a) && a.picture.round == round {
      var i :| 0 <= i < |t.issued| && t.issued[i] == Some(a);
      assert t.issued[i].Some? && t.issued[i].value.picture.round == round;
    }
  }

  lemma AssessedWhenArrived(h: seq<HistoryRound>, k: int, grid: seq<Sector>, a: Trace, b: Trace, all: seq<Assessment>,
                            rec: Record, round: nat)
    requires Hears(h, 0, k, grid, a.ds, a.rows, a.issued) && Hears(h, 1, k, grid, b.ds, b.rows, b.issued)
    requires IsRecord(h, Factions(h), rec) && Streamed(a, b, all)
    ensures Assessed(all, Factions(h)[0], round) <==> Arrived(a.ds, round)
    ensures Assessed(all, Factions(h)[1], round) <==> Arrived(b.ds, round)
  {
    assert h != [] && Recorded(h) by {
      hide Step, Genuine, Factions;
    }
    TwoFactions(h);
    DeskCovers(h, 0, k, grid, a, round);
    DeskCovers(h, 1, k, grid, b, round);
    hide *;
    forall x | Issued(a, x) ensures x.faction == Factions(h)[0] {
      DeskIssues(h, 0, k, grid, a, rec, x);
    }
    forall x | Issued(b, x) ensures x.faction == Factions(h)[1] {
      DeskIssues(h, 1, k, grid, b, rec, x);
    }
    StreamAssesses(Factions(h)[0], Factions(h)[1], a, b, all, round);
  }

  lemma StreamAssesses(f: string, g: string, a: Trace, b: Trace, all: seq<Assessment>, round: int)
    requires f != g && Streamed(a, b, all)
    requires (forall x | Issued(a, x) :: x.faction == f) && (forall x | Issued(b, x) :: x.faction == g)
    ensures (Assessed(all, f, round) <==> Assesses(a, round)) && (Assessed(all, g, round) <==> Assesses(b, round))
  {
    hide Issued;
  }

  lemma TwoFactions(h: seq<HistoryRound>)
    requires h != [] && Recorded(h)
    ensures Factions(h)[0] != Factions(h)[1]
  {
    RecordStaysValid(h, 0);
    hide Recorded;
  }

  /** Courier's check of both factions' last assessments finds nothing but the rounds whose observation never came, or
      came after that of a later round. */
  lemma RunReconciles(h: seq<HistoryRound>, k: int, grid: seq<Sector>, a: Trace, b: Trace, all: seq<Assessment>,
                      last: seq<Assessment>, rec: Record, x: Inconsistency)
    requires Hears(h, 0, k, grid, a.ds, a.rows, a.issued) && Hears(h, 1, k, grid, b.ds, b.rows, b.issued)
    requires IsRecord(h, Factions(h), rec) && Streamed(a, b, all) && AreLast(all, last)
    ensures IsInconsistent(h, Factions(h), rec, last, k, CURRENT_SIGHT, x)
            <==> && x.Missing? && x.faction in Factions(h) && 0 <= x.round < |h|
                 && !Arrived(if x.faction == Factions(h)[0] then a.ds else b.ds, x.round)
  {
    assert h != [] && Recorded(h) by {
      hide Step, Genuine, Factions;
    }
    hide Hears, IsRecord, InOrder, Issued, Departs, Assessed, Factions, Arrived, Covers, Recorded;
    match x {
      case Missing(f, round) =>
        hide AreLast, Streamed;
        RoundsCovered(h, round);
        if f in Factions(h) && 0 <= round < |h| {
          AssessedAlike(all, last, f, round);
          AssessedWhenArrived(h, k, grid, a, b, all, rec, round);
        }
      case Departing(y, finding) =>
        if y in last {
          assert LastIssued(all, y);
          if Issued(a, y) {
            DeskIssues(h, 0, k, grid, a, rec, y);
          } else {
            DeskIssues(h, 1, k, grid, b, rec, y);
          }
        }
    }
  }

  lemma RoundsCovered(h: seq<HistoryRound>, round: int)
    requires Recorded(h)
    ensures Covers(h, round) <==> 0 <= round < |h|
  {
    forall n | 0 <= n < |h| ensures h[n].round == n {
      RoundAt(h, n);
    }
    hide Recorded;
    assert 0 <= round < |h| ==> h[round].round == round;
  }
}
