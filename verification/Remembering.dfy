/** What a faction's picture is after any deliveries in any order: what each contact, each explored cell and each belief in
    it comes from. */
module Remembering {
  import opened World
  import opened State
  import opened Sorting
  import opened Observing
  import opened Fusion
  import opened Assessing
  import opened Believing
  import Converging

  // ----- A row's whole life -----

  ghost predicate Steps(rows: seq<Row>, ds: seq<Delivery>, k: int, n: nat)
    requires n + 1 < |rows| && n < |ds|
  {
    StepsTo(rows[n], ds[n], k, rows[n + 1])
  }

  ghost predicate StepsTo(row: Row, d: Delivery, k: int, next: Row) {
    exists issued :: Step(row, d, k, next, issued)
  }

  /** The rows a new faction's row goes through as the deliveries reach it. */
  ghost predicate IsLife(grid: seq<Sector>, f: string, k: int, rows: seq<Row>, ds: seq<Delivery>) {
    && UniqueIds(grid) && |rows| == |ds| + 1 && rows[0] == Row(f, Open(grid), 0, None)
    && forall n: nat | n < |ds| :: Steps(rows, ds, k, n)
  }

  /** The conclusion reached the row before this delivery, as of a round before the one given. */
  ghost predicate Closed(ds: seq<Delivery>, n: int, round: int) {
    exists m :: 0 <= m < n && m < |ds| && ds[m].Conclusion? && ds[m].round < round
                && forall j | m < j < n && j < |ds| :: !ds[j].Conclusion?
  }

  /** The delivery is an observation of a later round than any taken before it, and the row not closed before its round. */
  ghost predicate Taken(rows: seq<Row>, ds: seq<Delivery>, n: int) {
    && 0 <= n < |ds| && n < |rows| && ds[n].Sighting?
    && rows[n].picture.round < ds[n].obs.round && !Closed(ds, n, ds[n].obs.round)
  }

  lemma {:induction false} ClosedTold(grid: seq<Sector>, f: string, k: int, rows: seq<Row>, ds: seq<Delivery>, n: nat,
                                      round: int)
    requires IsLife(grid, f, k, rows, ds) && n <= |ds|
    ensures Past(rows[n], round) <==> Closed(ds, n, round)
  {
    if n > 0 {
      ClosedTold(grid, f, k, rows, ds, n - 1, round);
      assert Steps(rows, ds, k, n - 1);
      PastNext(rows[n - 1], ds[n - 1], k, rows[n], round);
      hide *;
      ClosedNext(ds, n, round);
    }
  }

  lemma PastNext(row: Row, d: Delivery, k: int, next: Row, round: int)
    requires StepsTo(row, d, k, next)
    ensures Past(next, round) <==> if d.Conclusion? then d.round < round else Past(row, round)
  {
    hide IsFused, IsAlerted;
  }

  lemma ClosedNext(ds: seq<Delivery>, n: nat, round: int)
    requires 0 < n <= |ds|
    ensures Closed(ds, n, round) <==> if ds[n - 1].Conclusion? then ds[n - 1].round < round else Closed(ds, n - 1, round)
  {
    if m :| 0 <= m < n - 1 && ds[m].Conclusion? && ds[m].round < round && forall j | m < j < n - 1 :: !ds[j].Conclusion? {
      assert !ds[n - 1].Conclusion? ==> Closed(ds, n, round);
    }
    if m :| 0 <= m < n && ds[m].Conclusion? && ds[m].round < round && forall j | m < j < n :: !ds[j].Conclusion? {
      assert m < n - 1 ==> Closed(ds, n - 1, round);
    }
  }

  /** What one delivery does to the row. */
  lemma DeliveryTold(grid: seq<Sector>, f: string, k: int, rows: seq<Row>, ds: seq<Delivery>, n: nat)
    requires IsLife(grid, f, k, rows, ds) && n < |ds|
    ensures var p, q := rows[n].picture, rows[n + 1].picture;
            && q.grid == p.grid
            && if Taken(rows, ds, n) then IsFused(p, ds[n].obs, k, q)
               else q.round == p.round && q.contacts == p.contacts && q.explored == p.explored
                    && if ds[n].Loss? && !Closed(ds, n, ds[n].round)
                       then exists changed :: IsAlerted(p, ds[n].at, ds[n].holder, ds[n].round, q, changed)
                       else q == p
  {
    LifeOrdered(grid, f, k, rows, ds, n);
    assert Steps(rows, ds, k, n);
    if ds[n].Sighting? {
      ClosedTold(grid, f, k, rows, ds, n, ds[n].obs.round);
    } else if ds[n].Loss? {
      ClosedTold(grid, f, k, rows, ds, n, ds[n].round);
      AlertTold(rows[n], ds[n], k, rows[n + 1]);
    }
    hide IsFused, IsAlerted, Closed, Steps, IsLife;
  }

  lemma AlertTold(row: Row, d: Delivery, k: int, next: Row)
    requires d.Loss? && Ordered(row.picture) && StepsTo(row, d, k, next)
    ensures if Past(row, d.round) then next.picture == row.picture
            else exists changed :: IsAlerted(row.picture, d.at, d.holder, d.round, next.picture, changed)
    ensures next.picture == row.picture.(objectives := next.picture.objectives)
  {
    if !Past(row, d.round) {
      var issued :| Step(row, d, k, next, issued);
      var p, changed :| IsAlerted(row.picture, d.at, d.holder, d.round, p, changed)
                        && Told(row, d.round, p, changed, next, issued);
      Unchanged(row.picture, d, p, changed);
      if !changed {
        KnownAlready(row.picture, d);
      }
    }
  }

  lemma Unchanged(p: Picture, d: Delivery, q: Picture, changed: bool)
    requires d.Loss? && IsAlerted(p, d.at, d.holder, d.round, q, changed)
    ensures q == p.(objectives := q.objectives)
    ensures !changed ==> (exists o :: o in p.objectives && o.at == d.at && o.seen > d.round)
                         || Belief(d.at, d.holder, d.round, Max0(p.round - d.round)) in p.objectives
  {
  }

  /** An alert of what is believed already leaves the picture as it is. */
  lemma KnownAlready(p: Picture, d: Delivery)
    requires d.Loss? && Ordered(p)
    requires (exists o :: o in p.objectives && o.at == d.at && o.seen > d.round)
             || Belief(d.at, d.holder, d.round, Max0(p.round - d.round)) in p.objectives
    ensures IsAlerted(p, d.at, d.holder, d.round, p, false)
  {
    StrictIsDistinct(p.objectives, BeliefKey);
    var told := Belief(d.at, d.holder, d.round, Max0(p.round - d.round));
    if told in p.objectives {
      forall o | o in p.objectives && o.at == d.at ensures o == told {
      }
    }
  }

  lemma {:induction false} LifeOrdered(grid: seq<Sector>, f: string, k: int, rows: seq<Row>, ds: seq<Delivery>, n: nat)
    requires IsLife(grid, f, k, rows, ds) && n <= |ds|
    ensures Ordered(rows[n].picture) && rows[n].picture.grid == grid
  {
    if n > 0 {
      LifeOrdered(grid, f, k, rows, ds, n - 1);
      assert Steps(rows, ds, k, n - 1);
      var issued :| Step(rows[n - 1], ds[n - 1], k, rows[n], issued);
      hide Step, Ordered;
      StepKeepsOrder(rows[n - 1], ds[n - 1], k, rows[n], issued);
    }
  }

  // ----- Contacts -----

  /** The contact was observed in the `m`-th delivery, and no observation taken since shows the element again or has its
      cell in sight. */
  ghost predicate LastSeenIn(rows: seq<Row>, ds: seq<Delivery>, n: nat, m: int, c: Contact) {
    && Taken(rows, ds, m) && m < n
    && c.element in ds[m].obs.contacts && c.seen == ds[m].obs.round
    && forall j | m < j < n && Taken(rows, ds, j) ::
         !Seen(ds[j].obs.own, c.element.at) && forall e | e in ds[j].obs.contacts :: e.id != c.element.id
  }

  /** The contact is of an element as it was last observed, no more than `k` rounds ago. */
  ghost predicate Remembers(rows: seq<Row>, ds: seq<Delivery>, n: nat, round: int, k: int, c: Contact) {
    c.age == round - c.seen <= k && exists m :: LastSeenIn(rows, ds, n, m, c)
  }

  /** A picture remembers an enemy exactly as it was last observed, until it is too old, or the cell it was in is in sight
      again without it. */
  lemma {:induction false} ContactsRemembered(grid: seq<Sector>, f: string, k: int, rows: seq<Row>, ds: seq<Delivery>,
                                              n: nat, c: Contact)
    requires 0 <= k && IsLife(grid, f, k, rows, ds) && n <= |ds|
    ensures c in rows[n].picture.contacts <==> Remembers(rows, ds, n, rows[n].picture.round, k, c)
  {
    if n == 0 {
      assert rows[0].picture.contacts == [];
    } else {
      var before := rows[n - 1].picture;
      forall d ensures d in before.contacts <==> Remembers(rows, ds, n - 1, before.round, k, d) {
        ContactsRemembered(grid, f, k, rows, ds, n - 1, d);
      }
      DeliveryTold(grid, f, k, rows, ds, n - 1);
      hide *;
      if Taken(rows, ds, n - 1) {
        TakenRounds(grid, f, k, rows, ds, n - 1);
        FusedTold(before, ds[n - 1].obs, k, rows[n].picture, c);
        if Held(before, ds[n - 1].obs, k, c) {
          RememberedOn(rows, ds, n, before, k, c);
        }
        if Remembers(rows, ds, n, ds[n - 1].obs.round, k, c) {
          RememberedOf(rows, ds, n, before, k, c);
        }
      } else {
        NothingSeen(rows, ds, n - 1, n, before.round, k, c);
      }
    }
  }

  lemma NothingSeen(rows: seq<Row>, ds: seq<Delivery>, last: nat, n: nat, round: int, k: int, c: Contact)
    requires n == last + 1 && !Taken(rows, ds, last)
    ensures Remembers(rows, ds, n, round, k, c) <==> Remembers(rows, ds, last, round, k, c)
  {
    hide Taken, Seen;
    if m :| LastSeenIn(rows, ds, n, m, c) {
      assert LastSeenIn(rows, ds, last, m, c);
    }
    if m :| LastSeenIn(rows, ds, last, m, c) {
      assert LastSeenIn(rows, ds, n, m, c);
    }
  }

  /** What the fused picture holds: who is observed now, and who was known and is remembered. */
  ghost predicate Held(before: Picture, obs: Observation, k: int, c: Contact) {
    || (c.element in obs.contacts && c == Contact(c.element, obs.round, 0))
    || Remembered(before.contacts, obs.own, obs.contacts, obs.round, k, c)
  }

  lemma RememberedOn(rows: seq<Row>, ds: seq<Delivery>, n: nat, before: Picture, k: int, c: Contact)
    requires 0 < n <= |ds| && Taken(rows, ds, n - 1) && 0 <= k && Held(before, ds[n - 1].obs, k, c)
    requires forall d :: d in before.contacts <==> Remembers(rows, ds, n - 1, before.round, k, d)
    ensures Remembers(rows, ds, n, ds[n - 1].obs.round, k, c)
  {
    var obs := ds[n - 1].obs;
    hide Taken, Seen;
    if c.element in obs.contacts && c == Contact(c.element, obs.round, 0) {
      assert LastSeenIn(rows, ds, n, n - 1, c);
    } else {
      var d :| d in before.contacts && c == Contact(d.element, d.seen, obs.round - d.seen)
               && (forall e | e in obs.contacts :: e.id != d.element.id) && c.age <= k && !Seen(obs.own, d.element.at);
      var m :| LastSeenIn(rows, ds, n - 1, m, d);
      LastSeenStill(rows, ds, n, m, c, d);
    }
  }

  lemma RememberedOf(rows: seq<Row>, ds: seq<Delivery>, n: nat, before: Picture, k: int, c: Contact)
    requires 0 < n <= |ds| && Taken(rows, ds, n - 1) && before.round < ds[n - 1].obs.round
    requires forall d :: d in before.contacts <==> Remembers(rows, ds, n - 1, before.round, k, d)
    requires Remembers(rows, ds, n, ds[n - 1].obs.round, k, c)
    ensures Held(before, ds[n - 1].obs, k, c)
  {
    var obs := ds[n - 1].obs;
    hide Taken, Seen;
    var m :| LastSeenIn(rows, ds, n, m, c);
    if m < n - 1 {
      var d := Contact(c.element, c.seen, before.round - c.seen);
      assert LastSeenIn(rows, ds, n - 1, m, d);
      assert d in before.contacts && c == Contact(d.element, d.seen, obs.round - d.seen);
    }
  }

  lemma LastSeenStill(rows: seq<Row>, ds: seq<Delivery>, n: nat, m: int, c: Contact, d: Contact)
    requires 0 < n <= |ds| && Taken(rows, ds, n - 1) && LastSeenIn(rows, ds, n - 1, m, d)
    requires c.element == d.element && c.seen == d.seen && !Seen(ds[n - 1].obs.own, c.element.at)
    requires forall e | e in ds[n - 1].obs.contacts :: e.id != c.element.id
    ensures LastSeenIn(rows, ds, n, m, c)
  {
    hide Seen;
  }

  lemma FusedTold(p: Picture, obs: Observation, k: int, q: Picture, c: Contact)
    requires IsFused(p, obs, k, q)
    ensures c in q.contacts <==> Held(p, obs, k, c)
    ensures q.round == obs.round
  {
    hide Remembered, FusedObjectives, SeesInGrid;
  }

  lemma TakenRounds(grid: seq<Sector>, f: string, k: int, rows: seq<Row>, ds: seq<Delivery>, n: nat)
    requires IsLife(grid, f, k, rows, ds) && Taken(rows, ds, n)
    ensures n < |ds| && n + 1 < |rows| && ds[n].Sighting?
    ensures rows[n].picture.round < ds[n].obs.round == rows[n + 1].picture.round
  {
    DeliveryTold(grid, f, k, rows, ds, n);
  }

  // ----- Explored cells -----

  /** An element the faction had in an observation taken had the cell, inside its sector's grid, in sight. */
  ghost predicate SeenOnce(grid: seq<Sector>, rows: seq<Row>, ds: seq<Delivery>, n: nat, at: Location) {
    exists m :: 0 <= m < n && Taken(rows, ds, m) && SeesInGrid(grid, ds[m].obs.own, at)
  }

  /** The explored cells are those that some observation taken had in sight, and no cell is forgotten. */
  lemma {:induction false} ExploredOnce(grid: seq<Sector>, f: string, k: int, rows: seq<Row>, ds: seq<Delivery>, n: nat,
                                        at: Location)
    requires IsLife(grid, f, k, rows, ds) && n <= |ds|
    ensures at in rows[n].picture.explored <==> SeenOnce(grid, rows, ds, n, at)
  {
    if n == 0 {
      assert rows[0].picture.explored == {};
    } else {
      ExploredOnce(grid, f, k, rows, ds, n - 1, at);
      DeliveryTold(grid, f, k, rows, ds, n - 1);
      LifeOrdered(grid, f, k, rows, ds, n - 1);
      hide IsLife, IsAlerted, Taken, SeesInGrid, FusedContacts, FusedObjectives, Ordered;
    }
  }

  // ----- Beliefs -----

  /** The delivery told the row of the objective's holder as of the round: it was seen, or an alert of its loss came. */
  ghost predicate Informs(rows: seq<Row>, ds: seq<Delivery>, n: int, at: Location, holder: string, round: int) {
    || (Taken(rows, ds, n) && ds[n].obs.round == round && ObjectiveStatus(at, holder) in ds[n].obs.objectives)
    || (0 <= n < |ds| && ds[n] == Loss(at, holder, round) && !Closed(ds, n, round))
  }

  /** Each belief is of a round some delivery told of, and as of the latest round any told of. */
  lemma {:induction false} BeliefsLatest(grid: seq<Sector>, f: string, k: int, rows: seq<Row>, ds: seq<Delivery>, n: nat)
    requires IsLife(grid, f, k, rows, ds) && n <= |ds|
    ensures AllInformed(rows, ds, n, rows[n].picture) && AllKnown(rows, ds, n, rows[n].picture)
  {
    if n == 0 {
      assert rows[0].picture.objectives == [];
    } else {
      BeliefsLatest(grid, f, k, rows, ds, n - 1);
      DeliveryTold(grid, f, k, rows, ds, n - 1);
      hide *;
      assert Goes(rows, ds, k, rows[n - 1].picture, rows[n].picture, n - 1) by {
        Going(grid, f, k, rows, ds, n - 1);
      }
      StillInformed(rows, ds, k, rows[n - 1].picture, rows[n].picture, n - 1);
      StillKnown(rows, ds, k, rows[n - 1].picture, rows[n].picture, n - 1);
    }
  }

  ghost predicate AllInformed(rows: seq<Row>, ds: seq<Delivery>, n: nat, p: Picture) {
    forall o | o in p.objectives :: exists m :: 0 <= m < n && Informs(rows, ds, m, o.at, o.holder, o.seen)
  }

  ghost predicate AllKnown(rows: seq<Row>, ds: seq<Delivery>, n: nat, p: Picture) {
    forall m, at, holder, round | 0 <= m < n && Informs(rows, ds, m, at, holder, round) :: Current(p.objectives, at, round)
  }

  /** The picture after the delivery. */
  ghost predicate Goes(rows: seq<Row>, ds: seq<Delivery>, k: int, p: Picture, q: Picture, n: nat) {
    && n < |ds|
    && if Taken(rows, ds, n) then IsFused(p, ds[n].obs, k, q)
       else if ds[n].Loss? && !Closed(ds, n, ds[n].round)
       then exists changed :: IsAlerted(p, ds[n].at, ds[n].holder, ds[n].round, q, changed)
       else q == p
  }

  lemma Going(grid: seq<Sector>, f: string, k: int, rows: seq<Row>, ds: seq<Delivery>, n: nat)
    requires IsLife(grid, f, k, rows, ds) && n < |ds|
    ensures Goes(rows, ds, k, rows[n].picture, rows[n + 1].picture, n)
  {
    DeliveryTold(grid, f, k, rows, ds, n);
    hide IsLife, Taken, Closed, IsFused, IsAlerted;
  }

  lemma StillInformed(rows: seq<Row>, ds: seq<Delivery>, k: int, p: Picture, q: Picture, n: nat)
    requires Goes(rows, ds, k, p, q, n) && AllInformed(rows, ds, n, p)
    ensures AllInformed(rows, ds, n + 1, q)
  {
    hide Goes, Informs;
    forall o | o in q.objectives ensures exists m :: 0 <= m < n + 1 && Informs(rows, ds, m, o.at, o.holder, o.seen) {
      BeliefFrom(rows, ds, k, p, q, n, o);
      if !Informs(rows, ds, n, o.at, o.holder, o.seen) {
        var d :| d in p.objectives && d.at == o.at && d.holder == o.holder && d.seen == o.seen;
        var m :| 0 <= m < n && Informs(rows, ds, m, d.at, d.holder, d.seen);
      }
    }
  }

  lemma StillKnown(rows: seq<Row>, ds: seq<Delivery>, k: int, p: Picture, q: Picture, n: nat)
    requires Goes(rows, ds, k, p, q, n) && AllKnown(rows, ds, n, p)
    ensures AllKnown(rows, ds, n + 1, q)
  {
    hide Goes, Informs, Current;
    forall m, at, holder, round | 0 <= m < n + 1 && Informs(rows, ds, m, at, holder, round) ensures Current(q.objectives, at, round) {
      if m == n {
        NewsKnown(rows, ds, k, p, q, n, at, holder, round);
      } else {
        StaysKnown(rows, ds, k, p, q, n, at, round);
      }
    }
  }

  lemma BeliefFrom(rows: seq<Row>, ds: seq<Delivery>, k: int, p: Picture, q: Picture, n: nat, o: Belief)
    requires Goes(rows, ds, k, p, q, n) && o in q.objectives
    ensures Informs(rows, ds, n, o.at, o.holder, o.seen)
            || exists d :: d in p.objectives && d.at == o.at && d.holder == o.holder && d.seen == o.seen
  {
    hide Closed, FusedContacts, SeesInGrid, StrictlySortedBy;
  }

  lemma FusedParts(p: Picture, obs: Observation, k: int, q: Picture)
    requires IsFused(p, obs, k, q)
    ensures FusedObjectives(p.objectives, obs.objectives, obs.round, q.objectives)
  {
  }

  lemma AlertedKnown(p: Picture, d: Delivery, q: Picture, changed: bool, at: Location, round: int)
    requires d.Loss? && IsAlerted(p, d.at, d.holder, d.round, q, changed)
    requires (at == d.at && round == d.round) || Current(p.objectives, at, round)
    ensures Current(q.objectives, at, round)
  {
    hide StrictlySortedBy;
    var told := Belief(d.at, d.holder, d.round, Max0(p.round - d.round));
    if q != p {
      assert told in q.objectives;
    }
  }

  lemma NewsKnown(rows: seq<Row>, ds: seq<Delivery>, k: int, p: Picture, q: Picture, n: nat, at: Location,
                  holder: string, round: int)
    requires Goes(rows, ds, k, p, q, n) && Informs(rows, ds, n, at, holder, round)
    ensures Current(q.objectives, at, round)
  {
    hide Closed, IsFused, IsAlerted, Current;
    if Taken(rows, ds, n) {
      FusedParts(p, ds[n].obs, k, q);
      SightedIsCurrent(p.objectives, ds[n].obs.objectives, round, q.objectives, ObjectiveStatus(at, holder));
    } else {
      var changed :| IsAlerted(p, ds[n].at, ds[n].holder, ds[n].round, q, changed);
      AlertedKnown(p, ds[n], q, changed, at, round);
    }
  }

  lemma StaysKnown(rows: seq<Row>, ds: seq<Delivery>, k: int, p: Picture, q: Picture, n: nat, at: Location, round: int)
    requires Goes(rows, ds, k, p, q, n) && Current(p.objectives, at, round)
    ensures Current(q.objectives, at, round)
  {
    hide Closed, IsFused, IsAlerted, Current;
    if Taken(rows, ds, n) {
      FusedParts(p, ds[n].obs, k, q);
      Converging.CurrentAfterFuse(p.objectives, ds[n].obs.objectives, ds[n].obs.round, q.objectives, at, round);
    } else if ds[n].Loss? && !Closed(ds, n, ds[n].round) {
      var changed :| IsAlerted(p, ds[n].at, ds[n].holder, ds[n].round, q, changed);
      AlertedKnown(p, ds[n], q, changed, at, round);
    }
  }
}
