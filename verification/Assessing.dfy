/** Intelligence's service: one faction's assessment row, what it takes of each delivery, and what it issues. */
module Assessing {
  import opened World
  import opened State
  import opened Sorting
  import opened Observing
  import opened Fusion

  /** An assessment as issued: the picture, and which issue of the faction's it is. */
  datatype Assessment = Assessment(faction: string, revision: int, picture: Picture)

  /** One faction's row. A closed row keeps the round its exercise concluded after. */
  datatype Row = Row(faction: string, picture: Picture, revision: int, closed: Option<int>)

  /** What reaches the service: an observation, the loss of an objective to a holder, or the conclusion. */
  datatype Delivery =
    | Sighting(obs: Observation)
    | Loss(at: Location, holder: string, round: int)
    | Conclusion(round: int)

  ghost predicate Past(row: Row, round: int) {
    row.closed.Some? && round > row.closed.value
  }

  ghost predicate Covered(row: Row, obs: Observation) {
    obs.round <= row.picture.round || Past(row, obs.round)
  }

  /** The row one delivery leaves, and the assessment it issues, if any. */
  ghost predicate Step(row: Row, d: Delivery, k: int, next: Row, issued: Option<Assessment>) {
    match d
    case Sighting(obs) =>
      if Covered(row, obs) then next == row && issued.None?
      else
        && IsFused(row.picture, obs, k, next.picture)
        && next == row.(picture := next.picture, revision := row.revision + 1)
        && issued == Some(Assessment(row.faction, next.revision, next.picture))
    case Loss(at, holder, round) =>
      if Past(row, round) then next == row && issued.None?
      else
        exists p, changed :: IsAlerted(row.picture, at, holder, round, p, changed)
                             && Told(row, round, p, changed, next, issued)
    case Conclusion(round) => next == row.(closed := Some(round)) && issued.None?
  }

  /** An alert that changes the picture saves it, and issues it when the picture already covers the alert's round. */
  ghost predicate Told(row: Row, round: int, p: Picture, changed: bool, next: Row, issued: Option<Assessment>) {
    if !changed then next == row && issued.None?
    else if row.picture.round >= round then
      && next == row.(picture := p, revision := row.revision + 1)
      && issued == Some(Assessment(row.faction, next.revision, p))
    else next == row.(picture := p) && issued.None?
  }

  /** A row's picture has each list sorted by a key of its own. */
  ghost predicate Ordered(p: Picture) {
    StrictlySortedBy(p.contacts, ContactId) && StrictlySortedBy(p.objectives, BeliefKey) && UniqueIds(p.grid)
  }

  lemma OrderedTellsApart(p: Picture)
    requires Ordered(p)
    ensures TellsApart(p)
  {
    StrictIsDistinct(p.contacts, ContactId);
    StrictIsDistinct(p.objectives, BeliefKey);
  }

  lemma StepKeepsOrder(row: Row, d: Delivery, k: int, next: Row, issued: Option<Assessment>)
    requires Ordered(row.picture) && Step(row, d, k, next, issued)
    ensures Ordered(next.picture) && next.faction == row.faction && next.picture.grid == row.picture.grid
    ensures row.picture.round <= next.picture.round && row.revision <= next.revision
    ensures issued.Some? ==> issued.value == Assessment(row.faction, row.revision + 1, next.picture) && next.revision == row.revision + 1
    ensures issued.None? ==> next.revision == row.revision
  {
    if d.Loss? && !Past(row, d.round) {
      var p, changed :| IsAlerted(row.picture, d.at, d.holder, d.round, p, changed)
                        && Told(row, d.round, p, changed, next, issued);
    }
  }

  /** The row, as the service reads, changes and saves it in each command. */
  class Desk {
    var faction: string
    var picture: Picture
    var revision: int
    var closed: Option<int>

    ghost function Now(): Row
      reads this
    {
      Row(faction, picture, revision, closed)
    }

    constructor (faction: string, grid: seq<Sector>)
      requires UniqueIds(grid)
      ensures Now() == Row(faction, Open(grid), 0, None) && Ordered(picture)
    {
      this.faction, picture, revision, closed := faction, Open(grid), 0, None;
    }

    method Issue() returns (issued: Assessment)
      modifies `revision
      ensures revision == old(revision) + 1 && issued == Assessment(faction, revision, picture)
    {
      revision := revision + 1;
      issued := Assessment(faction, revision, picture);
    }

    /** Fuses an observation of a round the row does not cover, and issues the result. */
    method Observe(obs: Observation, k: int) returns (issued: Option<Assessment>)
      requires Ordered(picture) && ObservationTellsApart(obs)
      modifies `picture, `revision
      ensures Step(old(Now()), Sighting(obs), k, Now(), issued) && Ordered(picture)
    {
      OrderedTellsApart(picture);
      if obs.round <= picture.round || (closed.Some? && obs.round > closed.value) {
        return None;
      }
      ghost var before := Now();
      picture := Fuse(picture, obs, k);
      var a := Issue();
      issued := Some(a);
      hide IsFused;
      assert Step(before, Sighting(obs), k, Now(), issued);
      FusedOrdered(before.picture, obs, k, picture);
    }

    /** Records a loss the row is not closed to, and issues the change when the picture covers its round. */
    method TakeAlert(at: Location, holder: string, round: int, k: int) returns (issued: Option<Assessment>)
      requires Ordered(picture)
      modifies `picture, `revision
      ensures Step(old(Now()), Loss(at, holder, round), k, Now(), issued) && Ordered(picture)
    {
      ghost var before := Now();
      if closed.Some? && round > closed.value {
        return None;
      }
      var p, changed := Alert(picture, at, holder, round);
      issued := None;
      if changed {
        picture := p;
        if picture.round >= round {
          var a := Issue();
          issued := Some(a);
        }
      }
      hide IsAlerted;
      assert Told(before, round, p, changed, Now(), issued) by {
        AlertedRound(before.picture, at, holder, round, p, changed);
      }
      StepKeepsOrder(before, Loss(at, holder, round), k, Now(), issued);
    }

    method Close(round: int, k: int)
      modifies `closed
      ensures Step(old(Now()), Conclusion(round), k, Now(), None)
    {
      closed := Some(round);
    }
  }

  lemma FusedOrdered(prev: Picture, obs: Observation, k: int, p: Picture)
    requires Ordered(prev) && IsFused(prev, obs, k, p)
    ensures Ordered(p)
  {
  }

  lemma AlertedRound(p: Picture, at: Location, holder: string, round: int, out: Picture, changed: bool)
    requires IsAlerted(p, at, holder, round, out, changed)
    ensures out.round == p.round
  {
  }
}
