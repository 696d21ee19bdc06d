/** Command deciding again on what it has decided on: nothing changes and nothing is issued. */
module Redirecting {
  import opened World
  import opened State
  import opened Fusion
  import opened Sorting
  import opened Assessing
  import opened Deciding
  import opened Steady
  import opened Directing
  import Keys
  import Terrain

  lemma OwnIsUnique(t: Terrain.Terrain, faction: string, p: Picture, g: Ground)
    requires IsGround(t, faction, p, g) && DistinctKeys(p.own, IdOf)
    ensures UniqueOwn(g)
  {
    hide AreDistances;
    SortByStrict(p.own, IdOf);
    forall i, j | 0 <= i < j < |g.own| ensures g.own[i].id != g.own[j].id {
      Keys.LessTotal(IdOf(g.own[i]), IdOf(g.own[j]));
    }
  }

  /** However the ground is worked out, deciding again over the decisions made returns them and redirects nobody. */
  lemma RedirectsNobody(t: Terrain.Terrain, faction: string, p: Picture, g: Ground, h: Ground, standing: seq<Decision>)
    requires IsGround(t, faction, p, g) && IsGround(t, faction, p, h) && DistinctKeys(p.own, IdOf)
    ensures |g.own| == |g.dist| && |h.own| == |h.dist|
    ensures Decided(h, Decided(g, standing)) == Decided(g, standing)
    ensures !Redirects(Decided(g, standing), Decided(h, Decided(g, standing)))
  {
    GroundUnique(t, faction, p, g, h);
    OwnIsUnique(t, faction, p, g);
    HomeIsReached(t, faction, p, g);
    hide IsGround, Decided, HomeReached;
    DecidedAgain(g, standing);
    DecidedNames(g, standing);
    var ds := Decided(g, standing);
    forall d | d in ds ensures SameCourse(WasTold(ds, d.element), d) {
      var i :| 0 <= i < |ds| && ds[i] == d;
      WasDecided(g, standing, i);
    }
  }

  /** A picture decided on once is decided on for good: the same picture again, under whatever revision, leaves the row
      but for its revision, and issues nothing. */
  lemma DecidedOnce(t: Terrain.Terrain, row: Direction, a: Assessment, next: Direction, issued: Option<Directive>,
                    b: Assessment, again: Direction, reissued: Option<Directive>)
    requires Decides(t, row, a, next, issued) && a.revision > row.revision
    requires row.closed.Some? ==> a.picture.round <= row.closed.value
    requires Decides(t, next, b, again, reissued) && b.picture == a.picture && DistinctKeys(a.picture.own, IdOf)
    ensures reissued.None?
    ensures again == next.(revision := if b.revision > next.revision then b.revision else next.revision)
  {
    hide AreDistances, Decided, Redirects;
    var g :| IsGround(t, row.faction, a.picture, g) && next.decisions == Decided(g, row.decisions);
    if b.revision > next.revision {
      var h :| IsGround(t, next.faction, b.picture, h) && again.decisions == Decided(h, next.decisions);
      RedirectsNobody(t, row.faction, a.picture, g, h, row.decisions);
    }
  }
}
