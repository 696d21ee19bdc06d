/** Objectives over a whole run: who holds one, and since when a faction has been alone on it. */
module Capturing {
  import opened World
  import opened State
  import opened Resolution
  import opened Rounds

  /** Any valid start, then each state what a round made of the one before it, under some orders. */
  ghost predicate Run(h: seq<State>) {
    && h != [] && ValidState(h[0])
    && forall n | 0 < n < |h| :: Follows(h[n - 1], h[n])
  }

  ghost predicate Follows(s: State, next: State) {
    exists orders, res, w :: Resolved(s, orders, next, res, w)
  }

  /** A faction's count on a cell it does not hold. */
  function OnBooks(s: State, l: Location, f: string): nat {
    if l in s.progress && s.progress[l].faction == f && HolderOf(s.holders, l) != f && s.progress[l].rounds > 0
    then s.progress[l].rounds else 0
  }

  /** How many of the rounds up to the `n`-th, without a break, ended with `f` alone on the cell; a break-free run of
      them from the start goes on from the count the start had. */
  ghost function Streak(h: seq<State>, l: Location, f: string, n: nat): nat
    requires n < |h|
  {
    if n == 0 then OnBooks(h[0], l, f)
    else if Lone(h[n].elements, l) != Some(f) then 0 else 1 + Streak(h, l, f, n - 1)
  }

  lemma {:induction false} RunStaysValid(h: seq<State>, n: nat)
    requires Run(h) && n < |h|
    ensures ValidState(h[n]) && h[n].world == h[0].world && h[n].factions == h[0].factions
    ensures n > 0 ==> Settled(h[n].elements)
  {
    hide *;
    if n == 0 {
      RunStarts(h);
    } else {
      RunStaysValid(h, n - 1);
      FollowsAt(h, n);
      FollowsKeeps(h[n - 1], h[n]);
    }
  }

  lemma RunStarts(h: seq<State>)
    requires Run(h)
    ensures h != [] && ValidState(h[0])
  {
    hide Follows, ValidState;
  }

  lemma FollowsAt(h: seq<State>, n: nat)
    requires Run(h) && 0 < n < |h|
    ensures Follows(h[n - 1], h[n])
  {
    hide Follows, ValidState;
  }

  lemma FollowsKeeps(s: State, next: State)
    requires ValidState(s) && Follows(s, next)
    ensures ValidState(next) && Settled(next.elements) && next.world == s.world && next.factions == s.factions
  {
    hide ValidState, Settled, Fired, AreSettled, Captured;
    var orders, res, w :| Resolved(s, orders, next, res, w);
    ResolvedIsValid(s, orders, next, res, w);
  }

  /** A faction's count is on the books while it does not hold the cell; `streak` is its rounds alone so far. */
  ghost predicate Booked(holders: map<Location, string>, progress: map<Location, Progress>, l: Location, f: string,
                         streak: nat)
  {
    && (streak >= CAPTURE_ROUNDS ==> HolderOf(holders, l) == f)
    && (HolderOf(holders, l) != f ==> ((l in progress && progress[l].faction == f) <==> 0 < streak))
    && (HolderOf(holders, l) != f && l in progress && progress[l].faction == f ==> progress[l].rounds == streak)
  }

  /** One round's step of the books. */
  lemma BookedNext(holders: map<Location, string>, progress: map<Location, Progress>,
                   holders': map<Location, string>, progress': map<Location, Progress>,
                   l: Location, f: string, lone: Option<string>, streak: nat)
    requires Booked(holders, progress, l, f, streak)
    requires CapturedBy(lone, holders, progress, holders', progress', l)
    ensures var streak' := if lone == Some(f) then streak + 1 else 0;
            && Booked(holders', progress', l, f, streak')
            && (f != "" ==> (HolderOf(holders, l) != f && HolderOf(holders', l) == f
                             <==> HolderOf(holders, l) != f && streak' == CAPTURE_ROUNDS))
  {
  }

  lemma {:induction false} CountsKept(h: seq<State>, l: Location, f: string, n: nat)
    requires Run(h) && n < |h| && l in Objectives(h[0].world.sectors)
    ensures Booked(h[n].holders, h[n].progress, l, f, Streak(h, l, f, n))
  {
    hide *;
    if n == 0 {
      StartBooked(h, l, f);
    } else {
      CountsKept(h, l, f, n - 1);
      RoundCounts(h, l, n);
      StreakNext(h, l, f, n);
      BookedNext(h[n - 1].holders, h[n - 1].progress, h[n].holders, h[n].progress, l, f,
                 Lone(h[n].elements, l), Streak(h, l, f, n - 1));
    }
  }

  lemma StartBooked(h: seq<State>, l: Location, f: string)
    requires Run(h)
    ensures Booked(h[0].holders, h[0].progress, l, f, Streak(h, l, f, 0))
  {
    hide ValidMap, ValidElement, Objectives, IsFaction, Follows;
  }

  lemma StreakNext(h: seq<State>, l: Location, f: string, n: nat)
    requires 0 < n < |h|
    ensures Streak(h, l, f, n) == if Lone(h[n].elements, l) == Some(f) then Streak(h, l, f, n - 1) + 1 else 0
  {
  }

  lemma RoundCounts(h: seq<State>, l: Location, n: nat)
    requires Run(h) && 0 < n < |h| && l in Objectives(h[0].world.sectors)
    ensures CapturedBy(Lone(h[n].elements, l), h[n - 1].holders, h[n - 1].progress, h[n].holders, h[n].progress, l)
  {
    RunStaysValid(h, n - 1);
    FollowsAt(h, n);
    hide Run, ValidState, Settled, Resolved, CapturedBy, Objectives, Lone;
    var orders, res, w :| Resolved(h[n - 1], orders, h[n], res, w);
    ResolvedCounts(h[n - 1], orders, h[n], res, w, l);
  }

  lemma ResolvedCounts(s: State, orders: seq<Order>, next: State, res: Resolution, w: Passage, l: Location)
    requires Resolved(s, orders, next, res, w) && l in Objectives(s.world.sectors)
    ensures CapturedBy(Lone(next.elements, l), s.holders, s.progress, next.holders, next.progress, l)
  {
    hide Fired, CapturedBy;
  }

  /** Over any run, an objective's holder changes to `f` in a round exactly when `f`, not the holder, has just ended two
      rounds in a row alone on it. */
  lemma HolderChangesOnStreak(h: seq<State>, l: Location, f: string, n: nat)
    requires Run(h) && 0 < n < |h| && l in Objectives(h[0].world.sectors)
    requires f != ""
    ensures HolderOf(h[n - 1].holders, l) != f && HolderOf(h[n].holders, l) == f
            <==> HolderOf(h[n - 1].holders, l) != f && Streak(h, l, f, n) == 2
  {
    assert CAPTURE_ROUNDS == 2;
    hide *;
    CountsKept(h, l, f, n - 1);
    RoundCounts(h, l, n);
    StreakNext(h, l, f, n);
    BookedNext(h[n - 1].holders, h[n - 1].progress, h[n].holders, h[n].progress, l, f,
               Lone(h[n].elements, l), Streak(h, l, f, n - 1));
  }

  /** The count on the books is the streak of the faction it names; after a round that is never the holder, and a
      faction alone that is not the holder is on the books. */
  lemma ProgressIsStreak(h: seq<State>, l: Location, n: nat)
    requires Run(h) && n < |h| && l in Objectives(h[0].world.sectors)
    ensures l in h[n].progress && HolderOf(h[n].holders, l) != h[n].progress[l].faction
            ==> h[n].progress[l].rounds == Streak(h, l, h[n].progress[l].faction, n) < CAPTURE_ROUNDS
    ensures n > 0 && l in h[n].progress ==> HolderOf(h[n].holders, l) != h[n].progress[l].faction
    ensures forall f | 0 < Streak(h, l, f, n) && HolderOf(h[n].holders, l) != f ::
              l in h[n].progress && h[n].progress[l] == Progress(f, Streak(h, l, f, n))
  {
    if l in h[n].progress {
      CountsKept(h, l, h[n].progress[l].faction, n);
    }
    forall f | 0 < Streak(h, l, f, n) && HolderOf(h[n].holders, l) != f
      ensures l in h[n].progress && h[n].progress[l] == Progress(f, Streak(h, l, f, n))
    {
      CountsKept(h, l, f, n);
    }
    if n > 0 {
      RoundCounts(h, l, n);
    }
  }

  /** A round's captures are exactly its changes of holder, each with the holder it took from. */
  lemma CapturesAreChanges(s: State, orders: seq<Order>, next: State, res: Resolution, w: Passage, c: Capture)
    requires Resolved(s, orders, next, res, w)
    ensures c in res.captures
            <==> && c.at in Objectives(s.world.sectors)
                 && HolderOf(s.holders, c.at) == c.from != c.faction == HolderOf(next.holders, c.at)
  {
    hide Fired, AreSettled, Lone, Objectives;
    CapturesListed(next.elements, s.holders, s.progress, Objectives(s.world.sectors), c);
    if c.at in Objectives(s.world.sectors) {
      assert CapturedAt(next.elements, s.holders, s.progress, next.holders, next.progress, c.at);
    }
  }

  lemma {:induction false} CapturesListed(es: seq<Element>, holders: map<Location, string>,
                                          progress: map<Location, Progress>, ls: seq<Location>, c: Capture)
    ensures c in CapturesOf(es, holders, progress, ls).0
            <==> c.at in ls && c in CaptureReports(es, holders, progress, c.at).0
  {
    if ls != [] {
      var n := |ls| - 1;
      CapturesListed(es, holders, progress, ls[..n], c);
      assert ls == ls[..n] + [ls[n]];
    }
  }
}
