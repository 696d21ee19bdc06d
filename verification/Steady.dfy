/** Command's decisions, taken together: every target can be reached, no two elements share one of a goal, and deciding
    again from them changes nothing. */
module Steady {
  import opened World
  import opened State
  import opened Fusion
  import opened Observing
  import opened Sorting
  import opened Deciding
  import Search
  import Route
  import Terrain
  import Keys

  // ----- Something accepted means something chosen -----

  lemma {:induction false} NearestOf(dist: Distances, ok: Location -> bool, cells: set<Location>) returns (at: Location)
    requires cells != {} && cells <= FoundIn(dist, ok)
    ensures at in cells
    ensures forall l | l in cells :: dist[at] < dist[l] || (dist[at] == dist[l] && (l == at || Keys.Less(at.Key(), l.Key())))
  {
    var x :| x in cells;
    at := x;
    var rest := cells - {x};
    if rest != {} {
      var y := NearestOf(dist, ok, rest);
      KeyOrderTotal(x, y);
      if dist[y] < dist[x] || (dist[y] == dist[x] && Keys.Less(y.Key(), x.Key())) {
        at := y;
      } else {
        forall l | l in rest
          ensures dist[x] < dist[l] || (dist[x] == dist[l] && Keys.Less(x.Key(), l.Key())) {
          if dist[x] == dist[l] && l != y {
            Keys.LessTransitive(x.Key(), y.Key(), l.Key());
          }
        }
      }
    }
  }

  lemma NearestNone(dist: Distances, ok: Location -> bool)
    requires Nearest(dist, ok).None?
    ensures forall l | l in dist :: !ok(l)
  {
    if FoundIn(dist, ok) != {} {
      var at := NearestOf(dist, ok, FoundIn(dist, ok));
      assert forall l | l in dist && ok(l) :: l in FoundIn(dist, ok);
      assert IsNearest(dist, ok, at);
    }
    assert forall l | l in dist && ok(l) :: l in FoundIn(dist, ok);
  }

  lemma NearestSome(dist: Distances, ok: Location -> bool)
    requires Nearest(dist, ok).Some?
    ensures Nearest(dist, ok).value in dist && ok(Nearest(dist, ok).value)
  {
  }

  lemma {:induction false} FirstBestAmong<T(!new)>(xs: seq<T>, ok: T -> bool, better: (T, T) -> bool) returns (i: int)
    requires Ranks(better) && exists x :: x in xs && ok(x)
    ensures IsFirstBest(xs, ok, better, i)
  {
    var n := |xs| - 1;
    if exists x :: x in xs[..n] && ok(x) {
      var j := FirstBestAmong(xs[..n], ok, better);
      i := if ok(xs[n]) && better(xs[n], xs[j]) then n else j;
      BestNext(xs, n, ok, better, j);
    } else {
      assert forall j | 0 <= j < n :: xs[j] in xs[..n];
      i := n;
      assert xs == xs[..n] + [xs[n]];
    }
  }

  /** One more item: it is the best exactly when it is better than the best before it. */
  lemma BestNext<T(!new)>(xs: seq<T>, n: nat, ok: T -> bool, better: (T, T) -> bool, j: int)
    requires n < |xs| && Ranks(better) && IsFirstBest(xs[..n], ok, better, j)
    ensures IsFirstBest(xs[..n + 1], ok, better, if ok(xs[n]) && better(xs[n], xs[j]) then n else j)
  {
    var before, more := xs[..n], xs[..n + 1];
    assert more == before + [xs[n]];
    assert forall m | 0 <= m < n :: more[m] == before[m];
  }

  lemma FirstBestNone<T(!new)>(xs: seq<T>, ok: T -> bool, better: (T, T) -> bool)
    requires Ranks(better) && FirstBest(xs, ok, better).None?
    ensures forall x | x in xs :: !ok(x)
  {
    if exists x :: x in xs && ok(x) {
      var i := FirstBestAmong(xs, ok, better);
      FirstBestIs(xs, ok, better, i);
    }
  }

  lemma FirstBestSome<T(!new)>(xs: seq<T>, ok: T -> bool, better: (T, T) -> bool)
    requires FirstBest(xs, ok, better).Some?
    ensures FirstBest(xs, ok, better).value in xs && ok(FirstBest(xs, ok, better).value)
  {
  }

  lemma StalerRanks(dist: Distances)
    ensures Ranks(Staler(dist))
  {
    var better := Staler(dist);
    forall x, y ensures better(x, y) ==> !better(y, x) {
      Keys.LessTotal(x.at.Key(), y.at.Key());
    }
    forall x, y, z ensures better(x, y) && !better(z, y) ==> better(x, z) {
      KeysRank(x.at.Key(), y.at.Key(), z.at.Key());
    }
  }

  lemma StrongerRanks()
    ensures Ranks(Stronger())
  {
    forall x: Contact, y: Contact, z: Contact
      ensures Stronger()(x, y) ==> !Stronger()(y, x)
      ensures Stronger()(x, y) && !Stronger()(z, y) ==> Stronger()(x, z) {
      KeysRank(x.element.id, y.element.id, z.element.id);
    }
  }

  lemma CloserRanks(dist: Distances)
    ensures Ranks(Closer(dist))
  {
    forall x: Contact, y: Contact, z: Contact
      ensures Closer(dist)(x, y) ==> !Closer(dist)(y, x)
      ensures Closer(dist)(x, y) && !Closer(dist)(z, y) ==> Closer(dist)(x, z) {
      KeysRank(x.element.id, y.element.id, z.element.id);
    }
  }

  lemma KeysRank(a: string, b: string, c: string)
    ensures Keys.Less(a, b) && !Keys.Less(c, b) ==> Keys.Less(a, c)
    ensures !(Keys.Less(a, b) && Keys.Less(b, a))
  {
    Keys.LessTotal(a, b);
    Keys.LessTotal(b, c);
    if Keys.Less(a, b) && Keys.Less(b, c) {
      Keys.LessTransitive(a, b, c);
    }
  }

  lemma {:induction false} OpenIsListed(objectives: seq<Belief>, faction: string, l: Location)
    requires OpenAt(objectives, faction, l)
    ensures exists o :: o in objectives && o.at == l
  {
    var n := |objectives| - 1;
    if objectives[n].at != l {
      OpenIsListed(objectives[..n], faction, l);
      var o :| o in objectives[..n] && o.at == l;
      assert o in objectives;
    }
  }

  // ----- What a choice is -----

  /** The element may be sent to the cell for the goal: it reaches it, and it is one to go to. */
  ghost predicate Fit(g: Ground, goal: Goal, i: nat, at: Location)
    requires i < |g.own| == |g.dist|
  {
    May(g, goal, i) && at in g.dist[i] && Wants(g, goal, g.own[i], at)
  }

  lemma ChosenFits(g: Ground, goal: Goal, i: nat, claimed: set<Location>)
    requires i < |g.own| == |g.dist| && Chosen(g, goal, i, claimed).Some?
    ensures Fit(g, goal, i, Chosen(g, goal, i, claimed).value) && Chosen(g, goal, i, claimed).value !in claimed
  {
    hide Nearest, FirstBest;
    var e, dist := g.own[i], g.dist[i];
    match goal {
      case Securing => NearestSome(dist, Unclaimed(g, goal, e, claimed));
      case Searching(_) =>
        if Nearest(dist, Spread(g, goal, e, claimed)).Some? {
          NearestSome(dist, Spread(g, goal, e, claimed));
        } else {
          NearestSome(dist, Unclaimed(g, goal, e, claimed));
        }
      case Rescouting => FirstBestSome(g.objectives, Stale(g, e, dist, claimed), Staler(dist));
    }
  }

  /** Nothing is chosen exactly when every fit target is claimed. */
  lemma ChosenNone(g: Ground, goal: Goal, i: nat, claimed: set<Location>)
    requires i < |g.own| == |g.dist|
    ensures Chosen(g, goal, i, claimed).None? <==> forall at | Fit(g, goal, i, at) :: at in claimed
  {
    if Chosen(g, goal, i, claimed).Some? {
      ChosenFits(g, goal, i, claimed);
    } else if May(g, goal, i) {
      hide Nearest, FirstBest;
      var e, dist := g.own[i], g.dist[i];
      forall at | Fit(g, goal, i, at) ensures at in claimed {
        if goal.Rescouting? {
          StalerRanks(dist);
          FirstBestNone(g.objectives, Stale(g, e, dist, claimed), Staler(dist));
          OpenIsListed(g.objectives, g.faction, at);
          var o :| o in g.objectives && o.at == at;
          assert !Stale(g, e, dist, claimed)(o);
        } else {
          NearestNone(dist, Unclaimed(g, goal, e, claimed));
          assert !Unclaimed(g, goal, e, claimed)(at);
        }
      }
    }
  }

  // ----- What a pass adds -----

  /** The element was decided between the two. */
  predicate New(s: Claims, r: Claims, i: int) {
    0 <= i < |s.ds| && i < |r.ds| && s.ds[i].None? && r.ds[i].Some?
  }

  function TargetOf(r: Claims, i: int): Location
    requires 0 <= i < |r.ds| && r.ds[i].Some? && r.ds[i].value.target.Some?
  {
    r.ds[i].value.target.value
  }

  /** A new decision sends its element, by the goal's rule, to a fit target nobody had claimed. */
  ghost predicate Sent(g: Ground, goal: Goal, s: Claims, r: Claims, i: nat)
    requires i < |g.own| == |g.dist| && i < |r.ds| && r.ds[i].Some?
  {
    var d := r.ds[i].value;
    && d == Decision(g.own[i].id, RuleOf(goal), "", d.target) && d.target.Some?
    && Fit(g, goal, i, d.target.value) && d.target.value !in s.claimed && d.target.value in r.claimed
  }

  /** Older decisions stand, new ones are sent each to a target of its own, and just those targets are newly claimed. */
  ghost predicate Adds(g: Ground, goal: Goal, s: Claims, r: Claims) {
    && Sized(g, s) && Sized(g, r)
    && (forall i | 0 <= i < |s.ds| && s.ds[i].Some? :: r.ds[i] == s.ds[i])
    && (forall i | New(s, r, i) :: Sent(g, goal, s, r, i))
    && (forall i, j | New(s, r, i) && New(s, r, j) && i != j :: TargetOf(r, i) != TargetOf(r, j))
    && (forall l :: l in r.claimed <==> l in s.claimed || exists i :: New(s, r, i) && TargetOf(r, i) == l)
  }

  lemma AddsNothing(g: Ground, goal: Goal, s: Claims)
    requires Sized(g, s)
    ensures Adds(g, goal, s, s)
  {
  }

  lemma SentStill(g: Ground, goal: Goal, s: Claims, r: Claims, next: Claims, j: nat)
    requires j < |g.own| == |g.dist| && j < |r.ds| && r.ds[j].Some? && Sent(g, goal, s, r, j)
    requires j < |next.ds| && next.ds[j] == r.ds[j] && r.claimed <= next.claimed
    ensures Sent(g, goal, s, next, j)
  {
    hide Fit;
  }

  /** One more element sent keeps what the pass adds. */
  lemma SendAdds(g: Ground, goal: Goal, s: Claims, r: Claims, i: nat, at: Location)
    requires Adds(g, goal, s, r) && i < |s.ds| && s.ds[i].None? && r.ds[i].None?
    requires Fit(g, goal, i, at) && at !in r.claimed
    ensures Adds(g, goal, s, Claims(r.ds[i := Some(Decision(g.own[i].id, RuleOf(goal), "", Some(at)))], r.claimed + {at}))
  {
    var next := Claims(r.ds[i := Some(Decision(g.own[i].id, RuleOf(goal), "", Some(at)))], r.claimed + {at});
    hide Fit;
    assert forall j :: New(s, next, j) <==> New(s, r, j) || j == i;
    assert Sent(g, goal, s, next, i);
    forall j | New(s, r, j) ensures Sent(g, goal, s, next, j) && TargetOf(next, j) == TargetOf(r, j) && TargetOf(r, j) in r.claimed {
      assert Sent(g, goal, s, r, j);
      SentStill(g, goal, s, r, next, j);
    }
    hide Sent;
    assert TargetOf(next, i) == at;
  }

  lemma TurnAdds(g: Ground, standing: seq<Decision>, pass: Pass, s: Claims, r: Claims, i: nat)
    requires HomeReached(g) && Adds(g, GoalBy(pass), s, r) && i < |s.ds|
    requires r.ds[i] == s.ds[i]
    ensures Adds(g, GoalBy(pass), s, Turn(g, standing, pass, r, i))
  {
    var at := TargetBy(g, standing, pass, i, r.claimed);
    hide Adds, Fit, TargetBy;
    if r.ds[i].None? && at.Some? {
      TargetFits(g, standing, pass, i, r.claimed);
      SendAdds(g, GoalBy(pass), s, r, i, at.value);
    }
  }

  function GoalBy(pass: Pass): Goal {
    if pass.Standing? then Securing else pass.goal
  }

  /** Each element reaches the cell it stands in. */
  ghost predicate HomeReached(g: Ground) {
    |g.own| == |g.dist| && forall i | 0 <= i < |g.own| :: g.own[i].at in g.dist[i]
  }

  lemma TargetFits(g: Ground, standing: seq<Decision>, pass: Pass, i: nat, claimed: set<Location>)
    requires HomeReached(g) && i < |g.own| && TargetBy(g, standing, pass, i, claimed).Some?
    ensures Fit(g, GoalBy(pass), i, TargetBy(g, standing, pass, i, claimed).value)
    ensures TargetBy(g, standing, pass, i, claimed).value !in claimed
  {
    if pass.Choosing? {
      ChosenFits(g, pass.goal, i, claimed);
    }
  }

  lemma PassedNext(g: Ground, standing: seq<Decision>, pass: Pass, s: Claims, n: nat)
    requires Sized(g, s) && 0 < n <= |s.ds|
    ensures Passed(g, standing, pass, s, n) == Turn(g, standing, pass, Passed(g, standing, pass, s, n - 1), n - 1)
  {
    hide Turn;
  }

  lemma PassedNone(g: Ground, standing: seq<Decision>, pass: Pass, s: Claims)
    requires Sized(g, s)
    ensures Passed(g, standing, pass, s, 0) == s
  {
  }

  lemma {:induction false} PassedAdds(g: Ground, standing: seq<Decision>, pass: Pass, s: Claims, n: nat)
    requires HomeReached(g) && Sized(g, s) && n <= |s.ds|
    ensures Adds(g, GoalBy(pass), s, Passed(g, standing, pass, s, n))
    ensures forall i | n <= i < |s.ds| :: Passed(g, standing, pass, s, n).ds[i] == s.ds[i]
  {
    hide Adds, HomeReached, Turn, Passed;
    if n == 0 {
      PassedNone(g, standing, pass, s);
      AddsNothing(g, GoalBy(pass), s);
    } else {
      PassedNext(g, standing, pass, s, n);
      PassedAdds(g, standing, pass, s, n - 1);
      TurnGrows(g, standing, pass, Passed(g, standing, pass, s, n - 1), n - 1);
      TurnAdds(g, standing, pass, s, Passed(g, standing, pass, s, n - 1), n - 1);
    }
  }

  lemma AddsTwice(g: Ground, goal: Goal, s: Claims, r: Claims, q: Claims)
    requires Adds(g, goal, s, r) && Adds(g, goal, r, q)
    ensures Adds(g, goal, s, q)
  {
    hide Fit;
    forall i ensures New(s, q, i) <==> New(s, r, i) || New(r, q, i) {
    }
    forall i | New(s, r, i) ensures Sent(g, goal, s, q, i) && TargetOf(q, i) == TargetOf(r, i) && TargetOf(r, i) in r.claimed {
      assert Sent(g, goal, s, r, i);
    }
    forall i | New(r, q, i) ensures Sent(g, goal, s, q, i) && TargetOf(q, i) !in r.claimed {
      assert Sent(g, goal, r, q, i);
    }
  }

  lemma PursuedAdds(g: Ground, standing: seq<Decision>, goal: Goal, s: Claims)
    requires HomeReached(g) && Sized(g, s)
    ensures Adds(g, goal, s, Pursued(g, standing, goal, s))
  {
    var kept := Whole(g, standing, Keeping(goal), s);
    hide Adds;
    PassedAdds(g, standing, Keeping(goal), s, |s.ds|);
    PassedAdds(g, standing, Choosing(goal), kept, |kept.ds|);
    AddsTwice(g, goal, s, kept, Pursued(g, standing, goal, s));
  }

  // ----- What a goal leaves undecided -----

  /** Every fit target of an element left undecided is claimed. */
  ghost predicate Exhausted(g: Ground, goal: Goal, r: Claims, n: nat) {
    && Sized(g, r)
    && forall i, at | 0 <= i < n && i < |r.ds| && r.ds[i].None? && Fit(g, goal, i, at) :: at in r.claimed
  }

  lemma {:induction false} ChoosingExhausts(g: Ground, standing: seq<Decision>, goal: Goal, s: Claims, n: nat)
    requires Sized(g, s) && n <= |s.ds|
    ensures Exhausted(g, goal, Passed(g, standing, Choosing(goal), s, n), n)
  {
    hide Exhausted, Turn, Passed;
    if n == 0 {
      NoneExhausted(g, goal, Passed(g, standing, Choosing(goal), s, 0));
    } else {
      PassedNext(g, standing, Choosing(goal), s, n);
      ChoosingExhausts(g, standing, goal, s, n - 1);
      TurnExhausts(g, standing, goal, Passed(g, standing, Choosing(goal), s, n - 1), n - 1);
    }
  }

  lemma NoneExhausted(g: Ground, goal: Goal, r: Claims)
    requires Sized(g, r)
    ensures Exhausted(g, goal, r, 0)
  {
    hide Fit;
  }

  lemma TurnExhausts(g: Ground, standing: seq<Decision>, goal: Goal, s: Claims, i: nat)
    requires Exhausted(g, goal, s, i) && i < |s.ds|
    ensures Exhausted(g, goal, Turn(g, standing, Choosing(goal), s, i), i + 1)
  {
    ChosenNone(g, goal, i, s.claimed);
    TurnGrows(g, standing, Choosing(goal), s, i);
    hide Fit, Chosen, Turn;
  }

  lemma TurnGrows(g: Ground, standing: seq<Decision>, pass: Pass, s: Claims, i: nat)
    requires Sized(g, s) && i < |s.ds|
    ensures var r := Turn(g, standing, pass, s, i);
            && s.claimed <= r.claimed
            && (forall j | 0 <= j < |s.ds| && j != i :: r.ds[j] == s.ds[j])
            && (r.ds[i].None? ==> r == s && TargetBy(g, standing, pass, i, s.claimed).None?)
            && (s.ds[i].Some? ==> r == s)
  {
    hide TargetBy;
  }

  // ----- Deciding from one's own decisions -----

  /** The standing decisions are, of the elements without a decision yet, the ones this goal made. */
  ghost predicate Remembers(g: Ground, goal: Goal, s: Claims, r: Claims, own: seq<Decision>) {
    && Sized(g, s) && Sized(g, r)
    && forall i | 0 <= i < |s.ds| && s.ds[i].None? ::
         var was := WasOf(own, g.own[i].id);
         if r.ds[i].Some? then was == r.ds[i]
         else was.None? || was.value.rule != RuleOf(goal) || !May(g, goal, i)
  }

  /** Keeping pass after `n` elements: the goal's decisions of those, and no other. */
  ghost predicate Replays(g: Ground, s: Claims, r: Claims, q: Claims, n: nat) {
    && Sized(g, s) && Sized(g, r) && Sized(g, q) && n <= |s.ds|
    && (forall i | 0 <= i < |s.ds| :: q.ds[i] == if i < n then r.ds[i] else s.ds[i])
    && (forall l :: l in q.claimed <==> l in s.claimed || exists i :: i < n && New(s, r, i) && r.ds[i].value.target == Some(l))
  }

  lemma TurnReplays(g: Ground, goal: Goal, s: Claims, r: Claims, own: seq<Decision>, q: Claims, n: nat)
    requires Adds(g, goal, s, r) && Remembers(g, goal, s, r, own) && Replays(g, s, r, q, n) && n < |s.ds|
    ensures Replays(g, s, r, Turn(g, own, Keeping(goal), q, n), n + 1)
  {
    var next := Turn(g, own, Keeping(goal), q, n);
    hide WasOf, Wants;
    if New(s, r, n) {
      assert Sent(g, goal, s, r, n);
      assert TargetOf(r, n) !in q.claimed;
      assert next == Claims(q.ds[n := r.ds[n]], q.claimed + {TargetOf(r, n)});
    } else {
      assert next == q;
    }
    hide Adds, Remembers, Turn, Sent;
  }

  lemma {:induction false} KeepingReplays(g: Ground, goal: Goal, s: Claims, r: Claims, own: seq<Decision>, n: nat)
    requires Adds(g, goal, s, r) && Remembers(g, goal, s, r, own) && n <= |s.ds|
    ensures Replays(g, s, r, Passed(g, own, Keeping(goal), s, n), n)
  {
    hide Adds, Remembers, Replays, Turn, Passed;
    AddsSized(g, goal, s, r);
    if n == 0 {
      PassedNone(g, own, Keeping(goal), s);
      NothingReplayed(g, goal, s, r, own);
    } else {
      PassedNext(g, own, Keeping(goal), s, n);
      KeepingReplays(g, goal, s, r, own, n - 1);
      TurnReplays(g, goal, s, r, own, Passed(g, own, Keeping(goal), s, n - 1), n - 1);
    }
  }

  lemma NothingReplayed(g: Ground, goal: Goal, s: Claims, r: Claims, own: seq<Decision>)
    requires Adds(g, goal, s, r)
    ensures Replays(g, s, r, s, 0)
  {
    hide Adds;
    assert Sized(g, s) && Sized(g, r) by {
      AddsSized(g, goal, s, r);
    }
  }

  lemma AddsSized(g: Ground, goal: Goal, s: Claims, r: Claims)
    requires Adds(g, goal, s, r)
    ensures Sized(g, s) && Sized(g, r)
  {
    hide Sent;
  }

  lemma {:induction false} ChoosingRests(g: Ground, own: seq<Decision>, goal: Goal, r: Claims, n: nat)
    requires Sized(g, r) && n <= |r.ds| && Exhausted(g, goal, r, |r.ds|)
    ensures Passed(g, own, Choosing(goal), r, n) == r
  {
    hide Exhausted, Turn, Passed;
    if n == 0 {
      PassedNone(g, own, Choosing(goal), r);
    } else {
      PassedNext(g, own, Choosing(goal), r, n);
      ChoosingRests(g, own, goal, r, n - 1);
      TurnRests(g, own, goal, r, n - 1);
    }
  }

  lemma TurnRests(g: Ground, own: seq<Decision>, goal: Goal, r: Claims, i: nat)
    requires Sized(g, r) && i < |r.ds| && Exhausted(g, goal, r, |r.ds|)
    ensures Turn(g, own, Choosing(goal), r, i) == r
  {
    ChosenNone(g, goal, i, r.claimed);
    hide Fit, Chosen;
  }

  /** A goal pursued again from its own decisions makes them again, and no other. */
  lemma PursuedAgain(g: Ground, standing: seq<Decision>, goal: Goal, s: Claims, own: seq<Decision>)
    requires HomeReached(g) && Sized(g, s) && Remembers(g, goal, s, Pursued(g, standing, goal, s), own)
    ensures Pursued(g, own, goal, s) == Pursued(g, standing, goal, s)
  {
    var r := Pursued(g, standing, goal, s);
    var kept := Whole(g, standing, Keeping(goal), s);
    PursuedAdds(g, standing, goal, s);
    KeepingReplays(g, goal, s, r, own, |s.ds|);
    assert Whole(g, own, Keeping(goal), s) == r by {
      hide Remembers, Passed, Pursued, Sent;
      var q := Whole(g, own, Keeping(goal), s);
      assert q.ds == r.ds;
      assert q.claimed == r.claimed;
    }
    hide Adds, Replays, Remembers, Turn;
    ChoosingExhausts(g, standing, goal, kept, |kept.ds|);
    ChoosingRests(g, own, goal, r, |r.ds|);
  }

  // ----- The decisions as a whole -----

  ghost function Stood(g: Ground, standing: seq<Decision>): (s: Claims)
    requires |g.own| == |g.dist|
    ensures Sized(g, s)
  {
    Whole(g, standing, Pass.Standing, Early(g))
  }

  function Anew(s: Claims): Claims { Claims(s.ds, {}) }

  /** Each goal adds to what the goals before it left. */
  lemma GoalsAdd(g: Ground, standing: seq<Decision>)
    requires HomeReached(g)
    ensures Adds(g, Securing, Early(g), Stood(g, standing)) && Adds(g, Securing, Stood(g, standing), Secured(g, standing))
    ensures Adds(g, Searching(Scout), Anew(Secured(g, standing)), Scouted(g, standing))
    ensures Adds(g, Searching(Squad), Scouted(g, standing), Searched(g, standing))
    ensures Adds(g, Rescouting, Anew(Searched(g, standing)), Rescouted(g, standing))
  {
    PassedAdds(g, standing, Pass.Standing, Early(g), |Early(g).ds|);
    hide Adds, Pursued, Whole, Early;
    PursuedAdds(g, standing, Securing, Stood(g, standing));
    PursuedAdds(g, standing, Searching(Scout), Anew(Secured(g, standing)));
    PursuedAdds(g, standing, Searching(Squad), Scouted(g, standing));
    PursuedAdds(g, standing, Rescouting, Anew(Searched(g, standing)));
  }

  ghost predicate Named(g: Ground, s: Claims) {
    Sized(g, s) && forall i | 0 <= i < |s.ds| && s.ds[i].Some? :: s.ds[i].value.element == g.own[i].id
  }

  lemma AddsNames(g: Ground, goal: Goal, s: Claims, r: Claims)
    requires Named(g, s) && Adds(g, goal, s, r)
    ensures Named(g, r)
  {
    forall i | 0 <= i < |r.ds| && r.ds[i].Some? ensures r.ds[i].value.element == g.own[i].id {
      if New(s, r, i) {
        assert Sent(g, goal, s, r, i);
      }
    }
  }

  lemma EarlyNames(g: Ground)
    requires |g.own| == |g.dist|
    ensures Named(g, Early(g))
  {
    hide Strongest, RetreatTo, Nearest, FirstBest, Fights;
  }

  lemma AllNamed(g: Ground, standing: seq<Decision>)
    requires HomeReached(g)
    ensures Named(g, Rescouted(g, standing))
  {
    EarlyNames(g);
    GoalsAdd(g, standing);
    hide Adds, Stood, Secured, Scouted, Searched, Rescouted, Early;
    AddsNames(g, Securing, Early(g), Stood(g, standing));
    AddsNames(g, Securing, Stood(g, standing), Secured(g, standing));
    AddsNames(g, Searching(Scout), Anew(Secured(g, standing)), Scouted(g, standing));
    AddsNames(g, Searching(Squad), Scouted(g, standing), Searched(g, standing));
    AddsNames(g, Rescouting, Anew(Searched(g, standing)), Rescouted(g, standing));
  }

  /** The decisions are the elements', in their order. */
  lemma DecidedNames(g: Ground, standing: seq<Decision>)
    requires HomeReached(g)
    ensures forall i | 0 <= i < |g.own| :: Decided(g, standing)[i].element == g.own[i].id
  {
    AllNamed(g, standing);
    hide Rescouted;
  }

  ghost predicate UniqueOwn(g: Ground) {
    forall i, j | 0 <= i < j < |g.own| :: g.own[i].id != g.own[j].id
  }

  lemma {:induction false} WasOfNamed(ds: seq<Decision>, ids: seq<string>, i: nat)
    requires |ds| == |ids| && i < |ds| && (forall j | 0 <= j < |ds| :: ds[j].element == ids[j])
    requires forall j, k | 0 <= j < k < |ids| :: ids[j] != ids[k]
    ensures WasOf(ds, ids[i]) == Some(ds[i])
  {
    var n := |ds| - 1;
    if i < n {
      WasOfNamed(ds[..n], ids[..n], i);
    }
  }

  /** A faction's decisions are named for its elements, so each finds its own among them. */
  lemma WasDecided(g: Ground, standing: seq<Decision>, i: nat)
    requires HomeReached(g) && UniqueOwn(g) && i < |g.own|
    ensures WasOf(Decided(g, standing), g.own[i].id) == Some(Decided(g, standing)[i])
  {
    AllNamed(g, standing);
    hide Rescouted, Stood;
    var ids := seq(|g.own|, j requires 0 <= j < |g.own| => g.own[j].id);
    WasOfNamed(Decided(g, standing), ids, i);
  }

  /** The goal's decision of the element stands; left undecided, it gets another rule, or one this goal does not ask. */
  ghost predicate Settles(g: Ground, goal: Goal, r: Claims, i: nat, d: Decision)
    requires i < |g.own| == |g.dist| && i < |r.ds|
  {
    if r.ds[i].Some? then d == r.ds[i].value else d.rule != RuleOf(goal) || !May(g, goal, i)
  }

  lemma Afterwards(g: Ground, standing: seq<Decision>, i: nat)
    requires HomeReached(g) && i < |g.own|
    ensures var d := Decided(g, standing)[i];
            && Settles(g, Securing, Secured(g, standing), i, d)
            && Settles(g, Searching(Scout), Scouted(g, standing), i, d)
            && Settles(g, Searching(Squad), Searched(g, standing), i, d)
            && Settles(g, Rescouting, Rescouted(g, standing), i, d)
  {
    GoalsAdd(g, standing);
    hide Secured, Scouted, Searched, Rescouted, Stood, HomeReached;
    LaterTurns(g, Secured(g, standing), Scouted(g, standing), Searched(g, standing), Rescouted(g, standing), i);
    hide Adds, May;
  }

  lemma LaterTurns(g: Ground, r1: Claims, r2: Claims, r3: Claims, r4: Claims, i: nat)
    requires Adds(g, Searching(Scout), Anew(r1), r2) && Adds(g, Searching(Squad), r2, r3) && Adds(g, Rescouting, Anew(r3), r4)
    requires i < |g.own| == |g.dist|
    ensures var d := if r4.ds[i].Some? then r4.ds[i].value else Decision(g.own[i].id, Hold, "", None);
            && Settles(g, Securing, r1, i, d) && Settles(g, Searching(Scout), r2, i, d)
            && Settles(g, Searching(Squad), r3, i, d) && Settles(g, Rescouting, r4, i, d)
  {
    hide Fit;
    if New(Anew(r1), r2, i) {
      assert Sent(g, Searching(Scout), Anew(r1), r2, i);
    }
    if New(r2, r3, i) {
      assert Sent(g, Searching(Squad), r2, r3, i);
      FitMay(g, Searching(Squad), i, TargetOf(r3, i));
    }
    if New(Anew(r3), r4, i) {
      assert Sent(g, Rescouting, Anew(r3), r4, i);
    }
  }

  lemma FitMay(g: Ground, goal: Goal, i: nat, at: Location)
    requires i < |g.own| == |g.dist| && Fit(g, goal, i, at)
    ensures May(g, goal, i)
  {
  }

  lemma {:induction false} StandingIgnored(g: Ground, a: seq<Decision>, b: seq<Decision>, s: Claims, n: nat)
    requires Sized(g, s) && n <= |s.ds|
    ensures Passed(g, a, Pass.Standing, s, n) == Passed(g, b, Pass.Standing, s, n)
  {
    if n > 0 {
      StandingIgnored(g, a, b, s, n - 1);
      hide OnTarget;
    }
  }

  /** The decisions remember what each goal made of what the goals before it left. */
  lemma DecidedRemembers(g: Ground, standing: seq<Decision>)
    requires HomeReached(g) && UniqueOwn(g)
    ensures var own := Decided(g, standing);
            && Remembers(g, Securing, Stood(g, standing), Secured(g, standing), own)
            && Remembers(g, Searching(Scout), Anew(Secured(g, standing)), Scouted(g, standing), own)
            && Remembers(g, Searching(Squad), Scouted(g, standing), Searched(g, standing), own)
            && Remembers(g, Rescouting, Anew(Searched(g, standing)), Rescouted(g, standing), own)
  {
    var own := Decided(g, standing);
    hide *;
    forall i | 0 <= i < |g.own|
      ensures WasOf(own, g.own[i].id) == Some(own[i])
      ensures Settles(g, Securing, Secured(g, standing), i, own[i])
      ensures Settles(g, Searching(Scout), Scouted(g, standing), i, own[i])
      ensures Settles(g, Searching(Squad), Searched(g, standing), i, own[i])
      ensures Settles(g, Rescouting, Rescouted(g, standing), i, own[i])
    {
      WasDecided(g, standing, i);
      Afterwards(g, standing, i);
    }
    SettledRemembers(g, Securing, Stood(g, standing), Secured(g, standing), own);
    SettledRemembers(g, Searching(Scout), Anew(Secured(g, standing)), Scouted(g, standing), own);
    SettledRemembers(g, Searching(Squad), Scouted(g, standing), Searched(g, standing), own);
    SettledRemembers(g, Rescouting, Anew(Searched(g, standing)), Rescouted(g, standing), own);
  }

  lemma SettledRemembers(g: Ground, goal: Goal, s: Claims, r: Claims, own: seq<Decision>)
    requires Sized(g, s) && Sized(g, r) && |own| == |g.own|
    requires forall i | 0 <= i < |g.own| :: WasOf(own, g.own[i].id) == Some(own[i]) && Settles(g, goal, r, i, own[i])
    ensures Remembers(g, goal, s, r, own)
  {
    hide WasOf, May;
    forall i | 0 <= i < |g.own| ensures WasOf(own, g.own[i].id) == Some(own[i]) && Settles(g, goal, r, i, own[i]) {
    }
  }

  /** Deciding again, with the decisions as standing ones, decides the same. */
  lemma DecidedAgain(g: Ground, standing: seq<Decision>)
    requires HomeReached(g) && UniqueOwn(g)
    ensures Decided(g, Decided(g, standing)) == Decided(g, standing)
  {
    var own := Decided(g, standing);
    StandingIgnored(g, standing, own, Early(g), |Early(g).ds|);
    assert Stood(g, own) == Stood(g, standing);
    DecidedRemembers(g, standing);
    hide WasOf, Early, Passed, Pursued, May, Decided, Remembers, HomeReached;
    PursuedAgain(g, standing, Securing, Stood(g, standing), own);
    PursuedAgain(g, standing, Searching(Scout), Anew(Secured(g, standing)), own);
    PursuedAgain(g, standing, Searching(Squad), Scouted(g, standing), own);
    PursuedAgain(g, standing, Rescouting, Anew(Searched(g, standing)), own);
    SameRescouted(g, own, standing);
  }

  lemma SameRescouted(g: Ground, a: seq<Decision>, b: seq<Decision>)
    requires |g.own| == |g.dist| && Rescouted(g, a) == Rescouted(g, b)
    ensures Decided(g, a) == Decided(g, b)
  {
    hide Rescouted;
  }

  // ----- Every target can be reached, and no two elements share one -----

  lemma HomeIsReached(t: Terrain.Terrain, faction: string, p: Picture, g: Ground)
    requires IsGround(t, faction, p, g)
    ensures HomeReached(g)
  {
    forall i | 0 <= i < |g.own| ensures g.own[i].at in g.dist[i] {
      Route.FoundAtStart(Route.StepsOn(t), g.own[i].at);
      assert AreDistances(Route.StepsOn(t), g.own[i].at, g.dist[i]);
    }
  }

  /** A rule of the fighting, and a target the element reaches. */
  ghost predicate FightsInReach(g: Ground, i: nat, d: Decision)
    requires i < |g.dist|
  {
    && d.rule in {Retreat, Pursue, Engage, Reinforce}
    && d.target.Some? && d.target.value in g.dist[i]
  }

  lemma StepIsReached(t: Terrain.Terrain, from: Location, to: Location)
    requires to in Terrain.Steps(t, from) && to != from
    ensures Route.BestPath(Route.StepsOn(t), from, to).Some?
  {
    var steps, w := Route.StepsOn(t), [from, to];
    assert Search.WalkBetween(steps, from, to, w);
    forall v | Search.WalkBetween(steps, from, to, v) ensures |w| < |v| || v == w {
    }
    Route.BestPathIs(steps, from, to, w);
  }

  lemma FightingInReach(t: Terrain.Terrain, faction: string, p: Picture, g: Ground, i: nat)
    requires IsGround(t, faction, p, g) && i < |g.own| && Fighting(g, g.own[i], g.dist[i]).Some?
    ensures FightsInReach(g, i, Fighting(g, g.own[i], g.dist[i]).value)
  {
    FightInReach(t, faction, p, g, i);
    ReinforcementInReach(g, i);
    EngagementInReach(g, i);
    hide FightOf, Reinforcement, Engagement, IsGround;
  }

  lemma FightInReach(t: Terrain.Terrain, faction: string, p: Picture, g: Ground, i: nat)
    requires IsGround(t, faction, p, g) && i < |g.own|
    ensures FightOf(g, g.own[i]).Some? ==> FightsInReach(g, i, FightOf(g, g.own[i]).value)
  {
    HomeIsReached(t, faction, p, g);
    RetreatReached(t, faction, p, g, i);
    hide *;
    FightReached(g, i);
  }

  lemma RetreatReached(t: Terrain.Terrain, faction: string, p: Picture, g: Ground, i: nat)
    requires IsGround(t, faction, p, g) && i < |g.own|
    ensures var to := RetreatTo(g.t, g.own[i].at, g.contacts, g.own); to.Some? ==> to.value in g.dist[i]
  {
    var e := g.own[i];
    assert AreDistances(Route.StepsOn(t), e.at, g.dist[i]) && g.t == t;
    hide RetreatTo, IsGround;
    if RetreatTo(t, e.at, g.contacts, g.own).Some? {
      RetreatIsStep(t, e.at, g.contacts, g.own);
      StepIsReached(t, e.at, RetreatTo(t, e.at, g.contacts, g.own).value);
    }
  }

  lemma FightReached(g: Ground, i: nat)
    requires HomeReached(g) && i < |g.own|
    requires var to := RetreatTo(g.t, g.own[i].at, g.contacts, g.own); to.Some? ==> to.value in g.dist[i]
    ensures FightOf(g, g.own[i]).Some? ==> FightsInReach(g, i, FightOf(g, g.own[i]).value)
  {
    hide Strongest, RetreatTo, OwnStrength, EnemyStrength;
  }

  lemma ReinforcementInReach(g: Ground, i: nat)
    requires i < |g.own| == |g.dist|
    ensures Reinforcement(g, g.own[i], g.dist[i]).Some? ==> FightsInReach(g, i, Reinforcement(g, g.own[i], g.dist[i]).value)
  {
    hide Nearest, Fights, StrongestId;
    var near := InReach(Fights(g), g.dist[i], REINFORCE_RANGE);
    if Nearest(g.dist[i], near).Some? {
      NearestSome(g.dist[i], near);
    }
  }

  lemma EngagementInReach(g: Ground, i: nat)
    requires i < |g.own| == |g.dist|
    ensures Engagement(g, g.own[i], g.dist[i]).Some? ==> FightsInReach(g, i, Engagement(g, g.own[i], g.dist[i]).value)
  {
    hide FirstBest;
    var e, dist := g.own[i], g.dist[i];
    if FirstBest(g.contacts, Weaker(e, dist), Closer(dist)).Some? {
      FirstBestSome(g.contacts, Weaker(e, dist), Closer(dist));
    }
  }

  lemma RetreatIsStep(t: Terrain.Terrain, at: Location, contacts: seq<Contact>, own: seq<Element>)
    requires RetreatTo(t, at, contacts, own).Some?
    ensures RetreatTo(t, at, contacts, own).value in Terrain.Steps(t, at) && RetreatTo(t, at, contacts, own).value != at
  {
    var grid, to := Terrain.FindGrid(t, at.sector), RetreatTo(t, at, contacts, own).value;
    var d: nat :| IsRetreatTo(grid.value, at, contacts, own, d) && to == Location(at.sector, Terrain.Neighbour(at.point, d));
    Terrain.StepsAreTheLegalSteps(t, at, to);
  }

  /** A decision that is not of the fighting is of its goal, in reach, or holds. */
  ghost predicate GoalInReach(g: Ground, i: nat, d: Decision)
    requires i < |g.own| == |g.dist|
  {
    match d.rule
    case Secure => d.target.Some? && Fit(g, Securing, i, d.target.value)
    case Search => d.target.Some? && Fit(g, Searching(g.own[i].kind), i, d.target.value)
    case Rescout => d.target.Some? && Fit(g, Rescouting, i, d.target.value)
    case Hold => d.target.None?
    case _ => FightsInReach(g, i, d)
  }

  ghost predicate AllInReach(g: Ground, s: Claims) {
    Sized(g, s) && forall i | 0 <= i < |s.ds| && s.ds[i].Some? :: GoalInReach(g, i, s.ds[i].value)
  }

  lemma AddsInReach(g: Ground, goal: Goal, s: Claims, r: Claims)
    requires AllInReach(g, s) && Adds(g, goal, s, r)
    ensures AllInReach(g, r)
  {
    forall i | 0 <= i < |r.ds| && r.ds[i].Some? ensures GoalInReach(g, i, r.ds[i].value) {
      if New(s, r, i) {
        assert Sent(g, goal, s, r, i);
      } else {
        assert GoalInReach(g, i, s.ds[i].value);
      }
    }
  }

  lemma EarlyInReach(t: Terrain.Terrain, faction: string, p: Picture, g: Ground)
    requires IsGround(t, faction, p, g)
    ensures AllInReach(g, Early(g))
  {
    hide Fighting, AreDistances;
    forall i | 0 <= i < |g.own| && Early(g).ds[i].Some? ensures GoalInReach(g, i, Early(g).ds[i].value) {
      FightingInReach(t, faction, p, g, i);
    }
  }

  lemma AnewInReach(g: Ground, s: Claims)
    requires AllInReach(g, s)
    ensures AllInReach(g, Anew(s))
  {
  }

  lemma GoalsInReach(t: Terrain.Terrain, faction: string, p: Picture, g: Ground, standing: seq<Decision>)
    requires IsGround(t, faction, p, g)
    ensures AllInReach(g, Rescouted(g, standing))
  {
    HomeIsReached(t, faction, p, g);
    EarlyInReach(t, faction, p, g);
    GoalsAdd(g, standing);
    hide *;
    AddsInReach(g, Securing, Early(g), Stood(g, standing));
    AddsInReach(g, Securing, Stood(g, standing), Secured(g, standing));
    AnewInReach(g, Secured(g, standing));
    AddsInReach(g, Searching(Scout), Anew(Secured(g, standing)), Scouted(g, standing));
    AddsInReach(g, Searching(Squad), Scouted(g, standing), Searched(g, standing));
    AnewInReach(g, Searched(g, standing));
    AddsInReach(g, Rescouting, Anew(Searched(g, standing)), Rescouted(g, standing));
  }

  /** Every decision has a target its element reaches, or holds; a goal's target is one to secure, search or rescout. */
  lemma DecidedInReach(t: Terrain.Terrain, faction: string, p: Picture, g: Ground, standing: seq<Decision>, i: nat)
    requires IsGround(t, faction, p, g) && i < |g.own|
    ensures GoalInReach(g, i, Decided(g, standing)[i])
  {
    GoalsInReach(t, faction, p, g, standing);
    DecidedIs(g, standing, i);
    hide *;
    RestInReach(g, Rescouted(g, standing), i);
  }

  lemma DecidedIs(g: Ground, standing: seq<Decision>, i: nat)
    requires i < |g.own| == |g.dist|
    ensures Decided(g, standing)[i] == var d := Rescouted(g, standing).ds[i];
                                       if d.Some? then d.value else Decision(g.own[i].id, Hold, "", None)
  {
    hide Rescouted;
  }

  lemma RestInReach(g: Ground, r: Claims, i: nat)
    requires AllInReach(g, r) && i < |g.own|
    ensures GoalInReach(g, i, if r.ds[i].Some? then r.ds[i].value else Decision(g.own[i].id, Hold, "", None))
  {
    hide Fit, FightsInReach;
  }

  /** Operations, searching the same map apart from command, finds a path to every target command decides. */
  lemma TargetsAreRoutable(t: Terrain.Terrain, faction: string, p: Picture, g: Ground, standing: seq<Decision>, i: nat)
    requires IsGround(t, faction, p, g) && i < |g.own|
    ensures var d := Decided(g, standing)[i];
            d.target.Some? ==> && d.target.value in g.dist[i]
                               && Route.BestPath(Route.StepsOn(t), g.own[i].at, d.target.value).Some?
                               && |Route.BestPath(Route.StepsOn(t), g.own[i].at, d.target.value).value| == g.dist[i][d.target.value]
  {
    assert AreDistances(Route.StepsOn(t), g.own[i].at, g.dist[i]);
    hide Decided, GoalInReach, IsGround;
    DecidedInReach(t, faction, p, g, standing, i);
    GoalReached(g, i, Decided(g, standing)[i]);
  }

  lemma GoalReached(g: Ground, i: nat, d: Decision)
    requires i < |g.own| == |g.dist| && GoalInReach(g, i, d)
    ensures d.target.Some? ==> d.target.value in g.dist[i]
  {
    hide May, Wants;
  }

  /** Decisions of one goal's rule have targets of their own. */
  ghost predicate TargetsApart(s: Claims, rule: Rule) {
    forall i, j | 0 <= i < j < |s.ds| && Has(s, i, rule) && Has(s, j, rule) ::
      s.ds[i].value.target != s.ds[j].value.target
  }

  predicate Has(s: Claims, i: int, rule: Rule) {
    0 <= i < |s.ds| && s.ds[i].Some? && s.ds[i].value.rule == rule
  }

  /** The claimed cells hold the targets of the rule's decisions. */
  ghost predicate Claimed(s: Claims, rule: Rule) {
    forall i | Has(s, i, rule) :: s.ds[i].value.target.Some? && s.ds[i].value.target.value in s.claimed
  }

  lemma AddsApart(g: Ground, goal: Goal, s: Claims, r: Claims)
    requires Adds(g, goal, s, r) && TargetsApart(s, RuleOf(goal)) && Claimed(s, RuleOf(goal))
    ensures TargetsApart(r, RuleOf(goal)) && Claimed(r, RuleOf(goal))
  {
    var rule := RuleOf(goal);
    hide Fit;
    forall i | Has(r, i, rule) && !New(s, r, i) ensures r.ds[i] == s.ds[i] && Has(s, i, rule) {
    }
    forall i | New(s, r, i) ensures r.ds[i].value.target.Some? && TargetOf(r, i) !in s.claimed && TargetOf(r, i) in r.claimed {
      assert Sent(g, goal, s, r, i);
    }
    hide Sent;
  }

  lemma AddsOthers(g: Ground, goal: Goal, s: Claims, r: Claims, rule: Rule)
    requires Adds(g, goal, s, r) && rule != RuleOf(goal)
    ensures forall i :: Has(r, i, rule) <==> Has(s, i, rule)
    ensures TargetsApart(s, rule) ==> TargetsApart(r, rule)
  {
    hide Fit;
    forall i | New(s, r, i) ensures !Has(r, i, rule) {
      assert Sent(g, goal, s, r, i);
    }
    hide Sent;
  }

  lemma EarlyHasNone(t: Terrain.Terrain, faction: string, p: Picture, g: Ground, rule: Rule)
    requires IsGround(t, faction, p, g) && rule in {Secure, Search, Rescout}
    ensures forall i :: !Has(Early(g), i, rule)
  {
    hide Fighting, AreDistances;
    forall i | 0 <= i < |g.own| && Early(g).ds[i].Some? ensures Early(g).ds[i].value.rule != rule {
      FightingInReach(t, faction, p, g, i);
    }
  }

  /** No decision yet has the rule. */
  ghost predicate Unused(s: Claims, rule: Rule) {
    forall i :: !Has(s, i, rule)
  }

  lemma UnusedApart(s: Claims, rule: Rule)
    requires Unused(s, rule)
    ensures TargetsApart(s, rule) && Claimed(s, rule) && Unused(Anew(s), rule)
  {
    forall i ensures Has(Anew(s), i, rule) <==> Has(s, i, rule) {
    }
  }

  lemma AnewApart(s: Claims, rule: Rule)
    requires TargetsApart(s, rule)
    ensures TargetsApart(Anew(s), rule)
  {
    forall i ensures Has(Anew(s), i, rule) <==> Has(s, i, rule) {
    }
  }

  lemma AddsUnused(g: Ground, goal: Goal, s: Claims, r: Claims, rule: Rule)
    requires Adds(g, goal, s, r) && rule != RuleOf(goal)
    ensures (Unused(s, rule) ==> Unused(r, rule)) && (TargetsApart(s, rule) ==> TargetsApart(r, rule))
  {
    hide Adds, TargetsApart;
    AddsOthers(g, goal, s, r, rule);
  }

  /** No two elements secure one objective, search for one cell, or rescout one objective. */
  lemma GoalsApart(t: Terrain.Terrain, faction: string, p: Picture, g: Ground, standing: seq<Decision>)
    requires IsGround(t, faction, p, g)
    ensures TargetsApart(Rescouted(g, standing), Secure) && TargetsApart(Rescouted(g, standing), Search)
    ensures TargetsApart(Rescouted(g, standing), Rescout)
  {
    HomeIsReached(t, faction, p, g);
    GoalsAdd(g, standing);
    EarlyUnused(t, faction, p, g);
    hide *;
    var early, stood, secured := Early(g), Stood(g, standing), Secured(g, standing);
    ApartAfter(g, early, stood, secured, Scouted(g, standing), Searched(g, standing), Rescouted(g, standing));
  }

  lemma EarlyUnused(t: Terrain.Terrain, faction: string, p: Picture, g: Ground)
    requires IsGround(t, faction, p, g)
    ensures Unused(Early(g), Secure) && Unused(Early(g), Search) && Unused(Early(g), Rescout)
  {
    hide Early, IsGround;
    EarlyHasNone(t, faction, p, g, Secure);
    EarlyHasNone(t, faction, p, g, Search);
    EarlyHasNone(t, faction, p, g, Rescout);
  }

  lemma ApartAfter(g: Ground, early: Claims, stood: Claims, secured: Claims, scouted: Claims, searched: Claims,
                   rescouted: Claims)
    requires Unused(early, Secure) && Unused(early, Search) && Unused(early, Rescout)
    requires Adds(g, Securing, early, stood) && Adds(g, Securing, stood, secured)
    requires Adds(g, Searching(Scout), Anew(secured), scouted) && Adds(g, Searching(Squad), scouted, searched)
    requires Adds(g, Rescouting, Anew(searched), rescouted)
    ensures TargetsApart(rescouted, Secure) && TargetsApart(rescouted, Search) && TargetsApart(rescouted, Rescout)
  {
    hide Adds, TargetsApart, Claimed, Unused;
    UnusedApart(early, Secure);
    AddsApart(g, Securing, early, stood);
    AddsApart(g, Securing, stood, secured);
    AnewApart(secured, Secure);
    forall rule | rule in {Search, Rescout} ensures Unused(Anew(secured), rule) {
      AddsUnused(g, Securing, early, stood, rule);
      AddsUnused(g, Securing, stood, secured, rule);
      UnusedApart(secured, rule);
    }
    UnusedApart(Anew(secured), Search);
    AddsApart(g, Searching(Scout), Anew(secured), scouted);
    AddsApart(g, Searching(Squad), scouted, searched);
    AnewApart(searched, Search);
    forall rule | rule in {Secure, Rescout}
      ensures (Unused(Anew(secured), rule) ==> Unused(searched, rule)) && (TargetsApart(Anew(secured), rule) ==> TargetsApart(searched, rule)) {
      AddsUnused(g, Searching(Scout), Anew(secured), scouted, rule);
      AddsUnused(g, Searching(Squad), scouted, searched, rule);
    }
    UnusedApart(searched, Rescout);
    AnewApart(searched, Secure);
    UnusedApart(Anew(searched), Rescout);
    AddsApart(g, Rescouting, Anew(searched), rescouted);
    AddsUnused(g, Rescouting, Anew(searched), rescouted, Secure);
    AddsUnused(g, Rescouting, Anew(searched), rescouted, Search);
  }

  /** The same of the decisions: two of one goal's rule have two targets. */
  lemma DecidedApart(t: Terrain.Terrain, faction: string, p: Picture, g: Ground, standing: seq<Decision>, i: nat, j: nat)
    requires IsGround(t, faction, p, g) && i < j < |g.own|
    requires Decided(g, standing)[i].rule == Decided(g, standing)[j].rule
    requires Decided(g, standing)[i].rule in {Secure, Search, Rescout}
    ensures Decided(g, standing)[i].target.Some? && Decided(g, standing)[j].target.Some?
    ensures Decided(g, standing)[i].target != Decided(g, standing)[j].target
  {
    GoalsApart(t, faction, p, g, standing);
    DecidedInReach(t, faction, p, g, standing, i);
    DecidedInReach(t, faction, p, g, standing, j);
    DecidedIs(g, standing, i);
    DecidedIs(g, standing, j);
    hide Decided, Rescouted, Fit, IsGround, FightsInReach;
    var rule := Decided(g, standing)[i].rule;
    assert Has(Rescouted(g, standing), i, rule) && Has(Rescouted(g, standing), j, rule);
  }
}
