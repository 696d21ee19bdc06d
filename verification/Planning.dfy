/** Operations' orders for a round: paths cut to one round's moves, and shortened
    until no two of the faction's elements end on one cell outside a fight. */
module Planning {
  import opened World
  import opened Terrain
  import opened Search
  import opened Sorting
  import opened Route

  type Paths = seq<seq<Location>>

  /** Where an element ends if it takes the path. */
  function End(e: Element, path: seq<Location>): Location {
    if path == [] then e.at else path[|path| - 1]
  }

  /** The cells where one of the faction's own elements is engaged. */
  function Fights(es: seq<Element>): set<Location> {
    FightsAmong(es, |es|)
  }

  function FightsAmong(es: seq<Element>, n: nat): set<Location>
    requires n <= |es|
  {
    if n == 0 then {}
    else if es[n - 1].status.Engaged? then FightsAmong(es, n - 1) + {es[n - 1].at}
    else FightsAmong(es, n - 1)
  }

  lemma {:induction false} FightMembers(es: seq<Element>, n: nat, l: Location)
    requires n <= |es|
    ensures l in FightsAmong(es, n) <==> exists i :: 0 <= i < n && es[i].status.Engaged? && es[i].at == l
  {
    if n > 0 {
      FightMembers(es, n - 1, l);
    }
  }

  predicate Pursues(e: Element, standing: map<string, Standing>) {
    e.status.Engaged? && e.id in standing && standing[e.id].rule.Pursue?
  }

  /** The steps an element starts from, before any is refused. */
  ghost function FirstPath(t: Terrain, e: Element, standing: map<string, Standing>): seq<Location> {
    if e.id !in standing || e.status.Recovering? then []
    else
      var st := standing[e.id];
      if e.status.Engaged? then
        if st.rule.Retreat? && st.target in Steps(t, e.at) then [st.target] else []
      else
        var best := BestPath(StepsOn(t), e.at, st.target);
        if best.None? then [] else Cut(best.value, e.kind.Moves())
  }

  function Cut(path: seq<Location>, n: nat): seq<Location> {
    if n < |path| then path[..n] else path
  }

  ghost function FirstPaths(t: Terrain, es: seq<Element>, standing: map<string, Standing>): Paths {
    seq(|es|, i requires 0 <= i < |es| => FirstPath(t, es[i], standing))
  }

  /** A mover is refused where another element ends outside a fight, unless it has the lowest ID of movers alone. */
  ghost predicate Refused(es: seq<Element>, fights: set<Location>, paths: Paths, i: nat)
    requires |paths| == |es| && i < |es|
  {
    && paths[i] != []
    && End(es[i], paths[i]) !in fights
    && exists j :: 0 <= j < |es| && j != i && End(es[j], paths[j]) == End(es[i], paths[i]) && (paths[j] == [] || j < i)
  }

  /** Every refused path loses its last step. */
  ghost function Shorten(es: seq<Element>, fights: set<Location>, paths: Paths): (r: Paths)
    requires |paths| == |es|
    ensures |r| == |es|
  {
    seq(|es|, i requires 0 <= i < |es| =>
      if Refused(es, fights, paths, i) then paths[i][..|paths[i]| - 1] else paths[i])
  }

  /** The steps the paths still hold: what each refusal takes from. */
  ghost function StepsHeld(paths: Paths): set<(int, int)> {
    set i, k | 0 <= i < |paths| && 0 <= k < |paths[i]| :: (i, k)
  }

  lemma ShortenTakesSteps(es: seq<Element>, fights: set<Location>, paths: Paths)
    requires |paths| == |es| && Shorten(es, fights, paths) != paths
    ensures StepsHeld(Shorten(es, fights, paths)) < StepsHeld(paths)
  {
    var after := Shorten(es, fights, paths);
    var i :| 0 <= i < |es| && after[i] != paths[i];
    assert (i, |paths[i]| - 1) in StepsHeld(paths) && (i, |paths[i]| - 1) !in StepsHeld(after);
  }

  /** The paths once none is refused. */
  ghost function Apart(es: seq<Element>, fights: set<Location>, paths: Paths): (r: Paths)
    requires |paths| == |es|
    ensures |r| == |es|
    decreases StepsHeld(paths)
  {
    var after := Shorten(es, fights, paths);
    if after == paths then paths
    else
      ShortenTakesSteps(es, fights, paths);
      Apart(es, fights, after)
  }

  /** The orders of the first `n` elements. */
  function OrdersOf(es: seq<Element>, standing: map<string, Standing>, paths: Paths, n: nat): seq<Order>
    requires |paths| == |es| && n <= |es|
  {
    if n == 0 then []
    else
      var e, path := es[n - 1], paths[n - 1];
      OrdersOf(es, standing, paths, n - 1)
      + if Pursues(e, standing) then [Order(e.id, [], false, true)]
        else if path != [] then [Order(e.id, path, e.status.Engaged?, false)]
        else []
  }

  ghost function FinalPaths(t: Terrain, es: seq<Element>, standing: map<string, Standing>): (r: Paths)
    ensures |r| == |es|
  {
    Apart(es, Fights(es), FirstPaths(t, es, standing))
  }

  ghost function PlanOf(t: Terrain, elements: seq<Element>, standing: map<string, Standing>): seq<Order> {
    var es := SortBy(elements, IdOf);
    OrdersOf(es, standing, FinalPaths(t, es, standing), |es|)
  }

  // ----- What the refusals leave -----

  /** No element moves to a cell outside a fight where another of its faction ends. */
  ghost predicate NoneShared(es: seq<Element>, fights: set<Location>, paths: Paths)
    requires |paths| == |es|
  {
    forall i, j | 0 <= i < |es| && 0 <= j < |es| && i != j
                  && End(es[i], paths[i]) == End(es[j], paths[j]) && End(es[i], paths[i]) !in fights ::
      paths[i] == []
  }

  ghost predicate IsPrefix(p: seq<Location>, q: seq<Location>) { p <= q }

  lemma {:induction false} ApartLeavesNoneShared(es: seq<Element>, fights: set<Location>, paths: Paths)
    requires |paths| == |es|
    ensures NoneShared(es, fights, Apart(es, fights, paths))
    ensures forall i | 0 <= i < |es| :: IsPrefix(Apart(es, fights, paths)[i], paths[i])
    decreases StepsHeld(paths)
  {
    var after := Shorten(es, fights, paths);
    if after == paths {
      forall i, j | 0 <= i < |es| && 0 <= j < |es| && i != j
                    && End(es[i], paths[i]) == End(es[j], paths[j]) && End(es[i], paths[i]) !in fights
        ensures paths[i] == []
      {
        assert after[i] == paths[i] && after[j] == paths[j];
        assert !Refused(es, fights, paths, i) && !Refused(es, fights, paths, j);
      }
    } else {
      ShortenTakesSteps(es, fights, paths);
      ApartLeavesNoneShared(es, fights, after);
      forall i | 0 <= i < |es| ensures IsPrefix(Apart(es, fights, paths)[i], paths[i]) {
        assert IsPrefix(Apart(es, fights, after)[i], after[i]);
      }
    }
  }

  /** The plan does not depend on the order in which the elements are listed. */
  lemma PlanIgnoresListing(t: Terrain, a: seq<Element>, b: seq<Element>, standing: map<string, Standing>)
    requires multiset(a) == multiset(b) && DistinctKeys(a, IdOf) && DistinctKeys(b, IdOf)
    ensures PlanOf(t, a, standing) == PlanOf(t, b, standing)
  {
    SortByStrict(a, IdOf);
    SortByStrict(b, IdOf);
    forall e ensures e in SortBy(a, IdOf) <==> e in SortBy(b, IdOf) {
      assert e in SortBy(a, IdOf) <==> e in multiset(SortBy(a, IdOf));
      assert e in SortBy(b, IdOf) <==> e in multiset(SortBy(b, IdOf));
    }
    SortedUnique(SortBy(a, IdOf), SortBy(b, IdOf), IdOf);
  }

  // ----- The planning loops -----

  /** A cell's group: the elements that end there, in ID order. */
  ghost predicate IsGroup(es: seq<Element>, paths: Paths, n: nat, cell: Location, group: seq<nat>)
    requires |paths| == |es| && n <= |es|
  {
    && (forall g | 0 <= g < |group| :: group[g] < n && End(es[group[g]], paths[group[g]]) == cell)
    && (forall g, h | 0 <= g < h < |group| :: group[g] < group[h])
    && (forall i | 0 <= i < n && End(es[i], paths[i]) == cell :: i in group)
  }

  method GroupByEnd(es: seq<Element>, paths: Paths) returns (at: map<Location, seq<nat>>)
    requires |paths| == |es|
    ensures forall i | 0 <= i < |es| :: End(es[i], paths[i]) in at
    ensures forall cell | cell in at :: IsGroup(es, paths, |es|, cell, at[cell])
  {
    at := map[];
    hide End, IsGroup;
    for i := 0 to |es|
      invariant forall k | 0 <= k < i :: End(es[k], paths[k]) in at
      invariant forall cell | cell in at :: IsGroup(es, paths, i, cell, at[cell])
    {
      var cell := End(es[i], paths[i]);
      forall c | c in at ensures IsGroup(es, paths, i + 1, c, if c == cell then at[c] + [i] else at[c]) {
        GroupNext(es, paths, i, c, at[c]);
      }
      if cell !in at {
        GroupNext(es, paths, i, cell, []) by {
          NobodyYet(es, paths, i, cell, at);
        }
      }
      at := at[cell := (if cell in at then at[cell] else []) + [i]];
    }
  }

  lemma GroupNext(es: seq<Element>, paths: Paths, n: nat, cell: Location, group: seq<nat>)
    requires |paths| == |es| && n < |es| && IsGroup(es, paths, n, cell, group)
    ensures IsGroup(es, paths, n + 1, cell, if cell == End(es[n], paths[n]) then group + [n] else group)
  {
    hide End;
    if cell == End(es[n], paths[n]) {
      var next := group + [n];
      assert next[|group|] == n && forall g | 0 <= g < |group| :: next[g] == group[g];
      forall i | 0 <= i < n + 1 && End(es[i], paths[i]) == cell ensures i in next {
        if i < n {
          assert i in group;
        } else {
          assert next[|group|] == i;
        }
      }
    }
  }

  lemma NobodyYet(es: seq<Element>, paths: Paths, n: nat, cell: Location, at: map<Location, seq<nat>>)
    requires |paths| == |es| && n <= |es| && cell !in at && forall k | 0 <= k < n :: End(es[k], paths[k]) in at
    ensures IsGroup(es, paths, n, cell, [])
  {
    hide End;
  }

  /** In a cell outside a fight that several end in, only the first of movers alone is not refused. */
  lemma RefusedInGroup(es: seq<Element>, fights: set<Location>, paths: Paths, cell: Location, group: seq<nat>, g: nat)
    requires |paths| == |es| && IsGroup(es, paths, |es|, cell, group) && g < |group|
    ensures Refused(es, fights, paths, group[g]) <==>
            && 2 <= |group| && cell !in fights && paths[group[g]] != []
            && (g != 0 || exists h :: 0 <= h < |group| && paths[group[h]] == [])
  {
    var i := group[g];
    if Refused(es, fights, paths, i) {
      var j :| 0 <= j < |es| && j != i && End(es[j], paths[j]) == cell && (paths[j] == [] || j < i);
      assert j in group;
      var h :| 0 <= h < |group| && group[h] == j;
    }
    if 2 <= |group| && paths[i] != [] {
      if h :| 0 <= h < |group| && paths[group[h]] == [] {
        assert group[h] != i && End(es[group[h]], paths[group[h]]) == cell;
      } else if g != 0 {
        assert group[0] < i && End(es[group[0]], paths[group[0]]) == cell;
      }
    }
  }

  /** The paths with one cell's refusals among `shortened` applied. */
  ghost predicate ShortenedIn(es: seq<Element>, fights: set<Location>, start: Paths, paths: Paths, out: Paths,
                              shortened: seq<nat>)
    requires |start| == |paths| == |es|
  {
    && |out| == |es|
    && forall i | 0 <= i < |es| :: out[i] == if i in shortened then Shorten(es, fights, start)[i] else paths[i]
  }

  ghost predicate AnyRefused(es: seq<Element>, fights: set<Location>, start: Paths, among: seq<nat>)
    requires |start| == |es|
  {
    exists i :: 0 <= i < |es| && i in among && Refused(es, fights, start, i)
  }

  /** A group's next member takes its refusal, or none, and the rest stand. */
  lemma MemberShortened(es: seq<Element>, fights: set<Location>, start: Paths, paths: Paths, out: Paths,
                        cell: Location, group: seq<nat>, g: nat)
    requires |start| == |paths| == |es| && IsGroup(es, start, |es|, cell, group) && g < |group|
    requires ShortenedIn(es, fights, start, paths, out, group[..g]) && paths[group[g]] == start[group[g]]
    ensures out[group[g]] == start[group[g]]
    ensures ShortenedIn(es, fights, start, paths, out[group[g] := Shorten(es, fights, start)[group[g]]], group[..g + 1])
    ensures AnyRefused(es, fights, start, group[..g + 1])
            <==> AnyRefused(es, fights, start, group[..g]) || Refused(es, fights, start, group[g])
  {
    assert group[g] !in group[..g];
    assert group[..g + 1] == group[..g] + [group[g]];
  }

  lemma ShortenAt(es: seq<Element>, fights: set<Location>, paths: Paths, i: nat)
    requires |paths| == |es| && i < |es|
    ensures Refused(es, fights, paths, i) ==> paths[i] != []
    ensures Shorten(es, fights, paths)[i]
            == if Refused(es, fights, paths, i) then paths[i][..|paths[i]| - 1] else paths[i]
  {
  }

  lemma NoneShortened(es: seq<Element>, fights: set<Location>, start: Paths, paths: Paths)
    requires |start| == |paths| == |es|
    ensures ShortenedIn(es, fights, start, paths, paths, []) && !AnyRefused(es, fights, start, [])
  {
  }

  method AnyStays(paths: Paths, group: seq<nat>) returns (stays: bool)
    requires forall g | 0 <= g < |group| :: group[g] < |paths|
    ensures stays <==> exists h :: 0 <= h < |group| && paths[group[h]] == []
  {
    for g := 0 to |group|
      invariant forall h | 0 <= h < g :: paths[group[h]] != []
    {
      if paths[group[g]] == [] {
        return true;
      }
    }
    return false;
  }

  /** One cell's refusals. */
  method RefuseInCell(es: seq<Element>, ghost start: Paths, paths: Paths, cell: Location, group: seq<nat>,
                      ghost fights: set<Location>)
    returns (out: Paths, refused: bool)
    requires |start| == |paths| == |es| && IsGroup(es, start, |es|, cell, group)
    requires 2 <= |group| && cell !in fights
    requires forall i | i in group :: paths[i] == start[i]
    ensures ShortenedIn(es, fights, start, paths, out, group)
    ensures refused <==> AnyRefused(es, fights, start, group)
  {
    out, refused := paths, false;
    var stays := AnyStays(paths, group);
    var keep := if stays then -1 else group[0] as int;
    NoneShortened(es, fights, start, paths);
    hide Refused, End, ShortenedIn, AnyRefused, Shorten;
    for g := 0 to |group|
      invariant |out| == |es|
      invariant ShortenedIn(es, fights, start, paths, out, group[..g])
      invariant refused <==> AnyRefused(es, fights, start, group[..g])
    {
      var i := group[g];
      RefusedInGroup(es, fights, start, cell, group, g);
      ShortenAt(es, fights, start, i);
      MemberShortened(es, fights, start, paths, out, cell, group, g);
      if i != keep && out[i] != [] {
        out := out[i := out[i][..|out[i]| - 1]];
        refused := true;
      }
    }
    assert group[..|group|] == group;
  }

  /** The cells already tested have their refusals; the others stand as they were. */
  ghost predicate Tested(es: seq<Element>, fights: set<Location>, paths: Paths, out: Paths, cells: set<Location>)
    requires |paths| == |es|
  {
    && |out| == |es|
    && forall i | 0 <= i < |es| ::
         out[i] == if End(es[i], paths[i]) in cells then paths[i] else Shorten(es, fights, paths)[i]
  }

  ghost predicate RefusedOutside(es: seq<Element>, fights: set<Location>, paths: Paths, cells: set<Location>)
    requires |paths| == |es|
  {
    exists i :: 0 <= i < |es| && End(es[i], paths[i]) !in cells && Refused(es, fights, paths, i)
  }

  lemma CellTested(es: seq<Element>, fights: set<Location>, paths: Paths, before: Paths, after: Paths,
                   cells: set<Location>, cell: Location, group: seq<nat>)
    requires |paths| == |es| && cell in cells && IsGroup(es, paths, |es|, cell, group)
    requires Tested(es, fights, paths, before, cells)
    requires ShortenedIn(es, fights, paths, before, after, group)
    ensures Tested(es, fights, paths, after, cells - {cell})
    ensures RefusedOutside(es, fights, paths, cells - {cell})
            <==> RefusedOutside(es, fights, paths, cells) || AnyRefused(es, fights, paths, group)
  {
    assert forall i | 0 <= i < |es| :: i in group <==> End(es[i], paths[i]) == cell;
  }

  lemma NothingToRefuse(es: seq<Element>, fights: set<Location>, paths: Paths, out: Paths, cell: Location, group: seq<nat>)
    requires |out| == |paths| == |es| && IsGroup(es, paths, |es|, cell, group)
    requires |group| < 2 || cell in fights
    requires forall i | i in group :: out[i] == paths[i]
    ensures ShortenedIn(es, fights, paths, out, out, group) && !AnyRefused(es, fights, paths, group)
  {
    forall i | i in group ensures 0 <= i < |es| && !Refused(es, fights, paths, i) {
      var g :| 0 <= g < |group| && group[g] == i;
      RefusedInGroup(es, fights, paths, cell, group, g);
    }
  }

  /** One test of every cell, whatever order the cells come in. */
  method RefuseOnce(es: seq<Element>, fights: set<Location>, paths: Paths) returns (out: Paths, refused: bool)
    requires |paths| == |es|
    ensures out == Shorten(es, fights, paths)
    ensures refused <==> out != paths
  {
    out, refused := paths, false;
    var at := GroupByEnd(es, paths);
    var cells := at.Keys;
    while cells != {}
      invariant cells <= at.Keys
      invariant Tested(es, fights, paths, out, cells)
      invariant refused <==> RefusedOutside(es, fights, paths, cells)
    {
      var cell :| cell in cells;
      var group := at[cell];
      ghost var before := out;
      assert forall i | i in group :: out[i] == paths[i];
      if |group| < 2 || cell in fights {
        NothingToRefuse(es, fights, paths, out, cell, group);
      } else {
        var here: bool;
        out, here := RefuseInCell(es, paths, out, cell, group, fights);
        refused := refused || here;
      }
      CellTested(es, fights, paths, before, out, cells, cell, group);
      cells := cells - {cell};
    }
    assert out == Shorten(es, fights, paths);
    assert refused <==> exists i :: 0 <= i < |es| && Shorten(es, fights, paths)[i] != paths[i];
  }

  /** One element's steps before any refusal, and whether they retreat. */
  method PlanElement(t: Terrain, e: Element, standing: map<string, Standing>)
    returns (path: seq<Location>, leaves: bool, chases: bool)
    ensures path == FirstPath(t, e, standing)
    ensures leaves == (e.status.Engaged? && path != [])
    ensures chases == Pursues(e, standing)
  {
    path, leaves, chases := [], false, false;
    if e.status.Engaged? {
      if e.id in standing {
        chases := standing[e.id].rule.Pursue?;
        var steps := ComputeSteps(t, e.at);
        if standing[e.id].rule.Retreat? && standing[e.id].target in steps {
          path, leaves := [standing[e.id].target], true;
        }
      }
    } else if !e.status.Recovering? && e.id in standing {
      var best := Path(t, e.at, standing[e.id].target);
      if best.Some? {
        path := Cut(best.value, e.kind.Moves());
      }
    }
  }

  /** The refusals, tested again until none is left. */
  method KeepApart(es: seq<Element>, fights: set<Location>, first: Paths) returns (paths: Paths)
    requires |first| == |es|
    ensures paths == Apart(es, fights, first)
  {
    paths := first;
    var refused := true;
    while refused
      invariant |paths| == |es|
      invariant Apart(es, fights, paths) == Apart(es, fights, first)
      invariant !refused ==> Shorten(es, fights, paths) == paths
      decreases refused, StepsHeld(paths)
    {
      var out;
      out, refused := RefuseOnce(es, fights, paths);
      if refused {
        ShortenTakesSteps(es, fights, paths);
      }
      paths := out;
    }
  }

  /** The orders of the elements that move or pursue. */
  method Issue(es: seq<Element>, ghost standing: map<string, Standing>, paths: Paths,
               retreat: seq<bool>, pursue: seq<bool>)
    returns (orders: seq<Order>)
    requires |paths| == |retreat| == |pursue| == |es|
    requires forall k | 0 <= k < |es| :: pursue[k] == Pursues(es[k], standing)
    requires forall k | 0 <= k < |es| && paths[k] != [] :: retreat[k] == es[k].status.Engaged?
    ensures orders == OrdersOf(es, standing, paths, |es|)
  {
    orders := [];
    for i := 0 to |es|
      invariant orders == OrdersOf(es, standing, paths, i)
    {
      if pursue[i] {
        orders := orders + [Order(es[i].id, [], false, true)];
      } else if paths[i] != [] {
        orders := orders + [Order(es[i].id, paths[i], retreat[i], false)];
      }
    }
  }

  /** The first `n` elements' steps, and the flags of their orders. */
  ghost predicate Started(t: Terrain, es: seq<Element>, standing: map<string, Standing>, first: Paths,
                          retreat: seq<bool>, pursue: seq<bool>, n: nat)
  {
    && n == |first| == |retreat| == |pursue| <= |es|
    && (forall k | 0 <= k < n :: first[k] == FirstPath(t, es[k], standing))
    && (forall k | 0 <= k < n :: retreat[k] == (es[k].status.Engaged? && first[k] != []))
    && (forall k | 0 <= k < n :: pursue[k] == Pursues(es[k], standing))
  }

  lemma StartedNext(t: Terrain, es: seq<Element>, standing: map<string, Standing>, first: Paths,
                    retreat: seq<bool>, pursue: seq<bool>, n: nat, path: seq<Location>, leaves: bool, chases: bool)
    requires Started(t, es, standing, first, retreat, pursue, n) && n < |es|
    requires path == FirstPath(t, es[n], standing) && chases == Pursues(es[n], standing)
    requires leaves == (es[n].status.Engaged? && path != [])
    ensures Started(t, es, standing, first + [path], retreat + [leaves], pursue + [chases], n + 1)
  {
    hide FirstPath, Pursues;
    var longer := first + [path];
    assert forall k | 0 <= k < n :: longer[k] == first[k];
  }

  /** Every element's steps before any refusal, and the cells of the faction's fights. */
  method PlanElements(t: Terrain, es: seq<Element>, standing: map<string, Standing>)
    returns (first: Paths, retreat: seq<bool>, pursue: seq<bool>, fights: set<Location>)
    ensures Started(t, es, standing, first, retreat, pursue, |es|)
    ensures fights == Fights(es)
  {
    first, retreat, pursue, fights := [], [], [], {};
    for i := 0 to |es|
      invariant Started(t, es, standing, first, retreat, pursue, i)
      invariant fights == FightsAmong(es, i)
    {
      hide FirstPath, Pursues, Started;
      var path, leaves, chases := PlanElement(t, es[i], standing);
      if es[i].status.Engaged? {
        fights := fights + {es[i].at};
      }
      StartedNext(t, es, standing, first, retreat, pursue, i, path, leaves, chases);
      first, retreat, pursue := first + [path], retreat + [leaves], pursue + [chases];
    }
  }

  /** The faction's orders for a round. */
  method Plan(t: Terrain, elements: seq<Element>, standing: map<string, Standing>) returns (orders: seq<Order>)
    ensures orders == PlanOf(t, elements, standing)
  {
    var es := SortBy(elements, IdOf);
    var first, retreat, pursue, fights := PlanElements(t, es, standing);
    assert first == FirstPaths(t, es, standing);
    var paths := KeepApart(es, fights, first);
    ApartLeavesNoneShared(es, fights, first);
    forall k | 0 <= k < |es| && paths[k] != [] ensures retreat[k] == es[k].status.Engaged? {
      assert IsPrefix(paths[k], first[k]);
    }
    orders := Issue(es, standing, paths, retreat, pursue);
  }
}
