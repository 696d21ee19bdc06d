/** Operations' planning: the path to a target, and one round's orders. */
module Route {
  import opened Keys
  import opened World
  import opened Terrain
  import opened Search
  import opened Sorting

  /** What an element's directive set: its target, and the rule command decided it by. */
  datatype Standing = Standing(target: Location, rule: Rule)

  datatype Element = Element(id: string, kind: Kind, status: Status, at: Location)

  function IdOf(e: Element): string { e.id }

  // ----- Path -----

  function StepsOn(t: Terrain): Graph {
    (at: Location) => Steps(t, at)
  }

  /** The path the search prefers, without its start; none where no walk leads. */
  ghost function BestPath(steps: Graph, a: Location, b: Location): Option<seq<Location>> {
    if w: seq<Location> :| Preferred(steps, a, b, w) then Some(w[1..]) else None
  }

  lemma BestPathIs(steps: Graph, a: Location, b: Location, w: seq<Location>)
    requires Preferred(steps, a, b, w)
    ensures BestPath(steps, a, b) == Some(w[1..])
  {
    var v: seq<Location> :| Preferred(steps, a, b, v) && BestPath(steps, a, b) == Some(v[1..]);
    PreferredUnique(steps, a, b, v, w);
  }

  function Reversed<T>(s: seq<T>): (r: seq<T>)
    ensures |r| == |s|
  {
    if s == [] then [] else Reversed(s[1..]) + [s[0]]
  }

  lemma {:induction false} ReversedAppend<T>(s: seq<T>, x: T)
    ensures Reversed(s + [x]) == [x] + Reversed(s)
  {
    if s != [] {
      assert (s + [x])[1..] == s[1..] + [x];
      ReversedAppend(s[1..], x);
    }
  }

  /** What the search's variables mean: `prev` is the tree's parents, over cells of the map. */
  ghost predicate Tracks(steps: Graph, cells: set<Location>, tree: Search.Tree, prev: map<Location, Location>)
  {
    && WellFormed(steps, tree)
    && (forall l :: l in prev <==> l in tree.order)
    && (forall k | 0 < k < |tree.order| :: prev[tree.order[k]] == tree.order[tree.parent[k]])
    && (forall l | l in tree.order :: l in cells)
  }

  /** No step leaves the cells. */
  ghost predicate Within(steps: Graph, cells: set<Location>) {
    forall at, next | next in steps(at) :: next in cells
  }

  /** A tree's cells are distinct cells of the map, so they are boundedly many. */
  lemma {:induction false} DistinctWithin(s: seq<Location>, cells: set<Location>)
    requires Distinct(s) && forall l | l in s :: l in cells
    ensures |s| <= |cells|
  {
    if s != [] {
      var last := s[|s| - 1];
      assert last in s;
      assert forall l | l in s[..|s| - 1] :: l in cells - {last};
      DistinctWithin(s[..|s| - 1], cells - {last});
    }
  }

  lemma TracksAdded(steps: Graph, cells: set<Location>, tree: Search.Tree, h: nat, s: nat,
                    prev: map<Location, Location>)
    requires Grown(steps, tree, h, s) && Tracks(steps, cells, tree, prev) && Within(steps, cells)
    requires h < |tree.order| && s < |steps(tree.order[h])| && steps(tree.order[h])[s] !in prev
    ensures var next := steps(tree.order[h])[s];
            && Grown(steps, Add(tree, h, next), h, s + 1)
            && Tracks(steps, cells, Add(tree, h, next), prev[next := tree.order[h]])
  {
    GrownByNew(steps, tree, h, s);
    assert steps(tree.order[h])[s] in steps(tree.order[h]);
  }

  lemma FoundPreferred(steps: Graph, tree: Search.Tree, h: nat, s: nat, path: seq<Location>)
    requires Grown(steps, tree, h, s)
    requires path == Branch(steps, tree, |tree.order| - 1)[1..]
    ensures var from, to := tree.order[0], tree.order[|tree.order| - 1];
            && Preferred(steps, from, to, [from] + path)
            && BestPath(steps, from, to) == Some(path)
  {
    var n := |tree.order| - 1;
    BranchPreferred(steps, tree, h, s, n);
    assert [tree.order[0]] + path == Branch(steps, tree, n);
    BestPathIs(steps, tree.order[0], tree.order[n], [tree.order[0]] + path);
  }

  lemma FoundAtStart(steps: Graph, from: Location)
    ensures Preferred(steps, from, from, [from] + []) && BestPath(steps, from, from) == Some([])
  {
    assert forall v | WalkBetween(steps, from, from, v) && |v| == 1 :: v == [from];
    assert [from] + [] == [from];
    BestPathIs(steps, from, from, [from]);
  }

  lemma NotFound(steps: Graph, tree: Search.Tree, to: Location)
    requires Grown(steps, tree, |tree.order|, 0) && to !in tree.order
    ensures forall w :: !WalkBetween(steps, tree.order[0], to, w)
  {
    forall w ensures !WalkBetween(steps, tree.order[0], to, w) {
      if Walk(steps, w) && w[0] == tree.order[0] {
        TreeComplete(steps, tree, w);
      }
    }
  }

  lemma OneBack(steps: Graph, tree: Search.Tree, k: nat, back: seq<Location>, whole: seq<Location>)
    requires WellFormed(steps, tree) && 0 < k < |tree.order| && whole == Branch(steps, tree, k) + Reversed(back)
    ensures whole == Branch(steps, tree, tree.parent[k]) + Reversed(back + [tree.order[k]])
  {
    ReversedAppend(back, tree.order[k]);
    assert Branch(steps, tree, k) == Branch(steps, tree, tree.parent[k]) + [tree.order[k]];
  }

  /** The steps back from the tree's `n`-th cell to its root, read in reverse. */
  method Trace(ghost steps: Graph, ghost cells: set<Location>, ghost tree: Search.Tree, ghost n: nat,
               prev: map<Location, Location>, from: Location, to: Location)
    returns (path: seq<Location>)
    requires Tracks(steps, cells, tree, prev) && n < |tree.order|
    requires tree.order[n] == to && tree.order[0] == from
    ensures path == Branch(steps, tree, n)[1..]
  {
    ghost var whole := Branch(steps, tree, n);
    var back: seq<Location> := [];
    var l := to;
    ghost var k: nat := n;
    while l != from
      invariant k <= n && tree.order[k] == l
      invariant whole == Branch(steps, tree, k) + Reversed(back)
      decreases k
    {
      OneBack(steps, tree, k, back, whole);
      hide Branch, Reversed;
      back := back + [l];
      l := prev[l];
      k := tree.parent[k];
    }
    path := Reversed(back);
  }

  /** The search has explored the first `h` cells and `s` steps of the next, and has not met the target. */
  ghost predicate Searching(steps: Graph, cells: set<Location>, tree: Search.Tree, h: nat, s: nat,
                            from: Location, to: Location, prev: map<Location, Location>) {
    && Grown(steps, tree, h, s)
    && Tracks(steps, cells, tree, prev)
    && tree.order[0] == from && to !in prev
  }

  /** One cell's steps: the new cells join `prev` and the queue, unless one is the target. */
  method Expand(steps: Graph, ghost cells: set<Location>, ghost tree: Search.Tree, ghost h: nat,
                from: Location, to: Location, at: Location,
                prev: map<Location, Location>, rest: seq<Location>)
    returns (prev': map<Location, Location>, queue: seq<Location>, path: Option<seq<Location>>,
             ghost tree': Search.Tree)
    requires Within(steps, cells) && Searching(steps, cells, tree, h, 0, from, to, prev)
    requires h < |tree.order| && at == tree.order[h] && rest == tree.order[h + 1..]
    ensures path.Some? ==> Preferred(steps, from, to, [from] + path.value) && BestPath(steps, from, to) == path
    ensures path.None? ==> && Searching(steps, cells, tree', h + 1, 0, from, to, prev')
                           && queue == tree'.order[h + 1..]
  {
    prev', queue, path, tree' := prev, rest, None, tree;
    var nexts := steps(at);
    hide Grown, Preferred, BestPath;
    for i := 0 to |nexts|
      invariant h < |tree'.order| && at == tree'.order[h] && path.None?
      invariant Searching(steps, cells, tree', h, i, from, to, prev')
      invariant queue == tree'.order[h + 1..]
    {
      var next := nexts[i];
      if next in prev' {
        GrownPastSeen(steps, tree', h, i);
      } else {
        TracksAdded(steps, cells, tree', h, i, prev');
        prev' := prev'[next := at];
        tree' := Add(tree', h, next);
        if next == to {
          var found := Trace(steps, cells, tree', |tree'.order| - 1, prev', from, to);
          FoundPreferred(steps, tree', h, i + 1, found);
          path := Some(found);
          return;
        }
        queue := queue + [next];
      }
    }
    GrownToNext(steps, tree', h, |nexts|);
  }

  /** The search itself, over any steps that stay within finitely many cells. */
  method Find(steps: Graph, ghost cells: set<Location>, from: Location, to: Location)
    returns (r: Option<seq<Location>>)
    requires Within(steps, cells) && from in cells
    ensures r.Some? ==> Preferred(steps, from, to, [from] + r.value)
    ensures r.None? ==> forall w :: !WalkBetween(steps, from, to, w)
    ensures r == BestPath(steps, from, to)
  {
    if from == to {
      FoundAtStart(steps, from);
      return Some([]);
    }
    var prev := map[from := from];
    var queue := [from];
    ghost var tree, h: nat := Root(from), 0;
    GrownAtRoot(steps, from);
    while queue != []
      invariant Searching(steps, cells, tree, h, 0, from, to, prev)
      invariant queue == tree.order[h..]
      decreases |cells| - h
    {
      DistinctWithin(tree.order, cells);
      prev, queue, r, tree := Expand(steps, cells, tree, h, from, to, queue[0], prev, queue[1..]);
      if r.Some? {
        return;
      }
      h := h + 1;
    }
    NotFound(steps, tree, to);
    r := None;
  }

  /** A shortest path, the first in the order of the steps among those of its length; none exactly when no walk
      leads to the target. */
  method Path(t: Terrain, from: Location, to: Location) returns (r: Option<seq<Location>>)
    ensures r.Some? ==> Preferred(StepsOn(t), from, to, [from] + r.value)
    ensures r.None? ==> forall w :: !WalkBetween(StepsOn(t), from, to, w)
    ensures r == BestPath(StepsOn(t), from, to)
  {
    ghost var cells := Cells(t) + {from};
    forall at, next | next in StepsOn(t)(at) ensures next in cells {
      StepsStayInCells(t, at, next);
    }
    r := Find(StepsOn(t), cells, from, to);
  }
}
