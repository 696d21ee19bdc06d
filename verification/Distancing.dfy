/** Command's own breadth-first search: the distance to every cell it reaches. */
module Distancing {
  import opened World
  import opened Terrain
  import opened Search
  import opened Route
  import Deciding

  /** What the search's map means: each cell of the tree at its level. */
  ghost predicate Measures(steps: Graph, cells: set<Location>, tree: Search.Tree, dist: Deciding.Distances) {
    && WellFormed(steps, tree)
    && (forall l :: l in dist <==> l in tree.order)
    && (forall k | 0 <= k < |tree.order| :: dist[tree.order[k]] == Level(steps, tree, k))
    && (forall l | l in tree.order :: l in cells)
  }

  lemma {:induction false} LevelKept(steps: Graph, tree: Search.Tree, h: nat, next: Location, k: nat)
    requires WellFormed(steps, tree) && WellFormed(steps, Add(tree, h, next)) && k < |tree.order|
    ensures Level(steps, Add(tree, h, next), k) == Level(steps, tree, k)
  {
    if k > 0 {
      LevelKept(steps, tree, h, next, tree.parent[k]);
    }
  }

  lemma MeasuresAdded(steps: Graph, cells: set<Location>, tree: Search.Tree, h: nat, s: nat, dist: Deciding.Distances)
    requires Grown(steps, tree, h, s) && Measures(steps, cells, tree, dist) && Within(steps, cells)
    requires h < |tree.order| && s < |steps(tree.order[h])| && steps(tree.order[h])[s] !in dist
    ensures var next := steps(tree.order[h])[s];
            && Grown(steps, Add(tree, h, next), h, s + 1)
            && Measures(steps, cells, Add(tree, h, next), dist[next := dist[tree.order[h]] + 1])
  {
    var next := steps(tree.order[h])[s];
    var grown := Add(tree, h, next);
    GrownByNew(steps, tree, h, s);
    assert next in steps(tree.order[h]);
    hide InOrder, Explored;
    forall k | 0 <= k < |tree.order| ensures Level(steps, grown, k) == Level(steps, tree, k) {
      LevelKept(steps, tree, h, next, k);
    }
    assert Level(steps, grown, |tree.order|) == Level(steps, grown, h) + 1;
  }

  /** The search has explored the first `h` cells and `s` steps of the next. */
  ghost predicate Measuring(steps: Graph, cells: set<Location>, tree: Search.Tree, h: nat, s: nat, from: Location,
                            dist: Deciding.Distances)
  {
    Grown(steps, tree, h, s) && Measures(steps, cells, tree, dist) && tree.order[0] == from
  }

  lemma StepMeasured(steps: Graph, cells: set<Location>, tree: Search.Tree, h: nat, s: nat, from: Location,
                     dist: Deciding.Distances)
    requires Within(steps, cells) && Measuring(steps, cells, tree, h, s, from, dist)
    requires h < |tree.order| && s < |steps(tree.order[h])|
    ensures tree.order[h] in dist
    ensures var next := steps(tree.order[h])[s];
            if next in dist then Measuring(steps, cells, tree, h, s + 1, from, dist)
            else Measuring(steps, cells, Add(tree, h, next), h, s + 1, from, dist[next := dist[tree.order[h]] + 1])
  {
    hide Grown;
    if steps(tree.order[h])[s] in dist {
      GrownPastSeen(steps, tree, h, s);
    } else {
      MeasuresAdded(steps, cells, tree, h, s, dist);
    }
  }

  lemma RowMeasured(steps: Graph, cells: set<Location>, tree: Search.Tree, h: nat, from: Location, dist: Deciding.Distances)
    requires h < |tree.order| && Measuring(steps, cells, tree, h, |steps(tree.order[h])|, from, dist)
    ensures Measuring(steps, cells, tree, h + 1, 0, from, dist)
  {
    GrownToNext(steps, tree, h, |steps(tree.order[h])|);
    hide Grown;
  }

  method Reach(steps: Graph, ghost cells: set<Location>, ghost tree: Search.Tree, ghost h: nat, ghost from: Location,
               at: Location, dist: Deciding.Distances, rest: seq<Location>)
    returns (dist': Deciding.Distances, queue: seq<Location>, ghost tree': Search.Tree)
    requires Within(steps, cells) && Measuring(steps, cells, tree, h, 0, from, dist)
    requires h < |tree.order| && at == tree.order[h] && rest == tree.order[h + 1..]
    ensures Measuring(steps, cells, tree', h + 1, 0, from, dist') && queue == tree'.order[h + 1..]
  {
    dist', queue, tree' := dist, rest, tree;
    var nexts := steps(at);
    hide Measuring;
    for i := 0 to |nexts|
      invariant h < |tree'.order| && at == tree'.order[h]
      invariant Measuring(steps, cells, tree', h, i, from, dist')
      invariant queue == tree'.order[h + 1..]
    {
      var next := nexts[i];
      StepMeasured(steps, cells, tree', h, i, from, dist');
      if next !in dist' {
        dist' := dist'[next := dist'[at] + 1];
        tree' := Add(tree', h, next);
        queue := queue + [next];
      }
    }
    RowMeasured(steps, cells, tree', h, from, dist');
  }

  /** A finished search has measured every cell a walk reaches by the length of the path operations would find. */
  lemma Measured(steps: Graph, cells: set<Location>, tree: Search.Tree, from: Location, dist: Deciding.Distances)
    requires Measuring(steps, cells, tree, |tree.order|, 0, from, dist)
    ensures Deciding.AreDistances(steps, from, dist)
  {
    hide Grown, BestPath, Level;
    forall l ensures l in dist <==> BestPath(steps, from, l).Some?
             ensures l in dist ==> dist[l] == |BestPath(steps, from, l).value| {
      if l in dist {
        FoundMeasured(steps, tree, Index(tree.order, l));
      } else {
        UnfoundMeasured(steps, tree, l);
      }
    }
  }

  lemma UnfoundMeasured(steps: Graph, tree: Search.Tree, to: Location)
    requires Grown(steps, tree, |tree.order|, 0) && to !in tree.order
    ensures BestPath(steps, tree.order[0], to).None?
  {
    NotFound(steps, tree, to);
    hide Grown;
  }

  lemma FoundMeasured(steps: Graph, tree: Search.Tree, k: nat)
    requires Grown(steps, tree, |tree.order|, 0) && k < |tree.order|
    ensures BestPath(steps, tree.order[0], tree.order[k]).Some?
    ensures |BestPath(steps, tree.order[0], tree.order[k]).value| == Level(steps, tree, k)
  {
    BranchPreferred(steps, tree, |tree.order|, 0, k);
    BestPathIs(steps, tree.order[0], tree.order[k], Branch(steps, tree, k));
    hide InOrder, Explored, BestPath, Preferred;
  }

  method Measure(steps: Graph, ghost cells: set<Location>, from: Location) returns (dist: Deciding.Distances)
    requires Within(steps, cells) && from in cells
    ensures Deciding.AreDistances(steps, from, dist)
  {
    dist := map[from := 0];
    var queue := [from];
    ghost var tree, h: nat := Root(from), 0;
    GrownAtRoot(steps, from);
    while queue != []
      invariant Measuring(steps, cells, tree, h, 0, from, dist)
      invariant h <= |tree.order| && queue == tree.order[h..]
      decreases |cells| - h
    {
      DistinctWithin(tree.order, cells);
      hide Deciding.AreDistances;
      dist, queue, tree := Reach(steps, cells, tree, h, from, queue[0], dist, queue[1..]);
      h := h + 1;
    }
    Measured(steps, cells, tree, from, dist);
  }

  /** The distance to every location a walk reaches, by the map's steps. */
  method Distances(t: Terrain, from: Location) returns (dist: Deciding.Distances)
    ensures Deciding.AreDistances(StepsOn(t), from, dist)
  {
    ghost var cells := Cells(t) + {from};
    forall at, next | next in StepsOn(t)(at) ensures next in cells {
      StepsStayInCells(t, at, next);
    }
    dist := Measure(StepsOn(t), cells, from);
  }
}
