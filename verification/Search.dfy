/** Breadth-first search over a map's steps: what a queue of discovered cells knows
    of shortest walks, and of the first among them in the order of the steps. */
module Search {
  import opened World

  /** The cells one step from a cell, in the order a search tries them. */
  type Graph = Location -> seq<Location>

  /** A walk lists the cells it stands on, its start included. */
  ghost predicate Walk(steps: Graph, w: seq<Location>) {
    && w != []
    && forall i | 0 <= i < |w| - 1 :: w[i + 1] in steps(w[i])
  }

  ghost predicate WalkBetween(steps: Graph, a: Location, b: Location, w: seq<Location>) {
    Walk(steps, w) && w[0] == a && w[|w| - 1] == b
  }

  function Index(s: seq<Location>, l: Location): (i: nat)
    requires l in s
    ensures i < |s| && s[i] == l && l !in s[..i]
  {
    if s[0] == l then 0 else 1 + Index(s[1..], l)
  }

  /** `v` takes an earlier step than `w` where the two first part. */
  ghost predicate Earlier(steps: Graph, v: seq<Location>, w: seq<Location>) {
    exists i :: 0 < i < |v| && i < |w| && Parts(steps, v, w, i)
  }

  ghost predicate Parts(steps: Graph, v: seq<Location>, w: seq<Location>, i: nat)
    requires 0 < i < |v| && i < |w|
  {
    && (forall k | 0 <= k < i :: v[k] == w[k])
    && v[i] in steps(v[i - 1]) && w[i] in steps(v[i - 1])
    && Index(steps(v[i - 1]), v[i]) < Index(steps(v[i - 1]), w[i])
  }

  /** The one walk a search prefers: no walk is shorter, and every other walk of its length parts from it
      at a later step. */
  ghost predicate Preferred(steps: Graph, a: Location, b: Location, w: seq<Location>) {
    && WalkBetween(steps, a, b, w)
    && forall v :: WalkBetween(steps, a, b, v) ==> |w| < |v| || v == w || (|v| == |w| && Earlier(steps, w, v))
  }

  lemma EarlierIsStrict(steps: Graph, v: seq<Location>, w: seq<Location>)
    requires Earlier(steps, v, w)
    ensures !Earlier(steps, w, v)
  {
    var i :| 0 < i < |v| && i < |w| && Parts(steps, v, w, i);
    assert v[i] != w[i];
  }

  lemma PreferredUnique(steps: Graph, a: Location, b: Location, v: seq<Location>, w: seq<Location>)
    requires Preferred(steps, a, b, v) && Preferred(steps, a, b, w)
    ensures v == w
  {
    if v != w {
      EarlierIsStrict(steps, v, w);
    }
  }

  lemma EarlierExtends(steps: Graph, v: seq<Location>, w: seq<Location>, x: seq<Location>, y: seq<Location>)
    requires Earlier(steps, v, w)
    ensures Earlier(steps, v + x, w + y)
  {
    var i :| 0 < i < |v| && i < |w| && Parts(steps, v, w, i);
    assert Parts(steps, v + x, w + y, i);
  }

  // ----- The tree a search grows -----

  /** The cells discovered, in order; `parent[k]` is the place in `order` of the cell that discovered `order[k]`. */
  datatype Tree = Tree(order: seq<Location>, parent: seq<nat>)

  /** The step by which the `k`-th cell was discovered. */
  ghost function StepOf(steps: Graph, tree: Tree, k: nat): nat
    requires 0 < k < |tree.order| == |tree.parent| && tree.parent[k] < |tree.order|
    requires tree.order[k] in steps(tree.order[tree.parent[k]])
  {
    Index(steps(tree.order[tree.parent[k]]), tree.order[k])
  }

  ghost predicate WellFormed(steps: Graph, tree: Tree) {
    && 0 < |tree.order| == |tree.parent|
    && Distinct(tree.order)
    && tree.parent[0] == 0
    && (forall k | 0 < k < |tree.order| ::
          tree.parent[k] < k && tree.order[k] in steps(tree.order[tree.parent[k]]))
  }

  /** Cells are discovered parent by parent, and by one parent in the order of its steps. */
  ghost predicate InOrder(steps: Graph, tree: Tree)
    requires WellFormed(steps, tree)
  {
    forall j, k | 0 < j < k < |tree.order| ::
      tree.parent[j] < tree.parent[k]
      || (tree.parent[j] == tree.parent[k] && StepOf(steps, tree, j) < StepOf(steps, tree, k))
  }

  /** Every step of the first `h` cells, and the first `s` steps of the next, is discovered, none later than
      by that step; and nothing else is. */
  ghost predicate Explored(steps: Graph, tree: Tree, h: nat, s: nat)
    requires WellFormed(steps, tree) && h <= |tree.order|
  {
    && (h == |tree.order| ==> s == 0)
    && (forall j, i | 0 <= j <= h && j < |tree.order| && 0 <= i < |steps(tree.order[j])| && (j < h || i < s) ::
          DiscoveredBy(steps, tree, j, i))
    && (forall k | 0 < k < |tree.order| :: tree.parent[k] < h || (tree.parent[k] == h && StepOf(steps, tree, k) < s))
  }

  ghost predicate DiscoveredBy(steps: Graph, tree: Tree, j: nat, i: nat)
    requires WellFormed(steps, tree) && j < |tree.order| && i < |steps(tree.order[j])|
  {
    exists k :: 0 <= k < |tree.order| && tree.order[k] == steps(tree.order[j])[i]
                && (k == 0 || tree.parent[k] < j || (tree.parent[k] == j && StepOf(steps, tree, k) <= i))
  }

  ghost predicate Grown(steps: Graph, tree: Tree, h: nat, s: nat) {
    && WellFormed(steps, tree)
    && InOrder(steps, tree)
    && h <= |tree.order|
    && Explored(steps, tree, h, s)
  }

  ghost function Level(steps: Graph, tree: Tree, k: nat): nat
    requires WellFormed(steps, tree) && k < |tree.order|
  {
    if k == 0 then 0 else Level(steps, tree, tree.parent[k]) + 1
  }

  /** The walk down the tree to its `k`-th cell. */
  ghost function Branch(steps: Graph, tree: Tree, k: nat): (w: seq<Location>)
    requires WellFormed(steps, tree) && k < |tree.order|
    ensures |w| == Level(steps, tree, k) + 1
    ensures WalkBetween(steps, tree.order[0], tree.order[k], w)
  {
    if k == 0 then [tree.order[0]] else Branch(steps, tree, tree.parent[k]) + [tree.order[k]]
  }

  lemma {:induction false} LevelMonotone(steps: Graph, tree: Tree, j: nat, k: nat)
    requires WellFormed(steps, tree) && InOrder(steps, tree) && j <= k < |tree.order|
    ensures Level(steps, tree, j) <= Level(steps, tree, k)
    decreases k
  {
    if 0 < j < k {
      LevelMonotone(steps, tree, tree.parent[j], tree.parent[k]);
    }
  }

  /** Of two cells at one level, the one discovered first has the earlier branch. */
  lemma {:induction false} BranchesInOrder(steps: Graph, tree: Tree, j: nat, k: nat)
    requires WellFormed(steps, tree) && InOrder(steps, tree) && j < k < |tree.order|
    requires Level(steps, tree, j) == Level(steps, tree, k)
    ensures Earlier(steps, Branch(steps, tree, j), Branch(steps, tree, k))
    decreases k
  {
    var p, q := tree.parent[j], tree.parent[k];
    var v, w := Branch(steps, tree, p), Branch(steps, tree, q);
    if p < q {
      BranchesInOrder(steps, tree, p, q);
      EarlierExtends(steps, v, w, [tree.order[j]], [tree.order[k]]);
    } else {
      assert Parts(steps, v + [tree.order[j]], w + [tree.order[k]], |v|);
    }
  }

  /** What a walk of `|w| - 1` steps from the tree's root can reach, given what is explored: a cell of the tree no
      deeper than that, whose branch is as early when it is as long; or a cell past the unexplored ones. */
  ghost predicate Covers(steps: Graph, tree: Tree, h: nat, w: seq<Location>)
    requires WellFormed(steps, tree) && h <= |tree.order| && w != []
  {
    var end, n := w[|w| - 1], |w| - 1;
    if end in tree.order then
      var k := Index(tree.order, end);
      Level(steps, tree, k) < n
      || (Level(steps, tree, k) == n && (Branch(steps, tree, k) == w || Earlier(steps, Branch(steps, tree, k), w)))
    else
      h < |tree.order| && Level(steps, tree, h) < n
  }

  lemma {:induction false} TreeCoversWalks(steps: Graph, tree: Tree, h: nat, s: nat, w: seq<Location>)
    requires Grown(steps, tree, h, s)
    requires Walk(steps, w) && w[0] == tree.order[0]
    ensures Covers(steps, tree, h, w)
    decreases |w|
  {
    hide InOrder, Explored, Earlier;
    var n := |w| - 1;
    var end := w[n];
    if n == 0 {
      assert Index(tree.order, end) == 0;
      assert Branch(steps, tree, 0) == w;
      return;
    }
    var v := w[..n];
    var last := v[n - 1];
    TreeCoversWalks(steps, tree, h, s, v);
    assert end in steps(last);
    if end in tree.order {
      var k := Index(tree.order, end);
      if k > 0 {
        var p := tree.parent[k];
        ParentExplored(steps, tree, h, s, k);
        if last !in tree.order {
          LevelMonotone(steps, tree, p, h);
        } else {
          var j := Index(tree.order, last);
          ParentNoLater(steps, tree, h, s, j, k);
          if p <= j {
            LevelMonotone(steps, tree, p, j);
            if Level(steps, tree, k) == n {
              CoveredThroughParent(steps, tree, j, k, w);
            }
          } else {
            LevelMonotone(steps, tree, j, p);
          }
        }
      }
    } else if last in tree.order {
      var j := Index(tree.order, last);
      NewFromUnexplored(steps, tree, h, s, j, end);
      LevelMonotone(steps, tree, h, j);
    }
  }

  lemma ParentExplored(steps: Graph, tree: Tree, h: nat, s: nat, k: nat)
    requires WellFormed(steps, tree) && h <= |tree.order| && Explored(steps, tree, h, s) && 0 < k < |tree.order|
    ensures tree.parent[k] <= h
    ensures h == |tree.order| ==> tree.parent[k] < h
  {
  }

  lemma NewFromUnexplored(steps: Graph, tree: Tree, h: nat, s: nat, j: nat, end: Location)
    requires WellFormed(steps, tree) && h <= |tree.order| && Explored(steps, tree, h, s) && j < |tree.order|
    requires end in steps(tree.order[j]) && end !in tree.order
    ensures h <= j
  {
    var i := Index(steps(tree.order[j]), end);
    assert j < h ==> DiscoveredBy(steps, tree, j, i);
  }

  /** A cell one step from the `j`-th was discovered by it or before it, unless the `j`-th is unexplored: then by the
      `h`-th at the latest, which is no later. */
  lemma ParentNoLater(steps: Graph, tree: Tree, h: nat, s: nat, j: nat, k: nat)
    requires WellFormed(steps, tree) && h <= |tree.order| && Explored(steps, tree, h, s)
    requires j < |tree.order| && 0 < k < |tree.order|
    requires tree.order[k] in steps(tree.order[j])
    ensures tree.parent[k] <= j
  {
    if j < h {
      var i := Index(steps(tree.order[j]), tree.order[k]);
      assert DiscoveredBy(steps, tree, j, i);
      var m :| 0 <= m < |tree.order| && tree.order[m] == steps(tree.order[j])[i]
               && (m == 0 || tree.parent[m] < j || (tree.parent[m] == j && StepOf(steps, tree, m) <= i));
      assert m == k;
    }
  }

  lemma CoveredThroughParent(steps: Graph, tree: Tree, j: nat, k: nat, w: seq<Location>)
    requires WellFormed(steps, tree) && InOrder(steps, tree) && j < |tree.order| && 0 < k < |tree.order|
    requires |w| >= 2 && Level(steps, tree, k) == |w| - 1 && w[|w| - 1] == tree.order[k]
    requires tree.parent[k] <= j && Level(steps, tree, tree.parent[k]) <= Level(steps, tree, j) <= |w| - 2
    requires Branch(steps, tree, j) == w[..|w| - 1] || Earlier(steps, Branch(steps, tree, j), w[..|w| - 1])
    ensures Branch(steps, tree, k) == w || Earlier(steps, Branch(steps, tree, k), w)
  {
    var p, v, end := tree.parent[k], w[..|w| - 1], [tree.order[k]];
    assert w == v + end;
    if p < j {
      BranchesInOrder(steps, tree, p, j);
      EarlierExtends(steps, Branch(steps, tree, p), Branch(steps, tree, j), end, []);
      if Earlier(steps, Branch(steps, tree, j), v) {
        EarlierTransitive(steps, Branch(steps, tree, p), Branch(steps, tree, j), v);
      }
      EarlierExtends(steps, Branch(steps, tree, p), v, end, end);
    } else if Branch(steps, tree, j) != v {
      EarlierExtends(steps, Branch(steps, tree, j), v, end, end);
    }
  }

  lemma EarlierTransitive(steps: Graph, u: seq<Location>, v: seq<Location>, w: seq<Location>)
    requires Earlier(steps, u, v) && Earlier(steps, v, w)
    ensures Earlier(steps, u, w)
  {
    var i :| 0 < i < |u| && i < |v| && Parts(steps, u, v, i);
    var j :| 0 < j < |v| && j < |w| && Parts(steps, v, w, j);
    if i < j {
      assert Parts(steps, u, w, i);
    } else {
      assert Parts(steps, u, w, j);
    }
  }

  /** Every discovered cell's branch is the walk preferred to it. */
  lemma BranchPreferred(steps: Graph, tree: Tree, h: nat, s: nat, k: nat)
    requires Grown(steps, tree, h, s) && k < |tree.order|
    ensures Preferred(steps, tree.order[0], tree.order[k], Branch(steps, tree, k))
  {
    forall v | WalkBetween(steps, tree.order[0], tree.order[k], v)
      ensures |Branch(steps, tree, k)| < |v| || v == Branch(steps, tree, k)
              || (|v| == |Branch(steps, tree, k)| && Earlier(steps, Branch(steps, tree, k), v))
    {
      TreeCoversWalks(steps, tree, h, s, v);
      assert Index(tree.order, tree.order[k]) == k;
    }
  }

  /** Once every discovered cell is explored, the tree holds every cell a walk reaches. */
  lemma TreeComplete(steps: Graph, tree: Tree, w: seq<Location>)
    requires Grown(steps, tree, |tree.order|, 0)
    requires Walk(steps, w) && w[0] == tree.order[0]
    ensures w[|w| - 1] in tree.order
  {
    TreeCoversWalks(steps, tree, |tree.order|, 0, w);
  }

  // ----- How a search grows its tree -----

  function Root(from: Location): Tree { Tree([from], [0]) }

  function Add(tree: Tree, h: nat, next: Location): Tree {
    Tree(tree.order + [next], tree.parent + [h])
  }

  lemma GrownAtRoot(steps: Graph, from: Location)
    ensures Grown(steps, Root(from), 0, 0)
  {
  }

  /** A step into a cell already discovered changes nothing. */
  lemma GrownPastSeen(steps: Graph, tree: Tree, h: nat, s: nat)
    requires Grown(steps, tree, h, s) && h < |tree.order| && s < |steps(tree.order[h])|
    requires steps(tree.order[h])[s] in tree.order
    ensures Grown(steps, tree, h, s + 1)
  {
    var m := Index(tree.order, steps(tree.order[h])[s]);
    assert DiscoveredBy(steps, tree, h, s);
  }

  /** A new cell is the last discovered, so the steps before it keep their discoverers. */
  lemma AddKeepsOrder(steps: Graph, tree: Tree, h: nat, s: nat)
    requires Grown(steps, tree, h, s) && h < |tree.order| && s < |steps(tree.order[h])|
    requires steps(tree.order[h])[s] !in tree.order
    ensures var grown := Add(tree, h, steps(tree.order[h])[s]);
            && WellFormed(steps, grown) && InOrder(steps, grown)
            && StepOf(steps, grown, |tree.order|) == s
            && forall k | 0 < k < |tree.order| :: StepOf(steps, grown, k) == StepOf(steps, tree, k)
  {
    var next := steps(tree.order[h])[s];
    var grown := Add(tree, h, next);
    NewStepIndex(steps, tree, h, s);
    assert WellFormed(steps, grown);
    assert forall k | 0 < k < |tree.order| :: StepOf(steps, grown, k) == StepOf(steps, tree, k);
    hide StepOf, DiscoveredBy;
  }

  lemma NewStepIndex(steps: Graph, tree: Tree, h: nat, s: nat)
    requires WellFormed(steps, tree) && h < |tree.order| && Explored(steps, tree, h, s) && s < |steps(tree.order[h])|
    requires steps(tree.order[h])[s] !in tree.order
    ensures Index(steps(tree.order[h]), steps(tree.order[h])[s]) == s
  {
    var next := steps(tree.order[h])[s];
    forall i | 0 <= i < s ensures steps(tree.order[h])[i] != next {
      assert DiscoveredBy(steps, tree, h, i);
    }
  }

  lemma AddKeepsDiscovery(steps: Graph, tree: Tree, grown: Tree, j: nat, i: nat)
    requires WellFormed(steps, tree) && WellFormed(steps, grown) && |tree.order| <= |grown.order|
    requires tree.order == grown.order[..|tree.order|] && tree.parent == grown.parent[..|tree.order|]
    requires j < |tree.order| && i < |steps(tree.order[j])| && DiscoveredBy(steps, tree, j, i)
    ensures DiscoveredBy(steps, grown, j, i)
  {
    var m :| 0 <= m < |tree.order| && tree.order[m] == steps(tree.order[j])[i]
             && (m == 0 || tree.parent[m] < j || (tree.parent[m] == j && StepOf(steps, tree, m) <= i));
    assert grown.order[m] == steps(grown.order[j])[i];
  }

  /** A step into a new cell discovers it. */
  lemma GrownByNew(steps: Graph, tree: Tree, h: nat, s: nat)
    requires Grown(steps, tree, h, s) && h < |tree.order| && s < |steps(tree.order[h])|
    requires steps(tree.order[h])[s] !in tree.order
    ensures Grown(steps, Add(tree, h, steps(tree.order[h])[s]), h, s + 1)
  {
    AddKeepsOrder(steps, tree, h, s);
    var grown := Add(tree, h, steps(tree.order[h])[s]);
    forall j, i | 0 <= j <= h && 0 <= i < |steps(grown.order[j])| && (j < h || i < s + 1)
      ensures DiscoveredBy(steps, grown, j, i)
    {
      if j == h && i == s {
        assert grown.order[|tree.order|] == steps(grown.order[j])[i];
      } else {
        AddKeepsDiscovery(steps, tree, grown, j, i);
      }
    }
  }

  /** A cell whose every step is taken is explored. */
  lemma GrownToNext(steps: Graph, tree: Tree, h: nat, s: nat)
    requires Grown(steps, tree, h, s) && h < |tree.order| && s == |steps(tree.order[h])|
    ensures Grown(steps, tree, h + 1, 0)
  {
  }
}
