/** The public map as command and operations each decode it: the exercise's
    sectors without their objectives. The two services' copies of this code are
    the same text, so they are one module here. */
module Terrain {
  import opened World

  datatype Grid = Grid(id: string, width: int, height: int, obstacles: seq<Point>, gates: seq<Gate>) {
    predicate Open(p: Point) {
      0 <= p.x < width && 0 <= p.y < height && p !in obstacles
    }
  }

  type Terrain = seq<Grid>

  /** What the exercise.started event carries of a map. */
  function Of(sectors: seq<Sector>): (t: Terrain)
    ensures |t| == |sectors|
    ensures forall i | 0 <= i < |t| :: t[i] == Grid(sectors[i].id, sectors[i].width, sectors[i].height,
                                                    sectors[i].obstacles, sectors[i].gates)
  {
    seq(|sectors|, i requires 0 <= i < |sectors| =>
      Grid(sectors[i].id, sectors[i].width, sectors[i].height, sectors[i].obstacles, sectors[i].gates))
  }

  function FindGrid(t: Terrain, id: string): (r: Option<Grid>)
    ensures r.Some? ==> r.value in t && r.value.id == id
  {
    if t == [] then None else if t[0].id == id then Some(t[0]) else FindGrid(t[1..], id)
  }

  /** Up, right, down, left: the order in which both services try a step. */
  const DIRECTIONS: seq<Point> := [Point(0, -1), Point(1, 0), Point(0, 1), Point(-1, 0)]

  function Neighbour(at: Point, d: nat): Point
    requires d < 4
  {
    Point(at.x + DIRECTIONS[d].x, at.y + DIRECTIONS[d].y)
  }

  /** The open cells next to `at`, of the first `n` directions. */
  function Adjacent(g: Grid, at: Point, n: nat): seq<Location>
    requires n <= 4
  {
    if n == 0 then []
    else
      var p := Neighbour(at, n - 1);
      Adjacent(g, at, n - 1) + if g.Open(p) then [Location(g.id, p)] else []
  }

  predicate Leads(t: Terrain, g: Gate, at: Point) {
    g.at == at && var to := FindGrid(t, g.to.sector); to.Some? && to.value.Open(g.to.point)
  }

  /** The traversals from `at` by the first `n` gates. */
  function Traversals(t: Terrain, gates: seq<Gate>, at: Point, n: nat): seq<Location>
    requires n <= |gates|
  {
    if n == 0 then []
    else Traversals(t, gates, at, n - 1) + if Leads(t, gates[n - 1], at) then [gates[n - 1].to] else []
  }

  /** The cells one step from `at`, in the order the services list them. */
  function Steps(t: Terrain, at: Location): seq<Location> {
    var g := FindGrid(t, at.sector);
    if g.None? then []
    else Adjacent(g.value, at.point, 4) + Traversals(t, g.value.gates, at.point, |g.value.gates|)
  }

  method ComputeSteps(t: Terrain, at: Location) returns (out: seq<Location>)
    ensures out == Steps(t, at)
  {
    var g := FindGrid(t, at.sector);
    out := [];
    if g.None? {
      return;
    }
    for d := 0 to 4
      invariant out == Adjacent(g.value, at.point, d)
    {
      var p := Neighbour(at.point, d);
      if g.value.Open(p) {
        out := out + [Location(g.value.id, p)];
      }
    }
    for i := 0 to |g.value.gates|
      invariant out == Adjacent(g.value, at.point, 4) + Traversals(t, g.value.gates, at.point, i)
    {
      if Leads(t, g.value.gates[i], at.point) {
        out := out + [g.value.gates[i].to];
      }
    }
  }

  lemma {:induction false} AdjacentMembers(g: Grid, at: Point, n: nat, l: Location)
    requires n <= 4
    ensures l in Adjacent(g, at, n) <==>
            l.sector == g.id && g.Open(l.point) && exists d: nat :: d < n && l.point == Neighbour(at, d)
  {
    if n > 0 {
      AdjacentMembers(g, at, n - 1, l);
    }
  }

  lemma {:induction false} TraversalMembers(t: Terrain, gates: seq<Gate>, at: Point, n: nat, l: Location)
    requires n <= |gates|
    ensures l in Traversals(t, gates, at, n) <==>
            exists i: nat :: i < n && Leads(t, gates[i], at) && gates[i].to == l
  {
    if n > 0 {
      TraversalMembers(t, gates, at, n - 1, l);
    }
  }

  /** A step enters an open cell next to `at`, or traverses a gate at `at` into an open cell. */
  ghost predicate IsStep(t: Terrain, at: Location, to: Location) {
    var g := FindGrid(t, at.sector);
    && g.Some?
    && (|| (to.sector == at.sector && g.value.Open(to.point)
            && Abs(to.point.x - at.point.x) + Abs(to.point.y - at.point.y) == 1)
        || exists k | k in g.value.gates :: Leads(t, k, at.point) && k.to == to)
  }

  lemma StepsAreTheLegalSteps(t: Terrain, at: Location, to: Location)
    ensures to in Steps(t, at) <==> IsStep(t, at, to)
  {
    var g := FindGrid(t, at.sector);
    if g.Some? {
      AdjacentMembers(g.value, at.point, 4, to);
      TraversalMembers(t, g.value.gates, at.point, |g.value.gates|, to);
      assert Neighbour(at.point, 0) == Point(at.point.x, at.point.y - 1);
      assert Neighbour(at.point, 1) == Point(at.point.x + 1, at.point.y);
      assert Neighbour(at.point, 2) == Point(at.point.x, at.point.y + 1);
      assert Neighbour(at.point, 3) == Point(at.point.x - 1, at.point.y);
      if to.sector == at.sector && Abs(to.point.x - at.point.x) + Abs(to.point.y - at.point.y) == 1 {
        assert exists d: nat :: d < 4 && to.point == Neighbour(at.point, d);
      }
    }
  }

  /** Every cell a step can enter: a finite set, so every search over it ends. */
  ghost function Cells(t: Terrain): set<Location> {
    set i, x, y | 0 <= i < |t| && 0 <= x < t[i].width && 0 <= y < t[i].height :: Location(t[i].id, Point(x, y))
  }

  lemma StepsStayInCells(t: Terrain, at: Location, to: Location)
    requires to in Steps(t, at)
    ensures to in Cells(t)
  {
    StepsAreTheLegalSteps(t, at, to);
    var g := FindGrid(t, to.sector);
    assert g.Some? && g.value.Open(to.point);
    var i :| 0 <= i < |t| && t[i] == g.value;
    assert 0 <= to.point.x < t[i].width && 0 <= to.point.y < t[i].height;
  }
}
