/** The exercise's map, and the text key of a cell. */
module World {
  import opened Keys

  datatype Point = Point(x: int, y: int)

  datatype Location = Location(sector: string, point: Point) {
    /** The cell's text, "sector:x,y": the key its service sorts and indexes by. */
    function Key(): string {
      sector + ":" + (Itoa(point.x) + "," + Itoa(point.y))
    }
  }

  datatype Gate = Gate(at: Point, to: Location)

  datatype Sector = Sector(id: string, width: int, height: int,
                           obstacles: seq<Point>, objectives: seq<Point>, gates: seq<Gate>) {
    predicate Inside(p: Point) {
      0 <= p.x < width && 0 <= p.y < height
    }
  }

  datatype Map = Map(sectors: seq<Sector>)

  datatype Option<+T> = None | Some(value: T)

  // ----- The words the services' events share -----

  /** An element's kind, which fixes how far it moves and sees. */
  datatype Kind = Squad | Scout | OtherKind(name: string) {
    function Moves(): nat { if Squad? then 1 else if Scout? then 2 else 0 }

    function Sight(): nat { if Squad? then 1 else if Scout? then 2 else 0 }

    function Operators(): nat { if Squad? then 4 else if Scout? then 1 else 0 }
  }

  datatype Status = Ready | Engaged | Recovering | OtherStatus(name: string)

  /** The rule command decides an element by. */
  datatype Rule = Retreat | Pursue | Engage | Reinforce | Secure | Search | Rescout | Hold

  /** One element's steps for a round, as operations issues and exercise records them. */
  datatype Order = Order(element: string, steps: seq<Location>, retreat: bool, pursue: bool)

  function Abs(n: int): int { if n < 0 then -n else n }

  /** The Chebyshev distance of two cells of one sector. */
  function Gap(p: Point, q: Point): int {
    var dx, dy := Abs(p.x - q.x), Abs(p.y - q.y);
    if dx < dy then dy else dx
  }

  /** The first sector with the ID, as the source's search returns it. */
  function FindSector(sectors: seq<Sector>, id: string): (r: Option<Sector>)
    ensures r.Some? ==> r.value in sectors && r.value.id == id
    ensures r.None? ==> forall s | s in sectors :: s.id != id
  {
    if sectors == [] then None
    else if sectors[0].id == id then Some(sectors[0])
    else FindSector(sectors[1..], id)
  }

  function FindGate(gates: seq<Gate>, p: Point): (r: Option<Gate>)
    ensures r.Some? ==> r.value in gates && r.value.at == p
    ensures r.None? ==> forall g | g in gates :: g.at != p
  {
    if gates == [] then None
    else if gates[0].at == p then Some(gates[0])
    else FindGate(gates[1..], p)
  }

  /** The cells of every objective, sector by sector in the map's order. */
  function Objectives(sectors: seq<Sector>): (r: seq<Location>)
    ensures forall l :: l in r <==>
                        exists s | s in sectors :: l.sector == s.id && l.point in s.objectives
  {
    if sectors == [] then []
    else
      var s := sectors[0];
      var here := seq(|s.objectives|, i requires 0 <= i < |s.objectives| => Location(s.id, s.objectives[i]));
      assert forall p | p in s.objectives :: Location(s.id, p) in here by {
        forall p | p in s.objectives ensures Location(s.id, p) in here {
          var i :| 0 <= i < |s.objectives| && s.objectives[i] == p;
          assert here[i] == Location(s.id, p);
        }
      }
      here + Objectives(sectors[1..])
  }

  ghost predicate Distinct<T>(s: seq<T>) {
    forall i, j | 0 <= i < j < |s| :: s[i] != s[j]
  }

  /** The cell inside the named sector's grid and clear of obstacles. */
  predicate Standable(m: Map, l: Location) {
    var s := FindSector(m.sectors, l.sector);
    s.Some? && s.value.Inside(l.point) && l.point !in s.value.obstacles
  }

  /** Gate `g` of sector `s` links to a gate of another sector that links back. */
  ghost predicate Linked(m: Map, s: Sector, g: Gate) {
    && g.to.sector != s.id
    && var to := FindSector(m.sectors, g.to.sector);
    && to.Some?
    && to.value.Inside(g.to.point)
    && var back := FindGate(to.value.gates, g.to.point);
    && back.Some?
    && back.value.to == Location(s.id, g.at)
  }

  /** Every feature lies on the grid, and no cell carries two. */
  ghost predicate ValidFeatures(s: Sector) {
    && (forall p | p in s.obstacles :: s.Inside(p))
    && (forall p | p in s.objectives :: s.Inside(p))
    && (forall g | g in s.gates :: s.Inside(g.at))
    && Distinct(s.obstacles)
    && Distinct(s.objectives)
    && (forall i, j | 0 <= i < j < |s.gates| :: s.gates[i].at != s.gates[j].at)
    && (forall p | p in s.obstacles :: p !in s.objectives)
    && (forall g | g in s.gates :: g.at !in s.obstacles && g.at !in s.objectives)
  }

  ghost predicate UniqueIds(sectors: seq<Sector>) {
    forall i, j | 0 <= i < j < |sectors| :: sectors[i].id != sectors[j].id
  }

  /** The map's rules, as its own check states them. */
  ghost predicate ValidMap(m: Map) {
    && UniqueIds(m.sectors)
    && (forall s | s in m.sectors ::
          s.id != "" && 1 <= s.width && 1 <= s.height && ValidFeatures(s)
          && forall g {:trigger Linked(m, s, g)} | g in s.gates :: Linked(m, s, g))
    && (exists s | s in m.sectors :: s.objectives != [])
  }

  /** In a map with unique IDs, the search by ID finds the sector itself. */
  lemma {:induction false} FindSectorUnique(sectors: seq<Sector>, s: Sector)
    requires UniqueIds(sectors) && s in sectors
    ensures FindSector(sectors, s.id) == Some(s)
  {
    if sectors[0] != s {
      assert s in sectors[1..];
      FindSectorUnique(sectors[1..], s);
    }
  }

  lemma {:induction false} FindGateUnique(gates: seq<Gate>, g: Gate)
    requires g in gates
    requires forall i, j | 0 <= i < j < |gates| :: gates[i].at != gates[j].at
    ensures FindGate(gates, g.at) == Some(g)
  {
    if gates[0] != g {
      assert g in gates[1..];
      FindGateUnique(gates[1..], g);
    }
  }

  /** No objective of a valid map is listed twice. */
  lemma {:induction false} ObjectivesDistinct(sectors: seq<Sector>)
    requires UniqueIds(sectors)
    requires forall s | s in sectors :: Distinct(s.objectives)
    ensures Distinct(Objectives(sectors))
  {
    if sectors != [] {
      var rest := Objectives(sectors[1..]);
      ObjectivesDistinct(sectors[1..]);
      assert forall l | l in rest :: l.sector != sectors[0].id;
    }
  }

  /** Two cells with one key are one cell, whatever their sectors' names hold. */
  lemma KeyInjective(a: Location, b: Location)
    requires a.Key() == b.Key()
    ensures a == b
  {
    var s, t := Itoa(a.point.x) + "," + Itoa(a.point.y), Itoa(b.point.x) + "," + Itoa(b.point.y);
    SplitAtLast(a.sector, s, b.sector, t, ':');
    SplitAtLast(Itoa(a.point.x), Itoa(a.point.y), Itoa(b.point.x), Itoa(b.point.y), ',');
    ItoaInjective(a.point.x, b.point.x);
    ItoaInjective(a.point.y, b.point.y);
  }

  /** The order of cells by key is total and strict, so a tie broken by it is broken. */
  lemma KeyOrderTotal(a: Location, b: Location)
    ensures Less(a.Key(), b.Key()) || a == b || Less(b.Key(), a.Key())
  {
    LessTotal(a.Key(), b.Key());
    if a.Key() == b.Key() {
      KeyInjective(a, b);
    }
  }
}
