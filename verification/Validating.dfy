/** The checks of a map and of a state, which list every rule one breaks. */
module Validating {
  import opened World
  import opened State
  import Sorting

  /** A rule a map breaks, and where: sectors are named by their place. */
  datatype Fault =
    | EmptyId(sector: nat)
    | DuplicateId(sector: nat)
    | BadGrid(sector: nat)
    | Outside(sector: nat, p: Point)
    | Shared(sector: nat, p: Point)
    | BadLink(sector: nat, g: Gate)
    | NoObjective

  function GateCells(gates: seq<Gate>): (r: seq<Point>)
    ensures |r| == |gates| && forall k | 0 <= k < |gates| :: r[k] == gates[k].at
  {
    seq(|gates|, k requires 0 <= k < |gates| => gates[k].at)
  }

  /** Every feature's cell, in the order the check walks them. */
  function Features(s: Sector): (r: seq<Point>)
    ensures |r| == |s.obstacles| + |s.objectives| + |s.gates|
  {
    s.obstacles + s.objectives + GateCells(s.gates)
  }

  /** The walk meets the obstacles, then the objectives, then the gates. */
  lemma FeaturesAt(s: Sector)
    ensures forall k | 0 <= k < |s.obstacles| :: Features(s)[k] == s.obstacles[k]
    ensures forall k | 0 <= k < |s.objectives| :: Features(s)[|s.obstacles| + k] == s.objectives[k]
    ensures forall k | 0 <= k < |s.gates| :: Features(s)[|s.obstacles| + |s.objectives| + k] == s.gates[k].at
  {
  }

  lemma NoFeatureFound(s: Sector, i: nat)
    ensures Seen(s, 0, {}) && FoundFeatures(s, i, 0, [])
  {
  }

  /** An earlier sector has the ID of sector `i`. */
  ghost predicate IdTaken(sectors: seq<Sector>, i: nat)
    requires i < |sectors|
  {
    exists j :: 0 <= j < i && sectors[j].id == sectors[i].id
  }

  /** The cell carries two of the first `n` features. */
  ghost predicate CarriesTwo(s: Sector, n: nat, p: Point)
    requires n <= |Features(s)|
  {
    exists b :: 0 <= b < n && Features(s)[b] == p && p in Features(s)[..b]
  }

  /** The map breaks the rule where the fault says. */
  ghost predicate Broken(m: Map, f: Fault) {
    match f
    case EmptyId(i) => i < |m.sectors| && m.sectors[i].id == ""
    case DuplicateId(i) => i < |m.sectors| && m.sectors[i].id != "" && IdTaken(m.sectors, i)
    case BadGrid(i) => i < |m.sectors| && (m.sectors[i].width < 1 || m.sectors[i].height < 1)
    case Outside(i, p) => i < |m.sectors| && p in Features(m.sectors[i]) && !m.sectors[i].Inside(p)
    case Shared(i, p) => i < |m.sectors| && CarriesTwo(m.sectors[i], |Features(m.sectors[i])|, p)
    case BadLink(i, g) => i < |m.sectors| && g in m.sectors[i].gates && !Linked(m, m.sectors[i], g)
    case NoObjective => forall s | s in m.sectors :: s.objectives == []
  }

  // ----- The checks -----

  /** Whether a gate's link leads to a gate of another sector that leads back. */
  method CheckLink(m: Map, s: Sector, g: Gate) returns (ok: bool)
    ensures ok <==> Linked(m, s, g)
  {
    if g.to.sector == s.id {
      return false;
    }
    var to := FindSector(m.sectors, g.to.sector);
    if to.None? {
      return false;
    }
    if !to.value.Inside(g.to.point) {
      return false;
    }
    var back := FindGate(to.value.gates, g.to.point);
    if back.None? {
      return false;
    }
    ok := back.value.to == Location(s.id, g.at);
  }

  /** The faults of the sectors' IDs alone. */
  ghost predicate IdFault(sectors: seq<Sector>, n: nat, f: Fault)
    requires n <= |sectors|
  {
    match f
    case EmptyId(i) => i < n && sectors[i].id == ""
    case DuplicateId(i) => i < n && sectors[i].id != "" && IdTaken(sectors, i)
    case _ => false
  }

  method CheckIds(sectors: seq<Sector>) returns (faults: seq<Fault>)
    ensures forall f :: f in faults <==> IdFault(sectors, |sectors|, f)
  {
    faults := [];
    var ids: set<string> := {};
    for i := 0 to |sectors|
      invariant forall id :: id in ids <==> exists j :: 0 <= j < i && sectors[j].id == id
      invariant forall f :: f in faults <==> IdFault(sectors, i, f)
    {
      var s := sectors[i];
      if s.id == "" {
        faults := faults + [EmptyId(i)];
      } else if s.id in ids {
        assert IdTaken(sectors, i);
        faults := faults + [DuplicateId(i)];
      }
      ids := ids + {s.id};
    }
  }

  /** The faults of the first `n` features of sector `i`. */
  ghost predicate FeatureFault(s: Sector, i: nat, n: nat, f: Fault)
    requires n <= |Features(s)|
  {
    match f
    case Outside(k, p) => k == i && p in Features(s)[..n] && !s.Inside(p)
    case Shared(k, p) => k == i && CarriesTwo(s, n, p)
    case _ => false
  }

  /** What the next feature adds: whether it lies outside, and whether its cell is taken. */
  function FeatureFaults(s: Sector, i: nat, p: Point, taken: bool): seq<Fault> {
    (if s.Inside(p) then [] else [Outside(i, p)]) + if taken then [Shared(i, p)] else []
  }

  lemma FeatureNext(s: Sector, i: nat, n: nat, f: Fault)
    requires n < |Features(s)|
    ensures var p := Features(s)[n];
            FeatureFault(s, i, n + 1, f)
            <==> FeatureFault(s, i, n, f) || f in FeatureFaults(s, i, p, p in Features(s)[..n])
  {
    var fs := Features(s);
    assert fs[..n + 1] == fs[..n] + [fs[n]];
    if f.Shared? && CarriesTwo(s, n + 1, f.p) {
      var b :| 0 <= b < n + 1 && fs[b] == f.p && f.p in fs[..b];
      assert b < n ==> CarriesTwo(s, n, f.p);
    }
    if f.Shared? && f.p == fs[n] && fs[n] in fs[..n] {
      assert fs[n] == f.p && f.p in fs[..n];
      assert CarriesTwo(s, n + 1, f.p);
    }
  }

  ghost predicate FoundFeatures(s: Sector, i: nat, n: nat, faults: seq<Fault>)
    requires n <= |Features(s)|
  {
    forall f :: f in faults <==> FeatureFault(s, i, n, f)
  }

  ghost predicate Seen(s: Sector, n: nat, seen: set<Point>)
    requires n <= |Features(s)|
  {
    forall p :: p in seen <==> p in Features(s)[..n]
  }

  /** One feature: its faults, and its cell taken. */
  method Feature(s: Sector, i: nat, ghost n: nat, p: Point, seen: set<Point>, faults: seq<Fault>)
    returns (seen': set<Point>, faults': seq<Fault>)
    requires n < |Features(s)| && p == Features(s)[n]
    requires Seen(s, n, seen) && FoundFeatures(s, i, n, faults)
    ensures Seen(s, n + 1, seen') && FoundFeatures(s, i, n + 1, faults')
  {
    seen', faults' := seen, faults;
    if !s.Inside(p) {
      faults' := faults' + [Outside(i, p)];
    }
    if p in seen {
      faults' := faults' + [Shared(i, p)];
    } else {
      seen' := seen' + {p};
    }
    assert Features(s)[..n + 1] == Features(s)[..n] + [p];
    forall f ensures f in faults' <==> FeatureFault(s, i, n + 1, f) {
      FeatureNext(s, i, n, f);
    }
  }

  /** Every feature of sector `i`, and every link of its gates. */
  method CheckFeatures(m: Map, i: nat) returns (faults: seq<Fault>, links: seq<Fault>)
    requires i < |m.sectors|
    ensures FoundFeatures(m.sectors[i], i, |Features(m.sectors[i])|, faults)
    ensures forall f :: f in links <==> f.BadLink? && f.sector == i && Broken(m, f)
  {
    hide Linked, FeatureFault, CarriesTwo, Features;
    var s := m.sectors[i];
    var seen: set<Point> := {};
    faults, links := [], [];
    FeaturesAt(s);
    NoFeatureFound(s, i);
    hide Seen, FoundFeatures;
    for k := 0 to |s.obstacles|
      invariant Seen(s, k, seen) && FoundFeatures(s, i, k, faults)
    {
      seen, faults := Feature(s, i, k, s.obstacles[k], seen, faults);
    }
    for k := 0 to |s.objectives|
      invariant Seen(s, |s.obstacles| + k, seen) && FoundFeatures(s, i, |s.obstacles| + k, faults)
    {
      seen, faults := Feature(s, i, |s.obstacles| + k, s.objectives[k], seen, faults);
    }
    ghost var before := |s.obstacles| + |s.objectives|;
    for k := 0 to |s.gates|
      invariant Seen(s, before + k, seen) && FoundFeatures(s, i, before + k, faults)
      invariant forall f :: f in links <==> f.BadLink? && f.sector == i && f.g in s.gates[..k] && !Linked(m, s, f.g)
    {
      seen, faults := Feature(s, i, before + k, s.gates[k].at, seen, faults);
      var ok := CheckLink(m, s, s.gates[k]);
      if !ok {
        links := links + [BadLink(i, s.gates[k])];
      }
      assert s.gates[..k + 1] == s.gates[..k] + [s.gates[k]];
    }
    assert s.gates[..|s.gates|] == s.gates;
  }

  /** The faults the check has met once it has walked the IDs and `n` sectors. */
  ghost predicate Met(m: Map, n: nat, f: Fault) {
    && Broken(m, f)
    && !f.NoObjective?
    && (f.EmptyId? || f.DuplicateId? || f.sector < n)
  }

  lemma MetNext(m: Map, n: nat, f: Fault)
    requires n < |m.sectors|
    ensures Met(m, n + 1, f) <==>
            || Met(m, n, f)
            || (f == BadGrid(n) && Broken(m, f))
            || FeatureFault(m.sectors[n], n, |Features(m.sectors[n])|, f)
            || (f.BadLink? && f.sector == n && Broken(m, f))
  {
    var s := m.sectors[n];
    assert Features(s)[..|Features(s)|] == Features(s);
  }

  /** The map's check: it lists a fault exactly when the map breaks its rule. */
  method ValidateMap(m: Map) returns (faults: seq<Fault>)
    ensures forall f :: f in faults <==> Broken(m, f)
    ensures faults == [] <==> ValidMap(m)
  {
    faults := CheckIds(m.sectors);
    var objectives := 0;
    assert forall f :: IdFault(m.sectors, |m.sectors|, f) <==> Met(m, 0, f);
    for i := 0 to |m.sectors|
      invariant forall f :: f in faults <==> Met(m, i, f)
      invariant 0 <= objectives
      invariant objectives == 0 <==> forall k | 0 <= k < i :: m.sectors[k].objectives == []
    {
      var s := m.sectors[i];
      ghost var before := faults;
      if s.width < 1 || s.height < 1 {
        faults := faults + [BadGrid(i)];
      }
      var more, links := CheckFeatures(m, i);
      faults := faults + more + links;
      objectives := objectives + |s.objectives|;
      forall f ensures f in faults <==> Met(m, i + 1, f) {
        MetNext(m, i, f);
      }
    }
    if objectives == 0 {
      faults := faults + [NoObjective];
    }
    NoFaultIsValid(m);
    if faults != [] {
      assert faults[0] in faults;
    }
  }

  // ----- No fault is exactly the map's rules -----

  lemma FeaturesOnce(s: Sector)
    requires forall p :: !CarriesTwo(s, |Features(s)|, p)
    ensures Distinct(Features(s))
  {
    var fs := Features(s);
    forall i, j | 0 <= i < j < |fs| ensures fs[i] != fs[j] {
      if fs[i] == fs[j] {
        assert fs[..j][i] == fs[j];
        assert CarriesTwo(s, |fs|, fs[j]);
      }
    }
  }

  /** A sector whose features lie inside, no two in one cell, and no other, has valid features. */
  lemma FeaturesValid(s: Sector)
    ensures ValidFeatures(s) <==> Distinct(Features(s)) && forall p | p in Features(s) :: s.Inside(p)
  {
    var fs, a, b := Features(s), |s.obstacles|, |s.obstacles| + |s.objectives|;
    assert forall k | 0 <= k < a :: fs[k] == s.obstacles[k];
    assert forall k | 0 <= k < |s.objectives| :: fs[a + k] == s.objectives[k];
    assert forall k | 0 <= k < |s.gates| :: fs[b + k] == s.gates[k].at;
    if Distinct(fs) && forall p | p in fs :: s.Inside(p) {
      FeaturesApart(s);
    }
    if ValidFeatures(s) {
      FeaturesTogether(s);
    }
  }

  lemma FeaturesApart(s: Sector)
    requires Distinct(Features(s)) && forall p | p in Features(s) :: s.Inside(p)
    ensures ValidFeatures(s)
  {
    var fs, a, b := Features(s), |s.obstacles|, |s.obstacles| + |s.objectives|;
    forall k | 0 <= k < a ensures s.obstacles[k] == fs[k] && s.Inside(s.obstacles[k]) {
      assert fs[k] in fs;
    }
    forall k | 0 <= k < |s.objectives| ensures s.objectives[k] == fs[a + k] && s.Inside(s.objectives[k]) {
      assert fs[a + k] in fs;
    }
    forall k | 0 <= k < |s.gates| ensures s.gates[k].at == fs[b + k] && s.Inside(s.gates[k].at) {
      assert fs[b + k] in fs;
    }
  }

  lemma FeaturesTogether(s: Sector)
    requires ValidFeatures(s)
    ensures Distinct(Features(s)) && forall p | p in Features(s) :: s.Inside(p)
  {
    var fs, a, b := Features(s), |s.obstacles|, |s.obstacles| + |s.objectives|;
    forall k | 0 <= k < |fs|
      ensures fs[k] == if k < a then s.obstacles[k] else if k < b then s.objectives[k - a] else s.gates[k - b].at
    {
    }
    forall i, j | 0 <= i < j < |fs| ensures fs[i] != fs[j] {
      assert i < a ==> s.obstacles[i] in s.obstacles;
      assert a <= i < b ==> s.objectives[i - a] in s.objectives;
      assert a <= j < b ==> s.objectives[j - a] in s.objectives;
      assert b <= j ==> s.gates[j - b] in s.gates;
    }
  }

  ghost predicate Faultless(m: Map) {
    forall f :: !Broken(m, f)
  }

  /** No rule is broken anywhere exactly when the map is valid. */
  lemma NoFaultIsValid(m: Map)
    ensures Faultless(m) <==> ValidMap(m)
  {
    if Faultless(m) {
      FaultlessIsValid(m);
    }
    if ValidMap(m) {
      forall f ensures !Broken(m, f) {
        ValidBreaksNone(m, f);
      }
    }
  }

  lemma FaultlessIsValid(m: Map)
    requires Faultless(m)
    ensures ValidMap(m)
  {
    forall i, j | 0 <= i < j < |m.sectors| ensures m.sectors[i].id != m.sectors[j].id {
      assert !Broken(m, DuplicateId(j)) && !Broken(m, EmptyId(j));
    }
    forall i | 0 <= i < |m.sectors|
      ensures var s := m.sectors[i];
              && s.id != "" && 1 <= s.width && 1 <= s.height && ValidFeatures(s)
              && forall g {:trigger Linked(m, s, g)} | g in s.gates :: Linked(m, s, g)
    {
      SectorOfFaultless(m, i);
    }
    assert !Broken(m, NoObjective);
  }

  lemma SectorOfFaultless(m: Map, i: nat)
    requires Faultless(m) && i < |m.sectors|
    ensures var s := m.sectors[i];
            && s.id != "" && 1 <= s.width && 1 <= s.height && ValidFeatures(s)
            && forall g {:trigger Linked(m, s, g)} | g in s.gates :: Linked(m, s, g)
  {
    var s := m.sectors[i];
    assert !Broken(m, EmptyId(i)) && !Broken(m, BadGrid(i));
    forall p ensures !CarriesTwo(s, |Features(s)|, p) {
      assert !Broken(m, Shared(i, p));
    }
    FeaturesOnce(s);
    forall p | p in Features(s) ensures s.Inside(p) {
      assert !Broken(m, Outside(i, p));
    }
    FeaturesValid(s);
    forall g | g in s.gates ensures Linked(m, s, g) {
      assert !Broken(m, BadLink(i, g));
    }
  }

  lemma ValidBreaksNone(m: Map, f: Fault)
    requires ValidMap(m)
    ensures !Broken(m, f)
  {
    if f.NoObjective? {
      var s :| s in m.sectors && s.objectives != [];
    } else if f.sector < |m.sectors| {
      var s := m.sectors[f.sector];
      assert s in m.sectors;
      FeaturesValid(s);
    }
  }

  // ----- The state's check -----

  /** A rule a state breaks, and where: elements are named by their place. */
  datatype StateFault =
    | OfMap(fault: Fault)
    | Unnamed
    | SameFactions
    | NoElementId(element: nat)
    | SameElementId(element: nat)
    | Foreign(element: nat)
    | UnknownKind(element: nat)
    | BadCrew(element: nat)
    | BadHealth(element: nat, health: int)
    | BadStrength(element: nat)
    | UnknownStatus(element: nat)
    | NoSector(element: nat)
    | OffGrid(element: nat)
    | OnObstacle(element: nat)
    | HolderOff(at: Location)
    | HolderForeign(at: Location)
    | ProgressOff(at: Location)
    | ProgressForeign(at: Location)
    | BadRounds(at: Location)

  /** An earlier element has the ID of element `i`. */
  ghost predicate ElementTaken(es: seq<Element>, i: nat)
    requires i < |es|
  {
    exists j :: 0 <= j < i && es[j].id == es[i].id
  }

  /** The rules of one element alone. */
  ghost predicate ElementBroken(m: Map, factions: (string, string), e: Element, i: nat, f: StateFault) {
    match f
    case Foreign(k) => k == i && !IsFaction(factions, e.faction)
    case UnknownKind(k) => k == i && e.kind.Operators() == 0
    case BadCrew(k) => k == i && e.kind.Operators() != 0 && !(1 <= |e.health| <= e.kind.Operators())
    case BadHealth(k, h) => k == i && h in e.health && !(1 <= h <= 100)
    case BadStrength(k) => k == i && e.strength != Sum(e.health)
    case UnknownStatus(k) => k == i && e.status.OtherStatus?
    case NoSector(k) => k == i && FindSector(m.sectors, e.at.sector).None?
    case OffGrid(k) => k == i && var s := FindSector(m.sectors, e.at.sector); s.Some? && !s.value.Inside(e.at.point)
    case OnObstacle(k) =>
      k == i && var s := FindSector(m.sectors, e.at.sector);
      s.Some? && s.value.Inside(e.at.point) && e.at.point in s.value.obstacles
    case _ => false
  }

  ghost predicate HoldingBroken(s: State, f: StateFault) {
    match f
    case HolderOff(l) => l in s.holders && l !in Objectives(s.world.sectors)
    case HolderForeign(l) => l in s.holders && !IsFaction(s.factions, s.holders[l])
    case ProgressOff(l) => l in s.progress && l !in Objectives(s.world.sectors)
    case ProgressForeign(l) => l in s.progress && !IsFaction(s.factions, s.progress[l].faction)
    case BadRounds(l) => l in s.progress && !(1 <= s.progress[l].rounds < CAPTURE_ROUNDS)
    case _ => false
  }

  /** The rules of the map, of the factions, and of the elements' IDs. */
  ghost predicate FrameBroken(s: State, f: StateFault) {
    match f
    case OfMap(g) => Broken(s.world, g)
    case Unnamed => s.factions.0 == "" || s.factions.1 == ""
    case SameFactions => s.factions.0 == s.factions.1 != ""
    case NoElementId(i) => i < |s.elements| && s.elements[i].id == ""
    case SameElementId(i) => i < |s.elements| && s.elements[i].id != "" && ElementTaken(s.elements, i)
    case _ => false
  }

  /** The rules of some element, whichever it is. */
  ghost predicate CrewBroken(s: State, n: nat, f: StateFault)
    requires n <= |s.elements|
  {
    exists i :: 0 <= i < n && ElementBroken(s.world, s.factions, s.elements[i], i, f)
  }

  /** The state breaks the rule where the fault says. */
  ghost predicate StateBroken(s: State, f: StateFault) {
    FrameBroken(s, f) || CrewBroken(s, |s.elements|, f) || HoldingBroken(s, f)
  }

  /** The health of an element's operators, and their sum. */
  method CheckHealth(health: seq<int>, i: nat) returns (faults: seq<StateFault>, sum: int)
    ensures sum == Sum(health)
    ensures forall f :: f in faults <==> f.BadHealth? && f.element == i && f.health in health && !(1 <= f.health <= 100)
  {
    faults, sum := [], 0;
    for k := 0 to |health|
      invariant sum + Sum(health[k..]) == Sum(health)
      invariant forall f :: f in faults <==>
                            f.BadHealth? && f.element == i && f.health in health[..k] && !(1 <= f.health <= 100)
    {
      var h := health[k];
      assert health[k..] == [h] + health[k + 1..] && health[..k + 1] == health[..k] + [h];
      if h < 1 || h > 100 {
        faults := faults + [BadHealth(i, h)];
      }
      sum := sum + h;
    }
    assert health[..|health|] == health;
  }

  /** Where an element stands. */
  method CheckPlace(m: Map, at: Location, i: nat) returns (faults: seq<StateFault>)
    ensures faults == PlaceFaults(m, at, i)
  {
    faults := [];
    var sec := FindSector(m.sectors, at.sector);
    if sec.None? {
      faults := [NoSector(i)];
    } else if !sec.value.Inside(at.point) {
      faults := [OffGrid(i)];
    } else if at.point in sec.value.obstacles {
      faults := [OnObstacle(i)];
    }
  }

  /** An element's faction and kind. */
  method CheckKind(factions: (string, string), e: Element, i: nat) returns (faults: seq<StateFault>)
    ensures faults == KindFaults(factions, e, i)
  {
    faults := [];
    if !IsFaction(factions, e.faction) {
      faults := faults + [Foreign(i)];
    }
    var n := e.kind.Operators();
    if n == 0 {
      faults := faults + [UnknownKind(i)];
    } else if |e.health| < 1 || |e.health| > n {
      faults := faults + [BadCrew(i)];
    }
  }

  function KindFaults(factions: (string, string), e: Element, i: nat): seq<StateFault> {
    (if IsFaction(factions, e.faction) then [] else [Foreign(i)])
    + if e.kind.Operators() == 0 then [UnknownKind(i)]
      else if 1 <= |e.health| <= e.kind.Operators() then [] else [BadCrew(i)]
  }

  function PlaceFaults(m: Map, at: Location, i: nat): seq<StateFault> {
    var s := FindSector(m.sectors, at.sector);
    if s.None? then [NoSector(i)]
    else if !s.value.Inside(at.point) then [OffGrid(i)]
    else if at.point in s.value.obstacles then [OnObstacle(i)]
    else []
  }

  function SumFaults(e: Element, i: nat): seq<StateFault> {
    (if e.strength == Sum(e.health) then [] else [BadStrength(i)])
    + if e.status.OtherStatus? then [UnknownStatus(i)] else []
  }

  lemma ElementFaultsAre(m: Map, factions: (string, string), e: Element, i: nat, f: StateFault)
    ensures ElementBroken(m, factions, e, i, f) <==>
            || f in KindFaults(factions, e, i)
            || (f.BadHealth? && f.element == i && f.health in e.health && !(1 <= f.health <= 100))
            || f in SumFaults(e, i)
            || f in PlaceFaults(m, e.at, i)
  {
    hide IsFaction, Sum, FindSector;
  }

  /** The rules one element breaks, checked on its own. */
  method CheckElement(m: Map, factions: (string, string), e: Element, i: nat) returns (faults: seq<StateFault>)
    ensures forall f :: f in faults <==> ElementBroken(m, factions, e, i, f)
  {
    hide ElementBroken, KindFaults, PlaceFaults, IsFaction, Sum, FindSector;
    var named := CheckKind(factions, e, i);
    var ofHealth, sum := CheckHealth(e.health, i);
    var rest: seq<StateFault> := [];
    if e.strength != sum {
      rest := rest + [BadStrength(i)];
    }
    if e.status.OtherStatus? {
      rest := rest + [UnknownStatus(i)];
    }
    assert rest == SumFaults(e, i);
    var placed := CheckPlace(m, e.at, i);
    faults := named + ofHealth + rest + placed;
    forall f ensures f in faults <==> ElementBroken(m, factions, e, i, f) {
      ElementFaultsAre(m, factions, e, i, f);
      assert f in faults <==> f in named || f in ofHealth || f in rest || f in placed;
    }
  }

  /** The elements' IDs and their own rules, one element at a time. */
  method CheckElements(s: State) returns (faults: seq<StateFault>)
    ensures forall f :: f in faults <==>
                        || ((f.NoElementId? || f.SameElementId?) && FrameBroken(s, f))
                        || CrewBroken(s, |s.elements|, f)
  {
    faults := [];
    var ids: set<string> := {};
    for i := 0 to |s.elements|
      invariant forall id :: id in ids <==> exists j :: 0 <= j < i && s.elements[j].id == id
      invariant forall f :: f in faults <==>
                            || ((f.NoElementId? || f.SameElementId?) && f.element < i && FrameBroken(s, f))
                            || CrewBroken(s, i, f)
    {
      var e := s.elements[i];
      ghost var before := faults;
      ghost var mine: seq<StateFault> := [];
      if e.id == "" {
        mine := [NoElementId(i)];
        faults := faults + [NoElementId(i)];
      } else if e.id in ids {
        assert ElementTaken(s.elements, i);
        mine := [SameElementId(i)];
        faults := faults + [SameElementId(i)];
      }
      ids := ids + {e.id};
      var more := CheckElement(s.world, s.factions, e, i);
      faults := faults + more;
      forall f ensures CrewBroken(s, i + 1, f) <==> CrewBroken(s, i, f) || f in more {
        CrewNext(s, i, f);
      }
      assert forall f :: f in faults <==> f in before || f in mine || f in more;
    }
  }

  lemma CrewNext(s: State, n: nat, f: StateFault)
    requires n < |s.elements|
    ensures CrewBroken(s, n + 1, f)
            <==> CrewBroken(s, n, f) || ElementBroken(s.world, s.factions, s.elements[n], n, f)
  {
  }

  function CellText(l: Location): string { l.Key() }

  /** The cells in the order of their keys, as the check walks a map of them. */
  method InKeyOrder(cells: set<Location>) returns (r: seq<Location>)
    ensures Sorting.StrictlySortedBy(r, CellText)
    ensures forall l :: l in r <==> l in cells
  {
    forall a, b | a in cells && b in cells && CellText(a) == CellText(b) ensures a == b {
      KeyInjective(a, b);
    }
    r := Sorting.Sorted(cells, CellText);
  }

  function HolderFaults(objectives: seq<Location>, factions: (string, string), l: Location, holder: string)
    : seq<StateFault>
  {
    (if l in objectives then [] else [HolderOff(l)]) + if IsFaction(factions, holder) then [] else [HolderForeign(l)]
  }

  function AdvanceFaults(objectives: seq<Location>, factions: (string, string), l: Location, p: Progress)
    : seq<StateFault>
  {
    (if l in objectives then [] else [ProgressOff(l)])
    + (if IsFaction(factions, p.faction) then [] else [ProgressForeign(l)])
    + if 1 <= p.rounds < CAPTURE_ROUNDS then [] else [BadRounds(l)]
  }

  /** What the holder of one cell adds. */
  method CheckHolder(objectives: seq<Location>, factions: (string, string), l: Location, holder: string)
    returns (faults: seq<StateFault>)
    ensures faults == HolderFaults(objectives, factions, l, holder)
  {
    faults := [];
    if l !in objectives {
      faults := faults + [HolderOff(l)];
    }
    if !IsFaction(factions, holder) {
      faults := faults + [HolderForeign(l)];
    }
  }

  /** What the progress on one cell adds. */
  method CheckAdvance(objectives: seq<Location>, factions: (string, string), l: Location, p: Progress)
    returns (faults: seq<StateFault>)
    ensures faults == AdvanceFaults(objectives, factions, l, p)
  {
    faults := [];
    if l !in objectives {
      faults := faults + [ProgressOff(l)];
    }
    if !IsFaction(factions, p.faction) {
      faults := faults + [ProgressForeign(l)];
    }
    if p.rounds < 1 || p.rounds >= CAPTURE_ROUNDS {
      faults := faults + [BadRounds(l)];
    }
  }

  /** A broken rule of a holder, or of progress, at one of the cells. */
  ghost predicate BrokenAmong(s: State, f: StateFault, holder: bool, cells: seq<Location>) {
    && HoldingBroken(s, f)
    && (if holder then f.HolderOff? || f.HolderForeign? else f.ProgressOff? || f.ProgressForeign? || f.BadRounds?)
    && f.at in cells
  }

  lemma BrokenAmongNext(s: State, f: StateFault, holder: bool, cells: seq<Location>, l: Location)
    requires if holder then l in s.holders else l in s.progress
    ensures BrokenAmong(s, f, holder, cells + [l]) <==>
            || BrokenAmong(s, f, holder, cells)
            || f in (if holder then HolderFaults(Objectives(s.world.sectors), s.factions, l, s.holders[l])
                     else AdvanceFaults(Objectives(s.world.sectors), s.factions, l, s.progress[l]))
  {
    hide Objectives, IsFaction;
  }

  /** The holders, in the order of their keys. */
  method CheckHolders(s: State) returns (faults: seq<StateFault>)
    ensures forall f :: f in faults <==> (f.HolderOff? || f.HolderForeign?) && HoldingBroken(s, f)
  {
    hide Objectives, Sorting.StrictlySortedBy, IsFaction, CellText, HolderFaults, AdvanceFaults;
    var objectives := Objectives(s.world.sectors);
    var held := InKeyOrder(s.holders.Keys);
    faults := [];
    for i := 0 to |held|
      invariant forall f :: f in faults <==> BrokenAmong(s, f, true, held[..i])
    {
      assert held[i] in held && held[..i + 1] == held[..i] + [held[i]];
      var more := CheckHolder(objectives, s.factions, held[i], s.holders[held[i]]);
      forall f ensures f in faults + more <==> BrokenAmong(s, f, true, held[..i + 1]) {
        BrokenAmongNext(s, f, true, held[..i], held[i]);
        assert f in faults + more <==> f in faults || f in more;
      }
      faults := faults + more;
    }
    assert held[..|held|] == held;
  }

  /** The progress, in the order of its keys. */
  method CheckProgress(s: State) returns (faults: seq<StateFault>)
    ensures forall f :: f in faults <==> (f.ProgressOff? || f.ProgressForeign? || f.BadRounds?) && HoldingBroken(s, f)
  {
    hide Objectives, Sorting.StrictlySortedBy, IsFaction, CellText, HolderFaults, AdvanceFaults;
    var objectives := Objectives(s.world.sectors);
    var underWay := InKeyOrder(s.progress.Keys);
    faults := [];
    for i := 0 to |underWay|
      invariant forall f :: f in faults <==> BrokenAmong(s, f, false, underWay[..i])
    {
      assert underWay[i] in underWay && underWay[..i + 1] == underWay[..i] + [underWay[i]];
      var more := CheckAdvance(objectives, s.factions, underWay[i], s.progress[underWay[i]]);
      forall f ensures f in faults + more <==> BrokenAmong(s, f, false, underWay[..i + 1]) {
        BrokenAmongNext(s, f, false, underWay[..i], underWay[i]);
        assert f in faults + more <==> f in faults || f in more;
      }
      faults := faults + more;
    }
    assert underWay[..|underWay|] == underWay;
  }

  /** The state's check: it lists a fault exactly when the state breaks its rule. */
  method ValidateState(s: State) returns (faults: seq<StateFault>)
    ensures forall f :: f in faults <==> StateBroken(s, f)
    ensures faults == [] <==> ValidState(s)
  {
    var ofMap := ValidateMap(s.world);
    faults := seq(|ofMap|, k requires 0 <= k < |ofMap| => OfMap(ofMap[k]));
    assert forall f: StateFault :: f in faults <==> f.OfMap? && f.fault in ofMap by {
      forall f: StateFault | f.OfMap? && f.fault in ofMap ensures f in faults {
        var k :| 0 <= k < |ofMap| && ofMap[k] == f.fault;
        assert faults[k] == f;
      }
    }
    if s.factions.0 == "" || s.factions.1 == "" {
      faults := faults + [Unnamed];
    } else if s.factions.0 == s.factions.1 {
      faults := faults + [SameFactions];
    }
    var ofElements := CheckElements(s);
    var ofHolders := CheckHolders(s);
    var ofProgress := CheckProgress(s);
    faults := faults + ofElements + ofHolders + ofProgress;
    NoStateFaultIsValid(s);
    if faults != [] {
      assert faults[0] in faults;
    }
  }

  ghost predicate StateFaultless(s: State) {
    forall f :: !StateBroken(s, f)
  }

  /** No rule is broken anywhere exactly when the state is valid. */
  lemma NoStateFaultIsValid(s: State)
    ensures StateFaultless(s) <==> ValidState(s)
  {
    hide StateBroken, ValidState;
    if StateFaultless(s) {
      StateFaultlessIsValid(s);
    }
    if ValidState(s) {
      forall f ensures !StateBroken(s, f) {
        ValidStateBreaksNone(s, f);
      }
    }
  }

  lemma ValidStateBreaksNone(s: State, f: StateFault)
    requires ValidState(s)
    ensures !StateBroken(s, f)
  {
    hide FrameBroken, HoldingBroken, ElementBroken, ValidElement;
    ValidFrameBreaksNone(s, f);
    ValidHoldingsBreakNone(s, f);
    forall i | 0 <= i < |s.elements| ensures !ElementBroken(s.world, s.factions, s.elements[i], i, f) {
      assert ValidElement(s.world, s.factions, s.elements[i]);
      ValidElementBreaksNone(s.world, s.factions, s.elements[i], i, f);
    }
  }

  lemma ValidFrameBreaksNone(s: State, f: StateFault)
    requires ValidState(s)
    ensures !FrameBroken(s, f)
  {
    hide ValidMap, Broken, ValidHoldings;
    if f.OfMap? {
      ValidBreaksNone(s.world, f.fault);
    } else if f.NoElementId? && f.element < |s.elements| {
      assert s.elements[f.element] in s.elements;
    }
  }

  lemma ValidHoldingsBreakNone(s: State, f: StateFault)
    requires ValidState(s)
    ensures !HoldingBroken(s, f)
  {
    hide ValidMap, ValidElement, Objectives, IsFaction;
  }

  lemma ValidElementBreaksNone(m: Map, factions: (string, string), e: Element, i: nat, f: StateFault)
    requires ValidElement(m, factions, e)
    ensures !ElementBroken(m, factions, e, i, f)
  {
  }

  lemma StateFaultlessIsValid(s: State)
    requires StateFaultless(s)
    ensures ValidState(s)
  {
    hide StateFaultless, ValidElement, ValidHoldings, ValidMap, UniqueElements;
    FrameOfFaultless(s);
    forall i | 0 <= i < |s.elements| ensures ValidElement(s.world, s.factions, s.elements[i]) {
      ElementOfFaultless(s, i);
    }
    HoldingsOfFaultless(s);
  }

  lemma FrameOfFaultless(s: State)
    requires StateFaultless(s)
    ensures ValidMap(s.world) && s.factions.0 != "" && s.factions.1 != "" && s.factions.0 != s.factions.1
    ensures UniqueElements(s.elements)
  {
    hide ValidMap, Broken, ElementBroken, HoldingBroken;
    forall f ensures !Broken(s.world, f) {
      assert !StateBroken(s, OfMap(f));
    }
    NoFaultIsValid(s.world);
    assert !StateBroken(s, Unnamed) && !StateBroken(s, SameFactions);
    forall i, j | 0 <= i < j < |s.elements| ensures s.elements[i].id != s.elements[j].id {
      assert !StateBroken(s, SameElementId(j)) && !StateBroken(s, NoElementId(j));
      assert !FrameBroken(s, SameElementId(j)) && !FrameBroken(s, NoElementId(j));
    }
  }

  lemma HoldingsOfFaultless(s: State)
    requires StateFaultless(s)
    ensures ValidHoldings(s.world, s.factions, s.holders, s.progress)
  {
    hide Objectives, IsFaction, FrameBroken, CrewBroken;
    forall l | l in s.holders ensures l in Objectives(s.world.sectors) && IsFaction(s.factions, s.holders[l]) {
      assert !StateBroken(s, HolderOff(l)) && !StateBroken(s, HolderForeign(l));
    }
    forall l | l in s.progress
      ensures && l in Objectives(s.world.sectors) && IsFaction(s.factions, s.progress[l].faction)
              && 1 <= s.progress[l].rounds < CAPTURE_ROUNDS
    {
      assert !StateBroken(s, ProgressOff(l)) && !StateBroken(s, ProgressForeign(l)) && !StateBroken(s, BadRounds(l));
    }
  }

  lemma ElementOfFaultless(s: State, i: nat)
    requires StateFaultless(s) && i < |s.elements|
    ensures ValidElement(s.world, s.factions, s.elements[i])
  {
    hide FrameBroken, HoldingBroken, Sum, IsFaction;
    var e := s.elements[i];
    forall f ensures !ElementBroken(s.world, s.factions, e, i, f) {
      assert !StateBroken(s, f);
    }
    NamedOfFaultless(s, i);
    ElementOfUnbroken(s.world, s.factions, e, i);
  }

  lemma NamedOfFaultless(s: State, i: nat)
    requires StateFaultless(s) && i < |s.elements|
    ensures s.elements[i].id != ""
  {
    assert !StateBroken(s, NoElementId(i));
    assert !FrameBroken(s, NoElementId(i));
  }

  lemma ElementOfUnbroken(m: Map, factions: (string, string), e: Element, i: nat)
    requires e.id != "" && forall f :: !ElementBroken(m, factions, e, i, f)
    ensures ValidElement(m, factions, e)
  {
    hide IsFaction, Sum;
    assert !ElementBroken(m, factions, e, i, Foreign(i)) && !ElementBroken(m, factions, e, i, UnknownKind(i));
    assert !ElementBroken(m, factions, e, i, BadCrew(i)) && !ElementBroken(m, factions, e, i, BadStrength(i));
    assert !ElementBroken(m, factions, e, i, UnknownStatus(i)) && !ElementBroken(m, factions, e, i, NoSector(i));
    assert !ElementBroken(m, factions, e, i, OffGrid(i)) && !ElementBroken(m, factions, e, i, OnObstacle(i));
    forall h | h in e.health ensures 1 <= h <= 100 {
      assert !ElementBroken(m, factions, e, i, BadHealth(i, h));
    }
  }
}
