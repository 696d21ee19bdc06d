/** The skirmish every default exercise starts from: valid, settled, and the same for both factions, whatever is drawn. */
module Skirmishing {
  import opened World
  import opened State
  import opened Sorting
  import opened Keys

  const SIZE := 13
  const LAST := 12
  const SECTOR := "field"

  function Mirror(p: Point): Point { Point(LAST - p.x, LAST - p.y) }

  const CENTER := Point(6, 6)

  /** The numbers below a bound, in some order. */
  ghost predicate IsPermutation(draw: seq<nat>, n: nat) {
    |draw| == n && Distinct(draw) && forall i | 0 <= i < |draw| :: draw[i] < n
  }

  /** Whatever the seed draws: for each bound, an order of the numbers below it. */
  type Shuffle = nat -> seq<nat>

  ghost predicate Shuffles(perm: Shuffle) {
    forall n: nat :: IsPermutation(perm(n), n)
  }

  // ----- Objectives -----

  /** The north half of rows 3 to 9: the rows above the center, and the cells left of it on its own. */
  predicate InHalf(p: Point) {
    3 <= p.y <= CENTER.y && 0 <= p.x < SIZE && (p.y < CENTER.y || p.x < CENTER.x)
  }

  /** The half's cells before the given one, row by row. */
  predicate Earlier(p: Point, x: int, y: int) {
    p.y < y || (p.y == y && p.x < x)
  }

  method HalfCells() returns (half: seq<Point>)
    ensures Distinct(half) && forall p :: p in half <==> InHalf(p)
  {
    half := [];
    for y := 3 to CENTER.y + 1
      invariant Distinct(half) && forall p :: p in half <==> InHalf(p) && Earlier(p, 0, y)
    {
      for x := 0 to SIZE
        invariant Distinct(half) && forall p :: p in half <==> InHalf(p) && Earlier(p, x, y)
      {
        if y < CENTER.y || x < CENTER.x {
          assert Point(x, y) !in half;
          half := half + [Point(x, y)];
        }
      }
    }
  }

  /** The objectives are distinct cells of rows 3 to 9, and each one's mirror is one too. */
  ghost predicate Mirrored(objectives: seq<Point>) {
    && Distinct(objectives)
    && forall p | p in objectives :: 0 <= p.x < SIZE && 3 <= p.y <= 9 && Mirror(p) in objectives
  }

  /** The cells drawn so far, each with its mirror, after the center if it is one. */
  ghost predicate Drawn(half: seq<Point>, draw: seq<nat>, k: nat, centered: bool, objectives: seq<Point>)
    requires k <= |draw| && forall i | 0 <= i < |draw| :: draw[i] < |half|
  {
    && Distinct(objectives)
    && forall p :: p in objectives <==> (centered && p == CENTER) || exists i :: 0 <= i < k && (p == half[draw[i]] || p == Mirror(half[draw[i]]))
  }

  lemma DrawnNext(half: seq<Point>, draw: seq<nat>, k: nat, centered: bool, objectives: seq<Point>)
    requires k < |draw| && IsPermutation(draw, |half|) && Distinct(half) && forall p | p in half :: InHalf(p)
    requires Drawn(half, draw, k, centered, objectives)
    ensures Drawn(half, draw, k + 1, centered, objectives + [half[draw[k]], Mirror(half[draw[k]])])
  {
    var p := half[draw[k]];
    assert draw[k] in draw && p in half && InHalf(p);
    forall i | 0 <= i < k ensures half[draw[i]] != p && half[draw[i]] != Mirror(p) && Mirror(half[draw[i]]) != Mirror(p) && Mirror(half[draw[i]]) != p {
      assert draw[i] in draw && half[draw[i]] in half && InHalf(half[draw[i]]);
      assert draw[i] != draw[k];
    }
    assert p !in objectives && Mirror(p) !in objectives && p != Mirror(p);
    var more := objectives + [p, Mirror(p)];
    forall i, j | 0 <= i < j < |more| ensures more[i] != more[j] {
      if i < |objectives| {
        assert more[i] in objectives;
      }
    }
  }

  lemma DrawnIsMirrored(half: seq<Point>, draw: seq<nat>, k: nat, centered: bool, objectives: seq<Point>)
    requires k <= |draw| && IsPermutation(draw, |half|) && forall p | p in half :: InHalf(p)
    requires Drawn(half, draw, k, centered, objectives)
    ensures Mirrored(objectives)
  {
    forall p | p in objectives ensures 0 <= p.x < SIZE && 3 <= p.y <= 9 && Mirror(p) in objectives {
      if p != CENTER {
        var i :| 0 <= i < k && (p == half[draw[i]] || p == Mirror(half[draw[i]]));
        assert draw[i] in draw && half[draw[i]] in half && InHalf(half[draw[i]]);
        assert Mirror(Mirror(half[draw[i]])) == half[draw[i]];
      } else {
        assert Mirror(CENTER) == CENTER;
      }
    }
  }

  /** By row, then by column. */
  function InsertPoint(p: Point, ps: seq<Point>): (r: seq<Point>)
    ensures multiset(r) == multiset(ps) + multiset{p} && |r| == |ps| + 1
  {
    if ps == [] || p.y < ps[0].y || (p.y == ps[0].y && p.x < ps[0].x) then [p] + ps
    else
      assert ps == [ps[0]] + ps[1..];
      [ps[0]] + InsertPoint(p, ps[1..])
  }

  function SortPoints(ps: seq<Point>): (r: seq<Point>)
    ensures multiset(r) == multiset(ps) && |r| == |ps|
  {
    if ps == [] then []
    else
      assert ps == [ps[0]] + ps[1..];
      InsertPoint(ps[0], SortPoints(ps[1..]))
  }

  lemma SameMultisetDistinct<T>(a: seq<T>, b: seq<T>)
    requires multiset(a) == multiset(b) && Distinct(a)
    ensures Distinct(b) && forall x :: x in b <==> x in a
  {
    forall x ensures x in b <==> x in a {
      assert x in b <==> x in multiset(b);
      assert x in a <==> x in multiset(a);
    }
    forall i, j | 0 <= i < j < |b| ensures b[i] != b[j] {
      if b[i] == b[j] {
        TwoOccurrences(b, i, j);
        OneOccurrence(a, b[i]);
      }
    }
  }

  lemma TwoOccurrences<T>(s: seq<T>, i: nat, j: nat)
    requires i < j < |s| && s[i] == s[j]
    ensures multiset(s)[s[i]] >= 2
  {
    assert s == s[..j] + [s[j]] + s[j + 1..];
    assert s[..j][i] == s[i];
    assert s[i] in multiset(s[..j]);
  }

  lemma {:induction false} OneOccurrence<T>(s: seq<T>, x: T)
    requires Distinct(s)
    ensures multiset(s)[x] <= 1
  {
    if s != [] {
      var n := |s| - 1;
      assert s == s[..n] + [s[n]];
      OneOccurrence(s[..n], x);
      if s[n] == x {
        assert x !in s[..n];
        assert x !in multiset(s[..n]);
      }
    }
  }

  lemma MirroredSorted(ps: seq<Point>)
    requires Mirrored(ps)
    ensures Mirrored(SortPoints(ps)) && (ps != [] ==> SortPoints(ps) != [])
  {
    SameMultisetDistinct(ps, SortPoints(ps));
  }

  /** Three to five objectives: pairs drawn from the half with their mirrors, and the center when their number is odd. */
  method DrawObjectives(n: nat, perm: Shuffle) returns (objectives: seq<Point>)
    requires 3 <= n <= 5 && Shuffles(perm)
    ensures Mirrored(objectives) && |objectives| == n
  {
    var half := HalfCells();
    HalfIsLarge(half);
    var draw := perm(|half|);
    assert IsPermutation(draw, |half|);
    objectives := if n % 2 == 1 then [CENTER] else [];
    for k := 0 to n / 2
      invariant Drawn(half, draw, k, n % 2 == 1, objectives) && |objectives| == n % 2 + 2 * k
    {
      DrawnNext(half, draw, k, n % 2 == 1, objectives);
      hide Drawn;
      objectives := objectives + [half[draw[k]], Mirror(half[draw[k]])];
    }
    DrawnIsMirrored(half, draw, n / 2, n % 2 == 1, objectives);
    MirroredSorted(objectives);
    objectives := SortPoints(objectives);
  }

  lemma HalfIsLarge(half: seq<Point>)
    requires forall p :: p in half <==> InHalf(p)
    ensures |half| >= 2
  {
    var a, b := Point(0, 3), Point(1, 3);
    assert a in half && b in half;
    var i :| 0 <= i < |half| && half[i] == a;
    var j :| 0 <= j < |half| && half[j] == b;
  }

  // ----- Elements -----

  /** The kinds of a side, in the order of their numbers: three squads, then two scouts. */
  const KINDS := [Squad, Squad, Squad, Scout, Scout]

  /** Each faction's elements are named for its initial, or for its whole name when both have one initial. */
  function Prefixes(factions: (string, string)): (string, string)
    requires factions.0 != "" && factions.1 != ""
  {
    if factions.0[0] == factions.1[0] then factions else (factions.0[..1], factions.1[..1])
  }

  function Full(n: nat): seq<int> { seq(n, _ => 100) }

  function Digit(i: nat): char
    requires i < 5
  {
    "12345"[i]
  }

  /** One side's `i`-th element, in its home cell. */
  function Recruit(prefix: string, faction: string, i: nat, at: Point): Element
    requires i < 5
  {
    var k := KINDS[i];
    Element(prefix + [Digit(i)], faction, k, Sum(Full(k.Operators())), Full(k.Operators()), Ready, Location(SECTOR, at))
  }

  /** The first `n` of each side, drawn on the baselines. */
  ghost predicate Recruited(factions: (string, string), xs: seq<nat>, n: nat, es: seq<Element>)
    requires factions.0 != "" && factions.1 != "" && n <= 5 && n <= |xs|
  {
    && |es| == 2 * n
    && forall i | 0 <= i < n ::
         && es[2 * i] == Recruit(Prefixes(factions).0, factions.0, i, Point(xs[i], 0))
         && es[2 * i + 1] == Recruit(Prefixes(factions).1, factions.1, i, Mirror(Point(xs[i], 0)))
  }

  method Recruits(factions: (string, string), xs: seq<nat>) returns (es: seq<Element>)
    requires factions.0 != "" && factions.1 != "" && |xs| >= 5
    ensures Recruited(factions, xs, 5, es)
  {
    var prefixes := Prefixes(factions);
    es := [];
    for i := 0 to 5
      invariant Recruited(factions, xs, i, es)
    {
      hide Recruit, Prefixes;
      var home := Point(xs[i], 0);
      es := es + [Recruit(prefixes.0, factions.0, i, home), Recruit(prefixes.1, factions.1, i, Mirror(home))];
    }
  }

  lemma PrefixesApart(factions: (string, string), i: nat, j: nat)
    requires factions.0 != "" && factions.1 != "" && factions.0 != factions.1 && i < 5 && j < 5
    ensures Prefixes(factions).0 + [Digit(i)] != Prefixes(factions).1 + [Digit(j)]
  {
    var (a, b) := Prefixes(factions);
    assert factions.0[..1] == [factions.0[0]] && factions.1[..1] == [factions.1[0]];
    LastDropped(a, Digit(i), b, Digit(j));
  }

  lemma LastDropped(a: string, c: char, b: string, d: char)
    ensures a + [c] == b + [d] ==> a == b
  {
    assert (a + [c])[..|a|] == a && (b + [d])[..|b|] == b;
    assert |a + [c]| == |a| + 1 && |b + [d]| == |b| + 1;
  }

  lemma DigitsApart(prefix: string, i: nat, j: nat)
    requires i < 5 && j < 5 && i != j
    ensures prefix + [Digit(i)] != prefix + [Digit(j)]
  {
    assert (prefix + [Digit(i)])[|prefix|] == Digit(i) && (prefix + [Digit(j)])[|prefix|] == Digit(j);
  }

  lemma {:induction false} FullFacts(n: nat)
    ensures (forall h | h in Full(n) :: h == 100) && |Full(n)| == n
  {
  }

  ghost predicate OneApart(e: Element, f: Element) {
    e.id != f.id && e.at != f.at
  }

  /** No two elements share an ID or a cell. */
  lemma RecruitsApart(factions: (string, string), xs: seq<nat>, es: seq<Element>, i: nat, j: nat)
    requires factions.0 != "" && factions.1 != "" && factions.0 != factions.1
    requires IsPermutation(xs, SIZE) && Recruited(factions, xs, 5, es) && i < j < |es|
    ensures OneApart(es[i], es[j])
  {
    var m, n := i / 2, j / 2;
    assert es[2 * m] == Recruit(Prefixes(factions).0, factions.0, m, Point(xs[m], 0));
    assert es[2 * m + 1] == Recruit(Prefixes(factions).1, factions.1, m, Mirror(Point(xs[m], 0)));
    assert es[2 * n] == Recruit(Prefixes(factions).0, factions.0, n, Point(xs[n], 0));
    assert es[2 * n + 1] == Recruit(Prefixes(factions).1, factions.1, n, Mirror(Point(xs[n], 0)));
    assert i == 2 * m || i == 2 * m + 1;
    assert j == 2 * n || j == 2 * n + 1;
    hide Prefixes;
    PrefixesApart(factions, m, n);
    PrefixesApart(factions, n, m);
    if m != n {
      DigitsApart(Prefixes(factions).0, m, n);
      DigitsApart(Prefixes(factions).1, m, n);
      assert xs[m] != xs[n];
    }
  }

  lemma RecruitIsValid(m: Map, factions: (string, string), prefix: string, f: string, i: nat, at: Point)
    requires IsFaction(factions, f) && i < 5 && Standable(m, Location(SECTOR, at))
    ensures ValidElement(m, factions, Recruit(prefix, f, i, at)) && Recruit(prefix, f, i, at).status.Ready?
  {
    FullFacts(KINDS[i].Operators());
    hide Standable;
  }

  // ----- The skirmish -----

  function Field(objectives: seq<Point>): Map {
    Map([Sector(SECTOR, SIZE, SIZE, [], objectives, [])])
  }

  lemma FieldIsValid(objectives: seq<Point>)
    requires Mirrored(objectives) && objectives != []
    ensures ValidMap(Field(objectives))
    ensures forall p: Point | 0 <= p.x < SIZE && 0 <= p.y < SIZE :: Standable(Field(objectives), Location(SECTOR, p))
    ensures Objectives(Field(objectives).sectors) == seq(|objectives|, i requires 0 <= i < |objectives| => Location(SECTOR, objectives[i])) + []
  {
    var m := Field(objectives);
    var s := m.sectors[0];
    assert s in m.sectors && s.objectives != [];
    assert ValidFeatures(s) by {
      forall p | p in s.objectives ensures s.Inside(p) {
      }
    }
    assert FindSector(m.sectors, SECTOR) == Some(s);
    assert m.sectors[1..] == [];
  }

  function MirrorOf(l: Location): Location { Location(l.sector, Mirror(l.point)) }

  /** The element's counterpart: of the other faction, the same in kind, strength and status, in the mirrored cell. */
  ghost predicate Counterparts(s: State, e: Element, f: Element) {
    && e.faction != f.faction && f.kind == e.kind && f.strength == e.strength && f.health == e.health && f.status == e.status
    && f.at == MirrorOf(e.at)
  }

  /** The state is the same seen from either side. */
  ghost predicate Symmetric(s: State) {
    && (forall l | l in Objectives(s.world.sectors) :: MirrorOf(l) in Objectives(s.world.sectors))
    && (forall e | e in s.elements :: exists f :: f in s.elements && Counterparts(s, e, f))
    && s.holders == map[] && s.progress == map[]
  }

  /** No two members of the list share an ID or a cell, unless they are one. */
  ghost predicate AllApart(es: seq<Element>) {
    forall e, f | e in es && f in es && e != f :: OneApart(e, f)
  }

  lemma RecruitsAllApart(factions: (string, string), xs: seq<nat>, es: seq<Element>)
    requires factions.0 != "" && factions.1 != "" && factions.0 != factions.1
    requires IsPermutation(xs, SIZE) && Recruited(factions, xs, 5, es)
    ensures AllApart(es) && DistinctKeys(es, IdOf) && |es| == 10
  {
    hide IsPermutation;
    assert |es| == 10;
    hide Recruited;
    forall i, j | 0 <= i < j < |es| ensures OneApart(es[i], es[j]) {
      RecruitsApart(factions, xs, es, i, j);
    }
    forall e, f | e in es && f in es && e != f ensures OneApart(e, f) {
      var i :| 0 <= i < |es| && es[i] == e;
      var j :| 0 <= j < |es| && es[j] == f;
      assert i < j ==> OneApart(es[i], es[j]);
      assert j < i ==> OneApart(es[j], es[i]);
    }
  }

  lemma RecruitsAreValid(factions: (string, string), m: Map, xs: seq<nat>, es: seq<Element>)
    requires factions.0 != "" && factions.1 != "" && IsPermutation(xs, SIZE) && Recruited(factions, xs, 5, es)
    requires forall p: Point | 0 <= p.x < SIZE && 0 <= p.y < SIZE :: Standable(m, Location(SECTOR, p))
    ensures forall e | e in es :: ValidElement(m, factions, e) && e.status.Ready?
  {
    hide Prefixes, Standable, ValidElement, Recruit;
    forall e | e in es ensures ValidElement(m, factions, e) && e.status.Ready? {
      var k :| 0 <= k < |es| && es[k] == e;
      var i := k / 2;
      assert k == 2 * i || k == 2 * i + 1;
      assert es[2 * i] == Recruit(Prefixes(factions).0, factions.0, i, Point(xs[i], 0));
      RecruitIsValid(m, factions, Prefixes(factions).0, factions.0, i, Point(xs[i], 0));
      RecruitIsValid(m, factions, Prefixes(factions).1, factions.1, i, Mirror(Point(xs[i], 0)));
    }
  }

  /** Elements apart, all ready, are settled: no cell is contested. */
  lemma ApartIsSettled(es: seq<Element>)
    requires AllApart(es) && forall e | e in es :: e.status.Ready?
    ensures Settled(es)
  {
    forall i, j | 0 <= i < |es| && 0 <= j < |es| && es[i].at == es[j].at ensures es[i] == es[j] {
      assert es[i] != es[j] ==> OneApart(es[i], es[j]);
    }
    forall e | e in es ensures Fits(es, e) {
    }
  }

  lemma RecruitsMirrored(s: State, xs: seq<nat>, es: seq<Element>)
    requires s.factions.0 != "" && s.factions.1 != "" && s.factions.0 != s.factions.1
    requires |xs| >= 5 && Recruited(s.factions, xs, 5, es) && forall e :: e in s.elements <==> e in es
    ensures forall e | e in s.elements :: exists f :: f in s.elements && Counterparts(s, e, f)
  {
    hide Prefixes, Full;
    forall e | e in s.elements ensures exists f :: f in s.elements && Counterparts(s, e, f) {
      var k :| 0 <= k < |es| && es[k] == e;
      var i := k / 2;
      assert k == 2 * i || k == 2 * i + 1;
      assert es[2 * i] == Recruit(Prefixes(s.factions).0, s.factions.0, i, Point(xs[i], 0));
      var f := es[if k == 2 * i then 2 * i + 1 else 2 * i];
      assert Mirror(Mirror(Point(xs[i], 0))) == Point(xs[i], 0);
      assert f in es && Counterparts(s, e, f);
    }
  }

  lemma SortedElements(es: seq<Element>)
    requires DistinctKeys(es, IdOf)
    ensures var out := SortBy(es, IdOf);
            StrictlySortedBy(out, IdOf) && UniqueElements(out) && |out| == |es| && forall e :: e in out <==> e in es
  {
    SortByStrict(es, IdOf);
    SortByMembers(es, IdOf);
    var out := SortBy(es, IdOf);
    forall i, j | 0 <= i < j < |out| ensures out[i].id != out[j].id {
      LessTotal(IdOf(out[i]), IdOf(out[j]));
    }
  }

  lemma FieldSymmetric(objectives: seq<Point>)
    requires Mirrored(objectives)
    requires Objectives(Field(objectives).sectors) == seq(|objectives|, i requires 0 <= i < |objectives| => Location(SECTOR, objectives[i])) + []
    ensures forall l | l in Objectives(Field(objectives).sectors) :: MirrorOf(l) in Objectives(Field(objectives).sectors)
    ensures |Objectives(Field(objectives).sectors)| == |objectives|
  {
    var ls := seq(|objectives|, i requires 0 <= i < |objectives| => Location(SECTOR, objectives[i]));
    assert ls + [] == ls;
    forall l | l in ls ensures MirrorOf(l) in ls {
      var i :| 0 <= i < |ls| && ls[i] == l;
      assert objectives[i] in objectives;
      var j :| 0 <= j < |objectives| && objectives[j] == Mirror(objectives[i]);
      assert ls[j] == MirrorOf(l);
    }
  }

  lemma SkirmishIsValid(factions: (string, string), objectives: seq<Point>, xs: seq<nat>, es: seq<Element>)
    requires factions.0 != "" && factions.1 != "" && factions.0 != factions.1
    requires Mirrored(objectives) && objectives != [] && IsPermutation(xs, SIZE) && |xs| >= 5 && Recruited(factions, xs, 5, es)
    ensures var s := State(Field(objectives), factions, SortBy(es, IdOf), map[], map[]);
            && ValidState(s) && Settled(s.elements) && Symmetric(s) && StrictlySortedBy(s.elements, IdOf) && |s.elements| == 10
            && |Objectives(s.world.sectors)| == |objectives|
  {
    hide Mirrored, IsPermutation, Recruited, Field, StrictlySortedBy, Settled, AllApart, DistinctKeys, ValidElement, ValidMap,
         Counterparts, Standable, Objectives, UniqueElements;
    var s := State(Field(objectives), factions, SortBy(es, IdOf), map[], map[]);
    FieldIsValid(objectives);
    FieldSymmetric(objectives);
    RecruitsAllApart(factions, xs, es);
    SortedElements(es);
    RecruitsAreValid(factions, Field(objectives), xs, es);
    assert AllApart(s.elements) by {
      SameApart(es, s.elements);
    }
    ApartIsSettled(s.elements);
    RecruitsMirrored(s, xs, es);
  }

  lemma SameApart(es: seq<Element>, fs: seq<Element>)
    requires AllApart(es) && forall e :: e in fs <==> e in es
    ensures AllApart(fs)
  {
  }

  /** The start of a skirmish between two named factions, for any draw of the objectives' number, of their cells, and of
      the home cells. */
  method Skirmish(factions: (string, string), n: nat, perm: Shuffle) returns (s: State)
    requires factions.0 != "" && factions.1 != "" && factions.0 != factions.1 && 3 <= n <= 5 && Shuffles(perm)
    ensures ValidState(s) && Settled(s.elements) && Symmetric(s)
    ensures s.factions == factions && |s.elements| == 10 && |Objectives(s.world.sectors)| == n
    ensures StrictlySortedBy(s.elements, IdOf)
  {
    var objectives := DrawObjectives(n, perm);
    var homes := perm(SIZE);
    assert IsPermutation(homes, SIZE);
    var es := Recruits(factions, homes);
    s := State(Field(objectives), factions, SortBy(es, IdOf), map[], map[]);
    assert |homes| >= 5 && objectives != [];
    hide *;
    SkirmishIsValid(factions, objectives, homes, es);
  }
}
