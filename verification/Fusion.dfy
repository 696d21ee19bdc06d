/** Intelligence's picture: one faction's observations fused, and the loss alerts that reach it. */
module Fusion {
  import opened World
  import opened State
  import opened Sorting
  import opened Observing
  import Keys

  /** A known enemy element, as last seen in round `seen`, `age` rounds ago. */
  datatype Contact = Contact(element: Element, seen: int, age: int)

  /** A known objective: its holder when last seen or told of, in round `seen`. */
  datatype Belief = Belief(at: Location, holder: string, seen: int, age: int)

  /** The explored cells are a set here; the source lists them in a fixed order. */
  datatype Picture = Picture(round: int, own: seq<Element>, contacts: seq<Contact>, objectives: seq<Belief>,
                             explored: set<Location>, grid: seq<Sector>)

  function ContactId(c: Contact): string { c.element.id }

  function BeliefKey(o: Belief): string { o.at.Key() }

  function Max0(n: int): int { if n < 0 then 0 else n }

  function Open(grid: seq<Sector>): Picture {
    Picture(-1, [], [], [], {}, grid)
  }

  // ----- What fusing takes from each list -----

  /** A contact not observed again keeps its cell and ages, unless it is too old or its cell is in sight. */
  ghost predicate Remembered(prev: seq<Contact>, own: seq<Element>, observed: seq<Element>, round: int, k: int, c: Contact) {
    exists d :: d in prev && c == Contact(d.element, d.seen, round - d.seen)
                && (forall e | e in observed :: e.id != d.element.id)
                && c.age <= k && !Seen(own, d.element.at)
  }

  ghost predicate FusedContacts(prev: seq<Contact>, own: seq<Element>, observed: seq<Element>, round: int, k: int,
                                contacts: seq<Contact>)
  {
    && StrictlySortedBy(contacts, ContactId)
    && forall c :: c in contacts <==>
         (c.element in observed && c == Contact(c.element, round, 0)) || Remembered(prev, own, observed, round, k, c)
  }

  ghost predicate Lists(status: seq<ObjectiveStatus>, at: Location) {
    exists st :: st in status && st.at == at
  }

  /** What becomes of a belief: a sighting replaces it unless it is of a later round, and it ages to the round. */
  ghost predicate Updated(o: Belief, status: seq<ObjectiveStatus>, round: int, p: Belief) {
    if Lists(status, o.at) && o.seen <= round then
      ObjectiveStatus(o.at, p.holder) in status && p == Belief(o.at, p.holder, round, 0)
    else p == Belief(o.at, o.holder, o.seen, Max0(round - o.seen))
  }

  ghost predicate Believes(objectives: seq<Belief>, at: Location) {
    exists o :: o in objectives && o.at == at
  }

  ghost predicate FusedObjectives(prev: seq<Belief>, status: seq<ObjectiveStatus>, round: int, objectives: seq<Belief>) {
    && StrictlySortedBy(objectives, BeliefKey)
    && forall p :: p in objectives <==>
         (exists o :: o in prev && Updated(o, status, round, p))
         || (ObjectiveStatus(p.at, p.holder) in status && !Believes(prev, p.at) && p == Belief(p.at, p.holder, round, 0))
  }

  /** The cells inside their sectors' grids that an own element sees. */
  ghost predicate SeesInGrid(grid: seq<Sector>, own: seq<Element>, l: Location) {
    exists e, s :: e in own && s in grid && s.id == l.sector && Sees(e, l) && s.Inside(l.point)
  }

  ghost predicate IsFused(prev: Picture, obs: Observation, k: int, p: Picture) {
    && p.round == obs.round && p.grid == prev.grid
    && p.own == SortBy(obs.own, IdOf)
    && FusedContacts(prev.contacts, obs.own, obs.contacts, obs.round, k, p.contacts)
    && FusedObjectives(prev.objectives, obs.objectives, obs.round, p.objectives)
    && (forall l :: l in p.explored <==> l in prev.explored || SeesInGrid(prev.grid, obs.own, l))
  }

  /** Each list tells its members apart. */
  ghost predicate TellsApart(p: Picture) {
    && DistinctKeys(p.contacts, ContactId) && DistinctKeys(p.objectives, BeliefKey) && UniqueIds(p.grid)
  }

  ghost predicate ObservationTellsApart(obs: Observation) {
    && DistinctKeys(obs.own, IdOf) && DistinctKeys(obs.contacts, IdOf) && DistinctKeys(obs.objectives, StatusKey)
  }

  // ----- Fusing -----

  lemma UnlistedKey<T>(listed: seq<T>, key: T -> string, x: T)
    requires forall y | y in listed :: key(y) != key(x)
    ensures forall k | 0 <= k < |listed| :: key(listed[k]) != key(x)
  {
    forall k | 0 <= k < |listed| ensures key(listed[k]) != key(x) {
      assert listed[k] in listed;
    }
  }

  lemma SortedList<T>(listed: seq<T>, key: T -> string)
    requires DistinctKeys(listed, key)
    ensures StrictlySortedBy(SortBy(listed, key), key)
    ensures forall x :: x in SortBy(listed, key) <==> x in listed
  {
    SortByStrict(listed, key);
    SortByMembers(listed, key);
  }

  lemma StrictIsDistinct<T>(listed: seq<T>, key: T -> string)
    requires StrictlySortedBy(listed, key)
    ensures DistinctKeys(listed, key)
  {
    forall i, j | 0 <= i < j < |listed| ensures key(listed[i]) != key(listed[j]) {
      Keys.LessTotal(key(listed[i]), key(listed[j]));
    }
  }

  /** The contacts listed so far: everyone observed, and of the first `n` known those remembered. */
  ghost predicate ContactsAmong(prev: seq<Contact>, n: nat, own: seq<Element>, observed: seq<Element>, round: int, k: int,
                                contacts: seq<Contact>)
    requires n <= |prev|
  {
    && DistinctKeys(contacts, ContactId)
    && forall c :: c in contacts <==>
         (c.element in observed && c == Contact(c.element, round, 0))
         || Remembered(prev[..n], own, observed, round, k, c)
  }

  /** The `n`-th known contact is kept: nobody observed it, it is not too old, and its cell is out of sight. */
  predicate Kept(prev: seq<Contact>, n: nat, own: seq<Element>, observed: seq<Element>, round: int, k: int)
    requires n < |prev|
  {
    && (forall e | e in observed :: e.id != prev[n].element.id)
    && round - prev[n].seen <= k && !Seen(own, prev[n].element.at)
  }

  lemma ContactsNext(prev: seq<Contact>, n: nat, own: seq<Element>, observed: seq<Element>, round: int, k: int,
                     contacts: seq<Contact>)
    requires n < |prev| && DistinctKeys(prev, ContactId)
    requires ContactsAmong(prev, n, own, observed, round, k, contacts)
    ensures ContactsAmong(prev, n + 1, own, observed, round, k,
                          if Kept(prev, n, own, observed, round, k)
                          then contacts + [Contact(prev[n].element, prev[n].seen, round - prev[n].seen)]
                          else contacts)
  {
    var aged := Contact(prev[n].element, prev[n].seen, round - prev[n].seen);
    assert prev[..n + 1] == prev[..n] + [prev[n]];
    hide Seen;
    forall c ensures Remembered(prev[..n + 1], own, observed, round, k, c)
                     <==> Remembered(prev[..n], own, observed, round, k, c)
                          || (Kept(prev, n, own, observed, round, k) && c == aged) {
      if Remembered(prev[..n], own, observed, round, k, c) {
        var d :| d in prev[..n] && c == Contact(d.element, d.seen, round - d.seen)
                 && (forall e | e in observed :: e.id != d.element.id) && c.age <= k && !Seen(own, d.element.at);
        assert d in prev[..n + 1];
      }
      if Kept(prev, n, own, observed, round, k) && c == aged {
        assert prev[n] in prev[..n + 1];
      }
    }
    if Kept(prev, n, own, observed, round, k) {
      forall c | c in contacts ensures ContactId(c) != ContactId(aged) {
        if Remembered(prev[..n], own, observed, round, k, c) {
          var d :| d in prev[..n] && c == Contact(d.element, d.seen, round - d.seen);
          var m :| 0 <= m < n && prev[..n][m] == d;
          assert ContactId(prev[m]) != ContactId(prev[n]);
        }
      }
      UnlistedKey(contacts, ContactId, aged);
    }
  }

  method FuseContacts(prev: seq<Contact>, own: seq<Element>, observed: seq<Element>, round: int, k: int)
    returns (contacts: seq<Contact>)
    requires DistinctKeys(prev, ContactId) && DistinctKeys(observed, IdOf)
    ensures FusedContacts(prev, own, observed, round, k, contacts)
  {
    var ids: set<string>;
    contacts, ids := ListObserved(observed, round);
    ObservedFirst(prev, own, observed, round, k, contacts);
    for n := 0 to |prev|
      invariant ContactsAmong(prev, n, own, observed, round, k, contacts)
    {
      hide ContactsAmong, Seen;
      ContactsNext(prev, n, own, observed, round, k, contacts);
      var c := prev[n];
      var seen := SeenBy(own, c.element.at);
      if c.element.id !in ids && round - c.seen <= k && !seen {
        contacts := contacts + [Contact(c.element, c.seen, round - c.seen)];
      }
    }
    assert prev[..|prev|] == prev;
    SortedList(contacts, ContactId);
    contacts := SortBy(contacts, ContactId);
  }

  method ListObserved(observed: seq<Element>, round: int) returns (contacts: seq<Contact>, ids: set<string>)
    ensures |contacts| == |observed|
    ensures forall j | 0 <= j < |observed| :: contacts[j] == Contact(observed[j], round, 0)
    ensures forall id :: id in ids <==> exists e :: e in observed && e.id == id
  {
    contacts, ids := [], {};
    for i := 0 to |observed|
      invariant |contacts| == i && forall j | 0 <= j < i :: contacts[j] == Contact(observed[j], round, 0)
      invariant forall id :: id in ids <==> exists j :: 0 <= j < i && observed[j].id == id
    {
      ids := ids + {observed[i].id};
      contacts := contacts + [Contact(observed[i], round, 0)];
    }
  }

  lemma ObservedFirst(prev: seq<Contact>, own: seq<Element>, observed: seq<Element>, round: int, k: int,
                      contacts: seq<Contact>)
    requires DistinctKeys(observed, IdOf)
    requires |contacts| == |observed| && forall j | 0 <= j < |observed| :: contacts[j] == Contact(observed[j], round, 0)
    ensures ContactsAmong(prev, 0, own, observed, round, k, contacts)
  {
    forall i, j | 0 <= i < j < |contacts| ensures ContactId(contacts[i]) != ContactId(contacts[j]) {
      assert IdOf(observed[i]) != IdOf(observed[j]);
    }
    forall c ensures c in contacts <==> c.element in observed && c == Contact(c.element, round, 0) {
      if c.element in observed && c == Contact(c.element, round, 0) {
        var j :| 0 <= j < |observed| && observed[j] == c.element;
        assert contacts[j] == c;
      }
    }
  }

  /** The objectives' statuses by cell. */
  ghost predicate IsStatus(status: seq<ObjectiveStatus>, byCell: map<Location, string>) {
    forall at, holder :: (at in byCell && byCell[at] == holder) <==> ObjectiveStatus(at, holder) in status
  }

  method StatusByCell(status: seq<ObjectiveStatus>) returns (byCell: map<Location, string>)
    requires DistinctKeys(status, StatusKey)
    ensures IsStatus(status, byCell)
  {
    byCell := map[];
    for i := 0 to |status|
      invariant forall at, holder :: (at in byCell && byCell[at] == holder) <==> ObjectiveStatus(at, holder) in status[..i]
    {
      assert status[..i + 1] == status[..i] + [status[i]];
      forall j | 0 <= j < i ensures status[j].at != status[i].at {
        assert StatusKey(status[j]) != StatusKey(status[i]);
      }
      byCell := byCell[status[i].at := status[i].holder];
    }
    assert status[..|status|] == status;
  }

  /** A belief after the round, given what the round's statuses say of its cell. */
  function Refresh(o: Belief, byCell: map<Location, string>, round: int): Belief {
    if o.at in byCell && o.seen <= round then Belief(o.at, byCell[o.at], round, 0)
    else Belief(o.at, o.holder, o.seen, Max0(round - o.seen))
  }

  lemma RefreshUpdates(o: Belief, status: seq<ObjectiveStatus>, byCell: map<Location, string>, round: int, p: Belief)
    requires IsStatus(status, byCell)
    ensures Updated(o, status, round, p) <==> p == Refresh(o, byCell, round)
  {
    assert forall st | st in status :: st == ObjectiveStatus(st.at, st.holder);
    assert Lists(status, o.at) <==> o.at in byCell by {
      if o.at in byCell {
        assert ObjectiveStatus(o.at, byCell[o.at]) in status;
      }
      if st :| st in status && st.at == o.at {
        assert ObjectiveStatus(st.at, st.holder) in status;
      }
    }
    assert o.at in byCell ==> ObjectiveStatus(o.at, byCell[o.at]) in status;
    assert ObjectiveStatus(o.at, p.holder) in status <==> o.at in byCell && byCell[o.at] == p.holder;
  }

  method FuseObjectives(prev: seq<Belief>, status: seq<ObjectiveStatus>, round: int) returns (objectives: seq<Belief>)
    requires DistinctKeys(prev, BeliefKey) && DistinctKeys(status, StatusKey)
    ensures FusedObjectives(prev, status, round, objectives)
  {
    var byCell := StatusByCell(status);
    var left := byCell;
    objectives := [];
    for n := 0 to |prev|
      invariant |objectives| == n && forall j | 0 <= j < n :: objectives[j] == Refresh(prev[j], byCell, round)
      invariant left.Keys <= byCell.Keys
      invariant forall at :: at in left <==> at in byCell && forall j | 0 <= j < n :: prev[j].at != at
    {
      var o := prev[n];
      forall j | 0 <= j < n ensures prev[j].at != o.at {
        assert BeliefKey(prev[j]) != BeliefKey(prev[n]);
      }
      if o.at in left {
        var holder := byCell[o.at];
        left := left - {o.at};
        if o.seen <= round {
          o := Belief(o.at, holder, round, o.age);
        }
      }
      objectives := objectives + [Belief(o.at, o.holder, o.seen, Max0(round - o.seen))];
    }
    var found := ListFresh(byCell, left.Keys, round);
    JoinObjectives(prev, status, byCell, round, objectives, left.Keys, found);
    objectives := SortBy(objectives + found, BeliefKey);
  }

  /** The objectives seen for the first time, in any order. */
  method ListFresh(byCell: map<Location, string>, cells: set<Location>, round: int) returns (found: seq<Belief>)
    requires cells <= byCell.Keys
    ensures DistinctKeys(found, BeliefKey)
    ensures forall p :: p in found <==> p.at in cells && p == Belief(p.at, byCell[p.at], round, 0)
  {
    found := [];
    var left := cells;
    while left != {}
      invariant left <= cells
      invariant DistinctKeys(found, BeliefKey)
      invariant forall p :: p in found <==> p.at in cells && p.at !in left && p == Belief(p.at, byCell[p.at], round, 0)
    {
      var at :| at in left;
      var p := Belief(at, byCell[at], round, 0);
      forall q | q in found ensures BeliefKey(q) != BeliefKey(p) {
        if BeliefKey(q) == BeliefKey(p) {
          KeyInjective(q.at, at);
        }
      }
      UnlistedKey(found, BeliefKey, p);
      found := found + [p];
      left := left - {at};
    }
  }

  lemma JoinObjectives(prev: seq<Belief>, status: seq<ObjectiveStatus>, byCell: map<Location, string>, round: int,
                       known: seq<Belief>, cells: set<Location>, found: seq<Belief>)
    requires DistinctKeys(prev, BeliefKey) && IsStatus(status, byCell) && DistinctKeys(found, BeliefKey)
    requires |known| == |prev| && forall j | 0 <= j < |prev| :: known[j] == Refresh(prev[j], byCell, round)
    requires cells <= byCell.Keys && forall at :: at in cells <==> at in byCell && forall j | 0 <= j < |prev| :: prev[j].at != at
    requires forall p :: p in found <==> p.at in cells && p == Belief(p.at, byCell[p.at], round, 0)
    ensures FusedObjectives(prev, status, round, SortBy(known + found, BeliefKey))
  {
    var all := known + found;
    forall i, j | 0 <= i < j < |all| ensures BeliefKey(all[i]) != BeliefKey(all[j]) {
      if j < |known| {
        assert BeliefKey(prev[i]) != BeliefKey(prev[j]);
      } else if i < |known| {
        assert all[j] in found;
        if BeliefKey(all[i]) == BeliefKey(all[j]) {
          KeyInjective(all[i].at, all[j].at);
        }
      }
    }
    SortedList(all, BeliefKey);
    forall p ensures p in all <==>
                     (exists o :: o in prev && Updated(o, status, round, p))
                     || (ObjectiveStatus(p.at, p.holder) in status && !Believes(prev, p.at) && p == Belief(p.at, p.holder, round, 0)) {
      JoinedMember(prev, status, byCell, round, known, cells, found, p);
    }
  }

  lemma JoinedMember(prev: seq<Belief>, status: seq<ObjectiveStatus>, byCell: map<Location, string>, round: int,
                     known: seq<Belief>, cells: set<Location>, found: seq<Belief>, p: Belief)
    requires IsStatus(status, byCell)
    requires |known| == |prev| && forall j | 0 <= j < |prev| :: known[j] == Refresh(prev[j], byCell, round)
    requires cells <= byCell.Keys && forall at :: at in cells <==> at in byCell && forall j | 0 <= j < |prev| :: prev[j].at != at
    requires forall q :: q in found <==> q.at in cells && q == Belief(q.at, byCell[q.at], round, 0)
    ensures p in known <==> exists o :: o in prev && Updated(o, status, round, p)
    ensures p in found <==> ObjectiveStatus(p.at, p.holder) in status && !Believes(prev, p.at) && p == Belief(p.at, p.holder, round, 0)
  {
    forall o ensures Updated(o, status, round, p) <==> p == Refresh(o, byCell, round) {
      RefreshUpdates(o, status, byCell, round, p);
    }
    hide Updated, Refresh;
    if p in known {
      var j :| 0 <= j < |known| && known[j] == p;
      assert prev[j] in prev;
    }
    if o :| o in prev && Updated(o, status, round, p) {
      var j :| 0 <= j < |prev| && prev[j] == o;
      assert known[j] == p;
    }
    assert ObjectiveStatus(p.at, p.holder) in status <==> p.at in byCell && byCell[p.at] == p.holder;
    assert Believes(prev, p.at) <==> exists j :: 0 <= j < |prev| && prev[j].at == p.at by {
      if j :| 0 <= j < |prev| && prev[j].at == p.at {
        assert prev[j] in prev;
      }
    }
  }

  // ----- Exploring -----

  /** Adds the cells of a block of one sector, row by row. */
  method AddBlock(cells: set<Location>, id: string, left: int, right: int, top: int, bottom: int)
    returns (out: set<Location>)
    ensures forall l :: l in out <==> l in cells
                                      || (l.sector == id && left <= l.point.x <= right && top <= l.point.y <= bottom)
  {
    out := cells;
    var y := top;
    while y <= bottom
      invariant top <= y && (top <= bottom ==> y <= bottom + 1)
      invariant forall l :: l in out <==> l in cells
                                          || (l.sector == id && left <= l.point.x <= right && top <= l.point.y < y && y <= bottom + 1)
    {
      var row := out;
      var x := left;
      while x <= right
        invariant left <= x && (left <= right ==> x <= right + 1)
        invariant forall l :: l in out <==> l in row || (l.sector == id && l.point.y == y && left <= l.point.x < x && x <= right + 1)
      {
        out := out + {Location(id, Point(x, y))};
        x := x + 1;
      }
      y := y + 1;
    }
  }

  method Explore(grid: seq<Sector>, explored: set<Location>, own: seq<Element>) returns (cells: set<Location>)
    requires UniqueIds(grid)
    ensures forall l :: l in cells <==> l in explored || SeesInGrid(grid, own, l)
  {
    cells := explored;
    for i := 0 to |own|
      invariant forall l :: l in cells <==> l in explored || SeesInGrid(grid, own[..i], l)
    {
      var e := own[i];
      ghost var before := cells;
      var s := FindSector(grid, e.at.sector);
      if s.Some? {
        var r := e.kind.Sight();
        var right := if e.at.point.x + r < s.value.width - 1 then e.at.point.x + r else s.value.width - 1;
        var bottom := if e.at.point.y + r < s.value.height - 1 then e.at.point.y + r else s.value.height - 1;
        cells := AddBlock(cells, s.value.id, Max0(e.at.point.x - r), right, Max0(e.at.point.y - r), bottom);
      }
      forall l ensures l in cells <==> l in before || SeesInGrid(grid, [e], l) {
        SeenBlock(grid, e, l);
      }
      assert own[..i + 1] == own[..i] + [e];
      forall l ensures SeesInGrid(grid, own[..i + 1], l) <==> SeesInGrid(grid, own[..i], l) || SeesInGrid(grid, [e], l) {
        SeesInGridNext(grid, own[..i], e, l);
      }
    }
    assert own[..|own|] == own;
  }

  lemma SeesInGridNext(grid: seq<Sector>, own: seq<Element>, e: Element, l: Location)
    ensures SeesInGrid(grid, own + [e], l) <==> SeesInGrid(grid, own, l) || SeesInGrid(grid, [e], l)
  {
    if SeesInGrid(grid, own, l) {
      var d, s :| d in own && s in grid && s.id == l.sector && Sees(d, l) && s.Inside(l.point);
      assert d in own + [e];
    }
    if SeesInGrid(grid, [e], l) {
      var d, s :| d in [e] && s in grid && s.id == l.sector && Sees(d, l) && s.Inside(l.point);
      assert d in own + [e];
    }
  }

  lemma SeenBlock(grid: seq<Sector>, e: Element, l: Location)
    requires UniqueIds(grid)
    ensures SeesInGrid(grid, [e], l)
            <==> (var s, r: int := FindSector(grid, e.at.sector), e.kind.Sight();
                  s.Some? && l.sector == s.value.id && s.value.Inside(l.point)
                  && -r <= l.point.x - e.at.point.x <= r && -r <= l.point.y - e.at.point.y <= r)
  {
    var s := FindSector(grid, e.at.sector);
    forall t | t in grid {
      FindSectorUnique(grid, t);
    }
    if s.Some? && l.sector == s.value.id && s.value.Inside(l.point) && Sees(e, l) {
      assert e in [e];
    }
  }

  // ----- The picture -----

  /** The picture the round's observation makes of the one before. */
  method Fuse(prev: Picture, obs: Observation, k: int) returns (p: Picture)
    requires TellsApart(prev) && ObservationTellsApart(obs)
    ensures IsFused(prev, obs, k, p) && TellsApart(p)
  {
    var contacts := FuseContacts(prev.contacts, obs.own, obs.contacts, obs.round, k);
    var objectives := FuseObjectives(prev.objectives, obs.objectives, obs.round);
    var explored := Explore(prev.grid, prev.explored, obs.own);
    StrictIsDistinct(contacts, ContactId);
    StrictIsDistinct(objectives, BeliefKey);
    p := Picture(obs.round, SortBy(obs.own, IdOf), contacts, objectives, explored, prev.grid);
  }

  /** The picture an alert makes: its sighting stands unless a later one is listed. */
  ghost predicate IsAlerted(p: Picture, at: Location, holder: string, round: int, out: Picture, changed: bool) {
    if exists o :: o in p.objectives && o.at == at && o.seen > round then out == p && !changed
    else
      var told := Belief(at, holder, round, Max0(p.round - round));
      && out == p.(objectives := out.objectives)
      && StrictlySortedBy(out.objectives, BeliefKey)
      && (forall o :: o in out.objectives <==> o == told || (o in p.objectives && o.at != at))
      && (changed <==> told !in p.objectives)
  }

  method Alert(p: Picture, at: Location, holder: string, round: int) returns (out: Picture, changed: bool)
    requires StrictlySortedBy(p.objectives, BeliefKey)
    ensures IsAlerted(p, at, holder, round, out, changed)
  {
    StrictIsDistinct(p.objectives, BeliefKey);
    var told := Belief(at, holder, round, Max0(p.round - round));
    var i := 0;
    while i < |p.objectives| && p.objectives[i].at != at
      invariant i <= |p.objectives| && forall j | 0 <= j < i :: p.objectives[j].at != at
    {
      i := i + 1;
    }
    if i < |p.objectives| {
      forall j | 0 <= j < |p.objectives| && p.objectives[j].at == at ensures j == i {
        assert BeliefKey(p.objectives[j]) == BeliefKey(p.objectives[i]);
      }
      if p.objectives[i].seen > round {
        return p, false;
      }
      var objectives := p.objectives[i := told];
      ReplacedInPlace(p.objectives, i, told);
      return p.(objectives := objectives), p.objectives[i] != told;
    }
    assert forall o | o in p.objectives :: o.at != at;
    Appended(p.objectives, told);
    return p.(objectives := SortBy(p.objectives + [told], BeliefKey)), true;
  }

  lemma Appended(objectives: seq<Belief>, told: Belief)
    requires DistinctKeys(objectives, BeliefKey) && forall o | o in objectives :: o.at != told.at
    ensures StrictlySortedBy(SortBy(objectives + [told], BeliefKey), BeliefKey)
    ensures forall o :: o in SortBy(objectives + [told], BeliefKey) <==> o == told || o in objectives
  {
    forall o | o in objectives ensures BeliefKey(o) != BeliefKey(told) {
      if BeliefKey(o) == BeliefKey(told) {
        KeyInjective(o.at, told.at);
      }
    }
    UnlistedKey(objectives, BeliefKey, told);
    SortedList(objectives + [told], BeliefKey);
  }

  lemma ReplacedInPlace(objectives: seq<Belief>, i: nat, told: Belief)
    requires StrictlySortedBy(objectives, BeliefKey) && i < |objectives| && objectives[i].at == told.at
    requires forall j | 0 <= j < |objectives| && objectives[j].at == told.at :: j == i
    ensures StrictlySortedBy(objectives[i := told], BeliefKey)
    ensures forall o :: o in objectives[i := told] <==> o == told || (o in objectives && o.at != told.at)
  {
    var out := objectives[i := told];
    forall j | 0 <= j < |out| ensures BeliefKey(out[j]) == BeliefKey(objectives[j]) {
    }
    forall o ensures o in out <==> o == told || (o in objectives && o.at != told.at) {
      if o in objectives && o.at != told.at {
        var j :| 0 <= j < |objectives| && objectives[j] == o;
        assert out[j] == o;
      }
      assert out[i] == told;
    }
  }

  // ----- One picture for one history of reports -----

  lemma FusedUnique(prev: Picture, obs: Observation, k: int, a: Picture, b: Picture)
    requires IsFused(prev, obs, k, a) && IsFused(prev, obs, k, b)
    ensures a == b
  {
    SortedUnique(a.contacts, b.contacts, ContactId);
    SortedUnique(a.objectives, b.objectives, BeliefKey);
    assert a.explored == b.explored;
  }
}
