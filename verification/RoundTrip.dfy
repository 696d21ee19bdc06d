/** Decoding what was encoded: the event again, however its headers are ordered and spelt, and whatever others join them. */
module RoundTrip {
  import opened World
  import opened Events
  import opened Codec

  /** The event as decoding gives it: its time in UTC, and no empty data or extensions. */
  function Normal(e: Event): Event {
    e.(time := if e.time.instant == NO_TIME.instant then NO_TIME else Time(e.time.instant, UTC),
       data := if e.data == Some([]) then None else e.data,
       extensions := if e.extensions == Some(map[]) then None else e.extensions)
  }

  /** The other header says what the first does, in any spelling of its names; what it adds is nothing of an event, or has
      no value. */
  ghost predicate Carries(h: Header, g: Header) {
    && (forall k | k in h :: exists j :: j in g && Lower(j) == k)
    && (forall j | j in g :: if Lower(j) in h then g[j] == h[Lower(j)] else g[j] == [] || SlotOf(Lower(j)).None?)
  }

  /** Times written in UTC are read back. */
  ghost predicate Inverts(clock: Clockwork, t: Time) {
    t.instant != NO_TIME.instant ==> clock.parse(clock.format(t.instant)) == Some(Time(t.instant, UTC))
  }

  // ----- What reading some of the headers gives -----

  function Known(e: Event, seen: set<Slot>): map<string, string> {
    map name | name in Extensions(e) && Extension(name) in seen :: Extensions(e)[name]
  }

  function Part(e: Event, seen: set<Slot>): Draft {
    Draft(Event(if Id in seen then e.id else "",
                if Source in seen then e.source else "",
                if Type in seen then e.typ else "",
                if Subject in seen then e.subject else "",
                if ContentType in seen then e.dataContentType else "",
                if Schema in seen then e.dataSchema else "",
                if When in seen then Time(e.time.instant, UTC) else NO_TIME,
                None,
                if Known(e, seen) == map[] then None else Some(Known(e, seen))),
          if Version in seen then SPEC_VERSION else "")
  }

  lemma PartSees(e: Event, clock: Clockwork, seen: set<Slot>, slot: Slot)
    requires Inverts(clock, e.time) && Carried(e, slot)
    ensures Put(Part(e, seen), slot, ValueOf(e, clock, slot), clock) == Ok(Part(e, seen + {slot}))
  {
    var after := Known(e, seen + {slot});
    if slot.Extension? {
      assert after == Known(e, seen)[slot.name := Extensions(e)[slot.name]];
      assert slot.name in after;
    } else {
      assert after == Known(e, seen);
    }
  }

  // ----- Reading them all -----

  /** The slots read from the order's headers. */
  ghost function SeenIn(h: Header, g: Header, order: seq<string>): set<Slot>
    requires forall k | k in order :: k in g
  {
    set j | j in order && Counts(g, j) && Lower(j) in h && SlotOf(Lower(j)).Some? :: SlotOf(Lower(j)).value
  }

  lemma HeaderSlot(e: Event, clock: Clockwork, h: Header, k: string) returns (slot: Slot)
    requires IsValid(e) && IsHeaderOf(e, clock, h) && k in h
    ensures Carried(e, slot) && SlotOf(k) == Some(slot) && k == KeyOf(slot) && h[k] == [ValueOf(e, clock, slot)]
  {
    hide KeyOf, SlotOf, ValueOf, IsValid, Carried;
    slot :| Carried(e, slot) && k == KeyOf(slot);
    KeyRead(e, slot);
  }

  /** What the key adds to the slots read. */
  ghost function SlotAt(h: Header, g: Header, key: string): set<Slot>
    requires key in g
  {
    if Counts(g, key) && Lower(key) in h && SlotOf(Lower(key)).Some? then {SlotOf(Lower(key)).value} else {}
  }

  lemma ReadPart(e: Event, clock: Clockwork, h: Header, g: Header, seen: set<Slot>, key: string)
    requires IsValid(e) && Inverts(clock, e.time) && IsHeaderOf(e, clock, h) && Carries(h, g) && key in g
    ensures Read(g, Part(e, seen), key, clock) == Ok(Part(e, seen + SlotAt(h, g, key)))
  {
    hide Put, Part, IsValid, IsHeaderOf, Lower, SlotOf;
    assert seen + {} == seen;
    if Counts(g, key) && Lower(key) in h {
      var slot := HeaderSlot(e, clock, h, Lower(key));
      PartSees(e, clock, seen, slot);
      assert g[key] == h[Lower(key)];
    }
  }

  lemma SeenNext(h: Header, g: Header, order: seq<string>, key: string)
    requires key in g && forall k | k in order :: k in g
    ensures SeenIn(h, g, order + [key]) == SeenIn(h, g, order) + SlotAt(h, g, key)
  {
    hide Counts, Lower, SlotOf;
    var more := order + [key];
    forall x ensures x in SeenIn(h, g, more) <==> x in SeenIn(h, g, order) || x in SlotAt(h, g, key) {
      if j :| j in order && Counts(g, j) && Lower(j) in h && SlotOf(Lower(j)) == Some(x) {
        assert j in more;
      }
      assert key in more;
    }
  }

  lemma {:induction false} ReadAllParts(e: Event, clock: Clockwork, h: Header, g: Header, order: seq<string>)
    requires IsValid(e) && Inverts(clock, e.time) && IsHeaderOf(e, clock, h) && Carries(h, g)
    requires forall k | k in order :: k in g
    ensures ReadAll(g, order, clock) == Ok(Part(e, SeenIn(h, g, order)))
  {
    hide Read, Part, SeenIn, Counts, Lower, IsValid, IsHeaderOf, Carries, SlotAt, BLANK;
    if order == [] {
      NothingSeen(e, h, g);
    } else {
      var n := |order| - 1;
      var before := order[..n];
      ReadAllParts(e, clock, h, g, before);
      ReadPart(e, clock, h, g, SeenIn(h, g, before), order[n]);
      SeenNext(h, g, before, order[n]);
      assert order == before + [order[n]];
    }
  }

  lemma NothingSeen(e: Event, h: Header, g: Header)
    ensures SeenIn(h, g, []) == {} && Part(e, {}) == BLANK
  {
    assert Known(e, {}) == map[];
  }

  /** Everything the event carries is read, in one spelling or another. */
  lemma AllSeen(e: Event, clock: Clockwork, h: Header, g: Header, order: seq<string>)
    requires IsValid(e) && IsHeaderOf(e, clock, h) && Carries(h, g) && IsOrder(g, order)
    ensures forall slot :: slot in SeenIn(h, g, order) <==> Carried(e, slot)
  {
    forall slot ensures slot in SeenIn(h, g, order) <==> Carried(e, slot) {
      if Carried(e, slot) {
        SlotSeen(e, clock, h, g, order, slot);
      } else if slot in SeenIn(h, g, order) {
        var j :| j in order && Counts(g, j) && Lower(j) in h && SlotOf(Lower(j)) == Some(slot);
        var other := HeaderSlot(e, clock, h, Lower(j));
      }
    }
  }

  lemma SlotSeen(e: Event, clock: Clockwork, h: Header, g: Header, order: seq<string>, slot: Slot)
    requires IsValid(e) && IsHeaderOf(e, clock, h) && Carries(h, g) && IsOrder(g, order) && Carried(e, slot)
    ensures slot in SeenIn(h, g, order)
  {
    var k := KeyOf(slot);
    KeyRead(e, slot);
    var j :| j in g && Lower(j) == k;
    LowerTwice(j);
    hide Lower, KeyOf, SlotOf, ValueOf, IsValid, Carried;
    if k in g {
      assert Lower(k) == k && Counts(g, k) && k in order;
    } else {
      assert Counts(g, j) && j in order;
    }
  }

  lemma LowerTwice(s: string)
    ensures Lower(Lower(s)) == Lower(s)
  {
    var l := Lower(s);
    forall i | 0 <= i < |s| ensures LowerChar(l[i]) == l[i] {
      LowerCharTwice(s[i]);
    }
  }

  lemma LowerCharTwice(c: char)
    ensures LowerChar(LowerChar(c)) == LowerChar(c)
  {
  }

  /** All of it read is the event, but for its data. */
  lemma WholePart(e: Event, seen: set<Slot>)
    requires forall slot :: slot in seen <==> Carried(e, slot)
    ensures Part(e, seen) == Draft(Normal(e).(data := None), SPEC_VERSION)
  {
    assert Version in seen && Id in seen && Source in seen && Type in seen;
    assert Known(e, seen) == Extensions(e);
  }

  /** Decoding the event's headers, in any order and spelling, with any others beside them, gives the event again. */
  lemma DecodeInverts(e: Event, clock: Clockwork, h: Header, g: Header, order: seq<string>, body: seq<bv8>)
    requires IsValid(e) && Inverts(clock, e.time) && IsHeaderOf(e, clock, h) && Carries(h, g) && IsOrder(g, order)
    requires body == if e.data.Some? then e.data.value else []
    ensures DecodeIn(g, order, body, clock) == Ok(Normal(e))
  {
    hide IsHeaderOf, Carries, ReadAll, Part, SeenIn, Normal, IsValid;
    ReadAllParts(e, clock, h, g, order);
    AllSeen(e, clock, h, g, order);
    WholePart(e, SeenIn(h, g, order));
    NormalFinishes(e, body);
  }

  lemma NormalFinishes(e: Event, body: seq<bv8>)
    requires IsValid(e) && body == if e.data.Some? then e.data.value else []
    ensures Finish(Draft(Normal(e).(data := None), SPEC_VERSION), body) == Ok(Normal(e))
  {
    hide IsName;
    assert Extensions(Normal(e)) == Extensions(e);
  }

  /** So whatever Decode gives of them is the event. */
  lemma RoundTrips(e: Event, clock: Clockwork, h: Header, g: Header, body: seq<bv8>, r: Result<Event>)
    requires IsValid(e) && Inverts(clock, e.time) && IsHeaderOf(e, clock, h) && Carries(h, g)
    requires body == if e.data.Some? then e.data.value else []
    requires IsOutcome(g, body, clock, r)
    ensures r == Ok(Normal(e))
  {
    var order :| Distinct(order) && (forall k | k in order :: k in g) && r == DecodeIn(g, order, body, clock)
                 && (IsOrder(g, order) || r == Err(BadTime));
    ReadAllParts(e, clock, h, g, order);
    if IsOrder(g, order) {
      DecodeInverts(e, clock, h, g, order, body);
    }
    hide IsHeaderOf, Carries, ReadAll, Part, SeenIn, IsValid;
  }

  // ----- Where the order of the headers shows -----

  /** Two spellings of one name, neither lowercase, with two values: which one Decode reads depends on the order. */
  lemma OrderCanShow(clock: Clockwork)
    ensures exists g: Header, a, b, body ::
              && IsOrder(g, a) && IsOrder(g, b)
              && DecodeIn(g, a, body, clock) != DecodeIn(g, b, body, clock)
  {
    var x, y := "Ce-specversion", "CE-specversion";
    assert x[1] != y[1];
    TwoSpellings(clock, x, y);
  }

  lemma TwoSpellings(clock: Clockwork, x: string, y: string)
    requires x == "Ce-specversion" && y == "CE-specversion" && x != y
    ensures var g: Header := map[x := ["1.0"], y := ["2.0"]];
            && IsOrder(g, [x, y]) && IsOrder(g, [y, x])
            && DecodeIn(g, [x, y], [], clock) != DecodeIn(g, [y, x], [], clock)
  {
    var g: Header := map[x := ["1.0"], y := ["2.0"]];
    assert Lower(x) == "ce-specversion" && Lower(y) == "ce-specversion";
    SpellingRead(g, x, BLANK, clock);
    SpellingRead(g, x, BLANK.(version := "2.0"), clock);
    SpellingRead(g, y, BLANK, clock);
    SpellingRead(g, y, BLANK.(version := "1.0"), clock);
    hide Lower, Read, SlotOf, Counts, IsValid;
    ReadPair(g, x, y, clock);
    ReadPair(g, y, x, clock);
  }

  lemma ReadPair(g: Header, x: string, y: string, clock: Clockwork)
    requires x in g && y in g && Read(g, BLANK, x, clock).Ok?
    ensures ReadAll(g, [x, y], clock) == Read(g, Read(g, BLANK, x, clock).value, y, clock)
  {
    hide Read;
    ReadAllNext(g, [], x, clock);
    ReadAllNext(g, [x], y, clock);
    assert [] + [x] == [x] && [x] + [y] == [x, y];
  }

  lemma SpellingRead(g: Header, key: string, d: Draft, clock: Clockwork)
    requires key in g && g[key] != [] && Lower(key) == "ce-specversion" && Lower(key) !in g
    ensures Read(g, d, key, clock) == Ok(d.(version := g[key][0]))
  {
    NameRead(Version);
    hide Lower, SlotOf;
  }
}
