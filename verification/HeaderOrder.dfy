/** When the order a map gives its headers in can show in what Decode returns, exactly. */
module HeaderOrder {
  import opened World
  import opened Events
  import opened Codec

  /** Decode reads the slot from the header, unless a lowercase spelling stands beside it. */
  predicate Fills(g: Header, key: string, slot: Slot) {
    key in g && Counts(g, key) && SlotOf(Lower(key)) == Some(slot)
  }

  /** The two values set the slot alike: they are one, or two texts of one time. */
  predicate SetAlike(slot: Slot, v: string, w: string, clock: Clockwork) {
    v == w || (slot == When && clock.parse(v) == clock.parse(w))
  }

  /** Some header's time does not parse. */
  ghost predicate Unparsed(g: Header, clock: Clockwork) {
    exists k :: Fills(g, k, When) && clock.parse(g[k][0]).None?
  }

  /** Headers of one name, however spelled, set it alike. */
  ghost predicate Unanimous(g: Header, clock: Clockwork) {
    forall slot, a, b | Fills(g, a, slot) && Fills(g, b, slot) :: SetAlike(slot, g[a][0], g[b][0], clock)
  }

  // ----- What is read, by slot -----

  /** The last value read for each slot. */
  function Values(g: Header, order: seq<string>): map<Slot, string>
    requires forall k | k in order :: k in g
  {
    if order == [] then map[]
    else
      var before, key := Values(g, order[..|order| - 1]), order[|order| - 1];
      var slot := SlotOf(Lower(key));
      if !Counts(g, key) || slot.None? then before else before[slot.value := g[key][0]]
  }

  function Text(values: map<Slot, string>, slot: Slot): string {
    if slot in values then values[slot] else ""
  }

  function ExtensionsOf(values: map<Slot, string>): map<string, string> {
    map slot | slot in values && slot.Extension? :: slot.name := values[slot]
  }

  predicate Parses(values: map<Slot, string>, clock: Clockwork) {
    When in values ==> clock.parse(values[When]).Some?
  }

  function DraftOf(values: map<Slot, string>, clock: Clockwork): Draft
    requires Parses(values, clock)
  {
    Draft(Event(Text(values, Id), Text(values, Source), Text(values, Type), Text(values, Subject), Text(values, ContentType),
                Text(values, Schema), if When in values then clock.parse(values[When]).value else NO_TIME, None,
                if ExtensionsOf(values) == map[] then None else Some(ExtensionsOf(values))),
          Text(values, Version))
  }

  lemma PutSets(values: map<Slot, string>, slot: Slot, v: string, clock: Clockwork)
    requires Parses(values, clock)
    ensures var next := values[slot := v];
            if Parses(next, clock) then Put(DraftOf(values, clock), slot, v, clock) == Ok(DraftOf(next, clock))
            else Put(DraftOf(values, clock), slot, v, clock) == Err(BadTime)
  {
    ExtensionsNext(values, slot, v);
    hide ExtensionsOf;
    if slot.Extension? {
      ExtensionSets(values, slot.name, v, clock);
    } else if slot != When {
      assert Parses(values[slot := v], clock);
    }
  }

  lemma ExtensionSets(values: map<Slot, string>, name: string, v: string, clock: Clockwork)
    requires Parses(values, clock)
    ensures var next := values[Extension(name) := v];
            Parses(next, clock) && Put(DraftOf(values, clock), Extension(name), v, clock) == Ok(DraftOf(next, clock))
  {
    ExtensionsNext(values, Extension(name), v);
    hide ExtensionsOf;
    assert name in ExtensionsOf(values)[name := v];
  }

  lemma ExtensionsNext(values: map<Slot, string>, slot: Slot, v: string)
    ensures ExtensionsOf(values[slot := v]) == if slot.Extension? then ExtensionsOf(values)[slot.name := v] else ExtensionsOf(values)
  {
    assert ExtensionsOf(values[slot := v]) == if slot.Extension? then ExtensionsOf(values)[slot.name := v] else ExtensionsOf(values);
  }

  lemma NothingRead(clock: Clockwork)
    ensures Parses(map[], clock) && DraftOf(map[], clock) == BLANK
  {
    assert ExtensionsOf(map[]) == map[];
  }

  /** A time among the first headers does not parse. */
  ghost predicate Stuck(g: Header, order: seq<string>, clock: Clockwork)
    requires forall k | k in order :: k in g
  {
    exists k :: k in order && Fills(g, k, When) && clock.parse(g[k][0]).None?
  }

  lemma {:induction false} ReadsValues(g: Header, order: seq<string>, clock: Clockwork)
    requires forall k | k in order :: k in g
    ensures if Stuck(g, order, clock) then ReadAll(g, order, clock) == Err(BadTime)
            else Parses(Values(g, order), clock) && ReadAll(g, order, clock) == Ok(DraftOf(Values(g, order), clock))
  {
    hide DraftOf, Put, Lower, SlotOf, Parses, Stuck;
    if order == [] {
      NothingRead(clock);
      NoneStuck(g, clock);
    } else {
      var n := |order| - 1;
      var before, key := order[..n], order[n];
      assert order == before + [key];
      ReadsValues(g, before, clock);
      ReadAllNext(g, before, key, clock);
      StuckNext(g, before, key, clock);
      if !Stuck(g, before, clock) && Counts(g, key) && SlotOf(Lower(key)).Some? {
        PutSets(Values(g, before), SlotOf(Lower(key)).value, g[key][0], clock);
        StillParses(Values(g, before), SlotOf(Lower(key)).value, g[key][0], clock);
      }
    }
  }

  lemma NoneStuck(g: Header, clock: Clockwork)
    ensures !Stuck(g, [], clock)
  {
  }

  lemma StillParses(values: map<Slot, string>, slot: Slot, v: string, clock: Clockwork)
    requires Parses(values, clock)
    ensures Parses(values[slot := v], clock) <==> slot != When || clock.parse(v).Some?
  {
  }

  lemma StuckNext(g: Header, order: seq<string>, key: string, clock: Clockwork)
    requires key in g && forall k | k in order :: k in g
    ensures Stuck(g, order + [key], clock)
            <==> Stuck(g, order, clock) || (Fills(g, key, When) && clock.parse(g[key][0]).None?)
  {
    hide Fills;
    assert key in order + [key];
  }

  lemma {:induction false} ValueFrom(g: Header, order: seq<string>, slot: Slot)
    requires forall k | k in order :: k in g
    ensures slot in Values(g, order) <==> exists k :: k in order && Fills(g, k, slot)
    ensures slot in Values(g, order) ==> exists k :: k in order && Fills(g, k, slot) && Values(g, order)[slot] == g[k][0]
  {
    hide Lower, SlotOf;
    if order != [] {
      var n := |order| - 1;
      ValueFrom(g, order[..n], slot);
      assert order == order[..n] + [order[n]];
      if Fills(g, order[n], slot) {
        assert order[n] in order;
      }
    }
  }

  // ----- Alike in every order -----

  lemma AlikeDrafts(a: map<Slot, string>, b: map<Slot, string>, clock: Clockwork)
    requires a.Keys == b.Keys && forall slot | slot in a :: SetAlike(slot, a[slot], b[slot], clock)
    requires Parses(a, clock) && Parses(b, clock)
    ensures DraftOf(a, clock) == DraftOf(b, clock)
  {
    assert ExtensionsOf(a) == ExtensionsOf(b);
  }

  /** Two whole orders read the same draft, or both meet a time that does not parse, when the headers are unanimous. */
  lemma OrdersAgree(g: Header, clock: Clockwork, a: seq<string>, b: seq<string>)
    requires Unparsed(g, clock) || Unanimous(g, clock)
    requires IsOrder(g, a) && IsOrder(g, b)
    ensures ReadAll(g, a, clock) == ReadAll(g, b, clock)
    ensures ReadAll(g, a, clock).Err? <==> Unparsed(g, clock)
  {
    ReadsValues(g, a, clock);
    ReadsValues(g, b, clock);
    assert (Stuck(g, a, clock) <==> Unparsed(g, clock)) && (Stuck(g, b, clock) <==> Unparsed(g, clock));
    hide ReadAll, Values, DraftOf, Parses, Fills, SetAlike;
    if !Unparsed(g, clock) {
      var va, vb := Values(g, a), Values(g, b);
      forall slot ensures slot in va <==> slot in vb {
        ValueFrom(g, a, slot);
        ValueFrom(g, b, slot);
      }
      forall slot | slot in va ensures SetAlike(slot, va[slot], vb[slot], clock) {
        ValueFrom(g, a, slot);
        ValueFrom(g, b, slot);
        assert slot in vb;
      }
      AlikeDrafts(va, vb, clock);
    }
  }

  /** What Decode returns does not depend on the order of the headers when those of one name set it alike, or when some
      time does not parse, which it then reports. */
  lemma OrderNeverShows(g: Header, body: seq<bv8>, clock: Clockwork, r: Result<Event>, q: Result<Event>)
    requires Unparsed(g, clock) || Unanimous(g, clock)
    requires IsOutcome(g, body, clock, r) && IsOutcome(g, body, clock, q)
    ensures r == q && (Unparsed(g, clock) ==> r == Err(BadTime))
  {
    var a :| Distinct(a) && (forall k | k in a :: k in g) && r == DecodeIn(g, a, body, clock) && (IsOrder(g, a) || r == Err(BadTime));
    var b :| Distinct(b) && (forall k | k in b :: k in g) && q == DecodeIn(g, b, body, clock) && (IsOrder(g, b) || q == Err(BadTime));
    OutcomeReads(g, body, clock, a, r);
    OutcomeReads(g, body, clock, b, q);
    if !Unparsed(g, clock) {
      OrdersAgree(g, clock, a, b);
    }
  }

  lemma OutcomeReads(g: Header, body: seq<bv8>, clock: Clockwork, order: seq<string>, r: Result<Event>)
    requires (forall k | k in order :: k in g) && r == DecodeIn(g, order, body, clock) && (IsOrder(g, order) || r == Err(BadTime))
    ensures if Unparsed(g, clock) then r == Err(BadTime) else IsOrder(g, order)
  {
    ReadsValues(g, order, clock);
    hide ReadAll, Values, DraftOf, Parses, Fills;
    if IsOrder(g, order) {
      assert Stuck(g, order, clock) <==> Unparsed(g, clock);
    } else {
      assert Stuck(g, order, clock) ==> Unparsed(g, clock);
    }
  }

  // ----- And otherwise not -----

  lemma {:induction false} Listed(keys: set<string>) returns (order: seq<string>)
    ensures Distinct(order) && forall k :: k in order <==> k in keys
  {
    order := [];
    if keys != {} {
      var k :| k in keys;
      var rest := Listed(keys - {k});
      order := rest + [k];
    }
  }

  lemma EndingWith(g: Header, key: string, slot: Slot) returns (order: seq<string>)
    requires Fills(g, key, slot)
    ensures IsOrder(g, order) && slot in Values(g, order) && Values(g, order)[slot] == g[key][0]
  {
    var rest := Listed(g.Keys - {key});
    order := rest + [key];
    assert order[..|order| - 1] == rest;
  }

  lemma DraftsTell(a: map<Slot, string>, b: map<Slot, string>, slot: Slot, clock: Clockwork)
    requires slot in a && slot in b && !SetAlike(slot, a[slot], b[slot], clock)
    requires Parses(a, clock) && Parses(b, clock)
    ensures DraftOf(a, clock) != DraftOf(b, clock)
  {
    if slot.Extension? {
      assert slot.name in ExtensionsOf(a) && ExtensionsOf(a)[slot.name] == a[slot];
      assert slot.name in ExtensionsOf(b) && ExtensionsOf(b)[slot.name] == b[slot];
    }
  }

  /** Where two headers of one name disagree and every time parses, two orders read different drafts; and if both are
      events, different events. */
  lemma OrderShows(g: Header, clock: Clockwork, body: seq<bv8>)
    returns (a: seq<string>, b: seq<string>)
    requires !Unparsed(g, clock) && !Unanimous(g, clock)
    ensures IsOrder(g, a) && IsOrder(g, b) && ReadAll(g, a, clock) != ReadAll(g, b, clock)
    ensures DecodeIn(g, a, body, clock).Ok? && DecodeIn(g, b, body, clock).Ok?
            ==> DecodeIn(g, a, body, clock) != DecodeIn(g, b, body, clock)
  {
    var slot, x, y :| Fills(g, x, slot) && Fills(g, y, slot) && !SetAlike(slot, g[x][0], g[y][0], clock);
    a := EndingWith(g, x, slot);
    b := EndingWith(g, y, slot);
    ReadsValues(g, a, clock);
    ReadsValues(g, b, clock);
    assert !Stuck(g, a, clock) && !Stuck(g, b, clock);
    hide ReadAll, Values, Fills, SetAlike, IsValid;
    DraftsTell(Values(g, a), Values(g, b), slot, clock);
  }

  /** What the headers read as is one in every order exactly when a time does not parse or headers of one name set it
      alike. */
  lemma OrderShowsExactly(g: Header, clock: Clockwork)
    ensures (forall a, b | IsOrder(g, a) && IsOrder(g, b) :: ReadAll(g, a, clock) == ReadAll(g, b, clock))
            <==> Unparsed(g, clock) || Unanimous(g, clock)
  {
    hide ReadAll, Unparsed, Unanimous, Distinct, DecodeIn;
    if Unparsed(g, clock) || Unanimous(g, clock) {
      forall a, b | IsOrder(g, a) && IsOrder(g, b) ensures ReadAll(g, a, clock) == ReadAll(g, b, clock) {
        OrdersAgree(g, clock, a, b);
      }
    } else {
      var a, b := OrderShows(g, clock, []);
    }
  }
}
