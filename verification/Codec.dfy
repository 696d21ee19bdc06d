/** Binary content mode: an event as headers and a body, and back, whatever order and spelling the headers come in. */
module Codec {
  import opened World
  import opened Events

  /** A header's values by its name, as given. */
  type Header = map<string, seq<string>>

  const SPEC_VERSION := "1.0"
  const PREFIX := "ce-"
  const CONTENT_TYPE := "content-type"

  datatype Error = Invalid | BadTime | BadVersion(version: string)

  datatype Result<+T> = Ok(value: T) | Err(error: Error)

  /** How times are written, in UTC, and read. */
  datatype Clockwork = Clockwork(format: int -> string, parse: string -> Option<Time>)

  // ----- Header names -----

  /** What a header can carry: a context attribute, the content type, or an extension. */
  datatype Slot = Version | Id | Source | Type | Schema | Subject | When | ContentType | Extension(name: string)

  function KeyOf(slot: Slot): string {
    match slot
    case Version => "ce-specversion"
    case Id => "ce-id"
    case Source => "ce-source"
    case Type => "ce-type"
    case Schema => "ce-dataschema"
    case Subject => "ce-subject"
    case When => "ce-time"
    case ContentType => CONTENT_TYPE
    case Extension(name) => PREFIX + name
  }

  function Named(name: string): Slot {
    if name == "specversion" then Version
    else if name == "id" then Id
    else if name == "source" then Source
    else if name == "type" then Type
    else if name == "dataschema" then Schema
    else if name == "subject" then Subject
    else if name == "time" then When
    else Extension(name)
  }

  /** What a header of the lowercase name carries, if anything of an event. */
  function SlotOf(lower: string): Option<Slot> {
    if lower == CONTENT_TYPE then Some(ContentType)
    else if PREFIX <= lower then Some(Named(lower[|PREFIX|..]))
    else None
  }

  // ----- Encoding -----

  /** The event has something for the slot. */
  predicate Carried(e: Event, slot: Slot) {
    match slot
    case Schema => e.dataSchema != ""
    case Subject => e.subject != ""
    case When => e.time.instant != NO_TIME.instant
    case ContentType => e.dataContentType != ""
    case Extension(name) => name in Extensions(e)
    case _ => true
  }

  function ValueOf(e: Event, clock: Clockwork, slot: Slot): string
    requires Carried(e, slot)
  {
    match slot
    case Version => SPEC_VERSION
    case Id => e.id
    case Source => e.source
    case Type => e.typ
    case Schema => e.dataSchema
    case Subject => e.subject
    case When => clock.format(e.time.instant)
    case ContentType => e.dataContentType
    case Extension(name) => Extensions(e)[name]
  }

  /** Of a valid event, each header's name tells what it carries. */
  lemma KeyRead(e: Event, slot: Slot)
    requires IsValid(e) && Carried(e, slot)
    ensures SlotOf(KeyOf(slot)) == Some(slot)
  {
    if slot.Extension? {
      var key := PREFIX + slot.name;
      assert key[1] == 'e' && CONTENT_TYPE[1] == 'o' && key[|PREFIX|..] == slot.name;
      assert slot.name !in RESERVED;
    } else {
      NameRead(slot);
    }
  }

  lemma NameRead(slot: Slot)
    requires !slot.Extension?
    ensures SlotOf(KeyOf(slot)) == Some(slot)
  {
    var key := KeyOf(slot);
    if !slot.ContentType? {
      assert key[1] == 'e' && CONTENT_TYPE[1] == 'o';
      match slot {
        case Version => assert key[|PREFIX|..] == "specversion";
        case Id => assert key[|PREFIX|..] == "id";
        case Source => assert key[|PREFIX|..] == "source";
        case Type => assert key[|PREFIX|..] == "type";
        case Schema => assert key[|PREFIX|..] == "dataschema";
        case Subject => assert key[|PREFIX|..] == "subject";
        case When => assert key[|PREFIX|..] == "time";
      }
    }
  }

  /** The headers of just these slots of the event. */
  ghost predicate HeadersOf(e: Event, clock: Clockwork, slots: set<Slot>, h: Header) {
    && (forall slot | slot in slots :: Carried(e, slot) && KeyOf(slot) in h && h[KeyOf(slot)] == [ValueOf(e, clock, slot)])
    && (forall k | k in h :: exists slot :: slot in slots && k == KeyOf(slot))
  }

  /** The header a valid event has: one for everything it carries, and no other. */
  ghost predicate IsHeaderOf(e: Event, clock: Clockwork, h: Header) {
    && (forall slot | Carried(e, slot) :: KeyOf(slot) in h && h[KeyOf(slot)] == [ValueOf(e, clock, slot)])
    && (forall k | k in h :: exists slot :: Carried(e, slot) && k == KeyOf(slot))
  }

  lemma HeadersNext(e: Event, clock: Clockwork, slots: set<Slot>, h: Header, slot: Slot)
    requires IsValid(e) && HeadersOf(e, clock, slots, h) && Carried(e, slot)
    ensures HeadersOf(e, clock, slots + {slot}, h[KeyOf(slot) := [ValueOf(e, clock, slot)]])
  {
    hide KeyOf, SlotOf, ValueOf, IsValid, Carried;
    KeyRead(e, slot);
    forall other | other in slots && KeyOf(other) == KeyOf(slot) ensures other == slot {
      KeyRead(e, other);
    }
  }

  lemma NoHeaders(e: Event, clock: Clockwork)
    ensures HeadersOf(e, clock, {}, map[])
  {
  }

  lemma AllHeaders(e: Event, clock: Clockwork, slots: set<Slot>, h: Header)
    requires HeadersOf(e, clock, slots, h) && forall slot | Carried(e, slot) :: slot in slots
    ensures IsHeaderOf(e, clock, h)
  {
    hide KeyOf, ValueOf, Carried;
  }

  /** A valid event as headers and a body. */
  method Encode(e: Event, clock: Clockwork) returns (r: Result<(Header, seq<bv8>)>)
    ensures r.Ok? <==> IsValid(e)
    ensures r.Ok? ==> IsHeaderOf(e, clock, r.value.0) && r.value.1 == if e.data.Some? then e.data.value else []
    ensures r.Ok? ==> Writes(e, clock, r.value.0)
  {
    var faults := Validate(e);
    if faults != [] {
      return Err(Invalid);
    }
    hide IsValid, HeadersOf, IsHeaderOf, KeyOf;
    var h, slots := EncodeRequired(e, clock);
    h, slots := EncodeOptional(e, clock, h, slots);
    h, slots := EncodeExtensions(e, clock, h, slots);
    hide Carried;
    AllSlots(e, slots);
    AllHeaders(e, clock, slots, h);
    HeaderWrites(e, clock, h);
    r := Ok((h, if e.data.Some? then e.data.value else []));
  }

  /** The one value under the name, there exactly when asked. */
  predicate Holds(h: Header, name: string, there: bool, v: string) {
    (name in h <==> there) && (there ==> h[name] == [v])
  }

  const NAMES := {"ce-specversion", "ce-id", "ce-source", "ce-type", "ce-dataschema", "ce-subject", "ce-time", "content-type"}

  /** An event's header, name by name, and no name else. */
  ghost predicate Writes(e: Event, clock: Clockwork, h: Header) {
    && Holds(h, "ce-specversion", true, "1.0")
    && Holds(h, "ce-id", true, e.id)
    && Holds(h, "ce-source", true, e.source)
    && Holds(h, "ce-type", true, e.typ)
    && Holds(h, "ce-dataschema", e.dataSchema != "", e.dataSchema)
    && Holds(h, "ce-subject", e.subject != "", e.subject)
    && Holds(h, "ce-time", e.time.instant != NO_TIME.instant, clock.format(e.time.instant))
    && Holds(h, "content-type", e.dataContentType != "", e.dataContentType)
    && (forall name | name in Extensions(e) :: Holds(h, "ce-" + name, true, Extensions(e)[name]))
    && (forall key | key in h :: key in NAMES || exists name :: name in Extensions(e) && key == "ce-" + name)
  }

  lemma HeaderWrites(e: Event, clock: Clockwork, h: Header)
    requires IsValid(e) && IsHeaderOf(e, clock, h)
    ensures Writes(e, clock, h)
  {
    SlotHeld(e, clock, h, Version);
    SlotHeld(e, clock, h, Id);
    SlotHeld(e, clock, h, Source);
    SlotHeld(e, clock, h, Type);
    SlotHeld(e, clock, h, Schema);
    SlotHeld(e, clock, h, Subject);
    SlotHeld(e, clock, h, When);
    SlotHeld(e, clock, h, ContentType);
    forall name | name in Extensions(e) ensures Holds(h, "ce-" + name, true, Extensions(e)[name]) {
      SlotHeld(e, clock, h, Extension(name));
    }
    forall key | key in h ensures key in NAMES || exists name :: name in Extensions(e) && key == "ce-" + name {
      var slot :| Carried(e, slot) && key == KeyOf(slot);
      match slot {
        case Extension(name) => assert key == "ce-" + name;
        case _ =>
      }
    }
    hide IsHeaderOf, IsValid, Holds;
  }

  /** A slot's name is in the header exactly when the event carries the slot. */
  lemma SlotHeld(e: Event, clock: Clockwork, h: Header, slot: Slot)
    requires IsValid(e) && IsHeaderOf(e, clock, h) && (slot.Extension? ==> Carried(e, slot))
    ensures Holds(h, KeyOf(slot), Carried(e, slot), if Carried(e, slot) then ValueOf(e, clock, slot) else "")
  {
    hide KeyOf, ValueOf, IsValid, SlotOf;
    if KeyOf(slot) in h && !Carried(e, slot) {
      var other :| Carried(e, other) && KeyOf(slot) == KeyOf(other);
      KeyRead(e, other);
      SlotRead(e, slot, other);
    }
  }

  /** No slot has another's name, of those a valid event can carry. */
  lemma SlotRead(e: Event, slot: Slot, other: Slot)
    requires IsValid(e) && Carried(e, other) && KeyOf(slot) == KeyOf(other) && !slot.Extension?
    ensures slot == other
  {
    KeyRead(e, other);
    NameRead(slot);
  }

  lemma AllSlots(e: Event, slots: set<Slot>)
    requires Version in slots && Id in slots && Source in slots && Type in slots
    requires (Carried(e, Schema) ==> Schema in slots) && (Carried(e, Subject) ==> Subject in slots)
    requires (Carried(e, When) ==> When in slots) && (Carried(e, ContentType) ==> ContentType in slots)
    requires forall name | name in Extensions(e) :: Extension(name) in slots
    ensures forall slot | Carried(e, slot) :: slot in slots
  {
    forall slot | Carried(e, slot) ensures slot in slots {
      match slot {
        case Extension(name) => assert name in Extensions(e);
        case _ =>
      }
    }
  }

  /** The attributes every event has. */
  method EncodeRequired(e: Event, clock: Clockwork) returns (h: Header, ghost slots: set<Slot>)
    requires IsValid(e)
    ensures HeadersOf(e, clock, slots, h) && slots == {Version, Id, Source, Type}
  {
    hide IsValid, HeadersOf, KeyOf;
    NoHeaders(e, clock);
    HeadersNext(e, clock, {}, map[], Version);
    h, slots := map[][KeyOf(Version) := [SPEC_VERSION]], {} + {Version};
    HeadersNext(e, clock, slots, h, Id);
    h, slots := h[KeyOf(Id) := [e.id]], slots + {Id};
    HeadersNext(e, clock, slots, h, Source);
    h, slots := h[KeyOf(Source) := [e.source]], slots + {Source};
    HeadersNext(e, clock, slots, h, Type);
    h, slots := h[KeyOf(Type) := [e.typ]], slots + {Type};
  }

  method EncodeExtensions(e: Event, clock: Clockwork, attributes: Header, ghost first: set<Slot>)
    returns (h: Header, ghost slots: set<Slot>)
    requires IsValid(e) && HeadersOf(e, clock, first, attributes)
    ensures HeadersOf(e, clock, slots, h) && first <= slots
    ensures forall name | name in Extensions(e) :: Extension(name) in slots
  {
    hide IsValid, HeadersOf, KeyOf;
    h, slots := attributes, first;
    var left := Extensions(e).Keys;
    while left != {}
      invariant left <= Extensions(e).Keys && HeadersOf(e, clock, slots, h) && first <= slots
      invariant forall name | name in Extensions(e) && name !in left :: Extension(name) in slots
    {
      var name :| name in left;
      HeadersNext(e, clock, slots, h, Extension(name));
      h := h[KeyOf(Extension(name)) := [Extensions(e)[name]]];
      slots := slots + {Extension(name)};
      left := left - {name};
    }
  }

  /** The attributes an event may be without. */
  method EncodeOptional(e: Event, clock: Clockwork, required: Header, ghost first: set<Slot>)
    returns (h: Header, ghost slots: set<Slot>)
    requires IsValid(e) && HeadersOf(e, clock, first, required)
    ensures HeadersOf(e, clock, slots, h) && first <= slots
    ensures Carried(e, Schema) ==> Schema in slots
    ensures Carried(e, Subject) ==> Subject in slots
    ensures Carried(e, When) ==> When in slots
    ensures Carried(e, ContentType) ==> ContentType in slots
  {
    hide IsValid, HeadersOf, KeyOf;
    h, slots := required, first;
    if e.dataSchema != "" {
      HeadersNext(e, clock, slots, h, Schema);
      h, slots := h[KeyOf(Schema) := [e.dataSchema]], slots + {Schema};
    }
    if e.subject != "" {
      HeadersNext(e, clock, slots, h, Subject);
      h, slots := h[KeyOf(Subject) := [e.subject]], slots + {Subject};
    }
    if e.time.instant != NO_TIME.instant {
      HeadersNext(e, clock, slots, h, When);
      h, slots := h[KeyOf(When) := [clock.format(e.time.instant)]], slots + {When};
    }
    if e.dataContentType != "" {
      HeadersNext(e, clock, slots, h, ContentType);
      h, slots := h[KeyOf(ContentType) := [e.dataContentType]], slots + {ContentType};
    }
  }

  // ----- Decoding -----

  function LowerChar(c: char): char {
    if 'A' <= c <= 'Z' then (c as int + 32) as char else c
  }

  function Lower(s: string): (r: string)
    ensures |r| == |s|
  {
    seq(|s|, i requires 0 <= i < |s| => LowerChar(s[i]))
  }

  /** What has been read so far. */
  datatype Draft = Draft(event: Event, version: string)

  const BLANK := Draft(Event("", "", "", "", "", "", NO_TIME, None, None), "")

  /** The header is read: it has a value, and no lowercase spelling of its name stands beside it. */
  predicate Counts(h: Header, key: string)
    requires key in h
  {
    h[key] != [] && (Lower(key) == key || Lower(key) !in h)
  }

  /** What a slot's value sets; a time that does not parse fails. */
  function Put(d: Draft, slot: Slot, v: string, clock: Clockwork): Result<Draft> {
    match slot
    case Version => Ok(d.(version := v))
    case Id => Ok(d.(event := d.event.(id := v)))
    case Source => Ok(d.(event := d.event.(source := v)))
    case Type => Ok(d.(event := d.event.(typ := v)))
    case Schema => Ok(d.(event := d.event.(dataSchema := v)))
    case Subject => Ok(d.(event := d.event.(subject := v)))
    case When =>
      var t := clock.parse(v);
      if t.None? then Err(BadTime) else Ok(d.(event := d.event.(time := t.value)))
    case ContentType => Ok(d.(event := d.event.(dataContentType := v)))
    case Extension(name) => Ok(d.(event := d.event.(extensions := Some(Extensions(d.event)[name := v]))))
  }

  /** One header read. */
  function Read(h: Header, d: Draft, key: string, clock: Clockwork): Result<Draft>
    requires key in h
  {
    var slot := SlotOf(Lower(key));
    if !Counts(h, key) || slot.None? then Ok(d) else Put(d, slot.value, h[key][0], clock)
  }

  /** The headers read in an order, until one fails. */
  function ReadAll(h: Header, order: seq<string>, clock: Clockwork): Result<Draft>
    requires forall k | k in order :: k in h
  {
    if order == [] then Ok(BLANK)
    else
      var before := ReadAll(h, order[..|order| - 1], clock);
      if before.Err? then before else Read(h, before.value, order[|order| - 1], clock)
  }

  /** The event of what was read: of version 1.0, and valid. */
  function Finish(d: Draft, body: seq<bv8>): Result<Event> {
    var e := if body == [] then d.event else d.event.(data := Some(body));
    if d.version != SPEC_VERSION then Err(BadVersion(d.version)) else if IsValid(e) then Ok(e) else Err(Invalid)
  }

  function DecodeIn(h: Header, order: seq<string>, body: seq<bv8>, clock: Clockwork): Result<Event>
    requires forall k | k in order :: k in h
  {
    var d := ReadAll(h, order, clock);
    if d.Err? then Err(d.error) else Finish(d.value, body)
  }

  /** The order lists the headers, each once. */
  ghost predicate IsOrder(h: Header, order: seq<string>) {
    Distinct(order) && forall k :: k in order <==> k in h
  }

  /** An order of the headers, or as much of one as reaches a time that does not parse. */
  ghost predicate IsOutcome(h: Header, body: seq<bv8>, clock: Clockwork, r: Result<Event>) {
    exists order :: Distinct(order) && (forall k | k in order :: k in h) && r == DecodeIn(h, order, body, clock)
                    && (IsOrder(h, order) || r == Err(BadTime))
  }

  // ----- What is read, name by name -----

  /** The header is a spelling of the lowercase name that is read. */
  predicate Spells(h: Header, key: string, name: string) {
    key in h && Lower(key) == name && h[key] != [] && (key == name || name !in h)
  }

  /** The value read under the lowercase name, of the keys given: its own header's first value, or without one the first
      value of another spelling of it, or nothing. */
  ghost predicate ReadAs(h: Header, keys: set<string>, name: string, v: string) {
    || (exists key :: key in keys && Spells(h, key, name) && v == h[key][0])
    || (v == "" && forall key | key in keys :: !Spells(h, key, name))
  }

  /** The time read, or the time no event has. */
  ghost predicate TimeReadAs(h: Header, keys: set<string>, clock: Clockwork, t: Time) {
    || (exists key :: key in keys && Spells(h, key, "ce-time") && clock.parse(h[key][0]) == Some(t))
    || (t == NO_TIME && forall key | key in keys :: !Spells(h, key, "ce-time"))
  }

  predicate IsContext(name: string) {
    name in {"specversion", "id", "source", "type", "dataschema", "subject", "time"}
  }

  /** Every other name with the prefix is an extension. */
  ghost predicate ExtensionsReadAs(h: Header, keys: set<string>, extensions: map<string, string>) {
    && (forall name :: name in extensions <==> !IsContext(name) && exists key :: key in keys && Spells(h, key, "ce-" + name))
    && (forall name | name in extensions :: ReadAs(h, keys, "ce-" + name, extensions[name]))
  }

  /** The attributes read of the headers, under their names. */
  ghost predicate EventReadAs(h: Header, keys: set<string>, clock: Clockwork, e: Event) {
    && ReadAs(h, keys, "ce-id", e.id)
    && ReadAs(h, keys, "ce-source", e.source)
    && ReadAs(h, keys, "ce-type", e.typ)
    && ReadAs(h, keys, "ce-dataschema", e.dataSchema)
    && ReadAs(h, keys, "ce-subject", e.subject)
    && ReadAs(h, keys, "content-type", e.dataContentType)
    && TimeReadAs(h, keys, clock, e.time)
    && ExtensionsReadAs(h, keys, Extensions(e))
  }

  /** What headers and a body decode to: an error when a time read does not parse, when the version read is not 1.0, or
      when what is read is no valid event, and otherwise the event read, with the body its data if there is one. */
  ghost predicate Reads(h: Header, body: seq<bv8>, clock: Clockwork, r: Result<Event>) {
    match r
    case Ok(e) => && ReadAs(h, h.Keys, "ce-specversion", "1.0") && EventReadAs(h, h.Keys, clock, e)
                  && e.id != "" && e.source != "" && e.typ != "" && IsValid(e)
                  && e.data == if body == [] then None else Some(body)
    case Err(BadTime) => exists key :: Spells(h, key, "ce-time") && clock.parse(h[key][0]).None?
    case Err(BadVersion(version)) => version != "1.0" && ReadAs(h, h.Keys, "ce-specversion", version)
    case Err(Invalid) => ReadAs(h, h.Keys, "ce-specversion", "1.0") && exists e :: EventReadAs(h, h.Keys, clock, e) && !IsValid(e)
  }

  /** What a lowercase name carries, name by name. */
  lemma SlotNames(lower: string)
    ensures SlotOf(lower) == Some(Version) <==> lower == "ce-specversion"
    ensures SlotOf(lower) == Some(Id) <==> lower == "ce-id"
    ensures SlotOf(lower) == Some(Source) <==> lower == "ce-source"
    ensures SlotOf(lower) == Some(Type) <==> lower == "ce-type"
    ensures SlotOf(lower) == Some(Schema) <==> lower == "ce-dataschema"
    ensures SlotOf(lower) == Some(Subject) <==> lower == "ce-subject"
    ensures SlotOf(lower) == Some(When) <==> lower == "ce-time"
    ensures SlotOf(lower) == Some(ContentType) <==> lower == "content-type"
    ensures forall name :: SlotOf(lower) == Some(Extension(name)) <==> !IsContext(name) && lower == "ce-" + name
  {
    assert CONTENT_TYPE[1] == 'o' && PREFIX[1] == 'e';
    if PREFIX <= lower {
      var rest := lower[|PREFIX|..];
      assert lower == PREFIX + rest && lower[1] == 'e';
      hide Named;
      NamedNames(rest);
      PrefixedNames(rest);
    } else {
      forall name ensures lower != "ce-" + name {
        assert PREFIX <= "ce-" + name;
      }
      PrefixedBegin();
    }
  }

  lemma NamedNames(rest: string)
    ensures Named(rest) == Version <==> rest == "specversion"
    ensures Named(rest) == Id <==> rest == "id"
    ensures Named(rest) == Source <==> rest == "source"
    ensures Named(rest) == Type <==> rest == "type"
    ensures Named(rest) == Schema <==> rest == "dataschema"
    ensures Named(rest) == Subject <==> rest == "subject"
    ensures Named(rest) == When <==> rest == "time"
    ensures Named(rest) != ContentType
    ensures forall name :: Named(rest) == Extension(name) <==> !IsContext(name) && rest == name
  {
  }

  lemma PrefixedNames(rest: string)
    ensures PREFIX + rest == "ce-specversion" <==> rest == "specversion"
    ensures PREFIX + rest == "ce-id" <==> rest == "id"
    ensures PREFIX + rest == "ce-source" <==> rest == "source"
    ensures PREFIX + rest == "ce-type" <==> rest == "type"
    ensures PREFIX + rest == "ce-dataschema" <==> rest == "dataschema"
    ensures PREFIX + rest == "ce-subject" <==> rest == "subject"
    ensures PREFIX + rest == "ce-time" <==> rest == "time"
    ensures forall name :: PREFIX + rest == "ce-" + name <==> rest == name
  {
    PrefixedOne(rest, "specversion");
    PrefixedOne(rest, "id");
    PrefixedOne(rest, "source");
    PrefixedOne(rest, "type");
    PrefixedOne(rest, "dataschema");
    PrefixedOne(rest, "subject");
    PrefixedOne(rest, "time");
    forall name ensures PREFIX + rest == "ce-" + name <==> rest == name {
      PrefixedOne(rest, name);
    }
    assert PREFIX + "specversion" == "ce-specversion" && PREFIX + "id" == "ce-id" && PREFIX + "source" == "ce-source";
    assert PREFIX + "type" == "ce-type" && PREFIX + "dataschema" == "ce-dataschema" && PREFIX + "subject" == "ce-subject";
    assert PREFIX + "time" == "ce-time";
  }

  lemma PrefixedOne(rest: string, name: string)
    ensures PREFIX + rest == PREFIX + name <==> rest == name
  {
    assert (PREFIX + rest)[|PREFIX|..] == rest && (PREFIX + name)[|PREFIX|..] == name;
  }

  lemma PrefixedBegin()
    ensures PREFIX <= "ce-specversion" && PREFIX <= "ce-id" && PREFIX <= "ce-source" && PREFIX <= "ce-type"
    ensures PREFIX <= "ce-dataschema" && PREFIX <= "ce-subject" && PREFIX <= "ce-time"
  {
  }

  /** The header carries the slot for the event. */
  predicate Carries(h: Header, key: string, slot: Slot)
    requires key in h
  {
    Counts(h, key) && SlotOf(Lower(key)) == Some(slot)
  }

  /** One field, when one more header is read. */
  lemma FieldNext(h: Header, keys: set<string>, key: string, slot: Slot, name: string, v: string)
    requires key in h && (SlotOf(Lower(key)) == Some(slot) <==> Lower(key) == name) && ReadAs(h, keys, name, v)
    ensures ReadAs(h, keys + {key}, name, if Carries(h, key, slot) then h[key][0] else v)
  {
    hide SlotOf, Lower;
    if Carries(h, key, slot) {
      assert Spells(h, key, name);
    } else {
      assert !Spells(h, key, name);
    }
  }

  lemma TimeNext(h: Header, keys: set<string>, key: string, t: Time, clock: Clockwork)
    requires key in h && (SlotOf(Lower(key)) == Some(When) <==> Lower(key) == "ce-time") && TimeReadAs(h, keys, clock, t)
    requires Carries(h, key, When) ==> clock.parse(h[key][0]).Some?
    ensures TimeReadAs(h, keys + {key}, clock, if Carries(h, key, When) then clock.parse(h[key][0]).value else t)
  {
    hide SlotOf, Lower;
    if Carries(h, key, When) {
      assert Spells(h, key, "ce-time");
    } else {
      assert !Spells(h, key, "ce-time");
    }
  }

  lemma ExtensionsNext(h: Header, keys: set<string>, key: string, extensions: map<string, string>,
                       extensions': map<string, string>)
    requires key in h && ExtensionsReadAs(h, keys, extensions)
    requires forall name :: SlotOf(Lower(key)) == Some(Extension(name)) <==> !IsContext(name) && Lower(key) == "ce-" + name
    requires if exists name :: Carries(h, key, Extension(name)) then
               exists name :: Carries(h, key, Extension(name)) && extensions' == extensions[name := h[key][0]]
             else extensions' == extensions
    ensures ExtensionsReadAs(h, keys + {key}, extensions')
  {
    hide SlotOf, Lower, IsContext;
    var keys' := keys + {key};
    forall name | !IsContext(name) ensures Spells(h, key, "ce-" + name) <==> Carries(h, key, Extension(name)) {
    }
    forall name
      ensures name in extensions' <==> !IsContext(name) && exists k :: k in keys' && Spells(h, k, "ce-" + name)
    {
      if !IsContext(name) && Carries(h, key, Extension(name)) {
        assert key in keys' && Spells(h, key, "ce-" + name);
      }
    }
    forall name | name in extensions' ensures ReadAs(h, keys', "ce-" + name, extensions'[name]) {
      if Carries(h, key, Extension(name)) {
        assert key in keys' && Spells(h, key, "ce-" + name);
      } else {
        assert name in extensions && ReadAs(h, keys, "ce-" + name, extensions[name]);
      }
    }
  }

  ghost predicate DraftReadAs(h: Header, keys: set<string>, clock: Clockwork, d: Draft) {
    ReadAs(h, keys, "ce-specversion", d.version) && EventReadAs(h, keys, clock, d.event)
  }

  /** What one header read sets, field by field. */
  lemma ReadSets(h: Header, d: Draft, key: string, clock: Clockwork)
    requires key in h && Read(h, d, key, clock).Ok?
    ensures var next, v, e := Read(h, d, key, clock).value, if Counts(h, key) then h[key][0] else "", d.event;
            && next.version == (if Carries(h, key, Version) then v else d.version)
            && next.event.id == (if Carries(h, key, Id) then v else e.id)
            && next.event.source == (if Carries(h, key, Source) then v else e.source)
            && next.event.typ == (if Carries(h, key, Type) then v else e.typ)
            && next.event.dataSchema == (if Carries(h, key, Schema) then v else e.dataSchema)
            && next.event.subject == (if Carries(h, key, Subject) then v else e.subject)
            && next.event.dataContentType == (if Carries(h, key, ContentType) then v else e.dataContentType)
            && (Carries(h, key, When) ==> clock.parse(v).Some?)
            && next.event.time == (if Carries(h, key, When) then clock.parse(v).value else e.time)
            && next.event.data == e.data
    ensures if exists name :: Carries(h, key, Extension(name)) then
              exists name :: && Carries(h, key, Extension(name))
                             && Extensions(Read(h, d, key, clock).value.event) == Extensions(d.event)[name := h[key][0]]
            else Extensions(Read(h, d, key, clock).value.event) == Extensions(d.event)
  {
    hide SlotOf, Lower;
    if Counts(h, key) && SlotOf(Lower(key)).Some? && SlotOf(Lower(key)).value.Extension? {
      assert Carries(h, key, Extension(SlotOf(Lower(key)).value.name));
    }
  }

  lemma ReadNext(h: Header, keys: set<string>, d: Draft, key: string, clock: Clockwork)
    requires key in h && DraftReadAs(h, keys, clock, d) && Read(h, d, key, clock).Ok?
    ensures DraftReadAs(h, keys + {key}, clock, Read(h, d, key, clock).value)
  {
    var next := Read(h, d, key, clock).value;
    ReadSets(h, d, key, clock);
    SlotNames(Lower(key));
    hide SlotOf, Lower, ReadAs, TimeReadAs, ExtensionsReadAs, IsContext, Read, Extensions;
    FieldNext(h, keys, key, Version, "ce-specversion", d.version);
    FieldNext(h, keys, key, Id, "ce-id", d.event.id);
    FieldNext(h, keys, key, Source, "ce-source", d.event.source);
    FieldNext(h, keys, key, Type, "ce-type", d.event.typ);
    FieldNext(h, keys, key, Schema, "ce-dataschema", d.event.dataSchema);
    FieldNext(h, keys, key, Subject, "ce-subject", d.event.subject);
    FieldNext(h, keys, key, ContentType, "content-type", d.event.dataContentType);
    TimeNext(h, keys, key, d.event.time, clock);
    ExtensionsNext(h, keys, key, Extensions(d.event), Extensions(next.event));
  }

  lemma NothingRead(h: Header, clock: Clockwork)
    ensures DraftReadAs(h, {}, clock, BLANK)
  {
  }

  lemma BadTimeIsRead(h: Header, d: Draft, key: string, body: seq<bv8>, clock: Clockwork)
    requires key in h && Read(h, d, key, clock).Err?
    ensures Reads(h, body, clock, Err(BadTime))
  {
    SlotNames(Lower(key));
    hide SlotOf, Lower, IsContext;
    assert Spells(h, key, "ce-time");
  }

  lemma FinishReads(h: Header, d: Draft, body: seq<bv8>, clock: Clockwork)
    requires DraftReadAs(h, h.Keys, clock, d) && d.event.data.None?
    ensures Reads(h, body, clock, Finish(d, body))
  {
    hide ReadAs, TimeReadAs, ExtensionsReadAs;
    var e := if body == [] then d.event else d.event.(data := Some(body));
    assert EventReadAs(h, h.Keys, clock, e);
  }

  /** The event of headers and a body, the headers read in whatever order the map gives them. */
  method Decode(h: Header, body: seq<bv8>, clock: Clockwork) returns (r: Result<Event>)
    ensures IsOutcome(h, body, clock, r)
    ensures Reads(h, body, clock, r)
  {
    hide DraftReadAs, Reads;
    NothingRead(h, clock);
    var d := BLANK;
    ghost var order: seq<string>, seen: set<string> := [], {};
    var left := h.Keys;
    while left != {}
      invariant left <= h.Keys
      invariant Distinct(order) && forall k :: k in order <==> k in h && k !in left
      invariant ReadAll(h, order, clock) == Ok(d) && d.event.data.None?
      invariant DraftReadAs(h, seen, clock, d) && seen == h.Keys - left
    {
      hide ReadAll, Read;
      var key :| key in left;
      ReadAllNext(h, order, key, clock);
      var next := Read(h, d, key, clock);
      order := order + [key];
      if next.Err? {
        ReadFails(h, d, key, clock);
        BadTimeIsRead(h, d, key, body, clock);
        assert Distinct(order) && (forall k | k in order :: k in h) && Err(next.error) == DecodeIn(h, order, body, clock);
        return Err(next.error);
      }
      ReadNext(h, seen, d, key, clock);
      ReadSets(h, d, key, clock);
      d, seen := next.value, seen + {key};
      left := left - {key};
    }
    assert seen == h.Keys;
    FinishReads(h, d, body, clock);
    r := Finish(d, body);
    assert IsOrder(h, order) && r == DecodeIn(h, order, body, clock);
  }

  lemma ReadAllNext(h: Header, order: seq<string>, key: string, clock: Clockwork)
    requires key in h && forall k | k in order :: k in h
    ensures var before := ReadAll(h, order, clock);
            ReadAll(h, order + [key], clock) == if before.Err? then before else Read(h, before.value, key, clock)
  {
    assert (order + [key])[..|order|] == order;
  }

  lemma ReadFails(h: Header, d: Draft, key: string, clock: Clockwork)
    requires key in h && Read(h, d, key, clock).Err?
    ensures Read(h, d, key, clock) == Err(BadTime)
  {
  }
}
