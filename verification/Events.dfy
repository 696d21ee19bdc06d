/** A CloudEvents event, and when it is one. */
module Events {
  import opened World

  /** An instant, in nanoseconds of UTC, and the zone it is told in. */
  datatype Time = Time(instant: int, zone: int)

  const UTC := 0

  /** The time no event has: an attribute left out. */
  const NO_TIME := Time(-62_135_596_800_000_000_000, UTC)

  /** Data and extensions are none, or some, of which none at all may be some. */
  datatype Event = Event(id: string, source: string, typ: string, subject: string, dataContentType: string,
                         dataSchema: string, time: Time, data: Option<seq<bv8>>, extensions: Option<map<string, string>>)

  /** A way an event breaks the specification. */
  datatype Fault = NoId | NoSource | NoType | EmptyName | NameNotLower(name: string) | NameReserved(name: string)

  const RESERVED := {"id", "source", "specversion", "type", "datacontenttype", "dataschema", "subject", "time", "data"}

  predicate IsLowerAlnum(c: char) {
    'a' <= c <= 'z' || '0' <= c <= '9'
  }

  predicate IsName(name: string) {
    name != "" && (forall c | c in name :: IsLowerAlnum(c)) && name !in RESERVED
  }

  function Extensions(e: Event): map<string, string> {
    if e.extensions.Some? then e.extensions.value else map[]
  }

  predicate IsValid(e: Event) {
    && e.id != "" && e.source != "" && e.typ != ""
    && forall name | name in Extensions(e) :: IsName(name)
  }

  method CheckName(name: string) returns (fault: Option<Fault>)
    ensures fault.None? <==> IsName(name)
  {
    if name == "" {
      return Some(EmptyName);
    }
    for i := 0 to |name|
      invariant forall j | 0 <= j < i :: IsLowerAlnum(name[j])
    {
      if !IsLowerAlnum(name[i]) {
        assert name[i] in name;
        return Some(NameNotLower(name));
      }
    }
    fault := if name in RESERVED then Some(NameReserved(name)) else None;
  }

  /** Every way the event breaks the specification; none when it is valid. */
  method Validate(e: Event) returns (faults: seq<Fault>)
    ensures faults == [] <==> IsValid(e)
  {
    faults := [];
    if e.id == "" {
      faults := faults + [NoId];
    }
    if e.source == "" {
      faults := faults + [NoSource];
    }
    if e.typ == "" {
      faults := faults + [NoType];
    }
    var names := Extensions(e);
    var left := names.Keys;
    while left != {}
      invariant left <= names.Keys
      invariant faults == [] <==> && e.id != "" && e.source != "" && e.typ != ""
                                  && forall name | name in names && name !in left :: IsName(name)
    {
      var name :| name in left;
      var fault := CheckName(name);
      hide IsName;
      if fault.Some? {
        faults := faults + [fault.value];
      }
      left := left - {name};
    }
  }
}
