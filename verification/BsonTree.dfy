/** Conversion between JSON and BSON trees (src/common/util/bson.cpp). */
module BsonTree {
  import opened Arithmetic
  import opened Wrappers
  import opened Decimal
  import IsoDate

  // ---- the trees ----

  datatype Json =
    | Null
    | Bool(b: bool)
    | Int64(i: int)
    | UInt64(u: nat)
    | Double(text: string)
    | String(s: string)
    | Array(items: seq<Json>)
    | Object(fields: seq<Field>)

  datatype Field = Field(key: string, value: Json)

  type nibble = n: int | 0 <= n < 16

  /** An ObjectId is its 24 hexadecimal digits, a date its milliseconds; `Other` is any type the conversions skip. */
  datatype Bson =
    | Boolean(b: bool)
    | Int32(i: int)
    | Long(i: int)
    | Real(text: string)
    | Oid(digits: seq<nibble>)
    | Date(ms: int)
    | Text(s: string)
    | List(elements: seq<Bson>)
    | Document(members: seq<Member>)
    | Other

  datatype Member = Member(key: string, value: Bson)

  // ---- strings ----

  predicate IsHex(c: char) { '0' <= c <= '9' || 'a' <= c <= 'f' || 'A' <= c <= 'F' }

  function HexValue(c: char): nibble
    requires IsHex(c)
  {
    if c <= '9' then c as int - '0' as int
    else if c <= 'F' then c as int - 'A' as int + 10
    else c as int - 'a' as int + 10
  }

  function HexDigit(n: nibble): char {
    if n < 10 then (n + '0' as int) as char else (n - 10 + 'a' as int) as char
  }

  function Lower(c: char): char {
    if 'A' <= c <= 'Z' then (c as int - 'A' as int + 'a' as int) as char else c
  }

  function OidText(digits: seq<nibble>): string {
    seq(|digits|, i requires 0 <= i < |digits| => HexDigit(digits[i]))
  }

  /** Text that `bsoncxx::oid` accepts. */
  predicate IsOid(s: string) { |s| == 24 && forall i :: 0 <= i < |s| ==> IsHex(s[i]) }

  function OidOf(s: string): (digits: seq<nibble>)
    requires IsOid(s)
    ensures |digits| == 24
  {
    seq(|s|, i requires 0 <= i < |s| => HexValue(s[i]))
  }

  /** Text that is tried as a date. */
  predicate MayBeDate(s: string) { s != "" && IsDigit(s[0]) && '-' in s }

  datatype Parsed = Nothing | AsOid(digits: seq<nibble>) | AsDate(micros: int) | AsText(s: string)

  function ParseString(s: string): Parsed {
    if s == "" then Nothing
    else if |s| == 24 && '-' !in s && IsOid(s) then AsOid(OidOf(s))
    else if MayBeDate(s) && IsoDate.Parse(s).Ok? then AsDate(IsoDate.Parse(s).value)
    else AsText(s)
  }

  // ---- JSON to BSON ----

  /** The ticks of the system clock in a microsecond: from a clock of microseconds to one of nanoseconds. */
  type Clock = c: nat | 1 <= c <= 1000 witness 1

  /** A date on its way into BSON passes through the system clock's 64-bit ticks; on overflow they wrap. */
  function ToDate(clock: Clock, micros: int): int {
    Truncated(Wrapped(micros * clock), 1000 * clock)
  }

  /** None for what is left out of the result. */
  function ToBson(clock: Clock, j: Json): Option<Bson>
    decreases j
  {
    match j
    case Null => None
    case Bool(b) => Some(Boolean(b))
    case Int64(i) => Some(Long(i))
    case UInt64(u) => Some(Long(Wrapped(u)))
    case Double(text) => Some(Real(text))
    case String(s) =>
      (match ParseString(s)
       case Nothing => None
       case AsOid(digits) => Some(Oid(digits))
       case AsDate(micros) => Some(Date(ToDate(clock, micros)))
       case AsText(text) => Some(Text(text)))
    case Array(items) => Some(List(ToElements(clock, items)))
    case Object(fields) => Some(Document(ToMembers(clock, fields)))
  }

  function ToElements(clock: Clock, items: seq<Json>): seq<Bson>
    decreases items
  {
    if items == [] then []
    else
      var rest, last := ToElements(clock, items[..|items| - 1]), ToBson(clock, items[|items| - 1]);
      if last.None? then rest else rest + [last.value]
  }

  function ToMembers(clock: Clock, fields: seq<Field>): seq<Member>
    decreases fields
  {
    if fields == [] then []
    else
      var field := fields[|fields| - 1];
      var rest, last := ToMembers(clock, fields[..|fields| - 1]), ToBson(clock, field.value);
      if last.None? then rest else rest + [Member(field.key, last.value)]
  }

  // ---- BSON to JSON ----

  /** Dates the ISO 8601 printer covers, at every depth. */
  predicate Printable(b: Bson)
    decreases b
  {
    match b
    case Date(ms) => 0 <= ms * 1000 < IsoDate.END
    case List(elements) => forall x :: x in elements ==> Printable(x)
    case Document(members) => forall m :: m in members ==> Printable(m.value)
    case Boolean(_) => true
    case Int32(_) => true
    case Long(_) => true
    case Real(_) => true
    case Oid(_) => true
    case Text(_) => true
    case Other => true
  }

  predicate HasKey(fields: seq<Field>, key: string) { exists f :: f in fields && f.key == key }

  /** `emplace` leaves an existing field alone. */
  function Emplace(fields: seq<Field>, key: string, value: Json): seq<Field> {
    if HasKey(fields, key) then fields else fields + [Field(key, value)]
  }

  function FromBson(b: Bson): Option<Json>
    requires Printable(b)
    decreases b
  {
    match b
    case Boolean(v) => Some(Bool(v))
    case Int32(i) => Some(Int64(i))
    case Long(i) => Some(Int64(i))
    case Real(text) => Some(Double(text))
    case Oid(digits) => Some(String(OidText(digits)))
    case Date(ms) => Some(String(IsoDate.IsoMillis(ms * 1000)))
    case Text(s) => Some(String(s))
    case List(elements) => Some(Array(FromElements(elements)))
    case Document(members) => Some(Object(FromMembers(members)))
    case Other => None
  }

  function FromElements(elements: seq<Bson>): seq<Json>
    requires forall x :: x in elements ==> Printable(x)
    decreases elements
  {
    if elements == [] then []
    else
      var rest, last := FromElements(elements[..|elements| - 1]), FromBson(elements[|elements| - 1]);
      if last.None? then rest else rest + [last.value]
  }

  function FromMembers(members: seq<Member>): seq<Field>
    requires forall m :: m in members ==> Printable(m.value)
    decreases members
  {
    if members == [] then []
    else
      var member := members[|members| - 1];
      var rest, last := FromMembers(members[..|members| - 1]), FromBson(member.value);
      if last.None? then rest else Emplace(rest, member.key, last.value)
  }

  // ---- the conversions as loops ----

  method ToBsonArray(clock: Clock, json: seq<Json>) returns (arr: seq<Bson>)
    ensures arr == ToElements(clock, json)
    decreases json
  {
    arr := [];
    for n := 0 to |json|
      invariant arr == ToElements(clock, json[..n])
    {
      var item := json[n];
      assert json[..n + 1][..n] == json[..n];
      match item {
        case Bool(b) => arr := arr + [Boolean(b)];
        case Array(items) =>
          var inner := ToBsonArray(clock, items);
          arr := arr + [List(inner)];
        case Object(fields) =>
          var inner := ToBsonObject(clock, fields);
          arr := arr + [Document(inner)];
        case String(s) =>
          match ParseString(s) {
            case AsOid(digits) => arr := arr + [Oid(digits)];
            case AsDate(micros) => arr := arr + [Date(ToDate(clock, micros))];
            case AsText(text) => arr := arr + [Text(text)];
            case Nothing =>
          }
        case Double(text) => arr := arr + [Real(text)];
        case Int64(i) => arr := arr + [Long(i)];
        case UInt64(u) => arr := arr + [Long(Wrapped(u))];
        case Null =>
      }
    }
    assert json[..|json|] == json;
  }

  method ToBsonObject(clock: Clock, json: seq<Field>) returns (obj: seq<Member>)
    ensures obj == ToMembers(clock, json)
    decreases json
  {
    obj := [];
    for n := 0 to |json|
      invariant obj == ToMembers(clock, json[..n])
    {
      var Field(key, value) := json[n];
      assert json[..n + 1][..n] == json[..n];
      match value {
        case Bool(b) => obj := obj + [Member(key, Boolean(b))];
        case Array(items) =>
          var inner := ToBsonArray(clock, items);
          obj := obj + [Member(key, List(inner))];
        case Object(fields) =>
          var inner := ToBsonObject(clock, fields);
          obj := obj + [Member(key, Document(inner))];
        case String(s) =>
          match ParseString(s) {
            case AsOid(digits) => obj := obj + [Member(key, Oid(digits))];
            case AsDate(micros) => obj := obj + [Member(key, Date(ToDate(clock, micros)))];
            case AsText(text) => obj := obj + [Member(key, Text(text))];
            case Nothing =>
          }
        case Double(text) => obj := obj + [Member(key, Real(text))];
        case Int64(i) => obj := obj + [Member(key, Long(i))];
        case UInt64(u) => obj := obj + [Member(key, Long(Wrapped(u)))];
        case Null =>
      }
    }
    assert json[..|json|] == json;
  }

  method FromBsonArray(bson: seq<Bson>) returns (arr: seq<Json>)
    requires forall x :: x in bson ==> Printable(x)
    ensures arr == FromElements(bson)
    decreases bson
  {
    arr := [];
    for n := 0 to |bson|
      invariant arr == FromElements(bson[..n])
    {
      var item := bson[n];
      assert item in bson && Printable(item);
      assert bson[..n + 1][..n] == bson[..n];
      match item {
        case Boolean(b) => arr := arr + [Bool(b)];
        case Int32(i) => arr := arr + [Int64(i)];
        case Long(i) => arr := arr + [Int64(i)];
        case Real(text) => arr := arr + [Double(text)];
        case Oid(digits) => arr := arr + [String(OidText(digits))];
        case Date(ms) =>
          var text := IsoDate.IsoDateMillis(ms * 1000);
          arr := arr + [String(text)];
        case Text(s) => arr := arr + [String(s)];
        case List(elements) =>
          var inner := FromBsonArray(elements);
          arr := arr + [Array(inner)];
        case Document(members) =>
          var inner := FromBsonDocument(members);
          arr := arr + [Object(inner)];
        case Other =>
      }
    }
    assert bson[..|bson|] == bson;
  }

  method FromBsonDocument(bson: seq<Member>) returns (obj: seq<Field>)
    requires forall m :: m in bson ==> Printable(m.value)
    ensures obj == FromMembers(bson)
    decreases bson
  {
    obj := [];
    for n := 0 to |bson|
      invariant obj == FromMembers(bson[..n])
    {
      var Member(key, value) := bson[n];
      assert bson[n] in bson && Printable(value);
      assert bson[..n + 1][..n] == bson[..n];
      match value {
        case Boolean(b) => obj := Emplace(obj, key, Bool(b));
        case Int32(i) => obj := Emplace(obj, key, Int64(i));
        case Long(i) => obj := Emplace(obj, key, Int64(i));
        case Real(text) => obj := Emplace(obj, key, Double(text));
        case Oid(digits) => obj := Emplace(obj, key, String(OidText(digits)));
        case Date(ms) =>
          var text := IsoDate.IsoDateMillis(ms * 1000);
          obj := Emplace(obj, key, String(text));
        case Text(s) => obj := Emplace(obj, key, String(s));
        case List(elements) =>
          var inner := FromBsonArray(elements);
          obj := Emplace(obj, key, Array(inner));
        case Document(members) =>
          var inner := FromBsonDocument(members);
          obj := Emplace(obj, key, Object(inner));
        case Other =>
      }
    }
    assert bson[..|bson|] == bson;
  }

  // ---- toJson, the other conversion from BSON ----

  method ToJsonArray(view: seq<Bson>) returns (arr: seq<Json>)
    requires forall x :: x in view ==> Printable(x)
    ensures arr == FromElements(view)
    decreases view
  {
    arr := [];
    for n := 0 to |view|
      invariant arr == FromElements(view[..n])
    {
      var e := view[n];
      assert e in view && Printable(e);
      assert view[..n + 1][..n] == view[..n];
      match e {
        case List(elements) =>
          var inner := ToJsonArray(elements);
          arr := arr + [Array(inner)];
        case Document(members) =>
          var inner := ToJsonDocument(members);
          arr := arr + [Object(inner)];
        case Boolean(b) => arr := arr + [Bool(b)];
        case Date(ms) =>
          var micros := ms * 1000;
          var text := IsoDate.IsoDateMillis(micros);
          arr := arr + [String(text)];
        case Real(text) => arr := arr + [Double(text)];
        case Int32(i) => arr := arr + [Int64(i)];
        case Long(i) => arr := arr + [Int64(i)];
        case Oid(digits) => arr := arr + [String(OidText(digits))];
        case Text(s) => arr := arr + [String(s)];
        case Other =>
      }
    }
    assert view[..|view|] == view;
  }

  method ToJsonDocument(view: seq<Member>) returns (root: seq<Field>)
    requires forall m :: m in view ==> Printable(m.value)
    ensures root == FromMembers(view)
    decreases view
  {
    root := [];
    for n := 0 to |view|
      invariant root == FromMembers(view[..n])
    {
      var Member(key, value) := view[n];
      assert view[n] in view && Printable(value);
      assert view[..n + 1][..n] == view[..n];
      match value {
        case List(elements) =>
          var inner := ToJsonArray(elements);
          root := Emplace(root, key, Array(inner));
        case Document(members) =>
          var inner := ToJsonDocument(members);
          root := Emplace(root, key, Object(inner));
        case Boolean(b) => root := Emplace(root, key, Bool(b));
        case Date(ms) =>
          var micros := ms * 1000;
          var text := IsoDate.IsoDateMillis(micros);
          root := Emplace(root, key, String(text));
        case Real(text) => root := Emplace(root, key, Double(text));
        case Int32(i) => root := Emplace(root, key, Int64(i));
        case Long(i) => root := Emplace(root, key, Int64(i));
        case Oid(digits) => root := Emplace(root, key, String(OidText(digits)));
        case Text(s) => root := Emplace(root, key, String(s));
        case Other =>
      }
    }
    assert view[..|view|] == view;
  }
}
