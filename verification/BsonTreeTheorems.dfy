/** What the two conversions of src/common/util/bson.cpp do to a tree together. */
module BsonTreeTheorems {
  import opened Arithmetic
  import opened Wrappers
  import opened Decimal
  import opened BsonTree
  import IsoDate
  import IsoDateTheorems

  // ---- strings ----

  function Lowered(s: string): string { seq(|s|, i requires 0 <= i < |s| => Lower(s[i])) }

  /** Printing an ObjectId lowers its letters and changes nothing else. */
  lemma OidTextOf(s: string)
    requires IsOid(s)
    ensures OidText(OidOf(s)) == Lowered(s)
  {
  }

  lemma OidTextIsRead(digits: seq<nibble>)
    requires |digits| == 24
    ensures ParseString(OidText(digits)) == AsOid(digits)
  {
    var s := OidText(digits);
    assert forall i :: 0 <= i < |s| ==> IsHex(s[i]) && HexValue(s[i]) == digits[i] && s[i] != '-';
    assert OidOf(s) == digits;
  }

  lemma DateTextIsRead(ms: int)
    requires 0 <= ms * 1000 < IsoDate.END
    ensures MayBeDate(IsoDate.IsoMillis(ms * 1000))
    ensures ParseString(IsoDate.IsoMillis(ms * 1000)) == AsDate(ms * 1000)
  {
    DateTextShape(ms * 1000);
    IsoDateTheorems.ParsePrinted(ms * 1000);
    hide *;
    assert ms * 1000 / 1000 == ms;
    DateIsParsed(IsoDate.IsoMillis(ms * 1000), ms * 1000);
  }

  lemma DateIsParsed(s: string, micros: int)
    requires MayBeDate(s) && IsoDate.Parse(s) == Ok(micros)
    ensures ParseString(s) == AsDate(micros)
  {
    hide IsoDate.Parse;
  }

  lemma YearShape(year: int)
    requires 0 <= year < 10000
    ensures |Dec4(year)| == 4 && IsDigit(Dec4(year)[0])
  {
  }

  lemma DateTextShape(t: int)
    requires 0 <= t < IsoDate.END
    ensures MayBeDate(IsoDate.IsoMillis(t))
  {
    var f := IsoDate.FieldsOf(t);
    YearShape(f.date.year);
    hide IsoDate.FieldsOf, Dec2, Dec3, Dec4;
    var s := IsoDate.IsoMillis(t);
    assert s[0] == Dec4(f.date.year)[0] && s[4] == '-';
  }

  /** What a string is taken for: an ObjectId if it is 24 hexadecimal digits, a date if it starts with a
      digit, has a hyphen and parses as one, and else the text it is, unless it is empty. */
  lemma StringKinds(s: string)
    ensures ParseString(s).AsOid? <==>
      |s| == 24 && forall i :: 0 <= i < 24 ==> '0' <= s[i] <= '9' || 'a' <= s[i] <= 'f' || 'A' <= s[i] <= 'F'
    ensures ParseString(s).AsDate? <==>
      |s| > 0 && '0' <= s[0] <= '9' && (exists i :: 0 <= i < |s| && s[i] == '-') && IsoDate.Parse(s).Ok?
    ensures ParseString(s).AsText? ==> ParseString(s).s == s
    ensures ParseString(s).Nothing? <==> s == ""
  {
    hide IsoDate.Parse;
    assert IsOid(s) ==> forall i :: 0 <= i < |s| ==> IsHex(s[i]) && s[i] != '-';
  }

  /** Truth values and numbers mean the same in BSON; an unsigned number becomes the 64-bit one with the
      same bits. */
  lemma ScalarsMean(clock: Clock, j: Json)
    ensures j.Bool? ==> ToBson(clock, j) == Some(Boolean(j.b))
    ensures j.Int64? ==> ToBson(clock, j) == Some(Long(j.i))
    ensures j.Double? ==> ToBson(clock, j) == Some(Real(j.text))
    ensures j.UInt64? ==> exists i ::
      && ToBson(clock, j) == Some(Long(i)) && -0x8000_0000_0000_0000 <= i < 0x8000_0000_0000_0000
      && (j.u - i) % 0x1_0000_0000_0000_0000 == 0
  {
    if j.UInt64? {
      var m := 0x1_0000_0000_0000_0000;
      assert Wrapped(j.u) == j.u % m || Wrapped(j.u) == j.u % m - m;
      assert j.u - j.u % m == m * (j.u / m);
      assert ToBson(clock, j) == Some(Long(Wrapped(j.u)));
    }
  }

  // ---- dates and the system clock ----

  lemma Less(a: int, b: int, c: int)
    requires a < b && c > 0
    ensures a * c < b * c
  {
  }

  lemma Times(q: int, r: int, c: int)
    ensures (1000 * q + r) * c == (1000 * c) * q + r * c
  {
    assert (1000 * q + r) * c == 1000 * q * c + r * c;
    assert 1000 * q * c == 1000 * (q * c) == (1000 * c) * q;
  }

  lemma Scaled(micros: int, clock: Clock)
    requires micros >= 0
    ensures (micros * clock) / (1000 * clock) == micros / 1000
    ensures micros / 1000 * (1000 * clock) > micros * clock - 1000 * clock
    ensures micros / 1000 * 1000 * clock <= micros * clock
  {
    hide *;
    var q, r := micros / 1000, micros % 1000;
    var d, rest := 1000 * clock, r * clock;
    assert micros == 1000 * q + r;
    Times(q, r, clock);
    Times(q, 0, clock);
    Less(r, 1000, clock);
    if r > 0 { Less(0, r, clock); }
    assert 0 <= rest < d;
    Quotient(micros * clock, d, q, rest);
    assert q * d == d * q;
  }

  /** A date survives the passage through the system clock, to the millisecond, exactly if it fits. */
  lemma DateKeptIff(clock: Clock, micros: int)
    requires micros >= 0
    ensures ToDate(clock, micros) == micros / 1000 <==> InClock(clock, micros)
  {
    var n, d, q := micros * clock, 1000 * clock, micros / 1000;
    Scaled(micros, clock);
    assert n >= 0 && q >= 0 && q * d >= 0;
    if !InClock(clock, micros) && ToDate(clock, micros) == q {
      Lost(Wrapped(n), d, q);
    }
  }

  lemma Lost(w: int, d: int, q: int)
    requires d > 0 && q >= 0 && Truncated(w, d) == q
    ensures w > q * d - d
  {
    assert q * d - d == (q - 1) * d;
    if w < 0 {
      assert q <= 0;
    }
  }

  // ---- which trees come back from JSON ----

  function Keys(fields: seq<Field>): set<string> { set f | f in fields :: f.key }

  function MemberKeys(members: seq<Member>): set<string> { set m | m in members :: m.key }

  predicate Unique(fields: seq<Field>) {
    forall i, j :: 0 <= i < j < |fields| ==> fields[i].key != fields[j].key
  }

  predicate UniqueMembers(members: seq<Member>) {
    forall i, j :: 0 <= i < j < |members| ==> members[i].key != members[j].key
  }

  /** The instant fits the 64-bit ticks of the system clock. */
  predicate InClock(clock: Clock, micros: int) { micros * clock < 0x8000_0000_0000_0000 }

  /** Trees JSON can carry: no 32-bit integers, no skipped types, no repeated keys, no string that is
      empty or would be taken for something else, and no date beyond the system clock. */
  predicate Native(clock: Clock, b: Bson)
    decreases b
  {
    match b
    case Boolean(_) => true
    case Int32(_) => false
    case Long(_) => true
    case Real(_) => true
    case Oid(digits) => |digits| == 24
    case Date(ms) => InClock(clock, ms * 1000)
    case Text(s) => ParseString(s) == AsText(s)
    case List(elements) => forall x :: x in elements ==> Native(clock, x)
    case Document(members) => UniqueMembers(members) && forall m :: m in members ==> Native(clock, m.value)
    case Other => false
  }

  lemma EmplaceIs(fields: seq<Field>, key: string, value: Json)
    ensures Emplace(fields, key, value) == if key in Keys(fields) then fields else fields + [Field(key, value)]
    ensures Keys(fields + [Field(key, value)]) == Keys(fields) + {key}
  {
    var all := fields + [Field(key, value)];
    assert all[|fields|] in all;
    forall k | k in Keys(fields) ensures k in Keys(all) {
      var f :| f in fields && f.key == k;
      assert f in all;
    }
  }

  lemma MemberKeysAppended(members: seq<Member>, m: Member)
    ensures MemberKeys(members + [m]) == MemberKeys(members) + {m.key}
  {
    var all := members + [m];
    assert all[|members|] in all;
    forall k | k in MemberKeys(members) ensures k in MemberKeys(all) {
      var f :| f in members && f.key == k;
      assert f in all;
    }
  }

  lemma {:induction false} FromKeys(members: seq<Member>)
    requires forall m :: m in members ==> Printable(m.value)
    ensures Keys(FromMembers(members)) <= MemberKeys(members)
  {
    if members != [] {
      var rest, member := members[..|members| - 1], members[|members| - 1];
      FromKeys(rest);
      assert member in members && members == rest + [member];
      MemberKeysAppended(rest, member);
      var last := FromBson(member.value);
      assert FromMembers(members) ==
        if last.None? then FromMembers(rest) else Emplace(FromMembers(rest), member.key, last.value);
      hide FromMembers, FromBson, MemberKeys, Keys, HasKey, Emplace;
      if last.Some? { EmplaceIs(FromMembers(rest), member.key, last.value); }
    }
  }

  lemma {:induction false} ToKeys(clock: Clock, fields: seq<Field>)
    ensures MemberKeys(ToMembers(clock, fields)) <= Keys(fields)
  {
    if fields != [] {
      var rest, f := fields[..|fields| - 1], fields[|fields| - 1];
      ToKeys(clock, rest);
      assert fields == rest + [f];
      EmplaceIs(rest, f.key, f.value);
      var last := ToBson(clock, f.value);
      assert ToMembers(clock, fields) ==
        if last.None? then ToMembers(clock, rest) else ToMembers(clock, rest) + [Member(f.key, last.value)];
      hide ToMembers, ToBson, MemberKeys, Keys, HasKey, Emplace;
      if last.Some? { MemberKeysAppended(ToMembers(clock, rest), Member(f.key, last.value)); }
    }
  }

  lemma ToAppended(clock: Clock, items: seq<Json>, j: Json)
    ensures ToElements(clock, items + [j]) == if ToBson(clock, j).None? then ToElements(clock, items) else ToElements(clock, items) + [ToBson(clock, j).value]
  {
    assert (items + [j])[..|items|] == items;
  }

  lemma ToFieldAppended(clock: Clock, fields: seq<Field>, f: Field)
    ensures ToMembers(clock, fields + [f]) ==
      if ToBson(clock, f.value).None? then ToMembers(clock, fields) else ToMembers(clock, fields) + [Member(f.key, ToBson(clock, f.value).value)]
  {
    assert (fields + [f])[..|fields|] == fields;
  }

  predicate ComesBack(clock: Clock, b: Bson)
    requires Printable(b)
  {
    FromBson(b).Some? && ToBson(clock, FromBson(b).value) == Some(b)
  }

  lemma {:induction false} ElementsComeBackIff(clock: Clock, elements: seq<Bson>)
    requires forall x :: x in elements ==> Printable(x)
    ensures |ToElements(clock, FromElements(elements))| <= |elements|
    ensures (forall x :: x in elements ==> Native(clock, x)) <==> ToElements(clock, FromElements(elements)) == elements
    decreases elements
  {
    if elements != [] {
      var rest, x := elements[..|elements| - 1], elements[|elements| - 1];
      assert elements == rest + [x] && x in elements;
      ElementsComeBackIff(clock, rest);
      ComesBackIff(clock, x);
      hide Native, Printable, FromBson, ToBson;
      var j := FromBson(x);
      if j.Some? { ToAppended(clock, FromElements(rest), j.value); }
    }
  }

  lemma MemberComesBack(clock: Clock, rest: seq<Member>, m: Member)
    requires (forall x :: x in rest ==> Printable(x.value)) && Printable(m.value)
    ensures forall x :: x in rest + [m] ==> Printable(x.value)
    ensures var back := ToMembers(clock, FromMembers(rest)); var all := ToMembers(clock, FromMembers(rest + [m]));
      if ComesBack(clock, m.value) && m.key !in Keys(FromMembers(rest)) then all == back + [m]
      else |all| <= |back| || (|all| == |back| + 1 && all[..|back|] == back && all[|back|] != m)
  {
    hide Printable, FromBson, ToBson, Keys, HasKey, Emplace;
    assert (rest + [m])[..|rest|] == rest;
    var j := FromBson(m.value);
    if j.Some? {
      EmplaceIs(FromMembers(rest), m.key, j.value);
      ToFieldAppended(clock, FromMembers(rest), Field(m.key, j.value));
    }
  }

  lemma {:induction false} MembersComeBackIff(clock: Clock, members: seq<Member>)
    requires forall m :: m in members ==> Printable(m.value)
    ensures |ToMembers(clock, FromMembers(members))| <= |members|
    ensures UniqueMembers(members) && (forall m :: m in members ==> Native(clock, m.value)) <==>
            ToMembers(clock, FromMembers(members)) == members
    decreases members
  {
    if members != [] {
      hide Native, Printable, FromBson, ToBson, FromMembers, ToMembers, UniqueMembers, Keys, MemberKeys, ComesBack;
      var rest, m := members[..|members| - 1], members[|members| - 1];
      assert members == rest + [m] && m in members;
      MembersComeBackIff(clock, rest);
      ComesBackIff(clock, m.value);
      FromKeys(rest);
      ToKeys(clock, FromMembers(rest));
      UniqueAppended(rest, m);
      MemberComesBack(clock, rest, m);
    }
  }

  lemma UniqueAppended(members: seq<Member>, m: Member)
    ensures UniqueMembers(members + [m]) <==> UniqueMembers(members) && m.key !in MemberKeys(members)
  {
    var all := members + [m];
    assert forall i :: 0 <= i < |members| ==> all[i] == members[i];
    if UniqueMembers(all) {
      forall i | 0 <= i < |members| ensures members[i].key != m.key {
        assert all[i].key != all[|members|].key;
      }
    }
  }

  lemma LeafComesBackIff(clock: Clock, b: Bson)
    requires Printable(b) && !b.List? && !b.Document?
    ensures Native(clock, b) <==> ComesBack(clock, b)
  {
    hide OidText, IsoDate.IsoMillis, ParseString, InClock, ToDate;
    match b {
      case Oid(digits) =>
        if |digits| == 24 { OidTextIsRead(digits); } else { ShortOid(digits); }
      case Date(ms) =>
        DateTextIsRead(ms);
        DateKeptIff(clock, ms * 1000);
      case Text(s) => TextIsKept(s);
      case Int32(_) =>
      case Boolean(_) =>
      case Long(_) =>
      case Real(_) =>
      case Other =>
    }
  }

  lemma TextIsKept(s: string)
    ensures ParseString(s).AsText? ==> ParseString(s) == AsText(s)
  {
  }

  /** Writing a BSON tree as JSON and reading it again gives it back exactly if it is native. */
  lemma {:induction false} ComesBackIff(clock: Clock, b: Bson)
    requires Printable(b)
    ensures Native(clock, b) <==> ComesBack(clock, b)
    decreases b
  {
    if b.List? {
      ElementsComeBackIff(clock, b.elements);
      hide UniqueMembers, ToElements, FromElements, OidText, IsoDate.IsoMillis;
    } else if b.Document? {
      MembersComeBackIff(clock, b.members);
      hide UniqueMembers, ToMembers, FromMembers, OidText, IsoDate.IsoMillis;
    } else {
      LeafComesBackIff(clock, b);
    }
  }

  lemma ShortOid(digits: seq<nibble>)
    requires |digits| != 24
    ensures !ParseString(OidText(digits)).AsOid?
  {
  }

  // ---- what becomes of BSON that is not native ----

  /** BSON that says nothing JSON would take for something else: ids have 24 digits, dates are printable
      and fit the clock, and no string reads as anything but itself. */
  predicate Plain(clock: Clock, b: Bson)
    decreases b
  {
    match b
    case Oid(digits) => |digits| == 24
    case Date(ms) => 0 <= ms * 1000 < IsoDate.END && InClock(clock, ms * 1000)
    case Text(s) => ParseString(s) == AsText(s)
    case List(elements) => forall x :: x in elements ==> Plain(clock, x)
    case Document(members) => forall m :: m in members ==> Plain(clock, m.value)
    case Boolean(_) => true
    case Int32(_) => true
    case Long(_) => true
    case Real(_) => true
    case Other => true
  }

  /** The tree with its 32-bit integers widened, without what is skipped, and with the first of equal
      keys only, at every depth. */
  function Kept(b: Bson): Bson
    decreases b
  {
    match b
    case Int32(i) => Long(i)
    case List(elements) => List(KeptElements(elements))
    case Document(members) => Document(KeptMembers(members))
    case Boolean(_) => b
    case Long(_) => b
    case Real(_) => b
    case Oid(_) => b
    case Date(_) => b
    case Text(_) => b
    case Other => b
  }

  function KeptElements(elements: seq<Bson>): seq<Bson>
    decreases elements
  {
    if elements == [] then []
    else
      var rest, last := KeptElements(elements[..|elements| - 1]), elements[|elements| - 1];
      if last.Other? then rest else rest + [Kept(last)]
  }

  function KeptMembers(members: seq<Member>): seq<Member>
    decreases members
  {
    if members == [] then []
    else
      var before, last := members[..|members| - 1], members[|members| - 1];
      var rest := KeptMembers(before);
      if last.value.Other? || Taken(before, last.key) then rest else rest + [Member(last.key, Kept(last.value))]
  }

  /** The key is that of a member that is not skipped. */
  predicate Taken(members: seq<Member>, key: string) {
    exists m :: m in members && m.key == key && !m.value.Other?
  }

  lemma {:induction false} PlainIsPrintable(clock: Clock, b: Bson)
    requires Plain(clock, b)
    ensures Printable(b)
    decreases b
  {
    if b.List? {
      forall x | x in b.elements ensures Printable(x) { PlainIsPrintable(clock, x); }
    } else if b.Document? {
      forall m | m in b.members ensures Printable(m.value) { PlainIsPrintable(clock, m.value); }
    }
  }

  lemma {:induction false} ElementsAreKept(clock: Clock, elements: seq<Bson>)
    requires forall x :: x in elements ==> Plain(clock, x) && Printable(x)
    ensures ToElements(clock, FromElements(elements)) == KeptElements(elements)
    decreases elements
  {
    if elements != [] {
      hide Plain, Printable, FromBson, ToBson, Kept;
      var rest, x := elements[..|elements| - 1], elements[|elements| - 1];
      assert elements == rest + [x] && x in elements;
      ElementsAreKept(clock, rest);
      ReadAgainIsKept(clock, x);
      var j := FromBson(x);
      if j.Some? { ToAppended(clock, FromElements(rest), j.value); }
    }
  }

  lemma {:induction false} KeysTaken(members: seq<Member>)
    requires forall m :: m in members ==> Printable(m.value)
    ensures forall k :: k in Keys(FromMembers(members)) <==> Taken(members, k)
    decreases members
  {
    if members != [] {
      hide Printable, FromBson;
      var rest, m := members[..|members| - 1], members[|members| - 1];
      assert members == rest + [m] && m in members;
      KeysTaken(rest);
      SkippedIff(m.value);
      TakenAppended(rest, m);
      var j := FromBson(m.value);
      assert FromMembers(members) == if j.None? then FromMembers(rest) else Emplace(FromMembers(rest), m.key, j.value);
      hide FromMembers, Taken, Keys, Emplace;
      if j.Some? { EmplaceIs(FromMembers(rest), m.key, j.value); }
    } else {
      assert Keys(FromMembers(members)) == {};
    }
  }

  lemma SkippedIff(b: Bson)
    requires Printable(b)
    ensures FromBson(b).None? <==> b.Other?
  {
  }

  lemma TakenAppended(members: seq<Member>, m: Member)
    ensures forall k :: Taken(members + [m], k) <==> Taken(members, k) || (m.key == k && !m.value.Other?)
  {
    forall k ensures Taken(members + [m], k) <==> Taken(members, k) || (m.key == k && !m.value.Other?) {
      var all := members + [m];
      assert all[|members|] in all;
      if Taken(members, k) {
        var x :| x in members && x.key == k && !x.value.Other?;
        assert x in all;
      }
    }
  }

  lemma {:induction false} MembersAreKept(clock: Clock, members: seq<Member>)
    requires forall m :: m in members ==> Plain(clock, m.value) && Printable(m.value)
    ensures ToMembers(clock, FromMembers(members)) == KeptMembers(members)
    decreases members
  {
    if members != [] {
      hide Plain, Printable, FromBson, ToBson, Kept, Keys, Taken, Emplace;
      var rest, m := members[..|members| - 1], members[|members| - 1];
      assert members == rest + [m] && m in members;
      MembersAreKept(clock, rest);
      ReadAgainIsKept(clock, m.value);
      KeysTaken(rest);
      var j := FromBson(m.value);
      if j.Some? {
        EmplaceIs(FromMembers(rest), m.key, j.value);
        ToFieldAppended(clock, FromMembers(rest), Field(m.key, j.value));
      }
    }
  }

  lemma LeafIsKept(clock: Clock, b: Bson)
    requires Plain(clock, b) && Printable(b) && !b.List? && !b.Document? && !b.Other?
    ensures FromBson(b).Some? && ToBson(clock, FromBson(b).value) == Some(Kept(b))
  {
    if b.Int32? {
    } else {
      LeafComesBackIff(clock, b);
      hide ParseString, OidText, IsoDate.IsoMillis, InClock, FromBson, ToBson;
    }
  }

  /** Whatever BSON becomes as JSON, read again it is the tree with its 32-bit integers widened, what is
      skipped gone, and the first of equal keys left. */
  lemma {:induction false} ReadAgainIsKept(clock: Clock, b: Bson)
    requires Plain(clock, b) && Printable(b)
    ensures FromBson(b).None? <==> b.Other?
    ensures FromBson(b).Some? ==> ToBson(clock, FromBson(b).value) == Some(Kept(b))
    decreases b
  {
    if b.List? {
      ElementsAreKept(clock, b.elements);
    } else if b.Document? {
      MembersAreKept(clock, b.members);
    } else if !b.Other? {
      LeafIsKept(clock, b);
      hide FromBson, ToBson, Kept;
    }
  }

  // ---- what any BSON tree becomes ----

  /** No repeated keys, no nulls and no unsigned numbers, at every depth. */
  predicate Tidy(j: Json)
    decreases j
  {
    match j
    case Null => false
    case UInt64(_) => false
    case Array(items) => forall x :: x in items ==> Tidy(x)
    case Object(fields) => Unique(fields) && forall f :: f in fields ==> Tidy(f.value)
    case Bool(_) => true
    case Int64(_) => true
    case Double(_) => true
    case String(_) => true
  }

  lemma {:induction false} FromElementsTidy(elements: seq<Bson>)
    requires forall x :: x in elements ==> Printable(x)
    ensures forall j :: j in FromElements(elements) ==> Tidy(j)
    decreases elements
  {
    if elements != [] {
      var rest, b := elements[..|elements| - 1], elements[|elements| - 1];
      assert elements == rest + [b] && b in elements;
      FromElementsTidy(rest);
      FromBsonTidy(b);
      hide Tidy, Printable, FromBson;
    }
  }

  lemma {:induction false} FromMembersTidy(members: seq<Member>)
    requires forall m :: m in members ==> Printable(m.value)
    ensures Unique(FromMembers(members))
    ensures forall f :: f in FromMembers(members) ==> Tidy(f.value)
    ensures forall m :: m in members && m.value != Other ==> HasKey(FromMembers(members), m.key)
    decreases members
  {
    if members != [] {
      var rest, m := members[..|members| - 1], members[|members| - 1];
      assert members == rest + [m] && m in members;
      FromMembersTidy(rest);
      FromBsonTidy(m.value);
      hide Tidy, Printable, FromBson;
      if FromBson(m.value).Some? {
        EmplaceKeeps(FromMembers(rest), m.key, FromBson(m.value).value);
      }
    }
  }

  lemma EmplaceKeeps(fields: seq<Field>, key: string, value: Json)
    requires Unique(fields)
    ensures Unique(Emplace(fields, key, value)) && HasKey(Emplace(fields, key, value), key)
    ensures forall k :: HasKey(fields, k) ==> HasKey(Emplace(fields, key, value), k)
  {
    var all := Emplace(fields, key, value);
    if !HasKey(fields, key) {
      assert all[|fields|] in all;
      forall k | HasKey(fields, k) ensures HasKey(all, k) {
        var f :| f in fields && f.key == k;
        assert f in all;
      }
    }
  }

  /** A tree built from BSON is tidy; only the skipped types give nothing. */
  lemma {:induction false} FromBsonTidy(b: Bson)
    requires Printable(b)
    ensures FromBson(b).None? <==> b == Other
    ensures FromBson(b).Some? ==> Tidy(FromBson(b).value)
    decreases b
  {
    if b.List? {
      FromElementsTidy(b.elements);
    } else if b.Document? {
      FromMembersTidy(b.members);
    }
  }
}
