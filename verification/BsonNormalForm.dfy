/** JSON turned into BSON and back: the normal form it takes, exactly when it takes it, and exactly
    which trees are left as they are (src/common/util/bson.cpp). */
module BsonNormalForm {
  import opened Wrappers
  import opened Arithmetic
  import opened Decimal
  import opened BsonTree
  import opened BsonTreeTheorems
  import Calendar
  import IsoDate
  import IsoDateTheorems

  /** Objects have each key once, and what reads as a date lies in the years the printer covers. */
  predicate Handled(j: Json)
    decreases j
  {
    match j
    case String(s) => ParseString(s).AsDate? ==> 0 <= ParseString(s).micros < IsoDate.END
    case Array(items) => forall x :: x in items ==> Handled(x)
    case Object(fields) => Unique(fields) && forall f :: f in fields ==> Handled(f.value)
    case Null => true
    case Bool(_) => true
    case Int64(_) => true
    case UInt64(_) => true
    case Double(_) => true
  }

  /** Every date fits the system clock. */
  predicate Timely(clock: Clock, j: Json)
    decreases j
  {
    match j
    case String(s) => ParseString(s).AsDate? ==> InClock(clock, ParseString(s).micros)
    case Array(items) => forall x :: x in items ==> Timely(clock, x)
    case Object(fields) => forall f :: f in fields ==> Timely(clock, f.value)
    case Null => true
    case Bool(_) => true
    case Int64(_) => true
    case UInt64(_) => true
    case Double(_) => true
  }

  /** What a string becomes: nothing if empty, an ObjectId in lower case, a date to the millisecond. */
  function NormalString(s: string): Option<Json>
    requires Handled(String(s))
  {
    if s == "" then None
    else if IsOid(s) then Some(String(Lowered(s)))
    else if MayBeDate(s) && IsoDate.Parse(s).Ok? then Some(String(IsoDate.IsoMillis(IsoDate.Parse(s).value / 1000 * 1000)))
    else Some(String(s))
  }

  /** JSON after the two conversions, said without BSON. */
  function Normal(j: Json): Option<Json>
    requires Handled(j)
    decreases j
  {
    match j
    case Null => None
    case Bool(_) => Some(j)
    case Int64(_) => Some(j)
    case UInt64(u) => Some(Int64(Wrapped(u)))
    case Double(_) => Some(j)
    case String(s) => NormalString(s)
    case Array(items) => Some(Array(NormalItems(items)))
    case Object(fields) => Some(Object(NormalFields(fields)))
  }

  function NormalItems(items: seq<Json>): seq<Json>
    requires forall x :: x in items ==> Handled(x)
    decreases items
  {
    if items == [] then []
    else
      var rest, last := NormalItems(items[..|items| - 1]), Normal(items[|items| - 1]);
      if last.None? then rest else rest + [last.value]
  }

  function NormalFields(fields: seq<Field>): seq<Field>
    requires forall f :: f in fields ==> Handled(f.value)
    decreases fields
  {
    if fields == [] then []
    else
      var field := fields[|fields| - 1];
      var rest, last := NormalFields(fields[..|fields| - 1]), Normal(field.value);
      if last.None? then rest else rest + [Field(field.key, last.value)]
  }

  /** The text of some valid date and time with three digits of fraction and the zone `Z`. */
  ghost predicate IsMillisText(s: string) {
    exists f :: IsoDate.ValidFields(f) && s == MillisText(f)
  }

  function MillisText(f: IsoDate.Fields): string
    requires IsoDate.ValidFields(f)
  {
    IsoDate.Seconds(f) + "." + Dec3(f.millis) + "Z"
  }

  /** Trees to leave as they are: no null, no empty string, no unsigned number, no ObjectId with
      capital letters, and no date in any other spelling than the printer's. */
  ghost predicate Fixed(j: Json)
    requires Handled(j)
    decreases j
  {
    match j
    case Null => false
    case Bool(_) => true
    case Int64(_) => true
    case UInt64(_) => false
    case Double(_) => true
    case String(s) =>
      && s != ""
      && (IsOid(s) ==> forall i :: 0 <= i < |s| ==> !('A' <= s[i] <= 'F'))
      && (ParseString(s).AsDate? ==> IsMillisText(s))
    case Array(items) => forall x :: x in items ==> Fixed(x)
    case Object(fields) => forall f :: f in fields ==> Fixed(f.value)
  }

  lemma OidIsNoDate(s: string)
    requires IsOid(s)
    ensures !MayBeDate(s)
  {
    assert forall i :: 0 <= i < |s| ==> IsHex(s[i]);
  }

  // ---- the conversions meet that description ----

  lemma FromAppended(elements: seq<Bson>, b: Bson)
    requires (forall x :: x in elements ==> Printable(x)) && Printable(b)
    ensures forall x :: x in elements + [b] ==> Printable(x)
    ensures FromElements(elements + [b]) ==
      if FromBson(b).None? then FromElements(elements) else FromElements(elements) + [FromBson(b).value]
  {
    assert (elements + [b])[..|elements|] == elements;
  }

  lemma FromMemberAppended(members: seq<Member>, m: Member)
    requires (forall x :: x in members ==> Printable(x.value)) && Printable(m.value)
    ensures forall x :: x in members + [m] ==> Printable(x.value)
    ensures FromMembers(members + [m]) ==
      if FromBson(m.value).None? then FromMembers(members)
      else Emplace(FromMembers(members), m.key, FromBson(m.value).value)
  {
    assert (members + [m])[..|members|] == members;
  }

  lemma OidIsNormal(clock: Clock, s: string)
    requires IsOid(s)
    ensures Handled(String(s))
    ensures ToBson(clock, String(s)) == Some(Oid(OidOf(s))) && NormalString(s) == Some(String(OidText(OidOf(s))))
  {
    OidIsNoDate(s);
    OidTextOf(s);
    assert '-' !in s by { assert forall i :: 0 <= i < |s| ==> IsHex(s[i]); }
    hide IsOid, IsoDate.IsoMillis, IsoDate.Parse, Lowered, OidText, OidOf;
  }

  lemma DateFits(clock: Clock, t: int)
    requires 0 <= t < IsoDate.END && t / 1000 * 1000 * clock <= t * clock && InClock(clock, t)
    ensures Native(clock, Date(t / 1000)) && Printable(Date(t / 1000))
  {
  }

  /** Different milliseconds have different texts. */
  lemma PrintedAlike(p: int, q: int)
    requires 0 <= p * 1000 < IsoDate.END && 0 <= q * 1000 < IsoDate.END
    ensures IsoDate.IsoMillis(p * 1000) == IsoDate.IsoMillis(q * 1000) <==> p == q
  {
    hide *;
    DateTextIsRead(p);
    DateTextIsRead(q);
  }

  lemma FromDate(ms: int)
    requires Printable(Date(ms))
    ensures 0 <= ms * 1000 < IsoDate.END && FromBson(Date(ms)) == Some(String(IsoDate.IsoMillis(ms * 1000)))
  {
    hide IsoDate.IsoMillis;
  }

  /** A date string becomes its normal form exactly if it fits the system clock. */
  lemma DateIsNormalIff(clock: Clock, s: string)
    requires s != "" && MayBeDate(s) && IsoDate.Parse(s).Ok? && !IsOid(s) && Handled(String(s))
    ensures Converts(clock, String(s)) <==> Timely(clock, String(s))
  {
    hide IsOid, MayBeDate, IsoDate.IsoMillis, IsoDate.Parse, ToDate, NormalString, ToBson, FromBson, Native, Printable,
         ParseString, Handled, Timely, InClock;
    var t := IsoDate.Parse(s).value;
    DateStrings(clock, s, t);
    DateKeptIff(clock, t);
    Scaled(t, clock);
    if InClock(clock, t) { DateFits(clock, t); }
    var ms := ToDate(clock, t);
    if Printable(Date(ms)) {
      FromDate(ms);
      PrintedAlike(ms, t / 1000);
    }
  }

  lemma DateStrings(clock: Clock, s: string, t: int)
    requires s != "" && MayBeDate(s) && IsoDate.Parse(s) == Ok(t) && !IsOid(s) && Handled(String(s))
    ensures 0 <= t < IsoDate.END && ParseString(s) == AsDate(t)
    ensures ToBson(clock, String(s)) == Some(Date(ToDate(clock, t)))
    ensures NormalString(s) == Some(String(IsoDate.IsoMillis(t / 1000 * 1000)))
    ensures Timely(clock, String(s)) <==> InClock(clock, t)
  {
    hide IsOid, MayBeDate, IsoDate.IsoMillis, IsoDate.Parse, ToDate, InClock;
  }

  lemma TextIsNormal(clock: Clock, s: string)
    requires !(MayBeDate(s) && IsoDate.Parse(s).Ok?) && !IsOid(s) && s != ""
    ensures Handled(String(s)) && ParseString(s) == AsText(s)
    ensures ToBson(clock, String(s)) == Some(Text(s)) && NormalString(s) == Some(String(s))
  {
    hide IsOid, MayBeDate, IsoDate.IsoMillis, IsoDate.Parse, Lowered, OidText, OidOf;
  }

  lemma StringIsNormalIff(clock: Clock, s: string)
    requires Handled(String(s))
    ensures Converts(clock, String(s)) <==> Timely(clock, String(s))
  {
    hide IsOid, MayBeDate, IsoDate.IsoMillis, IsoDate.Parse, Lowered, OidText, OidOf, Handled, ToDate;
    if s == "" {
      assert ToBson(clock, String(s)) == None;
      NothingIsNormal();
    } else if IsOid(s) {
      OidIsNormal(clock, s);
      hide NormalString, ToBson;
    } else if MayBeDate(s) && IsoDate.Parse(s).Ok? {
      DateIsNormalIff(clock, s);
      hide *;
    } else {
      TextIsNormal(clock, s);
      hide NormalString, ToBson;
    }
  }

  lemma NothingIsNormal()
    ensures Handled(String("")) && NormalString("") == None
  {
    hide IsoDate.Parse;
  }

  /** BSON between is native, and JSON comes out in normal form. */
  predicate Converts(clock: Clock, j: Json)
    requires Handled(j)
  {
    match ToBson(clock, j)
    case None => Normal(j) == None
    case Some(b) => Native(clock, b) && Printable(b) && FromBson(b) == Normal(j)
  }

  lemma NoneTogether(clock: Clock, j: Json)
    requires Handled(j)
    ensures ToBson(clock, j).None? <==> Normal(j).None?
  {
    if j.String? {
      if IsOid(j.s) { OidIsNormal(clock, j.s); }
      hide IsOid, MayBeDate, IsoDate.IsoMillis, IsoDate.Parse, Lowered, OidText, OidOf, ToDate;
    }
  }

  ghost predicate ItemsConvert(clock: Clock, items: seq<Json>)
    requires forall x :: x in items ==> Handled(x)
  {
    var bs := ToElements(clock, items);
    (forall b :: b in bs ==> Native(clock, b) && Printable(b)) && FromElements(bs) == NormalItems(items)
  }

  ghost predicate FieldsConvert(clock: Clock, fields: seq<Field>)
    requires forall f :: f in fields ==> Handled(f.value)
  {
    var ms := ToMembers(clock, fields);
    (forall m :: m in ms ==> Native(clock, m.value) && Printable(m.value)) && FromMembers(ms) == NormalFields(fields)
  }

  lemma NativeIsSome(clock: Clock, b: Bson)
    requires Native(clock, b) && Printable(b)
    ensures FromBson(b).Some?
  {
  }

  lemma SnocEqual<T>(a: seq<T>, u: T, b: seq<T>, v: T)
    ensures a + [u] == b + [v] <==> a == b && u == v
  {
    if a + [u] == b + [v] {
      assert (a + [u])[..|a|] == a && (b + [v])[..|b|] == b && (a + [u])[|a|] == u && (b + [v])[|b|] == v;
    }
  }

  /** All of BSON `bs` is native and printable. */
  ghost predicate AllNative(clock: Clock, bs: seq<Bson>) {
    forall b :: b in bs ==> Native(clock, b) && Printable(b)
  }

  lemma ItemsUnfolded(clock: Clock, rest: seq<Json>, x: Json)
    requires (forall y :: y in rest ==> Handled(y)) && Handled(x)
    ensures forall y :: y in rest + [x] ==> Handled(y)
    ensures ToElements(clock, rest + [x]) ==
      if ToBson(clock, x).None? then ToElements(clock, rest) else ToElements(clock, rest) + [ToBson(clock, x).value]
    ensures NormalItems(rest + [x]) ==
      if Normal(x).None? then NormalItems(rest) else NormalItems(rest) + [Normal(x).value]
  {
    hide ToBson, Normal, Handled;
    assert (rest + [x])[..|rest|] == rest;
  }

  lemma ItemsConvertStep(clock: Clock, rest: seq<Json>, x: Json)
    requires (forall y :: y in rest ==> Handled(y)) && Handled(x)
    ensures forall y :: y in rest + [x] ==> Handled(y)
    ensures ItemsConvert(clock, rest + [x]) <==> ItemsConvert(clock, rest) && Converts(clock, x)
  {
    ItemsUnfolded(clock, rest, x);
    NoneTogether(clock, x);
    hide Native, Printable, Normal, Handled, ToBson, FromBson, ToElements, FromElements, NormalItems;
    if ToBson(clock, x).Some? {
      var bs, b := ToElements(clock, rest), ToBson(clock, x).value;
      assert AllNative(clock, bs + [b]) <==> AllNative(clock, bs) && Native(clock, b) && Printable(b);
      if AllNative(clock, bs + [b]) {
        NativeIsSome(clock, b);
        FromAppended(bs, b);
        SnocEqual(FromElements(bs), FromBson(b).value, NormalItems(rest), Normal(x).value);
      }
    }
  }

  lemma {:induction false} ItemsConvertIff(clock: Clock, items: seq<Json>)
    requires forall x :: x in items ==> Handled(x)
    ensures ItemsConvert(clock, items) <==> forall x :: x in items ==> Timely(clock, x)
    decreases items
  {
    if items != [] {
      var rest, x := items[..|items| - 1], items[|items| - 1];
      assert items == rest + [x] && x in items;
      ItemsConvertIff(clock, rest);
      ConversionIsNormalIff(clock, x);
      hide Handled, Timely, Converts, ItemsConvert;
      ItemsConvertStep(clock, rest, x);
    }
  }

  lemma FieldsUnfolded(clock: Clock, rest: seq<Field>, f: Field)
    requires (forall g :: g in rest ==> Handled(g.value)) && Handled(f.value)
    ensures forall g :: g in rest + [f] ==> Handled(g.value)
    ensures ToMembers(clock, rest + [f]) ==
      if ToBson(clock, f.value).None? then ToMembers(clock, rest)
      else ToMembers(clock, rest) + [Member(f.key, ToBson(clock, f.value).value)]
    ensures NormalFields(rest + [f]) ==
      if Normal(f.value).None? then NormalFields(rest) else NormalFields(rest) + [Field(f.key, Normal(f.value).value)]
  {
    hide ToBson, Normal, Handled;
    assert (rest + [f])[..|rest|] == rest;
  }

  ghost predicate AllMembersNative(clock: Clock, ms: seq<Member>) {
    forall m :: m in ms ==> Native(clock, m.value) && Printable(m.value)
  }

  /** Appending a member with a new key appends what it becomes. */
  lemma FromNewMember(clock: Clock, ms: seq<Member>, m: Member)
    requires AllMembersNative(clock, ms) && Native(clock, m.value) && Printable(m.value)
    requires m.key !in MemberKeys(ms)
    ensures AllMembersNative(clock, ms + [m]) && FromBson(m.value).Some?
    ensures FromMembers(ms + [m]) == FromMembers(ms) + [Field(m.key, FromBson(m.value).value)]
  {
    hide Native, Printable, FromBson, FromMembers, Keys, MemberKeys, Emplace;
    NativeIsSome(clock, m.value);
    FromMemberAppended(ms, m);
    FromKeys(ms);
    EmplaceIs(FromMembers(ms), m.key, FromBson(m.value).value);
  }

  lemma AllMembersAppended(clock: Clock, ms: seq<Member>, m: Member)
    ensures AllMembersNative(clock, ms + [m]) <==> AllMembersNative(clock, ms) && Native(clock, m.value) && Printable(m.value)
  {
    hide Native, Printable;
  }

  lemma FieldsConvertStep(clock: Clock, rest: seq<Field>, f: Field)
    requires (forall g :: g in rest ==> Handled(g.value)) && Handled(f.value) && f.key !in Keys(rest)
    ensures forall g :: g in rest + [f] ==> Handled(g.value)
    ensures FieldsConvert(clock, rest + [f]) <==> FieldsConvert(clock, rest) && Converts(clock, f.value)
    ensures UniqueMembers(ToMembers(clock, rest)) ==> UniqueMembers(ToMembers(clock, rest + [f]))
  {
    hide Native, Printable, Normal, Handled, ToBson, FromBson, ToMembers, FromMembers, NormalFields, UniqueMembers, Keys, MemberKeys, Emplace;
    FieldsUnfolded(clock, rest, f);
    NoneTogether(clock, f.value);
    ToKeys(clock, rest);
    if ToBson(clock, f.value).Some? {
      var ms, m := ToMembers(clock, rest), Member(f.key, ToBson(clock, f.value).value);
      UniqueAppended(ms, m);
      AllMembersAppended(clock, ms, m);
      if AllMembersNative(clock, ms + [m]) {
        FromNewMember(clock, ms, m);
        var v := FromBson(m.value).value;
        SnocEqual(FromMembers(ms), Field(f.key, v), NormalFields(rest), Field(f.key, Normal(f.value).value));
      }
    }
  }

  lemma {:induction false} FieldsConvertIff(clock: Clock, fields: seq<Field>)
    requires Unique(fields) && forall f :: f in fields ==> Handled(f.value)
    ensures UniqueMembers(ToMembers(clock, fields))
    ensures FieldsConvert(clock, fields) <==> forall f :: f in fields ==> Timely(clock, f.value)
    decreases fields
  {
    if fields != [] {
      var rest, f := fields[..|fields| - 1], fields[|fields| - 1];
      assert fields == rest + [f] && f in fields;
      assert f.key !in Keys(rest);
      FieldsConvertIff(clock, rest);
      ConversionIsNormalIff(clock, f.value);
      hide Handled, Timely, Converts, FieldsConvert, UniqueMembers, ToMembers, Keys;
      FieldsConvertStep(clock, rest, f);
    }
  }

  /** JSON turned into BSON and back is its normal form, by way of native BSON, at every depth, exactly
      if every date in it fits the system clock. */
  lemma {:induction false} ConversionIsNormalIff(clock: Clock, j: Json)
    requires Handled(j)
    ensures Converts(clock, j) <==> Timely(clock, j)
    decreases j
  {
    hide FromElements, FromMembers, ToElements, ToMembers, NormalItems, NormalFields, UniqueMembers, NormalString, ParseString;
    if j.Array? {
      ItemsConvertIff(clock, j.items);
    } else if j.Object? {
      FieldsConvertIff(clock, j.fields);
    } else if j.String? {
      StringIsNormalIff(clock, j.s);
    }
  }

  /** The second time round nothing changes any more, neither the JSON nor the BSON. */
  lemma Idempotent(clock: Clock, j: Json)
    requires Handled(j) && Timely(clock, j) && ToBson(clock, j).Some?
    ensures var b := ToBson(clock, j).value;
      && Printable(b) && Normal(j).Some? && FromBson(b) == Normal(j)
      && ToBson(clock, Normal(j).value) == Some(b)
  {
    ConversionIsNormalIff(clock, j);
    ComesBackIff(clock, ToBson(clock, j).value);
    hide Handled, Native, Printable, ToBson, FromBson, Normal, Timely;
  }

  // ---- which trees are left as they are ----

  lemma {:induction false} NormalItemsIff(items: seq<Json>)
    requires forall x :: x in items ==> Handled(x)
    ensures |NormalItems(items)| <= |items|
    ensures NormalItems(items) == items <==> forall x :: x in items ==> Fixed(x)
    decreases items
  {
    if items != [] {
      var rest, x := items[..|items| - 1], items[|items| - 1];
      assert items == rest + [x] && x in items;
      NormalItemsIff(rest);
      NormalIff(x);
      hide Fixed, Normal, Handled;
    }
  }

  lemma {:induction false} NormalFieldsIff(fields: seq<Field>)
    requires forall f :: f in fields ==> Handled(f.value)
    ensures |NormalFields(fields)| <= |fields|
    ensures NormalFields(fields) == fields <==> forall f :: f in fields ==> Fixed(f.value)
    decreases fields
  {
    if fields != [] {
      var rest, f := fields[..|fields| - 1], fields[|fields| - 1];
      assert fields == rest + [f] && f in fields;
      NormalFieldsIff(rest);
      NormalIff(f.value);
      hide Fixed, Normal, Handled;
    }
  }

  lemma DateIsFixedIff(s: string)
    requires IsoDate.Parse(s).Ok? && 0 <= IsoDate.Parse(s).value < IsoDate.END
    ensures s == IsoDate.IsoMillis(IsoDate.Parse(s).value / 1000 * 1000) <==> IsMillisText(s)
  {
    var t := IsoDate.Parse(s).value;
    if s == IsoDate.IsoMillis(t / 1000 * 1000) {
      MillisTextOf(t / 1000 * 1000);
    }
    if IsMillisText(s) {
      var f :| IsoDate.ValidFields(f) && s == MillisText(f);
      MillisTextIsPrinted(f);
    }
  }

  lemma MillisTextOf(t: int)
    requires 0 <= t < IsoDate.END
    ensures IsMillisText(IsoDate.IsoMillis(t))
  {
    hide IsoDate.FieldsOf, IsoDate.Seconds, Dec3;
    assert IsoDate.IsoMillis(t) == MillisText(IsoDate.FieldsOf(t));
  }

  lemma MillisTextIsPrinted(f: IsoDate.Fields)
    requires IsoDate.ValidFields(f)
    ensures var p := IsoDate.Parse(MillisText(f));
      p.Ok? && 0 <= p.value < IsoDate.END && p.value / 1000 * 1000 == p.value && IsoDate.IsoMillis(p.value) == MillisText(f)
  {
    var g := f.(micros := 0);
    hide IsoDate.Parse, IsoDate.Seconds, IsoDate.FieldsOf, IsoDate.SecondOf, IsoDate.InstantOf, Dec3;
    SameSeconds(f, g);
    IsoDate.FieldsUnique(g);
    var t := IsoDate.InstantOf(g);
    assert IsoDate.IsoMillis(t) == MillisText(f);
    IsoDateTheorems.FractionOf(g);
    IsoDateTheorems.ParsePrinted(t);
  }

  lemma SameSeconds(f: IsoDate.Fields, g: IsoDate.Fields)
    requires IsoDate.ValidFields(f) && g == f.(micros := 0)
    ensures IsoDate.ValidFields(g) && MillisText(g) == MillisText(f)
  {
    hide Dec2, Dec3, Dec4;
  }

  lemma OidIsFixedIff(s: string)
    requires IsOid(s)
    ensures Lowered(s) == s <==> forall i :: 0 <= i < |s| ==> !('A' <= s[i] <= 'F')
  {
    assert forall i :: 0 <= i < |s| ==> IsHex(s[i]) && Lowered(s)[i] == Lower(s[i]);
    if forall i :: 0 <= i < |s| ==> !('A' <= s[i] <= 'F') {
      assert forall i :: 0 <= i < |s| ==> Lower(s[i]) == s[i];
    } else {
      var i :| 0 <= i < |s| && 'A' <= s[i] <= 'F';
      assert Lower(s[i]) != s[i];
    }
  }

  lemma StringIsFixedIff(s: string)
    requires Handled(String(s))
    ensures NormalString(s) == Some(String(s)) <==> Fixed(String(s))
  {
    if s != "" {
      if IsOid(s) {
        OidIsNoDate(s);
        OidIsFixedIff(s);
      } else if MayBeDate(s) && IsoDate.Parse(s).Ok? {
        DateIsFixedIff(s);
      }
    }
    hide IsOid, MayBeDate, IsoDate.IsoMillis, IsoDate.Parse, Lowered, IsMillisText;
  }

  lemma {:induction false} NormalIff(j: Json)
    requires Handled(j)
    ensures Normal(j) == Some(j) <==> Fixed(j)
    decreases j
  {
    if j.Array? {
      NormalItemsIff(j.items);
    } else if j.Object? {
      NormalFieldsIff(j.fields);
    } else if j.String? {
      StringIsFixedIff(j.s);
    }
    hide NormalString, ParseString;
  }

  lemma {:induction false} ElementsAreTimely(clock: Clock, elements: seq<Bson>)
    requires forall x :: x in elements ==> Printable(x) && Native(clock, x)
    ensures forall j :: j in FromElements(elements) ==> Timely(clock, j)
    decreases elements
  {
    if elements != [] {
      var rest, b := elements[..|elements| - 1], elements[|elements| - 1];
      assert elements == rest + [b] && b in elements;
      ElementsAreTimely(clock, rest);
      NativeIsTimely(clock, b);
      hide Timely, Printable, Native, FromBson;
    }
  }

  lemma {:induction false} MembersAreTimely(clock: Clock, members: seq<Member>)
    requires forall m :: m in members ==> Printable(m.value) && Native(clock, m.value)
    ensures forall f :: f in FromMembers(members) ==> Timely(clock, f.value)
    decreases members
  {
    if members != [] {
      var rest, m := members[..|members| - 1], members[|members| - 1];
      assert members == rest + [m] && m in members;
      MembersAreTimely(clock, rest);
      NativeIsTimely(clock, m.value);
      hide Timely, Printable, Native, FromBson;
    }
  }

  lemma {:induction false} NativeIsTimely(clock: Clock, b: Bson)
    requires Printable(b) && Native(clock, b)
    ensures FromBson(b).Some? ==> Timely(clock, FromBson(b).value)
    decreases b
  {
    if b.List? {
      ElementsAreTimely(clock, b.elements);
    } else if b.Document? {
      MembersAreTimely(clock, b.members);
    } else if b.Oid? {
      OidTextIsRead(b.digits);
      hide ParseString, OidText;
    } else if b.Date? {
      DateTextIsRead(b.ms);
      hide ParseString, IsoDate.IsoMillis;
    } else {
      hide ParseString;
    }
  }

  predicate Returns(clock: Clock, j: Json) {
    ToBson(clock, j).Some? && Printable(ToBson(clock, j).value) && FromBson(ToBson(clock, j).value) == Some(j)
  }

  /** A tree turned into BSON and back is unchanged exactly if it has no null, empty or unsigned leaf, no
      ObjectId with capital letters, no date but in the spelling the printer has, and no date beyond
      the system clock. */
  lemma ReturnsIff(clock: Clock, j: Json)
    requires Handled(j)
    ensures Returns(clock, j) <==> Fixed(j) && Timely(clock, j)
  {
    ConversionIsNormalIff(clock, j);
    NormalIff(j);
    hide Handled, Native, Printable, ToBson, FromBson, Normal, Timely, Fixed;
    if Returns(clock, j) {
      var b := ToBson(clock, j).value;
      ComesBackIff(clock, b);
      NativeIsTimely(clock, b);
    }
  }

  // ---- the first date lost ----

  /** On a clock of nanoseconds the first instant that does not survive is 2262-04-11T23:47:16.854776Z. */
  lemma FirstLostInstant(t: int)
    requires 0 <= t < IsoDate.END
    ensures ToBson(1000, String(IsoDate.IsoMicros(t))) == Some(Date(t / 1000)) <==> t < 9223372036854776
  {
    hide *;
    MicrosTextIsRead(t);
    DateBecomes(1000, IsoDate.IsoMicros(t), t);
    DateKeptIff(1000, t);
    NanoClock(t);
  }

  lemma NanoClock(t: int)
    ensures InClock(1000, t) <==> t < 9223372036854776
  {
  }

  lemma DateBecomes(clock: Clock, s: string, t: int)
    requires ParseString(s) == AsDate(t)
    ensures ToBson(clock, String(s)) == Some(Date(ToDate(clock, t)))
  {
    hide ParseString, ToDate;
  }

  lemma MicrosTextIsRead(t: int)
    requires 0 <= t < IsoDate.END
    ensures ParseString(IsoDate.IsoMicros(t)) == AsDate(t)
  {
    MicrosTextShape(t);
    IsoDateTheorems.ParsePrinted(t);
    hide *;
    DateIsParsed(IsoDate.IsoMicros(t), t);
  }

  lemma MicrosTextShape(t: int)
    requires 0 <= t < IsoDate.END
    ensures MayBeDate(IsoDate.IsoMicros(t))
  {
    var f := IsoDate.FieldsOf(t);
    YearShape(f.date.year);
    hide IsoDate.FieldsOf, Dec2, Dec3, Dec4;
    var s := IsoDate.IsoMicros(t);
    assert s[0] == Dec4(f.date.year)[0] && s[4] == '-';
  }

  lemma LostText()
    ensures IsoDate.IsoMicros(9223372036854776) == "2262-04-11T23:47:16.854776Z"
  {
    LostFields();
    hide IsoDate.FieldsOf, IsoDate.InstantOf;
    LostDigits();
    hide Dec2, Dec3, Dec4;
  }

  lemma LostFields()
    ensures IsoDate.FieldsOf(9223372036854776) == IsoDate.Fields(Calendar.Date(2262, 4, 11), 23, 47, 16, 854, 776)
  {
    var f := IsoDate.Fields(Calendar.Date(2262, 4, 11), 23, 47, 16, 854, 776);
    assert IsoDate.ValidFields(f);
    assert IsoDate.InstantOf(f) == 9223372036854776;
    hide *;
    IsoDate.FieldsUnique(f);
  }

  lemma LostDigits()
    ensures Dec4(2262) == "2262" && Dec2(4) == "04" && Dec2(11) == "11"
    ensures Dec2(23) == "23" && Dec2(47) == "47" && Dec2(16) == "16" && Dec3(854) == "854" && Dec3(776) == "776"
  {
  }
}
