/** Printer and parser are inverses, spellings agree, and text order is time order. */
module IsoDateTheorems {
  import opened Arithmetic
  import opened Wrappers
  import opened Decimal
  import opened Calendar
  import opened IsoDate

  /** The supported spellings of the fraction and of the zone. */
  datatype Fraction = None0 | Two(n: int) | Three(n: int) | Six(millis: int, micros: int)
  datatype Zone = Zulu | Offset(plus: bool, hours: int, minutes: int, colon: bool)

  predicate ValidFraction(f: Fraction) {
    match f
    case None0 => true
    case Two(n) => 0 <= n < 100
    case Three(n) => 0 <= n < 1000
    case Six(m, u) => 0 <= m < 1000 && 0 <= u < 1000
  }

  predicate ValidZone(z: Zone) {
    z.Offset? ==> 0 <= z.hours < 100 && 0 <= z.minutes < 100
  }

  function FractionText(f: Fraction): string
    requires ValidFraction(f)
  {
    match f
    case None0 => ""
    case Two(n) => "." + Dec2(n)
    case Three(n) => "." + Dec3(n)
    case Six(m, u) => "." + Dec3(m) + Dec3(u)
  }

  function FractionMicros(f: Fraction): int {
    match f
    case None0 => 0
    case Two(n) => n * 10000
    case Three(n) => n * 1000
    case Six(m, u) => m * 1000 + u
  }

  function ZoneText(z: Zone): string
    requires ValidZone(z)
  {
    match z
    case Zulu => "Z"
    case Offset(plus, h, m, colon) => (if plus then "+" else "-") + Dec2(h) + (if colon then ":" else "") + Dec2(m)
  }

  /** The signed offset the zone denotes. */
  function ZoneOffset(z: Zone): int {
    match z
    case Zulu => 0
    case Offset(plus, h, m, _) => (if plus then 1 else -1) * (h * 60 + m) * 60000000
  }

  function Spelled(f: Fields, fraction: Fraction, zone: Zone): string
    requires ValidFields(f) && ValidFraction(fraction) && ValidZone(zone)
  {
    Seconds(f) + FractionText(fraction) + ZoneText(zone)
  }

  /** The head of every spelling, by position. */
  lemma SecondsAt(f: Fields, rest: string)
    requires ValidFields(f)
    ensures var s := Seconds(f) + rest;
      && |Seconds(f)| == 19
      && s[0..4] == Dec4(f.date.year) && s[5..7] == Dec2(f.date.month) && s[8..10] == Dec2(f.date.day)
      && s[10] == 'T' && s[11..13] == Dec2(f.hour) && s[13] == ':' && s[14..16] == Dec2(f.minute)
      && s[16] == ':' && s[17..19] == Dec2(f.second) && s[19..] == rest
  {
    var s := Seconds(f) + rest;
    assert |Dec4(f.date.year)| == 4 && forall n :: 0 <= n < 100 ==> |Dec2(n)| == 2;
    hide Dec2, Dec4;
    assert s[0..4] == Dec4(f.date.year);
    assert s[5..7] == Dec2(f.date.month);
    assert s[8..10] == Dec2(f.date.day);
    assert s[11..13] == Dec2(f.hour);
    assert s[14..16] == Dec2(f.minute);
    assert s[17..19] == Dec2(f.second);
  }

  lemma StampRead(f: Fields, rest: string)
    requires ValidFields(f) && rest != []
    ensures ParseStamp(Seconds(f) + rest) ==
      Ok(Stamp(f.date.year, f.date.month, f.date.day, f.hour, f.minute, f.second))
  {
    SecondsAt(f, rest);
    ReadDec4(f.date.year);
    forall n | 0 <= n < 100 ensures FromChars(Dec2(n)) == Some(n) {
      ReadJustDec2(n);
    }
    hide Seconds, FromChars, Dec2, Dec4;
  }

  /** The milliseconds the parser first reads: of two digits, the bare number. */
  function RawMillis(f: Fraction): int {
    match f
    case None0 => 0
    case Two(n) => n
    case Three(n) => n
    case Six(m, _) => m
  }

  function MicrosPart(f: Fraction): int {
    if f.Six? then f.micros else 0
  }

  function SignedHours(z: Zone): int {
    match z
    case Zulu => 0
    case Offset(plus, h, _, _) => if plus then h else -h
  }

  function Minutes(z: Zone): int {
    if z.Offset? then z.minutes else 0
  }

  lemma ZoneStarts(z: Zone)
    requires ValidZone(z)
    ensures |ZoneText(z)| == (if z.Zulu? then 1 else if z.colon then 6 else 5)
    ensures ZoneText(z)[0] == (if z.Zulu? then 'Z' else if z.plus then '+' else '-')
    ensures z.Offset? ==> ZoneText(z)[1..3] == Dec2(z.hours) && ZoneText(z)[|ZoneText(z)| - 2..] == Dec2(z.minutes)
    ensures z.Offset? && z.colon ==> ZoneText(z)[3] == ':'
  {
  }

  lemma SubBehind(before: string, z: string, i: nat, n: nat)
    requires i + n <= |z|
    ensures Sub(before + z, |before| + i, n) == z[i..i + n]
  {
  }

  lemma OffsetRead(before: string, z: Zone)
    requires ValidZone(z) && z.Offset?
    ensures ParseOffset(before + ZoneText(z), |before|) == Ok((SignedHours(z), z.minutes))
  {
    hide ZoneText, Dec2, FromChars;
    var s, at := before + ZoneText(z), |before|;
    ZoneStarts(z);
    var minutesAt := if z.colon then at + 4 else at + 3;
    SubBehind(before, ZoneText(z), 1, 2);
    SubBehind(before, ZoneText(z), minutesAt - at, 2);
    assert Sub(s, at + 1, 2) == Dec2(z.hours);
    assert Sub(s, minutesAt, 2) == Dec2(z.minutes);
    ReadJustDec2(z.hours);
    ReadJustDec2(z.minutes);
    hide Sub;
  }

  lemma MillisRead(head: string, f: Fraction, z: Zone)
    requires |head| == 19 && ValidFraction(f) && ValidZone(z)
    ensures ParseMillis(head + FractionText(f) + ZoneText(z)) == Ok(RawMillis(f))
  {
    var s := head + FractionText(f) + ZoneText(z);
    ZoneStarts(z);
    match f
    case None0 =>
    case Two(n) =>
      ReadDec2(n, [ZoneText(z)[0]]);
      assert Sub(s, 20, 3) == Dec2(n) + [ZoneText(z)[0]];
    case Three(n) =>
      ReadDec3(n);
      assert Sub(s, 20, 3) == Dec3(n);
    case Six(m, _) =>
      ReadDec3(m);
      assert Sub(s, 20, 3) == Dec3(m);
  }

  /** What stands after the fraction's first two digits. */
  lemma FractionShape(f: Fraction)
    requires ValidFraction(f)
    ensures |FractionText(f)| == (match f case None0 => 0 case Two(_) => 3 case Three(_) => 4 case Six(_, _) => 7)
    ensures !f.None0? ==> FractionText(f)[0] == '.'
    ensures f.Three? || f.Six? ==> IsDigit(FractionText(f)[3])
    ensures f.Six? ==> IsDigit(FractionText(f)[4])
  {
  }

  lemma FractionEnds(head: string, f: Fraction, z: Zone)
    requires |head| == 19 && ValidFraction(f) && ValidZone(z)
    ensures var s := head + FractionText(f) + ZoneText(z);
      && |s| == 19 + |FractionText(f)| + |ZoneText(z)|
      && s[19] == (if f.None0? then ZoneText(z)[0] else '.')
      && (f.Two? ==> s[22] == ZoneText(z)[0])
      && (f.Three? ==> IsDigit(s[22]) && s[23] == ZoneText(z)[0])
      && (f.Six? ==> IsDigit(s[22]) && IsDigit(s[23]) && s[26] == ZoneText(z)[0])
      && (!f.None0? ==> AfterMillis(s, RawMillis(f)) == if f.Two? then 22 else 23)
  {
    ZoneStarts(z);
    FractionShape(f);
    hide FractionText, ZoneText, ValidFraction, ValidZone;
  }

  lemma MicrosRead(head: string, f: Fraction, z: Zone)
    requires |head| == 19 && ValidFraction(f) && ValidZone(z)
    ensures ParseMicros(head + FractionText(f) + ZoneText(z), RawMillis(f)) == Ok(MicrosPart(f))
  {
    var s := head + FractionText(f) + ZoneText(z);
    ZoneStarts(z);
    FractionEnds(head, f, z);
    if f.Six? {
      ReadDec3(f.micros);
      assert Sub(s, 23, 3) == Dec3(f.micros);
    }
    hide AfterMillis, ZoneText, FromChars, Sub;
  }

  lemma ZoneRead(head: string, f: Fraction, z: Zone)
    requires |head| == 19 && ValidFraction(f) && ValidZone(z)
    ensures ParseZone(head + FractionText(f) + ZoneText(z), RawMillis(f)) == Ok((SignedHours(z), Minutes(z)))
  {
    var s := head + FractionText(f) + ZoneText(z);
    ZoneStarts(z);
    FractionEnds(head, f, z);
    assert |FractionText(f)| == match f { case None0 => 0 case Two(_) => 3 case Three(_) => 4 case Six(_, _) => 7 };
    if z.Offset? {
      OffsetRead(head + FractionText(f), z);
    }
    hide AfterMillis, ZoneText, ParseOffset, FractionText;
  }

  function StampOf(f: Fields): Stamp {
    Stamp(f.date.year, f.date.month, f.date.day, f.hour, f.minute, f.second)
  }

  lemma EpochOfStamp(f: Fields, millis: int, micros: int)
    requires ValidFields(f)
    ensures Epoch(StampOf(f), millis, micros) == SecondOf(f) * 1000000 + millis * 1000 + micros
  {
    MonthsSumIsTable(LeapYear(f.date.year), f.date.month);
    YearsSumIsClosedForm(f.date.year);
    hide LeapYear, DaysBeforeYear, DaysBeforeMonth, MonthsSum, YearsSum;
  }

  lemma Assemble(s: string, stamp: Stamp, raw: int, micros: int, hours: int, minutes: int)
    requires ParseStamp(s) == Ok(stamp) && ParseMillis(s) == Ok(raw)
    requires ParseMicros(s, raw) == Ok(micros) && ParseZone(s, raw) == Ok((hours, minutes))
    ensures Parse(s) ==
      if hours > 23 || minutes > 59 then Err("Invalid datetime zone")
      else Ok(Epoch(stamp, if raw > 0 && !IsDigit(At(s, 22)) then raw * 10 else raw, micros) - ZoneMicros(hours, minutes))
  {
    hide ParseStamp, ParseMillis, ParseMicros, ParseZone, Epoch, ZoneMicros, At;
  }

  lemma SpelledParts(f: Fields, fraction: Fraction, zone: Zone)
    requires ValidFields(f) && ValidFraction(fraction) && ValidZone(zone)
    ensures var s := Spelled(f, fraction, zone); var raw := RawMillis(fraction);
      && ParseStamp(s) == Ok(StampOf(f)) && ParseMillis(s) == Ok(raw)
      && ParseMicros(s, raw) == Ok(MicrosPart(fraction)) && ParseZone(s, raw) == Ok((SignedHours(zone), Minutes(zone)))
      && (raw > 0 ==> (IsDigit(At(s, 22)) <==> !fraction.Two?))
  {
    var s := Spelled(f, fraction, zone);
    var tail := FractionText(fraction) + ZoneText(zone);
    ZoneStarts(zone);
    SecondsAt(f, tail);
    StampRead(f, tail);
    assert s == Seconds(f) + tail;
    MillisRead(Seconds(f), fraction, zone);
    MicrosRead(Seconds(f), fraction, zone);
    ZoneRead(Seconds(f), fraction, zone);
    FractionEnds(Seconds(f), fraction, zone);
    hide ParseStamp, ParseMillis, ParseMicros, ParseZone, Seconds, FractionText, ZoneText, AfterMillis;
  }

  /** What the parser makes of every supported spelling, in all cases. */
  lemma ParseSpelled(f: Fields, fraction: Fraction, zone: Zone)
    requires ValidFields(f) && ValidFraction(fraction) && ValidZone(zone)
    ensures Parse(Spelled(f, fraction, zone)) ==
      if SignedHours(zone) > 23 || Minutes(zone) > 59 then Err("Invalid datetime zone")
      else Ok(SecondOf(f) * 1000000 + FractionMicros(fraction) - ZoneMicros(SignedHours(zone), Minutes(zone)))
  {
    hide Parse, Spelled, ParseStamp, ParseMillis, ParseMicros, ParseZone, SecondOf, ZoneMicros, Epoch, At;
    SpelledParts(f, fraction, zone);
    var s := Spelled(f, fraction, zone);
    var raw := RawMillis(fraction);
    Assemble(s, StampOf(f), raw, MicrosPart(fraction), SignedHours(zone), Minutes(zone));
    var millis := if raw > 0 && !IsDigit(At(s, 22)) then raw * 10 else raw;
    assert millis * 1000 + MicrosPart(fraction) == FractionMicros(fraction);
    EpochOfStamp(f, millis, MicrosPart(fraction));
  }

  lemma DateOnlyStamp(f: Fields)
    requires ValidFields(f)
    ensures |Seconds(f)| == 19
    ensures ParseStamp(Seconds(f)[..10]) == Ok(Stamp(f.date.year, f.date.month, f.date.day, 0, 0, 0))
  {
    var s := Seconds(f)[..10];
    SecondsAt(f, "");
    assert Seconds(f) + "" == Seconds(f);
    assert s[0..4] == Dec4(f.date.year) && s[5..7] == Dec2(f.date.month) && s[8..10] == Dec2(f.date.day);
    ReadDec4(f.date.year);
    ReadJustDec2(f.date.month);
    ReadJustDec2(f.date.day);
    hide Seconds, FromChars, Dec2, Dec4;
  }

  /** A date without a time is midnight. */
  lemma ParseDateOnly(f: Fields)
    requires ValidFields(f)
    ensures |Seconds(f)| == 19 && Parse(Seconds(f)[..10]) == Ok(DayNumber(f.date) * 86400000000)
  {
    DateOnlyStamp(f);
    var s := Seconds(f)[..10];
    hide Seconds, ParseStamp, Parse, Epoch, DayNumber;
    Assemble(s, Stamp(f.date.year, f.date.month, f.date.day, 0, 0, 0), 0, 0, 0, 0);
    EpochOfStamp(f.(hour := 0, minute := 0, second := 0), 0, 0);
  }

  /** The parser takes the zone off as written exactly when the zone is not a positive one of zero
      hours and some minutes: then it adds the minutes instead. */
  lemma ZoneIsSubtractedIff(f: Fields, fraction: Fraction, zone: Zone)
    requires ValidFields(f) && ValidFraction(fraction) && ValidZone(zone)
    requires zone.Offset? ==> zone.hours <= 23 && zone.minutes <= 59
    ensures Parse(Spelled(f, fraction, Zulu)) == Ok(SecondOf(f) * 1000000 + FractionMicros(fraction))
    ensures Parse(Spelled(f, fraction, zone)) == Ok(Parse(Spelled(f, fraction, Zulu)).value - ZoneOffset(zone)) <==>
      !(zone.Offset? && zone.plus && zone.hours == 0 && zone.minutes > 0)
  {
    hide Parse, Spelled, SecondOf, FractionMicros, ValidFields;
    ParseSpelled(f, fraction, Zulu);
    ParseSpelled(f, fraction, zone);
  }

  lemma EpochFields()
    ensures var f := Fields(Date(1970, 1, 1), 0, 0, 0, 0, 0); ValidFields(f) && SecondOf(f) == 0
  {
  }

  /** Half an hour east of Greenwich at the epoch: the parser answers half an hour after it, not before. */
  lemma PositiveHalfHour()
    ensures var f := Fields(Date(1970, 1, 1), 0, 0, 0, 0, 0);
      && ValidFields(f)
      && Parse(Spelled(f, None0, Offset(true, 0, 30, true))) == Ok(1800000000)
      && Parse(Spelled(f, None0, Offset(false, 0, 30, true))) == Ok(1800000000)
  {
    var f := Fields(Date(1970, 1, 1), 0, 0, 0, 0, 0);
    hide Parse, Spelled, SecondOf;
    EpochFields();
    ParseSpelled(f, None0, Offset(true, 0, 30, true));
    ParseSpelled(f, None0, Offset(false, 0, 30, true));
  }

  /** Fractions of equal value parse alike, whatever the zone. */
  lemma FractionsAgree(f: Fields, a: Fraction, b: Fraction, zone: Zone)
    requires ValidFields(f) && ValidFraction(a) && ValidFraction(b) && ValidZone(zone)
    requires FractionMicros(a) == FractionMicros(b)
    ensures Parse(Spelled(f, a, zone)) == Parse(Spelled(f, b, zone))
  {
    hide Parse, Spelled, SecondOf, FractionMicros, ValidFields, ZoneMicros;
    ParseSpelled(f, a, zone);
    ParseSpelled(f, b, zone);
  }

  // ---- round trips ----

  lemma PrintedIsSpelled(t: int)
    requires 0 <= t < END
    ensures var f := FieldsOf(t);
      && IsoMicros(t) == Spelled(f, Six(f.millis, f.micros), Zulu)
      && IsoMillis(t) == Spelled(f, Three(f.millis), Zulu)
  {
    hide Seconds, Dec3, FieldsOf, InstantOf;
    var f := FieldsOf(t);
    Grouped(Seconds(f), Dec3(f.millis), Dec3(f.micros));
  }

  lemma Grouped(head: string, millis: string, micros: string)
    ensures head + "." + millis + micros + "Z" == head + ("." + millis + micros) + "Z"
    ensures head + "." + millis + "Z" == head + ("." + millis) + "Z"
  {
  }

  lemma FractionOf(f: Fields)
    requires ValidFields(f)
    ensures ValidFraction(Six(f.millis, f.micros)) && ValidFraction(Three(f.millis))
    ensures InstantOf(f) == SecondOf(f) * 1000000 + f.millis * 1000 + f.micros
    ensures InstantOf(f) / 1000 * 1000 == SecondOf(f) * 1000000 + f.millis * 1000
  {
    Quotient(InstantOf(f), 1000, SecondOf(f) * 1000 + f.millis, f.micros);
    hide SecondOf;
  }

  /** Parsing what was printed gives the instant back, to the precision printed. */
  lemma ParsePrinted(t: int)
    requires 0 <= t < END
    ensures Parse(IsoMicros(t)) == Ok(t)
    ensures Parse(IsoMillis(t)) == Ok(t / 1000 * 1000)
  {
    hide Parse, Spelled, SecondOf, IsoMicros, IsoMillis, FieldsOf, ValidFields, InstantOf;
    var f := FieldsOf(t);
    FractionOf(f);
    PrintedIsSpelled(t);
    ParseSpelled(f, Six(f.millis, f.micros), Zulu);
    ParseSpelled(f, Three(f.millis), Zulu);
  }

  /** The canonical text of valid fields. */
  function Canonical(f: Fields): (s: string)
    requires ValidFields(f)
    ensures |s| == 27
  {
    SecondsAt(f, "");
    Spelled(f, Six(f.millis, f.micros), Zulu)
  }

  /** Printing what was parsed from a canonical text gives the text back. */
  lemma PrintParsed(f: Fields)
    requires ValidFields(f)
    ensures Parse(Canonical(f)) == Ok(InstantOf(f))
    ensures 0 <= InstantOf(f) < END && IsoMicros(InstantOf(f)) == Canonical(f)
  {
    assert 1 <= f.date.month <= 12;
    FieldsUnique(f);
    var t := InstantOf(f);
    hide Parse, Spelled, InstantOf, IsoMicros, IsoMillis, FieldsOf, ValidFields;
    ParsePrinted(t);
    PrintedIsSpelled(t);
  }

  // ---- text order is time order ----

  /** Lexicographic order of texts. */
  predicate Less(a: string, b: string) {
    b != [] && (a == [] || a[0] < b[0] || (a[0] == b[0] && Less(a[1..], b[1..])))
  }

  lemma {:induction false} LessIrreflexive(a: string)
    ensures !Less(a, a)
  {
    if a != [] {
      LessIrreflexive(a[1..]);
    }
  }

  lemma {:induction false} LessAsymmetric(a: string, b: string)
    requires Less(a, b)
    ensures !Less(b, a)
  {
    if a != [] && a[0] == b[0] {
      LessAsymmetric(a[1..], b[1..]);
    }
  }

  /** Texts of equal head are ordered by their tails; heads of equal length decide first. */
  lemma {:induction false} LessConcat(a: string, b: string, c: string, d: string)
    requires |a| == |c|
    requires Less(a, c) || (a == c && Less(b, d))
    ensures Less(a + b, c + d)
  {
    if a == [] {
      assert a + b == b && c + d == d;
    } else {
      assert (a + b)[1..] == a[1..] + b && (c + d)[1..] == c[1..] + d;
      if a[0] == c[0] {
        LessConcat(a[1..], b, c[1..], d);
      }
    }
  }

  lemma LessDec2(m: int, n: int)
    requires 0 <= m < n < 100
    ensures Less(Dec2(m), Dec2(n))
  {
    assert Dec2(m)[1..] == [Digit(m % 10)] && Dec2(n)[1..] == [Digit(n % 10)];
  }

  lemma LessDec3(m: int, n: int)
    requires 0 <= m < n < 1000
    ensures Less(Dec3(m), Dec3(n))
  {
    if m / 100 == n / 100 {
      LessDec2(m % 100, n % 100);
    }
    hide Dec2;
    LessConcat([Digit(m / 100)], Dec2(m % 100), [Digit(n / 100)], Dec2(n % 100));
  }

  lemma LessDec4(m: int, n: int)
    requires 0 <= m < n < 10000
    ensures Less(Dec4(m), Dec4(n))
  {
    if m / 1000 == n / 1000 {
      LessDec3(m % 1000, n % 1000);
    }
    hide Dec3;
    LessConcat([Digit(m / 1000)], Dec3(m % 1000), [Digit(n / 1000)], Dec3(n % 1000));
  }

  /** a is below c, or equal to it, as `less` says. */
  ghost predicate Compares(a: string, c: string, less: bool) {
    |a| == |c| && if less then Less(a, c) else a == c
  }

  lemma Extend(a: string, c: string, less: bool, b: string, d: string, less': bool)
    requires Compares(a, c, less) && |b| == |d| && (!less ==> Compares(b, d, less'))
    ensures Compares(a + b, c + d, less || less')
  {
    if less || less' {
      LessConcat(a, b, c, d);
    }
  }

  lemma Compare2(m: int, n: int)
    requires 0 <= m < 100 && 0 <= n < 100
    ensures |Dec2(m)| == |Dec2(n)| && (m <= n ==> Compares(Dec2(m), Dec2(n), m < n))
  {
    if m < n {
      LessDec2(m, n);
    }
  }

  lemma Compare3(m: int, n: int)
    requires 0 <= m < 1000 && 0 <= n < 1000
    ensures |Dec3(m)| == |Dec3(n)| && (m <= n ==> Compares(Dec3(m), Dec3(n), m < n))
  {
    if m < n {
      LessDec3(m, n);
    }
  }

  lemma Separated(a: string, c: string, less: bool, separator: string, m: int, n: int)
    requires Compares(a, c, less) && 0 <= m < 100 && 0 <= n < 100 && (less || m <= n)
    ensures Compares(a + separator + Dec2(m), c + separator + Dec2(n), less || m < n)
  {
    Extend(a, c, less, separator, separator, false);
    Compare2(m, n);
    Extend(a + separator, c + separator, less, Dec2(m), Dec2(n), m < n);
  }

  lemma LessDate(f: Fields, g: Fields)
    requires ValidFields(f) && ValidFields(g) && (f.date == g.date || DateBefore(f.date, g.date))
    ensures Compares(Dec4(f.date.year) + "-" + Dec2(f.date.month) + "-" + Dec2(f.date.day),
              Dec4(g.date.year) + "-" + Dec2(g.date.month) + "-" + Dec2(g.date.day), DateBefore(f.date, g.date))
  {
    var a, c := f.date, g.date;
    var less := a.year < c.year;
    if less {
      LessDec4(a.year, c.year);
    }
    assert Compares(Dec4(a.year), Dec4(c.year), less);
    assert a.month < 100 && a.day < 100 && c.month < 100 && c.day < 100;
    hide Compares, Dec2, Dec4, ValidFields, ValidDate;
    Separated(Dec4(a.year), Dec4(c.year), less, "-", a.month, c.month);
    var less' := less || a.month < c.month;
    Separated(Dec4(a.year) + "-" + Dec2(a.month), Dec4(c.year) + "-" + Dec2(c.month), less', "-", a.day, c.day);
  }

  predicate ClockBefore(f: Fields, g: Fields) {
    f.hour < g.hour || (f.hour == g.hour &&
      (f.minute < g.minute || (f.minute == g.minute && f.second < g.second)))
  }

  predicate SecondBefore(f: Fields, g: Fields) {
    DateBefore(f.date, g.date) || (f.date == g.date && ClockBefore(f, g))
  }

  predicate SameSecond(f: Fields, g: Fields) {
    f.date == g.date && f.hour == g.hour && f.minute == g.minute && f.second == g.second
  }

  lemma LessSeconds(f: Fields, g: Fields)
    requires ValidFields(f) && ValidFields(g) && (SameSecond(f, g) || SecondBefore(f, g))
    ensures Compares(Seconds(f), Seconds(g), SecondBefore(f, g))
  {
    LessDate(f, g);
    var a := Dec4(f.date.year) + "-" + Dec2(f.date.month) + "-" + Dec2(f.date.day);
    var c := Dec4(g.date.year) + "-" + Dec2(g.date.month) + "-" + Dec2(g.date.day);
    var l0 := DateBefore(f.date, g.date);
    assert !(DateBefore(f.date, g.date) && f.date == g.date);
    assert Seconds(f) == a + "T" + Dec2(f.hour) + ":" + Dec2(f.minute) + ":" + Dec2(f.second);
    assert Seconds(g) == c + "T" + Dec2(g.hour) + ":" + Dec2(g.minute) + ":" + Dec2(g.second);
    hide Compares, Dec2, Dec4, DateBefore, Seconds;
    Separated(a, c, l0, "T", f.hour, g.hour);
    var a1, c1, l1 := a + "T" + Dec2(f.hour), c + "T" + Dec2(g.hour), l0 || f.hour < g.hour;
    Separated(a1, c1, l1, ":", f.minute, g.minute);
    var a2, c2, l2 := a1 + ":" + Dec2(f.minute), c1 + ":" + Dec2(g.minute), l1 || f.minute < g.minute;
    Separated(a2, c2, l2, ":", f.second, g.second);
  }

  lemma EarlierFields(f: Fields, g: Fields)
    requires ValidFields(f) && ValidFields(g) && InstantOf(f) < InstantOf(g)
    ensures SecondBefore(f, g) || (SameSecond(f, g) && (f.millis < g.millis || (f.millis == g.millis && f.micros < g.micros)))
  {
    DaysOrderDates(f.date, g.date);
    DaysOrderDates(g.date, f.date);
    hide DayNumber, DateBefore, ValidDate;
  }

  lemma LaterIsGreater(t: int, u: int)
    requires 0 <= t < u < END
    ensures Less(IsoMicros(t), IsoMicros(u))
  {
    var f, g := FieldsOf(t), FieldsOf(u);
    EarlierFields(f, g);
    LessSeconds(f, g);
    assert !(SecondBefore(f, g) && SameSecond(f, g));
    var l0 := SecondBefore(f, g);
    hide Seconds, SecondBefore, SameSecond, FieldsOf, Less, Dec3;
    Extend(Seconds(f), Seconds(g), l0, ".", ".", false);
    Compare3(f.millis, g.millis);
    Extend(Seconds(f) + ".", Seconds(g) + ".", l0, Dec3(f.millis), Dec3(g.millis), f.millis < g.millis);
    Compare3(f.micros, g.micros);
    var l1 := l0 || f.millis < g.millis;
    Extend(Seconds(f) + "." + Dec3(f.millis), Seconds(g) + "." + Dec3(g.millis), l1,
           Dec3(f.micros), Dec3(g.micros), f.micros < g.micros);
    var l2 := l1 || f.micros < g.micros;
    Extend(Seconds(f) + "." + Dec3(f.millis) + Dec3(f.micros), Seconds(g) + "." + Dec3(g.millis) + Dec3(g.micros), l2,
           "Z", "Z", false);
  }

  /** Printed instants sort as texts the way they sort in time. */
  lemma TextOrderIsTimeOrder(t: int, u: int)
    requires 0 <= t < END && 0 <= u < END
    ensures Less(IsoMicros(t), IsoMicros(u)) <==> t < u
  {
    hide IsoMicros;
    if t < u {
      LaterIsGreater(t, u);
    } else if u < t {
      LaterIsGreater(u, t);
      LessAsymmetric(IsoMicros(u), IsoMicros(t));
    } else {
      LessIrreflexive(IsoMicros(t));
    }
  }
}
