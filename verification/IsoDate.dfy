/** Printing and parsing instants (src/common/util/date.cpp).  An instant is a count of
    microseconds since 1970-01-01T00:00:00Z. */
module IsoDate {
  import opened Wrappers
  import opened Decimal
  import opened Calendar

  /** 10000-01-01T00:00:00Z. */
  const END: int := 253402300800000000

  datatype Fields = Fields(date: Date, hour: int, minute: int, second: int, millis: int, micros: int)

  predicate ValidFields(f: Fields) {
    && ValidDate(f.date)
    && 0 <= f.hour < 24 && 0 <= f.minute < 60 && 0 <= f.second < 60
    && 0 <= f.millis < 1000 && 0 <= f.micros < 1000
  }

  function SecondOf(f: Fields): int
    requires 1 <= f.date.month <= 12
  {
    ((DayNumber(f.date) * 24 + f.hour) * 60 + f.minute) * 60 + f.second
  }

  /** The instant the fields name, in UTC. */
  function InstantOf(f: Fields): int
    requires 1 <= f.date.month <= 12
  {
    (SecondOf(f) * 1000 + f.millis) * 1000 + f.micros
  }

  /** The fields of an instant: the only valid ones that name it (FieldsUnique). */
  function FieldsOf(t: int): (f: Fields)
    requires 0 <= t < END
    ensures ValidFields(f) && InstantOf(f) == t
  {
    var ms := t / 1000;
    var s := ms / 1000;
    assert s / 60 / 60 / 24 < 2932897;
    assert DaysBeforeYear(10000) == 2932897;
    Fields(CivilDate(s / 60 / 60 / 24), s / 60 / 60 % 24, s / 60 % 60, s % 60, ms % 1000, t % 1000)
  }

  lemma FieldsUnique(f: Fields)
    requires ValidFields(f)
    ensures 0 <= InstantOf(f) < END && FieldsOf(InstantOf(f)) == f
  {
    DaysOrderDates(f.date, f.date);
    var g := FieldsOf(InstantOf(f));
    DaysOrderDates(f.date, g.date);
    SameRadix(f, g);
  }

  lemma SameRadix(f: Fields, g: Fields)
    requires ValidFields(f) && ValidFields(g) && InstantOf(f) == InstantOf(g)
    ensures DayNumber(f.date) == DayNumber(g.date) && f.hour == g.hour && f.minute == g.minute && f.second == g.second
    ensures f.millis == g.millis && f.micros == g.micros
  {
    hide DayNumber, ValidDate, CivilDate;
  }

  // ---- printing ----

  /** `YYYY-MM-DDTHH:MM:SS`. */
  function Seconds(f: Fields): string
    requires ValidFields(f)
  {
    Dec4(f.date.year) + "-" + Dec2(f.date.month) + "-" + Dec2(f.date.day) + "T" +
    Dec2(f.hour) + ":" + Dec2(f.minute) + ":" + Dec2(f.second)
  }

  function IsoMicros(t: int): string
    requires 0 <= t < END
  {
    var f := FieldsOf(t);
    Seconds(f) + "." + Dec3(f.millis) + Dec3(f.micros) + "Z"
  }

  function IsoMillis(t: int): string
    requires 0 <= t < END
  {
    var f := FieldsOf(t);
    Seconds(f) + "." + Dec3(f.millis) + "Z"
  }

  method Append2(ss: string, n: nat) returns (r: string)
    requires n < 100
    ensures r == ss + Dec2(n)
  {
    r := ss;
    if n < 10 {
      r := r + "0";
    }
    r := r + Dec(n);
    Padding(n);
    assert r == ss + Dec2(n);
  }

  method Append3(ss: string, n: nat) returns (r: string)
    requires n < 1000
    ensures r == ss + Dec3(n)
  {
    r := ss;
    if n < 10 {
      r := r + "00";
    } else if n < 100 {
      r := r + "0";
    }
    r := r + Dec(n);
    Padding(n);
    assert r == ss + Dec3(n);
  }

  lemma Clock(f: Fields)
    requires ValidFields(f)
    ensures var s := SecondOf(f);
      s % 60 == f.second && s / 60 % 60 == f.minute && s / 60 / 60 % 24 == f.hour && s / 60 / 60 / 24 == DayNumber(f.date)
  {
    hide DayNumber, ValidDate;
  }

  /** What both printers do with the seconds. */
  method PrintSeconds(seconds: int, ghost f: Fields) returns (ss: string)
    requires ValidFields(f) && seconds == SecondOf(f)
    ensures ss == Seconds(f)
  {
    var epoch := seconds;
    var second := epoch % 60;
    epoch := epoch / 60;
    var minute := epoch % 60;
    epoch := epoch / 60;
    var hour := epoch % 24;
    epoch := epoch / 24;
    Clock(f);
    DaysOrderDates(f.date, f.date);
    DaysOrderDates(CivilDate(epoch), f.date);
    hide SecondOf, DayNumber, DateBefore;
    var year, month, day := SplitDays(epoch);
    FourDigits(year);
    hide Dec2, Dec4, Dec;
    ss := Dec(year) + "-";
    ss := Append2(ss, month);
    ss := ss + "-";
    ss := Append2(ss, day);
    ss := ss + "T";
    ss := Append2(ss, hour);
    ss := ss + ":";
    ss := Append2(ss, minute);
    ss := ss + ":";
    ss := Append2(ss, second);
  }

  method IsoDateMicros(us: int) returns (s: string)
    requires 0 <= us < END
    ensures s == IsoMicros(us)
  {
    var epoch := us;
    var micros := epoch % 1000;
    epoch := epoch / 1000;
    var millis := epoch % 1000;
    epoch := epoch / 1000;
    ghost var f := FieldsOf(us);
    s := PrintSeconds(epoch, f);
    s := s + ".";
    s := Append3(s, millis);
    s := Append3(s, micros);
    s := s + "Z";
  }

  method IsoDateMillis(us: int) returns (s: string)
    requires 0 <= us < END
    ensures s == IsoMillis(us)
  {
    var epoch := us;
    epoch := epoch / 1000;
    var millis := epoch % 1000;
    epoch := epoch / 1000;
    ghost var f := FieldsOf(us);
    s := PrintSeconds(epoch, f);
    s := s + ".";
    s := Append3(s, millis);
    s := s + "Z";
  }

  // ---- parsing ----

  /** `date[i]`.  The source can look one place past the end of a fraction without a zone; the
      model reads a NUL there. */
  function At(s: string, i: nat): char {
    if i < |s| then s[i] else '\0'
  }

  /** `date.substr(pos, n)`, which throws when pos is past the end. */
  function Sub(s: string, pos: nat, n: nat): string
    requires pos <= |s|
  {
    s[pos..if pos + n <= |s| then pos + n else |s|]
  }

  function Field(date: string, pos: nat, n: nat, error: string): Result<int>
    requires pos <= |date|
  {
    match FromChars(Sub(date, pos, n))
    case Some(v) => Ok(v)
    case None => Err(error)
  }

  /** The lambda `parseMillis`: up to three characters after the point. */
  function ParseMillis(date: string): Result<int> {
    if |date| < 20 || date[19] != '.' then Ok(0)
    else if |date| < 22 then Err("Invalid datetime millis")
    else Field(date, 20, 3, "Invalid datetime millis")
  }

  /** Where the text after the milliseconds starts. */
  function AfterMillis(date: string, millis: int): nat {
    if millis < 100 && !IsDigit(At(date, 22)) then 22 else 23
  }

  predicate ZoneSign(c: char) {
    c == '+' || c == '-'
  }

  /** The lambda `parseMicros`. */
  function ParseMicros(date: string, millis: int): Result<int> {
    if |date| < 25 || date[19] != '.' then Ok(0)
    else
      var c := date[AfterMillis(date, millis)];
      if ZoneSign(c) || c == 'Z' then Ok(0) else Field(date, 23, 3, "Invalid datetime micros")
  }

  /** The zone whose sign is at `at`: `hhmm` to the end of the text, or `hh:mm`. */
  function ParseOffset(date: string, at: nat): Result<(int, int)>
    requires at < |date|
  {
    if |date| < at + 5 then Err("Invalid datetime zone")
    else if |date| != at + 5 && date[at + 3] != ':' then Err("Invalid datetime zone")
    else
      var sign := if date[at] == '+' then 1 else -1;
      match Field(date, at + 1, 2, "Invalid datetime zone hour")
      case Err(e) => Err(e)
      case Ok(h) =>
        match Field(date, if |date| == at + 5 then at + 3 else at + 4, 2, "Invalid datetime zone minute")
        case Err(e) => Err(e)
        case Ok(m) => Ok((h * sign, m))
  }

  /** The lambda `parseZone`. */
  function ParseZone(date: string, millis: int): Result<(int, int)> {
    if |date| < 20 || date[19] == 'Z' then Ok((0, 0))
    else if ZoneSign(date[19]) then ParseOffset(date, 19)
    else if date[19] != '.' then Err("Invalid datetime format zone")
    else if (millis < 100 && |date| < 23) || (millis > 100 && |date| < 24) then Err("Invalid datetime fraction")
    else
      var idx := AfterMillis(date, millis);
      if At(date, idx) == 'Z' then Ok((0, 0))
      else if ZoneSign(At(date, idx)) then ParseOffset(date, idx)
      else if |date| < idx + 4 then Err("Invalid datetime zone")
      else if date[idx + 3] == 'Z' then Ok((0, 0))
      else if ZoneSign(date[idx + 3]) then ParseOffset(date, idx + 3)
      else Err("Invalid datetime format zone")
  }

  /** What the loop over months adds. */
  function MonthsSum(leap: bool, month: int): int {
    if month <= 1 then 0 else MonthsSum(leap, month - 1) + MonthLength(leap, month - 1)
  }

  /** What the loop over years adds. */
  function YearsSum(year: int): int {
    if year <= 1970 then 0 else YearsSum(year - 1) + YearLength(year - 1)
  }

  lemma {:induction false} MonthsSumIsTable(leap: bool, month: int)
    requires 1 <= month <= 13
    ensures MonthsSum(leap, month) == DaysBeforeMonth(leap, month)
  {
    if month > 1 {
      MonthsSumIsTable(leap, month - 1);
      MonthStep(leap, month - 1);
    }
  }

  lemma {:induction false} YearsSumIsClosedForm(year: int)
    requires year >= 1970
    ensures YearsSum(year) == DaysBeforeYear(year)
  {
    if year > 1970 {
      YearsSumIsClosedForm(year - 1);
      YearStep(year - 1);
    }
  }

  datatype Stamp = Stamp(year: int, month: int, day: int, hour: int, minute: int, second: int)

  /** The six leading numbers, each of at most four characters. */
  function ParseStamp(date: string): Result<Stamp> {
    if |date| < 10 then Err("Invalid date format")
    else if 10 < |date| < 20 then Err("Invalid datetime format")
    else if |date| > 10 && date[10] != 'T' then Err("Invalid datetime separator")
    else
      match Field(date, 0, 4, "Invalid datetime year") case Err(e) => Err(e) case Ok(year) =>
      match Field(date, 5, 2, "Invalid datetime month") case Err(e) => Err(e) case Ok(month) =>
      match Field(date, 8, 2, "Invalid datetime day") case Err(e) => Err(e) case Ok(day) =>
      match (if |date| > 10 then Field(date, 11, 2, "Invalid datetime hour") else Ok(0)) case Err(e) => Err(e) case Ok(hour) =>
      match (if |date| > 10 && date[13] == ':' then Field(date, 14, 2, "Invalid datetime minute") else Ok(0)) case Err(e) => Err(e) case Ok(minute) =>
      match (if |date| > 10 && date[13] == ':' && date[16] == ':' then Field(date, 17, 2, "Invalid datetime second") else Ok(0)) case Err(e) => Err(e) case Ok(second) =>
      Ok(Stamp(year, month, day, hour, minute, second))
  }

  /** What the code subtracts for a zone; its sign test leaves a zone of zero hours negative. */
  function ZoneMicros(hours: int, minutes: int): int {
    hours * 3600000000 + if hours > 0 then minutes * 60000000 else -(minutes * 60000000)
  }

  function Epoch(s: Stamp, millis: int, micros: int): int {
    micros + millis * 1000 + s.second * 1000000 + s.minute * 60000000 + s.hour * 3600000000
    + (s.day - 1 + MonthsSum(LeapYear(s.year), s.month) + YearsSum(s.year)) * 86400000000
  }

  function Parse(date: string): Result<int> {
    match ParseStamp(date) case Err(e) => Err(e) case Ok(s) =>
    match ParseMillis(date) case Err(e) => Err(e) case Ok(millis) =>
    match ParseMicros(date, millis) case Err(e) => Err(e) case Ok(micros) =>
    match ParseZone(date, millis) case Err(e) => Err(e) case Ok((hours, minutes)) =>
      if hours > 23 || minutes > 59 then Err("Invalid datetime zone")
      else
        var scaled := if millis > 0 && !IsDigit(At(date, 22)) then millis * 10 else millis;
        Ok(Epoch(s, scaled, micros) - ZoneMicros(hours, minutes))
  }

  /** The loop over months. */
  method AddMonths(start: int, leap: bool, month: int) returns (epoch: int)
    ensures epoch == start + MonthsSum(leap, month) * 86400000000
  {
    epoch := start;
    var i := 1;
    while i < month
      invariant i <= month || i == 1
      invariant epoch == start + MonthsSum(leap, i) * 86400000000
      decreases month - i
    {
      match i {
        case 2 => epoch := epoch + (if leap then 29 else 28) * 86400000000;
        case 4 => epoch := epoch + 30 * 86400000000;
        case 6 => epoch := epoch + 30 * 86400000000;
        case 9 => epoch := epoch + 30 * 86400000000;
        case 11 => epoch := epoch + 30 * 86400000000;
        case _ => epoch := epoch + 31 * 86400000000;
      }
      i := i + 1;
    }
    assert MonthsSum(leap, i) == MonthsSum(leap, month);
  }

  /** The loop over years. */
  method AddYears(start: int, year: int) returns (epoch: int)
    ensures epoch == start + YearsSum(year) * 86400000000
  {
    epoch := start;
    var i := 1970;
    while i < year
      invariant i <= year || i == 1970
      invariant epoch == start + YearsSum(i) * 86400000000
      decreases year - i
    {
      var leap := IsLeapYear(i);
      if leap {
        epoch := epoch + 366 * 86400000000;
      } else {
        epoch := epoch + 365 * 86400000000;
      }
      i := i + 1;
    }
    assert YearsSum(i) == YearsSum(year);
  }

  method ParseISO8601(date: string) returns (r: Result<int>)
    ensures r == Parse(date)
  {
    hide ParseStamp, ParseMillis, ParseMicros, ParseZone, LeapYear, MonthsSum, YearsSum;
    var stamp := ParseStamp(date);
    if stamp.Err? {
      return Err(stamp.message);
    }
    var s := stamp.value;
    var pm := ParseMillis(date);
    if pm.Err? {
      return Err(pm.message);
    }
    var millis := pm.value;
    var pmi := ParseMicros(date, millis);
    if pmi.Err? {
      return Err(pmi.message);
    }
    var z := ParseZone(date, millis);
    if z.Err? {
      return Err(z.message);
    }
    var (dsth, dstm) := z.value;
    if dsth > 23 || dstm > 59 {
      return Err("Invalid datetime zone");
    }
    if millis > 0 && !IsDigit(At(date, 22)) {
      millis := millis * 10;
    }
    var epoch := pmi.value;
    epoch := epoch + millis * 1000;
    epoch := epoch + s.second * 1000000;
    epoch := epoch + s.minute * 60000000;
    epoch := epoch + s.hour * 3600000000;
    epoch := epoch + (s.day - 1) * 86400000000;
    var leap := IsLeapYear(s.year);
    epoch := AddMonths(epoch, leap, s.month);
    epoch := AddYears(epoch, s.year);
    assert epoch == Epoch(s, millis, pmi.value);
    if dsth != 0 {
      epoch := epoch - dsth * 3600000000;
    }
    if dstm != 0 {
      if dsth > 0 {
        epoch := epoch - dstm * 60000000;
      } else {
        epoch := epoch + dstm * 60000000;
      }
    }
    return Ok(epoch);
  }
}
