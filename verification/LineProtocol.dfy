/** Records as lines of the InfluxDB line protocol (src/ilp/builder.cpp), and a reader of such lines.
    A batch is a string of lines `name,tags values timestamp`; tags and values are comma separated
    `key=value` pairs. */
module LineProtocol {
  import opened Wrappers
  import opened Decimal

  /** What a value means to a reader.  A real number is the text it is formatted as. */
  datatype Value =
    | Bool(b: bool)
    | Int(i: int)
    | UInt(u: nat)
    | Real(text: string)
    | Text(s: string)
    | Time(micros: int)

  datatype Entry = Entry(name: string, tags: seq<(string, string)>, values: seq<(string, Value)>, timestamp: int)

  // ---- what is written ----

  predicate Escaped(c: char, space: bool) {
    c in ",\"=\n\r\\" || (space && c == ' ')
  }

  /** Every escaped character with a backslash before it. */
  function Clean(v: string, space: bool): string {
    if v == "" then "" else (if Escaped(v[0], space) then ['\\', v[0]] else [v[0]]) + Clean(v[1..], space)
  }

  function Pair(key: string, text: string): string { key + "=" + text }

  function TagText(tag: (string, string)): string { Pair(tag.0, Clean(tag.1, true)) }

  function ValueText(v: Value): string {
    match v
    case Bool(b) => if b then "true" else "false"
    case Int(i) => DecInt(i) + "i"
    case UInt(u) => DecInt(u) + "u"
    case Real(text) => text
    case Text(s) => "\"" + Clean(s, false) + "\""
    case Time(micros) => DecInt(micros) + "t"
  }

  function FieldText(field: (string, Value)): string { Pair(field.0, ValueText(field.1)) }

  function TagTexts(tags: seq<(string, string)>): seq<string> {
    seq(|tags|, i requires 0 <= i < |tags| => TagText(tags[i]))
  }

  function FieldTexts(values: seq<(string, Value)>): seq<string> {
    seq(|values|, i requires 0 <= i < |values| => FieldText(values[i]))
  }

  function Join(parts: seq<string>): string {
    if parts == [] then "" else if |parts| == 1 then parts[0] else parts[0] + "," + Join(parts[1..])
  }

  function Head(e: Entry): string { e.name + "," + Join(TagTexts(e.tags)) }

  function Line(e: Entry): string {
    Head(e) + " " + (Join(FieldTexts(e.values)) + " " + DecInt(e.timestamp))
  }

  function Batch(es: seq<Entry>): string {
    if es == [] then "" else Line(es[0]) + "\n" + Batch(es[1..])
  }

  lemma {:induction false} JoinAppend(parts: seq<string>, part: string)
    ensures Join(parts + [part]) == if parts == [] then part else Join(parts) + "," + part
  {
    if |parts| > 0 {
      JoinAppend(parts[1..], part);
      assert (parts + [part])[1..] == parts[1..] + [part];
    }
  }

  lemma {:induction false} BatchAppend(es: seq<Entry>, e: Entry)
    ensures Batch(es + [e]) == Batch(es) + (Line(e) + "\n")
  {
    hide Line;
    if es != [] {
      BatchAppend(es[1..], e);
      assert (es + [e])[1..] == es[1..] + [e];
    }
  }

  // ---- the reader ----

  /** Where the first `stop` is that is neither behind a backslash nor between quotes; the length if there is none. */
  function Find(s: string, stop: char, quoted: bool): (k: nat)
    ensures k <= |s| && (k < |s| ==> s[k] == stop)
  {
    if s == "" then 0
    else if s[0] == '\\' && |s| > 1 then 2 + Find(s[2..], stop, quoted)
    else if s[0] == stop && !quoted then 0
    else 1 + Find(s[1..], stop, quoted != (s[0] == '"'))
  }

  function Unclean(s: string): string {
    if s == "" then ""
    else if s[0] == '\\' && |s| > 1 then [s[1]] + Unclean(s[2..])
    else [s[0]] + Unclean(s[1..])
  }

  function Parts(s: string): (ps: seq<string>)
    ensures |ps| > 0
    decreases |s|
  {
    var k := Find(s, ',', false);
    if k == |s| then [s] else [s[..k]] + Parts(s[k + 1..])
  }

  function ReadPair(s: string): Option<(string, string)> {
    var k := Find(s, '=', false);
    if k == |s| then None else Some((s[..k], s[k + 1..]))
  }

  function ReadTags(parts: seq<string>): Option<seq<(string, string)>> {
    if parts == [] then Some([])
    else
      var first, rest := ReadPair(parts[0]), ReadTags(parts[1..]);
      if first.None? || rest.None? then None
      else Some([(first.value.0, Unclean(first.value.1))] + rest.value)
  }

  function ReadValue(s: string): Option<Value> {
    if s == "" then None
    else
      var last := s[|s| - 1];
      if s[0] == '"' then if |s| > 1 && last == '"' then Some(Text(Unclean(s[1..|s| - 1]))) else None
      else if s == "true" then Some(Bool(true))
      else if s == "false" then Some(Bool(false))
      else if last in "iut" then
        var n := ValueInt(s[..|s| - 1]);
        if n.None? || (last == 'u' && n.value < 0) then None
        else Some(if last == 'i' then Int(n.value) else if last == 'u' then UInt(n.value) else Time(n.value))
      else Some(Real(s))
  }

  function ReadValues(parts: seq<string>): Option<seq<(string, Value)>> {
    if parts == [] then Some([])
    else
      var first, rest := ReadPair(parts[0]), ReadValues(parts[1..]);
      if first.None? || rest.None? then None
      else
        var v := ReadValue(first.value.1);
        if v.None? then None else Some([(first.value.0, v.value)] + rest.value)
  }

  function ReadLine(line: string): Option<Entry> {
    var a := Find(line, ' ', false);
    if a == |line| then None
    else
      var rest := line[a + 1..];
      var b := Find(rest, ' ', false);
      if b == |rest| then None
      else
        var head, time := Parts(line[..a]), ValueInt(rest[b + 1..]);
        var tags, values := ReadTags(head[1..]), ReadValues(Parts(rest[..b]));
        if tags.None? || values.None? || time.None? then None
        else Some(Entry(head[0], tags.value, values.value, time.value))
  }

  function Read(s: string): Option<seq<Entry>>
    decreases |s|
  {
    if s == "" then Some([])
    else
      var k := Find(s, '\n', false);
      if k == |s| then None
      else
        var first, rest := ReadLine(s[..k]), Read(s[k + 1..]);
        if first.None? || rest.None? then None else Some([first.value] + rest.value)
  }

  // ---- text a search runs through ----

  /** Whether a search for `stop` is between quotes after `t`; None if it stops inside `t` or `t` ends in a lone backslash. */
  function Scan(t: string, stop: char, quoted: bool): Option<bool> {
    if t == "" then Some(quoted)
    else if t[0] == '\\' then if |t| > 1 then Scan(t[2..], stop, quoted) else None
    else if t[0] == stop && !quoted then None
    else Scan(t[1..], stop, quoted != (t[0] == '"'))
  }

  predicate Quiet(t: string, stop: char) { Scan(t, stop, false) == Some(false) }

  lemma {:induction false} FindAfter(t: string, u: string, stop: char, quoted: bool)
    requires Scan(t, stop, quoted).Some?
    ensures Find(t + u, stop, quoted) == |t| + Find(u, stop, Scan(t, stop, quoted).value)
    decreases |t|
  {
    if t == "" {
      assert t + u == u;
    } else if t[0] == '\\' {
      assert (t + u)[2..] == t[2..] + u;
      FindAfter(t[2..], u, stop, quoted);
    } else {
      assert (t + u)[1..] == t[1..] + u;
      FindAfter(t[1..], u, stop, quoted != (t[0] == '"'));
    }
  }

  lemma {:induction false} ScanConcat(t: string, u: string, stop: char, quoted: bool)
    requires Scan(t, stop, quoted).Some?
    ensures Scan(t + u, stop, quoted) == Scan(u, stop, Scan(t, stop, quoted).value)
    decreases |t|
  {
    if t == "" {
      assert t + u == u;
    } else if t[0] == '\\' {
      assert (t + u)[2..] == t[2..] + u;
      ScanConcat(t[2..], u, stop, quoted);
    } else {
      assert (t + u)[1..] == t[1..] + u;
      ScanConcat(t[1..], u, stop, quoted != (t[0] == '"'));
    }
  }

  lemma QuietConcat(t: string, u: string, stop: char)
    requires Quiet(t, stop) && Quiet(u, stop)
    ensures Quiet(t + u, stop)
  {
    ScanConcat(t, u, stop, false);
  }

  /** A quiet text is cut at the first stop behind it. */
  lemma FindStop(t: string, u: string, stop: char)
    requires Quiet(t, stop)
    requires stop != '\\'
    ensures var s := t + [stop] + u;
      Find(s, stop, false) == |t| < |s| && s[..|t|] == t && s[|t| + 1..] == u
  {
    assert t + [stop] + u == t + ([stop] + u);
    FindAfter(t, [stop] + u, stop, false);
  }

  lemma FindNone(t: string, stop: char)
    requires Quiet(t, stop)
    ensures Find(t, stop, false) == |t|
  {
    FindAfter(t, "", stop, false);
    assert t + "" == t;
  }

  predicate IsStop(c: char) { c in ", =\n" }

  predicate PlainChar(c: char) { !IsStop(c) && c != '"' && c != '\\' }

  predicate Plain(s: string) { forall i :: 0 <= i < |s| ==> PlainChar(s[i]) }

  lemma {:induction false} PlainIsQuiet(s: string, stop: char)
    requires Plain(s) && IsStop(stop)
    ensures Quiet(s, stop)
  {
    if s != "" { PlainIsQuiet(s[1..], stop); }
  }

  lemma {:induction false} ScanClean(v: string, space: bool, stop: char, quoted: bool)
    requires stop != '\\' && stop != '"' && (quoted || Escaped(stop, space))
    ensures Scan(Clean(v, space), stop, quoted) == Some(quoted)
  {
    if v != "" {
      ScanClean(v[1..], space, stop, quoted);
      var first := if Escaped(v[0], space) then ['\\', v[0]] else [v[0]];
      assert Scan(first, stop, quoted) == Some(quoted) by {
        assert first[1..] == if Escaped(v[0], space) then [v[0]] else [];
        if Escaped(v[0], space) { assert first[2..] == ""; }
      }
      ScanConcat(first, Clean(v[1..], space), stop, quoted);
    }
  }

  /** A reader that knows escapes sees no comma, equals sign, line feed or carriage return in cleaned text,
      no quote either, and no space in the text of a tag. */
  lemma CleanHides(v: string, space: bool, stop: char)
    requires stop == ',' || stop == '=' || stop == '\n' || stop == '\r' || (space && stop == ' ')
    ensures Quiet(Clean(v, space), stop)
  {
    ScanClean(v, space, stop, false);
  }

  /** Escaping loses nothing. */
  lemma {:induction false} UncleanClean(v: string, space: bool)
    ensures Unclean(Clean(v, space)) == v
  {
    if v != "" {
      UncleanClean(v[1..], space);
      var rest := Clean(v[1..], space);
      if Escaped(v[0], space) {
        assert Clean(v, space)[2..] == rest;
      } else {
        assert Clean(v, space)[1..] == rest;
      }
    }
  }

  lemma QuotedIsQuiet(v: string, stop: char)
    requires IsStop(stop)
    ensures Quiet("\"" + Clean(v, false) + "\"", stop)
  {
    var c := Clean(v, false);
    ScanClean(v, false, stop, true);
    ScanConcat(c, "\"", stop, true);
    assert ("\"" + c + "\"")[1..] == c + "\"";
    assert "\""[1..] == "";
  }

  // ---- values ----

  /** The texts `std::format` gives a floating point number. */
  predicate IsRealText(t: string) {
    && t != ""
    && (forall i :: 0 <= i < |t| ==> t[i] in "0123456789+-.einfa")
    && (IsDigit(t[|t| - 1]) || t[|t| - 1] in "fn")
  }

  predicate WellFormedValue(v: Value) { v.Real? ==> IsRealText(v.text) }

  lemma DecIntIsPlain(n: int)
    ensures Plain(DecInt(n)) && DecInt(n) != ""
  {
    var d := if n < 0 then Dec(-n) else Dec(n);
    assert AllDigits(d);
    assert forall i :: 0 <= i < |d| ==> PlainChar(d[i]);
  }

  lemma NumberIsQuiet(n: int, suffix: char, stop: char)
    requires suffix in "iut" && IsStop(stop)
    ensures Quiet(DecInt(n) + [suffix], stop)
  {
    hide DecInt, Scan;
    DecIntIsPlain(n);
    PlainIsQuiet(DecInt(n) + [suffix], stop);
  }

  lemma RealIsQuiet(t: string, stop: char)
    requires IsRealText(t) && IsStop(stop)
    ensures Quiet(t, stop)
  {
    hide Scan;
    PlainIsQuiet(t, stop);
  }

  lemma ValueTextIsQuiet(v: Value, stop: char)
    requires WellFormedValue(v) && IsStop(stop)
    ensures Quiet(ValueText(v), stop)
  {
    hide DecInt, Clean, Scan, IsRealText;
    match v {
      case Text(s) => QuotedIsQuiet(s, stop);
      case Bool(b) => PlainIsQuiet(if b then "true" else "false", stop);
      case Real(t) => RealIsQuiet(t, stop);
      case Int(n) => NumberIsQuiet(n, 'i', stop);
      case UInt(n) => NumberIsQuiet(n, 'u', stop);
      case Time(n) => NumberIsQuiet(n, 't', stop);
    }
  }

  lemma ReadNumber(n: int, suffix: char)
    requires suffix in "iut" && (suffix == 'u' ==> n >= 0)
    ensures ReadValue(DecInt(n) + [suffix]) ==
      Some(if suffix == 'i' then Int(n) else if suffix == 'u' then UInt(n) else Time(n))
  {
    DecIntIsPlain(n);
    ValueOfDecInt(n);
    var s := DecInt(n) + [suffix];
    assert s[0] == DecInt(n)[0] && s[|s| - 1] == suffix && s[..|s| - 1] == DecInt(n);
    assert "true"[3] == 'e' && "false"[4] == 'e';
  }

  lemma ReadReal(t: string)
    requires IsRealText(t)
    ensures ReadValue(t) == Some(Real(t))
  {
    hide ValueInt;
    assert "true"[3] == 'e' && "false"[4] == 'e';
    assert t[0] in "0123456789+-.einfa";
  }

  lemma ReadQuoted(s: string)
    ensures ReadValue("\"" + Clean(s, false) + "\"") == Some(Text(s))
  {
    hide Clean, Unclean, ValueInt;
    UncleanClean(s, false);
    var t := "\"" + Clean(s, false) + "\"";
    assert t[1..|t| - 1] == Clean(s, false);
  }

  /** A value's text says which kind it is and what it is. */
  lemma ReadValueText(v: Value)
    requires WellFormedValue(v)
    ensures ReadValue(ValueText(v)) == Some(v)
  {
    match v {
      case Text(s) => ReadQuoted(s);
      case Bool(_) =>
      case Real(t) => ReadReal(t);
      case Int(n) => ReadNumber(n, 'i');
      case UInt(n) => ReadNumber(n, 'u');
      case Time(n) => ReadNumber(n, 't');
    }
    hide DecInt, Clean, Unclean, ValueInt, IsRealText;
  }

  // ---- a line ----

  /** What the builder does not see to: names and keys have balanced quotes, no lone backslash, and
      no separator of `stops` outside quotes.  A name may hold an equals sign. */
  predicate Legible(e: Entry, stops: string) {
    && (forall c :: c in stops && c != '=' ==> Quiet(e.name, c))
    && (forall i, c :: 0 <= i < |e.tags| && c in stops ==> Quiet(e.tags[i].0, c))
    && (forall i, c :: 0 <= i < |e.values| && c in stops ==> Quiet(e.values[i].0, c))
  }

  predicate RealsFormatted(e: Entry) { forall i :: 0 <= i < |e.values| ==> WellFormedValue(e.values[i].1) }

  /** The separators inside a line, and the one between lines. */
  const INSIDE: string := ", ="
  const ALL: string := ", =\n"

  predicate Complete(e: Entry) { e.tags != [] && e.values != [] }

  lemma PlainIsLegible(e: Entry)
    requires Plain(e.name)
    requires forall i :: 0 <= i < |e.tags| ==> Plain(e.tags[i].0)
    requires forall i :: 0 <= i < |e.values| ==> Plain(e.values[i].0)
    ensures Legible(e, ALL)
  {
    hide Plain, Quiet;
    forall s, c | Plain(s) && c in ALL ensures Quiet(s, c) { PlainIsQuiet(s, c); }
  }

  lemma PairIsQuiet(key: string, text: string, stop: char)
    requires Quiet(key, stop) && IsStop(stop) && stop != '=' && Quiet(text, stop)
    ensures Quiet(Pair(key, text), stop)
  {
    assert "="[1..] == "";
    QuietConcat(key, "=", stop);
    QuietConcat(key + "=", text, stop);
  }

  /** A pair is read back exactly if a search for the equals sign runs through its key. */
  lemma ReadPairIff(key: string, text: string)
    ensures ReadPair(Pair(key, text)) == Some((key, text)) <==> Quiet(key, '=')
  {
    var s := Pair(key, text);
    assert s == key + ("=" + text);
    if Quiet(key, '=') {
      FindStop(key, text, '=');
    }
    if ReadPair(s) == Some((key, text)) {
      FoundIsQuiet(s, '=', false);
      assert s[..|key|] == key;
    }
  }

  /** A search stops behind a quiet text. */
  lemma {:induction false} FoundIsQuiet(s: string, stop: char, quoted: bool)
    requires Find(s, stop, quoted) < |s| && stop != '\\'
    ensures Scan(s[..Find(s, stop, quoted)], stop, quoted) == Some(false)
    decreases |s|
  {
    var k := Find(s, stop, quoted);
    if s[0] == '\\' {
      FoundIsQuiet(s[2..], stop, quoted);
      assert s[..k][2..] == s[2..][..k - 2];
    } else if s[0] == stop && !quoted {
    } else {
      FoundIsQuiet(s[1..], stop, quoted != (s[0] == '"'));
      assert s[..k][1..] == s[1..][..k - 1];
    }
  }

  predicate AllQuiet(parts: seq<string>, stop: char) {
    forall i :: 0 <= i < |parts| ==> Quiet(parts[i], stop)
  }

  lemma {:induction false} JoinIsQuiet(parts: seq<string>, stop: char)
    requires AllQuiet(parts, stop) && IsStop(stop) && stop != ','
    ensures Quiet(Join(parts), stop)
  {
    if |parts| > 1 {
      JoinIsQuiet(parts[1..], stop);
      assert ","[1..] == "";
      QuietConcat(parts[0], ",", stop);
      QuietConcat(parts[0] + ",", Join(parts[1..]), stop);
    }
  }

  /** Joining is undone by cutting at the commas. */
  lemma {:induction false} PartsOfJoin(parts: seq<string>)
    requires AllQuiet(parts, ',')
    ensures Parts(Join(parts)) == if parts == [] then [""] else parts
  {
    if |parts| == 1 {
      FindNone(parts[0], ',');
    } else if |parts| > 1 {
      PartsOfJoin(parts[1..]);
      FindStop(parts[0], Join(parts[1..]), ',');
    }
  }

  lemma {:induction false} ReadTagsOf(tags: seq<(string, string)>)
    requires forall i :: 0 <= i < |tags| ==> Quiet(tags[i].0, '=')
    ensures ReadTags(TagTexts(tags)) == Some(tags)
  {
    if tags != [] {
      hide Quiet, ReadPair, Pair, Clean, Unclean;
      ReadTagsOf(tags[1..]);
      assert [tags[0]] + tags[1..] == tags;
      assert TagTexts(tags)[1..] == TagTexts(tags[1..]);
      ReadPairIff(tags[0].0, Clean(tags[0].1, true));
      UncleanClean(tags[0].1, true);
    }
  }

  lemma ReadValuesStep(field: (string, Value), rest: seq<string>)
    requires Quiet(field.0, '=') && WellFormedValue(field.1)
    ensures ReadValues([FieldText(field)] + rest) ==
      if ReadValues(rest).None? then None else Some([field] + ReadValues(rest).value)
  {
    ReadPairIff(field.0, ValueText(field.1));
    ReadValueText(field.1);
    hide Quiet, ReadPair, Pair, ValueText, ReadValue, WellFormedValue;
    var parts := [FieldText(field)] + rest;
    assert parts[0] == FieldText(field) && parts[1..] == rest;
  }

  lemma {:induction false} ReadValuesOf(values: seq<(string, Value)>)
    requires forall i :: 0 <= i < |values| ==> Quiet(values[i].0, '=') && WellFormedValue(values[i].1)
    ensures ReadValues(FieldTexts(values)) == Some(values)
  {
    hide Quiet, FieldText, ReadValues, WellFormedValue;
    if values != [] {
      ReadValuesOf(values[1..]);
      ReadValuesStep(values[0], FieldTexts(values[1..]));
      assert FieldTexts(values) == [FieldText(values[0])] + FieldTexts(values[1..]);
      assert [values[0]] + values[1..] == values;
    } else {
      NoValues();
    }
  }

  lemma NoValues()
    ensures ReadValues(FieldTexts([])) == Some([])
  {
  }

  lemma TextsAreQuiet(e: Entry, stops: string, stop: char)
    requires Legible(e, stops) && RealsFormatted(e) && stop in stops && IsStop(stop) && stop != '='
    ensures AllQuiet(TagTexts(e.tags), stop) && AllQuiet(FieldTexts(e.values), stop)
  {
    hide Quiet;
    forall i | 0 <= i < |e.tags| ensures Quiet(TagTexts(e.tags)[i], stop) {
      TagIsQuiet(e.tags[i], stop);
    }
    forall i | 0 <= i < |e.values| ensures Quiet(FieldTexts(e.values)[i], stop) {
      FieldIsQuiet(e.values[i], stop);
    }
  }

  lemma TagIsQuiet(tag: (string, string), stop: char)
    requires Quiet(tag.0, stop) && IsStop(stop) && stop != '='
    ensures Quiet(TagText(tag), stop)
  {
    ScanClean(tag.1, true, stop, false);
    PairIsQuiet(tag.0, Clean(tag.1, true), stop);
  }

  lemma FieldIsQuiet(field: (string, Value), stop: char)
    requires Quiet(field.0, stop) && WellFormedValue(field.1) && IsStop(stop) && stop != '='
    ensures Quiet(FieldText(field), stop)
  {
    ValueTextIsQuiet(field.1, stop);
    PairIsQuiet(field.0, ValueText(field.1), stop);
  }

  lemma HeadIsQuiet(e: Entry, stops: string, stop: char)
    requires Legible(e, stops) && RealsFormatted(e) && stop in stops && (stop == ' ' || stop == '\n')
    ensures Quiet(Head(e), stop) && Quiet(Join(FieldTexts(e.values)), stop) && Quiet(DecInt(e.timestamp), stop)
  {
    TextsAreQuiet(e, stops, stop);
    JoinIsQuiet(TagTexts(e.tags), stop);
    JoinIsQuiet(FieldTexts(e.values), stop);
    assert Quiet(e.name, stop);
    hide Legible, RealsFormatted, DecInt, TagTexts, FieldTexts;
    assert ","[1..] == "";
    QuietConcat(e.name, ",", stop);
    QuietConcat(e.name + ",", Join(TagTexts(e.tags)), stop);
    DecIntIsPlain(e.timestamp);
    PlainIsQuiet(DecInt(e.timestamp), stop);
  }

  lemma LineIsQuiet(e: Entry)
    requires Legible(e, ALL) && RealsFormatted(e)
    ensures Quiet(Line(e), '\n')
  {
    HeadIsQuiet(e, ALL, '\n');
    hide Legible, RealsFormatted, Head, DecInt, FieldTexts;
    var head, fields, time := Head(e), Join(FieldTexts(e.values)), DecInt(e.timestamp);
    assert " "[1..] == "";
    QuietConcat(fields, " ", '\n');
    QuietConcat(fields + " ", time, '\n');
    QuietConcat(head, " ", '\n');
    QuietConcat(head + " ", fields + " " + time, '\n');
  }

  lemma ReadHead(e: Entry)
    requires Legible(e, INSIDE) && RealsFormatted(e)
    ensures Parts(Head(e)) == [e.name] + if e.tags == [] then [""] else TagTexts(e.tags)
  {
    TextsAreQuiet(e, INSIDE, ',');
    PartsOfJoin(TagTexts(e.tags));
    FindStop(e.name, Join(TagTexts(e.tags)), ',');
  }

  lemma PairsAreRead(e: Entry)
    requires Legible(e, INSIDE) && RealsFormatted(e)
    ensures ReadTags(TagTexts(e.tags)) == Some(e.tags) && ReadValues(FieldTexts(e.values)) == Some(e.values)
  {
    hide Quiet, ReadTags, ReadValues, TagTexts, FieldTexts;
    assert '=' in INSIDE;
    ReadTagsOf(e.tags);
    ReadValuesOf(e.values);
  }

  /** A legible line is read back exactly if it has a tag and a value, and not at all otherwise. */
  lemma ReadLineOf(e: Entry)
    requires Legible(e, INSIDE) && RealsFormatted(e)
    ensures ReadLine(Line(e)) == if Complete(e) then Some(e) else None
  {
    var head, fields, time := Head(e), Join(FieldTexts(e.values)), DecInt(e.timestamp);
    HeadIsQuiet(e, INSIDE, ' ');
    ReadHead(e);
    TextsAreQuiet(e, INSIDE, ',');
    PartsOfJoin(FieldTexts(e.values));
    PairsAreRead(e);
    assert ReadPair("").None?;
    hide Legible, RealsFormatted, DecInt, Head, TagTexts, FieldTexts, Quiet, ValueInt, ReadPair;
    FindStop(head, fields + " " + time, ' ');
    FindStop(fields, time, ' ');
    ValueOfDecInt(e.timestamp);
  }

  predicate AllLegible(es: seq<Entry>) { forall i :: 0 <= i < |es| ==> Legible(es[i], ALL) }

  predicate AllFormatted(es: seq<Entry>) { forall i :: 0 <= i < |es| ==> RealsFormatted(es[i]) }

  predicate AllComplete(es: seq<Entry>) { forall i :: 0 <= i < |es| ==> Complete(es[i]) }

  lemma InsideToo(e: Entry)
    requires Legible(e, ALL)
    ensures Legible(e, INSIDE)
  {
    hide Quiet;
    assert forall c :: c in INSIDE ==> c in ALL;
  }

  lemma AllOf(e: Entry, rest: seq<Entry>)
    ensures AllLegible([e] + rest) <==> Legible(e, ALL) && AllLegible(rest)
    ensures AllFormatted([e] + rest) <==> RealsFormatted(e) && AllFormatted(rest)
    ensures AllComplete([e] + rest) <==> Complete(e) && AllComplete(rest)
  {
    hide Legible, RealsFormatted, Complete;
    ForAll([e] + rest, (x: Entry) => Legible(x, ALL));
    ForAll([e] + rest, RealsFormatted);
    ForAll([e] + rest, Complete);
    assert ([e] + rest)[1..] == rest;
  }

  lemma ForAll(es: seq<Entry>, f: Entry -> bool)
    requires es != []
    ensures (forall i :: 0 <= i < |es| ==> f(es[i])) <==> f(es[0]) && forall i :: 0 <= i < |es| - 1 ==> f(es[1..][i])
  {
    var rest := es[1..];
    if forall i :: 0 <= i < |rest| ==> f(rest[i]) {
      assert forall i :: 1 <= i < |es| ==> es[i] == rest[i - 1];
    }
  }

  lemma ReadStep(e: Entry, rest: seq<Entry>)
    requires Legible(e, ALL) && RealsFormatted(e)
    ensures Read(Batch([e] + rest)) ==
      if Complete(e) && Read(Batch(rest)).Some? then Some([e] + Read(Batch(rest)).value) else None
  {
    LineIsQuiet(e);
    InsideToo(e);
    FindStop(Line(e), Batch(rest), '\n');
    ReadLineOf(e);
    hide Line, Legible, Quiet, RealsFormatted, ReadLine, Find, Complete;
    assert ([e] + rest)[1..] == rest;
  }

  /** A batch of legible records is read back exactly if every record has a tag and a value, and not
      at all otherwise. */
  lemma {:induction false} ReadBatch(es: seq<Entry>)
    requires AllLegible(es) && AllFormatted(es)
    ensures Read(Batch(es)) == if AllComplete(es) then Some(es) else None
  {
    if es != [] {
      hide *;
      var e, rest := es[0], es[1..];
      assert es == [e] + rest;
      AllOf(e, rest);
      ReadBatch(rest);
      ReadStep(e, rest);
    }
  }

  /** Names and keys are written as they are: two different records can share one line. */
  lemma KeysAreNotEscaped()
    ensures exists e, f :: e != f && Complete(e) && Complete(f) && Legible(e, ALL) && Line(e) == Line(f)
  {
    var values := [("v", Bool(true))];
    var e := Entry("n", [("a", ""), ("b", "")], values, 0);
    var f := Entry("n,a=", [("b", "")], values, 0);
    PlainIsLegible(e);
    assert Clean("", true) == "";
    hide Clean, FieldTexts, DecInt, Legible, Plain;
    var one, two := TagTexts(e.tags), TagTexts(f.tags);
    assert one[0] == "a=" && one[1] == "b=" && two[0] == "b=";
    assert Join(one[1..]) == one[1] && Join(one) == one[0] + "," + one[1] && Join(two) == two[0];
    assert e != f && Head(e) == Head(f);
    assert Line(e) == Line(f);
  }
}
