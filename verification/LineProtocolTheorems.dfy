/** Exactly which records are read back: names and keys, which the builder writes as they are, must
    be such that no search for a separator stops inside them. */
module LineProtocolTheorems {
  import opened Wrappers
  import opened Decimal
  import opened LineProtocol

  // ---- searches ----

  /** Quotes balance and no backslash is left over; a backslash is never a stop itself. */
  predicate Balanced(t: string) { Quiet(t, '\\') }

  lemma {:induction false} ScanAgrees(t: string, stop: char, quoted: bool)
    requires Scan(t, stop, quoted).Some?
    ensures Scan(t, '\\', quoted) == Scan(t, stop, quoted)
    decreases |t|
  {
    if t == "" {
    } else if t[0] == '\\' {
      ScanAgrees(t[2..], stop, quoted);
    } else {
      ScanAgrees(t[1..], stop, quoted != (t[0] == '"'));
    }
  }

  lemma {:induction false} ScanUpTo(t: string, u: string, stop: char, quoted: bool)
    requires Scan(t, '\\', quoted).Some? && Find(t + u, stop, quoted) >= |t| && stop != '\\'
    ensures Scan(t, stop, quoted) == Scan(t, '\\', quoted)
    decreases |t|
  {
    if t == "" {
    } else if t[0] == '\\' {
      assert (t + u)[2..] == t[2..] + u;
      ScanUpTo(t[2..], u, stop, quoted);
    } else {
      assert (t + u)[1..] == t[1..] + u;
      ScanUpTo(t[1..], u, stop, quoted != (t[0] == '"'));
    }
  }

  /** A balanced text that a search gets past is quiet. */
  lemma QuietUpTo(t: string, s: string, stop: char)
    requires Balanced(t) && t <= s && Find(s, stop, false) >= |t| && stop != '\\'
    ensures Quiet(t, stop)
  {
    assert s == t + s[|t|..];
    ScanUpTo(t, s[|t|..], stop, false);
  }

  lemma QuietIsBalanced(t: string, stop: char)
    requires Quiet(t, stop)
    ensures Balanced(t)
  {
    ScanAgrees(t, stop, false);
  }

  /** A search that stops, stops there whatever follows. */
  lemma FindExtends(l: string, s: string, stop: char)
    requires l <= s && Find(l, stop, false) < |l| && stop != '\\'
    ensures Find(s, stop, false) == Find(l, stop, false)
  {
    var k := Find(l, stop, false);
    hide *;
    KeyIsQuiet(l, stop, l[..k]);
    assert s[..k] == l[..k] && s[k] == l[k];
    FindStop(s[..k], s[k + 1..], stop);
    Spliced(s, k);
  }

  lemma Spliced(s: string, k: nat)
    requires k < |s|
    ensures s == s[..k] + [s[k]] + s[k + 1..]
  {
  }

  lemma FindBehind(t: string, c: char, u: string, stop: char)
    requires Quiet(t, stop) && c != stop && c != '\\' && c != '"'
    ensures Find(t + [c] + u, stop, false) == |t| + 1 + Find(u, stop, false)
  {
    assert [c][1..] == "";
    QuietConcat(t, [c], stop);
    FindAfter(t + [c], u, stop, false);
  }

  // ---- pairs ----

  function Texts(pairs: seq<(string, string)>): seq<string> {
    seq(|pairs|, i requires 0 <= i < |pairs| => Pair(pairs[i].0, pairs[i].1))
  }

  function RawTags(tags: seq<(string, string)>): seq<(string, string)> {
    seq(|tags|, i requires 0 <= i < |tags| => (tags[i].0, Clean(tags[i].1, true)))
  }

  function RawFields(values: seq<(string, Value)>): seq<(string, string)> {
    seq(|values|, i requires 0 <= i < |values| => (values[i].0, ValueText(values[i].1)))
  }

  lemma RawTexts(e: Entry)
    ensures TagTexts(e.tags) == Texts(RawTags(e.tags)) && FieldTexts(e.values) == Texts(RawFields(e.values))
  {
    hide Pair, Clean, ValueText;
  }

  predicate KeysRead(parts: seq<string>, pairs: seq<(string, string)>) {
    && |parts| == |pairs|
    && forall i :: 0 <= i < |parts| ==> ReadPair(parts[i]).Some? && ReadPair(parts[i]).value.0 == pairs[i].0
  }

  predicate QuietTexts(pairs: seq<(string, string)>) {
    forall i :: 0 <= i < |pairs| ==> Quiet(pairs[i].1, ',') && Quiet(pairs[i].1, ' ') && Quiet(pairs[i].1, '\n')
  }

  predicate QuietKeys(pairs: seq<(string, string)>, stop: char) {
    forall i :: 0 <= i < |pairs| ==> Quiet(pairs[i].0, stop)
  }

  lemma {:induction false} TagKeysRead(parts: seq<string>, tags: seq<(string, string)>)
    requires ReadTags(parts) == Some(tags)
    ensures KeysRead(parts, RawTags(tags))
  {
    hide ReadPair, Unclean, Clean;
    if parts != [] {
      var rest := ReadTags(parts[1..]).value;
      TagKeysRead(parts[1..], rest);
      assert tags[1..] == rest;
      assert RawTags(tags)[1..] == RawTags(rest);
    }
  }

  lemma {:induction false} FieldKeysRead(parts: seq<string>, values: seq<(string, Value)>)
    requires ReadValues(parts) == Some(values)
    ensures KeysRead(parts, RawFields(values))
  {
    hide ReadPair, ReadValue, ValueText;
    if parts != [] {
      var rest := ReadValues(parts[1..]).value;
      FieldKeysRead(parts[1..], rest);
      assert values[1..] == rest;
      assert RawFields(values)[1..] == RawFields(rest);
    }
  }

  lemma RawTextsAreQuiet(e: Entry)
    requires RealsFormatted(e)
    ensures QuietTexts(RawTags(e.tags)) && QuietTexts(RawFields(e.values))
  {
    hide Clean, ValueText, WellFormedValue, Quiet;
    forall i | 0 <= i < |e.tags|
      ensures var t := Clean(e.tags[i].1, true); Quiet(t, ',') && Quiet(t, ' ') && Quiet(t, '\n')
    {
      CleanIsQuiet(e.tags[i].1, ',');
      CleanIsQuiet(e.tags[i].1, ' ');
      CleanIsQuiet(e.tags[i].1, '\n');
    }
    forall i | 0 <= i < |e.values|
      ensures var t := ValueText(e.values[i].1); Quiet(t, ',') && Quiet(t, ' ') && Quiet(t, '\n')
    {
      ValueTextIsQuiet(e.values[i].1, ',');
      ValueTextIsQuiet(e.values[i].1, ' ');
      ValueTextIsQuiet(e.values[i].1, '\n');
    }
  }

  lemma CleanIsQuiet(v: string, stop: char)
    requires IsStop(stop)
    ensures Quiet(Clean(v, true), stop)
  {
    ScanClean(v, true, stop, false);
  }

  /** If the first pair read from the front of t has the key, then the key is quiet. */
  lemma FirstKeyIsQuiet(t: string, key: string)
    requires var p := Parts(t[..Find(t, ' ', false)])[0];
      ReadPair(p).Some? && ReadPair(p).value.0 == key
    ensures Quiet(key, ',') && Quiet(key, ' ') && Quiet(key, '=')
  {
    hide Quiet, Scan;
    var h := t[..Find(t, ' ', false)];
    var p := Parts(h)[0];
    assert p <= h && Find(h, ',', false) == |p|;
    KeyIsQuiet(p, '=', key);
    QuietIsBalanced(key, '=');
    QuietUpTo(key, h, ',');
    QuietUpTo(key, t, ' ');
  }

  lemma KeyIsQuiet(p: string, stop: char, key: string)
    requires Find(p, stop, false) < |p| && p[..Find(p, stop, false)] == key && stop != '\\'
    ensures Quiet(key, stop)
  {
    FoundIsQuiet(p, stop, false);
  }

  lemma NextPairs(first: string, t: string, pairs: seq<(string, string)>)
    requires Quiet(first, ',') && Quiet(first, ' ') && pairs != []
    requires KeysRead(Parts((first + "," + t)[..Find(first + "," + t, ' ', false)]), pairs)
    ensures Find(first + "," + t, ' ', false) == |first| + 1 + Find(t, ' ', false)
    ensures KeysRead(Parts(t[..Find(t, ' ', false)]), pairs[1..])
  {
    hide *;
    FindBehind(first, ',', t, ' ');
    var k := Find(t, ' ', false);
    assert (first + "," + t)[..|first| + 1 + k] == first + "," + t[..k];
    PartsBehind(first, t[..k]);
    KeysReadRest(first, Parts(t[..k]), pairs);
  }

  lemma PartsBehind(first: string, h: string)
    requires Quiet(first, ',')
    ensures Parts(first + "," + h) == [first] + Parts(h)
  {
    FindStop(first, h, ',');
    hide Find, Quiet;
  }

  /** If the pairs read from the front of a line are those written there, their keys are quiet, and
      the search for the space behind them finds it. */
  lemma {:induction false} KeysNeeded(pairs: seq<(string, string)>, u: string)
    requires QuietTexts(pairs)
    requires var t := Join(Texts(pairs)) + " " + u; KeysRead(Parts(t[..Find(t, ' ', false)]), pairs)
    ensures QuietKeys(pairs, ',') && QuietKeys(pairs, ' ') && QuietKeys(pairs, '=') && pairs != []
    ensures Find(Join(Texts(pairs)) + " " + u, ' ', false) == |Join(Texts(pairs))|
    decreases |pairs|
  {
    hide Quiet, ReadPair, Find, Parts;
    var (key, text) := pairs[0];
    FirstKeyIsQuiet(Join(Texts(pairs)) + " " + u, key);
    var first, rest := Pair(key, text), pairs[1..];
    PairIsQuiet(key, text, ',');
    PairIsQuiet(key, text, ' ');
    assert Texts(pairs)[1..] == Texts(rest) && Texts(pairs)[0] == first;
    hide Pair, Texts;
    if rest == [] {
      FindStop(first, u, ' ');
    } else {
      assert Join(Texts(pairs)) + " " + u == first + "," + (Join(Texts(rest)) + " " + u);
      NextPairs(first, Join(Texts(rest)) + " " + u, pairs);
      hide KeysRead;
      KeysNeeded(rest, u);
    }
  }

  lemma KeysReadRest(first: string, parts: seq<string>, pairs: seq<(string, string)>)
    requires pairs != [] && KeysRead([first] + parts, pairs)
    ensures KeysRead(parts, pairs[1..])
  {
    hide ReadPair;
    assert ([first] + parts)[1..] == parts;
    assert forall i :: 0 <= i < |parts| ==> ([first] + parts)[i + 1] == parts[i];
  }

  // ---- lines ----

  /** In front of the space there is a comma to stop at: the one written behind the name. */
  lemma NameEnds(name: string, t: string)
    requires var s := name + "," + t; var a := Find(s, ' ', false); a < |s| && Parts(s[..a])[0] == name
    ensures var s := name + "," + t; var a := Find(s, ' ', false);
      Find(s[..a], ',', false) == |name| < a
  {
    var s := name + "," + t;
    var a := Find(s, ' ', false);
    assert s[|name|] == ',';
    assert s[a] == ' ';
    hide Find;
  }

  lemma HeadNeeds(e: Entry, u: string)
    requires RealsFormatted(e)
    requires var s := Head(e) + " " + u; var a := Find(s, ' ', false);
      && a < |s| && Parts(s[..a])[0] == e.name
      && ReadTags(Parts(s[..a])[1..]) == Some(e.tags)
    ensures Quiet(e.name, ',') && Quiet(e.name, ' ') && e.tags != []
    ensures QuietKeys(RawTags(e.tags), ',') && QuietKeys(RawTags(e.tags), ' ') && QuietKeys(RawTags(e.tags), '=')
    ensures Find(Head(e) + " " + u, ' ', false) == |Head(e)|
  {
    hide *;
    RawTextsAreQuiet(e);
    RawTexts(e);
    HeadLength(e);
    RawTagsLength(e.tags);
    var name, t := e.name, Join(TagTexts(e.tags)) + " " + u;
    HeadParts(e, u);
    NameEnds(name, t);
    NameIsQuiet(name, t);
    var k := Find(t, ' ', false);
    HeadBehind(name, t, k);
    PartsBehind(name, t[..k]);
    TagKeysRead(Parts(t[..k]), e.tags);
    KeysNeeded(RawTags(e.tags), u);
  }

  lemma HeadParts(e: Entry, u: string)
    ensures Head(e) + " " + u == e.name + "," + (Join(TagTexts(e.tags)) + " " + u)
  {
    hide Join, TagTexts;
  }

  lemma NameIsQuiet(name: string, t: string)
    requires var s := name + "," + t; Find(s[..Find(s, ' ', false)], ',', false) == |name| < Find(s, ' ', false)
    ensures Quiet(name, ',') && Quiet(name, ' ')
    ensures Find(name + "," + t, ' ', false) == |name| + 1 + Find(t, ' ', false)
  {
    hide *;
    var s := name + "," + t;
    assert s[..Find(s, ' ', false)][..|name|] == name;
    KeyIsQuiet(s[..Find(s, ' ', false)], ',', name);
    QuietIsBalanced(name, ',');
    QuietUpTo(name, s, ' ');
    FindBehind(name, ',', t, ' ');
  }

  lemma HeadBehind(name: string, t: string, k: nat)
    requires k <= |t|
    ensures (name + "," + t)[..|name| + 1 + k] == name + "," + t[..k]
  {
  }

  lemma HeadLength(e: Entry)
    ensures |Head(e)| == |e.name| + 1 + |Join(TagTexts(e.tags))|
  {
  }

  lemma RawTagsLength(tags: seq<(string, string)>)
    ensures |RawTags(tags)| == |tags|
  {
  }

  lemma FieldsNeed(e: Entry, u: string)
    requires RealsFormatted(e)
    requires var s := Join(FieldTexts(e.values)) + " " + u;
      ReadValues(Parts(s[..Find(s, ' ', false)])) == Some(e.values)
    ensures e.values != []
    ensures QuietKeys(RawFields(e.values), ',') && QuietKeys(RawFields(e.values), ' ') && QuietKeys(RawFields(e.values), '=')
    ensures Find(Join(FieldTexts(e.values)) + " " + u, ' ', false) == |Join(FieldTexts(e.values))|
  {
    RawTextsAreQuiet(e);
    RawTexts(e);
    assert |RawFields(e.values)| == |e.values|;
    hide *;
    var s := Join(FieldTexts(e.values)) + " " + u;
    FieldKeysRead(Parts(s[..Find(s, ' ', false)]), e.values);
    KeysNeeded(RawFields(e.values), u);
  }

  lemma LegibleIf(e: Entry, stops: string)
    requires forall c :: c in stops && c != '=' ==> Quiet(e.name, c)
    requires forall c :: c in stops ==> QuietKeys(RawTags(e.tags), c) && QuietKeys(RawFields(e.values), c)
    ensures Legible(e, stops)
  {
    hide Quiet, Clean, ValueText;
    forall i, c | 0 <= i < |e.tags| && c in stops ensures Quiet(e.tags[i].0, c) {
      assert RawTags(e.tags)[i].0 == e.tags[i].0;
    }
    forall i, c | 0 <= i < |e.values| && c in stops ensures Quiet(e.values[i].0, c) {
      assert RawFields(e.values)[i].0 == e.values[i].0;
    }
  }

  /** How far into the written text a reader must have looked. */
  function Opening(e: Entry): string { Head(e) + " " + Join(FieldTexts(e.values)) + " " }

  /** Where a reader finds the two spaces of a line, and what it makes of the parts. */
  lemma ReadLineParts(l: string, e: Entry)
    requires ReadLine(l) == Some(e)
    ensures var a := Find(l, ' ', false);
      && a < |l| && Parts(l[..a])[0] == e.name && ReadTags(Parts(l[..a])[1..]) == Some(e.tags)
      && var m := l[a + 1..]; var b := Find(m, ' ', false);
      b < |m| && ReadValues(Parts(m[..b])) == Some(e.values)
  {
    hide Find, Parts, ReadTags, ReadValues, ValueInt;
  }

  lemma LineParts(e: Entry, x: string)
    ensures Line(e) + x == Head(e) + " " + (Join(FieldTexts(e.values)) + " " + (DecInt(e.timestamp) + x))
  {
    hide Head, Join, FieldTexts, DecInt;
    Together(Head(e), Join(FieldTexts(e.values)), DecInt(e.timestamp), x);
  }

  lemma Together(head: string, fields: string, time: string, x: string)
    ensures head + " " + (fields + " " + time) + x == head + " " + (fields + " " + (time + x))
  {
  }

  lemma PrefixParts(l: string, h: string, u: string)
    requires l <= h + " " + u && |h| < |l|
    ensures l[..|h|] == h && l[|h| + 1..] <= u
  {
  }

  lemma PrefixCut(l: string, s: string, k: nat)
    requires l <= s && k <= |l|
    ensures l[..k] == s[..k]
  {
  }

  /** If what is read from the start of a written line, cut anywhere or run on into what follows, is
      the record, then its name and keys are quiet. */
  lemma LineNeeds(e: Entry, l: string, x: string)
    requires RealsFormatted(e) && l <= Line(e) + x && ReadLine(l) == Some(e)
    ensures Complete(e) && Legible(e, INSIDE) && |Opening(e)| <= |l|
  {
    hide *;
    var u := Join(FieldTexts(e.values)) + " " + (DecInt(e.timestamp) + x);
    var s := Head(e) + " " + u;
    LineParts(e, x);
    ReadLineParts(l, e);
    var a := Find(l, ' ', false);
    FindExtends(l, s, ' ');
    PrefixCut(l, s, a);
    HeadNeeds(e, u);
    PrefixParts(l, Head(e), u);
    var m := l[a + 1..];
    FindExtends(m, u, ' ');
    PrefixCut(m, u, Find(m, ' ', false));
    FieldsNeed(e, DecInt(e.timestamp) + x);
    LegibleInside(e);
    OpeningLength(e);
  }

  lemma OpeningLength(e: Entry)
    ensures |Opening(e)| == |Head(e)| + 1 + |Join(FieldTexts(e.values))| + 1
  {
  }

  lemma LegibleInside(e: Entry)
    requires e.tags != [] && e.values != []
    requires Quiet(e.name, ',') && Quiet(e.name, ' ')
    requires QuietKeys(RawTags(e.tags), ',') && QuietKeys(RawTags(e.tags), ' ') && QuietKeys(RawTags(e.tags), '=')
    requires QuietKeys(RawFields(e.values), ',') && QuietKeys(RawFields(e.values), ' ') && QuietKeys(RawFields(e.values), '=')
    ensures Complete(e) && Legible(e, INSIDE)
  {
    hide Quiet, QuietKeys, RawTags, RawFields;
    LegibleIf(e, INSIDE);
  }

  /** A line is read back exactly if it has a tag and a value and no search for a comma, a space or
      an equals sign stops inside its name or keys. */
  lemma ReadLineIff(e: Entry)
    requires RealsFormatted(e)
    ensures ReadLine(Line(e)) == Some(e) <==> Complete(e) && Legible(e, INSIDE)
  {
    hide *;
    assert Line(e) + "" == Line(e);
    if ReadLine(Line(e)) == Some(e) { LineNeeds(e, Line(e), ""); }
    if Legible(e, INSIDE) { ReadLineOf(e); }
  }

  // ---- batches ----

  /** A search for a newline that gets past the pairs gets past every key. */
  lemma {:induction false} KeysHoldNoNewline(pairs: seq<(string, string)>, s: string)
    requires QuietTexts(pairs) && QuietKeys(pairs, ' ')
    requires Join(Texts(pairs)) <= s && Find(s, '\n', false) >= |Join(Texts(pairs))|
    ensures QuietKeys(pairs, '\n')
    decreases |pairs|
  {
    hide Quiet, Find;
    if pairs != [] {
      var (key, text) := pairs[0];
      var first, rest := Pair(key, text), pairs[1..];
      assert Texts(pairs)[1..] == Texts(rest) && Texts(pairs)[0] == first;
      assert key <= first <= Join(Texts(pairs));
      hide Texts;
      QuietIsBalanced(key, ' ');
      QuietUpTo(key, s, '\n');
      PairIsQuiet(key, text, '\n');
      if rest != [] {
        var s' := s[|first| + 1..];
        assert Join(Texts(pairs)) == first + "," + Join(Texts(rest));
        hide Pair, Join;
        assert s == first + "," + s';
        FindBehind(first, ',', s', '\n');
        assert Join(Texts(rest)) <= s';
        KeysHoldNoNewline(rest, s');
      }
    }
  }

  lemma NewlineInHead(e: Entry, t: string)
    requires Legible(e, INSIDE) && RealsFormatted(e)
    requires Find(Head(e) + " " + t, '\n', false) >= |Head(e)|
    ensures Quiet(e.name, '\n') && QuietKeys(RawTags(e.tags), '\n') && Quiet(Head(e), '\n')
  {
    assert ' ' in INSIDE;
    hide *;
    var s, tags := Head(e) + " " + t, Join(Texts(RawTags(e.tags)));
    RawTextsAreQuiet(e);
    HeadIsQuiet(e, INSIDE, ' ');
    KeysOf(e);
    HeadIs(e);
    QuietIsBalanced(e.name, ' ');
    QuietUpTo(e.name, s, '\n');
    var s' := s[|e.name| + 1..];
    assert s == e.name + "," + s';
    FindBehind(e.name, ',', s', '\n');
    assert tags <= s';
    KeysHoldNoNewline(RawTags(e.tags), s');
    QuietIsBalanced(Head(e), ' ');
    QuietUpTo(Head(e), s, '\n');
  }

  /** A search for a newline that gets past the opening of a line gets past its name and keys. */
  lemma NewlineNeeds(e: Entry, s: string)
    requires Legible(e, INSIDE) && RealsFormatted(e)
    requires Opening(e) <= s && Find(s, '\n', false) >= |Opening(e)|
    ensures Legible(e, ALL)
  {
    OpeningLength(e);
    RawTexts(e);
    assert Opening(e) == Head(e) + " " + Join(Texts(RawFields(e.values))) + " ";
    hide *;
    var t := s[|Head(e)| + 1..];
    assert s == Head(e) + " " + t;
    NewlineInHead(e, t);
    FindBehind(Head(e), ' ', t, '\n');
    RawTextsAreQuiet(e);
    KeysOf(e);
    KeysHoldNoNewline(RawFields(e.values), t);
    LegibleAll(e);
  }

  lemma HeadIs(e: Entry)
    ensures Head(e) == e.name + "," + Join(Texts(RawTags(e.tags)))
  {
    RawTexts(e);
  }

  lemma KeysOf(e: Entry)
    requires Legible(e, INSIDE)
    ensures Quiet(e.name, ' ') && Quiet(e.name, ',')
    ensures forall c :: c in INSIDE ==> QuietKeys(RawTags(e.tags), c) && QuietKeys(RawFields(e.values), c)
    ensures QuietKeys(RawTags(e.tags), ' ') && QuietKeys(RawFields(e.values), ' ')
  {
    hide Quiet, Clean, ValueText;
    assert ' ' in INSIDE && ',' in INSIDE;
  }

  lemma LegibleAll(e: Entry)
    requires Legible(e, INSIDE) && Quiet(e.name, '\n')
    requires QuietKeys(RawTags(e.tags), '\n') && QuietKeys(RawFields(e.values), '\n')
    ensures Legible(e, ALL)
  {
    KeysOf(e);
    hide Quiet, QuietKeys, RawTags, RawFields;
    assert forall c :: c in ALL ==> c in INSIDE || c == '\n';
    LegibleIf(e, ALL);
  }

  /** A batch is read back exactly if every record has a tag and a value and no search for a comma, a
      space, an equals sign or a newline stops inside its name or keys. */
  lemma {:induction false} ReadBatchIff(es: seq<Entry>)
    requires AllFormatted(es)
    ensures Read(Batch(es)) == Some(es) <==> AllComplete(es) && AllLegible(es)
    decreases |es|
  {
    if AllComplete(es) && AllLegible(es) { ReadBatch(es); }
    hide *;
    if es != [] && Read(Batch(es)) == Some(es) {
      var e, rest := es[0], es[1..];
      assert es == [e] + rest;
      AllOf(e, rest);
      FirstRecord(e, rest);
      ReadBatchIff(rest);
    } else if es == [] {
      NoneOf();
    }
  }

  lemma NoneOf()
    ensures AllLegible([]) && AllComplete([]) && Batch([]) == "" && Read("") == Some([])
  {
  }

  lemma FirstRecord(e: Entry, rest: seq<Entry>)
    requires RealsFormatted(e) && Read(Batch([e] + rest)) == Some([e] + rest)
    ensures Complete(e) && Legible(e, ALL) && Read(Batch(rest)) == Some(rest)
  {
    hide *;
    var s := Line(e) + "\n" + Batch(rest);
    BatchFirst(e, rest);
    ReadFirst(s, e, rest);
    var l := s[..Find(s, '\n', false)];
    assert Line(e) + ("\n" + Batch(rest)) == s;
    LineNeeds(e, l, "\n" + Batch(rest));
    OpeningStarts(e);
    assert Opening(e) <= s;
    NewlineNeeds(e, s);
    LineIsQuiet(e);
    FindStop(Line(e), Batch(rest), '\n');
  }

  lemma BatchFirst(e: Entry, rest: seq<Entry>)
    ensures Batch([e] + rest) == Line(e) + "\n" + Batch(rest)
  {
    hide Line;
    assert ([e] + rest)[1..] == rest;
  }

  lemma OpeningStarts(e: Entry)
    ensures Opening(e) <= Line(e)
  {
    hide Head, FieldTexts, DecInt;
    assert Line(e) == Opening(e) + DecInt(e.timestamp);
  }

  lemma ReadFirst(s: string, e: Entry, rest: seq<Entry>)
    requires Read(s) == Some([e] + rest)
    ensures var k := Find(s, '\n', false);
      k < |s| && ReadLine(s[..k]) == Some(e) && Read(s[k + 1..]) == Some(rest)
  {
    hide ReadLine, Find;
    assert ([e] + rest)[0] == e && ([e] + rest)[1..] == rest;
    if s != "" && Find(s, '\n', false) < |s| && Read(s[Find(s, '\n', false) + 1..]).Some? && ReadLine(s[..Find(s, '\n', false)]).Some? {
      var f, r := ReadLine(s[..Find(s, '\n', false)]).value, Read(s[Find(s, '\n', false) + 1..]).value;
      assert ([f] + r)[0] == f && ([f] + r)[1..] == r;
    }
  }
}
