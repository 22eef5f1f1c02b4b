/** The line wrapping of `Column::iterator` (src/common/util/clara.hpp).  A column holds one text,
    so the iterator's string index is 0 while it walks the text and 1 at the end. */
module TextWrap {
  import opened Wrappers

  datatype Column = Column(text: string, width: nat, indent: nat, initial: Option<nat>)

  /** What the iterator asserts of its column. */
  predicate Fits(c: Column) {
    c.width > c.indent && (c.initial.Some? ==> c.width > c.initial.value)
  }

  predicate IsWhitespace(c: char) { c in " \t\n\r" }

  predicate IsBreakableBefore(c: char) { c in "[({<|" }

  predicate IsBreakableAfter(c: char) { c in "])}>.,:;*+-=&/\\" }

  predicate IsBoundary(text: string, at: nat)
    requires 0 < at <= |text|
  {
    || at == |text|
    || (IsWhitespace(text[at]) && !IsWhitespace(text[at - 1]))
    || IsBreakableBefore(text[at])
    || IsBreakableAfter(text[at - 1])
  }

  predicate BlankIn(text: string, from: nat, to: nat)
    requires to <= |text|
  {
    forall i :: from <= i < to ==> IsWhitespace(text[i])
  }

  predicate Blank(s: string) { BlankIn(s, 0, |s|) }

  function NonBlank(s: string): string {
    if s == "" then ""
    else NonBlank(s[..|s| - 1]) + if IsWhitespace(s[|s| - 1]) then "" else [s[|s| - 1]]
  }

  function Spaces(n: nat): string { seq(n, _ => ' ') }

  function Indent(c: Column, pos: nat): nat {
    if pos == 0 && c.initial.Some? then c.initial.value else c.indent
  }

  function Room(c: Column, pos: nat): nat
    requires Fits(c)
  {
    c.width - Indent(c, pos)
  }

  /** Where the line starting at `pos` ends at the latest: a newline or the end of the text. */
  function LineEnd(text: string, pos: nat): (e: nat)
    requires pos <= |text|
    ensures pos <= e <= |text|
    decreases |text| - pos
  {
    if pos < |text| && text[pos] != '\n' then LineEnd(text, pos + 1) else pos
  }

  predicate BoundaryAfter(text: string, pos: nat, l: nat) {
    0 < l && pos + l <= |text| && IsBoundary(text, pos + l)
  }

  /** The last boundary at most `len` characters after `pos`, or 0. */
  function LastBoundary(text: string, pos: nat, len: nat): (b: nat)
    requires pos + len <= |text|
    ensures b <= len
  {
    if len > 0 && !IsBoundary(text, pos + len) then LastBoundary(text, pos, len - 1) else len
  }

  function Trimmed(text: string, pos: nat, len: nat): (t: nat)
    requires pos + len <= |text|
    ensures t <= len
  {
    if len > 0 && IsWhitespace(text[pos + len - 1]) then Trimmed(text, pos, len - 1) else len
  }

  datatype Cut = Cut(len: nat, suffix: bool)

  function CutAt(c: Column, pos: nat): (k: Cut)
    requires Fits(c) && pos <= |c.text|
    ensures pos + k.len <= LineEnd(c.text, pos)
  {
    var room, end := Room(c, pos), LineEnd(c.text, pos);
    if end < pos + room then Cut(end - pos, false)
    else
      var len := Trimmed(c.text, pos, LastBoundary(c.text, pos, room));
      if len > 0 then Cut(len, false) else Cut(room - 1, true)
  }

  lemma {:induction false} LineEndIsFirst(text: string, pos: nat)
    requires pos <= |text|
    ensures LineEnd(text, pos) < |text| ==> text[LineEnd(text, pos)] == '\n'
    ensures forall i :: pos <= i < LineEnd(text, pos) ==> text[i] != '\n'
    decreases |text| - pos
  {
    if pos < |text| && text[pos] != '\n' { LineEndIsFirst(text, pos + 1); }
  }

  lemma {:induction false} LastBoundaryIsLast(text: string, pos: nat, len: nat)
    requires pos + len <= |text|
    ensures var b := LastBoundary(text, pos, len);
      && (b > 0 ==> BoundaryAfter(text, pos, b))
      && forall l: nat :: b < l <= len ==> !BoundaryAfter(text, pos, l)
  {
    if len > 0 && !IsBoundary(text, pos + len) { LastBoundaryIsLast(text, pos, len - 1); }
  }

  lemma {:induction false} TrimmedDropsBlanks(text: string, pos: nat, len: nat)
    requires pos + len <= |text|
    ensures var t := Trimmed(text, pos, len);
      (t > 0 ==> !IsWhitespace(text[pos + t - 1])) && BlankIn(text, pos + t, pos + len)
  {
    if len > 0 && IsWhitespace(text[pos + len - 1]) { TrimmedDropsBlanks(text, pos, len - 1); }
  }

  lemma CutUnfolded(c: Column, pos: nat)
    requires Fits(c) && pos <= |c.text|
    ensures var room, end := Room(c, pos), LineEnd(c.text, pos);
      CutAt(c, pos) ==
      if end < pos + room then Cut(end - pos, false)
      else
        var len := Trimmed(c.text, pos, LastBoundary(c.text, pos, room));
        if len > 0 then Cut(len, false) else Cut(room - 1, true)
  {
  }

  lemma LineEndStep(text: string, pos: nat)
    requires pos <= |text|
    ensures LineEnd(text, pos) ==
      if pos < |text| && text[pos] != '\n' then LineEnd(text, pos + 1) else pos
  {
  }

  lemma LastBoundaryStep(text: string, pos: nat, len: nat)
    requires pos + len <= |text|
    ensures LastBoundary(text, pos, len) ==
      if len > 0 && !IsBoundary(text, pos + len) then LastBoundary(text, pos, len - 1) else len
  {
  }

  lemma TrimmedStep(text: string, pos: nat, len: nat)
    requires pos + len <= |text|
    ensures Trimmed(text, pos, len) ==
      if len > 0 && IsWhitespace(text[pos + len - 1]) then Trimmed(text, pos, len - 1) else len
  {
  }

  function SkipBlank(text: string, pos: nat): (q: nat)
    requires pos <= |text|
    ensures pos <= q <= |text| && BlankIn(text, pos, q)
    ensures q < |text| ==> !IsWhitespace(text[q])
    ensures pos < |text| && IsWhitespace(text[pos]) ==> q > pos
    decreases |text| - pos
  {
    if pos < |text| && IsWhitespace(text[pos]) then SkipBlank(text, pos + 1) else pos
  }

  /** Where the next line starts: one newline is dropped where the cut is at one, and otherwise all
      white space up to the next visible character. */
  function After(c: Column, pos: nat): (q: nat)
    requires Fits(c) && pos <= |c.text|
    ensures pos + CutAt(c, pos).len <= q <= |c.text|
    ensures BlankIn(c.text, pos + CutAt(c, pos).len, q)
    ensures var stop := pos + CutAt(c, pos).len;
      if stop < |c.text| && c.text[stop] == '\n' then q == stop + 1
      else q == |c.text| || !IsWhitespace(c.text[q])
  {
    var stop := pos + CutAt(c, pos).len;
    if stop < |c.text| && c.text[stop] == '\n' then stop + 1 else SkipBlank(c.text, stop)
  }

  datatype Line = Line(indent: nat, body: string, hyphen: bool)

  function Render(l: Line): string {
    Spaces(l.indent) + if l.hyphen then l.body + "-" else l.body
  }

  function LineAt(c: Column, pos: nat): Line
    requires Fits(c) && pos <= |c.text|
  {
    var k := CutAt(c, pos);
    Line(Indent(c, pos), c.text[pos..pos + k.len], k.suffix)
  }

  /** The one way a step stands still: one character of room and no boundary behind it. */
  predicate Stuck(c: Column, pos: nat)
    requires Fits(c) && pos < |c.text|
  {
    Room(c, pos) == 1 && !IsWhitespace(c.text[pos]) && !IsBoundary(c.text, pos + 1)
  }

  lemma ProgressIff(c: Column, pos: nat)
    requires Fits(c) && pos < |c.text|
    ensures After(c, pos) > pos <==> !Stuck(c, pos)
  {
    var room, end := Room(c, pos), LineEnd(c.text, pos);
    if !(end < pos + room) {
      var b := LastBoundary(c.text, pos, room);
      if room == 1 && !IsWhitespace(c.text[pos]) {
        assert b == 1 <==> IsBoundary(c.text, pos + 1);
        if b == 1 { assert Trimmed(c.text, pos, 1) == 1; }
      }
    }
  }

  // ---- termination ----

  /** No step from `pos` on stands still. */
  predicate Flows(c: Column, pos: nat)
    requires Fits(c) && pos <= |c.text|
    decreases |c.text| - pos
  {
    pos == |c.text| || (!Stuck(c, pos) && (ProgressIff(c, pos); Flows(c, After(c, pos))))
  }

  /** The iterator is at the end from the start, or gets there. */
  predicate Runs(c: Column)
    requires Fits(c)
  {
    CutAt(c, 0).len == 0 || Flows(c, 0)
  }

  /** The position after n steps. */
  function At(c: Column, n: nat): (pos: nat)
    requires Fits(c)
    ensures pos <= |c.text|
  {
    if n == 0 then 0
    else
      var pos := At(c, n - 1);
      if pos < |c.text| then After(c, pos) else pos
  }

  lemma {:induction false} FlowEnds(c: Column, n: nat)
    requires Fits(c) && Flows(c, At(c, n))
    ensures exists m :: At(c, m) == |c.text|
    decreases |c.text| - At(c, n)
  {
    hide CutAt, BlankIn, IsWhitespace;
    if At(c, n) < |c.text| {
      ProgressIff(c, At(c, n));
      assert At(c, n + 1) == After(c, At(c, n));
      FlowEnds(c, n + 1);
    }
  }

  lemma {:induction false} NeverEnds(c: Column, n: nat)
    requires Fits(c) && !Flows(c, 0)
    ensures !Flows(c, At(c, n))
  {
    hide CutAt, BlankIn, IsWhitespace;
    if n > 0 {
      NeverEnds(c, n - 1);
      ProgressIff(c, At(c, n - 1));
    }
  }

  /** The walk over a text reaches its end exactly if no step of it stands still. */
  lemma EndsIff(c: Column)
    requires Fits(c) && CutAt(c, 0).len > 0
    ensures Runs(c) <==> exists n :: At(c, n) == |c.text|
  {
    if Flows(c, 0) {
      FlowEnds(c, 0);
    } else {
      forall n: nat ensures At(c, n) != |c.text| {
        NeverEnds(c, n);
      }
    }
  }

  lemma StuckIsEmpty(c: Column)
    requires Fits(c) && c.text != "" && Stuck(c, 0)
    ensures CutAt(c, 0).len == 0
  {
    ProgressIff(c, 0);
  }

  lemma {:induction false} WideFlows(c: Column, pos: nat)
    requires c.width >= c.indent + 2 && Fits(c) && pos <= |c.text|
    requires pos == 0 ==> CutAt(c, 0).len > 0
    ensures Flows(c, pos)
    decreases |c.text| - pos
  {
    hide CutAt, BlankIn, IsWhitespace, IsBoundary;
    if pos < |c.text| {
      if pos == 0 && Stuck(c, 0) { StuckIsEmpty(c); }
      assert !Stuck(c, pos);
      ProgressIff(c, pos);
      WideFlows(c, After(c, pos));
    }
  }

  /** A full stop and more letters than fit behind it. */
  function LongWord(room: nat): string { "." + seq(room + 1, _ => 'a') }

  lemma LongWordSticks(c: Column)
    requires Fits(c) && c.width == c.indent + 1 && c.text == LongWord(Room(c, 0))
    ensures |c.text| > 1 && CutAt(c, 0).len == 1 && After(c, 0) == 1 && Stuck(c, 1)
  {
    var text, room := c.text, Room(c, 0);
    LongWordBoundaries(text, room);
    LineEndIsFirst(text, 0);
    LastBoundaryIsLast(text, 0, room);
    TrimmedStep(text, 0, 1);
    CutUnfolded(c, 0);
    assert text[1] == 'a' && text[2] == 'a' && !IsWhitespace(text[1]) && !IsBoundary(text, 2);
    hide CutAt, LineEnd, LastBoundary, Trimmed, BoundaryAfter, IsWhitespace, IsBoundary;
    assert LastBoundary(text, 0, room) == 1;
  }

  lemma LongWordBoundaries(text: string, room: nat)
    requires room > 0 && text == LongWord(room)
    ensures BoundaryAfter(text, 0, 1) && !IsWhitespace(text[0]) && '\n' !in text
    ensures forall l: nat :: 1 < l <= room ==> !BoundaryAfter(text, 0, l)
  {
    assert text[0] == '.' && forall i :: 1 <= i < |text| ==> text[i] == 'a';
  }

  /** The iterator's asserts on a column rule out endless walks over every text exactly if the width
      leaves two characters beside the indent; the initial indent does not matter. */
  lemma AlwaysRunsIff(c: Column)
    requires Fits(c)
    ensures c.width >= c.indent + 2 <==> forall text :: Runs(c.(text := text))
  {
    hide CutAt, Flows, BlankIn, Stuck, Room, LongWord;
    if c.width >= c.indent + 2 {
      forall text ensures Runs(c.(text := text)) {
        var d := c.(text := text);
        if CutAt(d, 0).len > 0 { WideFlows(d, 0); }
      }
    } else {
      var d := c.(text := LongWord(Room(c, 0)));
      SameRoom(c, d);
      LongWordSticks(d);
      NotFlowing(d);
    }
  }

  lemma SameRoom(c: Column, d: Column)
    requires Fits(c) && d == c.(text := d.text)
    ensures Room(d, 0) == Room(c, 0)
  {
  }

  lemma NotFlowing(c: Column)
    requires Fits(c) && |c.text| > 1 && After(c, 0) == 1 && Stuck(c, 1)
    ensures !Flows(c, 0)
  {
    hide CutAt, Stuck;
  }

  /** The lines from `pos` on. */
  function LinesFrom(c: Column, pos: nat): (ls: seq<Line>)
    requires Fits(c) && pos < |c.text| && Flows(c, pos)
    decreases |c.text| - pos
  {
    ProgressIff(c, pos);
    var q := After(c, pos);
    [LineAt(c, pos)] + if q == |c.text| then [] else LinesFrom(c, q)
  }

  /** All lines: none at all when the first would be empty. */
  function Lines(c: Column): seq<Line>
    requires Fits(c) && Runs(c)
  {
    if CutAt(c, 0).len == 0 then [] else LinesFrom(c, 0)
  }

  function Bodies(ls: seq<Line>): string {
    if ls == [] then "" else ls[0].body + Bodies(ls[1..])
  }

  function Joined(ls: seq<Line>): string {
    if ls == [] then ""
    else if |ls| == 1 then Render(ls[0])
    else Joined(ls[..|ls| - 1]) + "\n" + Render(ls[|ls| - 1])
  }

  lemma JoinedAppend(ls: seq<Line>, l: Line)
    ensures Joined(ls + [l]) == if ls == [] then Render(l) else Joined(ls) + "\n" + Render(l)
  {
    assert (ls + [l])[..|ls|] == ls;
  }

  // ---- where a line is cut, without the search loops ----

  ghost predicate Usable(c: Column, pos: nat, l: nat)
  {
    BoundaryAfter(c.text, pos, l) && !BlankIn(c.text, pos, pos + l)
  }

  /** The rest of the line where it fits; else up to the last usable boundary without the blanks before it; else a hyphen. */
  ghost predicate IsBest(c: Column, pos: nat, k: Cut)
    requires Fits(c) && pos <= |c.text|
  {
    var room, end := Room(c, pos), LineEnd(c.text, pos);
    if end < pos + room then k == Cut(end - pos, false)
    else if exists l: nat :: l <= room && Usable(c, pos, l) then
      && !k.suffix && 0 < k.len <= room && !IsWhitespace(c.text[pos + k.len - 1])
      && exists b: nat ::
           && k.len <= b <= room && Usable(c, pos, b) && BlankIn(c.text, pos + k.len, pos + b)
           && forall l: nat :: b < l <= room ==> !Usable(c, pos, l)
    else k == Cut(room - 1, true)
  }

  lemma LastUsable(c: Column, pos: nat, b: nat, t: nat)
    requires Fits(c) && pos <= |c.text| && pos + Room(c, pos) <= |c.text|
    requires b == LastBoundary(c.text, pos, Room(c, pos)) && t == Trimmed(c.text, pos, b)
    ensures if t > 0
      then !IsWhitespace(c.text[pos + t - 1]) && Usable(c, pos, b) && BlankIn(c.text, pos + t, pos + b)
      else !Usable(c, pos, b)
    ensures forall l: nat :: b < l <= Room(c, pos) ==> !Usable(c, pos, l)
  {
    hide BoundaryAfter, LastBoundary, Trimmed, Room, Fits, IsWhitespace;
    LastBoundaryIsLast(c.text, pos, Room(c, pos));
    TrimmedDropsBlanks(c.text, pos, b);
  }

  lemma NoneUsable(c: Column, pos: nat, b: nat)
    requires pos + b <= |c.text| && BlankIn(c.text, pos, pos + b)
    ensures forall l: nat :: l <= b ==> !Usable(c, pos, l)
  {
    hide IsWhitespace, IsBoundary;
  }

  lemma CutIsBest(c: Column, pos: nat)
    requires Fits(c) && pos <= |c.text|
    ensures IsBest(c, pos, CutAt(c, pos))
  {
    hide Usable, BlankIn, BoundaryAfter, LastBoundary, Trimmed, CutAt, LineEnd, Room, IsWhitespace;
    var room := Room(c, pos);
    CutUnfolded(c, pos);
    if LineEnd(c.text, pos) >= pos + room {
      var b := LastBoundary(c.text, pos, room);
      LastUsable(c, pos, b, Trimmed(c.text, pos, b));
      TrimmedDropsBlanks(c.text, pos, b);
      if Trimmed(c.text, pos, b) == 0 { NoneUsable(c, pos, b); }
    }
  }

  lemma BestIsUnique(c: Column, pos: nat, j: Cut, k: Cut)
    requires Fits(c) && pos <= |c.text| && IsBest(c, pos, j) && IsBest(c, pos, k)
    ensures j == k
  {
    var room, end := Room(c, pos), LineEnd(c.text, pos);
    if end >= pos + room && (exists l: nat :: l <= room && Usable(c, pos, l)) {
      NotLonger(c, pos, j, k);
      NotLonger(c, pos, k, j);
    }
  }

  lemma NotLonger(c: Column, pos: nat, j: Cut, k: Cut)
    requires Fits(c) && pos <= |c.text| && IsBest(c, pos, j) && IsBest(c, pos, k)
    requires LineEnd(c.text, pos) >= pos + Room(c, pos)
    requires exists l: nat :: l <= Room(c, pos) && Usable(c, pos, l)
    ensures j.len <= k.len && !j.suffix
  {
    var room := Room(c, pos);
    var a: nat :| j.len <= a <= room && Usable(c, pos, a) && BlankIn(c.text, pos + j.len, pos + a)
             && forall l: nat :: a < l <= room ==> !Usable(c, pos, l);
    var b: nat :| k.len <= b <= room && Usable(c, pos, b) && BlankIn(c.text, pos + k.len, pos + b)
             && forall l: nat :: b < l <= room ==> !Usable(c, pos, l);
    assert a == b;
  }

  /** The cut the loops find is the best one and no other is. */
  lemma CutIffBest(c: Column, pos: nat, k: Cut)
    requires Fits(c) && pos <= |c.text|
    ensures k == CutAt(c, pos) <==> IsBest(c, pos, k)
  {
    CutIsBest(c, pos);
    if IsBest(c, pos, k) { BestIsUnique(c, pos, k, CutAt(c, pos)); }
  }

  // ---- where a line is cut, in characters ----

  predicate Space(c: char) { c == ' ' || c == '\t' || c == '\n' || c == '\r' }

  predicate Opens(c: char) { c == '[' || c == '(' || c == '{' || c == '<' || c == '|' }

  predicate Closes(c: char) {
    || c == ']' || c == ')' || c == '}' || c == '>' || c == '.' || c == ',' || c == ':' || c == ';'
    || c == '*' || c == '+' || c == '-' || c == '=' || c == '&' || c == '/' || c == '\\'
  }

  /** `room` characters from `pos` on offer no place to break: behind a visible character comes no white
      space and no opening character, none of them is a closing one, and the text goes on behind them. */
  ghost predicate Unbreakable(text: string, pos: nat, room: nat)
    requires pos + room <= |text|
  {
    var limit := pos + room;
    && (forall i :: pos <= i < limit && !Space(text[i]) ==> Continues(text, i))
    && (forall i, j :: pos <= i < j <= limit && j < |text| && !Space(text[i]) ==> !Opens(text[j]))
    && (forall i :: pos <= i < limit ==> !Closes(text[i]))
  }

  /** Visible text goes on behind i. */
  predicate Continues(text: string, i: nat) { i + 1 < |text| && !Space(text[i + 1]) }

  lemma Classes(c: char)
    ensures IsWhitespace(c) <==> Space(c)
    ensures IsBreakableBefore(c) <==> Opens(c)
    ensures IsBreakableAfter(c) <==> Closes(c)
    ensures Closes(c) ==> !Space(c)
  {
  }

  lemma Boundaries(text: string, pos: nat, l: nat)
    requires 0 < l && pos + l <= |text|
    ensures BoundaryAfter(text, pos, l) <==>
      || pos + l == |text|
      || (Space(text[pos + l]) && !Space(text[pos + l - 1]))
      || Opens(text[pos + l])
      || Closes(text[pos + l - 1])
  {
    Classes(text[pos + l - 1]);
    if pos + l < |text| { Classes(text[pos + l]); }
    hide IsWhitespace, IsBreakableBefore, IsBreakableAfter, Space, Opens, Closes;
  }

  lemma BlankIsSpace(text: string, from: nat, to: nat)
    requires to <= |text|
    ensures BlankIn(text, from, to) <==> forall i :: from <= i < to ==> Space(text[i])
  {
    hide IsWhitespace, Space;
    forall i | from <= i < to ensures IsWhitespace(text[i]) <==> Space(text[i]) { Classes(text[i]); }
  }

  lemma UnbreakableIff(text: string, pos: nat, room: nat)
    requires pos + room <= |text|
    ensures Unbreakable(text, pos, room) <==>
      forall l: nat :: 0 < l <= room && BoundaryAfter(text, pos, l) ==> BlankIn(text, pos, pos + l)
  {
    hide BoundaryAfter, Unbreakable, BlankIn;
    if Unbreakable(text, pos, room) {
      forall l: nat | 0 < l <= room && BoundaryAfter(text, pos, l) ensures BlankIn(text, pos, pos + l) {
        NoBreakInside(text, pos, room, l);
      }
    } else {
      var l := SomeBreak(text, pos, room);
    }
  }

  lemma NoBreakInside(text: string, pos: nat, room: nat, l: nat)
    requires 0 < l <= room && pos + room <= |text| && Unbreakable(text, pos, room) && BoundaryAfter(text, pos, l)
    ensures BlankIn(text, pos, pos + l)
  {
    Boundaries(text, pos, l);
    BlankIsSpace(text, pos, pos + l);
    hide BoundaryAfter, BlankIn, Space, Opens, Closes;
    if i :| pos <= i < pos + l && !Space(text[i]) {
      VisibleToEnd(text, pos, room, i, pos + l - 1);
    }
  }

  /** In text that offers no place to break, nothing but visible characters follows a visible one. */
  lemma {:induction false} VisibleToEnd(text: string, pos: nat, room: nat, i: nat, j: nat)
    requires pos + room <= |text| && Unbreakable(text, pos, room) && pos <= i <= j < pos + room && !Space(text[i])
    ensures !Space(text[j])
    decreases j
  {
    hide Space, Opens, Closes;
    if i < j {
      VisibleToEnd(text, pos, room, i, j - 1);
      ContinuesTo(text, j);
    }
  }

  lemma ContinuesTo(text: string, j: nat)
    requires 0 < j < |text| && Continues(text, j - 1)
    ensures !Space(text[j])
  {
  }

  lemma VisibleThen(text: string, pos: nat, i: nat, l: nat)
    requires pos <= i < pos + l <= |text| && !Space(text[i])
    requires pos + l == |text| || (i == pos + l - 1 && Space(text[pos + l])) || Opens(text[pos + l]) || Closes(text[pos + l - 1])
    ensures BoundaryAfter(text, pos, l) && !BlankIn(text, pos, pos + l)
  {
    hide BoundaryAfter, BlankIn, Space, Opens, Closes;
    Boundaries(text, pos, l);
    BlankIsSpace(text, pos, pos + l);
  }

  /** What breaks one of the conditions is a boundary behind a visible character. */
  lemma SomeBreak(text: string, pos: nat, room: nat) returns (l: nat)
    requires pos + room <= |text| && !Unbreakable(text, pos, room)
    ensures 0 < l <= room && BoundaryAfter(text, pos, l) && !BlankIn(text, pos, pos + l)
  {
    hide BoundaryAfter, BlankIn, Space, Opens, Closes;
    var limit := pos + room;
    if i: nat :| pos <= i < limit && !Space(text[i]) && !Continues(text, i) {
      l := i + 1 - pos;
      VisibleThen(text, pos, i, l);
    } else if i: nat, j: nat :| pos <= i < j <= limit && j < |text| && !Space(text[i]) && Opens(text[j]) {
      l := j - pos;
      VisibleThen(text, pos, i, l);
    } else {
      var i: nat :| pos <= i < limit && Closes(text[i]);
      Classes(text[i]);
      l := i + 1 - pos;
      VisibleThen(text, pos, i, l);
    }
  }

  /** A hyphen is added exactly if the hard line is too long for the room and offers no place to break. */
  lemma HyphenIff(c: Column, pos: nat)
    requires Fits(c) && pos <= |c.text|
    ensures CutAt(c, pos).suffix <==>
      LineEnd(c.text, pos) >= pos + Room(c, pos) && Unbreakable(c.text, pos, Room(c, pos))
  {
    CutIsBest(c, pos);
    hide CutAt, LineEnd, IsBoundary, BlankIn, Unbreakable;
    var room := Room(c, pos);
    if LineEnd(c.text, pos) >= pos + room {
      UnbreakableIff(c.text, pos, room);
      if Unbreakable(c.text, pos, room) {
        assert forall l: nat :: l <= room ==> !Usable(c, pos, l);
      } else {
        var l := SomeBreak(c.text, pos, room);
        assert Usable(c, pos, l);
      }
    }
  }

  /** A line cut short without a hyphen ends with a visible character, at the end of the text, before
      white space, before an opening or behind a closing character; and the room left over offers no
      later place to break. */
  lemma BreaksAtPlace(c: Column, pos: nat)
    requires Fits(c) && pos <= |c.text|
    requires LineEnd(c.text, pos) >= pos + Room(c, pos) && !CutAt(c, pos).suffix
    ensures var stop := pos + CutAt(c, pos).len; var limit := pos + Room(c, pos);
      && pos < stop <= limit <= |c.text| && !Space(c.text[stop - 1])
      && (stop == |c.text| || Space(c.text[stop]) || Opens(c.text[stop]) || Closes(c.text[stop - 1]))
      && Unbreakable(c.text, stop, limit - stop)
  {
    hide CutAt, LineEnd, IsWhitespace, BoundaryAfter, BlankIn, Unbreakable, Space, Opens, Closes;
    CutIsBest(c, pos);
    var text, len, room := c.text, CutAt(c, pos).len, Room(c, pos);
    var b: nat :| len <= b <= room && Usable(c, pos, b) && BlankIn(text, pos + len, pos + b)
                  && forall l: nat :: b < l <= room ==> !Usable(c, pos, l);
    hide IsBest, Room;
    StopsAt(text, pos, len, b);
    NothingLater(c, pos, len, b, room);
  }

  lemma StopsAt(text: string, pos: nat, len: nat, b: nat)
    requires 0 < len <= b && pos + b <= |text| && BoundaryAfter(text, pos, b) && !IsWhitespace(text[pos + len - 1])
    requires BlankIn(text, pos + len, pos + b)
    ensures var stop := pos + len;
      && !Space(text[stop - 1])
      && (stop == |text| || Space(text[stop]) || Opens(text[stop]) || Closes(text[stop - 1]))
  {
    Classes(text[pos + len - 1]);
    Boundaries(text, pos, b);
    if b > len { Classes(text[pos + len]); }
    hide IsWhitespace, BoundaryAfter, Space, Opens, Closes;
  }

  lemma NothingLater(c: Column, pos: nat, len: nat, b: nat, room: nat)
    requires 0 < len <= b <= room && pos + room <= |c.text| && BlankIn(c.text, pos + len, pos + b)
    requires forall l: nat :: b < l <= room ==> !Usable(c, pos, l)
    ensures Unbreakable(c.text, pos + len, room - len)
  {
    hide BoundaryAfter, Unbreakable, IsWhitespace;
    var text, stop := c.text, pos + len;
    forall l: nat | 0 < l <= room - len && BoundaryAfter(text, stop, l) ensures BlankIn(text, stop, stop + l) {
      SameBoundary(text, pos, len, l);
      if len + l > b { assert !Usable(c, pos, len + l); }
    }
    UnbreakableIff(text, stop, room - len);
  }

  lemma SameBoundary(text: string, pos: nat, len: nat, l: nat)
    requires l > 0
    ensures BoundaryAfter(text, pos + len, l) <==> BoundaryAfter(text, pos, len + l)
  {
    hide IsBoundary;
  }

  // ---- what a line looks like ----

  /** The first line has the initial indent, if there is one, and the others have the column's. */
  lemma {:induction false} IndentsFrom(c: Column, pos: nat, i: nat)
    requires Fits(c) && pos < |c.text| && Flows(c, pos) && i < |LinesFrom(c, pos)|
    ensures LinesFrom(c, pos)[i].indent == if i == 0 && pos == 0 && c.initial.Some? then c.initial.value else c.indent
    decreases i
  {
    FromUnfolded(c, pos);
    hide LinesFrom, After, CutAt, Flows;
    if i > 0 {
      IndentsFrom(c, After(c, pos), i - 1);
    }
  }

  lemma Indents(c: Column, i: nat)
    requires Fits(c) && Runs(c) && i < |Lines(c)|
    ensures Lines(c)[i].indent == if i == 0 && c.initial.Some? then c.initial.value else c.indent
  {
    hide LinesFrom, CutAt, Flows;
    IndentsFrom(c, 0, i);
  }

  /** The lines of a text that newlines separate. */
  function SplitLines(s: string): (ls: seq<string>)
    ensures |ls| > 0
    decreases |s|
  {
    var e := LineEnd(s, 0);
    if e == |s| then [s] else [s[..e]] + SplitLines(s[e + 1..])
  }

  lemma {:induction false} EndOfPart(part: string, rest: string, i: nat)
    requires '\n' !in part && i <= |part| && (rest == "" || rest[0] == '\n')
    ensures LineEnd(part + rest, i) == |part|
    decreases |part| - i
  {
    if i < |part| { EndOfPart(part, rest, i + 1); }
  }

  lemma SplitFirst(part: string, rest: string)
    requires '\n' !in part
    ensures SplitLines(part + "\n" + rest) == [part] + SplitLines(rest)
    ensures SplitLines(part) == [part]
  {
    EndOfPart(part, "\n" + rest, 0);
    EndOfPart(part, "", 0);
    assert part + "" == part;
    var s := part + "\n" + rest;
    assert s == part + ("\n" + rest) && s[..|part|] == part && s[|part| + 1..] == rest;
  }

  function Renders(ls: seq<Line>): seq<string> {
    seq(|ls|, i requires 0 <= i < |ls| => Render(ls[i]))
  }

  lemma {:induction false} JoinedFront(l: Line, ls: seq<Line>)
    requires ls != []
    ensures Joined([l] + ls) == Render(l) + "\n" + Joined(ls)
    decreases |ls|
  {
    hide Render, Joined;
    var rest, last := ls[..|ls| - 1], ls[|ls| - 1];
    JoinedAppend([l] + rest, last);
    JoinedAppend(rest, last);
    assert [l] + ls == ([l] + rest) + [last] && ls == rest + [last];
    if rest == [] {
      JoinedAppend([], l);
      assert [l] + rest == [] + [l];
    } else {
      JoinedFront(l, rest);
    }
  }

  /** What `Write` writes splits at the newlines into the lines again. */
  lemma {:induction false} SplitJoined(ls: seq<Line>)
    requires ls != [] && forall i :: 0 <= i < |ls| ==> '\n' !in Render(ls[i])
    ensures SplitLines(Joined(ls)) == Renders(ls)
    decreases |ls|
  {
    hide Render, SplitLines, Joined;
    var l, rest := ls[0], ls[1..];
    assert ls == [l] + rest;
    if rest == [] {
      JoinedAppend([], l);
      assert [] + [l] == ls;
      SplitFirst(Render(l), "");
    } else {
      JoinedFront(l, rest);
      SplitFirst(Render(l), Joined(rest));
      SplitJoined(rest);
    }
  }

  /** The text written for a column is its lines, one below the other. */
  lemma WrittenLines(c: Column)
    requires Fits(c) && Runs(c) && Lines(c) != []
    ensures SplitLines(Joined(Lines(c))) == Renders(Lines(c))
  {
    hide Lines, Joined, SplitLines, Renders, Render, Flows, CutAt;
    forall i | 0 <= i < |Lines(c)| ensures '\n' !in Render(Lines(c)[i]) {
      EveryLineFits(c, i);
    }
    SplitJoined(Lines(c));
  }

  // ---- width ----

  lemma LineFits(c: Column, pos: nat)
    requires Fits(c) && pos <= |c.text|
    ensures |Render(LineAt(c, pos))| <= c.width && '\n' !in Render(LineAt(c, pos))
  {
    CutUnfolded(c, pos);
    LineEndIsFirst(c.text, pos);
    hide CutAt, LineEnd, Trimmed, LastBoundary;
  }

  lemma {:induction false} FromFits(c: Column, pos: nat, i: nat)
    requires Fits(c) && pos < |c.text| && Flows(c, pos) && i < |LinesFrom(c, pos)|
    ensures |Render(LinesFrom(c, pos)[i])| <= c.width
    ensures '\n' !in Render(LinesFrom(c, pos)[i])
    decreases i
  {
    FromUnfolded(c, pos);
    hide LinesFrom, Render, LineAt, After, CutAt;
    LineFits(c, pos);
    if i > 0 {
      FromFits(c, After(c, pos), i - 1);
    }
  }

  /** No line is wider than the column, its indent and hyphen included, and no line holds a newline. */
  lemma EveryLineFits(c: Column, i: nat)
    requires Fits(c) && Runs(c) && i < |Lines(c)|
    ensures |Render(Lines(c)[i])| <= c.width
    ensures '\n' !in Render(Lines(c)[i])
  {
    FromFits(c, 0, i);
  }

  // ---- content ----

  lemma {:induction false} NonBlankConcat(s: string, t: string)
    ensures NonBlank(s + t) == NonBlank(s) + NonBlank(t)
  {
    if t == "" {
      assert s + t == s;
    } else {
      NonBlankConcat(s, t[..|t| - 1]);
      assert (s + t)[..|s + t| - 1] == s + t[..|t| - 1];
    }
  }

  lemma {:induction false} BlankIff(s: string)
    ensures Blank(s) <==> NonBlank(s) == ""
  {
    if s != "" {
      BlankIff(s[..|s| - 1]);
    }
  }

  /** Leaving a blank stretch out between two parts changes nothing. */
  lemma GapIsBlank(text: string, pos: nat, stop: nat, q: nat)
    requires pos <= stop <= q <= |text| && BlankIn(text, stop, q)
    ensures NonBlank(text[pos..]) == NonBlank(text[pos..stop]) + NonBlank(text[q..])
  {
    hide NonBlank;
    var body, gap, rest := text[pos..stop], text[stop..q], text[q..];
    assert text[pos..] == body + (gap + rest);
    NonBlankConcat(body, gap + rest);
    NonBlankConcat(gap, rest);
    BlankIff(gap);
    assert forall i :: 0 <= i < |gap| ==> gap[i] == text[stop + i];
  }

  lemma FromUnfolded(c: Column, pos: nat)
    requires Fits(c) && pos < |c.text| && Flows(c, pos)
    ensures After(c, pos) > pos && Flows(c, After(c, pos))
    ensures After(c, pos) == |c.text| ==> LinesFrom(c, pos) == [LineAt(c, pos)] + []
    ensures After(c, pos) < |c.text| ==> LinesFrom(c, pos) == [LineAt(c, pos)] + LinesFrom(c, After(c, pos))
  {
    ProgressIff(c, pos);
  }

  lemma BodiesUnfolded(l: Line, ls: seq<Line>)
    ensures NonBlank(Bodies([l] + ls)) == NonBlank(l.body) + NonBlank(Bodies(ls))
  {
    assert ([l] + ls)[1..] == ls;
    NonBlankConcat(l.body, Bodies(ls));
    hide NonBlank;
  }

  lemma NonBlankEmpty(text: string)
    ensures NonBlank(text[|text|..]) == "" && NonBlank(Bodies([])) == ""
  {
  }

  lemma {:induction false} FromContent(c: Column, pos: nat)
    requires Fits(c) && pos < |c.text| && Flows(c, pos)
    ensures NonBlank(Bodies(LinesFrom(c, pos))) == NonBlank(c.text[pos..])
    decreases |c.text| - pos
  {
    hide *;
    FromUnfolded(c, pos);
    var stop, q := pos + CutAt(c, pos).len, After(c, pos);
    LineBody(c, pos);
    GapIsBlank(c.text, pos, stop, q);
    NonBlankEmpty(c.text);
    if q < |c.text| {
      FromContent(c, q);
      BodiesUnfolded(LineAt(c, pos), LinesFrom(c, q));
    } else {
      BodiesUnfolded(LineAt(c, pos), []);
    }
  }

  lemma LineBody(c: Column, pos: nat)
    requires Fits(c) && pos <= |c.text|
    ensures LineAt(c, pos).body == c.text[pos..pos + CutAt(c, pos).len]
  {
    hide CutAt;
  }

  /** The texts of which nothing is shown: empty ones, those that open with a newline, and with room
      for one character on the first line those that open with white space or with a word longer than that. */
  predicate ShowsNothing(c: Column)
    requires Fits(c)
  {
    || c.text == "" || c.text[0] == '\n'
    || (Room(c, 0) == 1 && (IsWhitespace(c.text[0]) || !IsBoundary(c.text, 1)))
  }

  lemma NothingShownIff(c: Column)
    requires Fits(c)
    ensures CutAt(c, 0).len == 0 <==> ShowsNothing(c)
  {
    var room := Room(c, 0);
    CutUnfolded(c, 0);
    LineEndStep(c.text, 0);
    if |c.text| > 0 && room == 1 {
      LastBoundaryStep(c.text, 0, 1);
      TrimmedStep(c.text, 0, 1);
      TrimmedStep(c.text, 0, 0);
    }
    hide LineEnd, LastBoundary, Trimmed, CutAt;
  }

  lemma NoLinesIff(c: Column)
    requires Fits(c) && Runs(c)
    ensures Lines(c) == [] <==> ShowsNothing(c)
  {
    NothingShownIff(c);
    hide CutAt, ShowsNothing, Flows;
  }

  /**
   * The lines, without indents and added hyphens, hold exactly the characters of the text
   * that are not white space, in order; except for the texts of which nothing is shown.
   */
  lemma ContentKeptIff(c: Column)
    requires Fits(c) && Runs(c)
    ensures NonBlank(Bodies(Lines(c))) == NonBlank(c.text) <==> !ShowsNothing(c) || Blank(c.text)
  {
    NothingShownIff(c);
    BlankIff(c.text);
    hide ShowsNothing, Blank, CutAt, LinesFrom, Flows;
    if CutAt(c, 0).len > 0 {
      FromContent(c, 0);
      assert c.text[0..] == c.text;
    }
  }

  /** An added hyphen always splits a run of characters with no boundary in it. */
  lemma HyphenOnlyInsideWord(c: Column, pos: nat, l: nat)
    requires Fits(c) && pos <= |c.text| && CutAt(c, pos).suffix
    requires 0 < l <= Room(c, pos)
    ensures pos + l <= |c.text|
    ensures BoundaryAfter(c.text, pos, l) ==> BlankIn(c.text, pos, pos + l)
  {
    CutIsBest(c, pos);
    assert !Usable(c, pos, l);
  }

  class LineIterator {
    const column: Column
    var stringIndex: nat
    var pos: nat
    var len: nat
    var end: nat
    var suffix: bool

    ghost predicate Valid()
      reads this
    {
      && Fits(column) && stringIndex <= 1
      && if stringIndex == 1 then pos == 0
         else pos <= |column.text| && Cut(len, suffix) == CutAt(column, pos) && end == LineEnd(column.text, pos)
    }

    /** What is still to be shown. */
    ghost function Remaining(): seq<Line>
      requires Valid() && (stringIndex == 0 ==> pos < |column.text| && Flows(column, pos))
      reads this
    {
      if stringIndex == 1 then [] else LinesFrom(column, pos)
    }

    constructor (c: Column)
      requires Fits(c)
      ensures Valid() && column == c && pos == 0
      ensures stringIndex == 1 <==> CutAt(c, 0).len == 0
    {
      column := c;
      stringIndex, pos, len, end, suffix := 0, 0, 0, 0, false;
      new;
      CalcLength();
      if len == 0 {
        stringIndex := stringIndex + 1;
      }
    }

    /** The two shrinking loops of `CalcLength`. */
    method Shrink(width: nat) returns (len: nat)
      requires pos + width <= |column.text|
      ensures len == Trimmed(column.text, pos, LastBoundary(column.text, pos, width))
    {
      hide *;
      var text := column.text;
      len := width;
      while len > 0 && !IsBoundary(text, pos + len)
        invariant len <= width && LastBoundary(text, pos, len) == LastBoundary(text, pos, width)
      {
        LastBoundaryStep(text, pos, len);
        len := len - 1;
      }
      LastBoundaryStep(text, pos, len);
      ghost var last := len;
      while len > 0 && IsWhitespace(text[pos + len - 1])
        invariant len <= last && Trimmed(text, pos, len) == Trimmed(text, pos, last)
      {
        TrimmedStep(text, pos, len);
        len := len - 1;
      }
      TrimmedStep(text, pos, len);
    }

    method CalcLength()
      requires Fits(column) && stringIndex == 0 && pos <= |column.text|
      modifies this`len, this`end, this`suffix
      ensures Cut(len, suffix) == CutAt(column, pos)
      ensures end == LineEnd(column.text, pos)
    {
      CutUnfolded(column, pos);
      var text := column.text;
      ghost var cut, lineEnd := CutAt(column, pos), LineEnd(text, pos);
      suffix := false;
      var width := column.width - Indent(column, pos);
      assert 0 < width == Room(column, pos);
      hide IsBoundary, IsWhitespace, BlankIn, BoundaryAfter, CutAt, LineEnd, LastBoundary, Trimmed, Indent, Room, Fits;
      end := pos;
      while end < |text| && text[end] != '\n'
        invariant pos <= end <= |text| && LineEnd(text, end) == lineEnd
        invariant !suffix
      {
        LineEndStep(text, end);
        end := end + 1;
      }
      LineEndStep(text, end);
      assert end == lineEnd;
      if end < pos + width {
        len := end - pos;
      } else {
        var l := Shrink(width);
        if l > 0 {
          len := l;
        } else {
          suffix := true;
          len := width - 1;
        }
      }
      assert Cut(len, suffix) == cut;
    }

    method Current() returns (line: string)
      requires Valid() && stringIndex == 0
      ensures line == Render(LineAt(column, pos))
      ensures var i := Indent(column, pos); var k := CutAt(column, pos);
        && |line| == i + k.len + (if k.suffix then 1 else 0)
        && (forall j :: 0 <= j < i ==> line[j] == ' ')
        && line[i..i + k.len] == column.text[pos..pos + k.len]
        && (k.suffix ==> line[i + k.len] == '-')
    {
      var plain := column.text[pos..pos + len];
      line := Spaces(Indent(column, pos)) + if suffix then plain + "-" else plain;
    }

    method Increment()
      requires Valid() && stringIndex == 0
      modifies this
      ensures Valid()
      ensures var q := After(column, old(pos));
        if q == |column.text| then stringIndex == 1 else stringIndex == 0 && pos == q
    {
      hide IsWhitespace, BlankIn, CutAt, IsBest;
      var text := column.text;
      pos := pos + len;
      ghost var stop := pos;
      if pos < |text| && text[pos] == '\n' {
        pos := pos + 1;
      } else {
        while pos < |text| && IsWhitespace(text[pos])
          invariant pos <= |text| && SkipBlank(text, pos) == SkipBlank(text, stop)
          invariant len == old(len) && stringIndex == 0
        {
          pos := pos + 1;
        }
      }
      if pos == |text| {
        pos := 0;
        stringIndex := stringIndex + 1;
      }
      if stringIndex < 1 {
        CalcLength();
      }
    }
  }

  ghost predicate Splits(all: seq<Line>, done: seq<Line>, rest: seq<Line>) { all == done + rest }

  lemma SplitsNext(all: seq<Line>, done: seq<Line>, line: Line, rest: seq<Line>)
    requires Splits(all, done, [line] + rest)
    ensures Splits(all, done + [line], rest)
    ensures rest == [] ==> all == done + [line]
  {
    assert done + ([line] + rest) == (done + [line]) + rest;
  }

  lemma SplitsStart(all: seq<Line>)
    ensures Splits(all, [], all) && Joined([]) == ""
  {
  }

  lemma SplitsEnd(all: seq<Line>, done: seq<Line>)
    requires Splits(all, done, [])
    ensures all == done
  {
  }

  /** Writes a column: its lines joined by newlines. */
  method Write(c: Column) returns (os: string)
    requires Fits(c) && Runs(c)
    ensures os == Joined(Lines(c))
  {
    NothingShownIff(c);
    os := "";
    var first := true;
    var it := new LineIterator(c);
    ghost var done: seq<Line> := [];
    assert it.Remaining() == Lines(c);
    SplitsStart(Lines(c));
    hide After, CutAt, BlankIn, Render, LinesFrom, IsBest, LineEnd, Joined, Lines, LineAt, Splits, Flows, ShowsNothing;
    while it.stringIndex != 1
      invariant it.Valid() && it.column == c && (it.stringIndex == 0 ==> it.pos < |c.text| && Flows(c, it.pos))
      invariant fresh(it)
      invariant Splits(Lines(c), done, it.Remaining())
      invariant os == Joined(done) && (first <==> done == [])
      decreases 1 - it.stringIndex, |c.text| - it.pos
    {
      FromUnfolded(c, it.pos);
      ghost var line := LineAt(c, it.pos);
      ghost var rest := if After(c, it.pos) == |c.text| then [] else LinesFrom(c, After(c, it.pos));
      JoinedAppend(done, line);
      SplitsNext(Lines(c), done, line, rest);
      if first {
        first := false;
      } else {
        os := os + "\n";
      }
      var text := it.Current();
      os := os + text;
      done := done + [line];
      it.Increment();
    }
    SplitsEnd(Lines(c), done);
  }
}
