/** One log line's tagged byte encoding in a growing buffer, and its decoding
    (src/log/NanoLog.cpp, `NanoLogLine`). */
module LogLine {
  import opened Arithmetic
  import opened Counting

  type byte = x: int | 0 <= x < 256

  const STACK_SIZE: nat := 224
  const HEADER_SIZE: nat := 37

  /** What `operator<<` is given.  Doubles and string literals are the 8 bytes of the value and of
      the pointer; `Text` is any string that goes through `encode_c_string`. */
  datatype Arg =
    | Char(c: byte)
    | U32(u: nat)
    | U64(u: nat)
    | I32(i: int)
    | I64(i: int)
    | Double(bits: nat)
    | Literal(address: nat)
    | Text(text: seq<byte>)
    | View(text: seq<byte>)
    | NullText

  predicate InRange(a: Arg) {
    match a
    case U32(u) => u < 0x1_0000_0000
    case U64(u) => u < 0x1_0000_0000_0000_0000
    case I32(i) => -0x8000_0000 <= i < 0x8000_0000
    case I64(i) => -0x8000_0000_0000_0000 <= i < 0x8000_0000_0000_0000
    case Double(b) => b < 0x1_0000_0000_0000_0000
    case Literal(p) => p < 0x1_0000_0000_0000_0000
    case _ => true
  }

  predicate NulFree(a: Arg) {
    (a.Text? || a.View?) ==> 0 !in a.text
  }

  // ---- integers as bytes, least significant first ----

  function Bytes(n: nat, width: nat): (s: seq<byte>)
    ensures |s| == width
  {
    if width == 0 then [] else [n % 256] + Bytes(n / 256, width - 1)
  }

  function Number(s: seq<byte>): nat {
    if s == [] then 0 else s[0] + 256 * Number(s[1..])
  }

  function Power(width: nat): nat {
    if width == 0 then 1 else 256 * Power(width - 1)
  }

  lemma {:induction false} NumberOfBytes(n: nat, width: nat)
    requires n < Power(width)
    ensures Number(Bytes(n, width)) == n
  {
    if width > 0 {
      NumberOfBytes(n / 256, width - 1);
      assert Bytes(n, width)[1..] == Bytes(n / 256, width - 1);
    }
  }

  lemma Powers()
    ensures Power(4) == 0x1_0000_0000 && Power(8) == 0x1_0000_0000_0000_0000
  {
    assert Power(2) == 65536;
    assert Power(4) == 65536 * 65536;
    assert Power(6) == 65536 * 65536 * 65536;
  }

  /** The unsigned image of a two's complement integer of 4 or 8 bytes, and back. */
  function Unsigned(i: int, modulus: nat): nat
    requires 0 <= i + modulus
  {
    if i < 0 then i + modulus else i
  }

  // ---- the encoding ----

  /** The type id: the position in `SupportedTypes`. */
  function Tag(a: Arg): byte {
    match a
    case Char(_) => 0
    case U32(_) => 1
    case U64(_) => 2
    case I32(_) => 3
    case I64(_) => 4
    case Double(_) => 5
    case Literal(_) => 6
    case _ => 7
  }

  function Payload(a: Arg): seq<byte>
    requires InRange(a)
  {
    match a
    case Char(c) => [c]
    case U32(u) => Bytes(u, 4)
    case U64(u) => Bytes(u, 8)
    case I32(i) => Bytes(Unsigned(i, 0x1_0000_0000), 4)
    case I64(i) => Bytes(Unsigned(i, 0x1_0000_0000_0000_0000), 8)
    case Double(b) => Bytes(b, 8)
    case Literal(p) => Bytes(p, 8)
    case Text(t) => t + [0]
    case View(t) => t + [0]
    case NullText => []
  }

  /** The bytes one `<<` appends; an empty string and a null pointer append none. */
  function Encoded(a: Arg): seq<byte>
    requires InRange(a)
  {
    if a.NullText? || (a.Text? && a.text == []) then [] else [Tag(a)] + Payload(a)
  }

  function EncodedAll(args: seq<Arg>): seq<byte>
    requires forall a :: a in args ==> InRange(a)
  {
    if args == [] then [] else Encoded(args[0]) + EncodedAll(args[1..])
  }

  // ---- the decoding ----

  /** The output stream's text for one argument; numbers and literals by the formatter. */
  function Rendered(a: Arg, format: Arg -> seq<byte>): seq<byte> {
    match a
    case Char(c) => [c]
    case Text(t) => t
    case View(t) => t
    case NullText => []
    case _ => format(a)
  }

  function RenderedAll(args: seq<Arg>, format: Arg -> seq<byte>): seq<byte> {
    if args == [] then [] else Rendered(args[0], format) + RenderedAll(args[1..], format)
  }

  /** Position of the first NUL, or the end. */
  function Terminator(s: seq<byte>): (n: nat)
    ensures n <= |s| && (n < |s| ==> s[n] == 0) && 0 !in s[..n]
  {
    if s == [] || s[0] == 0 then 0 else 1 + Terminator(s[1..])
  }

  /** The argument a tag and the bytes after it stand for. */
  function Decoded(tag: byte, b: seq<byte>): Arg
    requires tag < 7 && |b| == Width(tag)
  {
    match tag
    case 0 => Char(b[0])
    case 1 => U32(Number(b))
    case 2 => U64(Number(b))
    case 3 => I32(Signed(Number(b), 0x1_0000_0000))
    case 4 => I64(Signed(Number(b), 0x1_0000_0000_0000_0000))
    case 5 => Double(Number(b))
    case _ => Literal(Number(b))
  }

  function Width(tag: byte): nat {
    match tag
    case 0 => 1
    case 1 => 4
    case 3 => 4
    case _ => 8
  }

  /** `stringify` on the bytes between the header and the end.  An unknown type id ends the output.
      So do missing bytes, where the source reads on past the end; no line of NUL-free strings has
      that. */
  function Stringify(b: seq<byte>, format: Arg -> seq<byte>): seq<byte>
    decreases |b|
  {
    if b == [] then []
    else
      var tag, rest := b[0], b[1..];
      if tag < 7 then
        var w := Width(tag);
        if |rest| < w then [] else Rendered(Decoded(tag, rest[..w]), format) + Stringify(rest[w..], format)
      else if tag == 7 then
        var n := Terminator(rest);
        if n == |rest| then rest else rest[..n] + Stringify(rest[n + 1..], format)
      else []
  }

  lemma DecodedPayload(a: Arg)
    requires InRange(a) && Tag(a) < 7
    ensures |Payload(a)| == Width(Tag(a)) && Decoded(Tag(a), Payload(a)) == a
  {
    Powers();
    hide Power;
    match a
    case Char(_) =>
    case U32(u) => NumberOfBytes(u, 4);
    case U64(u) => NumberOfBytes(u, 8);
    case I32(i) => NumberOfBytes(Unsigned(i, 0x1_0000_0000), 4);
    case I64(i) => NumberOfBytes(Unsigned(i, 0x1_0000_0000_0000_0000), 8);
    case Double(b) => NumberOfBytes(b, 8);
    case Literal(p) => NumberOfBytes(p, 8);
  }

  lemma TextPayload(a: Arg)
    requires InRange(a) && (a.Text? || a.View?)
    ensures Payload(a) == a.text + [0]
  {
  }

  lemma {:induction false} TerminatorOf(t: seq<byte>, rest: seq<byte>)
    requires 0 !in t
    ensures Terminator(t + [0] + rest) == |t|
  {
    var s := t + [0] + rest;
    if t != [] {
      assert s[1..] == t[1..] + [0] + rest;
      TerminatorOf(t[1..], rest);
    }
  }

  lemma StringifyNumber(a: Arg, rest: seq<byte>, format: Arg -> seq<byte>)
    requires InRange(a) && Tag(a) < 7
    ensures Stringify(Encoded(a) + rest, format) == Rendered(a, format) + Stringify(rest, format)
  {
    DecodedPayload(a);
    hide Payload, Decoded, InRange, Terminator, Rendered;
    var b := Encoded(a) + rest;
    assert b[0] == Tag(a) && b[1..] == Payload(a) + rest;
    assert b[1..][..Width(Tag(a))] == Payload(a) && b[1..][Width(Tag(a))..] == rest;
  }

  lemma StringifyText(a: Arg, rest: seq<byte>, format: Arg -> seq<byte>)
    requires InRange(a) && NulFree(a) && (a.Text? || a.View?)
    ensures Stringify([7] + Payload(a) + rest, format) == a.text + Stringify(rest, format)
  {
    TextPayload(a);
    TerminatorOf(a.text, rest);
    hide Payload, Decoded, InRange, Terminator, Rendered;
    var b := [7] + Payload(a) + rest;
    assert b[0] == 7 && b[1..] == a.text + [0] + rest;
    assert b[1..][..|a.text|] == a.text && b[1..][|a.text| + 1..] == rest;
  }

  /** One argument's bytes, whatever follows them, decode to its rendering. */
  lemma StringifyOne(a: Arg, rest: seq<byte>, format: Arg -> seq<byte>)
    requires InRange(a) && NulFree(a)
    ensures Stringify(Encoded(a) + rest, format) == Rendered(a, format) + Stringify(rest, format)
  {
    hide Payload, Decoded, InRange, Stringify;
    if Encoded(a) == [] {
      assert Encoded(a) + rest == rest;
    } else if Tag(a) < 7 {
      StringifyNumber(a, rest, format);
    } else {
      StringifyText(a, rest, format);
    }
  }

  lemma Regroup(a: seq<byte>, b: seq<byte>, c: seq<byte>)
    ensures a + b + c == a + (b + c)
  {
  }

  /** The bytes of any sequence of arguments, whatever follows them, decode to the renderings in order. */
  lemma {:induction false} StringifyBefore(args: seq<Arg>, rest: seq<byte>, format: Arg -> seq<byte>)
    requires forall a :: a in args ==> InRange(a) && NulFree(a)
    ensures Stringify(EncodedAll(args) + rest, format) == RenderedAll(args, format) + Stringify(rest, format)
  {
    if args == [] {
      assert EncodedAll(args) + rest == rest;
    } else {
      hide Stringify, Encoded, Rendered, InRange, NulFree;
      var tail := EncodedAll(args[1..]);
      StringifyBefore(args[1..], rest, format);
      StringifyOne(args[0], tail + rest, format);
      Regroup(Encoded(args[0]), tail, rest);
      Regroup(Rendered(args[0], format), RenderedAll(args[1..], format), Stringify(rest, format));
    }
  }

  /** Any sequence of arguments is decoded to their renderings, in order. */
  lemma StringifyAll(args: seq<Arg>, format: Arg -> seq<byte>)
    requires forall a :: a in args ==> InRange(a) && NulFree(a)
    ensures Stringify(EncodedAll(args), format) == RenderedAll(args, format)
  {
    StringifyBefore(args, [], format);
    assert EncodedAll(args) + [] == EncodedAll(args);
  }

  // ---- strings with a NUL inside ----

  function IsNul(): byte -> bool {
    (b: byte) => b == 0
  }

  function Nuls(s: seq<byte>): nat {
    Count(s, IsNul())
  }

  lemma NulsConcat(s: seq<byte>, t: seq<byte>)
    ensures Nuls(s + t) == Nuls(s) + Nuls(t)
  {
    CountConcat(s, t, IsNul());
  }

  lemma NulsOne(b: byte)
    ensures Nuls([b]) == if b == 0 then 1 else 0
  {
    CountAppend([], b, IsNul());
    assert [] + [b] == [b];
  }

  lemma NoNuls(s: seq<byte>)
    requires 0 !in s
    ensures Nuls(s) == 0
  {
    NoneCount(s, IsNul());
  }

  /** The formatter of numbers and literals writes no NUL. */
  ghost predicate Printing(format: Arg -> seq<byte>) {
    forall a :: 0 !in format(a)
  }

  lemma FewNulsInOne(tag: byte, b: seq<byte>, format: Arg -> seq<byte>)
    requires Printing(format) && tag < 7 && |b| == Width(tag)
    ensures 2 * Nuls(Rendered(Decoded(tag, b), format)) <= Nuls([tag] + b)
  {
    NulsConcat([tag], b);
    if tag == 0 {
      assert b == [b[0]];
      NulsOne(tag);
      NulsOne(b[0]);
    } else {
      NoNuls(Rendered(Decoded(tag, b), format));
    }
  }

  /** Decoding takes two NULs, a type id and a character, to write one. */
  lemma {:induction false} FewNuls(b: seq<byte>, format: Arg -> seq<byte>)
    requires Printing(format)
    ensures 2 * Nuls(Stringify(b, format)) <= Nuls(b)
    decreases |b|
  {
    hide Nuls, Rendered, Decoded;
    NoNuls([]);
    if b != [] {
      var tag, rest := b[0], b[1..];
      if tag < 7 {
        var w := Width(tag);
        if |rest| >= w {
          FewNuls(rest[w..], format);
          FewNulsInOne(tag, rest[..w], format);
          assert b == ([tag] + rest[..w]) + rest[w..];
          NulsConcat([tag] + rest[..w], rest[w..]);
          NulsConcat(Rendered(Decoded(tag, rest[..w]), format), Stringify(rest[w..], format));
        }
      } else if tag == 7 {
        var n := Terminator(rest);
        NoNuls(rest[..n]);
        if n == |rest| {
          assert rest[..n] == rest;
        } else {
          FewNuls(rest[n + 1..], format);
          assert b == b[..n + 2] + rest[n + 1..];
          NulsConcat(b[..n + 2], rest[n + 1..]);
          NulsConcat(rest[..n], Stringify(rest[n + 1..], format));
        }
      }
    }
  }

  lemma FirstNul(t: seq<byte>)
    requires 0 in t
    ensures Terminator(t + [0]) < |t| && t[Terminator(t + [0])] == 0
  {
    var s := t + [0];
    var n := Terminator(s);
    assert forall i :: 0 <= i < n ==> s[i] == s[..n][i] && s[i] != 0;
    assert s[|t|] == 0;
  }

  lemma TailIsShort(after: seq<byte>, format: Arg -> seq<byte>)
    requires Printing(format)
    ensures Stringify(after + [0], format) != [0] + after
  {
    hide *;
    FewNuls(after + [0], format);
    NulsConcat(after, [0]);
    NulsConcat([0], after);
    NulsOne(0);
    assert Nuls(Stringify(after + [0], format)) < Nuls([0] + after);
  }

  lemma NulIsLost(t: seq<byte>, format: Arg -> seq<byte>)
    requires Printing(format) && 0 in t
    ensures Stringify([7] + t + [0], format) != t
  {
    hide *;
    FirstNul(t);
    CutAtNul(t, format);
    var n := Terminator(t + [0]);
    var before, after := t[..n], t[n + 1..];
    TailIsShort(after, format);
    assert t == before + ([0] + after);
    Cancel(before, Stringify(after + [0], format), [0] + after);
  }

  lemma CutAtNul(t: seq<byte>, format: Arg -> seq<byte>)
    requires Terminator(t + [0]) < |t|
    ensures var n := Terminator(t + [0]);
      Stringify([7] + t + [0], format) == t[..n] + Stringify(t[n + 1..] + [0], format)
  {
    hide *;
    TextStep(t + [0], format);
    Regroup([7], t, [0]);
    SliceAppend(t, Terminator(t + [0]));
  }

  lemma SliceAppend(t: seq<byte>, n: nat)
    requires n < |t|
    ensures (t + [0])[n + 1..] == t[n + 1..] + [0] && (t + [0])[..n] == t[..n]
  {
  }

  lemma TextStep(rest: seq<byte>, format: Arg -> seq<byte>)
    requires Terminator(rest) < |rest|
    ensures var n := Terminator(rest);
      Stringify([7] + rest, format) == rest[..n] + Stringify(rest[n + 1..], format)
  {
    hide Terminator, Decoded, Rendered;
    var b := [7] + rest;
    assert b[0] == 7 && b[1..] == rest;
  }

  lemma Cancel(a: seq<byte>, b: seq<byte>, c: seq<byte>)
    ensures a + b == a + c <==> b == c
  {
    assert (a + b)[|a|..] == b && (a + c)[|a|..] == c;
  }

  /** Behind arguments that decode, one more argument of any kind decodes to its rendering exactly
      when it is not a string with a NUL inside. */
  lemma DecodesIff(args: seq<Arg>, a: Arg, format: Arg -> seq<byte>)
    requires Printing(format) && InRange(a) && forall x :: x in args ==> InRange(x) && NulFree(x)
    ensures Stringify(EncodedAll(args + [a]), format) == RenderedAll(args, format) + Rendered(a, format) <==> NulFree(a)
  {
    EncodedAppend(args, a);
    StringifyBefore(args, Encoded(a), format);
    hide EncodedAll, RenderedAll, InRange;
    DecodesAloneIff(a, format);
    Cancel(RenderedAll(args, format), Stringify(Encoded(a), format), Rendered(a, format));
    hide Encoded, Rendered, Stringify, NulFree;
  }

  lemma DecodesAloneIff(a: Arg, format: Arg -> seq<byte>)
    requires Printing(format) && InRange(a)
    ensures Stringify(Encoded(a), format) == Rendered(a, format) <==> NulFree(a)
  {
    if NulFree(a) {
      StringifyOne(a, [], format);
      assert Encoded(a) + [] == Encoded(a);
      assert Stringify([], format) == [];
    } else {
      assert Encoded(a) == [7] + a.text + [0];
      NulIsLost(a.text, format);
    }
    hide Stringify, InRange;
  }

  /** For one: the text after the NUL is taken for a type id. */
  lemma NulEndsText(format: Arg -> seq<byte>)
    ensures Stringify(Encoded(Text([65, 0, 66])), format) == [65] != Rendered(Text([65, 0, 66]), format)
  {
    var b: seq<byte> := [7, 65, 0, 66, 0];
    assert Encoded(Text([65, 0, 66])) == b;
    assert b[1..] == [65, 0, 66, 0] && [65, 0, 66, 0][1..] == [0, 66, 0];
    assert Terminator([65, 0, 66, 0]) == 1;
    assert [65, 0, 66, 0][2..] == [66, 0];
    assert Stringify([66, 0], format) == [];
  }

  lemma {:induction false} EncodedAppend(args: seq<Arg>, a: Arg)
    requires InRange(a) && forall x :: x in args ==> InRange(x)
    ensures EncodedAll(args + [a]) == EncodedAll(args) + Encoded(a)
  {
    hide Encoded, InRange;
    if args == [] {
      assert args + [a] == [a] && [a][1..] == [];
    } else {
      assert (args + [a])[1..] == args[1..] + [a];
      EncodedAppend(args[1..], a);
    }
  }

  // ---- the header ----

  /** What precedes the arguments: a time, a thread id and two literals of 8 bytes each, a
      `uint32_t` line and the level. */
  datatype Header = Header(timestamp: nat, thread: nat, file: nat, func: nat, line: nat, level: byte)

  predicate HeaderInRange(h: Header) {
    && h.timestamp < 0x1_0000_0000_0000_0000
    && h.thread < 0x1_0000_0000_0000_0000
    && h.file < 0x1_0000_0000_0000_0000
    && h.func < 0x1_0000_0000_0000_0000
    && h.line < 0x1_0000_0000
  }

  function HeaderBytes(h: Header): (s: seq<byte>)
    ensures |s| == HEADER_SIZE
  {
    Bytes(h.timestamp, 8) + Bytes(h.thread, 8) + Bytes(h.file, 8) + Bytes(h.func, 8) + Bytes(h.line, 4) + [h.level]
  }

  function HeaderOf(b: seq<byte>): Header
    requires |b| == HEADER_SIZE
  {
    Header(Number(b[..8]), Number(b[8..16]), Number(b[16..24]), Number(b[24..32]), Number(b[32..36]), b[36])
  }

  lemma Sections(t: seq<byte>, i: seq<byte>, f: seq<byte>, g: seq<byte>, l: seq<byte>, level: byte)
    requires |t| == 8 && |i| == 8 && |f| == 8 && |g| == 8 && |l| == 4
    ensures var b := t + i + f + g + l + [level];
      b[..8] == t && b[8..16] == i && b[16..24] == f && b[24..32] == g && b[32..36] == l && b[36] == level
  {
  }

  lemma HeaderIsRead(h: Header)
    requires HeaderInRange(h)
    ensures HeaderOf(HeaderBytes(h)) == h
  {
    hide Bytes, Number, Power;
    Powers();
    NumberOfBytes(h.timestamp, 8);
    NumberOfBytes(h.thread, 8);
    NumberOfBytes(h.file, 8);
    NumberOfBytes(h.func, 8);
    NumberOfBytes(h.line, 4);
    Sections(Bytes(h.timestamp, 8), Bytes(h.thread, 8), Bytes(h.file, 8), Bytes(h.func, 8), Bytes(h.line, 4), h.level);
  }

  // ---- the buffer ----

  class NanoLogLine {
    const stack: array<byte>       // m_stack_buffer
    var heap: array?<byte>         // m_heap_buffer
    var used: nat                  // m_bytes_used
    var size: nat                  // m_buffer_size
    ghost var header: Header
    ghost var args: seq<Arg>       // everything streamed in so far
    ghost var copied: nat          // bytes copied by growth so far

    /** The growth bound is the last conjunct but one: all growth so far has copied no more bytes
        than the buffer now holds. */
    ghost predicate Layout()
      reads this, stack, heap
    {
      && stack.Length == STACK_SIZE
      && size == Current().Length
      && heap != stack
      && copied <= size
      && HEADER_SIZE <= used <= size
    }

    ghost predicate Valid()
      reads this, stack, heap
    {
      && Layout()
      && HeaderInRange(header)
      && (forall a :: a in args ==> InRange(a))
      && Content()[..HEADER_SIZE] == HeaderBytes(header)
      && Content()[HEADER_SIZE..] == EncodedAll(args)
    }

    ghost function Content(): seq<byte>
      reads this, stack, heap
      requires Layout()
    {
      Current()[..used]
    }

    function Current(): array<byte>
      reads this
    {
      if heap == null then stack else heap
    }

    constructor (h: Header)
      requires HeaderInRange(h)
      ensures Valid() && header == h && args == [] && used == HEADER_SIZE && fresh(stack) && heap == null
    {
      var bytes := HeaderBytes(h);
      stack := new byte[STACK_SIZE](i => if 0 <= i < |bytes| then bytes[i] else 0);
      heap := null;
      used, size := HEADER_SIZE, STACK_SIZE;
      header, args, copied := h, [], 0;
      new;
      hide HeaderBytes, HeaderInRange;
      assert stack[..HEADER_SIZE] == bytes;
      assert Content() == bytes;
    }

    /** Growth keeps the bytes written and makes room. */
    method ResizeIfNeeded(additional: nat)
      requires Layout()
      modifies this
      ensures Layout() && used == old(used) && args == old(args) && header == old(header)
      ensures Content() == old(Content())
      ensures used + additional <= size && old(size) <= size
      ensures used + additional <= old(size) ==> heap == old(heap) && size == old(size) && copied == old(copied)
      ensures used + additional > old(size) ==>
        var least := if old(heap) == null then 512 else 2 * old(size);
        heap != null && size == (if least >= used + additional then least else used + additional) && copied == old(copied) + used
      ensures Current() == old(Current()) || fresh(Current())
    {
      var required := used + additional;
      if required <= size {
        return;
      }
      if heap == null {
        size := if 512 >= required then 512 else required;
        var grown := new byte[size];
        CopyBytes(stack, grown, used);
        heap := grown;
      } else {
        size := if 2 * size >= required then 2 * size else required;
        var grown := new byte[size];
        CopyBytes(heap, grown, used);
        heap := grown;
      }
      copied := copied + used;
    }

    static method CopyBytes(from: array<byte>, to: array<byte>, n: nat)
      requires n <= from.Length && n <= to.Length && from != to
      modifies to
      ensures to[..n] == from[..n]
    {
      var i := 0;
      while i < n
        invariant i <= n && to[..i] == from[..i]
      {
        to[i] := from[i];
        i := i + 1;
      }
    }

    /** Makes room for the bytes and writes them at the end. */
    method Append(bytes: seq<byte>)
      requires Layout()
      modifies this, stack, heap
      ensures Layout() && args == old(args) && header == old(header)
      ensures Content() == old(Content()) + bytes
    {
      ResizeIfNeeded(|bytes|);
      var b := Current();
      ghost var before := Content();
      var i := 0;
      while i < |bytes|
        invariant i <= |bytes|
        invariant b[..used + i] == before + bytes[..i]
        modifies b
      {
        b[used + i] := bytes[i];
        i := i + 1;
      }
      used := used + |bytes|;
      assert bytes[..i] == bytes;
    }

    /** `operator<<` for every argument type: what it appends is the argument's encoding. */
    method Stream(a: Arg)
      requires Valid() && InRange(a)
      modifies this, stack, heap
      ensures Valid() && args == old(args) + [a] && header == old(header)
      ensures Content() == old(Content()) + Encoded(a)
    {
      hide EncodedAll, Payload, InRange, Tag, Bytes, HeaderBytes, HeaderInRange;
      EncodedAppend(args, a);
      ghost var before := Content();
      if !a.NullText? && !(a.Text? && |a.text| == 0) {
        Append([Tag(a)] + Payload(a));
      }
      assert Content() == before + Encoded(a);
      assert Content()[HEADER_SIZE..] == before[HEADER_SIZE..] + Encoded(a);
      assert Content()[..HEADER_SIZE] == before[..HEADER_SIZE];
      args := args + [a];
    }

    /** The whole line read back; `heading` prints the header. */
    method ReadBack(format: Arg -> seq<byte>, heading: Header -> seq<byte>) returns (os: seq<byte>)
      requires Valid() && forall a :: a in args ==> NulFree(a)
      ensures os == heading(header) + RenderedAll(args, format) + [10]
    {
      var b := Current();
      os := heading(HeaderOf(b[..HEADER_SIZE])) + Stringify(b[HEADER_SIZE..used], format) + [10];
      assert b[..HEADER_SIZE] == Content()[..HEADER_SIZE] && b[HEADER_SIZE..used] == Content()[HEADER_SIZE..];
      HeaderIsRead(header);
      StringifyAll(args, format);
    }
  }
}
