/** The streaming writer of cmd/atb/inspect.go that rewrites bidi and zero-width
    runes as `\uXXXX`, one Write call at a time. */
module Escape {
  import opened Wrappers
  import opened Seqs
  import opened Utf8
  import opened Json
  import opened Canonicalize

  /** `isBidiOrZeroWidth` */
  predicate IsBidi(c: char)
  {
    var r := c as int;
    r == 0x2028 || r == 0x2029 || 0x202a <= r <= 0x202e || 0x2066 <= r <= 0x2069 ||
    r == 0x061c || 0x200b <= r <= 0x200f || r == 0x2060 || r == 0xfeff
  }

  /** The line and paragraph separators, the bidirectional controls and the zero-width runes. */
  const SPOOFING: set<int> := {
    0x061C, 0x200B, 0x200C, 0x200D, 0x200E, 0x200F, 0x2028, 0x2029, 0x202A, 0x202B, 0x202C, 0x202D, 0x202E,
    0x2060, 0x2066, 0x2067, 0x2068, 0x2069, 0xFEFF}

  /** The ranges are exactly these. */
  lemma BidiListed(c: char)
    ensures IsBidi(c) <==> c as int in SPOOFING
  {
  }

  function RuneOut(c: char, raw: Bytes): Bytes
  {
    if IsBidi(c) then UnicodeEscape(c as int) else raw
  }

  /** The escape of a whole stream: its output and the unfinished rune it ends in. */
  function Escaped(t: Bytes): (r: (Bytes, Bytes))
    ensures |r.1| <= 3
    ensures r.1 == [] || !FullRune(r.1)
    decreases |t|
  {
    if t == [] then ([], [])
    else if !FullRune(t) then UnfinishedRune(t); ([], t)
    else
      var (c, n) := DecodeRune(t);
      var (out, pending) := Escaped(t[n..]);
      (RuneOut(c, t[..n]) + out, pending)
  }

  lemma EscapedStep(t: Bytes, c: char, n: nat, rest: Bytes)
    requires FullRune(t) && DecodeRune(t) == (c, n) && rest == t[n..]
    ensures Escaped(t) == (RuneOut(c, t[..n]) + Escaped(rest).0, Escaped(rest).1)
  {
  }

  ghost predicate SplitHolds(a: Bytes, b: Bytes)
  {
    Escaped(a + b).0 == Escaped(a).0 + Escaped(Escaped(a).1 + b).0 &&
    Escaped(a + b).1 == Escaped(Escaped(a).1 + b).1
  }

  lemma StepExtended(a: Bytes, b: Bytes, c: char, n: nat)
    requires FullRune(a) && DecodeRune(a) == (c, n)
    ensures Escaped(a + b) == (RuneOut(c, a[..n]) + Escaped(a[n..] + b).0, Escaped(a[n..] + b).1)
  {
    DecodeStable(a, b);
    assert (a + b)[n..] == a[n..] + b && (a + b)[..n] == a[..n];
    EscapedStep(a + b, c, n, a[n..] + b);
  }

  /** Escaping in two parts, the unfinished rune carried over, is escaping the whole. */
  lemma {:induction false} EscapedSplit(a: Bytes, b: Bytes)
    ensures SplitHolds(a, b)
    decreases |a|
  {
    if a == [] || !FullRune(a) {
      Units(Escaped(a + b).0);
      Units(b);
    } else {
      var (c, n) := DecodeRune(a);
      EscapedSplit(a[n..], b);
      EscapedStep(a, c, n, a[n..]);
      StepExtended(a, b, c, n);
      Assoc(RuneOut(c, a[..n]), Escaped(a[n..]).0, Escaped(Escaped(a).1 + b).0);
    }
  }

  /** `escapingWriter`: `buf` is the carry-over, `sink` what the underlying writer got. */
  class EscapingWriter {
    var buf: Bytes
    var sink: Bytes
    ghost var input: Bytes

    /** After any Write calls, output and carry-over are those of the bytes written so far. */
    ghost predicate Valid()
      reads this
    {
      (sink, buf) == Escaped(input)
    }

    constructor ()
      ensures Valid() && input == []
    {
      buf, sink, input := [], [], [];
    }

    /** `taken` is how much of the output the underlying writer takes before it fails, if it fails. */
    method Write(p: Bytes, taken: Option<nat>) returns (n: nat, ok: bool)
      requires Valid()
      modifies this
      ensures n == |p| && ok == taken.None?
      ensures input == old(input) + p && buf == Escaped(input).1
      ensures ok ==> Valid()
      ensures !ok ==> old(sink) <= sink <= Escaped(input).0
    {
      var data := buf + p;
      var out, carry := EscapeData(data);
      buf := carry;
      EscapedSplit(input, p);
      input := input + p;
      if taken.Some? {
        if taken.value < |out| {
          out := out[..taken.value];
        }
        sink := sink + out;
        return |p|, false;
      }
      sink := sink + out;
      return |p|, true;
    }
  }

  /** `out` is the output for the first `i` bytes of `data`. */
  ghost predicate Escaping(data: Bytes, i: nat, out: Bytes)
  {
    i <= |data| &&
    Escaped(data).0 == out + Escaped(data[i..]).0 && Escaped(data).1 == Escaped(data[i..]).1
  }

  lemma EscapingStep(data: Bytes, i: nat, out: Bytes, c: char, n: nat)
    requires i < |data| && Escaping(data, i, out) && FullRune(data[i..]) && DecodeRune(data[i..]) == (c, n)
    ensures Escaping(data, i + n, out + RuneOut(c, data[i..i + n]))
  {
    assert data[i..][n..] == data[i + n..] && data[i..][..n] == data[i..i + n];
    EscapedStep(data[i..], c, n, data[i + n..]);
    Assoc(out, RuneOut(c, data[i..i + n]), Escaped(data[i + n..]).0);
  }

  lemma EscapingDone(data: Bytes, i: nat, out: Bytes)
    requires Escaping(data, i, out) && (i == |data| || !FullRune(data[i..]))
    ensures Escaped(data) == (out, data[i..])
  {
    Units(out);
  }

  /** The loop of Write: escape rune by rune, stop at an unfinished one. */
  method EscapeData(data: Bytes) returns (out: Bytes, carry: Bytes)
    ensures (out, carry) == Escaped(data)
  {
    hide Escaped, DecodeRune, FullRune, UnicodeEscape;
    out := [];
    var i := 0;
    Units(data);
    Units(Escaped(data).0);
    while i < |data|
      invariant 0 <= i <= |data| && Escaping(data, i, out)
    {
      var (r, size) := DecodeRune(data[i..]);
      if r == RUNE_ERROR && size == 1 && !FullRune(data[i..]) {
        break;
      }
      FullUnlessFlagged(data[i..]);
      EscapingStep(data, i, out, r, size);
      if IsBidi(r) {
        out := out + UnicodeEscape(r as int);
      } else {
        out := out + data[i..i + size];
      }
      i := i + size;
    }
    carry := data[i..];
    EscapingDone(data, i, out);
  }

  lemma FullUnlessFlagged(t: Bytes)
    requires t != [] && !(DecodeRune(t) == (RUNE_ERROR, 1) && !FullRune(t))
    ensures FullRune(t)
  {
    if !FullRune(t) { UnfinishedRune(t); }
  }

  function Concat(chunks: seq<Bytes>): Bytes
  {
    if chunks == [] then [] else chunks[0] + Concat(chunks[1..])
  }

  /** Output and carry-over of a run of Write calls, starting from carry-over `buf`. */
  function WriteAll(buf: Bytes, chunks: seq<Bytes>): (Bytes, Bytes)
    decreases |chunks|
  {
    if chunks == [] then ([], buf)
    else
      var (out, buf') := Escaped(buf + chunks[0]);
      var (rest, buf'') := WriteAll(buf', chunks[1..]);
      (out + rest, buf'')
  }

  /** However a stream is cut into Write calls, the output is that of writing it at once. */
  lemma {:induction false} ChunkingIrrelevant(buf: Bytes, chunks: seq<Bytes>)
    requires Escaped(buf) == ([], buf)
    ensures WriteAll(buf, chunks) == Escaped(buf + Concat(chunks))
    decreases |chunks|
  {
    hide Escaped;
    if chunks == [] {
      Units(buf);
    } else {
      var (out, buf') := Escaped(buf + chunks[0]);
      Assoc(buf, chunks[0], Concat(chunks[1..]));
      EscapedSplit(buf + chunks[0], Concat(chunks[1..]));
      CarryWaits(buf');
      ChunkingIrrelevant(buf', chunks[1..]);
    }
  }

  lemma CarryWaits(buf: Bytes)
    requires buf == [] || !FullRune(buf)
    ensures Escaped(buf) == ([], buf)
  {
  }

  // ----- the escaped text means the same -----

  lemma AsciiFull(t: Bytes)
    requires t != [] && t[0] < 0x80
    ensures FullRune(t) && DecodeRune(t) == (t[0] as int as char, 1)
    ensures Escaped(t) == ([t[0]] + Escaped(t[1..]).0, Escaped(t[1..]).1)
  {
    assert t[..1] == [t[0]];
  }

  lemma AsciiCons(b: Byte, t: Bytes)
    requires b < 0x80
    ensures Escaped([b] + t) == ([b] + Escaped(t).0, Escaped(t).1)
  {
    AsciiFull([b] + t);
    Cons(b, t);
  }

  lemma {:induction false} AsciiPrefix(a: Bytes, t: Bytes)
    requires forall i | 0 <= i < |a| :: a[i] < 0x80
    ensures Escaped(a + t) == (a + Escaped(t).0, Escaped(t).1)
  {
    if a == [] {
      Units(t);
      Units(Escaped(t).0);
    } else {
      ConsAppend(a, t);
      AsciiCons(a[0], a[1..] + t);
      AsciiPrefix(a[1..], t);
      ConsAppend(a, Escaped(t).0);
    }
  }

  lemma FirstOut(t: Bytes)
    requires FullRune(t)
    ensures var (c, n) := DecodeRune(t); var x := Escaped(t).0;
            x != [] && x[0] == (if IsBidi(c) then BACKSLASH else t[0]) &&
            (!IsBidi(c) && Need(t[0]) <= 1 ==> x[1..] == Escaped(t[1..]).0)
  {
    var (c, n) := DecodeRune(t);
    assert Escaped(t).0 == RuneOut(c, t[..n]) + Escaped(t[n..]).0;
    assert RuneOut(c, t[..n])[0] == if IsBidi(c) then BACKSLASH else t[0];
  }

  /** A byte of the output that is no backslash and starts no multi-byte rune was there before. */
  lemma OutputHead(t: Bytes)
    requires Escaped(t).0 != [] && Escaped(t).0[0] != BACKSLASH && Need(Escaped(t).0[0]) <= 1
    ensures t != [] && t[0] == Escaped(t).0[0] && Escaped(t).0[1..] == Escaped(t[1..]).0
  {
    FirstOut(t);
  }

  /** A rune that is left alone still decodes the same once what follows it is escaped. */
  lemma KeptRune(t: Bytes)
    requires FullRune(t) && !IsBidi(DecodeRune(t).0)
    ensures var (c, n) := DecodeRune(t); DecodeRune(t[..n] + Escaped(t[n..]).0) == (c, n)
  {
    var (c, n) := DecodeRune(t);
    var x := Escaped(t[n..]).0;
    var u := t[..n] + x;
    if WellFormed(t) {
      assert WellFormed(t[..n]);
      DecodeStable(t[..n], x);
    } else if WellFormed(u) {
      assert u[1..] == x && t[1..] == t[n..];
      var need := Need(t[0]);
      assert need >= 2 by { assert u[0] == t[0]; }
      OutputHead(t[1..]);
      assert u[1] == t[1];
      if need >= 3 {
        assert Escaped(t[1..][1..]).0 == x[1..] && x[1] == u[2];
        OutputHead(t[1..][1..]);
        assert t[1..][1..] == t[2..] && u[2] == t[2];
        if need == 4 {
          assert Escaped(t[2..][1..]).0 == x[1..][1..] && x[1..][1..][0] == u[3];
          OutputHead(t[2..][1..]);
        }
      }
      assert false;
    }
  }

  /** No bidi or zero-width rune is left in what reaches the terminal. */
  lemma {:induction false} NoBidiLeft(t: Bytes)
    ensures NoBidi(Escaped(t).0)
    decreases |t|
  {
    hide DecodeRune, FullRune, IsBidi, NoBidi, UnicodeEscape;
    if t == [] || !FullRune(t) {
      NoBidiEmpty();
    } else {
      var (c, n) := DecodeRune(t);
      NoBidiLeft(t[n..]);
      var x := Escaped(t[n..]).0;
      if IsBidi(c) {
        BidiEscapeAscii(c);
        NoBidiAscii(UnicodeEscape(c as int), x);
      } else {
        KeptRune(t);
        NoBidiStep(t[..n] + x, c, n, x);
      }
    }
  }

  lemma NoBidiEmpty()
    ensures NoBidi([])
  {
  }

  lemma NoBidiStep(t: Bytes, c: char, n: nat, rest: Bytes)
    requires DecodeRune(t) == (c, n) && !IsBidi(c) && NoBidi(rest) && n <= |t| && t[n..] == rest
    ensures NoBidi(t)
  {
    hide DecodeRune, IsBidi;
    BidiListed(c);
  }

  ghost predicate Ascii(a: Bytes) {
    forall i | 0 <= i < |a| :: a[i] < 0x80
  }

  lemma BidiEscapeAscii(r: char)
    requires IsBidi(r)
    ensures r as int < 0x10000 && Ascii(UnicodeEscape(r as int))
  {
    var v := r as int;
    var a, b, c, d := HexDigit(v / 4096), HexDigit(v / 256 % 16), HexDigit(v / 16 % 16), HexDigit(v % 16);
    assert UnicodeEscape(v) == [BACKSLASH, LETTER_U, a, b, c, d];
  }

  /** A stream without such runes passes unchanged, but for the unfinished rune it may end in. */
  lemma {:induction false} CleanUnchanged(t: Bytes)
    requires NoBidi(t)
    ensures Escaped(t).0 + Escaped(t).1 == t
    decreases |t|
  {
    hide DecodeRune, FullRune, IsBidi;
    if t != [] && FullRune(t) {
      var (c, n) := DecodeRune(t);
      BidiListed(c);
      CleanUnchanged(t[n..]);
      SplitAt(t, n);
      Assoc(t[..n], Escaped(t[n..]).0, Escaped(t[n..]).1);
    } else {
      Units(t);
    }
  }

  /** Decoding the text meets none of them. */
  predicate NoBidi(t: Bytes)
    decreases |t|
  {
    t == [] || (var (c, n) := DecodeRune(t); c as int !in SPOOFING && NoBidi(t[n..]))
  }

  lemma {:induction false} NoBidiAscii(a: Bytes, t: Bytes)
    requires Ascii(a) && NoBidi(t)
    ensures NoBidi(a + t)
  {
    hide DecodeRune, FullRune, Escaped;
    if a == [] {
      Units(t);
    } else {
      ConsAppend(a, t);
      AsciiFull(a + t);
      NoBidiAscii(a[1..], t);
    }
  }

  lemma EscapedLow(t: Bytes)
    ensures ReadLow(Escaped(t).0) == ReadLow(t)
  {
    var x := Escaped(t).0;
    if ReadLow(t) >= 0 {
      assert t == t[..6] + t[6..];
      AsciiPrefix(t[..6], t[6..]);
      assert forall i | 0 <= i < 4 :: x[2..][i] == x[2 + i] == t[2 + i] == t[2..][i];
    } else if t != [] && FullRune(t) {
      FirstOut(t);
      if IsBidi(DecodeRune(t).0) {
        BidiNotLow(t);
      } else if ReadLow(x) >= 0 {
        SixSame(t);
      }
    }
  }

  lemma BidiNotLow(t: Bytes)
    requires FullRune(t) && IsBidi(DecodeRune(t).0)
    ensures ReadLow(Escaped(t).0) == -1
  {
    var (c, n) := DecodeRune(t);
    var rest := Escaped(t[n..]).0;
    assert Escaped(t).0[2..] == Hex4(c as int) + rest;
    ReadHex4Prefix(c as int, rest);
  }

  lemma SixSame(t: Bytes)
    requires ReadLow(Escaped(t).0) >= 0 && t != [] && t[0] == BACKSLASH
    ensures ReadLow(t) >= 0
  {
    AsciiFull(t);
    var x := Escaped(t).0;
    var u := t[1..];
    assert x[1..] == Escaped(u).0 && x[1] == Escaped(u).0[0];
    OutputHead(u);
    var w := u[1..];
    assert x[2..] == Escaped(w).0;
    HexSame(w);
    assert t[2..] == w;
  }

  lemma HexSame(t: Bytes)
    requires ReadHex4(Escaped(t).0) >= 0
    ensures ReadHex4(t) == ReadHex4(Escaped(t).0)
  {
    hide Escaped, DecodeRune, FullRune;
    var x := Escaped(t).0;
    OutputHead(t);
    OutputHead(t[1..]);
    assert x[1] == t[1];
    assert x[1..][1..] == x[2..] && t[1..][1..] == t[2..];
    OutputHead(t[2..]);
    assert x[2] == t[2];
    assert x[2..][1..] == x[3..] && t[2..][1..] == t[3..];
    OutputHead(t[3..]);
    assert x[3] == t[3];
  }

  lemma EscapedEscape(t: Bytes)
    requires ParseEscape(t).Some?
    ensures var (c, rest) := ParseEscape(t).value;
            ParseEscape(Escaped(t).0) == Some((c, Escaped(rest).0)) && Escaped(t).1 == Escaped(rest).1
  {
    hide Escaped, DecodeRune, FullRune, ParseUnicode, ShortEscape;
    AsciiFull(t);
    Cons(t[0], Escaped(t[1..]).0);
    if t[0] == LETTER_U {
      EscapedUnicode(t[1..]);
    }
  }

  lemma EscapedUnicode(t: Bytes)
    requires ParseUnicode(t).Some?
    ensures var (c, rest) := ParseUnicode(t).value;
            ParseUnicode(Escaped(t).0) == Some((c, Escaped(rest).0)) && Escaped(t).1 == Escaped(rest).1
  {
    hide Escaped, ReadHex4, ReadLow, PairChar;
    AsciiHex(t);
    EscapedLiteral(t, t[..4]);
    var x := Escaped(t).0;
    SameHex(t, x);
    EscapedLow(t[4..]);
    if ReadLow(t[4..]) >= 0 {
      AsciiLow(t[4..]);
      var w := t[4..];
      EscapedLiteral(w, w[..6]);
      assert w[6..] == t[10..] && x[4..][6..] == x[10..];
    }
  }

  lemma AsciiHex(t: Bytes)
    requires ReadHex4(t) >= 0
    ensures |t| >= 4 && forall i | 0 <= i < |t[..4]| :: t[..4][i] < 0x80
  {
  }

  lemma AsciiLow(t: Bytes)
    requires ReadLow(t) >= 0
    ensures |t| >= 6 && forall i | 0 <= i < |t[..6]| :: t[..6][i] < 0x80
  {
    hide ReadHex4;
    assert forall i | 2 <= i < 6 :: t[i] == t[2..][i - 2];
  }

  lemma SameHex(t: Bytes, x: Bytes)
    requires |t| >= 4 && t[..4] <= x
    ensures ReadHex4(x) == ReadHex4(t)
  {
    hide HexValue;
    assert forall i | 0 <= i < 4 :: x[i] == t[..4][i] == t[i];
  }

  lemma {:induction false} UnclosedString(t: Bytes)
    requires forall i | 0 <= i < |t| :: t[i] >= 0x80
    ensures ParseChars(t).None?
    decreases |t|
  {
    if t != [] {
      var (c, n) := DecodeRune(t);
      UnclosedString(t[n..]);
    }
  }

  lemma EscapedChar(t: Bytes)
    requires t != [] && FullRune(t) && t[0] >= 0x20 && t[0] != QUOTE && ParseChar(t).Some?
    ensures var (c, rest) := ParseChar(t).value; var x := Escaped(t).0;
            x != [] && x[0] >= 0x20 && x[0] != QUOTE &&
            ParseChar(x) == Some((c, Escaped(rest).0)) && Escaped(t).1 == Escaped(rest).1
  {
    if t[0] == BACKSLASH {
      AsciiFull(t);
      EscapedEscape(t[1..]);
      assert Escaped(t).0[1..] == Escaped(t[1..]).0;
    } else {
      var (c, n) := DecodeRune(t);
      var x := Escaped(t[n..]).0;
      if IsBidi(c) {
        ParseUnicodeEscape(c, x);
      } else {
        KeptRune(t);
        assert (t[..n] + x)[n..] == x && (t[..n] + x)[0] == t[0];
      }
    }
  }

  /** A JSON string decodes to the same characters after escaping. */
  lemma {:induction false} EscapedChars(t: Bytes)
    requires ParseChars(t).Some?
    ensures var (s, rest) := ParseChars(t).value;
            ParseChars(Escaped(t).0) == Some((s, Escaped(rest).0)) && Escaped(t).1 == Escaped(rest).1
    decreases |t|
  {
    if t[0] == QUOTE {
      AsciiFull(t);
    } else {
      if !FullRune(t) {
        UnfinishedRune(t);
        UnclosedString(t);
      }
      EscapedChar(t);
      EscapedChars(ParseChar(t).value.1);
    }
  }

  lemma {:induction false} EscapedSpace(t: Bytes)
    ensures SkipSpace(Escaped(t).0) == Escaped(SkipSpace(t)).0
    ensures Escaped(t).1 == Escaped(SkipSpace(t)).1
  {
    var x := Escaped(t).0;
    if t != [] && IsSpace(t[0]) {
      AsciiFull(t);
      EscapedSpace(t[1..]);
      assert x[1..] == Escaped(t[1..]).0;
    } else if x != [] && IsSpace(x[0]) {
      OutputHead(t);
    }
  }

  /** Whether a text goes on with the ASCII byte `b` is not changed by escaping. */
  lemma SameNext(t: Bytes, b: Byte)
    requires b < 0x80 && b != BACKSLASH
    ensures (t != [] && t[0] == b) <==> (Escaped(t).0 != [] && Escaped(t).0[0] == b)
    ensures t != [] && t[0] == b ==> Escaped(t).0[1..] == Escaped(t[1..]).0 && Escaped(t).1 == Escaped(t[1..]).1
  {
    if t != [] && t[0] == b {
      AsciiFull(t);
    } else if Escaped(t).0 != [] && Escaped(t).0[0] == b {
      OutputHead(t);
    }
  }

  lemma EscapedLiteral(t: Bytes, lit: Bytes)
    requires lit <= t && forall i | 0 <= i < |lit| :: lit[i] < 0x80
    ensures lit <= Escaped(t).0 && Escaped(t).0[|lit|..] == Escaped(t[|lit|..]).0
    ensures Escaped(t).1 == Escaped(t[|lit|..]).1
  {
    hide *;
    SplitAt(t, |lit|);
    assert t[..|lit|] == lit;
    AsciiPrefix(lit, t[|lit|..]);
    Parts(lit, Escaped(t[|lit|..]).0);
  }

  lemma EscapedNumber(t: Bytes)
    ensures var n := NumberLength(t); var x := Escaped(t).0;
            NumberLength(x) == n && x[..n] == t[..n] && x[n..] == Escaped(t[n..]).0 && Escaped(t).1 == Escaped(t[n..]).1
  {
    var n := NumberLength(t);
    EscapedLiteral(t, t[..n]);
    var rest := Escaped(t[n..]).0;
    StaysDelimited(t[n..]);
    NumberLengthPrefix(t[..n], rest);
    SplitAt(Escaped(t).0, n);
  }

  lemma StaysDelimited(t: Bytes)
    requires Delimited(t)
    ensures Delimited(Escaped(t).0)
  {
    if t != [] && FullRune(t) { FirstOut(t); }
  }

  /** Reading a JSON text after escaping gives the same value, at any depth. */
  lemma {:induction false} EscapedValue(t: Bytes)
    requires ParseValue(t).Some?
    ensures var (v, rest) := ParseValue(t).value;
            ParseValue(Escaped(t).0) == Some((v, Escaped(rest).0)) && Escaped(t).1 == Escaped(rest).1
    decreases |t|, 1
  {
    EscapedSpace(t);
    EscapedTrimmed(SkipSpace(t));
  }

  lemma {:induction false} EscapedTrimmed(t: Bytes)
    requires ParseTrimmed(t).Some?
    ensures var (v, rest) := ParseTrimmed(t).value;
            ParseTrimmed(Escaped(t).0) == Some((v, Escaped(rest).0)) && Escaped(t).1 == Escaped(rest).1
    decreases |t|, 0
  {
    if t[0] == QUOTE {
      SameNext(t, QUOTE);
      EscapedChars(t[1..]);
    } else if t[0] == OPEN_BRACKET {
      SameNext(t, OPEN_BRACKET);
      EscapedArray(t[1..]);
    } else if t[0] == OPEN_BRACE {
      SameNext(t, OPEN_BRACE);
      EscapedObject(t[1..]);
    } else {
      EscapedScalar(t);
    }
  }

  lemma EscapedScalar(t: Bytes)
    requires ParseScalar(t).Some? && t[0] != QUOTE && t[0] != OPEN_BRACKET && t[0] != OPEN_BRACE
    ensures var (v, rest) := ParseScalar(t).value; var x := Escaped(t).0;
            x != [] && x[0] == t[0] &&
            ParseScalar(x) == Some((v, Escaped(rest).0)) && Escaped(t).1 == Escaped(rest).1
  {
    hide Escaped, ParseScalar, NumberLength;
    ScalarCases(t);
    ScalarCases(Escaped(t).0);
    if NULL_TEXT <= t {
      EscapedLiteral(t, NULL_TEXT);
    } else if TRUE_TEXT <= t {
      EscapedLiteral(t, TRUE_TEXT);
    } else if FALSE_TEXT <= t {
      EscapedLiteral(t, FALSE_TEXT);
    } else {
      EscapedNumber(t);
      SameNext(t, t[0]);
    }
  }

  /** The first byte tells the four kinds of scalar apart. */
  lemma ScalarCases(t: Bytes)
    ensures NULL_TEXT <= t ==> ParseScalar(t) == Some((Null, t[4..]))
    ensures TRUE_TEXT <= t ==> ParseScalar(t) == Some((Bool(true), t[4..]))
    ensures FALSE_TEXT <= t ==> ParseScalar(t) == Some((Bool(false), t[5..]))
    ensures var n := NumberLength(t);
            n > 0 ==> ParseScalar(t) == Some((Number(t[..n]), t[n..])) && t[0] < 0x80 && t[0] != BACKSLASH
    ensures ParseScalar(t).Some? ==> NULL_TEXT <= t || TRUE_TEXT <= t || FALSE_TEXT <= t || NumberLength(t) > 0
  {
    hide NumberLength;
  }

  lemma {:induction false} EscapedArray(t: Bytes)
    requires ParseArray(t).Some?
    ensures var (v, rest) := ParseArray(t).value;
            ParseArray(Escaped(t).0) == Some((v, Escaped(rest).0)) && Escaped(t).1 == Escaped(rest).1
    decreases |t|, 3
  {
    EscapedSpace(t);
    var u := SkipSpace(t);
    SameNext(u, CLOSE_BRACKET);
    if !(u != [] && u[0] == CLOSE_BRACKET) {
      EscapedItems(t);
    }
  }

  lemma {:induction false} EscapedItems(t: Bytes)
    requires ParseItems(t).Some?
    ensures var (v, rest) := ParseItems(t).value;
            ParseItems(Escaped(t).0) == Some((v, Escaped(rest).0)) && Escaped(t).1 == Escaped(rest).1
    decreases |t|, 2
  {
    EscapedValue(t);
    var (v, rest) := ParseValue(t).value;
    var u := SkipSpace(rest);
    EscapedSpace(rest);
    SameNext(u, COMMA);
    SameNext(u, CLOSE_BRACKET);
    if u[0] == COMMA {
      EscapedItems(u[1..]);
    }
  }

  lemma EscapedName(t: Bytes)
    requires ParseName(t).Some?
    ensures var (k, rest) := ParseName(t).value;
            ParseName(Escaped(t).0) == Some((k, Escaped(rest).0)) && Escaped(t).1 == Escaped(rest).1
  {
    EscapedSpace(t);
    var u := SkipSpace(t);
    SameNext(u, QUOTE);
    EscapedChars(u[1..]);
    var rest := ParseChars(u[1..]).value.1;
    EscapedSpace(rest);
    SameNext(SkipSpace(rest), COLON);
  }

  lemma {:induction false} EscapedObject(t: Bytes)
    requires ParseObject(t).Some?
    ensures var (v, rest) := ParseObject(t).value;
            ParseObject(Escaped(t).0) == Some((v, Escaped(rest).0)) && Escaped(t).1 == Escaped(rest).1
    decreases |t|, 3
  {
    EscapedSpace(t);
    var u := SkipSpace(t);
    SameNext(u, CLOSE_BRACE);
    if !(u != [] && u[0] == CLOSE_BRACE) {
      EscapedMembers(t);
    }
  }

  lemma {:induction false} EscapedMembers(t: Bytes)
    requires ParseMembers(t).Some?
    ensures var (v, rest) := ParseMembers(t).value;
            ParseMembers(Escaped(t).0) == Some((v, Escaped(rest).0)) && Escaped(t).1 == Escaped(rest).1
    decreases |t|, 2
  {
    EscapedName(t);
    var (k, mid) := ParseName(t).value;
    EscapedValue(mid);
    var (v, rest) := ParseValue(mid).value;
    var u := SkipSpace(rest);
    EscapedSpace(rest);
    SameNext(u, COMMA);
    SameNext(u, CLOSE_BRACE);
    if u[0] == COMMA {
      EscapedMembers(u[1..]);
    }
  }

  /** A JSON document and the white space after it, written in any chunks, reach the sink
      complete, free of bidi and zero-width runes, and read as the same value. */
  lemma DocumentPreserved(chunks: seq<Bytes>, v: Value, rest: Bytes)
    requires ParseValue(Concat(chunks)) == Some((v, rest)) && SkipSpace(rest) == []
    ensures WriteAll([], chunks).1 == []
    ensures ParseValue(WriteAll([], chunks).0).Some?
    ensures var (w, after) := ParseValue(WriteAll([], chunks).0).value; w == v && SkipSpace(after) == []
    ensures NoBidi(WriteAll([], chunks).0)
  {
    ChunkingIrrelevant([], chunks);
    Units(Concat(chunks));
    EscapedValue(Concat(chunks));
    EscapedSpace(rest);
    NoBidiLeft(Concat(chunks));
  }

  // ----- what escaping can make readable -----

  /** The next character of `t` is an escaping backslash and a raw rune that will be escaped. */
  predicate Misplaced(t: Bytes)
  {
    |t| > 1 && t[0] == BACKSLASH && FullRune(t[1..]) && IsBidi(DecodeRune(t[1..]).0)
  }

  /** Somewhere in the string that opens `t`, an escaping backslash stands directly before such a rune. */
  predicate AnyMisplaced(t: Bytes)
    decreases |t|
  {
    t != [] && t[0] != QUOTE &&
    (Misplaced(t) || (ParseChar(t).Some? && AnyMisplaced(ParseChar(t).value.1)))
  }

  /** An escape that reads after escaping was one before, unless it was a backslash before a bidi rune. */
  lemma EscapeWasThere(t: Bytes)
    requires t != [] && t[0] == BACKSLASH && !Misplaced(t) && ParseEscape(Escaped(t[1..]).0).Some?
    ensures ParseEscape(t[1..]).Some?
  {
    hide Escaped, DecodeRune, FullRune, IsBidi, ReadHex4, ReadLow, PairChar, ShortEscape;
    var u := t[1..];
    var y := Escaped(u).0;
    NothingOut(u);
    FirstOut(u);
    EscapeLetter(y);
    AsciiFull(u);
    Cons(u[0], Escaped(u[1..]).0);
    if u[0] == LETTER_U {
      HexSame(u[1..]);
    }
  }

  lemma EscapeLetter(y: Bytes)
    requires ParseEscape(y).Some?
    ensures y != [] && y[0] < 0x80 && (y[0] == LETTER_U ==> ReadHex4(y[1..]) >= 0) &&
            (y[0] != LETTER_U ==> ShortEscape(y[0]).Some?)
  {
    hide ReadHex4, ReadLow, PairChar;
  }

  lemma NothingOut(t: Bytes)
    ensures Escaped(t).0 != [] ==> t != [] && FullRune(t)
  {
  }

  /** A character that reads after escaping was one before, likewise. */
  lemma CharWasThere(t: Bytes)
    requires var x := Escaped(t).0; x != [] && x[0] >= 0x20 && x[0] != QUOTE && ParseChar(x).Some?
    requires !Misplaced(t)
    ensures t != [] && FullRune(t) && t[0] >= 0x20 && t[0] != QUOTE && ParseChar(t).Some?
  {
    hide Escaped, DecodeRune, FullRune, IsBidi, ParseEscape;
    var x := Escaped(t).0;
    NothingOut(t);
    FirstOut(t);
    if t[0] == BACKSLASH {
      AsciiFull(t);
      Cons(t[0], Escaped(t[1..]).0);
      EscapeWasThere(t);
    } else if t[0] < 0x80 {
      AsciiNotBidi(t);
    }
  }

  lemma AsciiNotBidi(t: Bytes)
    requires t != [] && t[0] < 0x80
    ensures !IsBidi(DecodeRune(t).0)
  {
    hide Escaped;
    AsciiFull(t);
  }

  lemma {:induction false} CharsWereThere(t: Bytes)
    requires ParseChars(Escaped(t).0).Some? && !AnyMisplaced(t)
    ensures ParseChars(t).Some?
    decreases |t|
  {
    hide Escaped, DecodeRune, FullRune, ParseChar, IsBidi;
    var x := Escaped(t).0;
    SameNext(t, QUOTE);
    if x[0] != QUOTE {
      CharWasThere(t);
      EscapedChar(t);
      CharsWereThere(ParseChar(t).value.1);
    }
  }

  lemma {:induction false} StringsAreClean(t: Bytes)
    requires ParseChars(t).Some?
    ensures !AnyMisplaced(t)
    decreases |t|
  {
    hide DecodeRune, FullRune, ParseChar, Misplaced;
    if t[0] != QUOTE {
      if Misplaced(t) { MisplacedRefused(t); }
      StringsAreClean(ParseChar(t).value.1);
    }
  }

  lemma MisplacedRefused(t: Bytes)
    requires Misplaced(t)
    ensures ParseChar(t).None?
  {
    hide Escaped, DecodeRune, FullRune;
    if t[1] < 0x80 { AsciiNotBidi(t[1..]); }
  }

  /** Exactly which texts escaping leaves readable or unreadable: a text is a JSON string if and
      only if its escape is one and no escaping backslash in it stands directly before a rune that
      gets escaped. */
  lemma StringExactlyWhen(t: Bytes)
    ensures ParseChars(t).Some? <==> ParseChars(Escaped(t).0).Some? && !AnyMisplaced(t)
  {
    hide Escaped, ParseChars, AnyMisplaced;
    if ParseChars(t).Some? {
      EscapedChars(t);
      StringsAreClean(t);
    } else if ParseChars(Escaped(t).0).Some? && !AnyMisplaced(t) {
      CharsWereThere(t);
    }
  }
}
