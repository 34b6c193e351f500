/** UTF-8 as Go's `unicode/utf8` reads and writes it.
    A Go string that holds valid UTF-8 is a Dafny `string`: a sequence of Unicode
    scalar values. */
module Utf8 {
  newtype Byte = b: int | 0 <= b < 256
  type Bytes = seq<Byte>

  /** U+FFFD, what Go's decoder yields for a byte that starts no rune. */
  const RUNE_ERROR: char := '\U{FFFD}'

  function EncodeRune(c: char): (bs: Bytes)
    ensures 1 <= |bs| <= 4
    ensures (c as int < 0x80) <==> bs[0] < 0x80
    ensures c as int < 0x80 ==> bs == [c as int as Byte]
    ensures c as int >= 0x80 ==> forall i | 0 <= i < |bs| :: bs[i] >= 0x80
  {
    var r := c as int;
    if r < 0x80 then [r as Byte]
    else if r < 0x800 then [(0xC0 + r / 64) as Byte, (0x80 + r % 64) as Byte]
    else if r < 0x10000 then [(0xE0 + r / 4096) as Byte, (0x80 + r / 64 % 64) as Byte, (0x80 + r % 64) as Byte]
    else [(0xF0 + r / 262144) as Byte, (0x80 + r / 4096 % 64) as Byte, (0x80 + r / 64 % 64) as Byte,
          (0x80 + r % 64) as Byte]
  }

  function Encode(s: string): (bs: Bytes)
  {
    if s == "" then [] else EncodeRune(s[0]) + Encode(s[1..])
  }

  /** Bytes a rune needs, by its leading byte; 0 when no rune starts with it. */
  function Need(b: Byte): nat
  {
    if b < 0x80 then 1
    else if 0xC2 <= b <= 0xDF then 2
    else if 0xE0 <= b <= 0xEF then 3
    else if 0xF0 <= b <= 0xF4 then 4
    else 0
  }

  predicate Continuation(b: Byte) { 0x80 <= b <= 0xBF }

  /** The second byte's range excludes overlong forms, surrogates and values above U+10FFFF. */
  predicate SecondOk(b0: Byte, b1: Byte)
  {
    Continuation(b1) &&
    (b0 == 0xE0 ==> 0xA0 <= b1) && (b0 == 0xED ==> b1 <= 0x9F) &&
    (b0 == 0xF0 ==> 0x90 <= b1) && (b0 == 0xF4 ==> b1 <= 0x8F)
  }

  /** Whether `p` opens with a whole well-formed rune. */
  predicate WellFormed(p: Bytes)
  {
    p != [] && Need(p[0]) > 0 && |p| >= Need(p[0]) &&
    (Need(p[0]) > 1 ==> SecondOk(p[0], p[1])) &&
    (Need(p[0]) > 2 ==> Continuation(p[2])) &&
    (Need(p[0]) > 3 ==> Continuation(p[3]))
  }

  /** The scalar value of the rune `p` opens with. */
  function RuneValue(p: Bytes): (r: int)
    requires WellFormed(p)
    ensures 0 <= r < 0xD800 || 0xE000 <= r < 0x110000
  {
    var b0 := p[0] as int;
    if Need(p[0]) == 1 then b0
    else
      var b1 := p[1] as int;
      if Need(p[0]) == 2 then (b0 - 0xC0) * 64 + (b1 - 0x80)
      else
        var b2 := p[2] as int;
        if Need(p[0]) == 3 then (b0 - 0xE0) * 4096 + (b1 - 0x80) * 64 + (b2 - 0x80)
        else
          var b3 := p[3] as int;
          (b0 - 0xF0) * 262144 + (b1 - 0x80) * 4096 + (b2 - 0x80) * 64 + (b3 - 0x80)
  }

  /** `utf8.DecodeRune`: the rune and its width; (U+FFFD, 1) on a malformed start. */
  function DecodeRune(p: Bytes): (r: (char, nat))
    ensures r.1 <= |p| && (p != [] ==> r.1 >= 1) && r.1 <= 4
  {
    if p == [] then (RUNE_ERROR, 0)
    else if WellFormed(p) then (RuneValue(p) as char, Need(p[0]))
    else (RUNE_ERROR, 1)
  }

  /** `utf8.FullRune`: false only when `p` is a proper prefix of some well-formed rune. */
  predicate FullRune(p: Bytes)
  {
    p != [] &&
    (|p| >= Need(p[0]) ||
     (|p| > 1 && !SecondOk(p[0], p[1])) ||
     (|p| > 2 && !Continuation(p[2])))
  }

  lemma EncodeWellFormed(c: char)
    ensures WellFormed(EncodeRune(c)) && Need(EncodeRune(c)[0]) == |EncodeRune(c)|
    ensures RuneValue(EncodeRune(c)) == c as int
  {
    var r := c as int;
    if r < 0x800 {
    } else if r < 0x10000 {
      var q := r / 64;
      assert r / 4096 == q / 64;
      assert r == q * 64 + r % 64 && q == q / 64 * 64 + q % 64;
    } else {
      var q := r / 64;
      var u := q / 64;
      assert r / 4096 == u && r / 262144 == u / 64;
      assert r == q * 64 + r % 64 && q == u * 64 + q % 64 && u == u / 64 * 64 + u % 64;
    }
  }

  lemma DecodeEncode(c: char, rest: Bytes)
    ensures DecodeRune(EncodeRune(c) + rest) == (c, |EncodeRune(c)|)
    ensures WellFormed(EncodeRune(c) + rest)
  {
    EncodeWellFormed(c);
    DecodeStable(EncodeRune(c), rest);
    assert (EncodeRune(c) + rest)[0] == EncodeRune(c)[0];
  }

  /** More input never changes how a full rune decodes. */
  lemma DecodeStable(p: Bytes, q: Bytes)
    requires FullRune(p)
    ensures FullRune(p + q) && DecodeRune(p + q) == DecodeRune(p)
  {
    assert (p + q)[0] == p[0];
    assert |p| > 1 ==> (p + q)[1] == p[1];
    assert |p| > 2 ==> (p + q)[2] == p[2];
    assert |p| > 3 ==> (p + q)[3] == p[3];
  }

  /** An unfinished rune is at most three bytes, none of them ASCII. */
  lemma UnfinishedRune(p: Bytes)
    requires p != [] && !FullRune(p)
    ensures |p| <= 3 && !WellFormed(p)
    ensures forall i | 0 <= i < |p| :: p[i] >= 0x80
  {
  }

  /** Equal bytes, equal strings. */
  lemma {:induction false} EncodeInjective(s: string, t: string)
    requires Encode(s) == Encode(t)
    ensures s == t
  {
    if s == "" || t == "" {
    } else {
      DecodeEncode(s[0], Encode(s[1..]));
      DecodeEncode(t[0], Encode(t[1..]));
      var n := |EncodeRune(s[0])|;
      assert Encode(s)[n..] == Encode(s[1..]);
      assert Encode(t)[n..] == Encode(t[1..]);
      EncodeInjective(s[1..], t[1..]);
    }
  }
}
