/** The key order of RFC 8785: strings compared by their UTF-16 code units. */
module Utf16 {
  type Unit = u: int | 0 <= u < 0x10000

  /** The rune of a surrogate pair (section 2.2 of RFC 2781). */
  function PairValue(high: int, low: int): int
  {
    0x10000 + (high - 0xD800) * 0x400 + (low - 0xDC00)
  }

  /** One rune as UTF-16 (section 2.1 of RFC 2781); a `char` is never a surrogate. */
  function EncodeRune(c: char): (us: seq<Unit>)
    ensures 1 <= |us| <= 2
    ensures |us| == 1 ==> us[0] == c as int && (us[0] < 0xD800 || 0xE000 <= us[0])
    ensures |us| == 2 ==> 0xD800 <= us[0] < 0xDC00 <= us[1] < 0xE000
    ensures |us| == 2 ==> c as int == PairValue(us[0], us[1])
  {
    var r := c as int;
    if r < 0x10000 then [r]
    else [0xD800 + (r - 0x10000) / 0x400, 0xDC00 + (r - 0x10000) % 0x400]
  }

  function Encode(s: string): seq<Unit>
  {
    if s == "" then [] else EncodeRune(s[0]) + Encode(s[1..])
  }

  lemma RuneInjective(c: char, d: char, x: seq<Unit>, y: seq<Unit>)
    requires EncodeRune(c) + x == EncodeRune(d) + y
    ensures c == d && x == y
  {
    var l, r := EncodeRune(c) + x, EncodeRune(d) + y;
    assert l[0] == EncodeRune(c)[0] && r[0] == EncodeRune(d)[0];
    assert |EncodeRune(c)| == |EncodeRune(d)|;
    var n := |EncodeRune(c)|;
    assert l[..n] == EncodeRune(c) && r[..n] == EncodeRune(d);
    assert l[n..] == x && r[n..] == y;
    assert EncodeRune(c) == EncodeRune(d);
  }

  /** UTF-16 encoding is injective on strings of Unicode scalar values. */
  lemma {:induction false} EncodeInjective(s: string, t: string)
    requires Encode(s) == Encode(t)
    ensures s == t
  {
    if s == "" || t == "" {
    } else {
      RuneInjective(s[0], t[0], Encode(s[1..]), Encode(t[1..]));
      EncodeInjective(s[1..], t[1..]);
    }
  }

  /** Lexicographic order on code units, a proper prefix first. */
  predicate LexLess(x: seq<Unit>, y: seq<Unit>)
  {
    if y == [] then false
    else if x == [] then true
    else x[0] < y[0] || (x[0] == y[0] && LexLess(x[1..], y[1..]))
  }

  predicate KeyLess(a: string, b: string)
  {
    LexLess(Encode(a), Encode(b))
  }

  /** Up to unit `n` the two agree, and there `x` ends or has the smaller unit. */
  ghost predicate LessAt(x: seq<Unit>, y: seq<Unit>, n: nat)
  {
    n <= |x| && n < |y| && x[..n] == y[..n] && (n == |x| || x[n] < y[n])
  }

  lemma AgreeAtStart(x: seq<Unit>, y: seq<Unit>, n: nat)
    requires LessAt(x, y, n)
    ensures n > 0 ==> x[0] == y[0]
  {
    assert n > 0 ==> x[0] == x[..n][0] && y[0] == y[..n][0];
  }

  lemma {:induction false} LexLessExactly(x: seq<Unit>, y: seq<Unit>)
    ensures LexLess(x, y) <==> exists n: nat :: LessAt(x, y, n)
  {
    if y != [] && x != [] {
      if x[0] == y[0] {
        LexLessExactly(x[1..], y[1..]);
        if LexLess(x, y) {
          var n: nat :| LessAt(x[1..], y[1..], n);
          assert x[..n + 1] == [x[0]] + x[1..][..n] && y[..n + 1] == [y[0]] + y[1..][..n];
          assert LessAt(x, y, n + 1);
        }
        if n: nat :| LessAt(x, y, n) {
          assert n > 0;
          assert x[1..][..n - 1] == x[..n][1..] && y[1..][..n - 1] == y[..n][1..];
          assert LessAt(x[1..], y[1..], n - 1);
        }
      } else {
        assert LexLess(x, y) ==> LessAt(x, y, 0);
        forall n: nat | LessAt(x, y, n) ensures n == 0 {
          AgreeAtStart(x, y, n);
        }
      }
    } else {
      assert LexLess(x, y) ==> LessAt(x, y, 0);
    }
  }

  /** Section 3.2.3 of RFC 8785: one key is before another exactly if, where their UTF-16 encodings
      first differ, it ends or has the smaller code unit. */
  lemma KeyLessExactly(a: string, b: string)
    ensures KeyLess(a, b) <==> exists n: nat :: LessAt(Encode(a), Encode(b), n)
  {
    hide Encode, LexLess, LessAt;
    var x, y := Encode(a), Encode(b);
    LexLessExactly(x, y);
    if KeyLess(a, b) {
      var n: nat :| LessAt(x, y, n);
      assert LessAt(Encode(a), Encode(b), n);
    }
    if n: nat :| LessAt(Encode(a), Encode(b), n) {
      assert LessAt(x, y, n);
    }
  }

  /** `utf16Less`: scan both encodings for the first difference. */
  method Utf16Less(a: string, b: string) returns (less: bool)
    ensures less == KeyLess(a, b)
  {
    var ua, ub := Encode(a), Encode(b);
    var i := 0;
    while i < |ua| && i < |ub|
      invariant 0 <= i <= |ua| && i <= |ub|
      invariant LexLess(ua, ub) == LexLess(ua[i..], ub[i..])
    {
      if ua[i] != ub[i] {
        return ua[i] < ub[i];
      }
      i := i + 1;
    }
    return |ua| < |ub|;
  }

  lemma {:induction false} LexTransitive(x: seq<Unit>, y: seq<Unit>, z: seq<Unit>)
    requires LexLess(x, y) && LexLess(y, z)
    ensures LexLess(x, z)
  {
    if x != [] && x[0] == y[0] == z[0] {
      LexTransitive(x[1..], y[1..], z[1..]);
    }
  }

  lemma {:induction false} LexTrichotomy(x: seq<Unit>, y: seq<Unit>)
    ensures !LexLess(x, x)
    ensures LexLess(x, y) || x == y || LexLess(y, x)
    ensures !(LexLess(x, y) && LexLess(y, x))
  {
    if x != [] {
      LexTrichotomy(x[1..], x[1..]);
      if y != [] {
        LexTrichotomy(x[1..], y[1..]);
        assert x == [x[0]] + x[1..] && y == [y[0]] + y[1..];
      }
    }
  }

  /** `utf16Less` is a strict total order on strings: exactly one of a < b, a == b, b < a. */
  lemma KeyOrderTotal(a: string, b: string)
    ensures KeyLess(a, b) || a == b || KeyLess(b, a)
    ensures !(KeyLess(a, b) && KeyLess(b, a))
    ensures !KeyLess(a, a)
  {
    LexTrichotomy(Encode(a), Encode(b));
    if Encode(a) == Encode(b) {
      EncodeInjective(a, b);
    }
  }

  lemma KeyOrderTransitive(a: string, b: string, c: string)
    requires KeyLess(a, b) && KeyLess(b, c)
    ensures KeyLess(a, c)
  {
    LexTransitive(Encode(a), Encode(b), Encode(c));
  }
}
