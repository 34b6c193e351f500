/** The canonical JSON writer of internal/canonicalize: RFC 8785 escapes and key order. */
module Canonicalize {
  import opened Wrappers
  import opened Seqs
  import opened Utf8
  import opened Utf16
  import opened Json

  // ----- strings -----

  /** A digit or a lower-case letter up to `f`. */
  predicate LowerHex(b: Byte) { 48 <= b <= 57 || 97 <= b <= 102 }

  function HexDigit(d: int): (b: Byte)
    requires 0 <= d < 16
    ensures HexValue(b) == d && LowerHex(b)
  {
    if d < 10 then (48 + d) as Byte else (87 + d) as Byte
  }

  /** `%04x` of a value below 2^16. */
  function Hex4(v: int): (bs: Bytes)
    requires 0 <= v < 0x10000
    ensures |bs| == 4 && ReadHex4(bs) == v && forall i | 0 <= i < 4 :: LowerHex(bs[i])
  {
    assert v == v / 4096 * 4096 + v / 256 % 16 * 256 + v / 16 % 16 * 16 + v % 16 by {
      var q := v / 16;
      var u := q / 16;
      assert v / 256 == u && v / 4096 == u / 16;
      assert v == q * 16 + v % 16 && q == u * 16 + q % 16 && u == u / 16 * 16 + u % 16;
    }
    [HexDigit(v / 4096), HexDigit(v / 256 % 16), HexDigit(v / 16 % 16), HexDigit(v % 16)]
  }

  function UnicodeEscape(v: int): (bs: Bytes)
    requires 0 <= v < 0x10000
    ensures |bs| == 6
  {
    [BACKSLASH, LETTER_U] + Hex4(v)
  }

  /** What `writeString` writes for one rune. */
  function CharText(c: char): (bs: Bytes)
    ensures bs != [] && bs[0] >= 0x20 && bs[0] != QUOTE
  {
    var r := c as int;
    if r == 34 then [BACKSLASH, QUOTE]
    else if r == 92 then [BACKSLASH, BACKSLASH]
    else if r == 8 then [BACKSLASH, 98]
    else if r == 12 then [BACKSLASH, 102]
    else if r == 10 then [BACKSLASH, 110]
    else if r == 13 then [BACKSLASH, 114]
    else if r == 9 then [BACKSLASH, 116]
    else if r < 0x20 then UnicodeEscape(r)
    else Utf8.EncodeRune(c)
  }

  function CharsText(s: string): Bytes
  {
    if s == "" then [] else CharText(s[0]) + CharsText(s[1..])
  }

  function StringText(s: string): Bytes
  {
    [QUOTE] + CharsText(s) + [QUOTE]
  }

  lemma ReadHex4Prefix(v: int, rest: Bytes)
    requires 0 <= v < 0x10000
    ensures ReadHex4(Hex4(v) + rest) == v
  {
    assert forall i | 0 <= i < 4 :: (Hex4(v) + rest)[i] == Hex4(v)[i];
  }

  /** A `\uXXXX` of a value that is no surrogate reads back as that character. */
  lemma ParseUnicodeEscape(c: char, rest: Bytes)
    requires c as int < 0x10000
    ensures ParseChar(UnicodeEscape(c as int) + rest) == Some((c, rest))
  {
    var v := c as int;
    var t := UnicodeEscape(v) + rest;
    assert t[1..] == [LETTER_U] + (Hex4(v) + rest);
    assert t[1..][1..] == Hex4(v) + rest;
    ReadHex4Prefix(v, rest);
    assert (Hex4(v) + rest)[4..] == rest;
  }

  lemma ParseCharText(c: char, rest: Bytes)
    ensures ParseChar(CharText(c) + rest) == Some((c, rest))
  {
    var t := CharText(c) + rest;
    var r := c as int;
    if r == 34 || r == 92 || r == 8 || r == 12 || r == 10 || r == 13 || r == 9 {
      assert t[1..] == [CharText(c)[1]] + rest;
      assert t[1..][1..] == rest;
    } else if r < 0x20 {
      ParseUnicodeEscape(c, rest);
    } else {
      DecodeEncode(c, rest);
      assert t[|Utf8.EncodeRune(c)|..] == rest;
    }
  }

  lemma {:induction false} ParseCharsText(s: string, rest: Bytes)
    ensures ParseChars(CharsText(s) + [QUOTE] + rest) == Some((s, rest))
  {
    hide CharText, ParseChar;
    var t := CharsText(s) + [QUOTE] + rest;
    if s == "" {
      assert t == [QUOTE] + rest;
    } else {
      var tail := CharsText(s[1..]) + [QUOTE] + rest;
      assert t == CharText(s[0]) + tail;
      ParseCharText(s[0], tail);
      ParseCharsText(s[1..], rest);
      assert s == [s[0]] + s[1..];
    }
  }

  // ----- key order -----

  ghost predicate InOrder(keys: seq<string>)
  {
    forall i, j | 0 <= i < j < |keys| :: KeyLess(keys[i], keys[j])
  }

  ghost function Elements(keys: seq<string>): set<string>
  {
    set k | k in keys
  }

  predicate IsLeast(s: set<string>, m: string)
  {
    forall k | k in s :: k == m || KeyLess(m, k)
  }

  /** A nonempty set of keys has a least one, and only one. */
  lemma {:induction false} LeastKey(s: set<string>)
    requires s != {}
    ensures exists m :: m in s && IsLeast(s, m)
    ensures forall m, n | m in s && n in s && IsLeast(s, m) && IsLeast(s, n) :: m == n
  {
    hide KeyLess;
    forall m, n | m in s && n in s && IsLeast(s, m) && IsLeast(s, n) ensures m == n { KeyOrderTotal(m, n); }
    var x :| x in s;
    var rest := s - {x};
    if rest == {} {
      assert s == {x};
      assert x in s && IsLeast(s, x);
    } else {
      LeastKey(rest);
      var m :| m in rest && IsLeast(rest, m);
      KeyOrderTotal(x, m);
      if KeyLess(x, m) {
        forall k | k in s ensures k == x || KeyLess(x, k) {
          if k != x && k != m { KeyOrderTransitive(x, m, k); }
        }
        assert x in s && IsLeast(s, x);
      } else {
        assert m in s && IsLeast(s, m);
      }
    }
  }

  lemma LeastFirst(s: set<string>, m: string, rest: seq<string>)
    requires m in s && IsLeast(s, m) && InOrder(rest) && Elements(rest) == s - {m}
    ensures InOrder([m] + rest) && Elements([m] + rest) == s
  {
    hide KeyLess;
    assert forall i | 0 <= i < |rest| :: rest[i] in Elements(rest);
    assert Elements([m] + rest) == {m} + Elements(rest);
  }

  /** The keys of an object in canonical order. */
  function OrderedKeys(s: set<string>): (keys: seq<string>)
    ensures InOrder(keys) && Elements(keys) == s
  {
    hide KeyLess, IsLeast, InOrder;
    if s == {} then InOrderEmpty(); []
    else
      LeastKey(s);
      var m :| m in s && IsLeast(s, m);
      var rest := OrderedKeys(s - {m});
      LeastFirst(s, m, rest);
      [m] + rest
  }

  lemma InOrderEmpty()
    ensures InOrder([])
  {
  }

  /** There is one way to order a set of keys, whatever order a map yields them in. */
  lemma {:induction false} OrderUnique(xs: seq<string>, ys: seq<string>)
    requires InOrder(xs) && InOrder(ys) && Elements(xs) == Elements(ys)
    ensures xs == ys
  {
    hide KeyLess;
    EmptyElements(xs);
    EmptyElements(ys);
    if xs != [] && ys != [] {
      HeadLeast(xs, ys[0]);
      HeadLeast(ys, xs[0]);
      KeyOrderTotal(xs[0], ys[0]);
      assert xs[0] == ys[0];
      TailElements(xs);
      TailElements(ys);
      OrderUnique(xs[1..], ys[1..]);
      assert xs == [xs[0]] + xs[1..] && ys == [ys[0]] + ys[1..];
    }
  }

  lemma EmptyElements(xs: seq<string>)
    ensures Elements(xs) == {} <==> xs == []
  {
    if xs != [] { assert xs[0] in Elements(xs); }
  }

  lemma HeadLeast(xs: seq<string>, k: string)
    requires xs != [] && InOrder(xs) && (k in xs || k in Elements(xs))
    ensures k == xs[0] || KeyLess(xs[0], k)
  {
  }

  lemma TailElements(xs: seq<string>)
    requires xs != [] && InOrder(xs)
    ensures Elements(xs[1..]) == Elements(xs) - {xs[0]}
  {
    hide KeyLess;
    KeyOrderTotal(xs[0], xs[0]);
    forall k | k in xs && k != xs[0] ensures k in xs[1..] {
      var i :| 0 <= i < |xs| && xs[i] == k;
      assert xs[1..][i - 1] == k;
    }
    forall k | k in xs[1..] ensures k in xs && k != xs[0] {
      var i :| 0 <= i < |xs[1..]| && xs[1..][i] == k;
      assert xs[i + 1] == k && KeyLess(xs[0], xs[i + 1]);
    }
  }

  // ----- values -----

  /** The canonical text of a value. */
  function Canon(v: Value): (t: Bytes)
    decreases v
  {
    match v
    case Null => NULL_TEXT
    case Bool(b) => if b then TRUE_TEXT else FALSE_TEXT
    case Number(token) => token
    case String(s) => StringText(s)
    case Array(items) => [OPEN_BRACKET] + ItemsText(v, 0) + [CLOSE_BRACKET]
    case Object(fields) => [OPEN_BRACE] + MembersText(v, OrderedKeys(fields.Keys)) + [CLOSE_BRACE]
  }

  function ItemsText(v: Value, i: nat): Bytes
    requires v.Array? && i <= |v.items|
    decreases v, |v.items| - i
  {
    if i == |v.items| then []
    else Canon(v.items[i]) + (if i + 1 < |v.items| then [COMMA] + ItemsText(v, i + 1) else [])
  }

  function MembersText(v: Value, keys: seq<string>): Bytes
    requires v.Object? && forall k | k in keys :: k in v.fields
    decreases v, |keys| + 1
  {
    if keys == [] then []
    else
      MemberText(v, keys[0]) + (if |keys| > 1 then [COMMA] + MembersText(v, keys[1..]) else [])
  }

  function MemberText(v: Value, k: string): Bytes
    requires v.Object? && k in v.fields
    decreases v, 0
  {
    StringText(k) + [COLON] + Canon(v.fields[k])
  }

  // ----- the writer -----

  /** A `bytes.Buffer`: bytes are only ever appended. */
  class Buffer {
    var data: Bytes

    constructor ()
      ensures data == []
    {
      data := [];
    }

    method WriteBytes(bs: Bytes)
      modifies this
      ensures data == old(data) + bs
    {
      data := data + bs;
    }
  }

  /** `writeString` */
  method WriteString(buf: Buffer, s: string)
    modifies buf
    ensures buf.data == old(buf.data) + StringText(s)
  {
    hide CharText;
    buf.WriteBytes([QUOTE]);
    for i := 0 to |s|
      invariant buf.data == old(buf.data) + OpenString(s[..i])
    {
      buf.WriteBytes(CharText(s[i]));
      OpenStringGrows(s, i);
    }
    buf.WriteBytes([QUOTE]);
    assert OpenString(s[..|s|]) + [QUOTE] == StringText(s) by { assert s[..|s|] == s; }
  }

  /** A string under way: its opening quote and the characters so far. */
  function OpenString(s: string): Bytes
  {
    [QUOTE] + CharsText(s)
  }

  lemma OpenStringGrows(s: string, i: nat)
    requires i < |s|
    ensures OpenString(s[..i + 1]) == OpenString(s[..i]) + CharText(s[i])
  {
    CharsTextAppend(s[..i], s[i]);
    assert s[..i + 1] == s[..i] + [s[i]];
  }

  lemma {:induction false} CharsTextAppend(s: string, c: char)
    ensures CharsText(s + [c]) == CharsText(s) + CharText(c)
  {
    if s == "" {
      assert CharsText([c]) == CharText(c) + CharsText("");
    } else {
      assert (s + [c])[1..] == s[1..] + [c];
      CharsTextAppend(s[1..], c);
    }
  }

  /** The keys of a map in some order; Go leaves the order open. */
  method EnumerateKeys(fields: map<string, Value>) returns (keys: seq<string>)
    ensures Elements(keys) == fields.Keys
    ensures forall i, j | 0 <= i < j < |keys| :: keys[i] != keys[j]
  {
    keys := [];
    var left := fields.Keys;
    while left != {}
      invariant Elements(keys) == fields.Keys - left && left <= fields.Keys
      invariant forall i, j | 0 <= i < j < |keys| :: keys[i] != keys[j]
      decreases left
    {
      var k :| k in left;
      assert forall i | 0 <= i < |keys| :: keys[i] in Elements(keys);
      assert Elements(keys + [k]) == Elements(keys) + {k};
      keys := keys + [k];
      left := left - {k};
    }
  }

  /** `sort.Slice` under `utf16Less`, as an insertion sort. */
  method SortKeys(keys: seq<string>) returns (sorted: seq<string>)
    requires forall i, j | 0 <= i < j < |keys| :: keys[i] != keys[j]
    ensures sorted == OrderedKeys(Elements(keys))
  {
    hide KeyLess;
    sorted := [];
    for n := 0 to |keys|
      invariant InOrder(sorted) && Elements(sorted) == Elements(keys[..n])
    {
      var k := keys[n];
      assert keys[..n + 1] == keys[..n] + [k];
      assert k !in keys[..n];
      assert forall i | 0 <= i < |sorted| :: sorted[i] in Elements(sorted);
      var at := 0;
      while at < |sorted|
        invariant 0 <= at <= |sorted|
        invariant forall i | 0 <= i < at :: KeyLess(sorted[i], k)
      {
        var less := Utf16Less(sorted[at], k);
        if !less { break; }
        at := at + 1;
      }
      InsertInOrder(sorted, at, k);
      sorted := sorted[..at] + [k] + sorted[at..];
    }
    assert keys[..|keys|] == keys;
    OrderUnique(sorted, OrderedKeys(Elements(keys)));
  }

  lemma InsertInOrder(xs: seq<string>, at: nat, k: string)
    requires InOrder(xs) && at <= |xs| && k !in xs
    requires forall i | 0 <= i < at :: KeyLess(xs[i], k)
    requires at < |xs| ==> !KeyLess(xs[at], k)
    ensures InOrder(xs[..at] + [k] + xs[at..])
    ensures Elements(xs[..at] + [k] + xs[at..]) == Elements(xs) + {k}
  {
    hide KeyLess;
    var ys := xs[..at] + [k] + xs[at..];
    forall i | at <= i < |xs| ensures KeyLess(k, xs[i]) {
      KeyOrderTotal(xs[at], k);
      if i > at { KeyOrderTransitive(k, xs[at], xs[i]); }
    }
    assert forall i | 0 <= i < |ys| :: ys[i] == if i < at then xs[i] else if i == at then k else xs[i - 1];
    assert xs == xs[..at] + xs[at..];
  }

  /** `writeValue`: whatever order the map yields, the bytes are `Canon(v)`. */
  method WriteValue(buf: Buffer, v: Value)
    modifies buf
    ensures buf.data == old(buf.data) + Canon(v)
    decreases v, 3
  {
    match v
    case Null => buf.WriteBytes(NULL_TEXT);
    case Bool(b) => if b { buf.WriteBytes(TRUE_TEXT); } else { buf.WriteBytes(FALSE_TEXT); }
    case Number(token) => buf.WriteBytes(token);
    case String(s) => WriteString(buf, s);
    case Array(_) => WriteArray(buf, v);
    case Object(_) => WriteObject(buf, v);
  }

  method WriteArray(buf: Buffer, v: Value)
    requires v.Array?
    modifies buf
    ensures buf.data == old(buf.data) + Canon(v)
    decreases v, 0
  {
    hide Canon, ItemsText;
    buf.WriteBytes([OPEN_BRACKET]);
    for i := 0 to |v.items|
      invariant buf.data == old(buf.data) + OpenArray(v, i)
    {
      if i > 0 { buf.WriteBytes([COMMA]); }
      WriteValue(buf, v.items[i]);
    }
    buf.WriteBytes([CLOSE_BRACKET]);
    CanonArray(v);
  }

  /** An array under way: its opening bracket and its first `n` items. */
  ghost function OpenArray(v: Value, n: nat): Bytes
    requires v.Array? && n <= |v.items|
  {
    if n == 0 then [OPEN_BRACKET]
    else OpenArray(v, n - 1) + (if n > 1 then [COMMA] else []) + Canon(v.items[n - 1])
  }

  lemma CanonArray(v: Value)
    requires v.Array?
    ensures OpenArray(v, |v.items|) + [CLOSE_BRACKET] == Canon(v)
  {
    OpenArrayDone(v, |v.items|);
    Units(OpenArray(v, |v.items|));
  }

  lemma {:induction false} OpenArrayDone(v: Value, n: nat)
    requires v.Array? && n <= |v.items|
    ensures OpenArray(v, n) + (if 0 < n < |v.items| then [COMMA] else []) + ItemsText(v, n)
         == [OPEN_BRACKET] + ItemsText(v, 0)
  {
    hide Canon;
    if n == 0 {
      Units([OPEN_BRACKET]);
    } else {
      OpenArrayDone(v, n - 1);
      var sofar, comma := OpenArray(v, n - 1), if n > 1 then [COMMA] else [];
      var item, more := Canon(v.items[n - 1]), ItemsText(v, n);
      if n < |v.items| {
        Assoc4(sofar + comma, item, [COMMA], more);
      } else {
        Units(item);
        Units(sofar + comma + item);
      }
    }
  }

  method WriteObject(buf: Buffer, v: Value)
    requires v.Object?
    modifies buf
    ensures buf.data == old(buf.data) + Canon(v)
    decreases v, 2
  {
    hide *;
    var keys := EnumerateKeys(v.fields);
    keys := SortKeys(keys);
    CanonObject(v, keys);
    WriteMembers(buf, v, keys);
    buf.WriteBytes([CLOSE_BRACE]);
  }

  lemma CanonObject(v: Value, keys: seq<string>)
    requires v.Object? && keys == OrderedKeys(v.fields.Keys)
    ensures forall k | k in keys :: k in v.fields
    ensures OpenObject(v, keys, |keys|) + [CLOSE_BRACE] == Canon(v)
  {
    assert forall k | k in keys :: k in Elements(keys);
    OpenObjectDone(v, keys, |keys|);
    Units(OpenObject(v, keys, |keys|));
  }

  /** The opening brace and every member, in the order of `keys`. */
  method WriteMembers(buf: Buffer, v: Value, keys: seq<string>)
    requires v.Object? && forall k | k in keys :: k in v.fields
    modifies buf
    ensures buf.data == old(buf.data) + OpenObject(v, keys, |keys|)
    decreases v, 1
  {
    hide MemberText, Canon;
    buf.WriteBytes([OPEN_BRACE]);
    for i := 0 to |keys|
      invariant buf.data == old(buf.data) + OpenObject(v, keys, i)
    {
      if i > 0 { buf.WriteBytes([COMMA]); }
      WriteMember(buf, v, keys[i]);
    }
  }

  method WriteMember(buf: Buffer, v: Value, k: string)
    requires v.Object? && k in v.fields
    modifies buf
    ensures buf.data == old(buf.data) + MemberText(v, k)
    decreases v, 0
  {
    WriteString(buf, k);
    buf.WriteBytes([COLON]);
    WriteValue(buf, v.fields[k]);
  }

  /** An object under way: its opening brace and its first `n` members. */
  ghost function OpenObject(v: Value, keys: seq<string>, n: nat): Bytes
    requires v.Object? && n <= |keys| && forall k | k in keys :: k in v.fields
  {
    if n == 0 then [OPEN_BRACE]
    else OpenObject(v, keys, n - 1) + (if n > 1 then [COMMA] else []) + MemberText(v, keys[n - 1])
  }

  lemma {:induction false} OpenObjectDone(v: Value, keys: seq<string>, n: nat)
    requires v.Object? && n <= |keys| && forall k | k in keys :: k in v.fields
    ensures OpenObject(v, keys, n) + (if 0 < n < |keys| then [COMMA] else []) + MembersText(v, keys[n..])
         == [OPEN_BRACE] + MembersText(v, keys)
  {
    if n == 0 {
      Units(keys);
      Units([OPEN_BRACE]);
    } else {
      OpenObjectDone(v, keys, n - 1);
      HeadTail(keys[n - 1..]);
      var sofar, comma := OpenObject(v, keys, n - 1), if n > 1 then [COMMA] else [];
      var member, more := MemberText(v, keys[n - 1]), MembersText(v, keys[n..]);
      if n < |keys| {
        Assoc4(sofar + comma, member, [COMMA], more);
      } else {
        Units(member);
        Units(sofar + comma + member);
      }
    }
  }

  // ----- reading the text back -----

  /** No number goes on into `rest`. */
  predicate Delimited(rest: Bytes)
  {
    rest != [] ==> !IsNumberByte(rest[0])
  }

  lemma CanonHead(v: Value)
    ensures Canon(v) != [] && !IsSpace(Canon(v)[0]) && Canon(v)[0] != CLOSE_BRACKET
  {
    if v.Number? { assert IsNumberByte(v.token[0]); }
  }

  lemma {:induction false} NumberLengthPrefix(t: Bytes, rest: Bytes)
    requires Delimited(rest) && forall i | 0 <= i < |t| :: IsNumberByte(t[i])
    ensures NumberLength(t + rest) == |t|
  {
    if t == [] {
      assert t + rest == rest;
    } else {
      assert (t + rest)[1..] == t[1..] + rest;
      NumberLengthPrefix(t[1..], rest);
    }
  }

  /** Reading canonical text gives back exactly the value that was written, at any depth. */
  lemma {:induction false} ParseCanon(v: Value, rest: Bytes)
    requires Delimited(rest)
    ensures ParseValue(Canon(v) + rest) == Some((v, rest))
    decreases v
  {
    var t := Canon(v) + rest;
    CanonHead(v);
    assert t[0] == Canon(v)[0];
    assert SkipSpace(t) == t;
    if v.String? {
      ParseCanonString(v.s, rest);
    } else if v.Array? {
      ParseCanonArray(v, rest);
    } else if v.Object? {
      ParseCanonObject(v, rest);
    } else {
      ParseCanonScalar(v, rest);
    }
  }

  lemma ParseCanonScalar(v: Value, rest: Bytes)
    requires Delimited(rest) && (v.Null? || v.Bool? || v.Number?)
    ensures ParseTrimmed(Canon(v) + rest) == Some((v, rest))
  {
    var text := Canon(v);
    Parts(text, rest);
    assert (text + rest)[0] == text[0];
    if v.Number? {
      NumberLengthPrefix(v.token, rest);
      assert IsNumberByte(v.token[0]);
    }
  }

  lemma ParseCanonString(s: string, rest: Bytes)
    ensures ParseTrimmed(StringText(s) + rest) == Some((String(s), rest))
  {
    var body := CharsText(s) + [QUOTE];
    Assoc([QUOTE], CharsText(s), [QUOTE]);
    Assoc([QUOTE], body, rest);
    Cons(QUOTE, body + rest);
    ParseCharsText(s, rest);
  }

  lemma {:induction false} ParseCanonArray(v: Value, rest: Bytes)
    requires v.Array?
    ensures ParseTrimmed(Canon(v) + rest) == Some((v, rest))
    decreases v, |v.items| + 2
  {
    var body := ItemsText(v, 0) + [CLOSE_BRACKET] + rest;
    assert Canon(v) + rest == [OPEN_BRACKET] + body by {
      Assoc4([OPEN_BRACKET], ItemsText(v, 0), [CLOSE_BRACKET], rest);
      Assoc(ItemsText(v, 0), [CLOSE_BRACKET], rest);
    }
    Cons(OPEN_BRACKET, body);
    if v.items == [] {
      Units([CLOSE_BRACKET]);
      Cons(CLOSE_BRACKET, rest);
    } else {
      CanonHead(v.items[0]);
      assert body[0] == Canon(v.items[0])[0];
      assert SkipSpace(body) == body;
      ParseCanonItems(v, 0, rest);
      Units(v.items);
    }
  }

  lemma ItemThenMore(t: Bytes, v: Value, next: Bytes, items: seq<Value>, rest: Bytes)
    requires ParseValue(t) == Some((v, [COMMA] + next)) && ParseItems(next) == Some((items, rest))
    ensures ParseItems(t) == Some(([v] + items, rest))
  {
    Cons(COMMA, next);
  }

  lemma LastItem(t: Bytes, v: Value, rest: Bytes)
    requires ParseValue(t) == Some((v, [CLOSE_BRACKET] + rest))
    ensures ParseItems(t) == Some(([v], rest))
  {
    Cons(CLOSE_BRACKET, rest);
  }

  lemma {:induction false} ParseCanonItems(v: Value, i: nat, rest: Bytes)
    requires v.Array? && i < |v.items|
    ensures ParseItems(ItemsText(v, i) + [CLOSE_BRACKET] + rest) == Some((v.items[i..], rest))
    decreases v, |v.items| - i
  {
    hide ParseItems, ParseValue, Canon;
    var t := ItemsText(v, i) + [CLOSE_BRACKET] + rest;
    var item, tail := v.items[i], [CLOSE_BRACKET] + rest;
    Assoc(ItemsText(v, i), [CLOSE_BRACKET], rest);
    HeadTail(v.items[i..]);
    if i + 1 < |v.items| {
      var more := ItemsText(v, i + 1);
      var next := more + [CLOSE_BRACKET] + rest;
      Assoc(more, [CLOSE_BRACKET], rest);
      Assoc(Canon(item), [COMMA] + more, tail);
      Assoc([COMMA], more, tail);
      ParseCanon(item, [COMMA] + next);
      ParseCanonItems(v, i + 1, rest);
      ItemThenMore(t, item, next, v.items[i + 1..], rest);
    } else {
      Units(Canon(item));
      assert v.items[i..] == [item];
      ParseCanon(item, tail);
      LastItem(t, item, rest);
    }
  }

  lemma {:induction false} ParseCanonObject(v: Value, rest: Bytes)
    requires v.Object?
    ensures ParseTrimmed(Canon(v) + rest) == Some((v, rest))
    decreases v, |OrderedKeys(v.fields.Keys)| + 2
  {
    hide Canon, MembersText, ParseObject, ParseMembers, OrderedKeys, KeyLess;
    var keys := OrderedKeys(v.fields.Keys);
    assert forall k | k in keys :: k in Elements(keys);
    var body := MembersText(v, keys) + [CLOSE_BRACE] + rest;
    ObjectBody(v, keys, rest);
    Cons(OPEN_BRACE, body);
    if keys == [] {
      ParseEmptyObject(v, rest);
    } else {
      ParseCanonMembers(v, keys, rest);
      OnlyAll(v.fields, keys);
      MembersFirst(v, keys, rest);
      ParseFilledObject(body, v.fields, rest);
    }
  }

  lemma ObjectBody(v: Value, keys: seq<string>, rest: Bytes)
    requires v.Object? && keys == OrderedKeys(v.fields.Keys) && forall k | k in keys :: k in v.fields
    ensures Canon(v) + rest == [OPEN_BRACE] + (MembersText(v, keys) + [CLOSE_BRACE] + rest)
  {
    hide MembersText, OrderedKeys, KeyLess;
    Assoc4([OPEN_BRACE], MembersText(v, keys), [CLOSE_BRACE], rest);
    Assoc(MembersText(v, keys), [CLOSE_BRACE], rest);
  }

  lemma ParseEmptyObject(v: Value, rest: Bytes)
    requires v.Object? && OrderedKeys(v.fields.Keys) == []
    ensures ParseObject(MembersText(v, []) + [CLOSE_BRACE] + rest) == Some((v, rest))
  {
    hide OrderedKeys, KeyLess, ParseMembers;
    EmptyElements([]);
    assert v.fields == map[];
    Units([CLOSE_BRACE]);
    Cons(CLOSE_BRACE, rest);
  }

  lemma ParseFilledObject(t: Bytes, fields: map<string, Value>, rest: Bytes)
    requires t != [] && t[0] == QUOTE && ParseMembers(t) == Some((fields, rest))
    ensures ParseObject(t) == Some((Object(fields), rest))
  {
    hide ParseMembers;
    assert SkipSpace(t) == t;
  }

  lemma MembersFirst(v: Value, keys: seq<string>, rest: Bytes)
    requires v.Object? && keys != [] && forall k | k in keys :: k in v.fields
    ensures (MembersText(v, keys) + [CLOSE_BRACE] + rest)[0] == QUOTE
  {
    assert MemberText(v, keys[0])[0] == QUOTE;
  }

  lemma OnlyAll(fields: map<string, Value>, keys: seq<string>)
    requires Elements(keys) == fields.Keys
    ensures Only(fields, keys) == fields
  {
    assert forall k :: k in fields <==> k in Elements(keys);
  }

  ghost function Only(fields: map<string, Value>, keys: seq<string>): map<string, Value>
  {
    map k | k in fields && k in keys :: fields[k]
  }

  lemma ParseNameText(k: string, rest: Bytes)
    ensures ParseName(StringText(k) + [COLON] + rest) == Some((k, rest))
  {
    var body := CharsText(k) + [QUOTE] + ([COLON] + rest);
    assert StringText(k) + [COLON] + rest == [QUOTE] + body by {
      Assoc(StringText(k), [COLON], rest);
      Assoc([QUOTE], CharsText(k), [QUOTE]);
      Assoc([QUOTE], CharsText(k) + [QUOTE], [COLON] + rest);
    }
    Cons(QUOTE, body);
    ParseCharsText(k, [COLON] + rest);
    Cons(COLON, rest);
  }

  lemma MemberThenMore(t: Bytes, k: string, mid: Bytes, v: Value, next: Bytes, fields: map<string, Value>, rest: Bytes)
    requires ParseName(t) == Some((k, mid)) && ParseValue(mid) == Some((v, [COMMA] + next))
    requires ParseMembers(next) == Some((fields, rest))
    ensures ParseMembers(t) == Some((map[k := v] + fields, rest))
  {
    Cons(COMMA, next);
  }

  lemma LastMember(t: Bytes, k: string, mid: Bytes, v: Value, rest: Bytes)
    requires ParseName(t) == Some((k, mid)) && ParseValue(mid) == Some((v, [CLOSE_BRACE] + rest))
    ensures ParseMembers(t) == Some((map[k := v], rest))
  {
    Cons(CLOSE_BRACE, rest);
  }

  /** Member text, then what follows the first member. */
  lemma MembersHead(v: Value, keys: seq<string>, rest: Bytes, next: Bytes)
    requires v.Object? && keys != [] && forall k | k in keys :: k in v.fields
    requires next == (if |keys| > 1 then [COMMA] + (MembersText(v, keys[1..]) + [CLOSE_BRACE] + rest)
                      else [CLOSE_BRACE] + rest)
    ensures MembersText(v, keys) + [CLOSE_BRACE] + rest
         == StringText(keys[0]) + [COLON] + (Canon(v.fields[keys[0]]) + next)
  {
    var name, value := StringText(keys[0]) + [COLON], Canon(v.fields[keys[0]]);
    var tail := [CLOSE_BRACE] + rest;
    Assoc(MembersText(v, keys), [CLOSE_BRACE], rest);
    if |keys| > 1 {
      var more := MembersText(v, keys[1..]);
      Assoc(more, [CLOSE_BRACE], rest);
      Assoc4(name, value, [COMMA] + more, tail);
      Assoc([COMMA], more, tail);
    } else {
      Units(name + value);
      Assoc(name, value, tail);
    }
  }

  lemma {:induction false} ParseCanonMembers(v: Value, keys: seq<string>, rest: Bytes)
    requires v.Object? && keys != [] && InOrder(keys) && forall k | k in keys :: k in v.fields
    ensures ParseMembers(MembersText(v, keys) + [CLOSE_BRACE] + rest) == Some((Only(v.fields, keys), rest))
    decreases v, |keys|
  {
    hide ParseMembers, ParseName, ParseValue, MembersText, Canon, OrderedKeys, Only;
    var t := MembersText(v, keys) + [CLOSE_BRACE] + rest;
    var k := keys[0];
    var x := v.fields[k];
    OnlyStep(v.fields, keys);
    if |keys| > 1 {
      var next := MembersText(v, keys[1..]) + [CLOSE_BRACE] + rest;
      MembersHead(v, keys, rest, [COMMA] + next);
      ParseNameText(k, Canon(x) + ([COMMA] + next));
      ParseCanon(x, [COMMA] + next);
      ParseCanonMembers(v, keys[1..], rest);
      MemberThenMore(t, k, Canon(x) + ([COMMA] + next), x, next, Only(v.fields, keys[1..]), rest);
    } else {
      MembersHead(v, keys, rest, [CLOSE_BRACE] + rest);
      ParseNameText(k, Canon(x) + ([CLOSE_BRACE] + rest));
      ParseCanon(x, [CLOSE_BRACE] + rest);
      LastMember(t, k, Canon(x) + ([CLOSE_BRACE] + rest), x, rest);
    }
  }

  lemma OnlyStep(fields: map<string, Value>, keys: seq<string>)
    requires keys != [] && InOrder(keys) && keys[0] in fields
    ensures Only(fields, keys) == map[keys[0] := fields[keys[0]]] + Only(fields, keys[1..])
    ensures |keys| == 1 ==> Only(fields, keys) == map[keys[0] := fields[keys[0]]]
  {
    TailElements(keys);
    assert keys[0] !in Elements(keys[1..]);
    assert keys == [keys[0]] + keys[1..];
  }

  /** Two values have the same canonical bytes only if they are the same value;
      members are a map, so this is equality up to member order. */
  lemma CanonInjective(v: Value, w: Value)
    requires Canon(v) == Canon(w)
    ensures v == w
  {
    ParseCanon(v, []);
    ParseCanon(w, []);
    assert Canon(v) + [] == Canon(v) && Canon(w) + [] == Canon(w);
  }
}
