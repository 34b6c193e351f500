/** Which text the canonical writer chooses: no UTF-8 text that reads as the value is shorter. */
module Shortest {
  import opened Wrappers
  import opened Seqs
  import opened Utf8
  import opened Utf16
  import opened Json
  import opened Canonicalize

  // ----- texts -----

  /** Well-formed runes from end to end (section 4 of RFC 3629). */
  predicate ValidUtf8(t: Bytes)
    decreases |t|
  {
    t == [] || (WellFormed(t) && ValidUtf8(t[Need(t[0])..]))
  }

  /** Every string is written as such a text. */
  lemma {:induction false} EncodedIsValid(s: string)
    ensures ValidUtf8(Utf8.Encode(s))
  {
    if s != "" {
      var first, rest := Utf8.EncodeRune(s[0]), Utf8.Encode(s[1..]);
      DecodeEncode(s[0], rest);
      EncodeWellFormed(s[0]);
      assert (first + rest)[0] == first[0];
      Parts(first, rest);
      EncodedIsValid(s[1..]);
    }
  }

  lemma AsciiStep(t: Bytes)
    requires ValidUtf8(t) && t != [] && t[0] < 0x80
    ensures ValidUtf8(t[1..])
  {
  }

  lemma {:induction false} AsciiDrop(t: Bytes, n: nat)
    requires ValidUtf8(t) && n <= |t| && forall i | 0 <= i < n :: t[i] < 0x80
    ensures ValidUtf8(t[n..])
    decreases n
  {
    if n == 0 {
      Units(t);
    } else {
      AsciiStep(t);
      AsciiDrop(t[1..], n - 1);
      assert t[1..][n - 1..] == t[n..];
    }
  }

  lemma {:induction false} ValidConcat(a: Bytes, b: Bytes)
    requires ValidUtf8(a) && ValidUtf8(b)
    ensures ValidUtf8(a + b)
    decreases |a|
  {
    if a == [] {
      Units(b);
    } else {
      var n := Need(a[0]);
      assert (a + b)[n..] == a[n..] + b;
      assert forall i | 0 <= i < n :: (a + b)[i] == a[i];
      ValidConcat(a[n..], b);
    }
  }

  lemma {:induction false} AsciiValid(a: Bytes)
    requires forall i | 0 <= i < |a| :: a[i] < 0x80
    ensures ValidUtf8(a)
  {
    if a != [] { AsciiValid(a[1..]); }
  }

  // ----- canonical text -----

  lemma CharTextValid(c: char)
    ensures ValidUtf8(CharText(c))
  {
    if c as int >= 0x80 {
      EncodeWellFormed(c);
      var t := Utf8.EncodeRune(c);
      assert t[Need(t[0])..] == [];
    } else {
      AsciiValid(CharText(c));
    }
  }

  lemma {:induction false} CharsTextValid(s: string)
    ensures ValidUtf8(CharsText(s))
  {
    hide CharText, ValidUtf8;
    if s == "" {
      AsciiValid([]);
    } else {
      CharTextValid(s[0]);
      CharsTextValid(s[1..]);
      ValidConcat(CharText(s[0]), CharsText(s[1..]));
    }
  }

  lemma StringTextValid(s: string)
    ensures ValidUtf8(StringText(s))
  {
    hide CharsText, ValidUtf8;
    CharsTextValid(s);
    AsciiValid([QUOTE]);
    ValidConcat([QUOTE], CharsText(s));
    ValidConcat([QUOTE] + CharsText(s), [QUOTE]);
  }

  lemma {:induction false} CanonValid(v: Value)
    ensures ValidUtf8(Canon(v))
    decreases v, 1
  {
    hide ValidUtf8, StringText, ItemsText, MembersText, OrderedKeys;
    match v
    case Null => AsciiValid(NULL_TEXT);
    case Bool(b) => AsciiValid(if b then TRUE_TEXT else FALSE_TEXT);
    case Number(token) => AsciiValid(token);
    case String(s) => StringTextValid(s);
    case Array(_) =>
      ItemsValid(v, 0);
      Between(OPEN_BRACKET, ItemsText(v, 0), CLOSE_BRACKET);
    case Object(_) =>
      var keys := OrderedKeys(v.fields.Keys);
      assert forall k | k in keys :: k in Elements(keys);
      MembersValid(v, keys);
      Between(OPEN_BRACE, MembersText(v, keys), CLOSE_BRACE);
  }

  lemma Between(a: Byte, t: Bytes, b: Byte)
    requires a < 0x80 && b < 0x80 && ValidUtf8(t)
    ensures ValidUtf8([a] + t + [b])
  {
    hide ValidUtf8;
    AsciiValid([a]);
    AsciiValid([b]);
    ValidConcat([a], t);
    ValidConcat([a] + t, [b]);
  }

  lemma {:induction false} ItemsValid(v: Value, i: nat)
    requires v.Array? && i <= |v.items|
    ensures ValidUtf8(ItemsText(v, i))
    decreases v, 0, |v.items| - i
  {
    hide ValidUtf8, Canon;
    AsciiValid([]);
    if i < |v.items| {
      CanonValid(v.items[i]);
      if i + 1 < |v.items| {
        ItemsValid(v, i + 1);
        AsciiValid([COMMA]);
        ValidConcat([COMMA], ItemsText(v, i + 1));
        ValidConcat(Canon(v.items[i]), [COMMA] + ItemsText(v, i + 1));
      } else {
        Units(Canon(v.items[i]));
      }
    }
  }

  lemma {:induction false} MembersValid(v: Value, keys: seq<string>)
    requires v.Object? && forall k | k in keys :: k in v.fields
    ensures ValidUtf8(MembersText(v, keys))
    decreases v, 0, |keys|
  {
    hide ValidUtf8, Canon, StringText;
    AsciiValid([]);
    if keys != [] {
      var k := keys[0];
      CanonValid(v.fields[k]);
      StringTextValid(k);
      AsciiValid([COLON]);
      AsciiValid([COMMA]);
      ValidConcat(StringText(k), [COLON]);
      ValidConcat(StringText(k) + [COLON], Canon(v.fields[k]));
      if |keys| > 1 {
        MembersValid(v, keys[1..]);
        ValidConcat([COMMA], MembersText(v, keys[1..]));
        ValidConcat(MemberText(v, k), [COMMA] + MembersText(v, keys[1..]));
      } else {
        Units(MemberText(v, k));
      }
    }
  }

  // ----- characters -----

  /** A rune is written in as many bytes as it was read from. */
  lemma RuneWidth(t: Bytes)
    requires WellFormed(t)
    ensures DecodeRune(t).1 == Need(t[0]) && |Utf8.EncodeRune(DecodeRune(t).0)| == Need(t[0])
  {
  }

  lemma UnicodeShort(t: Bytes)
    requires ValidUtf8(t) && ParseUnicode(t).Some?
    ensures var rest := ParseUnicode(t).value.1; ValidUtf8(rest) && |rest| + 4 <= |t|
  {
    hide ValidUtf8, ReadHex4, PairChar;
    AsciiDrop(t, 4);
    if ReadLow(t[4..]) >= 0 {
      var u := t[4..];
      assert forall i | 2 <= i < 6 :: u[i] == u[2..][i - 2];
      AsciiDrop(u, 6);
      assert u[6..] == t[10..];
    }
  }

  lemma EscapeShort(t: Bytes)
    requires ValidUtf8(t) && ParseEscape(t).Some?
    ensures var (c, rest) := ParseEscape(t).value; ValidUtf8(rest) && |CharText(c)| <= 1 + |t| - |rest|
  {
    hide ValidUtf8, ParseUnicode, CharText, ShortEscape;
    AsciiStep(t);
    if t[0] == LETTER_U {
      UnicodeShort(t[1..]);
      CharTextSize(ParseUnicode(t[1..]).value.0);
    } else {
      ShortEscapeSize(t[0]);
    }
  }

  lemma CharTextSize(c: char)
    ensures |CharText(c)| <= 6
  {
  }

  lemma ShortEscapeSize(b: Byte)
    requires ShortEscape(b).Some?
    ensures |CharText(ShortEscape(b).value)| <= 2
  {
    hide UnicodeEscape;
  }

  /** No way to write a character is shorter than the canonical one. */
  lemma CharShort(t: Bytes)
    requires ValidUtf8(t) && t != [] && t[0] >= 0x20 && t[0] != QUOTE && ParseChar(t).Some?
    ensures var (c, rest) := ParseChar(t).value; ValidUtf8(rest) && |CharText(c)| <= |t| - |rest|
  {
    hide ParseEscape, Utf8.EncodeRune;
    if t[0] == BACKSLASH {
      AsciiStep(t);
      EscapeShort(t[1..]);
    } else {
      RuneWidth(t);
      RuneFirst(t);
    }
  }

  /** An ASCII rune is its byte. */
  lemma RuneFirst(t: Bytes)
    requires WellFormed(t)
    ensures DecodeRune(t).0 as int < 0x80 ==> DecodeRune(t).0 as int == t[0] as int
  {
  }

  lemma {:induction false} CharsShort(t: Bytes)
    requires ValidUtf8(t) && ParseChars(t).Some?
    ensures var (s, rest) := ParseChars(t).value; ValidUtf8(rest) && |CharsText(s)| + 1 <= |t| - |rest|
    decreases |t|
  {
    hide ValidUtf8, ParseChar, CharText;
    if t[0] == QUOTE {
      AsciiStep(t);
    } else {
      CharShort(t);
      CharsShort(ParseChar(t).value.1);
    }
  }

  // ----- sizes -----

  function ItemsSize(items: seq<Value>): nat
  {
    if items == [] then 0 else |Canon(items[0])| + 1 + ItemsSize(items[1..])
  }

  lemma {:induction false} ItemsTextSize(v: Value, i: nat)
    requires v.Array? && i <= |v.items|
    ensures i < |v.items| ==> |ItemsText(v, i)| + 1 == ItemsSize(v.items[i..])
    decreases |v.items| - i
  {
    hide Canon;
    if i < |v.items| {
      ItemsTextSize(v, i + 1);
      HeadTail(v.items[i..]);
    }
  }

  lemma ArraySize(items: seq<Value>)
    ensures |Canon(Array(items))| == if items == [] then 2 else 1 + ItemsSize(items)
  {
    hide ItemsText;
    var v := Array(items);
    ItemsTextSize(v, 0);
    Units(items);
    ArrayText(v);
  }

  lemma ArrayText(v: Value)
    requires v.Array?
    ensures |Canon(v)| == 2 + |ItemsText(v, 0)| && (v.items == [] ==> ItemsText(v, 0) == [])
  {
  }

  function MemberSize(k: string, x: Value): nat
  {
    |StringText(k)| + 1 + |Canon(x)|
  }

  /** The size of the members named, each with the comma or brace after it. */
  function KeysSize(fields: map<string, Value>, keys: seq<string>): nat
    requires forall k | k in keys :: k in fields
  {
    if keys == [] then 0 else MemberSize(keys[0], fields[keys[0]]) + 1 + KeysSize(fields, keys[1..])
  }

  lemma {:induction false} MembersTextSize(v: Value, keys: seq<string>)
    requires v.Object? && forall k | k in keys :: k in v.fields
    ensures keys != [] ==> |MembersText(v, keys)| + 1 == KeysSize(v.fields, keys)
    ensures keys == [] ==> MembersText(v, keys) == []
  {
    hide Canon, StringText;
    if keys != [] { MembersTextSize(v, keys[1..]); }
  }

  ghost function FieldsSize(fields: map<string, Value>): nat
  {
    var keys := OrderedKeys(fields.Keys);
    assert forall k | k in keys :: k in Elements(keys);
    KeysSize(fields, keys)
  }

  lemma ObjectSize(fields: map<string, Value>)
    ensures |Canon(Object(fields))| == if fields == map[] then 2 else 1 + FieldsSize(fields)
  {
    hide KeyLess, MembersText, KeysSize, OrderedKeys;
    var v, keys := Object(fields), OrderedKeys(fields.Keys);
    assert forall k | k in keys :: k in Elements(keys);
    EmptyElements(keys);
    assert fields == map[] <==> fields.Keys == {};
    MembersTextSize(v, keys);
    ObjectText(v);
  }

  lemma ObjectText(v: Value)
    requires v.Object?
    ensures var keys := OrderedKeys(v.fields.Keys);
            (forall k | k in keys :: k in v.fields) && |Canon(v)| == 2 + |MembersText(v, keys)|
  {
    hide KeyLess, MembersText, OrderedKeys;
    var keys := OrderedKeys(v.fields.Keys);
    assert forall k | k in keys :: k in Elements(keys);
  }

  lemma {:induction false} KeysSizeInsert(fields: map<string, Value>, xs: seq<string>, k: string, ys: seq<string>)
    requires k in fields && (forall x | x in xs :: x in fields) && forall y | y in ys :: y in fields
    ensures (forall x | x in xs + [k] + ys :: x in fields) && forall x | x in xs + ys :: x in fields
    ensures KeysSize(fields, xs + [k] + ys) == MemberSize(k, fields[k]) + 1 + KeysSize(fields, xs + ys)
  {
    hide MemberSize;
    if xs == [] {
      assert xs + [k] + ys == [k] + ys && xs + ys == ys;
      Cons(k, ys);
    } else {
      assert xs + [k] + ys == [xs[0]] + (xs[1..] + [k] + ys);
      assert xs + ys == [xs[0]] + (xs[1..] + ys);
      KeysSizeInsert(fields, xs[1..], k, ys);
    }
  }

  lemma {:induction false} KeysSizeSame(f: map<string, Value>, g: map<string, Value>, keys: seq<string>)
    requires forall k | k in keys :: k in f && k in g && f[k] == g[k]
    ensures KeysSize(f, keys) == KeysSize(g, keys)
  {
    hide MemberSize;
    if keys != [] { KeysSizeSame(f, g, keys[1..]); }
  }

  /** A list in order stays so without one of its elements. */
  lemma Without(keys: seq<string>, i: nat)
    requires InOrder(keys) && i < |keys|
    ensures var others := keys[..i] + keys[i + 1..];
            InOrder(others) && Elements(others) == Elements(keys) - {keys[i]}
  {
    hide KeyLess;
    var others := keys[..i] + keys[i + 1..];
    assert forall j | 0 <= j < |others| :: others[j] == keys[if j < i then j else j + 1];
    KeyOrderTotal(keys[i], keys[i]);
    forall k | k in keys && k != keys[i] ensures k in others {
      var j :| 0 <= j < |keys| && keys[j] == k;
      assert others[if j < i then j else j - 1] == k;
    }
    forall k | k in others ensures k in keys && k != keys[i] {
      var j :| 0 <= j < |others| && others[j] == k;
    }
  }

  /** One more member adds its own size, or nothing if a later one has its name. */
  lemma FieldsGrow(fields: map<string, Value>, k: string, x: Value)
    ensures FieldsSize(map[k := x] + fields) <= MemberSize(k, x) + 1 + FieldsSize(fields)
  {
    hide KeyLess, MemberSize, OrderedKeys, KeysSize;
    var more := map[k := x] + fields;
    if k in fields {
      assert more == fields;
    } else {
      var keys := OrderedKeys(more.Keys);
      var i := KeyPlace(fields, k, x);
      var others := keys[..i] + keys[i + 1..];
      assert keys == keys[..i] + [k] + keys[i + 1..];
      KeysSizeInsert(more, keys[..i], k, keys[i + 1..]);
      KeysSizeSame(more, fields, others);
    }
  }

  /** Where a new key stands; the others are in the order they had. */
  lemma KeyPlace(fields: map<string, Value>, k: string, x: Value) returns (i: nat)
    requires k !in fields
    ensures var more := map[k := x] + fields; var keys := OrderedKeys(more.Keys);
            (forall y | y in keys :: y in more) && i < |keys| && keys[i] == k &&
            keys[..i] + keys[i + 1..] == OrderedKeys(fields.Keys) &&
            forall y | y in keys[..i] + keys[i + 1..] :: y in fields && more[y] == fields[y]
  {
    hide KeyLess, OrderedKeys;
    var more := map[k := x] + fields;
    var keys := OrderedKeys(more.Keys);
    assert k in Elements(keys) && forall y | y in keys :: y in Elements(keys);
    i :| 0 <= i < |keys| && keys[i] == k;
    var others := keys[..i] + keys[i + 1..];
    Without(keys, i);
    assert more.Keys - {k} == fields.Keys;
    OrderUnique(others, OrderedKeys(fields.Keys));
    assert forall y | y in others :: y in Elements(others);
  }

  lemma FieldsOne(k: string, x: Value)
    ensures FieldsSize(map[k := x]) <= MemberSize(k, x) + 1
  {
    hide KeyLess, MemberSize, OrderedKeys;
    FieldsGrow(map[], k, x);
    assert map[k := x] + map[] == map[k := x];
    var none: map<string, Value> := map[];
    EmptyElements(OrderedKeys(none.Keys));
  }

  // ----- values -----

  lemma {:induction false} SpaceShort(t: Bytes)
    requires ValidUtf8(t)
    ensures ValidUtf8(SkipSpace(t))
  {
    hide ValidUtf8;
    if t != [] && IsSpace(t[0]) {
      AsciiStep(t);
      SpaceShort(t[1..]);
    }
  }

  lemma ScalarShort(t: Bytes)
    requires ValidUtf8(t) && ParseScalar(t).Some?
    ensures var (v, rest) := ParseScalar(t).value; ValidUtf8(rest) && |Canon(v)| <= |t| - |rest|
  {
    hide ValidUtf8, NumberLength;
    var n := if NULL_TEXT <= t || TRUE_TEXT <= t then 4 else if FALSE_TEXT <= t then 5 else NumberLength(t);
    assert forall i | 0 <= i < n :: t[i] < 0x80;
    AsciiDrop(t, n);
  }

  lemma {:induction false} TrimmedShort(t: Bytes)
    requires ValidUtf8(t) && ParseTrimmed(t).Some?
    ensures var (v, rest) := ParseTrimmed(t).value; ValidUtf8(rest) && |Canon(v)| <= |t| - |rest|
    decreases |t|, 0
  {
    hide ValidUtf8, ParseScalar, ParseArray, ParseObject;
    if t[0] == QUOTE || t[0] == OPEN_BRACKET || t[0] == OPEN_BRACE {
      AsciiStep(t);
      if t[0] == QUOTE {
        CharsShort(t[1..]);
        StringSize(ParseChars(t[1..]).value.0);
      } else if t[0] == OPEN_BRACKET {
        ArrayShort(t[1..]);
      } else {
        ObjectShort(t[1..]);
      }
    } else {
      ScalarShort(t);
    }
  }

  lemma StringSize(s: string)
    ensures |StringText(s)| == |CharsText(s)| + 2 && Canon(String(s)) == StringText(s)
  {
  }

  /** No text that opens with a value is shorter up to its end than the value's canonical text. */
  lemma {:induction false} ValueShort(t: Bytes)
    requires ValidUtf8(t) && ParseValue(t).Some?
    ensures var (v, rest) := ParseValue(t).value; ValidUtf8(rest) && |Canon(v)| <= |t| - |rest|
    decreases |t|, 1
  {
    hide ValidUtf8, ParseTrimmed, Canon;
    SpaceShort(t);
    TrimmedShort(SkipSpace(t));
  }

  lemma {:induction false} ArrayShort(t: Bytes)
    requires ValidUtf8(t) && ParseArray(t).Some?
    ensures var (v, rest) := ParseArray(t).value; ValidUtf8(rest) && |Canon(v)| <= 1 + |t| - |rest|
    decreases |t|, 3
  {
    hide ValidUtf8, ParseItems, Canon;
    SpaceShort(t);
    var u := SkipSpace(t);
    if u != [] && u[0] == CLOSE_BRACKET {
      AsciiStep(u);
      ArraySize([]);
    } else {
      ItemsShort(t);
      ArraySize(ParseItems(t).value.0);
    }
  }

  lemma {:induction false} ItemsShort(t: Bytes)
    requires ValidUtf8(t) && ParseItems(t).Some?
    ensures var (items, rest) := ParseItems(t).value;
            ValidUtf8(rest) && items != [] && ItemsSize(items) <= |t| - |rest|
    decreases |t|, 2
  {
    hide ValidUtf8, ParseValue, Canon;
    ValueShort(t);
    var (v, rest) := ParseValue(t).value;
    SpaceShort(rest);
    var u := SkipSpace(rest);
    AsciiStep(u);
    if u[0] == COMMA {
      ItemsShort(u[1..]);
      Cons(v, ParseItems(u[1..]).value.0);
    } else {
      assert [v][1..] == [];
    }
  }

  lemma {:induction false} ObjectShort(t: Bytes)
    requires ValidUtf8(t) && ParseObject(t).Some?
    ensures var (v, rest) := ParseObject(t).value; ValidUtf8(rest) && |Canon(v)| <= 1 + |t| - |rest|
    decreases |t|, 3
  {
    hide ValidUtf8, ParseMembers, Canon, FieldsSize;
    SpaceShort(t);
    var u := SkipSpace(t);
    if u != [] && u[0] == CLOSE_BRACE {
      AsciiStep(u);
      ObjectSize(map[]);
    } else {
      MembersShort(t);
      ObjectSize(ParseMembers(t).value.0);
    }
  }

  lemma NameShort(t: Bytes)
    requires ValidUtf8(t) && ParseName(t).Some?
    ensures var (k, rest) := ParseName(t).value; ValidUtf8(rest) && |StringText(k)| + 1 <= |t| - |rest|
  {
    hide ValidUtf8, ParseChars, StringText, CharsText;
    SpaceShort(t);
    var u := SkipSpace(t);
    AsciiStep(u);
    CharsShort(u[1..]);
    var (k, rest) := ParseChars(u[1..]).value;
    StringSize(k);
    SpaceShort(rest);
    AsciiStep(SkipSpace(rest));
  }

  lemma {:induction false} MembersShort(t: Bytes)
    requires ValidUtf8(t) && ParseMembers(t).Some?
    ensures var (fields, rest) := ParseMembers(t).value;
            ValidUtf8(rest) && fields != map[] && FieldsSize(fields) <= |t| - |rest|
    decreases |t|, 2
  {
    hide ValidUtf8, ParseValue, ParseName, Canon, FieldsSize, StringText;
    NameShort(t);
    var (k, afterName) := ParseName(t).value;
    ValueShort(afterName);
    var (x, rest) := ParseValue(afterName).value;
    SpaceShort(rest);
    var u := SkipSpace(rest);
    AsciiStep(u);
    if u[0] == COMMA {
      MembersShort(u[1..]);
      FieldsGrow(ParseMembers(u[1..]).value.0, k, x);
    } else {
      FieldsOne(k, x);
    }
    assert k in ParseMembers(t).value.0;
  }

  /** The canonical text of a value is itself such a text, and none that reads as the value is
      shorter: no space, no escape that is not needed, and no longer one than is needed. */
  lemma CanonShortest(v: Value, t: Bytes)
    requires ValidUtf8(t) && ParseValue(t).Some? && ParseValue(t).value.0 == v
    ensures |Canon(v)| <= |t| && ValidUtf8(Canon(v)) && ParseValue(Canon(v)) == Some((v, []))
  {
    hide ValidUtf8, ParseValue, Canon;
    ValueShort(t);
    CanonValid(v);
    ParseCanon(v, []);
    Units(Canon(v));
  }
}
