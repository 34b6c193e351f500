/** JSON values and a reader for JSON text (RFC 8259), the reference the canonical
    writer and the escaping writer are compared with.
    A number is represented by the token `serializeNumber` prints for it. */
module Json {
  import opened Wrappers
  import opened Utf8

  predicate IsNumberByte(b: Byte)
  {
    48 <= b <= 57 || b == 43 || b == 45 || b == 46 || b == 101
  }

  type NumberToken = t: Bytes | t != [] && forall i | 0 <= i < |t| :: IsNumberByte(t[i])
    witness [48]

  datatype Value =
    | Null
    | Bool(b: bool)
    | Number(token: NumberToken)
    | String(s: string)
    | Array(items: seq<Value>)
    | Object(fields: map<string, Value>)

  function Get(m: map<string, Value>, k: string): Option<Value>
  {
    if k in m then Some(m[k]) else None
  }

  const QUOTE: Byte := 34
  const COMMA: Byte := 44
  const COLON: Byte := 58
  const BACKSLASH: Byte := 92
  const OPEN_BRACKET: Byte := 91
  const CLOSE_BRACKET: Byte := 93
  const OPEN_BRACE: Byte := 123
  const CLOSE_BRACE: Byte := 125
  const LETTER_U: Byte := 117

  const NULL_TEXT: Bytes := [110, 117, 108, 108]
  const TRUE_TEXT: Bytes := [116, 114, 117, 101]
  const FALSE_TEXT: Bytes := [102, 97, 108, 115, 101]

  /** What a reader returns: a value and the text after it. */
  type Parsed<T> = Option<(T, Bytes)>

  // ----- strings -----

  function HexValue(b: Byte): (v: int)
    ensures -1 <= v < 16
  {
    if 48 <= b <= 57 then b as int - 48
    else if 97 <= b <= 102 then b as int - 87
    else if 65 <= b <= 70 then b as int - 55
    else -1
  }

  /** The value of the four hex digits `t` opens with, or -1. */
  function ReadHex4(t: Bytes): (v: int)
    ensures -1 <= v < 0x10000
    ensures v >= 0 ==> |t| >= 4 && forall i | 0 <= i < 4 :: t[i] < 0x80
  {
    if |t| < 4 || HexValue(t[0]) < 0 || HexValue(t[1]) < 0 || HexValue(t[2]) < 0 || HexValue(t[3]) < 0 then -1
    else HexValue(t[0]) * 4096 + HexValue(t[1]) * 256 + HexValue(t[2]) * 16 + HexValue(t[3])
  }

  predicate IsHigh(v: int) { 0xD800 <= v < 0xDC00 }
  predicate IsLow(v: int) { 0xDC00 <= v < 0xE000 }

  /** The low surrogate a `\uXXXX` at the start of `t` spells, or -1. */
  function ReadLow(t: Bytes): (v: int)
    ensures v >= 0 ==> IsLow(v) && |t| >= 6 && ReadHex4(t[2..]) == v
  {
    if |t| >= 6 && t[0] == BACKSLASH && t[1] == LETTER_U && IsLow(ReadHex4(t[2..])) then ReadHex4(t[2..]) else -1
  }

  /** The character a one-letter escape stands for. */
  function ShortEscape(b: Byte): (r: Option<char>)
    ensures r.Some? ==> b < 0x80
  {
    if b == QUOTE then Some('"')
    else if b == BACKSLASH then Some('\\')
    else if b == 47 then Some('/')
    else if b == 98 then Some('\U{0008}')
    else if b == 102 then Some('\U{000C}')
    else if b == 110 then Some('\n')
    else if b == 114 then Some('\r')
    else if b == 116 then Some('\t')
    else None
  }

  /** An escape, after its backslash. */
  function ParseEscape(t: Bytes): (r: Parsed<char>)
    ensures r.Some? ==> |r.value.1| < |t|
  {
    if t == [] then None
    else if t[0] == LETTER_U then ParseUnicode(t[1..])
    else
      match ShortEscape(t[0])
      case None => None
      case Some(c) => Some((c, t[1..]))
  }

  /** The character a surrogate pair stands for. */
  function PairChar(high: int, low: int): char
    requires IsHigh(high) && IsLow(low)
  {
    (0x10000 + (high - 0xD800) * 0x400 + (low - 0xDC00)) as char
  }

  /** A `\uXXXX` escape after its `u`. An unpaired surrogate reads as U+FFFD. */
  function ParseUnicode(t: Bytes): (r: Parsed<char>)
    ensures r.Some? ==> |r.value.1| < |t|
  {
    var v := ReadHex4(t);
    if v < 0 then None
    else if IsHigh(v) && ReadLow(t[4..]) >= 0 then Some((PairChar(v, ReadLow(t[4..])), t[10..]))
    else if IsHigh(v) || IsLow(v) then Some((RUNE_ERROR, t[4..]))
    else Some((v as char, t[4..]))
  }

  /** The characters of a string, after its opening quote and up to its closing one. */
  function ParseChars(t: Bytes): (r: Parsed<string>)
    ensures r.Some? ==> |r.value.1| < |t|
    decreases |t|
  {
    if t == [] then None
    else if t[0] == QUOTE then Some(("", t[1..]))
    else if t[0] < 0x20 then None
    else
      match ParseChar(t)
      case None => None
      case Some((c, rest)) =>
        match ParseChars(rest)
        case None => None
        case Some((s, rest')) => Some(([c] + s, rest'))
  }

  /** One character of a string: an escape or a raw rune. */
  function ParseChar(t: Bytes): (r: Parsed<char>)
    requires t != []
    ensures r.Some? ==> |r.value.1| < |t|
  {
    if t[0] == BACKSLASH then ParseEscape(t[1..])
    else var (c, n) := DecodeRune(t); Some((c, t[n..]))
  }

  // ----- values -----

  predicate IsSpace(b: Byte) { b == 32 || b == 9 || b == 10 || b == 13 }

  function SkipSpace(t: Bytes): (r: Bytes)
    ensures |r| <= |t| && (r != [] ==> !IsSpace(r[0]))
  {
    if t != [] && IsSpace(t[0]) then SkipSpace(t[1..]) else t
  }

  /** How many number bytes `t` opens with. */
  function NumberLength(t: Bytes): (n: nat)
    ensures n <= |t| && forall i | 0 <= i < n :: IsNumberByte(t[i])
    ensures n < |t| ==> !IsNumberByte(t[n])
  {
    if t != [] && IsNumberByte(t[0]) then 1 + NumberLength(t[1..]) else 0
  }

  function ParseValue(t: Bytes): (r: Parsed<Value>)
    ensures r.Some? ==> |r.value.1| < |t|
    decreases |t|, 1
  {
    ParseTrimmed(SkipSpace(t))
  }

  function ParseTrimmed(t: Bytes): (r: Parsed<Value>)
    ensures r.Some? ==> |r.value.1| < |t|
    decreases |t|, 0
  {
    if t == [] then None
    else if t[0] == QUOTE then ParseString(t[1..])
    else if t[0] == OPEN_BRACKET then ParseArray(t[1..])
    else if t[0] == OPEN_BRACE then ParseObject(t[1..])
    else ParseScalar(t)
  }

  function ParseString(t: Bytes): (r: Parsed<Value>)
    ensures r.Some? ==> |r.value.1| < |t|
  {
    match ParseChars(t)
    case None => None
    case Some((s, rest)) => Some((String(s), rest))
  }

  function ParseScalar(t: Bytes): (r: Parsed<Value>)
    ensures r.Some? ==> |r.value.1| < |t|
  {
    if NULL_TEXT <= t then Some((Null, t[4..]))
    else if TRUE_TEXT <= t then Some((Bool(true), t[4..]))
    else if FALSE_TEXT <= t then Some((Bool(false), t[5..]))
    else
      var n := NumberLength(t);
      if n == 0 then None else Some((Number(t[..n]), t[n..]))
  }

  /** An array after its opening bracket. */
  function ParseArray(t: Bytes): (r: Parsed<Value>)
    ensures r.Some? ==> |r.value.1| < |t|
    decreases |t|, 3
  {
    var u := SkipSpace(t);
    if u != [] && u[0] == CLOSE_BRACKET then Some((Array([]), u[1..]))
    else
      match ParseItems(t)
      case None => None
      case Some((items, rest)) => Some((Array(items), rest))
  }

  /** An object after its opening brace. */
  function ParseObject(t: Bytes): (r: Parsed<Value>)
    ensures r.Some? ==> |r.value.1| < |t|
    decreases |t|, 3
  {
    var u := SkipSpace(t);
    if u != [] && u[0] == CLOSE_BRACE then Some((Object(map[]), u[1..]))
    else
      match ParseMembers(t)
      case None => None
      case Some((fields, rest)) => Some((Object(fields), rest))
  }

  /** One or more array items, up to the closing bracket. */
  function ParseItems(t: Bytes): (r: Parsed<seq<Value>>)
    ensures r.Some? ==> |r.value.1| < |t|
    decreases |t|, 2
  {
    match ParseValue(t)
    case None => None
    case Some((v, rest)) =>
      var u := SkipSpace(rest);
      if u != [] && u[0] == COMMA then
        match ParseItems(u[1..])
        case None => None
        case Some((items, rest')) => Some(([v] + items, rest'))
      else if u != [] && u[0] == CLOSE_BRACKET then Some(([v], u[1..]))
      else None
  }

  /** A member name and its colon. */
  function ParseName(t: Bytes): (r: Parsed<string>)
    ensures r.Some? ==> |r.value.1| < |t|
  {
    var u := SkipSpace(t);
    if u == [] || u[0] != QUOTE then None
    else
      match ParseChars(u[1..])
      case None => None
      case Some((k, rest)) =>
        var w := SkipSpace(rest);
        if w != [] && w[0] == COLON then Some((k, w[1..])) else None
  }

  /** One or more object members, up to the closing brace; a repeated name keeps its last value. */
  function ParseMembers(t: Bytes): (r: Parsed<map<string, Value>>)
    ensures r.Some? ==> |r.value.1| < |t|
    decreases |t|, 2
  {
    match ParseName(t)
    case None => None
    case Some((k, afterName)) =>
      match ParseValue(afterName)
      case None => None
      case Some((v, rest)) =>
        var u := SkipSpace(rest);
        if u != [] && u[0] == COMMA then
          match ParseMembers(u[1..])
          case None => None
          case Some((fields, rest')) => Some((map[k := v] + fields, rest'))
        else if u != [] && u[0] == CLOSE_BRACE then Some((map[k := v], u[1..]))
        else None
  }
}
