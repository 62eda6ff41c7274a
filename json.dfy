/** The JSON values the route handlers read from request bodies, JavaScript
    truthiness on them, and `JSON.stringify` of a string together with the
    decoder of a JSON string literal. */
module Json {
  import opened Wrappers
  import opened Strings

  /** A parsed JSON value; `Missing` is a property that is not there
      (`undefined`). Numbers are integers here. */
  datatype JsonValue =
    | Missing
    | Null
    | Bool(b: bool)
    | Num(n: int)
    | Str(s: string)
    | Arr(items: seq<JsonValue>)
    | Obj(fields: map<string, JsonValue>)

  /** JavaScript truthiness (`!!v`). */
  predicate Truthy(v: JsonValue) {
    match v
    case Missing => false
    case Null => false
    case Bool(b) => b
    case Num(n) => n != 0
    case Str(s) => s != ""
    case Arr(_) => true
    case Obj(_) => true
  }

  /** Property access `v.key`: `None` when it throws (on `null` or
      `undefined`), `Missing` when the property is absent. */
  function Field(v: JsonValue, key: string): (r: Option<JsonValue>)
    ensures r.None? <==> (v.Missing? || v.Null?)
  {
    match v
    case Missing => None
    case Null => None
    case Obj(m) => Some(if key in m then m[key] else Missing)
    case _ => Some(Missing)
  }

  /** Optional chaining `v?.key`: `undefined` on `null` or `undefined`. */
  function OptField(v: JsonValue, key: string): (r: JsonValue)
    ensures v.Obj? && key in v.fields ==> r == v.fields[key]
    ensures !v.Obj? || key !in v.fields ==> r == Missing
  {
    if v.Missing? || v.Null? then Missing else Field(v, key).value
  }

  /** Element access `v[i]`: `None` when it throws, `Missing` where there
      is no such element; a string gives its `i`-th character and an object
      its property named `i`. */
  function Index(v: JsonValue, i: nat): (r: Option<JsonValue>)
    ensures r.None? <==> (v.Missing? || v.Null?)
    ensures v.Arr? && i < |v.items| ==> r == Some(v.items[i])
  {
    match v
    case Missing => None
    case Null => None
    case Arr(items) => Some(if i < |items| then items[i] else Missing)
    case Str(s) => Some(if i < |s| then Str([s[i]]) else Missing)
    case Obj(m) => Some(if NatToString(i) in m then m[NatToString(i)] else Missing)
    case _ => Some(Missing)
  }

  /** `a || b`. */
  function OrJs(a: JsonValue, b: JsonValue): (r: JsonValue)
    ensures Truthy(a) ==> r == a
    ensures !Truthy(a) ==> r == b
  {
    if Truthy(a) then a else b
  }

  /** `String(v)`: arrays join their elements with commas, `null` and
      `undefined` elements giving nothing, and every object reads
      `[object Object]`. */
  function JsString(v: JsonValue): (r: string)
    ensures v.Str? ==> r == v.s
  {
    match v
    case Missing => "undefined"
    case Null => "null"
    case Bool(b) => if b then "true" else "false"
    case Num(n) => IntToString(n)
    case Str(s) => s
    case Obj(_) => "[object Object]"
    case Arr(items) =>
      Join(seq(|items|, i requires 0 <= i < |items| =>
        if items[i].Missing? || items[i].Null? then "" else JsString(items[i])), ",")
  }

  /** The string value of a property, when it is a string. */
  function StrOf(v: JsonValue): Option<string> {
    if v.Str? then Some(v.s) else None
  }

  /** One lower-case hexadecimal digit. */
  function HexDigit(d: nat): (c: char)
    requires d < 16
    ensures HexValue(c) == Some(d)
  {
    if d < 10 then ('0' as int + d) as char else ('a' as int + d - 10) as char
  }

  /** The value of a hexadecimal digit of either case. */
  function HexValue(c: char): (r: Option<nat>)
    ensures r.Some? ==> r.value < 16
  {
    if '0' <= c <= '9' then Some(c as int - '0' as int)
    else if 'a' <= c <= 'f' then Some(c as int - 'a' as int + 10)
    else if 'A' <= c <= 'F' then Some(c as int - 'A' as int + 10)
    else None
  }

  /** How `JSON.stringify` writes one character inside a string literal. */
  function EscapeChar(c: char): (r: string)
    ensures |r| >= 1
    ensures '\n' !in r && r[0] != '"'
    ensures (c as int) >= 0x20 && c != '"' && c != '\\' ==> r == [c]
  {
    if c == '"' then ['\\', '"']
    else if c == '\\' then ['\\', '\\']
    else if c == '\U{8}' then ['\\', 'b']
    else if c == '\U{C}' then ['\\', 'f']
    else if c == '\n' then ['\\', 'n']
    else if c == '\r' then ['\\', 'r']
    else if c == '\t' then ['\\', 't']
    else if (c as int) < 0x20 then ['\\', 'u', '0', '0', HexDigit(c as int / 16), HexDigit(c as int % 16)]
    else [c]
  }

  function EscapeAll(s: string): (r: string)
    ensures '\n' !in r
  {
    if s == [] then [] else EscapeChar(s[0]) + EscapeAll(s[1..])
  }

  /** `JSON.stringify(s)` for a string `s`. */
  function Quote(s: string): (r: string)
    ensures |r| >= 2 && r[0] == '"' && r[|r| - 1] == '"'
    ensures '\n' !in r
  {
    ['"'] + EscapeAll(s) + ['"']
  }

  /** Decodes the inside of a JSON string literal; `None` when it is not
      well formed (a bare quote or control character, a bad escape).
      Escapes of UTF-16 surrogate halves are not decoded. */
  function Unescape(b: string): Option<string>
    decreases |b|
  {
    if b == [] then Some([])
    else if b[0] == '"' || (b[0] as int) < 0x20 then None
    else if b[0] != '\\' then Prepend(b[0], Unescape(b[1..]))
    else if |b| < 2 then None
    else
      var e := b[1];
      if e == '"' || e == '\\' || e == '/' then Prepend(e, Unescape(b[2..]))
      else if e == 'b' then Prepend('\U{8}', Unescape(b[2..]))
      else if e == 'f' then Prepend('\U{C}', Unescape(b[2..]))
      else if e == 'n' then Prepend('\n', Unescape(b[2..]))
      else if e == 'r' then Prepend('\r', Unescape(b[2..]))
      else if e == 't' then Prepend('\t', Unescape(b[2..]))
      else if e == 'u' && |b| >= 6 then
        match UnicodeEscape(b[2..6])
        case Some(c) => Prepend(c, Unescape(b[6..]))
        case None => None
      else None
  }

  function Prepend(c: char, r: Option<string>): Option<string> {
    match r
    case Some(s) => Some([c] + s)
    case None => None
  }

  /** The character named by four hexadecimal digits, outside the surrogate range. */
  function UnicodeEscape(h: string): Option<char>
    requires |h| == 4
  {
    match (HexValue(h[0]), HexValue(h[1]), HexValue(h[2]), HexValue(h[3]))
    case (Some(a), Some(b), Some(c), Some(d)) =>
      var v := ((a * 16 + b) * 16 + c) * 16 + d;
      if 0xD800 <= v < 0xE000 then None else Some(v as char)
    case _ => None
  }

  /** `JSON.parse(p)` when `p` is a JSON string literal. */
  function DecodeString(p: string): Option<string> {
    if |p| >= 2 && p[0] == '"' && p[|p| - 1] == '"' then Unescape(p[1..|p| - 1]) else None
  }

  lemma UnescapeOne(c: char, rest: string)
    ensures Unescape(EscapeChar(c) + rest) == Prepend(c, Unescape(rest))
  {
    var e := EscapeChar(c);
    var b := e + rest;
    if (c as int) < 0x20 && c != '\U{8}' && c != '\U{C}' && c != '\n' && c != '\r' && c != '\t' {
      var hi, lo := c as int / 16, c as int % 16;
      assert b[2..6] == ['0', '0', HexDigit(hi), HexDigit(lo)];
      assert b[6..] == rest;
      assert UnicodeEscape(b[2..6]) == Some(c);
    } else if |e| == 2 {
      assert b[2..] == rest;
    } else {
      assert b[1..] == rest;
    }
  }

  /** Decoding an escaped string gives the string back. */
  lemma {:induction false} UnescapeEscape(s: string)
    ensures Unescape(EscapeAll(s)) == Some(s)
  {
    if s != [] {
      UnescapeOne(s[0], EscapeAll(s[1..]));
      UnescapeEscape(s[1..]);
      assert [s[0]] + s[1..] == s;
    }
  }

  /** `JSON.parse(JSON.stringify(s)) === s` for every string `s`. */
  lemma QuoteRoundTrip(s: string)
    ensures DecodeString(Quote(s)) == Some(s)
  {
    var q := Quote(s);
    assert q[1..|q| - 1] == EscapeAll(s);
    UnescapeEscape(s);
  }
}
