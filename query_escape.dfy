/** Query-component escaping as Go's `url.QueryEscape` performs it: a Go
    string is a sequence of UTF-8 bytes; the unreserved bytes of section 2.3
    of RFC 3986 pass through, a space becomes `+` (the
    application/x-www-form-urlencoded convention) and every other byte becomes
    `%XX` with upper-case hexadecimal digits (section 2.1 of RFC 3986).
    `QueryUnescape` and `DecodeQuery` are the reading side, used to state what
    an escaped value and a built query string mean. */
module UrlEscape {
  import opened Wrappers
  import opened Strings

  type byte = b: int | 0 <= b < 256

  /** UTF-8 encoding of one Unicode scalar value (section 3 of RFC 3629). */
  function Utf8(c: char): (r: seq<byte>)
    ensures 1 <= |r| <= 4
    ensures c as int < 0x80 ==> r == [c as int]
    ensures c as int >= 0x80 ==> forall i :: 0 <= i < |r| ==> r[i] >= 0x80
  {
    var n := c as int;
    if n < 0x80 then [n]
    else if n < 0x800 then [0xC0 + n / 0x40, 0x80 + n % 0x40]
    else if n < 0x10000 then [0xE0 + n / 0x1000, 0x80 + (n / 0x40) % 0x40, 0x80 + n % 0x40]
    else [0xF0 + n / 0x40000, 0x80 + (n / 0x1000) % 0x40, 0x80 + (n / 0x40) % 0x40, 0x80 + n % 0x40]
  }

  /** The bytes of a Go string holding the characters of `s`. */
  function Utf8Encode(s: string): (r: seq<byte>)
    ensures |r| >= |s|
    ensures (forall i :: 0 <= i < |s| ==> s[i] as int < 0x80) ==> r == seq(|s|, i requires 0 <= i < |s| => s[i] as int)
  {
    if s == [] then [] else Utf8(s[0]) + Utf8Encode(s[1..])
  }

  /** Section 2.3 of RFC 3986: ALPHA / DIGIT / "-" / "." / "_" / "~". */
  predicate IsUnreserved(b: byte) {
    || 'a' as int <= b <= 'z' as int
    || 'A' as int <= b <= 'Z' as int
    || '0' as int <= b <= '9' as int
    || b == '-' as int || b == '_' as int || b == '.' as int || b == '~' as int
  }

  function HexDigit(n: int): (c: char)
    requires 0 <= n < 16
  {
    "0123456789ABCDEF"[n]
  }

  /** A character `url.QueryEscape` can emit: an unreserved character, the
      `+` that stands for a space, or part of a `%XX` escape. */
  predicate IsEscapedChar(c: char) {
    || ('a' <= c <= 'z') || ('A' <= c <= 'Z') || ('0' <= c <= '9')
    || c == '-' || c == '_' || c == '.' || c == '~' || c == '+' || c == '%'
  }

  function EscapeByte(b: byte): (r: string)
    ensures forall i :: 0 <= i < |r| ==> IsEscapedChar(r[i])
  {
    if IsUnreserved(b) then [b as char]
    else if b == ' ' as int then "+"
    else ['%', HexDigit(b / 16), HexDigit(b % 16)]
  }

  function EscapeBytes(bs: seq<byte>): (r: string)
    ensures forall i :: 0 <= i < |r| ==> IsEscapedChar(r[i])
  {
    if bs == [] then [] else EscapeByte(bs[0]) + EscapeBytes(bs[1..])
  }

  /** Go's `url.QueryEscape(s)`. What it means is stated by
      `QueryEscapeRoundTrip` and `QueryEscapeIsDelimiterFree`. */
  function QueryEscape(s: string): string
  {
    EscapeBytes(Utf8Encode(s))
  }

  /** The escaped form never holds the delimiters of a query string, so a
      value cannot end its parameter early or start a new one. */
  lemma QueryEscapeIsDelimiterFree(s: string)
    ensures forall i :: 0 <= i < |QueryEscape(s)| ==>
      QueryEscape(s)[i] !in {'&', '=', '?', '#', ' '}
  {
  }

  /** A character `url.QueryEscape` passes through unchanged. */
  predicate IsUnreservedChar(c: char) {
    || ('a' <= c <= 'z') || ('A' <= c <= 'Z') || ('0' <= c <= '9')
    || c == '-' || c == '_' || c == '.' || c == '~'
  }

  /** Text made only of unreserved characters is its own escape. */
  lemma {:induction false} QueryEscapeUnreserved(s: string)
    requires forall i :: 0 <= i < |s| ==> IsUnreservedChar(s[i])
    ensures QueryEscape(s) == s
  {
    if s != [] {
      QueryEscapeUnreserved(s[1..]);
      var bs := Utf8Encode(s);
      assert bs == [s[0] as int] + Utf8Encode(s[1..]);
      assert bs[1..] == Utf8Encode(s[1..]);
      assert EscapeByte(s[0] as int) == [s[0]];
    }
  }

  predicate IsHex(c: char) {
    ('0' <= c <= '9') || ('A' <= c <= 'F') || ('a' <= c <= 'f')
  }

  function HexValue(c: char): (n: int)
    requires IsHex(c)
    ensures 0 <= n < 16
  {
    if '0' <= c <= '9' then c as int - '0' as int
    else if 'A' <= c <= 'F' then c as int - 'A' as int + 10
    else c as int - 'a' as int + 10
  }

  /** Go's `url.QueryUnescape`: `+` is a space, `%XX` one byte (either case
      of hexadecimal digit), a malformed escape an error; any other character
      stands for its own UTF-8 bytes. */
  function QueryUnescape(s: string): Option<seq<byte>>
  {
    if s == [] then Some([])
    else if s[0] == '%' then
      if |s| >= 3 && IsHex(s[1]) && IsHex(s[2]) then
        match QueryUnescape(s[3..])
        case Some(rest) => Some([HexValue(s[1]) * 16 + HexValue(s[2])] + rest)
        case None => None
      else None
    else
      match QueryUnescape(s[1..])
      case Some(rest) => Some((if s[0] == '+' then [' ' as int] else Utf8(s[0])) + rest)
      case None => None
  }

  /** Text with no `%` and no `+` unescapes to its own UTF-8 bytes. */
  lemma {:induction false} UnescapePlain(s: string)
    requires forall i :: 0 <= i < |s| ==> s[i] != '%' && s[i] != '+'
    ensures QueryUnescape(s) == Some(Utf8Encode(s))
  {
    if s != [] {
      UnescapePlain(s[1..]);
    }
  }

  lemma HexDigitValue(n: int)
    requires 0 <= n < 16
    ensures IsHex(HexDigit(n)) && HexValue(HexDigit(n)) == n
  {
  }

  lemma {:induction false} UnescapeAfterByte(b: byte, t: string)
    ensures QueryUnescape(EscapeByte(b) + t) ==
      match QueryUnescape(t)
      case Some(rest) => Some([b] + rest)
      case None => None
  {
    var s := EscapeByte(b) + t;
    if IsUnreserved(b) {
      assert s[0] == b as char && s[1..] == t;
    } else if b == ' ' as int {
      assert s[0] == '+' && s[1..] == t;
    } else {
      HexDigitValue(b / 16);
      HexDigitValue(b % 16);
      assert s[0] == '%' && s[1] == HexDigit(b / 16) && s[2] == HexDigit(b % 16) && s[3..] == t;
    }
  }

  lemma {:induction false} UnescapeEscapeBytes(bs: seq<byte>)
    ensures QueryUnescape(EscapeBytes(bs)) == Some(bs)
  {
    if bs != [] {
      UnescapeEscapeBytes(bs[1..]);
      UnescapeAfterByte(bs[0], EscapeBytes(bs[1..]));
      assert [bs[0]] + bs[1..] == bs;
    }
  }

  /** Unescaping the escaped value gives back exactly the bytes of the
      original string: escaping loses nothing. */
  lemma QueryEscapeRoundTrip(s: string)
    ensures QueryUnescape(QueryEscape(s)) == Some(Utf8Encode(s))
  {
    UnescapeEscapeBytes(Utf8Encode(s));
  }

  /** `s` cut at every `sep`, as the query parser splits on `&`. */
  function SplitOn(s: string, sep: char): (parts: seq<string>)
    ensures |parts| >= 1
    decreases |s|
  {
    if sep in s then
      var (head, tail) := Cut(s, sep);
      [head] + SplitOn(tail, sep)
    else [s]
  }

  /** One `key=value` parameter, both halves unescaped; a parameter without
      `=` has an empty value. */
  function DecodeParam(param: string): Option<(seq<byte>, seq<byte>)>
  {
    var (key, value) := Cut(param, '=');
    match (QueryUnescape(key), QueryUnescape(value))
    case (Some(k), Some(v)) => Some((k, v))
    case _ => None
  }

  function DecodeParams(params: seq<string>): Option<seq<(seq<byte>, seq<byte>)>>
  {
    if params == [] then Some([])
    else
      match (DecodeParam(params[0]), DecodeParams(params[1..]))
      case (Some(p), Some(ps)) => Some([p] + ps)
      case _ => None
  }

  /** A reference reader of query strings: the ordered `key=value`
      parameters between the `&` separators, unescaped. */
  function DecodeQuery(query: string): Option<seq<(seq<byte>, seq<byte>)>>
  {
    DecodeParams(SplitOn(query, '&'))
  }

  /** A text without `&` is read as one parameter. */
  lemma DecodeQuerySingle(param: string)
    requires '&' !in param
    ensures DecodeQuery(param) ==
      match DecodeParam(param)
      case Some(p) => Some([p])
      case None => None
  {
    assert SplitOn(param, '&') == [param];
    assert DecodeParams([param][1..]) == Some([]);
    if DecodeParam(param).Some? {
      assert [DecodeParam(param).value] + [] == [DecodeParam(param).value];
    }
  }

  /** A parameter followed by `&` is read first, however the rest reads. */
  lemma DecodeQueryFirst(param: string, rest: string)
    requires '&' !in param
    ensures DecodeQuery(param + "&" + rest) ==
      match (DecodeParam(param), DecodeQuery(rest))
      case (Some(p), Some(ps)) => Some([p] + ps)
      case _ => None
  {
    CutAtFirst(param, '&', rest);
    assert param + "&" + rest == param + ['&'] + rest;
    var parts := SplitOn(param + "&" + rest, '&');
    assert parts == [param] + SplitOn(rest, '&');
    assert parts[1..] == SplitOn(rest, '&');
  }

  /** `DecodeQueryFirst` when both halves read. */
  lemma ReadFirstParam(param: string, rest: string, p: (seq<byte>, seq<byte>), ps: seq<(seq<byte>, seq<byte>)>)
    requires '&' !in param && DecodeParam(param) == Some(p) && DecodeQuery(rest) == Some(ps)
    ensures DecodeQuery(param + "&" + rest) == Some([p] + ps)
  {
    DecodeQueryFirst(param, rest);
  }

  /** `key=QueryEscape(value)` holds no `&` and reads back as the key and
      the exact bytes of the value. */
  lemma EscapedParam(key: string, value: string)
    requires forall i :: 0 <= i < |key| ==> IsEscapedChar(key[i])
    ensures '&' !in key + "=" + QueryEscape(value)
    ensures DecodeParam(key + "=" + QueryEscape(value)) ==
      match QueryUnescape(key)
      case Some(k) => Some((k, Utf8Encode(value)))
      case None => None
  {
    var e := QueryEscape(value);
    QueryEscapeIsDelimiterFree(value);
    QueryEscapeRoundTrip(value);
    var param := key + "=" + e;
    forall i | 0 <= i < |param| ensures param[i] != '&' {
      if i < |key| { assert param[i] == key[i]; }
      else if i > |key| { assert param[i] == e[i - |key| - 1]; }
    }
    assert '=' !in key;
    assert param == key + ['='] + e;
    CutAtFirst(key, '=', e);
  }

  /** A key that needs no escaping. */
  predicate IsPlainKey(key: string) {
    forall i :: 0 <= i < |key| ==> IsEscapedChar(key[i]) && key[i] != '%' && key[i] != '+'
  }

  /** `key=QueryEscape(value)` for a plain key reads back as that key and
      value, and holds no `&`. */
  lemma PlainParam(key: string, value: string)
    requires IsPlainKey(key)
    ensures '&' !in key + "=" + QueryEscape(value)
    ensures DecodeParam(key + "=" + QueryEscape(value)) == Some((Utf8Encode(key), Utf8Encode(value)))
  {
    EscapedParam(key, value);
    UnescapePlain(key);
  }

  /** One plain parameter reads back as itself. */
  lemma OneParamQuery(key: string, value: string)
    requires IsPlainKey(key)
    ensures DecodeQuery(key + "=" + QueryEscape(value)) == Some([(Utf8Encode(key), Utf8Encode(value))])
  {
    PlainParam(key, value);
    DecodeQuerySingle(key + "=" + QueryEscape(value));
  }

  /** Two plain parameters joined by `&` read back as themselves, in order. */
  lemma TwoParamQuery(key1: string, value1: string, key2: string, value2: string)
    requires IsPlainKey(key1) && IsPlainKey(key2)
    ensures DecodeQuery((key1 + "=" + QueryEscape(value1)) + "&" + (key2 + "=" + QueryEscape(value2))) ==
      Some([(Utf8Encode(key1), Utf8Encode(value1)), (Utf8Encode(key2), Utf8Encode(value2))])
  {
    var first, second := key1 + "=" + QueryEscape(value1), key2 + "=" + QueryEscape(value2);
    var p1, p2 := (Utf8Encode(key1), Utf8Encode(value1)), (Utf8Encode(key2), Utf8Encode(value2));
    assert '&' !in first && DecodeParam(first) == Some(p1) by {
      PlainParam(key1, value1);
    }
    assert DecodeQuery(second) == Some([p2]) by {
      OneParamQuery(key2, value2);
    }
    ReadFirstParam(first, second, p1, [p2]);
    assert [p1] + [p2] == [p1, p2];
  }
}
