/** The JSON text a client's subscribed services are stored as: an array of
    strings, written by `JSON.stringify` and read back by `JSON.parse`. Only
    that shape is modelled, without insignificant white space. */
module ServicesJson {
  import opened Util

  function HexDigit(d: int): char
    requires 0 <= d < 16
  {
    if d < 10 then ('0' as int + d) as char else ('a' as int + d - 10) as char
  }

  function HexValue(c: char): (v: Option<int>)
    ensures v.Some? ==> 0 <= v.value < 16
  {
    if '0' <= c <= '9' then Some(c as int - '0' as int)
    else if 'a' <= c <= 'f' then Some(c as int - 'a' as int + 10)
    else if 'A' <= c <= 'F' then Some(c as int - 'A' as int + 10)
    else None
  }

  lemma HexValueOfHexDigit(d: int)
    requires 0 <= d < 16
    ensures HexValue(HexDigit(d)) == Some(d)
  {
  }

  /** How `JSON.stringify` writes one character inside a string literal: the
      quote and the backslash are escaped, the control characters get their
      short escape or a `\u00xx` escape, everything else is written as is. */
  function EscapeChar(c: char): (e: string)
    ensures |e| >= 1
    ensures e[0] != '"'
    ensures e[0] == '\\' <==> c == '"' || c == '\\' || (c as int) < 0x20
  {
    if c == '"' then ['\\', '"']
    else if c == '\\' then ['\\', '\\']
    else if c == '\U{8}' then ['\\', 'b']
    else if c == '\U{C}' then ['\\', 'f']
    else if c == '\n' then ['\\', 'n']
    else if c == '\r' then ['\\', 'r']
    else if c == '\t' then ['\\', 't']
    else if (c as int) < 0x20 then ['\\', 'u', '0', '0', HexDigit(c as int / 16), HexDigit(c as int % 16)]
    else [c]
  }

  function EscapeAll(s: string): string {
    if s == [] then [] else EscapeChar(s[0]) + EscapeAll(s[1..])
  }

  /** A string literal. */
  function Quote(s: string): string {
    ['"'] + EscapeAll(s) + ['"']
  }

  /** The literals after the first one, each preceded by a comma. */
  function MoreItems(xs: seq<string>): string {
    if xs == [] then [] else [','] + Quote(xs[0]) + MoreItems(xs[1..])
  }

  /** `JSON.stringify` of an array of strings. */
  function Encode(xs: seq<string>): (text: string)
    ensures |text| >= 2 && text[0] == '[' && text[|text| - 1] == ']'
  {
    ['['] + (if xs == [] then [] else Quote(xs[0]) + MoreItems(xs[1..])) + [']']
  }

  /** The escape sequence after a backslash: the character it stands for and
      the text after it. Escapes of UTF-16 surrogate halves are not modelled. */
  function Unescape(t: string): (r: Option<(char, string)>)
    ensures r.Some? ==> |r.value.1| < |t|
  {
    if t == [] then None
    else if t[0] == '"' || t[0] == '\\' || t[0] == '/' then Some((t[0], t[1..]))
    else if t[0] == 'b' then Some(('\U{8}', t[1..]))
    else if t[0] == 'f' then Some(('\U{C}', t[1..]))
    else if t[0] == 'n' then Some(('\n', t[1..]))
    else if t[0] == 'r' then Some(('\r', t[1..]))
    else if t[0] == 't' then Some(('\t', t[1..]))
    else if t[0] == 'u' && |t| >= 5
      && HexValue(t[1]).Some? && HexValue(t[2]).Some? && HexValue(t[3]).Some? && HexValue(t[4]).Some? then
      var v := 4096 * HexValue(t[1]).value + 256 * HexValue(t[2]).value
        + 16 * HexValue(t[3]).value + HexValue(t[4]).value;
      if 0xD800 <= v < 0xE000 then None else Some((v as char, t[5..]))
    else None
  }

  /** The contents of a string literal whose opening quote has been read:
      its value and the text after the closing quote. */
  function ParseStringBody(s: string): (r: Option<(string, string)>)
    ensures r.Some? ==> |r.value.1| < |s|
  {
    if s == [] then None
    else if s[0] == '"' then Some(([], s[1..]))
    else if s[0] == '\\' then
      match Unescape(s[1..])
      case None => None
      case Some((c, rest)) =>
        match ParseStringBody(rest)
        case None => None
        case Some((v, after)) => Some(([c] + v, after))
    else if (s[0] as int) < 0x20 then None
    else
      match ParseStringBody(s[1..])
      case None => None
      case Some((v, after)) => Some(([s[0]] + v, after))
  }

  function ParseString(s: string): (r: Option<(string, string)>)
    ensures r.Some? ==> |r.value.1| < |s|
  {
    if s != [] && s[0] == '"' then ParseStringBody(s[1..]) else None
  }

  /** The rest of an array after its first element: `,"…"` repeated, then `]`. */
  function ParseMoreItems(s: string): (r: Option<(seq<string>, string)>)
    ensures r.Some? ==> |r.value.1| < |s|
    decreases |s|
  {
    if s == [] then None
    else if s[0] == ']' then Some(([], s[1..]))
    else if s[0] == ',' then
      match ParseString(s[1..])
      case None => None
      case Some((v, rest)) =>
        match ParseMoreItems(rest)
        case None => None
        case Some((vs, after)) => Some(([v] + vs, after))
    else None
  }

  /** `JSON.parse` of a text expected to hold an array of strings; `None` is
      a text that is not such an array (where `JSON.parse` throws). */
  function Decode(text: string): (r: Option<seq<string>>)
    ensures r.Some? ==> |text| >= 2 && text[0] == '['
  {
    if |text| >= 2 && text[0] == '[' then
      if text[1] == ']' then
        if |text| == 2 then Some([]) else None
      else
        match ParseString(text[1..])
        case None => None
        case Some((v, rest)) =>
          match ParseMoreItems(rest)
          case None => None
          case Some((vs, after)) => if after == [] then Some([v] + vs) else None
    else None
  }

  /** One escaped character reads back as itself. */
  lemma UnescapeOfEscapeChar(c: char, tail: string)
    requires EscapeChar(c)[0] == '\\'
    ensures Unescape(EscapeChar(c)[1..] + tail) == Some((c, tail))
  {
    var e := EscapeChar(c);
    if c != '"' && c != '\\' && c != '\U{8}' && c != '\U{C}' && c != '\n' && c != '\r' && c != '\t' {
      var n := c as int;
      HexValueOfHexDigit(n / 16);
      HexValueOfHexDigit(n % 16);
      var t := e[1..] + tail;
      assert t[1..5] == ['0', '0', HexDigit(n / 16), HexDigit(n % 16)];
      assert t[5..] == tail;
    } else {
      assert (e[1..] + tail)[1..] == tail;
    }
  }

  lemma {:induction false} ParseStringBodyOfEscaped(x: string, rest: string)
    ensures ParseStringBody(EscapeAll(x) + ['"'] + rest) == Some((x, rest))
  {
    if x != [] {
      var c := x[0];
      var e := EscapeChar(c);
      var tail := EscapeAll(x[1..]) + ['"'] + rest;
      assert EscapeAll(x) + ['"'] + rest == e + tail;
      ParseStringBodyOfEscaped(x[1..], rest);
      assert [c] + x[1..] == x;
      if e[0] == '\\' {
        UnescapeOfEscapeChar(c, tail);
        assert (e + tail)[1..] == e[1..] + tail;
      } else {
        assert e == [c];
        assert (e + tail)[1..] == tail;
      }
    } else {
      assert EscapeAll(x) + ['"'] + rest == ['"'] + rest;
      assert (['"'] + rest)[1..] == rest;
    }
  }

  lemma ParseStringOfQuote(x: string, rest: string)
    ensures ParseString(Quote(x) + rest) == Some((x, rest))
  {
    assert (Quote(x) + rest)[1..] == EscapeAll(x) + ['"'] + rest;
    ParseStringBodyOfEscaped(x, rest);
  }

  lemma {:induction false} ParseMoreItemsOfMoreItems(xs: seq<string>, rest: string)
    ensures ParseMoreItems(MoreItems(xs) + [']'] + rest) == Some((xs, rest))
  {
    var s := MoreItems(xs) + [']'] + rest;
    if xs == [] {
      assert s == [']'] + rest;
      assert s[1..] == rest;
    } else {
      var tail := MoreItems(xs[1..]) + [']'] + rest;
      assert s == [','] + (Quote(xs[0]) + tail);
      assert s[0] == ',' && s[1..] == Quote(xs[0]) + tail;
      ParseStringOfQuote(xs[0], tail);
      ParseMoreItemsOfMoreItems(xs[1..], rest);
      assert [xs[0]] + xs[1..] == xs;
    }
  }

  /** Parsing what `JSON.stringify` wrote gives the array back. */
  lemma DecodeEncode(xs: seq<string>)
    ensures Decode(Encode(xs)) == Some(xs)
  {
    var text := Encode(xs);
    if xs != [] {
      var tail := MoreItems(xs[1..]) + [']'];
      assert text == ['['] + (Quote(xs[0]) + tail);
      assert text[1..] == Quote(xs[0]) + tail;
      assert text[1] == '"';
      ParseStringOfQuote(xs[0], tail);
      assert tail == MoreItems(xs[1..]) + [']'] + [];
      ParseMoreItemsOfMoreItems(xs[1..], []);
      assert [xs[0]] + xs[1..] == xs;
    } else {
      assert text == "[]";
    }
  }
}
