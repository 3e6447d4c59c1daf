/**
 The printers of src/from_curl.rs: `toml_escape`, `js_escape` and the `[headers]` table of
 `render_toml`, with readers written from the languages they print. The TOML reader follows
 the basic strings of TOML v1.0.0, the other one the string literals of ECMAScript.
 */
module Escapes {
  import opened Wrappers

  datatype Dialect = Toml | Js

  function QuoteOf(d: Dialect): char
  {
    if d.Toml? then '"' else '\''
  }

  // ----- the printer -----

  function HexDigit(n: nat): char
    requires n < 16
  {
    if n < 10 then ('0' as int + n) as char else ('A' as int + n - 10) as char
  }

  /** `{:04X}` */
  function Hex4(n: nat): string
    requires n < 0x10000
  {
    [HexDigit(n / 0x1000), HexDigit(n / 0x100 % 16), HexDigit(n / 16 % 16), HexDigit(n % 16)]
  }

  function EscapeChar(d: Dialect, c: char): string
  {
    if c == '\\' then "\\\\"
    else if c == QuoteOf(d) then ['\\', c]
    else if c == '\n' then "\\n"
    else if c == '\r' then "\\r"
    else if c == '\t' then "\\t"
    else if c as int < 0x20 then "\\u" + Hex4(c as int)
    else [c]
  }

  function Body(d: Dialect, s: string): string
  {
    if s == "" then "" else EscapeChar(d, s[0]) + Body(d, s[1..])
  }

  function Escaped(d: Dialect, s: string): string
  {
    [QuoteOf(d)] + Body(d, s) + [QuoteOf(d)]
  }

  lemma {:induction false} BodyOneMore(d: Dialect, s: string, c: char)
    ensures Body(d, s + [c]) == Body(d, s) + EscapeChar(d, c)
  {
    if s == "" {
      assert s + [c] == [c] && [c][1..] == "" && EscapeChar(d, c) + "" == EscapeChar(d, c);
    } else {
      assert (s + [c])[1..] == s[1..] + [c];
      BodyOneMore(d, s[1..], c);
    }
  }

  lemma PrefixOneMore(d: Dialect, s: string, i: nat)
    requires i < |s|
    ensures Body(d, s[..i + 1]) == Body(d, s[..i]) + EscapeChar(d, s[i])
  {
    BodyOneMore(d, s[..i], s[i]);
    assert s[..i + 1] == s[..i] + [s[i]];
  }

  lemma EmptyBody(d: Dialect, s: string)
    ensures Body(d, s[..0]) == ""
  {
  }

  method Escape(d: Dialect, s: string) returns (out: string)
    ensures out == Escaped(d, s)
  {
    EmptyBody(d, s);
    hide Body, EscapeChar, QuoteOf, Hex4, HexDigit;
    out := [QuoteOf(d)];
    for i := 0 to |s|
      invariant out == [QuoteOf(d)] + Body(d, s[..i])
    {
      PrefixOneMore(d, s, i);
      out := out + EscapeChar(d, s[i]);
    }
    assert s[..|s|] == s;
    out := out + [QuoteOf(d)];
  }

  // ----- the reader -----

  function HexValue(c: char): Option<nat>
  {
    if '0' <= c <= '9' then Some(c as int - '0' as int)
    else if 'A' <= c <= 'F' then Some(c as int - 'A' as int + 10)
    else if 'a' <= c <= 'f' then Some(c as int - 'a' as int + 10)
    else None
  }

  function ReadHex4(t: string): Option<char>
    requires |t| >= 4
  {
    match (HexValue(t[0]), HexValue(t[1]), HexValue(t[2]), HexValue(t[3]))
    case (Some(a), Some(b), Some(c), Some(d)) =>
      var n := a * 0x1000 + b * 0x100 + c * 16 + d;
      if n < 0xD800 || 0xE000 <= n < 0x10000 then Some(n as char) else None
    case _ => None
  }

  /** What a one-character escape stands for. */
  function ShortEscape(d: Dialect, c: char): Option<char>
  {
    if c == '\\' || c == '"' then Some(c)
    else if c == '\'' && d.Js? then Some(c)
    else if c == 'n' then Some('\n')
    else if c == 'r' then Some('\r')
    else if c == 't' then Some('\t')
    else None
  }

  /** Characters a string may not contain as they are. */
  predicate Forbidden(d: Dialect, c: char)
  {
    if d.Toml? then (c as int < 0x20 && c != '\t') || c as int == 0x7F else c == '\n' || c == '\r'
  }

  /** Reads up to the closing quote: the value and the text after the quote. */
  function ReadBody(d: Dialect, t: string): (r: Option<(string, string)>)
    ensures r.Some? ==> |r.value.1| < |t|
    decreases |t|
  {
    if t == "" then None
    else if t[0] == (if d.Toml? then '"' else '\'') then Some(("", t[1..]))
    else if t[0] == '\\' then
      if |t| < 2 then None
      else if t[1] == 'u' then
        if |t| < 6 then None
        else
          match (ReadHex4(t[2..]), ReadBody(d, t[6..]))
          case (Some(c), Some(r)) => Some(([c] + r.0, r.1))
          case _ => None
      else
        match (ShortEscape(d, t[1]), ReadBody(d, t[2..]))
        case (Some(c), Some(r)) => Some(([c] + r.0, r.1))
        case _ => None
    else if Forbidden(d, t[0]) then None
    else
      match ReadBody(d, t[1..])
      case Some(r) => Some(([t[0]] + r.0, r.1))
      case None => None
  }

  function Read(d: Dialect, t: string): (r: Option<(string, string)>)
    ensures r.Some? ==> |r.value.1| < |t|
  {
    if t != "" && t[0] == (if d.Toml? then '"' else '\'') then ReadBody(d, t[1..]) else None
  }

  /** The one character TOML forbids and the printer leaves as it is: DEL. */
  predicate Printable(d: Dialect, s: string)
  {
    d.Toml? ==> forall c | c in s :: c as int != 0x7F
  }

  lemma Hex4ReadsBack(n: nat)
    requires n < 0x20
    ensures ReadHex4(Hex4(n)) == Some(n as char)
  {
  }

  function Prefixed(c: char, r: Option<(string, string)>): Option<(string, string)>
  {
    match r
    case Some(p) => Some(([c] + p.0, p.1))
    case None => None
  }

  lemma ShortReadsBack(d: Dialect, c: char, t: string)
    requires |EscapeChar(d, c)| == 2
    ensures ReadBody(d, EscapeChar(d, c) + t) == Prefixed(c, ReadBody(d, t))
  {
    var e := EscapeChar(d, c);
    assert (e + t)[2..] == t && e[0] == '\\' && e[1] != 'u';
    assert ShortEscape(d, e[1]) == Some(c);
    hide EscapeChar, ShortEscape, ReadHex4;
  }

  lemma HexReadsBack(d: Dialect, c: char, t: string)
    requires |EscapeChar(d, c)| == 6
    ensures ReadBody(d, EscapeChar(d, c) + t) == Prefixed(c, ReadBody(d, t))
  {
    var e := EscapeChar(d, c);
    assert e == "\\u" + Hex4(c as int);
    Hex4ReadsBack(c as int);
    assert (e + t)[2..][..4] == Hex4(c as int);
    ReadsFirstFour((e + t)[2..], Hex4(c as int));
    assert (e + t)[6..] == t;
    hide EscapeChar, Hex4, ReadHex4, ShortEscape;
  }

  lemma ReadsFirstFour(t: string, h: string)
    requires |h| == 4 && h <= t
    ensures ReadHex4(t) == ReadHex4(h)
  {
  }

  /** One escaped character is read as itself, except that TOML refuses DEL. */
  lemma CharReadsBack(d: Dialect, c: char, t: string)
    ensures ReadBody(d, EscapeChar(d, c) + t) ==
            if d.Toml? && c as int == 0x7F then None else Prefixed(c, ReadBody(d, t))
  {
    var e := EscapeChar(d, c);
    if |e| == 2 {
      ShortReadsBack(d, c, t);
    } else if |e| == 6 {
      HexReadsBack(d, c, t);
    } else {
      assert (e + t)[1..] == t;
    }
    hide ReadHex4, ShortEscape, Hex4;
  }

  lemma PrintableFromHead(d: Dialect, s: string)
    requires s != ""
    ensures Printable(d, s) <==> (d.Toml? ==> s[0] as int != 0x7F) && Printable(d, s[1..])
  {
    assert s[0] in s;
    assert forall c :: c in s <==> c == s[0] || c in s[1..];
  }

  lemma {:induction false} BodyReadsBack(d: Dialect, s: string, rest: string)
    ensures ReadBody(d, Body(d, s) + ([QuoteOf(d)] + rest)) == if Printable(d, s) then Some((s, rest)) else None
  {
    var t := [QuoteOf(d)] + rest;
    if s == "" {
      assert Body(d, s) + t == t && t[1..] == rest;
    } else {
      assert Body(d, s) + t == EscapeChar(d, s[0]) + (Body(d, s[1..]) + t);
      CharReadsBack(d, s[0], Body(d, s[1..]) + t);
      BodyReadsBack(d, s[1..], rest);
      PrintableFromHead(d, s);
      assert s == [s[0]] + s[1..];
      hide ReadBody, Body, Printable, EscapeChar, QuoteOf;
    }
  }

  /** Whatever follows, a printed string ends where it should and reads back as itself, exactly when TOML can
      hold it: the printer leaves DEL as it is. For JavaScript that is every string. */
  lemma EscapedReadsBack(d: Dialect, s: string, rest: string)
    ensures Read(d, Escaped(d, s) + rest) == if Printable(d, s) then Some((s, rest)) else None
  {
    hide ReadBody, Body, Printable;
    BodyReadsBack(d, s, rest);
    var t := Escaped(d, s) + rest;
    assert t == [QuoteOf(d)] + (Body(d, s) + ([QuoteOf(d)] + rest));
    assert t[1..] == Body(d, s) + ([QuoteOf(d)] + rest);
  }

  /** A printed string stays on its line, and holds no control character of ASCII below the space. */
  lemma {:induction false} NoRawControl(d: Dialect, s: string)
    ensures forall i | 0 <= i < |Body(d, s)| :: Body(d, s)[i] >= ' '
    ensures '\n' !in Body(d, s) && '\r' !in Body(d, s)
  {
    hide EscapeChar;
    if s == "" {
    } else {
      NoRawControl(d, s[1..]);
      CharHasNoControl(d, s[0]);
    }
  }

  lemma CharHasNoControl(d: Dialect, c: char)
    ensures forall i | 0 <= i < |EscapeChar(d, c)| :: EscapeChar(d, c)[i] >= ' '
  {
  }
}
