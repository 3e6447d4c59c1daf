/**
 `string_literals` of src/discovery/js_endpoints.rs: a byte walk over a script that yields its string literals.
 A `char` stands for one byte of the source.
 */
module JsLiterals {
  predicate IsQuote(c: char)
  {
    c == '"' || c == '\'' || c == '`'
  }

  function Drop(t: string, n: nat): string
  {
    if n >= |t| then "" else t[n..]
  }

  // ----- what the walk yields, as a function -----

  /** How far a literal opened by `q` reaches into `t`. A backslash at the end counts for two. */
  function LitLen(q: char, t: string): (n: nat)
    ensures n <= |t| + 1
    decreases |t|
  {
    if t == "" then 0
    else if t[0] == '\\' then 2 + LitLen(q, Drop(t, 2))
    else if t[0] == q then 0
    else 1 + LitLen(q, t[1..])
  }

  function LineLen(t: string): (n: nat)
    ensures n <= |t|
  {
    if t == "" || t[0] == '\n' then 0 else 1 + LineLen(t[1..])
  }

  function BlockLen(t: string): (n: nat)
    ensures n <= |t|
  {
    if |t| < 2 || t[..2] == "*/" then 0 else 1 + BlockLen(t[1..])
  }

  function Found(t: string, n: nat): seq<string>
  {
    if 2 < n <= |t| then [t[..n]] else []
  }

  function Literals(t: string): seq<string>
    decreases |t|
  {
    if t == "" then []
    else if IsQuote(t[0]) then
      var n := LitLen(t[0], t[1..]);
      Found(t[1..], n) + Literals(Drop(t, n + 2))
    else if t[0] == '/' && |t| > 1 && t[1] == '/' then Literals(Drop(t, 2 + LineLen(t[2..])))
    else if t[0] == '/' && |t| > 1 && t[1] == '*' then Literals(Drop(t, 4 + BlockLen(t[2..])))
    else Literals(t[1..])
  }

  // ----- the walk -----

  method LiteralEnd(b: string, start: nat, quote: char) returns (end: nat)
    requires start <= |b|
    ensures end == start + LitLen(quote, b[start..])
  {
    end := start;
    while end < |b|
      invariant start <= end <= |b| + 1
      invariant end + LitLen(quote, Drop(b, end)) == start + LitLen(quote, b[start..])
    {
      var c := b[end];
      assert Drop(b, end)[1..] == Drop(b, end + 1) && Drop(Drop(b, end), 2) == Drop(b, end + 2);
      if c == '\\' {
        end := end + 2;
        continue;
      }
      if c == quote {
        break;
      }
      end := end + 1;
    }
  }

  method LineEnd(b: string, start: nat) returns (i: nat)
    requires start + 2 <= |b| && b[start] == b[start + 1] == '/'
    ensures i == start + 2 + LineLen(b[start + 2..]) <= |b|
  {
    i := start;
    while i < |b| && b[i] != '\n'
      invariant start <= i <= |b|
      invariant i >= start + 2 ==> i + LineLen(b[i..]) == start + 2 + LineLen(b[start + 2..])
    {
      i := i + 1;
    }
  }

  method BlockEnd(b: string, start: nat) returns (i: nat)
    requires start + 2 <= |b|
    ensures i == start + 4 + BlockLen(b[start + 2..])
  {
    i := start + 2;
    while i + 1 < |b| && !(b[i] == '*' && b[i + 1] == '/')
      invariant start + 2 <= i <= |b|
      invariant i + BlockLen(b[i..]) == start + 2 + BlockLen(b[start + 2..])
    {
      i := i + 1;
    }
    i := i + 2;
  }

  lemma DropDrop(t: string, i: nat, n: nat)
    ensures Drop(Drop(t, i), n) == Drop(t, i + n)
  {
  }

  lemma DropIs(b: string, i: nat)
    requires i < |b|
    ensures Drop(b, i) == b[i..] && Drop(b, i)[1..] == b[i + 1..]
    ensures Drop(b, i + 1) == b[i + 1..]
    ensures i + 1 < |b| ==> Drop(b, i)[2..] == b[i + 2..]
  {
  }

  lemma DropEnds(b: string, i: nat)
    ensures Drop(b, 0) == b && (i >= |b| ==> Literals(Drop(b, i)) == [])
  {
  }

  lemma AtQuote(t: string)
    requires t != "" && IsQuote(t[0])
    ensures var n := LitLen(t[0], t[1..]);
      Literals(t) == Found(t[1..], n) + Literals(Drop(t, n + 2))
  {
  }

  lemma AtLine(t: string)
    requires |t| > 1 && t[0] == '/' && t[1] == '/'
    ensures Literals(t) == Literals(Drop(t, 2 + LineLen(t[2..])))
  {
    assert !IsQuote('/');
  }

  lemma AtBlock(t: string)
    requires |t| > 1 && t[0] == '/' && t[1] == '*'
    ensures Literals(t) == Literals(Drop(t, 4 + BlockLen(t[2..])))
  {
    assert !IsQuote('/');
  }

  predicate IsCode(t: string)
    requires t != ""
  {
    !IsQuote(t[0]) && (t[0] == '/' ==> |t| == 1 || (t[1] != '/' && t[1] != '*'))
  }

  lemma AtCode(t: string)
    requires t != "" && IsCode(t)
    ensures Literals(t) == Literals(t[1..])
  {
  }

  lemma TurnAtQuote(b: string, i: nat)
    requires i < |b| && IsQuote(b[i])
    ensures var n := LitLen(b[i], b[i + 1..]);
      Literals(Drop(b, i)) == Found(b[i + 1..], n) + Literals(Drop(b, i + n + 2))
  {
    hide *;
    DropIs(b, i);
    AtQuote(Drop(b, i));
    DropDrop(b, i, LitLen(b[i], b[i + 1..]) + 2);
  }

  lemma TurnAtLine(b: string, i: nat)
    requires i + 1 < |b| && b[i] == '/' && b[i + 1] == '/'
    ensures Literals(Drop(b, i)) == Literals(Drop(b, i + 2 + LineLen(b[i + 2..])))
  {
    hide *;
    DropIs(b, i);
    AtLine(Drop(b, i));
    DropDrop(b, i, 2 + LineLen(b[i + 2..]));
  }

  lemma TurnAtBlock(b: string, i: nat)
    requires i + 1 < |b| && b[i] == '/' && b[i + 1] == '*'
    ensures Literals(Drop(b, i)) == Literals(Drop(b, i + 4 + BlockLen(b[i + 2..])))
  {
    hide *;
    DropIs(b, i);
    AtBlock(Drop(b, i));
    DropDrop(b, i, 4 + BlockLen(b[i + 2..]));
  }

  lemma TurnAtCode(b: string, i: nat)
    requires i < |b| && IsCode(b[i..])
    ensures Literals(Drop(b, i)) == Literals(Drop(b, i + 1))
  {
    hide *;
    DropIs(b, i);
    AtCode(Drop(b, i));
  }

  lemma FoundIs(b: string, i: nat, n: nat)
    requires i <= |b|
    ensures Found(b[i..], n) == if n > 2 && i + n <= |b| then [b[i..i + n]] else []
  {
    if n <= |b| - i {
      assert b[i..][..n] == b[i..i + n];
    }
  }

  /** In bounds and terminating on every input. */
  method StringLiterals(src: string) returns (out: seq<string>)
    ensures out == Literals(src)
  {
    hide Literals, LitLen, LineLen, BlockLen, Found, Drop, IsQuote;
    out := [];
    var i: nat := 0;
    DropEnds(src, i);
    while i < |src|
      invariant out + Literals(Drop(src, i)) == Literals(src)
      decreases |src| - i
    {
      var c := src[i];
      assert src[i..][0] == c && (i + 1 < |src| ==> src[i..][1] == src[i + 1]);
      if IsQuote(c) {
        TurnAtQuote(src, i);
        var start := i + 1;
        var end := LiteralEnd(src, start, c);
        FoundIs(src, start, end - start);
        if end <= |src| && end >= start {
          if end - start > 2 {
            out := out + [src[start..end]];
          }
        }
        i := end + 1;
      } else if c == '/' && i + 1 < |src| && src[i + 1] == '/' {
        TurnAtLine(src, i);
        i := LineEnd(src, i);
      } else if c == '/' && i + 1 < |src| && src[i + 1] == '*' {
        TurnAtBlock(src, i);
        i := BlockEnd(src, i);
      } else {
        TurnAtCode(src, i);
        i := i + 1;
      }
    }
    DropEnds(src, i);
  }

  // ----- scripts as sequences of segments -----

  /** `Line` is a comment with its newline. */
  datatype Segment = Code(text: string) | Literal(quote: char, text: string) | Line(text: string) | Block(text: string)

  /** How a script may break off: not at all, in a comment, in a literal, or after a literal's backslash. */
  datatype End = Clean | OpenLine(text: string) | OpenBlock(text: string)
    | OpenLiteral(quote: char, text: string) | OpenEscape(quote: char, text: string)

  /** No quote and no start of a comment, also not together with what follows. */
  predicate CodeBefore(t: string, rest: string)
  {
    t != "" ==> IsCode(t + rest) && CodeBefore(t[1..], rest)
  }

  /** Every quote of this kind is escaped and every backslash escapes a character. */
  predicate LiteralText(q: char, t: string)
    decreases |t|
  {
    if t == "" then true
    else if t[0] == '\\' then |t| > 1 && LiteralText(q, t[2..])
    else t[0] != q && LiteralText(q, t[1..])
  }

  predicate BlockText(t: string)
  {
    |t| >= 2 ==> t[..2] != "*/" && BlockText(t[1..])
  }

  predicate ValidSegment(s: Segment, rest: string)
  {
    match s
    case Code(t) => CodeBefore(t, rest)
    case Literal(q, t) => q in {'"', '\'', '`'} && LiteralText(q, t)
    case Line(t) => '\n' !in t
    case Block(t) => BlockText(t)
  }

  predicate ValidEnd(e: End)
  {
    match e
    case Clean => true
    case OpenLine(t) => '\n' !in t
    case OpenBlock(t) => BlockText(t)
    case OpenLiteral(q, t) => q in {'"', '\'', '`'} && LiteralText(q, t)
    case OpenEscape(q, t) => q in {'"', '\'', '`'} && LiteralText(q, t)
  }

  function PutSegment(s: Segment): string
  {
    match s
    case Code(t) => t
    case Literal(q, t) => [q] + t + [q]
    case Line(t) => "//" + t + "\n"
    case Block(t) => "/*" + t + "*/"
  }

  function PutEnd(e: End): string
  {
    match e
    case Clean => ""
    case OpenLine(t) => "//" + t
    case OpenBlock(t) => "/*" + t
    case OpenLiteral(q, t) => [q] + t
    case OpenEscape(q, t) => [q] + t + "\\"
  }

  function Put(segments: seq<Segment>, e: End): string
  {
    if segments == [] then PutEnd(e) else PutSegment(segments[0]) + Put(segments[1..], e)
  }

  predicate ValidScript(segments: seq<Segment>, e: End)
  {
    if segments == [] then ValidEnd(e)
    else ValidSegment(segments[0], Put(segments[1..], e)) && ValidScript(segments[1..], e)
  }

  function Long(t: string): seq<string>
  {
    if |t| > 2 then [t] else []
  }

  /** The literals longer than two bytes, also one that is never closed, but not one that breaks off in an escape. */
  function Bodies(segments: seq<Segment>, e: End): seq<string>
  {
    if segments == [] then if e.OpenLiteral? then Long(e.text) else []
    else (if segments[0].Literal? then Long(segments[0].text) else []) + Bodies(segments[1..], e)
  }

  // ----- a printed script yields its literals -----

  lemma {:induction false} LitLenIs(q: char, t: string, rest: string)
    requires LiteralText(q, t) && q != '\\' && (rest == "" || rest == "\\" || rest[0] == q)
    ensures LitLen(q, t + rest) == |t| + (if rest == "\\" then 2 else 0)
    decreases |t|
  {
    if t == "" {
      assert t + rest == rest;
    } else if t[0] == '\\' {
      assert Drop(t + rest, 2) == t[2..] + rest;
      LitLenIs(q, t[2..], rest);
    } else {
      assert (t + rest)[1..] == t[1..] + rest;
      LitLenIs(q, t[1..], rest);
    }
  }

  lemma {:induction false} LineLenIs(t: string, rest: string)
    requires '\n' !in t && (rest == "" || rest[0] == '\n')
    ensures LineLen(t + rest) == |t|
  {
    if t == "" {
      assert t + rest == rest;
    } else {
      assert (t + rest)[1..] == t[1..] + rest;
      LineLenIs(t[1..], rest);
    }
  }

  lemma {:induction false} BlockLenIs(t: string, rest: string)
    requires BlockText(t)
    ensures BlockLen(t + ("*/" + rest)) == |t|
  {
    var u := t + ("*/" + rest);
    if t == "" {
      assert u[..2] == "*/";
    } else {
      assert u[1..] == t[1..] + ("*/" + rest);
      assert |t| == 1 ==> u[..2] == [t[0], '*'];
      assert |t| > 1 ==> u[..2] == t[..2];
      BlockLenIs(t[1..], rest);
    }
  }

  lemma {:induction false} OpenBlockLen(t: string)
    requires BlockText(t)
    ensures BlockLen(t) + 2 > |t|
  {
    if |t| >= 2 {
      OpenBlockLen(t[1..]);
    }
  }

  lemma {:induction false} CodeIsSkipped(t: string, rest: string)
    requires CodeBefore(t, rest)
    ensures Literals(t + rest) == Literals(rest)
  {
    if t == "" {
      assert t + rest == rest;
    } else {
      assert (t + rest)[1..] == t[1..] + rest;
      AtCode(t + rest);
      CodeIsSkipped(t[1..], rest);
    }
  }

  lemma LiteralIsFound(q: char, t: string, rest: string)
    requires IsQuote(q) && LiteralText(q, t)
    ensures Literals([q] + t + [q] + rest) == Long(t) + Literals(rest)
  {
    var u := [q] + t + [q] + rest;
    assert u[1..] == t + ([q] + rest);
    LitLenIs(q, t, [q] + rest);
    AtQuote(u);
    assert u[1..][..|t|] == t;
    assert Drop(u, |t| + 2) == rest;
    hide Literals, LiteralText, LitLen;
  }

  lemma LineIsSkipped(t: string, rest: string)
    requires '\n' !in t
    ensures Literals("//" + t + "\n" + rest) == Literals(rest)
  {
    var u := "//" + t + "\n" + rest;
    assert u[2..] == t + ("\n" + rest);
    LineLenIs(t, "\n" + rest);
    AtLine(u);
    assert Drop(u, 2 + |t|) == "\n" + rest;
    AtCode("\n" + rest);
    assert ("\n" + rest)[1..] == rest;
    hide Literals, LineLen;
  }

  lemma BlockIsSkipped(t: string, rest: string)
    requires BlockText(t)
    ensures Literals("/*" + t + "*/" + rest) == Literals(rest)
  {
    var u := "/*" + t + "*/" + rest;
    assert u[2..] == t + ("*/" + rest);
    BlockLenIs(t, rest);
    AtBlock(u);
    assert Drop(u, 4 + |t|) == rest;
    hide Literals, BlockLen, BlockText;
  }

  lemma NothingAfter(t: string, q: char, n: nat)
    requires n + 1 >= |t|
    ensures Literals(Drop([q] + t, n + 2)) == [] && Found(t, |t|) == Long(t) && Found(t, |t| + 1) == []
  {
    assert t[..|t|] == t;
  }

  lemma OpenLiteralIsRead(q: char, t: string)
    requires IsQuote(q) && LiteralText(q, t)
    ensures Literals([q] + t) == Long(t) && Literals([q] + t + "\\") == []
  {
    var v := t + "\\";
    assert q != '\\';
    LitLenIs(q, t, "");
    LitLenIs(q, t, "\\");
    hide LitLen, LiteralText, Literals, Drop, Found, Long;
    assert ([q] + t)[1..] == t + "" && t + "" == t;
    AtQuote([q] + t);
    NothingAfter(t, q, |t|);
    assert [q] + t + "\\" == [q] + v && ([q] + v)[1..] == v;
    AtQuote([q] + v);
    NothingAfter(v, q, |v| + 1);
  }

  lemma OpenCommentIsRead(t: string)
    ensures '\n' !in t ==> Literals("//" + t) == []
    ensures BlockText(t) ==> Literals("/*" + t) == []
  {
    var u, v := "//" + t, "/*" + t;
    assert u[2..] == t + "" && t + "" == t && v[2..] == t;
    assert Literals("") == [];
    if '\n' !in t {
      LineLenIs(t, "");
      AtLine(u);
    }
    if BlockText(t) {
      OpenBlockLen(t);
      AtBlock(v);
    }
    hide BlockText, LineLen, BlockLen;
  }

  lemma EndIsRead(e: End)
    requires ValidEnd(e)
    ensures Literals(PutEnd(e)) == if e.OpenLiteral? then Long(e.text) else []
  {
    match e
    case Clean =>
    case OpenLine(t) => OpenCommentIsRead(t);
    case OpenBlock(t) => OpenCommentIsRead(t);
    case OpenLiteral(q, t) => OpenLiteralIsRead(q, t);
    case OpenEscape(q, t) => OpenLiteralIsRead(q, t);
  }

  /** A script made of these segments yields exactly its literals longer than two bytes, in order. */
  lemma {:induction false} PrintedLiteralsAreFound(segments: seq<Segment>, e: End)
    requires ValidScript(segments, e)
    ensures Literals(Put(segments, e)) == Bodies(segments, e)
  {
    if segments == [] {
      EndIsRead(e);
    } else {
      var rest := Put(segments[1..], e);
      PrintedLiteralsAreFound(segments[1..], e);
      match segments[0]
      case Code(t) => CodeIsSkipped(t, rest);
      case Literal(q, t) => LiteralIsFound(q, t, rest);
      case Line(t) => LineIsSkipped(t, rest);
      case Block(t) => BlockIsSkipped(t, rest);
    }
  }

  // ----- every script is made of such segments -----

  /** Where the walk finds a literal's end is where the text stops being free of quotes. */
  lemma {:induction false} LitLenText(q: char, t: string)
    requires q != '\\'
    ensures var n := LitLen(q, t);
      if n < |t| then LiteralText(q, t[..n]) && t[n] == q
      else if n == |t| then LiteralText(q, t)
      else |t| > 0 && LiteralText(q, t[..|t| - 1]) && t[|t| - 1] == '\\'
    decreases |t|
  {
    var n := LitLen(q, t);
    if t == "" || (t[0] == q && t[0] != '\\') {
      assert LiteralText(q, "");
    } else if t[0] == '\\' {
      if |t| == 1 {
        assert t[..0] == "" && LiteralText(q, "");
      } else {
        LitLenText(q, t[2..]);
        var m := if n <= |t| then n else |t| - 1;
        assert t[..m][2..] == t[2..][..m - 2];
        assert t[2..][..|t| - 2] == t[2..] && t[..|t|] == t;
      }
    } else {
      LitLenText(q, t[1..]);
      var m := if n <= |t| then n else |t| - 1;
      assert t[..m][1..] == t[1..][..m - 1];
      assert t[1..][..|t| - 1] == t[1..] && t[..|t|] == t;
    }
  }

  lemma {:induction false} LineLenText(t: string)
    ensures '\n' !in t[..LineLen(t)] && (LineLen(t) < |t| ==> t[LineLen(t)] == '\n')
  {
    if t != "" && t[0] != '\n' {
      LineLenText(t[1..]);
      assert t[..LineLen(t)] == [t[0]] + t[1..][..LineLen(t) - 1];
    }
  }

  lemma {:induction false} BlockLenText(t: string)
    ensures var n := BlockLen(t);
      if n + 2 <= |t| then BlockText(t[..n]) && t[n..n + 2] == "*/" else BlockText(t)
  {
    if |t| >= 2 && t[..2] != "*/" {
      BlockLenText(t[1..]);
      var m := BlockLen(t[1..]);
      if m + 3 <= |t| {
        assert t[..m + 1][1..] == t[1..][..m];
        assert t[m + 1..m + 3] == t[1..][m..m + 2];
        if m >= 1 {
          assert t[..m + 1][..2] == t[..2];
        }
      }
    }
  }

  lemma SplitLiteral(t: string) returns (s: seq<Segment>, e: End, rest: string)
    requires t != "" && IsQuote(t[0])
    ensures |rest| < |t| && ValidEnd(e) && (e != Clean ==> s == [] && rest == "" && t == PutEnd(e))
    ensures e == Clean ==> |s| == 1 && ValidSegment(s[0], rest) && t == PutSegment(s[0]) + rest
  {
    var q, u := t[0], t[1..];
    var n := LitLen(q, u);
    LitLenText(q, u);
    hide LitLen, LiteralText;
    s, e, rest := [], Clean, "";
    if n < |u| {
      s, rest := [Literal(q, u[..n])], u[n + 1..];
      assert t == [q] + u[..n] + [q] + rest;
    } else if n == |u| {
      e := OpenLiteral(q, u);
    } else {
      e := OpenEscape(q, u[..|u| - 1]);
    }
  }

  lemma SplitLine(t: string) returns (s: seq<Segment>, e: End, rest: string)
    requires |t| > 1 && t[0] == t[1] == '/'
    ensures |rest| < |t| && ValidEnd(e) && (e != Clean ==> s == [] && rest == "" && t == PutEnd(e))
    ensures e == Clean ==> |s| == 1 && ValidSegment(s[0], rest) && t == PutSegment(s[0]) + rest
  {
    var u := t[2..];
    var n := LineLen(u);
    LineLenText(u);
    hide LineLen;
    s, e, rest := [], Clean, "";
    if n < |u| {
      s, rest := [Line(u[..n])], u[n + 1..];
      assert t == "//" + u[..n] + "\n" + rest;
    } else {
      e := OpenLine(u);
      assert u[..n] == u && t == "//" + u;
    }
  }

  lemma SplitBlock(t: string) returns (s: seq<Segment>, e: End, rest: string)
    requires |t| > 1 && t[0] == '/' && t[1] == '*'
    ensures |rest| < |t| && ValidEnd(e) && (e != Clean ==> s == [] && rest == "" && t == PutEnd(e))
    ensures e == Clean ==> |s| == 1 && ValidSegment(s[0], rest) && t == PutSegment(s[0]) + rest
  {
    var u := t[2..];
    var n := BlockLen(u);
    BlockLenText(u);
    hide BlockLen, BlockText;
    s, e, rest := [], Clean, "";
    if n + 2 <= |u| {
      s, rest := [Block(u[..n])], u[n + 2..];
      assert t == "/*" + u[..n] + u[n..n + 2] + rest;
    } else {
      e := OpenBlock(u);
      assert t == "/*" + u;
    }
  }

  /** Every byte string is such a script, so the lemma above says what the walk yields on all of them. */
  lemma {:induction false} EveryScriptIsSegments(t: string) returns (segments: seq<Segment>, e: End)
    ensures ValidScript(segments, e) && Put(segments, e) == t
    decreases |t|
  {
    segments, e := [], Clean;
    if t == "" {
    } else {
      var s, rest;
      if IsQuote(t[0]) {
        s, e, rest := SplitLiteral(t);
      } else if t[0] == '/' && |t| > 1 && t[1] == '/' {
        s, e, rest := SplitLine(t);
      } else if t[0] == '/' && |t| > 1 && t[1] == '*' {
        s, e, rest := SplitBlock(t);
      } else {
        s, e, rest := [Code(t[..1])], Clean, t[1..];
        assert t[..1] + rest == t && t[..1][1..] == "";
      }
      if e == Clean {
        segments, e := EveryScriptIsSegments(rest);
        segments := s + segments;
      }
    }
  }
}
