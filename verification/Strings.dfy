/** The string functions of the Rust standard library that the parsers use. */
module Strings {
  import opened Wrappers

  /** The characters with the Unicode property White_Space, as `char::is_whitespace` has them. */
  predicate IsWhitespace(c: char)
  {
    var n := c as int;
    || 0x09 <= n <= 0x0D || n == 0x20 || n == 0x85 || n == 0xA0 || n == 0x1680
    || 0x2000 <= n <= 0x200A || n == 0x2028 || n == 0x2029 || n == 0x202F || n == 0x205F || n == 0x3000
  }

  function TrimStart(s: string): (r: string)
    ensures r == "" || !IsWhitespace(r[0])
  {
    if s == "" then "" else if IsWhitespace(s[0]) then TrimStart(s[1..]) else s
  }

  function TrimEnd(s: string): (r: string)
    ensures r <= s
    ensures r == "" || !IsWhitespace(r[|r| - 1])
  {
    if s == "" then ""
    else if IsWhitespace(s[|s| - 1]) then TrimEnd(s[..|s| - 1])
    else s
  }

  function Trim(s: string): (r: string)
    ensures Trimmed(r)
  {
    TrimEnd(TrimStart(s))
  }

  predicate Trimmed(s: string)
  {
    s == "" || (!IsWhitespace(s[0]) && !IsWhitespace(s[|s| - 1]))
  }

  lemma TrimTrimmed(s: string)
    ensures Trim(s) == s <==> Trimmed(s)
  {
  }

  predicate Blank(s: string)
  {
    forall i | 0 <= i < |s| :: IsWhitespace(s[i])
  }

  lemma BlankEmpty()
    ensures Blank("")
  {
  }

  /** White space has none of the characters that separate the parts of a line. */
  lemma BlankSeparatesNothing(s: string)
    requires Blank(s)
    ensures '=' !in s && '#' !in s && ':' !in s
  {
  }

  /** Trimming takes the white space off both ends and nothing else. */
  lemma {:induction false} TrimPadded(before: string, s: string, after: string)
    requires Trimmed(s)
    requires Blank(before) && Blank(after)
    ensures Trim(before + s + after) == s
    decreases |before| + |after|
  {
    if before != "" {
      assert before + s + after == [before[0]] + (before[1..] + s + after);
      TrimPadded(before[1..], s, after);
    } else if after != "" {
      var front := after[..|after| - 1];
      assert before + s + after == (s + front) + [after[|front|]];
      TrimPadded("", s, front);
      assert "" + s + front == s + front;
      TrimDropsLast(s + front, after[|front|]);
    } else {
      assert before + s + after == s;
      TrimTrimmed(s);
    }
  }

  lemma {:induction false} TrimDropsLast(s: string, c: char)
    requires IsWhitespace(c)
    ensures Trim(s + [c]) == Trim(s)
    decreases |s|
  {
    if s != "" && IsWhitespace(s[0]) {
      assert (s + [c])[1..] == s[1..] + [c];
      TrimDropsLast(s[1..], c);
    } else if s == "" {
      assert (s + [c])[1..] == "";
    } else {
      assert (s + [c])[..|s|] == s;
    }
  }

  function LowerChar(c: char): char
  {
    if 'A' <= c <= 'Z' then (c as int + 32) as char else c
  }

  /** `to_ascii_lowercase`. */
  function Lower(s: string): (r: string)
    ensures |r| == |s| && forall i | 0 <= i < |s| :: r[i] == LowerChar(s[i])
  {
    seq(|s|, i requires 0 <= i < |s| => LowerChar(s[i]))
  }

  predicate StartsWith(s: string, prefix: string)
  {
    prefix <= s
  }

  /** Index of the first occurrence, or the length. */
  function Find(s: string, c: char): (n: nat)
    ensures n <= |s| && (n < |s| ==> s[n] == c) && (forall i | 0 <= i < n :: s[i] != c)
  {
    if s == "" || s[0] == c then 0 else 1 + Find(s[1..], c)
  }

  /** `split_once`. */
  function SplitOnce(s: string, c: char): (r: Option<(string, string)>)
    ensures r == None <==> c !in s
    ensures r.Some? ==> s == r.value.0 + [c] + r.value.1 && c !in r.value.0
  {
    var n := Find(s, c);
    if n == |s| then None else Some((s[..n], s[n + 1..]))
  }

  lemma FindIn(a: string, c: char, b: string)
    requires c !in a
    ensures Find(a + [c] + b, c) == |a|
    ensures SplitOnce(a + [c] + b, c) == Some((a, b))
  {
    var s := a + [c] + b;
    assert s[|a|] == c;
    assert forall i | 0 <= i < |a| :: s[i] == a[i];
    assert s[..|a|] == a && s[|a| + 1..] == b;
  }

  /** What stands in front of a comment. */
  lemma CutAtHash(text: string, comment: string)
    requires '#' !in text && (comment == "" || comment[0] == '#')
    ensures (text + comment)[..Find(text + comment, '#')] == text
  {
    if comment == "" {
      assert text + comment == text;
    } else {
      assert text + comment == text + ['#'] + comment[1..];
      FindIn(text, '#', comment[1..]);
    }
  }

  /** `split`: the fields between separators, always at least one. */
  function Split(s: string, c: char): (r: seq<string>)
    ensures r != []
    decreases |s|
  {
    var n := Find(s, c);
    if n == |s| then [s] else [s[..n]] + Split(s[n + 1..], c)
  }

  function Joined(parts: seq<string>, c: char): string
    requires parts != []
  {
    if |parts| == 1 then parts[0] else parts[0] + [c] + Joined(parts[1..], c)
  }

  /** The fields are those that were joined, if none of them has the separator. */
  lemma {:induction false} SplitJoined(parts: seq<string>, c: char)
    requires parts != [] && forall i | 0 <= i < |parts| :: c !in parts[i]
    ensures Split(Joined(parts, c), c) == parts
  {
    var s := Joined(parts, c);
    if |parts| == 1 {
      assert Find(s, c) == |s|;
    } else {
      FindIn(parts[0], c, Joined(parts[1..], c));
      assert s[|parts[0]| + 1..] == Joined(parts[1..], c) && s[..|parts[0]|] == parts[0];
      SplitJoined(parts[1..], c);
    }
  }

  /** `lines`: terminated by a line feed, without it and without one carriage return before it. */
  function Lines(s: string): seq<string>
    decreases |s|
  {
    if s == "" then []
    else
      var n := Find(s, '\n');
      if n == |s| then [s] else [DropCr(s[..n])] + Lines(s[n + 1..])
  }

  function DropCr(s: string): string
  {
    if s != "" && s[|s| - 1] == '\r' then s[..|s| - 1] else s
  }

  /** Every line followed by a line feed, some with a carriage return before it. */
  function Written(lines: seq<(string, bool)>): string
  {
    if lines == [] then "" else lines[0].0 + (if lines[0].1 then "\r" else "") + "\n" + Written(lines[1..])
  }

  /** Written lines are read as they were, whichever ending each has. */
  lemma {:induction false} LinesWritten(lines: seq<(string, bool)>)
    requires forall l | l in lines :: '\n' !in l.0 && DropCr(l.0) == l.0
    ensures |Lines(Written(lines))| == |lines|
    ensures forall i | 0 <= i < |lines| :: Lines(Written(lines))[i] == lines[i].0
  {
    if lines == [] {
    } else {
      LinesWritten(lines[1..]);
      FirstLine(lines[0].0, lines[0].1, Written(lines[1..]));
    }
  }

  lemma FirstLine(line: string, cr: bool, rest: string)
    requires '\n' !in line && DropCr(line) == line
    ensures Lines(line + (if cr then "\r" else "") + "\n" + rest) == [line] + Lines(rest)
  {
    hide Lines, DropCr, Find;
    var ended := line + (if cr then "\r" else "");
    assert '\n' !in ended;
    assert ended + "\n" + rest == ended + ['\n'] + rest;
    FindIn(ended, '\n', rest);
    LinesUnfold(ended, rest);
    CrDropped(line, cr);
  }

  lemma LinesUnfold(ended: string, rest: string)
    requires Find(ended + ['\n'] + rest, '\n') == |ended|
    ensures Lines(ended + ['\n'] + rest) == [DropCr(ended)] + Lines(rest)
  {
    var s := ended + ['\n'] + rest;
    assert s[..|ended|] == ended && s[|ended| + 1..] == rest;
  }

  lemma CrDropped(line: string, cr: bool)
    requires DropCr(line) == line
    ensures DropCr(line + (if cr then "\r" else "")) == line
  {
    if cr {
      assert (line + "\r")[..|line|] == line;
    } else {
      assert line + "" == line;
    }
  }
}
