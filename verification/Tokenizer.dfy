/**
 The shell tokenizer of src/from_curl.rs and the grammar of shell words it accepts.

 `Scan` is the tokenizer as a function of the remaining text. `Part` is an independent
 description of shell text: what may be written, and what each piece contributes to the
 current word. `TokenizesExactly` says the two agree on every input.
 */
module Tokenizer {
  import opened Wrappers

  type Tokens = Result<seq<string>, string>

  const OPEN_SINGLE := "unterminated single quote"
  const OPEN_DOUBLE := "unterminated double quote"

  predicate IsSpace(c: char)
  {
    c == ' ' || c == '\t' || c == '\n' || c == '\r'
  }

  /** What a backslash may escape inside double quotes. */
  predicate DoubleEscapable(c: char)
  {
    c == '"' || c == '\\' || c == '$' || c == '`' || c == '\n'
  }

  // ----- the tokenizer -----

  function Prepend(out: seq<string>, r: Tokens): Tokens
  {
    match r
    case Ok(v) => Ok(out + v)
    case Err(e) => Err(e)
  }

  lemma PrependTwice(a: seq<string>, b: seq<string>, r: Tokens)
    ensures Prepend(a, Prepend(b, r)) == Prepend(a + b, r)
    ensures Prepend([], r) == r
  {
    if r.Ok? {
      assert a + (b + r.value) == (a + b) + r.value && [] + r.value == r.value;
    }
  }

  /** Length of the text before the next single quote. */
  function SingleLength(s: string): (n: nat)
    ensures n <= |s| && (n < |s| ==> s[n] == '\'') && '\'' !in s[..n]
  {
    if s == "" || s[0] == '\'' then 0
    else
      var n := SingleLength(s[1..]);
      assert s[..n + 1] == [s[0]] + s[1..][..n];
      n + 1
  }

  datatype Quoted = Closed(body: string, rest: string) | Open

  /** The rest of a double-quoted string, after the opening quote; `acc` is the word so far. */
  function DoubleQuoted(s: string, acc: string): (q: Quoted)
    ensures q.Closed? ==> |q.rest| < |s|
    decreases |s|
  {
    if s == "" then Open
    else if s[0] == '"' then Closed(acc, s[1..])
    else if s[0] == '\\' && |s| > 1 && DoubleEscapable(s[1]) then
      DoubleQuoted(s[2..], if s[1] == '\n' then acc else acc + [s[1]])
    else DoubleQuoted(s[1..], acc + [s[0]])
  }

  /** Tokens of the remaining text, given the word under construction. */
  function Scan(s: string, cur: string, inToken: bool): Tokens
    decreases |s|
  {
    if s == "" then Ok(if inToken then [cur] else [])
    else if IsSpace(s[0]) then
      if inToken then Prepend([cur], Scan(s[1..], "", false)) else Scan(s[1..], cur, false)
    else if s[0] == '\\' && |s| > 1 && s[1] == '\n' then Scan(s[2..], cur, inToken)
    else if s[0] == '\\' && |s| > 1 then Scan(s[2..], cur + [s[1]], true)
    else if s[0] == '\'' then
      var n := SingleLength(s[1..]);
      if n == |s| - 1 then Err(OPEN_SINGLE) else Scan(s[n + 2..], cur + s[1..n + 1], true)
    else if s[0] == '"' then
      match DoubleQuoted(s[1..], cur)
      case Open => Err(OPEN_DOUBLE)
      case Closed(word, rest) => Scan(rest, word, true)
    else Scan(s[1..], cur + [s[0]], true)
  }

  method ScanSingle(chars: string, start: nat, word: string) returns (i: nat, cur: string)
    requires start <= |chars|
    ensures i == start + SingleLength(chars[start..])
    ensures cur == word + chars[start..i]
  {
    i, cur := start, word;
    while i < |chars| && chars[i] != '\''
      invariant start <= i <= |chars| && cur == word + chars[start..i]
      invariant SingleLength(chars[start..]) == i - start + SingleLength(chars[i..])
    {
      assert chars[i..][1..] == chars[i + 1..];
      cur := cur + [chars[i]];
      i := i + 1;
    }
  }

  method ScanDouble(chars: string, start: nat, word: string) returns (i: nat, cur: string)
    requires start <= |chars|
    ensures start <= i <= |chars|
    ensures DoubleQuoted(chars[start..], word) == if i < |chars| then Closed(cur, chars[i + 1..]) else Open
  {
    i, cur := start, word;
    while i < |chars| && chars[i] != '"'
      invariant start <= i <= |chars|
      invariant DoubleQuoted(chars[start..], word) == DoubleQuoted(chars[i..], cur)
    {
      assert chars[i..][1..] == chars[i + 1..];
      if chars[i] == '\\' && i + 1 < |chars| {
        var n := chars[i + 1];
        if DoubleEscapable(n) {
          assert chars[i..][2..] == chars[i + 2..];
          if n != '\n' {
            cur := cur + [n];
          }
          i := i + 2;
          continue;
        }
      }
      cur := cur + [chars[i]];
      i := i + 1;
    }
    if i < |chars| {
      assert chars[i..][1..] == chars[i + 1..];
    }
  }

  /** The loop of `Tokenize` at index `i`: the words emitted so far and the rest of the scan make the result. */
  ghost predicate At(input: string, i: nat, out: seq<string>, cur: string, inToken: bool)
  {
    && i <= |input| && (!inToken ==> cur == "")
    && Scan(input, "", false) == Prepend(out, Scan(input[i..], cur, inToken))
  }

  lemma AtStart(input: string)
    ensures At(input, 0, [], "", false)
  {
    assert input[0..] == input;
    PrependTwice([], [], Scan(input, "", false));
  }

  lemma AtEnd(input: string, out: seq<string>, cur: string, inToken: bool)
    requires At(input, |input|, out, cur, inToken)
    ensures Scan(input, "", false) == Ok(if inToken then out + [cur] else out)
  {
    assert input[|input|..] == "" && out + [] == out;
  }

  lemma AfterSpace(input: string, i: nat, out: seq<string>, cur: string, inToken: bool)
    requires i < |input| && At(input, i, out, cur, inToken) && IsSpace(input[i])
    ensures At(input, i + 1, if inToken then out + [cur] else out, "", false)
  {
    assert input[i..][1..] == input[i + 1..];
    PrependTwice(out, [cur], Scan(input[i + 1..], "", false));
  }

  lemma AfterBackslash(input: string, i: nat, out: seq<string>, cur: string, inToken: bool)
    requires i + 1 < |input| && At(input, i, out, cur, inToken) && input[i] == '\\'
    ensures if input[i + 1] == '\n' then At(input, i + 2, out, cur, inToken)
            else At(input, i + 2, out, cur + [input[i + 1]], true)
  {
    assert input[i..][2..] == input[i + 2..];
  }

  lemma AfterPlain(input: string, i: nat, out: seq<string>, cur: string, inToken: bool)
    requires i < |input| && At(input, i, out, cur, inToken)
    requires !IsSpace(input[i]) && input[i] != '\'' && input[i] != '"' && (input[i] == '\\' ==> i + 1 == |input|)
    ensures At(input, i + 1, out, cur + [input[i]], true)
  {
    assert input[i..][1..] == input[i + 1..];
  }

  lemma ScanAtQuote(s: string, cur: string, inToken: bool)
    requires s != "" && s[0] == '\''
    ensures var n := SingleLength(s[1..]);
            Scan(s, cur, inToken) ==
            if n == |s| - 1 then Err(OPEN_SINGLE) else Scan(s[n + 2..], cur + s[1..n + 1], true)
  {
  }

  lemma AfterSingle(input: string, i: nat, out: seq<string>, cur: string, inToken: bool, j: nat)
    requires i < |input| && At(input, i, out, cur, inToken) && input[i] == '\''
    requires j == i + 1 + SingleLength(input[i + 1..])
    ensures if j == |input| then Scan(input, "", false) == Err(OPEN_SINGLE)
            else j < |input| && At(input, j + 1, out, cur + input[i + 1..j], true)
  {
    hide Scan, SingleLength;
    var s := input[i..];
    assert s[1..] == input[i + 1..];
    ScanAtQuote(s, cur, inToken);
    assert |s| == |input| - i;
    var n := SingleLength(s[1..]);
    assert n + 2 <= |s| + 1 && j == i + 1 + n;
    if j < |input| {
      assert s[n + 2..] == input[j + 1..];
      assert s[1..n + 1] == input[i + 1..j];
    }
  }

  lemma AfterDouble(input: string, i: nat, out: seq<string>, cur: string, inToken: bool, j: nat, word: string)
    requires i < |input| && At(input, i, out, cur, inToken) && input[i] == '"' && i + 1 <= j <= |input|
    requires DoubleQuoted(input[i + 1..], cur) == if j < |input| then Closed(word, input[j + 1..]) else Open
    ensures if j == |input| then Scan(input, "", false) == Err(OPEN_DOUBLE) else At(input, j + 1, out, word, true)
  {
    assert input[i..][1..] == input[i + 1..];
  }

  method Tokenize(input: string) returns (r: Tokens)
    ensures r == Scan(input, "", false)
  {
    hide Scan, DoubleQuoted, SingleLength;
    var out: seq<string> := [];
    var cur, inToken, i := "", false, 0;
    AtStart(input);
    while i < |input|
      invariant At(input, i, out, cur, inToken)
    {
      var c := input[i];
      if IsSpace(c) {
        AfterSpace(input, i, out, cur, inToken);
        if inToken {
          out := out + [cur];
          cur, inToken := "", false;
        }
        i := i + 1;
      } else if c == '\\' && i + 1 < |input| && input[i + 1] == '\n' {
        AfterBackslash(input, i, out, cur, inToken);
        i := i + 2;
      } else if c == '\\' && i + 1 < |input| {
        AfterBackslash(input, i, out, cur, inToken);
        inToken, cur := true, cur + [input[i + 1]];
        i := i + 2;
      } else if c == '\'' {
        ghost var start, word, was := i, cur, inToken;
        inToken := true;
        i, cur := ScanSingle(input, i + 1, cur);
        AfterSingle(input, start, out, word, was, i);
        if i >= |input| {
          return Err(OPEN_SINGLE);
        }
        i := i + 1;
      } else if c == '"' {
        ghost var start, word, was := i, cur, inToken;
        inToken := true;
        i, cur := ScanDouble(input, i + 1, cur);
        AfterDouble(input, start, out, word, was, i, cur);
        if i >= |input| {
          return Err(OPEN_DOUBLE);
        }
        i := i + 1;
      } else {
        AfterPlain(input, i, out, cur, inToken);
        inToken, cur := true, cur + [c];
        i := i + 1;
      }
    }
    AtEnd(input, out, cur, inToken);
    if inToken {
      out := out + [cur];
    }
    return Ok(out);
  }

  // ----- shell text -----

  datatype DoublePart =
    | Raw(c: char)
    | Escaped(c: char)
    | Joined                      // backslash, newline: nothing

  datatype Part =
    | Space(c: char)
    | Joint                       // backslash, newline outside quotes: nothing
    | Plain(c: char)
    | Backslash(c: char)
    | Single(body: string)
    | Double(parts: seq<DoublePart>)

  function DoubleText(ps: seq<DoublePart>): string
  {
    if ps == [] then ""
    else
      (match ps[0]
       case Raw(c) => [c]
       case Escaped(c) => ['\\', c]
       case Joined => ['\\', '\n']) + DoubleText(ps[1..])
  }

  function DoubleValue(ps: seq<DoublePart>): string
  {
    if ps == [] then ""
    else (if ps[0].Joined? then [] else [ps[0].c]) + DoubleValue(ps[1..])
  }

  /** A backslash stands for itself only in front of a character it cannot escape. */
  predicate DoubleOk(ps: seq<DoublePart>)
  {
    ps == [] ||
    (&& DoubleOk(ps[1..])
     && match ps[0]
        case Raw(c) =>
          c != '"' && (c == '\\' ==> |ps| > 1 && ps[1].Raw? && ps[1].c !in {'"', '\\', '$', '`', '\n'})
        case Escaped(c) => c in {'"', '\\', '$', '`'}
        case Joined => true)
  }

  function PartText(p: Part): string
  {
    match p
    case Space(c) => [c]
    case Joint => ['\\', '\n']
    case Plain(c) => [c]
    case Backslash(c) => ['\\', c]
    case Single(body) => "'" + body + "'"
    case Double(ps) => "\"" + DoubleText(ps) + "\""
  }

  function Text(ps: seq<Part>): string
  {
    if ps == [] then "" else PartText(ps[0]) + Text(ps[1..])
  }

  predicate PartsOk(ps: seq<Part>)
  {
    ps == [] ||
    (&& PartsOk(ps[1..])
     && match ps[0]
        case Space(c) => c in {' ', '\t', '\n', '\r'}
        case Joint => true
        case Plain(c) => c !in {' ', '\t', '\n', '\r', '\'', '"'} && (c == '\\' ==> |ps| == 1)
        case Backslash(c) => c != '\n'
        case Single(body) => '\'' !in body
        case Double(ds) => DoubleOk(ds))
  }

  /** The words a text stands for: maximal runs of parts other than white space. */
  function Words(ps: seq<Part>, cur: string, inToken: bool): seq<string>
  {
    if ps == [] then if inToken then [cur] else []
    else
      match ps[0]
      case Space(_) => if inToken then [cur] + Words(ps[1..], "", false) else Words(ps[1..], cur, false)
      case Joint => Words(ps[1..], cur, inToken)
      case Plain(c) => Words(ps[1..], cur + [c], true)
      case Backslash(c) => Words(ps[1..], cur + [c], true)
      case Single(body) => Words(ps[1..], cur + body, true)
      case Double(ds) => Words(ps[1..], cur + DoubleValue(ds), true)
  }

  // ----- every valid text is read back -----

  lemma DoubleQuotedPlain(c: char, tail: string, acc: string)
    requires c != '"' && (c == '\\' ==> tail != "" && !DoubleEscapable(tail[0]))
    ensures DoubleQuoted([c] + tail, acc) == DoubleQuoted(tail, acc + [c])
  {
    assert ([c] + tail)[1..] == tail;
  }

  lemma DoubleQuotedEscape(c: char, tail: string, acc: string)
    requires DoubleEscapable(c)
    ensures DoubleQuoted(['\\', c] + tail, acc) == DoubleQuoted(tail, if c == '\n' then acc else acc + [c])
  {
    assert (['\\', c] + tail)[2..] == tail;
  }

  /** One double-quoted piece is read as what it stands for. */
  lemma DoublePartReads(ps: seq<DoublePart>, acc: string, rest: string)
    requires ps != [] && DoubleOk(ps)
    ensures DoubleQuoted(DoubleText(ps) + "\"" + rest, acc) ==
            DoubleQuoted(DoubleText(ps[1..]) + "\"" + rest, if ps[0].Joined? then acc else acc + [ps[0].c])
  {
    hide DoubleQuoted;
    var s, tail := DoubleText(ps) + "\"" + rest, DoubleText(ps[1..]) + "\"" + rest;
    match ps[0]
    case Raw(c) =>
      assert s == [c] + tail;
      if c == '\\' {
        assert tail[0] == ps[1].c;
      }
      DoubleQuotedPlain(c, tail, acc);
    case Escaped(c) =>
      assert s == ['\\', c] + tail;
      DoubleQuotedEscape(c, tail, acc);
    case Joined =>
      assert s == ['\\', '\n'] + tail;
      DoubleQuotedEscape('\n', tail, acc);
  }

  lemma {:induction false} DoubleReadsBack(ps: seq<DoublePart>, acc: string, rest: string)
    requires DoubleOk(ps)
    ensures DoubleQuoted(DoubleText(ps) + "\"" + rest, acc) == Closed(acc + DoubleValue(ps), rest)
    decreases |ps|
  {
    if ps == [] {
      var s := DoubleText(ps) + "\"" + rest;
      assert s == "\"" + rest && s[1..] == rest;
      assert acc + DoubleValue(ps) == acc;
    } else {
      var acc' := if ps[0].Joined? then acc else acc + [ps[0].c];
      DoublePartReads(ps, acc, rest);
      DoubleReadsBack(ps[1..], acc', rest);
      assert acc + DoubleValue(ps) == acc' + DoubleValue(ps[1..]);
    }
  }

  lemma {:induction false} SingleReadsBack(body: string, rest: string)
    requires '\'' !in body
    ensures SingleLength(body + "'" + rest) == |body|
    decreases |body|
  {
    var s := body + "'" + rest;
    if body == "" {
    } else {
      assert s[1..] == body[1..] + "'" + rest;
      SingleReadsBack(body[1..], rest);
    }
  }

  lemma ScanSinglePart(body: string, rest: string, cur: string, inToken: bool)
    requires '\'' !in body
    ensures Scan("'" + body + "'" + rest, cur, inToken) == Scan(rest, cur + body, true)
  {
    var s := "'" + body + "'" + rest;
    assert s[1..] == body + "'" + rest;
    SingleReadsBack(body, rest);
    assert s[1..|body| + 1] == body && s[|body| + 2..] == rest;
  }

  lemma ScanDoublePart(ds: seq<DoublePart>, rest: string, cur: string, inToken: bool)
    requires DoubleOk(ds)
    ensures Scan("\"" + DoubleText(ds) + "\"" + rest, cur, inToken) == Scan(rest, cur + DoubleValue(ds), true)
  {
    var s := "\"" + DoubleText(ds) + "\"" + rest;
    assert s[1..] == DoubleText(ds) + "\"" + rest;
    DoubleReadsBack(ds, cur, rest);
  }

  lemma {:induction false} ValidTextReadsBack(ps: seq<Part>, cur: string, inToken: bool)
    requires PartsOk(ps)
    ensures Scan(Text(ps), cur, inToken) == Ok(Words(ps, cur, inToken))
    decreases |ps|
  {
    if ps == [] {
    } else {
      var s, rest := Text(ps), Text(ps[1..]);
      match ps[0]
      case Space(c) =>
        assert s[1..] == rest;
        if inToken {
          ValidTextReadsBack(ps[1..], "", false);
        } else {
          ValidTextReadsBack(ps[1..], cur, false);
        }
      case Joint =>
        assert s[2..] == rest;
        ValidTextReadsBack(ps[1..], cur, inToken);
      case Plain(c) =>
        assert s[1..] == rest;
        ValidTextReadsBack(ps[1..], cur + [c], true);
      case Backslash(c) =>
        assert s[2..] == rest;
        ValidTextReadsBack(ps[1..], cur + [c], true);
      case Single(body) =>
        ScanSinglePart(body, rest, cur, inToken);
        ValidTextReadsBack(ps[1..], cur + body, true);
      case Double(ds) =>
        ScanDoublePart(ds, rest, cur, inToken);
        ValidTextReadsBack(ps[1..], cur + DoubleValue(ds), true);
    }
  }

  // ----- every accepted text is valid -----

  lemma {:induction false} DoubleIsParts(s: string, acc: string) returns (ds: seq<DoublePart>)
    requires DoubleQuoted(s, acc).Closed?
    ensures DoubleOk(ds) && s == DoubleText(ds) + "\"" + DoubleQuoted(s, acc).rest
    ensures s[0] != '"' ==> ds != [] && (ds[0].Raw? ==> ds[0].c == s[0]) && (!ds[0].Raw? ==> s[0] == '\\')
    ensures s[0] == '"' ==> ds == []
    decreases |s|
  {
    hide DoubleOk, DoubleText, DoubleQuoted, DoubleEscapable;
    DoubleStep(s, acc);
    if s[0] == '"' {
      ds := [];
      NoDoubleParts();
    } else if s[0] == '\\' && |s| > 1 && DoubleEscapable(s[1]) {
      var tail := DoubleIsParts(s[2..], if s[1] == '\n' then acc else acc + [s[1]]);
      ds := [if s[1] == '\n' then Joined else Escaped(s[1])] + tail;
      EscapedInFront(s, tail);
      assert s == [s[0], s[1]] + s[2..];
    } else {
      var tail := DoubleIsParts(s[1..], acc + [s[0]]);
      ds := [Raw(s[0])] + tail;
      RawInFront(s, tail);
      assert s == [s[0]] + s[1..];
    }
  }

  lemma DoubleStep(s: string, acc: string)
    requires DoubleQuoted(s, acc).Closed?
    ensures s != "" && (s[0] != '"' ==> |s| > 1)
    ensures DoubleQuoted(s, acc) ==
            if s[0] == '"' then Closed(acc, s[1..])
            else if s[0] == '\\' && DoubleEscapable(s[1]) then
              DoubleQuoted(s[2..], if s[1] == '\n' then acc else acc + [s[1]])
            else DoubleQuoted(s[1..], acc + [s[0]])
    ensures s[0] != '"' && !(s[0] == '\\' && DoubleEscapable(s[1])) ==> s[1..] != ""
  {
  }

  lemma NoDoubleParts()
    ensures DoubleOk([]) && DoubleText([]) == ""
  {
  }

  lemma EscapedInFront(s: string, tail: seq<DoublePart>)
    requires |s| > 1 && s[0] == '\\' && DoubleEscapable(s[1]) && DoubleOk(tail)
    ensures var ds := [if s[1] == '\n' then Joined else Escaped(s[1])] + tail;
            DoubleOk(ds) && DoubleText(ds) == [s[0], s[1]] + DoubleText(tail)
  {
    assert ([if s[1] == '\n' then Joined else Escaped(s[1])] + tail)[1..] == tail;
  }

  /** A character read as it is may stand in front of the rest. */
  lemma RawInFront(s: string, tail: seq<DoublePart>)
    requires |s| > 1 && s[0] != '"' && (s[0] == '\\' ==> !DoubleEscapable(s[1])) && DoubleOk(tail)
    requires s[1] != '"' ==> tail != [] && (tail[0].Raw? ==> tail[0].c == s[1]) && (!tail[0].Raw? ==> s[1] == '\\')
    ensures var ds := [Raw(s[0])] + tail; DoubleOk(ds) && DoubleText(ds) == [s[0]] + DoubleText(tail)
  {
    assert ([Raw(s[0])] + tail)[1..] == tail;
  }

  /** An accepted text starts with a valid part, after which the scan goes on. */
  lemma FirstPart(s: string, cur: string, inToken: bool)
    returns (head: Part, rest: string, cur': string, inToken': bool)
    requires s != "" && Scan(s, cur, inToken).Ok?
    ensures s == PartText(head) + rest && |rest| < |s|
    ensures PartsOk([head]) && (head == Plain('\\') ==> rest == "")
    ensures Scan(rest, cur', inToken').Ok?
  {
    if IsSpace(s[0]) {
      head, rest, cur', inToken' := Space(s[0]), s[1..], if inToken then "" else cur, false;
    } else if s[0] == '\\' && |s| > 1 {
      rest := s[2..];
      if s[1] == '\n' {
        head, cur', inToken' := Joint, cur, inToken;
      } else {
        head, cur', inToken' := Backslash(s[1]), cur + [s[1]], true;
      }
    } else if s[0] == '\'' {
      var n := SingleLength(s[1..]);
      head, rest, cur', inToken' := Single(s[1..n + 1]), s[n + 2..], cur + s[1..n + 1], true;
      assert s == "'" + s[1..n + 1] + "'" + s[n + 2..];
      assert s[1..][..n] == s[1..n + 1];
    } else if s[0] == '"' {
      var q := DoubleQuoted(s[1..], cur);
      var ds := DoubleIsParts(s[1..], cur);
      head, rest, cur', inToken' := Double(ds), q.rest, q.body, true;
    } else {
      head, rest, cur', inToken' := Plain(s[0]), s[1..], cur + [s[0]], true;
    }
  }

  lemma {:induction false} AcceptedIsParts(s: string, cur: string, inToken: bool) returns (ps: seq<Part>)
    requires Scan(s, cur, inToken).Ok?
    ensures PartsOk(ps) && Text(ps) == s
    decreases |s|
  {
    if s == "" {
      return [];
    }
    var head, rest, cur', inToken' := FirstPart(s, cur, inToken);
    var tail := AcceptedIsParts(rest, cur', inToken');
    ps := [head] + tail;
    assert ps[1..] == tail && [head][1..] == [];
  }

  /** The tokenizer accepts exactly the shell texts and returns exactly the words they stand for. */
  lemma TokenizesExactly(input: string, words: seq<string>)
    ensures Scan(input, "", false) == Ok(words) <==>
            exists ps :: PartsOk(ps) && Text(ps) == input && Words(ps, "", false) == words
  {
    if Scan(input, "", false) == Ok(words) {
      var ps := AcceptedIsParts(input, "", false);
      ValidTextReadsBack(ps, "", false);
    }
    if ps :| PartsOk(ps) && Text(ps) == input && Words(ps, "", false) == words {
      ValidTextReadsBack(ps, "", false);
    }
  }

  // ----- quoting an argument list -----

  /** `'it'\''s'`: single-quoted runs joined by escaped quotes, the way browsers copy a request. */
  function QuoteSingle(arg: string): (ps: seq<Part>)
    ensures ps != [] && PartsOk(ps) && forall i | 0 <= i < |ps| :: !ps[i].Plain?
    decreases |arg|
  {
    var n := SingleLength(arg);
    if n == |arg| then
      assert arg[..n] == arg;
      [Single(arg)]
    else [Single(arg[..n]), Backslash('\'')] + QuoteSingle(arg[n + 1..])
  }

  function QuoteDoubleParts(arg: string): (ds: seq<DoublePart>)
    ensures DoubleOk(ds) && DoubleValue(ds) == arg
  {
    if arg == "" then []
    else
      [if DoubleEscapable(arg[0]) && arg[0] != '\n' then Escaped(arg[0]) else Raw(arg[0])] + QuoteDoubleParts(arg[1..])
  }

  function Quote(arg: string, single: bool): (ps: seq<Part>)
    ensures ps != [] && PartsOk(ps) && forall i | 0 <= i < |ps| :: !ps[i].Plain?
  {
    if single then QuoteSingle(arg) else [Double(QuoteDoubleParts(arg))]
  }

  /** White space between words, possibly with line continuations. */
  predicate IsGap(gap: seq<Part>)
  {
    gap != [] && gap[0].Space? && PartsOk(gap) && forall i | 0 <= i < |gap| :: gap[i].Space? || gap[i].Joint?
  }

  /** A command line: each argument quoted in the style asked for, followed by the gap. */
  function Line(args: seq<string>, single: string -> bool, gap: seq<Part>): seq<Part>
  {
    if args == [] then [] else Quote(args[0], single(args[0])) + (gap + Line(args[1..], single, gap))
  }

  lemma {:induction false} PartsOkConcat(a: seq<Part>, b: seq<Part>)
    requires PartsOk(a) && PartsOk(b) && forall i | 0 <= i < |a| :: a[i] != Plain('\\')
    ensures PartsOk(a + b)
  {
    if a == [] {
      assert a + b == b;
    } else {
      assert (a + b)[1..] == a[1..] + b;
      PartsOkConcat(a[1..], b);
    }
  }

  lemma {:induction false} QuoteSingleIsOneWord(arg: string, rest: seq<Part>, cur: string, inToken: bool)
    ensures Words(QuoteSingle(arg) + rest, cur, inToken) == Words(rest, cur + arg, true)
    decreases |arg|
  {
    var n := SingleLength(arg);
    var ps := QuoteSingle(arg) + rest;
    if n == |arg| {
      assert ps == [Single(arg)] + rest && ps[1..] == rest;
    } else {
      var tail := QuoteSingle(arg[n + 1..]) + rest;
      assert ps == [Single(arg[..n]), Backslash('\'')] + tail;
      TwoPartsThen(arg[..n], tail, cur, inToken);
      QuoteSingleIsOneWord(arg[n + 1..], rest, cur + arg[..n] + ['\''], true);
      assert cur + arg[..n] + ['\''] + arg[n + 1..] == cur + arg;
    }
  }

  lemma TwoPartsThen(body: string, tail: seq<Part>, cur: string, inToken: bool)
    ensures Words([Single(body), Backslash('\'')] + tail, cur, inToken) == Words(tail, cur + body + ['\''], true)
  {
    var ps := [Single(body), Backslash('\'')] + tail;
    assert ps[1..][0] == Backslash('\'') && ps[1..][1..] == tail;
  }

  lemma QuoteIsOneWord(arg: string, single: bool, rest: seq<Part>)
    ensures Words(Quote(arg, single) + rest, "", false) == Words(rest, arg, true)
  {
    if single {
      QuoteSingleIsOneWord(arg, rest, "", false);
      assert "" + arg == arg;
    } else {
      assert (Quote(arg, single) + rest)[1..] == rest;
      assert "" + arg == arg;
    }
  }

  lemma {:induction false} GapIsSkipped(gap: seq<Part>, rest: seq<Part>)
    requires forall i | 0 <= i < |gap| :: gap[i].Space? || gap[i].Joint?
    ensures Words(gap + rest, "", false) == Words(rest, "", false)
  {
    if gap == [] {
      assert gap + rest == rest;
    } else {
      assert (gap + rest)[1..] == gap[1..] + rest;
      GapIsSkipped(gap[1..], rest);
    }
  }

  lemma {:induction false} LineWords(args: seq<string>, single: string -> bool, gap: seq<Part>)
    requires IsGap(gap)
    ensures PartsOk(Line(args, single, gap)) && Words(Line(args, single, gap), "", false) == args
  {
    if args == [] {
    } else {
      var quoted, rest := Quote(args[0], single(args[0])), Line(args[1..], single, gap);
      LineWords(args[1..], single, gap);
      QuoteIsOneWord(args[0], single(args[0]), gap + rest);
      PartsOkConcat(gap, rest);
      PartsOkConcat(quoted, gap + rest);
      assert (gap + rest)[1..] == gap[1..] + rest;
      GapIsSkipped(gap[1..], rest);
    }
  }

  /** Quoting then tokenizing is the identity on argument lists: empty arguments, newlines, backslashes and
      both kinds of quotes included, for either quoting style and any white space or continuation between. */
  lemma QuotedLineReadsBack(args: seq<string>, single: string -> bool, gap: seq<Part>)
    requires IsGap(gap)
    ensures Scan(Text(Line(args, single, gap)), "", false) == Ok(args)
  {
    LineWords(args, single, gap);
    ValidTextReadsBack(Line(args, single, gap), "", false);
  }
}
