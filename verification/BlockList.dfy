/**
 The domain block list of src/adblock/mod.rs: its line parser, the set it fills and the suffix match.
 */
module BlockList {
  import opened Wrappers
  import opened Strings

  predicate DomainChar(c: char)
  {
    'a' <= c <= 'z' || 'A' <= c <= 'Z' || '0' <= c <= '9' || c == '.' || c == '-' || c == '_'
  }

  /** Up to the first character that no domain has. */
  function Domain(s: string): (r: string)
    ensures r <= s && forall c | c in r :: DomainChar(c)
    ensures (forall c | c in s :: DomainChar(c)) ==> r == s
  {
    if s == "" || !DomainChar(s[0]) then "" else [s[0]] + Domain(s[1..])
  }

  function DotsOffEnd(s: string): (r: string)
    ensures r <= s && (r == "" || r[|r| - 1] != '.')
    ensures s == "" || s[|s| - 1] != '.' ==> r == s
  {
    if s != "" && s[|s| - 1] == '.' then DotsOffEnd(s[..|s| - 1]) else s
  }

  function DotsOffStart(s: string): (r: string)
    ensures |r| <= |s| && r == s[|s| - |r|..] && (r == "" || r[0] != '.')
    ensures s == "" || s[0] != '.' ==> r == s
  {
    if s != "" && s[0] == '.' then DotsOffStart(s[1..]) else s
  }

  /** `trim_matches('.')`. */
  function DotsOff(s: string): (r: string)
    ensures r == "" || (r[0] != '.' && r[|r| - 1] != '.')
    ensures |r| <= |s| && forall c | c in r :: c in s
  {
    DotsOffEnd(DotsOffStart(s))
  }

  predicate HasPart(s: string, part: string)
  {
    part <= s || (s != "" && HasPart(s[1..], part))
  }

  /** The characters before the first white space. */
  function Word(s: string): (r: string)
    ensures r <= s && forall c | c in r :: !IsWhitespace(c)
  {
    if s == "" || IsWhitespace(s[0]) then "" else [s[0]] + Word(s[1..])
  }

  /** `split_whitespace().nth(1)`, empty if there is none. */
  function SecondWord(s: string): (r: string)
    ensures forall c | c in r :: !IsWhitespace(c)
  {
    var t := TrimStart(s);
    Word(TrimStart(t[|Word(t)|..]))
  }

  predicate IsRule(trimmed: string)
  {
    && trimmed != "" && trimmed[0] != '!' && trimmed[0] != '['
    && !HasPart(trimmed, "##") && !HasPart(trimmed, "#@#") && !HasPart(trimmed, "#?#")
  }

  function Candidate(rule: string): string
  {
    if "||" <= rule then Domain(rule[2..])
    else if "0.0.0.0 " <= rule || "127.0.0.1 " <= rule then SecondWord(rule)
    else Domain(rule)
  }

  function ParseLine(line: string): Option<string>
  {
    var trimmed := Trim(line);
    if !IsRule(trimmed) then None
    else
      var rule := Trim(trimmed[..Find(trimmed, '#')]);
      var host := Lower(DotsOff(Candidate(rule)));
      if rule == "" || host == "" || '.' !in host then None else Some(host)
  }

  // ----- how a domain is written -----

  /** A domain as lists have it: letters, digits, dots, hyphens and underscores, with an inner dot. */
  predicate Dotted(d: string)
  {
    && '.' in d && d[0] != '.' && d[|d| - 1] != '.'
    && forall i | 0 <= i < |d| ::
         'a' <= d[i] <= 'z' || 'A' <= d[i] <= 'Z' || '0' <= d[i] <= '9' || d[i] in {'.', '-', '_'}
  }

  /** What may follow a domain: nothing, or something that starts with none of these characters. */
  predicate EndsDomain(rest: string)
  {
    rest == "" ||
    !('a' <= rest[0] <= 'z' || 'A' <= rest[0] <= 'Z' || '0' <= rest[0] <= '9' || rest[0] in {'.', '-', '_'})
  }

  /** A network rule: neither a comment of the whole line nor a cosmetic rule. */
  predicate Network(text: string)
  {
    && text != "" && text[0] != '!' && text[0] != '['
    && forall i | 0 <= i < |text| :: !("##" <= text[i..]) && !("#@#" <= text[i..]) && !("#?#" <= text[i..])
  }

  lemma {:induction false} HasPartIff(s: string, part: string)
    requires part != ""
    ensures HasPart(s, part) <==> exists i | 0 <= i < |s| :: part <= s[i..]
  {
    if s == "" {
    } else {
      HasPartIff(s[1..], part);
      assert s[0..] == s;
      assert forall i | 0 <= i < |s| - 1 :: s[1..][i..] == s[i + 1..];
      if i :| 0 <= i < |s| && part <= s[i..] {
        assert i > 0 ==> part <= s[1..][i - 1..];
      }
    }
  }

  lemma IsRuleIff(text: string)
    ensures IsRule(text) <==> Network(text)
  {
    HasPartIff(text, "##");
    HasPartIff(text, "#@#");
    HasPartIff(text, "#?#");
    hide HasPart;
  }

  /** Any other line gives no domain. */
  lemma OtherLinesGiveNothing(line: string)
    requires !Network(Trim(line))
    ensures ParseLine(line) == None
  {
    hide Trim, Network, IsRule, Candidate, Find, Lower, DotsOff;
    IsRuleIff(Trim(line));
  }

  lemma {:induction false} DomainEnds(d: string, rest: string)
    requires (forall c | c in d :: DomainChar(c)) && (rest == "" || !DomainChar(rest[0]))
    ensures Domain(d + rest) == d
  {
    if d == "" {
      assert d + rest == rest;
    } else {
      assert (d + rest)[1..] == d[1..] + rest;
      assert d[0] in d;
      DomainEnds(d[1..], rest);
      assert d == [d[0]] + d[1..];
    }
  }

  lemma {:induction false} WordEnds(w: string, rest: string)
    requires (forall c | c in w :: !IsWhitespace(c)) && (rest == "" || IsWhitespace(rest[0]))
    ensures Word(w + rest) == w
  {
    if w == "" {
      assert w + rest == rest;
    } else {
      assert (w + rest)[1..] == w[1..] + rest;
      assert w[0] in w;
      WordEnds(w[1..], rest);
      assert w == [w[0]] + w[1..];
    }
  }

  lemma {:induction false} TrimStartSkips(gap: string, s: string)
    requires Blank(gap) && s != "" && !IsWhitespace(s[0])
    ensures TrimStart(gap + s) == s
  {
    if gap == "" {
      assert gap + s == s;
    } else {
      assert (gap + s)[1..] == gap[1..] + s;
      TrimStartSkips(gap[1..], s);
    }
  }

  /** The second word of a line, whatever white space is between. */
  lemma SecondWordIs(first: string, gap: string, w: string, rest: string)
    requires first != "" && w != "" && gap != "" && Blank(gap) && (rest == "" || IsWhitespace(rest[0]))
    requires (forall c | c in first :: !IsWhitespace(c)) && (forall c | c in w :: !IsWhitespace(c))
    ensures SecondWord(first + gap + w + rest) == w
  {
    hide TrimStart, Word, IsWhitespace;
    var s := first + gap + w + rest;
    assert s[0] == first[0] && first[0] in first && w[0] in w;
    BlankEmpty();
    assert "" + s == s;
    TrimStartSkips("", s);
    assert s == first + (gap + (w + rest));
    BlankStart(gap, w + rest);
    WordEnds(first, gap + (w + rest));
    assert s[|first|..] == gap + (w + rest);
    TrimStartSkips(gap, w + rest);
    WordEnds(w, rest);
  }

  lemma BlankStart(gap: string, rest: string)
    requires gap != "" && Blank(gap)
    ensures IsWhitespace((gap + rest)[0])
  {
  }

  lemma DottedChars(d: string)
    requires Dotted(d)
    ensures d != "" && '.' in d && d[0] != '.' && d[|d| - 1] != '.'
    ensures forall c | c in d :: DomainChar(c) && !IsWhitespace(c) && c !in {'#', '!', '[', '|', ' '}
  {
  }

  lemma DottedIs(d: string)
    requires Dotted(d)
    ensures d != "" && DotsOff(d) == d && '.' in Lower(d) && Lower(d) != ""
    ensures forall c | c in d :: DomainChar(c) && !IsWhitespace(c) && c !in {'#', '!', '[', '|', ' '}
  {
    hide Dotted, DomainChar, IsWhitespace, DotsOffEnd, DotsOffStart;
    DottedChars(d);
    var i :| 0 <= i < |d| && d[i] == '.';
    assert Lower(d)[i] == '.';
  }

  lemma DomainEnding(rest: string)
    ensures EndsDomain(rest) <==> rest == "" || !DomainChar(rest[0])
  {
  }

  /** The rule of a line: `body` between white space, perhaps with a comment behind it. */
  lemma RuleOfLine(a: string, body: string, b: string, comment: string)
    requires Blank(a) && Blank(b) && Trimmed(body) && '#' !in body && body != ""
    requires comment == "" || (comment[0] == '#' && Trimmed(comment))
    requires Network(if comment == "" then body else body + b + comment)
    ensures var host := Lower(DotsOff(Candidate(body)));
            ParseLine(a + body + b + comment) == if host == "" || '.' !in host then None else Some(host)
  {
    hide Trim, Network, IsRule, Candidate, Find, Lower, DotsOff, IsWhitespace;
    var line := a + body + b + comment;
    BlankSeparatesNothing(b);
    BlankEmpty();
    if comment == "" {
      assert line == a + body + b;
      TrimPadded(a, body, b);
      IsRuleIff(body);
      CutAtHash(body, "");
      assert body + "" == body;
      TrimPadded("", body, "");
      assert "" + body + "" == body;
    } else {
      var text := body + b + comment;
      assert line == a + text + "";
      TextTrimmed(body, b, comment);
      TrimPadded(a, text, "");
      IsRuleIff(text);
      CutAtHash(body + b, comment);
      TrimPadded("", body, b);
      assert "" + body + b == body + b;
    }
  }

  lemma TextTrimmed(body: string, b: string, comment: string)
    requires Trimmed(body) && body != "" && Trimmed(comment) && comment != ""
    ensures Trimmed(body + b + comment)
  {
  }

  /** A filter rule `||domain` gives its domain in lower case, whatever separator or option follows it. */
  lemma FilterRuleRead(a: string, d: string, rest: string, b: string, comment: string)
    requires Dotted(d) && EndsDomain(rest) && Trimmed(rest) && '#' !in rest && Blank(a) && Blank(b)
    requires comment == "" || (comment[0] == '#' && Trimmed(comment))
    requires var body := "||" + d + rest; Network(if comment == "" then body else body + b + comment)
    ensures ParseLine(a + ("||" + d + rest) + b + comment) == Some(Lower(d))
  {
    hide *;
    DottedIs(d);
    DomainEnding(rest);
    DomainEnds(d, rest);
    FilterBody(d, rest);
    RuleOfLine(a, "||" + d + rest, b, comment);
    FilterCandidate(d, rest);
  }

  lemma FilterBody(d: string, rest: string)
    requires Dotted(d) && Trimmed(rest) && '#' !in rest
    ensures var body := "||" + d + rest; body != "" && Trimmed(body) && '#' !in body
  {
    hide Dotted, DomainChar, DotsOff, Lower;
    DottedIs(d);
    assert d[0] in d && d[|d| - 1] in d;
    BetweenEnds("||", d, rest);
  }

  /** Ends and absence of a comment mark carry over to the whole. */
  lemma BetweenEnds(first: string, d: string, rest: string)
    requires d != "" && !IsWhitespace((first + d)[0]) && !IsWhitespace(d[|d| - 1])
    requires rest == "" || !IsWhitespace(rest[|rest| - 1])
    requires '#' !in first && '#' !in d && '#' !in rest
    ensures Trimmed(first + d + rest) && '#' !in first + d + rest
  {
    hide IsWhitespace;
    var body := first + d + rest;
    assert body[0] == (first + d)[0];
    assert body[|body| - 1] == if rest == "" then d[|d| - 1] else rest[|rest| - 1];
  }

  lemma FilterCandidate(d: string, rest: string)
    ensures Candidate("||" + d + rest) == Domain(d + rest)
  {
    assert ("||" + d + rest)[2..] == d + rest;
  }

  /** A hosts line gives its second word in lower case, dots taken off its ends. */
  lemma HostsLineRead(a: string, address: string, gap: string, d: string, rest: string, b: string, comment: string)
    requires address in {"0.0.0.0", "127.0.0.1"} && gap != "" && gap[0] == ' '
    requires Blank(gap) && Blank(a) && Blank(b) && Dotted(d)
    requires rest == "" || (IsWhitespace(rest[0]) && !IsWhitespace(rest[|rest| - 1]) && '#' !in rest)
    requires comment == "" || (comment[0] == '#' && Trimmed(comment))
    requires var body := address + gap + d + rest; Network(if comment == "" then body else body + b + comment)
    ensures ParseLine(a + (address + gap + d + rest) + b + comment) == Some(Lower(d))
  {
    var body := address + gap + d + rest;
    DottedIs(d);
    hide *;
    AddressIs(address);
    BlankSeparatesNothing(gap);
    SecondWordIs(address, gap, d, rest);
    HostsBody(address, gap, d, rest);
    RuleOfLine(a, body, b, comment);
  }

  lemma AddressIs(address: string)
    requires address in {"0.0.0.0", "127.0.0.1"}
    ensures address != "" && forall c | c in address :: !IsWhitespace(c) && c != '#'
  {
  }

  lemma HostsBody(address: string, gap: string, d: string, rest: string)
    requires address in {"0.0.0.0", "127.0.0.1"} && gap != "" && gap[0] == ' ' && '#' !in gap
    requires Dotted(d) && (rest == "" || (!IsWhitespace(rest[|rest| - 1]) && '#' !in rest))
    ensures var body := address + gap + d + rest;
            body != "" && Trimmed(body) && '#' !in body && Candidate(body) == SecondWord(body)
  {
    hide SecondWord, Domain, Dotted, DomainChar, IsWhitespace, DotsOff, Lower;
    AddressIs(address);
    DottedIs(d);
    assert address[0] in address && d[|d| - 1] in d;
    assert (address + gap + d)[0] == address[0];
    assert '#' !in address + gap;
    BetweenEnds(address + gap, d, rest);
    HostsCandidate(address, gap, d + rest);
    assert address + gap + d + rest == address + gap + (d + rest);
  }

  lemma HostsCandidate(address: string, gap: string, tail: string)
    requires address in {"0.0.0.0", "127.0.0.1"} && gap != "" && gap[0] == ' '
    ensures Candidate(address + gap + tail) == SecondWord(address + gap + tail)
  {
    hide SecondWord, Domain;
    var body := address + gap + tail;
    assert body[0] == address[0] && body[0] != '|';
    assert body == address + " " + (gap[1..] + tail);
    assert address + " " <= body;
  }

  /** A line that starts with a domain gives it in lower case, unless it is one of the two addresses of a hosts line. */
  lemma PlainDomainRead(a: string, d: string, rest: string, b: string, comment: string)
    requires Dotted(d) && EndsDomain(rest) && '#' !in rest && Blank(a) && Blank(b)
    requires (rest == "" || !IsWhitespace(rest[|rest| - 1])) && (d in {"0.0.0.0", "127.0.0.1"} ==> rest == "")
    requires comment == "" || (comment[0] == '#' && Trimmed(comment))
    requires Network(if comment == "" then d + rest else d + rest + b + comment)
    ensures ParseLine(a + (d + rest) + b + comment) == Some(Lower(d))
  {
    hide *;
    DottedIs(d);
    DomainEnding(rest);
    DomainEnds(d, rest);
    PlainBody(d, rest);
    RuleOfLine(a, d + rest, b, comment);
  }

  lemma PlainBody(d: string, rest: string)
    requires Dotted(d) && EndsDomain(rest) && '#' !in rest
    requires (rest == "" || !IsWhitespace(rest[|rest| - 1])) && (d in {"0.0.0.0", "127.0.0.1"} ==> rest == "")
    ensures d + rest != "" && Trimmed(d + rest) && '#' !in d + rest && Candidate(d + rest) == Domain(d + rest)
  {
    hide SecondWord, Domain, Dotted, DomainChar, IsWhitespace, EndsDomain, DotsOff, Lower, Candidate;
    DottedIs(d);
    assert d[0] in d && d[|d| - 1] in d;
    assert "" + d == d;
    BetweenEnds("", d, rest);
    SpaceAfter(d, rest, "0.0.0.0");
    SpaceAfter(d, rest, "127.0.0.1");
    PlainCandidate(d + rest);
  }

  lemma PlainCandidate(s: string)
    requires s != "" && s[0] != '|' && !("0.0.0.0" + " " <= s) && !("127.0.0.1" + " " <= s)
    ensures Candidate(s) == Domain(s)
  {
    hide SecondWord, Domain;
    assert "0.0.0.0" + " " == "0.0.0.0 ";
    assert "127.0.0.1" + " " == "127.0.0.1 ";
  }

  /** A text that starts with a domain starts with an address and a space only if the address is the domain. */
  lemma SpaceAfter(d: string, rest: string, address: string)
    requires EndsDomain(rest) && ' ' !in d
    requires forall i | 0 <= i < |address| :: '0' <= address[i] <= '9' || address[i] == '.'
    ensures address + " " <= d + rest ==> d == address && rest != ""
  {
    var body, start := d + rest, address + " ";
    if start <= body {
      assert start[|address|] == ' ';
      assert forall i | 0 <= i < |start| :: body[i] == start[i];
      assert forall i | 0 <= i < |d| :: body[i] == d[i] && d[i] in d;
      assert rest != "" ==> body[|d|] == rest[0];
      assert |address| == |d|;
      assert body[..|d|] == d && start[..|address|] == address;
    }
  }

  // ----- what is stored -----

  /** Never a single label, so never a whole top-level domain. */
  predicate Storable(d: string)
  {
    && '.' in d && d[0] != '.' && d[|d| - 1] != '.'
    && forall c | c in d :: !('A' <= c <= 'Z')
  }

  lemma LowerIsStorable(s: string)
    requires s != "" && s[0] != '.' && s[|s| - 1] != '.' && '.' in Lower(s)
    ensures Storable(Lower(s))
  {
    var d := Lower(s);
    forall c | c in d
      ensures !('A' <= c <= 'Z')
    {
      var i :| 0 <= i < |d| && d[i] == c;
      assert c == LowerChar(s[i]);
    }
  }

  predicate IsRuleOf(rule: string, line: string)
  {
    forall c | c in rule :: c in line
  }

  /** A line that is accepted comes from a rule on it. */
  lemma ParsedFrom(line: string, d: string)
    requires ParseLine(line) == Some(d)
    ensures exists rule :: IsRuleOf(rule, line) && d == Lower(DotsOff(Candidate(rule))) && d != "" && '.' in d
  {
    var trimmed := Trim(line);
    var cut := trimmed[..Find(trimmed, '#')];
    var rule := Trim(cut);
    TrimIsPart(cut);
    TrimIsPart(line);
    assert forall c | c in rule :: c in line;
    assert d == Lower(DotsOff(Candidate(rule)));
    hide HasPart, Candidate, DotsOff, Lower, Find;
  }

  lemma ParsedIsStorable(line: string, d: string)
    ensures ParseLine(line) == Some(d) ==> Storable(d)
  {
    hide *;
    if ParseLine(line) == Some(d) {
      ParsedFrom(line, d);
      var rule :| IsRuleOf(rule, line) && d == Lower(DotsOff(Candidate(rule))) && d != "" && '.' in d;
      LowerIsStorable(DotsOff(Candidate(rule)));
    }
  }

  lemma {:induction false} TrimStartIsPart(s: string)
    ensures |TrimStart(s)| <= |s| && TrimStart(s) == s[|s| - |TrimStart(s)|..]
  {
    if s != "" && IsWhitespace(s[0]) {
      TrimStartIsPart(s[1..]);
    }
  }

  lemma TrimIsPart(s: string)
    ensures forall c | c in Trim(s) :: c in s
  {
    TrimStartIsPart(s);
    assert Trim(s) <= TrimStart(s);
    assert forall i | 0 <= i < |Trim(s)| :: Trim(s)[i] == TrimStart(s)[i];
  }

  /** The hosts in a list. */
  function Hosts(lines: seq<string>): set<string>
  {
    if lines == [] then {}
    else Hosts(lines[..|lines| - 1]) + match ParseLine(lines[|lines| - 1]) { case Some(d) => {d} case None => {} }
  }

  lemma {:induction false} HostsAre(lines: seq<string>)
    ensures forall d :: d in Hosts(lines) <==> exists i | 0 <= i < |lines| :: ParseLine(lines[i]) == Some(d)
  {
    hide ParseLine;
    if lines == [] {
    } else {
      var front := lines[..|lines| - 1];
      HostsAre(front);
      assert forall i | 0 <= i < |front| :: lines[i] == front[i];
    }
  }

  // ----- the match -----

  /** `d` is the host or one of its parent domains. */
  predicate Covers(d: string, h: string)
  {
    h == d || (|d| < |h| && h[|h| - |d| - 1] == '.' && h[|h| - |d|..] == d)
  }

  class List {
    var domains: set<string>

    constructor ()
      ensures domains == {}
    {
      domains := {};
    }

    method ExtendFromStr(body: string)
      modifies this
      ensures domains == old(domains) + Hosts(Lines(body))
    {
      hide *;
      var lines := Lines(body);
      NoHosts();
      assert lines[..0] == [];
      for i := 0 to |lines|
        invariant domains == old(domains) + Hosts(lines[..i])
      {
        OneMoreHost(lines, i);
        match ParseLine(lines[i]) {
          case Some(d) => domains := domains + {d};
          case None =>
        }
      }
      assert lines[..|lines|] == lines;
    }

    /** True exactly for the stored domains and their subdomains, whatever the host's case and trailing dots. */
    method MatchesHost(host: string) returns (blocked: bool)
      ensures blocked <==> Normalised(host) != "" && Blocks(domains, Normalised(host))
    {
      hide *;
      var h := Normalised(host);
      if h == "" {
        return false;
      }
      NoDotAtEnd(host);
      WholeHost(domains, h);
      if h in domains {
        return true;
      }
      var rest := h;
      while Find(rest, '.') < |rest|
        invariant Searched(domains, h, rest)
        decreases |rest|
      {
        var idx := Find(rest, '.');
        NextSuffix(domains, h, rest, idx);
        rest := rest[idx + 1..];
        if rest == "" {
          break;
        }
        if rest in domains {
          return true;
        }
      }
      AllSearched(domains, h, rest);
      return false;
    }
  }

  ghost predicate Blocks(domains: set<string>, h: string)
  {
    exists d :: d in domains && Covers(d, h)
  }

  /** `rest` is a proper suffix after a dot, or the host, and every stored domain that covers the host is shorter. */
  ghost predicate Searched(domains: set<string>, h: string, rest: string)
  {
    && 0 < |rest| <= |h| && rest == h[|h| - |rest|..] && h[|h| - 1] != '.'
    && forall d | d in domains && Covers(d, h) :: |d| < |rest|
  }

  lemma WholeHost(domains: set<string>, h: string)
    requires h != "" && h[|h| - 1] != '.'
    ensures if h in domains then Blocks(domains, h) else Searched(domains, h, h)
  {
    assert Covers(h, h);
  }

  lemma NextSuffix(domains: set<string>, h: string, rest: string, idx: nat)
    requires Searched(domains, h, rest) && idx < |rest| && rest[idx] == '.'
    requires forall i | 0 <= i < idx :: rest[i] != '.'
    ensures var next := rest[idx + 1..];
      next != "" && if next in domains then Blocks(domains, h) else Searched(domains, h, next)
  {
    var next, from := rest[idx + 1..], |h| - |rest|;
    assert forall i | 0 <= i < |rest| :: rest[i] == h[from + i];
    assert h[from + idx] == '.';
    assert next == h[from + idx + 1..];
    assert Covers(next, h);
    forall d | d in domains && Covers(d, h)
      ensures |d| < |next| || d == next
    {
      var k := |h| - |d| - 1;
      assert h[k] == '.' && h[k + 1..] == d;
      assert h[k] == rest[k - from];
    }
  }

  lemma AllSearched(domains: set<string>, h: string, rest: string)
    requires Searched(domains, h, rest) && forall i | 0 <= i < |rest| :: rest[i] != '.'
    ensures !Blocks(domains, h)
  {
    forall d | d in domains
      ensures !Covers(d, h)
    {
      var k := |h| - |d| - 1;
      assert 0 <= k < |h| && k >= |h| - |rest| ==> h[k] == rest[k - |h| + |rest|];
    }
  }

  /** Trailing dots and case do not matter. */
  function Normalised(host: string): string
  {
    Lower(DotsOffEnd(host))
  }

  /** The host that is looked up: in lower case, without the dots at its end and with those in front of it. */
  lemma {:induction false} HostLookedUp(h: string, dots: string)
    requires h == "" || h[|h| - 1] != '.'
    requires forall i | 0 <= i < |dots| :: dots[i] == '.'
    ensures Normalised(h + dots) == Lower(h)
    decreases |dots|
  {
    hide Lower;
    if dots == "" {
      assert h + dots == h;
    } else {
      var fewer := dots[..|dots| - 1];
      assert (h + dots)[..|h + dots| - 1] == h + fewer;
      HostLookedUp(h, fewer);
    }
  }

  lemma NoDotAtEnd(host: string)
    ensures var h := Normalised(host); h != "" ==> h[|h| - 1] != '.'
  {
  }

  lemma NoHosts()
    ensures Hosts([]) == {}
  {
  }

  lemma OneMoreHost(lines: seq<string>, i: nat)
    requires i < |lines|
    ensures Hosts(lines[..i + 1]) ==
            Hosts(lines[..i]) + match ParseLine(lines[i]) { case Some(d) => {d} case None => {} }
  {
    hide ParseLine;
    assert lines[..i + 1][..i] == lines[..i];
  }

  /** A single-label host is never blocked by a list that was parsed. */
  lemma NoTopLevelDomain(lines: seq<string>, h: string)
    requires '.' !in h
    ensures !Blocks(Hosts(lines), h)
  {
    hide ParseLine;
    HostsAre(lines);
    forall d | d in Hosts(lines)
      ensures !Covers(d, h)
    {
      var i :| 0 <= i < |lines| && ParseLine(lines[i]) == Some(d);
      ParsedIsStorable(lines[i], d);
    }
  }

  // ----- concatenation -----

  lemma {:induction false} HostsUnion(a: seq<string>, b: seq<string>)
    ensures Hosts(a + b) == Hosts(a) + Hosts(b)
  {
    hide ParseLine;
    if b == [] {
      assert a + b == a;
    } else {
      assert (a + b)[..|a + b| - 1] == a + b[..|b| - 1];
      HostsUnion(a, b[..|b| - 1]);
    }
  }

  lemma {:induction false} TrimEndOfCr(s: string)
    ensures TrimEnd(s + "\r") == TrimEnd(s) && Trim(s + "\r") == Trim(s)
    decreases |s|
  {
    assert (s + "\r")[..|s|] == s;
    if s == "" {
      assert "\r"[1..] == "";
    } else if IsWhitespace(s[0]) {
      assert (s + "\r")[1..] == s[1..] + "\r";
      TrimEndOfCr(s[1..]);
    }
  }

  lemma CrIsTrimmed(s: string)
    ensures Trim(DropCr(s)) == Trim(s) && ParseLine(DropCr(s)) == ParseLine(s)
  {
    if s != "" && s[|s| - 1] == '\r' {
      TrimEndOfCr(s[..|s| - 1]);
      assert s == s[..|s| - 1] + "\r";
    }
    hide IsRule, Candidate, Find;
  }

  lemma EmptyLineIsNothing()
    ensures ParseLine("") == None
  {
  }

  lemma FindBeyond(a: string, c: char, b: string)
    ensures c in a ==> Find(a + [c] + b, c) == Find(a, c) < |a|
  {
    if c in a {
      var s := a + [c] + b;
      assert s[Find(a, c)] == c;
      assert forall i | 0 <= i < Find(a, c) :: s[i] == a[i];
    }
  }

  lemma OneHost(line: string)
    ensures Hosts([line]) == match ParseLine(line) { case Some(d) => {d} case None => {} }
  {
    hide ParseLine;
    assert [line][..0] == [];
    assert Hosts([]) == {};
  }

  /** One list after the other gives the union of their hosts, in whatever order. */
  lemma {:induction false} ConcatenationIsUnion(a: string, b: string)
    ensures Hosts(Lines(a + "\n" + b)) == Hosts(Lines(a)) + Hosts(Lines(b))
    decreases |a|
  {
    hide ParseLine;
    var s := a + ['\n'] + b;
    assert s == a + "\n" + b;
    if '\n' !in a {
      FindIn(a, '\n', b);
      assert s[..|a|] == a && s[|a| + 1..] == b;
      assert Lines(s) == [DropCr(a)] + Lines(b);
      HostsUnion([DropCr(a)], Lines(b));
      OneHost(DropCr(a));
      OneHost(a);
      CrIsTrimmed(a);
      EmptyLineIsNothing();
      assert a != "" ==> Lines(a) == [a];
    } else {
      FindBeyond(a, '\n', b);
      var n := Find(a, '\n');
      assert s[..n] == a[..n] && s[n + 1..] == a[n + 1..] + "\n" + b;
      ConcatenationIsUnion(a[n + 1..], b);
      HostsUnion([DropCr(a[..n])], Lines(a[n + 1..] + "\n" + b));
      HostsUnion([DropCr(a[..n])], Lines(a[n + 1..]));
    }
  }

  // ----- parsing a stored domain again -----

  predicate AllDomain(s: string)
  {
    forall c | c in s :: DomainChar(c)
  }

  predicate NoSpace(s: string)
  {
    forall c | c in s :: !IsWhitespace(c)
  }

  lemma LowerKeepsKind(s: string)
    ensures AllDomain(s) ==> AllDomain(Lower(s))
    ensures NoSpace(s) ==> NoSpace(Lower(s))
  {
    forall c | c in Lower(s)
      ensures (AllDomain(s) ==> DomainChar(c)) && (NoSpace(s) ==> !IsWhitespace(c))
    {
      var i :| 0 <= i < |s| && Lower(s)[i] == c;
      assert s[i] in s && c == LowerChar(s[i]);
    }
  }

  lemma DotsOffKeepsKind(s: string)
    ensures AllDomain(s) ==> AllDomain(DotsOff(s))
    ensures NoSpace(s) ==> NoSpace(DotsOff(s))
  {
  }

  /** Only a hosts-file line, which has a space, can give anything but domain characters. */
  lemma CandidateKind(rule: string)
    ensures AllDomain(Candidate(rule)) || (' ' in rule && NoSpace(Candidate(rule)))
  {
    hide TrimStart, Word, Domain;
    if "0.0.0.0 " <= rule {
      assert rule[7] == ' ';
    } else if "127.0.0.1 " <= rule {
      assert rule[9] == ' ';
    }
  }

  lemma ParsedKind(line: string, d: string)
    requires ParseLine(line) == Some(d)
    ensures AllDomain(d) || (' ' in line && NoSpace(d))
  {
    hide *;
    ParsedFrom(line, d);
    var rule :| IsRuleOf(rule, line) && d == Lower(DotsOff(Candidate(rule))) && d != "" && '.' in d;
    CandidateKind(rule);
    RuleHas(rule, line, ' ');
    DotsOffKeepsKind(Candidate(rule));
    LowerKeepsKind(DotsOff(Candidate(rule)));
  }

  lemma RuleHas(rule: string, line: string, c: char)
    requires IsRuleOf(rule, line)
    ensures c in rule ==> c in line
  {
  }

  lemma {:induction false} NoHashNoPart(s: string, part: string)
    requires '#' !in s && part != "" && part[0] == '#'
    ensures !HasPart(s, part)
  {
    if s == "" {
    } else {
      assert s[0] in s;
      NoHashNoPart(s[1..], part);
    }
  }

  lemma DomainIsRule(d: string)
    requires AllDomain(d) && d != ""
    ensures IsRule(Trim(d)) && Trim(d) == d && Find(d, '#') == |d|
  {
    assert d[0] in d && d[|d| - 1] in d;
    TrimTrimmed(d);
    assert '#' !in d;
    NoHashNoPart(d, "##");
    NoHashNoPart(d, "#@#");
    NoHashNoPart(d, "#?#");
    hide HasPart, Trim;
  }

  lemma DomainIsCandidate(d: string)
    requires AllDomain(d) && d != ""
    ensures Candidate(d) == d
  {
    assert d[0] in d && (|d| > 7 ==> d[7] in d) && (|d| > 9 ==> d[9] in d);
    assert "||"[0] == '|' && "0.0.0.0 "[7] == ' ' && "127.0.0.1 "[9] == ' ';
  }

  lemma StorableIsLower(d: string)
    requires Storable(d)
    ensures Lower(d) == d && DotsOff(d) == d
  {
    hide DotsOffEnd, DotsOffStart, Lower;
    forall i | 0 <= i < |d|
      ensures Lower(d)[i] == d[i]
    {
      assert d[i] in d && !('A' <= d[i] <= 'Z');
    }
    assert d[0] != '.' && d[|d| - 1] != '.';
  }

  /** What was parsed parses as itself exactly when it has only domain characters; a hosts-file line can name others. */
  lemma FixedPointIff(line: string, d: string)
    ensures ParseLine(line) == Some(d) ==> (ParseLine(d) == Some(d) <==> AllDomain(d))
  {
    hide *;
    if ParseLine(line) == Some(d) {
      ParsedKind(line, d);
      ParsedIsStorable(line, d);
      if ParseLine(d) == Some(d) {
        ParsedKind(d, d);
        SpaceInside(d);
      }
      if AllDomain(d) {
        DomainParses(d);
      }
    }
  }

  lemma SpaceInside(d: string)
    ensures ' ' in d ==> !NoSpace(d)
  {
    assert IsWhitespace(' ');
  }

  lemma DomainParses(d: string)
    requires AllDomain(d) && Storable(d)
    ensures ParseLine(d) == Some(d)
  {
    DomainIsRule(d);
    DomainIsCandidate(d);
    StorableIsLower(d);
    assert d[..|d|] == d;
    hide IsRule, Candidate, DotsOff, Lower, Trim, Find;
  }
}
