/**
 The document that `render_toml` of src/from_curl.rs prints for a request, and a reader for it: a comment line, pairs of
 a bare key and a string or boolean, and the `[headers]` table.
 */
module TomlDocument {
  import opened Wrappers
  import opened Escapes
  import opened HeaderKeys
  import CurlArgs

  type Request = CurlArgs.CurlRequest

  datatype Value = Text(text: string) | Flag(on: bool)

  type Pair = (string, Value)

  const COMMENT := "# generated by `crawlex from-curl`\n"
  const SECTION := "\n[headers]\n"

  // ----- the printer -----

  function PutValue(v: Value): string
  {
    match v
    case Text(s) => Escaped(Toml, s)
    case Flag(on) => if on then "true" else "false"
  }

  function PutPair(p: Pair): string
  {
    p.0 + " = " + PutValue(p.1) + "\n"
  }

  function PutPairs(pairs: seq<Pair>): string
  {
    if pairs == [] then "" else PutPair(pairs[0]) + PutPairs(pairs[1..])
  }

  function Optional(name: string, value: Option<string>): seq<Pair>
  {
    match value
    case Some(s) => [(name, Text(s))]
    case None => []
  }

  function FixedPairs(r: Request): seq<Pair>
  {
    [("method", Text(r.method_)), ("url", Text(r.url)),
     ("follow_redirects", Flag(r.followRedirects)), ("compressed", Flag(r.compressed))]
  }

  function PairsOf(r: Request): seq<Pair>
  {
    FixedPairs(r) + Optional("proxy", r.proxy) + Optional("cookie", r.cookie) + Optional("body", r.body)
  }

  function PutHeaders(headers: Headers): string
  {
    if headers == [] then "" else SECTION + Table(headers, 0)
  }

  function Document(r: Request): string
  {
    COMMENT + (PutPairs(PairsOf(r)) + PutHeaders(r.headers))
  }

  lemma {:induction false} PairsInTwo(a: seq<Pair>, b: seq<Pair>)
    ensures PutPairs(a + b) == PutPairs(a) + PutPairs(b)
  {
    hide PutPair;
    if a == [] {
      assert a + b == b;
    } else {
      assert (a + b)[1..] == a[1..] + b;
      PairsInTwo(a[1..], b);
    }
  }

  lemma PairsOneMore(pairs: seq<Pair>, p: Pair)
    ensures PutPairs(pairs + [p]) == PutPairs(pairs) + PutPair(p)
  {
    hide PutPair;
    PairsInTwo(pairs, [p]);
    assert [p][1..] == [];
  }

  method PushText(out: string, name: string, text: string, ghost pairs: seq<Pair>) returns (r: string)
    requires out == COMMENT + PutPairs(pairs)
    ensures r == COMMENT + PutPairs(pairs + [(name, Text(text))])
  {
    PairsOneMore(pairs, (name, Text(text)));
    hide PutPairs, Escaped;
    var escaped := Escape(Toml, text);
    r := out + (name + " = " + escaped + "\n");
  }

  method PushFlag(out: string, name: string, on: bool, ghost pairs: seq<Pair>) returns (r: string)
    requires out == COMMENT + PutPairs(pairs)
    ensures r == COMMENT + PutPairs(pairs + [(name, Flag(on))])
  {
    PairsOneMore(pairs, (name, Flag(on)));
    hide PutPairs;
    r := out + (name + " = " + (if on then "true" else "false") + "\n");
  }

  method PushOptional(out: string, name: string, text: Option<string>, ghost pairs: seq<Pair>) returns (r: string)
    requires out == COMMENT + PutPairs(pairs)
    ensures r == COMMENT + PutPairs(pairs + Optional(name, text))
  {
    hide PutPairs;
    r := out;
    if text.Some? {
      r := PushText(out, name, text.value, pairs);
    } else {
      assert pairs + [] == pairs;
    }
  }

  method RenderToml(req: Request) returns (out: string)
    ensures out == Document(req)
  {
    hide PutPairs, Table;
    out := COMMENT;
    NoPairs();
    ghost var p0: seq<Pair> := [];
    out := PushText(out, "method", req.method_, p0);
    ghost var p1 := p0 + [("method", Text(req.method_))];
    out := PushText(out, "url", req.url, p1);
    ghost var p2 := p1 + [("url", Text(req.url))];
    out := PushFlag(out, "follow_redirects", req.followRedirects, p2);
    ghost var p3 := p2 + [("follow_redirects", Flag(req.followRedirects))];
    out := PushFlag(out, "compressed", req.compressed, p3);
    ghost var p4 := p3 + [("compressed", Flag(req.compressed))];
    assert p4 == FixedPairs(req);
    out := PushOptional(out, "proxy", req.proxy, p4);
    out := PushOptional(out, "cookie", req.cookie, p4 + Optional("proxy", req.proxy));
    out := PushOptional(out, "body", req.body, p4 + Optional("proxy", req.proxy) + Optional("cookie", req.cookie));
    ghost var front := out;
    if req.headers != [] {
      var table := RenderHeaders(req.headers);
      out := out + SECTION + table;
      assert out == front + (SECTION + table);
    }
    assert out == front + PutHeaders(req.headers);
    assert out == COMMENT + (PutPairs(PairsOf(req)) + PutHeaders(req.headers));
  }

  lemma NoPairs()
    ensures COMMENT == COMMENT + PutPairs([])
  {
  }

  method RenderHeaders(headers: Headers) returns (out: string)
    ensures out == Table(headers, 0)
  {
    hide KeyAt, Escaped;
    var keys := Keys(headers);
    out := "";
    for i := 0 to |headers|
      invariant out + Table(headers, i) == Table(headers, 0)
    {
      var key := Escape(Toml, keys[i]);
      var value := Escape(Toml, headers[i].1);
      ghost var before := out;
      out := out + (key + " = " + value + "\n");
      assert out + Table(headers, i + 1) == before + (Entry(keys[i], headers[i].1) + Table(headers, i + 1));
    }
    assert out + "" == out;
  }

  // ----- the reader -----

  predicate BareChar(c: char)
  {
    'a' <= c <= 'z' || 'A' <= c <= 'Z' || '0' <= c <= '9' || c == '_' || c == '-'
  }

  function BareKey(t: string): (k: string)
    ensures k <= t && forall c | c in k :: BareChar(c)
  {
    if t == "" || !BareChar(t[0]) then "" else [t[0]] + BareKey(t[1..])
  }

  function ReadValue(t: string): (r: Option<(Value, string)>)
    ensures r.Some? ==> |r.value.1| < |t|
  {
    if "true" <= t then Some((Flag(true), t[4..]))
    else if "false" <= t then Some((Flag(false), t[5..]))
    else
      match Read(Toml, t)
      case Some(r) => Some((Text(r.0), r.1))
      case None => None
  }

  /** A pair and the text after its line. */
  function ReadPair(t: string): (r: Option<(Pair, string)>)
    ensures r.Some? ==> |r.value.1| < |t|
  {
    var k := BareKey(t);
    var u := t[|k|..];
    if k == "" || !(" = " <= u) then None
    else
      match ReadValue(u[3..])
      case None => None
      case Some(v) => if v.1 != "" && v.1[0] == '\n' then Some(((k, v.0), v.1[1..])) else None
  }

  /** The pairs up to an empty line or the end, and the text from there. */
  function ReadPairs(t: string): Option<(seq<Pair>, string)>
    decreases |t|
  {
    if t == "" || t[0] == '\n' then Some(([], t))
    else
      match ReadPair(t)
      case None => None
      case Some(p) =>
        match ReadPairs(p.1)
        case None => None
        case Some(rest) => Some(([p.0] + rest.0, rest.1))
  }

  function ReadHeaders(t: string): Option<Headers>
  {
    var start := "\n[headers]\n";
    if t == "" then Some([]) else if start <= t then ReadTable(t[|start|..]) else None
  }

  function Lookup(pairs: seq<Pair>, name: string): Option<Value>
  {
    if pairs == [] then None else if pairs[0].0 == name then Some(pairs[0].1) else Lookup(pairs[1..], name)
  }

  function TextIn(pairs: seq<Pair>, name: string): Option<string>
  {
    match Lookup(pairs, name)
    case Some(Text(s)) => Some(s)
    case _ => None
  }

  function RequestOf(pairs: seq<Pair>, headers: Headers): Option<Request>
  {
    var follow, compressed := Lookup(pairs, "follow_redirects"), Lookup(pairs, "compressed");
    match (TextIn(pairs, "method"), TextIn(pairs, "url"), follow, compressed)
    case (Some(m), Some(u), Some(Flag(f)), Some(Flag(c))) =>
      Some(CurlArgs.CurlRequest(m, u, headers, TextIn(pairs, "cookie"), TextIn(pairs, "body"), f,
                                TextIn(pairs, "proxy"), c))
    case _ => None
  }

  function ReadDocument(t: string): Option<Request>
  {
    var start := "# generated by `crawlex from-curl`\n";
    if !(start <= t) then None
    else
      match ReadPairs(t[|start|..])
      case None => None
      case Some(p) =>
        match ReadHeaders(p.1)
        case None => None
        case Some(headers) => RequestOf(p.0, headers)
  }

  // ----- the document is read back -----

  predicate PairOk(p: Pair)
  {
    p.0 != "" && forall c | c in p.0 :: BareChar(c)
  }

  predicate Printed(v: Value)
  {
    v.Text? ==> Printable(Toml, v.text)
  }

  lemma {:induction false} BareKeyIs(k: string, rest: string)
    requires (forall c | c in k :: BareChar(c)) && (rest == "" || !BareChar(rest[0]))
    ensures BareKey(k + rest) == k
  {
    if k == "" {
      assert k + rest == rest;
    } else {
      assert (k + rest)[1..] == k[1..] + rest;
      BareKeyIs(k[1..], rest);
    }
  }

  lemma ValueReadsBack(v: Value, rest: string)
    ensures ReadValue(PutValue(v) + rest) == if Printed(v) then Some((v, rest)) else None
  {
    var t := PutValue(v) + rest;
    match v
    case Text(s) =>
      EscapedReadsBack(Toml, s, rest);
      assert t[0] == '"' && "true"[0] == 't' && "false"[0] == 'f';
    case Flag(on) =>
      if on {
        assert t[4..] == rest;
      } else {
        assert t[0] == 'f' && "true"[0] == 't';
        assert t[5..] == rest;
      }
  }

  lemma PairReadsBack(p: Pair, rest: string)
    requires PairOk(p)
    ensures ReadPair(PutPair(p) + rest) == if Printed(p.1) then Some((p, rest)) else None
  {
    hide PutValue, ReadValue, Printed, BareKey;
    var v := PutValue(p.1) + ("\n" + rest);
    var u := " = " + v;
    assert PutPair(p) + rest == p.0 + u;
    assert u[0] == ' ' && !BareChar(' ');
    BareKeyIs(p.0, u);
    assert (p.0 + u)[|p.0|..] == u && u[3..] == v;
    ValueReadsBack(p.1, "\n" + rest);
    assert ("\n" + rest)[1..] == rest;
  }

  predicate AllPrinted(pairs: seq<Pair>)
  {
    pairs == [] || (Printed(pairs[0].1) && AllPrinted(pairs[1..]))
  }

  lemma {:induction false} PairsReadBack(pairs: seq<Pair>, rest: string)
    requires (forall p | p in pairs :: PairOk(p)) && (rest == "" || rest[0] == '\n')
    ensures ReadPairs(PutPairs(pairs) + rest) == if AllPrinted(pairs) then Some((pairs, rest)) else None
  {
    hide ReadPair, Printed;
    if pairs == [] {
      assert PutPairs(pairs) + rest == rest;
    } else {
      var tail := PutPairs(pairs[1..]) + rest;
      assert pairs[0] in pairs;
      assert PutPairs(pairs) + rest == PutPair(pairs[0]) + tail;
      assert PutPair(pairs[0])[0] == pairs[0].0[0] && pairs[0].0[0] in pairs[0].0;
      PairReadsBack(pairs[0], tail);
      PairsReadBack(pairs[1..], rest);
      assert [pairs[0]] + pairs[1..] == pairs;
    }
  }

  lemma DropPrefix(a: string, b: string)
    ensures a <= a + b && (a + b)[|a|..] == b
  {
  }

  lemma HeadersReadBack(headers: Headers)
    ensures ReadHeaders(PutHeaders(headers)) == Some(headers) <==>
            (forall i | 0 <= i < |headers| :: !Suffixed(headers[i].0) && Writable(headers[i]))
  {
    hide Table, ReadTable, Suffixed, Writable;
    if headers != [] {
      DropPrefix(SECTION, Table(headers, 0));
      TableReadsBack(headers);
      assert |SECTION + Table(headers, 0)| > 0;
    }
  }

  lemma LookupInTwo(a: seq<Pair>, b: seq<Pair>, name: string)
    ensures Lookup(a + b, name) == if Lookup(a, name).Some? then Lookup(a, name) else Lookup(b, name)
  {
    if a == [] {
      assert a + b == b;
    } else {
      assert (a + b)[1..] == a[1..] + b;
      LookupInTwo(a[1..], b, name);
    }
  }

  lemma LookupOptional(key: string, value: Option<string>, name: string)
    ensures Lookup(Optional(key, value), name) ==
            if value.Some? && key == name then Some(Text(value.value)) else None
  {
    var one := Optional(key, value);
    assert one != [] ==> one[1..] == [];
  }

  lemma LookupFixed(r: Request, name: string)
    ensures Lookup(FixedPairs(r), name) ==
            if name == "method" then Some(Text(r.method_))
            else if name == "url" then Some(Text(r.url))
            else if name == "follow_redirects" then Some(Flag(r.followRedirects))
            else if name == "compressed" then Some(Flag(r.compressed))
            else None
  {
    var p := FixedPairs(r);
    assert p[1..][0] == p[1] && p[1..][1..] == p[2..] && p[2..][1..] == p[3..] && p[3..][1..] == [];
    assert Lookup(p[3..], name) == if name == "compressed" then Some(p[3].1) else None;
    assert Lookup(p[2..], name) == if name == "follow_redirects" then Some(p[2].1) else Lookup(p[3..], name);
    assert Lookup(p[1..], name) == if name == "url" then Some(p[1].1) else Lookup(p[2..], name);
  }

  lemma LookupAny(r: Request, name: string)
    ensures Lookup(PairsOf(r), name) ==
            if Lookup(FixedPairs(r), name).Some? then Lookup(FixedPairs(r), name)
            else if r.proxy.Some? && "proxy" == name then Some(Text(r.proxy.value))
            else if r.cookie.Some? && "cookie" == name then Some(Text(r.cookie.value))
            else if r.body.Some? && "body" == name then Some(Text(r.body.value))
            else None
  {
    var f, p, c, b := FixedPairs(r), Optional("proxy", r.proxy), Optional("cookie", r.cookie), Optional("body", r.body);
    hide Lookup, FixedPairs, Optional;
    LookupInTwo(f + p + c, b, name);
    LookupInTwo(f + p, c, name);
    LookupInTwo(f, p, name);
    LookupOptional("proxy", r.proxy, name);
    LookupOptional("cookie", r.cookie, name);
    LookupOptional("body", r.body, name);
  }

  /** The keys are told apart by their lengths and first letters. */
  lemma KeysDiffer()
    ensures "proxy" != "method" && "proxy" != "url" && "proxy" != "follow_redirects" && "proxy" != "compressed"
    ensures "cookie" != "method" && "cookie" != "url" && "cookie" != "follow_redirects" && "cookie" != "compressed"
    ensures "body" != "method" && "body" != "url" && "body" != "follow_redirects" && "body" != "compressed"
    ensures "proxy" != "cookie" && "proxy" != "body" && "cookie" != "body"
    ensures "url" != "method" && "follow_redirects" != "method" && "follow_redirects" != "url"
    ensures "compressed" != "method" && "compressed" != "url" && "compressed" != "follow_redirects"
  {
    assert "cookie"[0] == 'c' && "method"[0] == 'm';
  }

  lemma RequestIsAssembled(r: Request, headers: Headers)
    ensures RequestOf(PairsOf(r), headers) == Some(r.(headers := headers))
  {
    hide Lookup, PairsOf, FixedPairs;
    KeysDiffer();
    LookupIn(r, "method");
    LookupIn(r, "url");
    LookupIn(r, "follow_redirects");
    LookupIn(r, "compressed");
    LookupIn(r, "proxy");
    LookupIn(r, "cookie");
    LookupIn(r, "body");
  }

  lemma LookupIn(r: Request, name: string)
    ensures Lookup(PairsOf(r), name) ==
            if name == "method" then Some(Text(r.method_))
            else if name == "url" then Some(Text(r.url))
            else if name == "follow_redirects" then Some(Flag(r.followRedirects))
            else if name == "compressed" then Some(Flag(r.compressed))
            else if r.proxy.Some? && "proxy" == name then Some(Text(r.proxy.value))
            else if r.cookie.Some? && "cookie" == name then Some(Text(r.cookie.value))
            else if r.body.Some? && "body" == name then Some(Text(r.body.value))
            else None
  {
    hide *;
    LookupFixed(r, name);
    LookupAny(r, name);
  }

  predicate OptionPrintable(value: Option<string>)
  {
    value.Some? ==> Printable(Toml, value.value)
  }

  predicate FieldsPrintable(r: Request)
  {
    && Printable(Toml, r.method_) && Printable(Toml, r.url)
    && OptionPrintable(r.proxy) && OptionPrintable(r.cookie) && OptionPrintable(r.body)
  }

  lemma {:induction false} AllPrintedIn(a: seq<Pair>, b: seq<Pair>)
    ensures AllPrinted(a + b) <==> AllPrinted(a) && AllPrinted(b)
  {
    hide Printed;
    if a == [] {
      assert a + b == b;
    } else {
      assert (a + b)[1..] == a[1..] + b;
      AllPrintedIn(a[1..], b);
    }
  }

  lemma OptionalPrinted(name: string, value: Option<string>)
    ensures AllPrinted(Optional(name, value)) <==> OptionPrintable(value)
  {
    var one := Optional(name, value);
    assert one != [] ==> one[1..] == [];
    hide Printable;
  }

  lemma FixedPrinted(r: Request)
    ensures AllPrinted(FixedPairs(r)) <==> Printable(Toml, r.method_) && Printable(Toml, r.url)
  {
    hide Printable;
    var p := FixedPairs(r);
    assert p[1..][1..] == p[2..] && p[2..][1..] == p[3..] && p[3..][1..] == [];
    assert AllPrinted(p[3..]) && AllPrinted(p[2..]);
  }

  lemma PairsPrintedIff(r: Request)
    ensures AllPrinted(PairsOf(r)) <==> FieldsPrintable(r)
  {
    var f, p, c, b := FixedPairs(r), Optional("proxy", r.proxy), Optional("cookie", r.cookie), Optional("body", r.body);
    hide AllPrinted, FixedPairs, Optional, Printable, OptionPrintable;
    AllPrintedIn(f + p + c, b);
    AllPrintedIn(f + p, c);
    AllPrintedIn(f, p);
    FixedPrinted(r);
    OptionalPrinted("proxy", r.proxy);
    OptionalPrinted("cookie", r.cookie);
    OptionalPrinted("body", r.body);
  }

  lemma PairsAreOk(r: Request)
    ensures forall p | p in PairsOf(r) :: PairOk(p)
  {
    hide PairOk, BareChar, Optional;
    FixedAreOk(r);
    OptionalIsOk("proxy", r.proxy);
    OptionalIsOk("cookie", r.cookie);
    OptionalIsOk("body", r.body);
    hide FixedPairs;
  }

  lemma FixedAreOk(r: Request)
    ensures forall p | p in FixedPairs(r) :: PairOk(p)
  {
    hide BareChar;
    NameIsBare("method");
    NameIsBare("url");
    NameIsBare("follow_redirects");
    NameIsBare("compressed");
  }

  lemma OptionalIsOk(name: string, value: Option<string>)
    requires name in ["proxy", "cookie", "body"]
    ensures forall p | p in Optional(name, value) :: PairOk(p)
  {
    hide BareChar;
    NameIsBare("proxy");
    NameIsBare("cookie");
    NameIsBare("body");
  }

  lemma NameIsBare(name: string)
    requires name in ["method", "url", "follow_redirects", "compressed", "proxy", "cookie", "body"]
    ensures name != "" && forall c | c in name :: BareChar(c)
  {
    assert forall i | 0 <= i < |name| :: BareChar(name[i]);
  }

  lemma HeadersStartLine(headers: Headers)
    ensures var t := PutHeaders(headers); t == "" || t[0] == '\n'
  {
    hide Table;
    assert SECTION[0] == '\n';
  }

  /** The whole document reads back as the request exactly when no field, header name or value has a DEL and no header
      name ends in an underscore and digits. */
  lemma DocumentReadsBack(r: Request)
    ensures ReadDocument(Document(r)) == Some(r) <==>
            && FieldsPrintable(r)
            && forall i | 0 <= i < |r.headers| :: !Suffixed(r.headers[i].0) && Writable(r.headers[i])
  {
    hide PutPairs, PutHeaders, ReadPairs, ReadHeaders, PairsOf, RequestOf, FieldsPrintable, Suffixed, Writable,
         AllPrinted, PairOk;
    var rest := PutHeaders(r.headers);
    DropPrefix(COMMENT, PutPairs(PairsOf(r)) + rest);
    PairsAreOk(r);
    HeadersStartLine(r.headers);
    PairsReadBack(PairsOf(r), rest);
    PairsPrintedIff(r);
    HeadersReadBack(r.headers);
    if ReadHeaders(rest).Some? {
      RequestIsAssembled(r, ReadHeaders(rest).value);
    }
  }
}
