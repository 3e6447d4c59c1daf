/**
 `parse_argv` of src/from_curl.rs: a curl argument list becomes a request.

 `Events` reads the list as a sequence of options, `Fold` is what the parser's state is
 after them. The fields of the result are then characterised one by one in terms of the
 options alone, and printing a request as arguments is shown to be undone by parsing.
 */
module CurlArgs {
  import opened Wrappers
  import opened Strings
  import Tokenizer

  datatype CurlRequest = CurlRequest(
    method_: string, url: string, headers: seq<(string, string)>, cookie: Option<string>, body: Option<string>,
    followRedirects: bool, proxy: Option<string>, compressed: bool)

  datatype ParsedCurl = ParsedCurl(request: CurlRequest, warnings: seq<string>)

  /** Library functions the parser calls: Unicode upper-casing and base64. */
  datatype Env = Env(upper: string -> string, base64: string -> string)

  datatype Kind =
    | Header | Cookie | Data | Method | Location | Proxy | Compressed
    | UserAgent | Referer | User | NoOp | Ignored | Unknown | Positional

  function Classify(flag: string): Kind
  {
    if flag == "-H" || flag == "--header" then Header
    else if flag == "-b" || flag == "--cookie" then Cookie
    else if flag == "-d" || flag == "--data" || flag == "--data-raw" || flag == "--data-binary"
            || flag == "--data-urlencode" then Data
    else if flag == "-X" || flag == "--request" then Method
    else if flag == "-L" || flag == "--location" then Location
    else if flag == "-x" || flag == "--proxy" then Proxy
    else if flag == "--compressed" then Compressed
    else if flag == "-A" || flag == "--user-agent" then UserAgent
    else if flag == "-e" || flag == "--referer" then Referer
    else if flag == "-u" || flag == "--user" then User
    else if flag == "-k" || flag == "--insecure" || flag == "-s" || flag == "--silent" || flag == "-i"
            || flag == "--include" || flag == "-v" || flag == "--verbose" || flag == "-#"
            || flag == "--progress-bar" || flag == "--no-progress-meter" then NoOp
    else if flag == "-o" || flag == "--output" || flag == "--max-time" || flag == "--connect-timeout"
            || flag == "--retry" || flag == "--retry-delay" || flag == "--retry-max-time" || flag == "--resolve"
            || flag == "--cacert" || flag == "--cert" || flag == "--key" then Ignored
    else if StartsWith(flag, "-") && |flag| > 1 then Unknown
    else Positional
  }

  predicate TakesValue(k: Kind)
  {
    k in {Header, Cookie, Data, Method, Proxy, UserAgent, Referer, User, Ignored}
  }

  /** `--flag=value` splits, anything else is a flag on its own. */
  function SplitFlag(arg: string): (string, Option<string>)
  {
    if StartsWith(arg, "--") then
      match SplitOnce(arg, '=')
      case Some(p) => (p.0, Some(p.1))
      case None => (arg, None)
    else (arg, None)
  }

  // ----- options -----

  datatype Event =
    | AddHeader(name: string, value: string)
    | SetCookie(value: string)
    | AddData(value: string)
    | SetMethod(value: string)
    | Follow
    | SetProxy(value: string)
    | Compress
    | Warn(text: string)
    | Quiet
    | Url(arg: string)

  /** A `-H` value: name and value around the first colon, both trimmed. */
  function HeaderEvent(v: string): Event
  {
    match SplitOnce(v, ':')
    case None => Warn("ignored malformed -H value `" + v + "`")
    case Some(p) =>
      if Lower(Trim(p.0)) == "cookie" then SetCookie(Trim(p.1)) else AddHeader(Trim(p.0), Trim(p.1))
  }

  function EventOf(env: Env, arg: string, flag: string, v: string): Event
  {
    match Classify(flag)
    case Header => HeaderEvent(v)
    case Cookie => SetCookie(v)
    case Data => AddData(v)
    case Method => SetMethod(env.upper(v))
    case Location => Follow
    case Proxy => SetProxy(v)
    case Compressed => Compress
    case UserAgent => AddHeader("User-Agent", v)
    case Referer => AddHeader("Referer", v)
    case User => AddHeader("Authorization", "Basic " + env.base64(v))
    case NoOp => Quiet
    case Ignored => Warn("ignored flag `" + flag + "`")
    case Unknown => Warn("ignored unknown flag `" + flag + "`")
    case Positional => Url(arg)
  }

  function Before(e: Event, r: Result<seq<Event>, string>): Result<seq<Event>, string>
  {
    match r
    case Ok(v) => Ok([e] + v)
    case Err(m) => Err(m)
  }

  /** The options of an argument list, or the complaint about a missing value. */
  function Events(env: Env, toks: seq<string>): Result<seq<Event>, string>
    decreases |toks|
  {
    if toks == [] then Ok([])
    else
      var (flag, inline) := SplitFlag(toks[0]);
      if !TakesValue(Classify(flag)) then Before(EventOf(env, toks[0], flag, ""), Events(env, toks[1..]))
      else if inline.Some? then Before(EventOf(env, toks[0], flag, inline.value), Events(env, toks[1..]))
      else if |toks| > 1 then Before(EventOf(env, toks[0], flag, toks[1]), Events(env, toks[2..]))
      else Err("flag `" + flag + "` expects a value")
  }

  // ----- the parser's state -----

  datatype State = State(req: CurlRequest, warnings: seq<string>, explicit: bool, url: Option<string>)

  const START: State := State(CurlRequest("GET", "", [], None, None, false, None, false), [], false, None)

  function Apply(st: State, e: Event): State
  {
    match e
    case AddHeader(n, v) => st.(req := st.req.(headers := st.req.headers + [(n, v)]))
    case SetCookie(v) => st.(req := st.req.(cookie := Some(v)))
    case AddData(v) =>
      var body := match st.req.body case Some(b) => b + "&" + v case None => v;
      st.(req := st.req.(body := Some(body), method_ := if st.explicit then st.req.method_ else "POST"))
    case SetMethod(v) => st.(req := st.req.(method_ := v), explicit := true)
    case Follow => st.(req := st.req.(followRedirects := true))
    case SetProxy(v) => st.(req := st.req.(proxy := Some(v)))
    case Compress => st.(req := st.req.(compressed := true))
    case Warn(text) => st.(warnings := st.warnings + [text])
    case Quiet => st
    case Url(arg) =>
      if st.url == None then st.(url := Some(arg))
      else st.(warnings := st.warnings + ["ignored extra positional `" + arg + "`"])
  }

  function Fold(evs: seq<Event>): State
    decreases |evs|
  {
    if evs == [] then START else Apply(Fold(evs[..|evs| - 1]), evs[|evs| - 1])
  }

  lemma FoldOneMore(evs: seq<Event>, e: Event)
    ensures Fold(evs + [e]) == Apply(Fold(evs), e)
  {
    assert (evs + [e])[..|evs|] == evs;
  }

  const NO_URL := "no URL found in curl command"

  function Finish(st: State): Result<ParsedCurl, string>
  {
    if st.url == None then Err(NO_URL)
    else Ok(ParsedCurl(st.req.(url := st.url.value), st.warnings))
  }

  /** Text after the last slash. */
  function BaseName(s: string): string
    decreases |s|
  {
    var n := Find(s, '/');
    if n == |s| then s else BaseName(s[n + 1..])
  }

  /** A leading `curl`, with or without a path, is dropped. */
  function Arguments(toks: seq<string>): seq<string>
  {
    if toks != [] && (BaseName(toks[0]) == "curl" || StartsWith(BaseName(toks[0]), "curl.")) then toks[1..] else toks
  }

  function Parsed(env: Env, toks: seq<string>): Result<ParsedCurl, string>
  {
    match Events(env, Arguments(toks))
    case Err(m) => Err(m)
    case Ok(evs) => Finish(Fold(evs))
  }

  ghost predicate At(env: Env, toks: seq<string>, i: nat, evs: seq<Event>, st: State)
  {
    && i <= |toks| && st == Fold(evs)
    && Events(env, Arguments(toks)) == match Events(env, toks[i..]) case Ok(v) => Ok(evs + v) case Err(m) => Err(m)
  }

  lemma AtStart(env: Env, toks: seq<string>, i: nat)
    requires i <= |toks| && toks[i..] == Arguments(toks)
    ensures At(env, toks, i, [], START)
  {
    match Events(env, toks[i..])
    case Ok(v) => assert [] + v == v;
    case Err(_) =>
  }

  lemma AtNext(env: Env, toks: seq<string>, i: nat, evs: seq<Event>, st: State, used: nat, e: Event)
    requires At(env, toks, i, evs, st) && 1 <= used <= |toks| - i
    requires Events(env, toks[i..]) == Before(e, Events(env, toks[i..][used..]))
    ensures At(env, toks, i + used, evs + [e], Apply(st, e))
  {
    FoldOneMore(evs, e);
    hide Events, Fold, Apply;
    assert toks[i..][used..] == toks[i + used..];
    match Events(env, toks[i + used..])
    case Ok(v) => assert evs + ([e] + v) == (evs + [e]) + v;
    case Err(_) =>
  }

  /** The arms of the source's match on a flag. */
  method ApplyFlag(env: Env, st: State, arg: string, flag: string, v: string) returns (r: State)
    ensures r == Apply(st, EventOf(env, arg, flag, v))
  {
    hide Classify, SplitOnce, Trim, Lower;
    var req, warnings, explicit, url := st.req, st.warnings, st.explicit, st.url;
    match Classify(flag) {
      case Header =>
        match SplitOnce(v, ':') {
          case Some(p) =>
            var name, value := Trim(p.0), Trim(p.1);
            if Lower(name) == "cookie" {
              req := req.(cookie := Some(value));
            } else {
              req := req.(headers := req.headers + [(name, value)]);
            }
          case None =>
            warnings := warnings + ["ignored malformed -H value `" + v + "`"];
        }
      case Cookie =>
        req := req.(cookie := Some(v));
      case Data =>
        if !explicit {
          req := req.(method_ := "POST");
        }
        match req.body {
          case Some(b) => req := req.(body := Some(b + "&" + v));
          case None => req := req.(body := Some(v));
        }
      case Method =>
        req := req.(method_ := env.upper(v));
        explicit := true;
      case Location =>
        req := req.(followRedirects := true);
      case Proxy =>
        req := req.(proxy := Some(v));
      case Compressed =>
        req := req.(compressed := true);
      case UserAgent =>
        req := req.(headers := req.headers + [("User-Agent", v)]);
      case Referer =>
        req := req.(headers := req.headers + [("Referer", v)]);
      case User =>
        req := req.(headers := req.headers + [("Authorization", "Basic " + env.base64(v))]);
      case NoOp =>
      case Ignored =>
        warnings := warnings + ["ignored flag `" + flag + "`"];
      case Unknown =>
        warnings := warnings + ["ignored unknown flag `" + flag + "`"];
      case Positional =>
        if url.None? {
          url := Some(arg);
        } else {
          warnings := warnings + ["ignored extra positional `" + arg + "`"];
        }
    }
    return State(req, warnings, explicit, url);
  }

  /** The loop of the source: one pass with an index, updating the request as it goes. */
  method ParseArgv(env: Env, toks: seq<string>) returns (r: Result<ParsedCurl, string>)
    ensures r == Parsed(env, toks)
  {
    hide Events, Fold;
    var st := START;
    var i := 0;
    ghost var evs: seq<Event> := [];
    if toks != [] && (BaseName(toks[0]) == "curl" || StartsWith(BaseName(toks[0]), "curl.")) {
      i := 1;
    }
    AtStart(env, toks, i);
    while i < |toks|
      invariant At(env, toks, i, evs, st)
    {
      var arg := toks[i];
      var (flag, inline) := SplitFlag(arg);
      var v, used := "", 1;
      EventsStep(env, toks[i..]);
      if TakesValue(Classify(flag)) {
        if inline.Some? {
          v := inline.value;
        } else {
          if i + 1 >= |toks| {
            return Err("flag `" + flag + "` expects a value");
          }
          v, used := toks[i + 1], 2;
        }
      }
      ghost var e := EventOf(env, arg, flag, v);
      AtNext(env, toks, i, evs, st, used, e);
      st := ApplyFlag(env, st, arg, flag, v);
      evs := evs + [e];
      i := i + used;
    }
    AtEnd(env, toks, evs, st);
    return Finish(st);
  }

  lemma EventsStep(env: Env, toks: seq<string>)
    requires toks != []
    ensures var (flag, inline) := SplitFlag(toks[0]);
            Events(env, toks) ==
            if !TakesValue(Classify(flag)) then Before(EventOf(env, toks[0], flag, ""), Events(env, toks[1..]))
            else if inline.Some? then Before(EventOf(env, toks[0], flag, inline.value), Events(env, toks[1..]))
            else if |toks| > 1 then Before(EventOf(env, toks[0], flag, toks[1]), Events(env, toks[2..]))
            else Err("flag `" + flag + "` expects a value")
  {
  }

  lemma AtEnd(env: Env, toks: seq<string>, evs: seq<Event>, st: State)
    requires At(env, toks, |toks|, evs, st)
    ensures Parsed(env, toks) == Finish(st)
  {
    assert toks[|toks|..] == [] && evs + [] == evs;
  }

  // ----- what each field of the result is -----

  /** The values an option type contributes, in order. */
  function Collect<X, T>(options: seq<X>, pick: X -> Option<T>): seq<T>
    decreases |options|
  {
    if options == [] then []
    else
      var n := |options| - 1;
      Collect(options[..n], pick) + match pick(options[n]) case Some(v) => [v] case None => []
  }

  function Last<T>(s: seq<T>): Option<T>
  {
    if s == [] then None else Some(s[|s| - 1])
  }

  /** Strings joined by an ampersand. */
  function JoinAmp(parts: seq<string>): string
    requires parts != []
    decreases |parts|
  {
    if |parts| == 1 then parts[0] else JoinAmp(parts[..|parts| - 1]) + "&" + parts[|parts| - 1]
  }

  function HeadersOf(evs: seq<Event>): seq<(string, string)>
  {
    Collect(evs, (e: Event) => if e.AddHeader? then Some((e.name, e.value)) else None)
  }

  function CookiesOf(evs: seq<Event>): seq<string>
  {
    Collect(evs, (e: Event) => if e.SetCookie? then Some(e.value) else None)
  }

  function DataOf(evs: seq<Event>): seq<string>
  {
    Collect(evs, (e: Event) => if e.AddData? then Some(e.value) else None)
  }

  function MethodsOf(evs: seq<Event>): seq<string>
  {
    Collect(evs, (e: Event) => if e.SetMethod? then Some(e.value) else None)
  }

  function ProxiesOf(evs: seq<Event>): seq<string>
  {
    Collect(evs, (e: Event) => if e.SetProxy? then Some(e.value) else None)
  }

  function UrlsOf(evs: seq<Event>): seq<string>
  {
    Collect(evs, (e: Event) => if e.Url? then Some(e.arg) else None)
  }

  lemma {:induction false} HeadersInOrder(evs: seq<Event>)
    ensures Fold(evs).req.headers == HeadersOf(evs)
    decreases |evs|
  {
    if evs == [] {
    } else {
      HeadersInOrder(evs[..|evs| - 1]);
    }
  }

  lemma {:induction false} CookieIsLast(evs: seq<Event>)
    ensures Fold(evs).req.cookie == Last(CookiesOf(evs))
    decreases |evs|
  {
    if evs == [] {
    } else {
      CookieIsLast(evs[..|evs| - 1]);
    }
  }

  lemma JoinOneMore(parts: seq<string>, x: string)
    requires parts != []
    ensures JoinAmp(parts + [x]) == JoinAmp(parts) + "&" + x
  {
    assert (parts + [x])[..|parts|] == parts;
  }

  lemma {:induction false} BodyIsData(evs: seq<Event>)
    ensures Fold(evs).req.body == if DataOf(evs) == [] then None else Some(JoinAmp(DataOf(evs)))
    decreases |evs|
  {
    if evs == [] {
    } else {
      var n := |evs| - 1;
      BodyIsData(evs[..n]);
      var e, data := evs[n], DataOf(evs[..n]);
      if !e.AddData? {
        assert DataOf(evs) == data + [] == data;
      } else if data == [] {
        assert DataOf(evs) == [e.value];
      } else {
        JoinOneMore(data, e.value);
        assert DataOf(evs) == data + [e.value];
      }
    }
  }

  lemma {:induction false} ExplicitIsGiven(evs: seq<Event>)
    ensures Fold(evs).explicit <==> MethodsOf(evs) != []
    decreases |evs|
  {
    if evs == [] {
    } else {
      ExplicitIsGiven(evs[..|evs| - 1]);
    }
  }

  /** The method: the last one given, else `POST` as soon as there is data. */
  function MethodOf(methods: seq<string>, data: seq<string>): string
  {
    match Last(methods)
    case Some(m) => m
    case None => if data == [] then "GET" else "POST"
  }

  lemma {:induction false} MethodIsLast(evs: seq<Event>)
    ensures Fold(evs).req.method_ == MethodOf(MethodsOf(evs), DataOf(evs))
    decreases |evs|
  {
    if evs == [] {
    } else {
      var n := |evs| - 1;
      MethodIsLast(evs[..n]);
      ExplicitIsGiven(evs[..n]);
      assert DataOf(evs) == DataOf(evs[..n]) + if evs[n].AddData? then [evs[n].value] else [];
      assert MethodsOf(evs) == MethodsOf(evs[..n]) + if evs[n].SetMethod? then [evs[n].value] else [];
      hide DataOf, MethodsOf;
    }
  }

  lemma {:induction false} FlagsAreGiven(evs: seq<Event>)
    ensures (Fold(evs).req.followRedirects <==> Follow in evs) && (Fold(evs).req.compressed <==> Compress in evs)
    decreases |evs|
  {
    if evs == [] {
    } else {
      FlagsAreGiven(evs[..|evs| - 1]);
      assert evs == evs[..|evs| - 1] + [evs[|evs| - 1]];
    }
  }

  lemma {:induction false} ProxyIsLast(evs: seq<Event>)
    ensures Fold(evs).req.proxy == Last(ProxiesOf(evs))
    decreases |evs|
  {
    if evs == [] {
    } else {
      ProxyIsLast(evs[..|evs| - 1]);
    }
  }

  lemma {:induction false} UrlIsFirst(evs: seq<Event>)
    ensures Fold(evs).url == if UrlsOf(evs) == [] then None else Some(UrlsOf(evs)[0])
    decreases |evs|
  {
    if evs == [] {
    } else {
      UrlIsFirst(evs[..|evs| - 1]);
    }
  }

  lemma {:induction false} NoWarningIff(evs: seq<Event>)
    ensures Fold(evs).warnings == [] <==> |UrlsOf(evs)| <= 1 && forall e | e in evs :: !e.Warn?
    decreases |evs|
  {
    if evs == [] {
    } else {
      var front, e := evs[..|evs| - 1], evs[|evs| - 1];
      NoWarningIff(front);
      UrlIsFirst(front);
      assert UrlsOf(evs) == UrlsOf(front) + if e.Url? then [e.arg] else [];
      assert evs == front + [e];
      hide UrlsOf;
    }
  }

  /** The request is determined by the options, wherever they stand: the first positional is the URL, an
      explicit method wins over the `POST` that data implies, data accumulates, cookie and proxy are the
      last given, headers keep their order and duplicates. */
  lemma ParsedFields(env: Env, toks: seq<string>, evs: seq<Event>)
    requires Events(env, Arguments(toks)) == Ok(evs)
    ensures Parsed(env, toks) == Err(NO_URL) <==> UrlsOf(evs) == []
    ensures UrlsOf(evs) != [] ==>
              && Parsed(env, toks).Ok?
              && Parsed(env, toks).value.request == CurlRequest(
                   MethodOf(MethodsOf(evs), DataOf(evs)), UrlsOf(evs)[0], HeadersOf(evs), Last(CookiesOf(evs)),
                   if DataOf(evs) == [] then None else Some(JoinAmp(DataOf(evs))),
                   Follow in evs, Last(ProxiesOf(evs)), Compress in evs)
              && (Parsed(env, toks).value.warnings == [] <==> |UrlsOf(evs)| == 1 && forall e | e in evs :: !e.Warn?)
  {
    HeadersInOrder(evs);
    CookieIsLast(evs);
    BodyIsData(evs);
    MethodIsLast(evs);
    FlagsAreGiven(evs);
    ProxyIsLast(evs);
    UrlIsFirst(evs);
    NoWarningIff(evs);
  }

  // ----- printing a request and parsing it back -----

  function HeaderArgs(headers: seq<(string, string)>): seq<string>
  {
    if headers == [] then [] else ["-H", headers[0].0 + ": " + headers[0].1] + HeaderArgs(headers[1..])
  }

  function OptionArgs(flag: string, value: Option<string>): seq<string>
  {
    match value case Some(v) => [flag, v] case None => []
  }

  function BareArg(flag: string, on: bool): seq<string>
  {
    if on then [flag] else []
  }

  function FlagArgs(r: CurlRequest): seq<string>
  {
    ["-X", r.method_] + HeaderArgs(r.headers) + OptionArgs("-b", r.cookie) + OptionArgs("--data-raw", r.body)
    + BareArg("-L", r.followRedirects) + OptionArgs("-x", r.proxy) + BareArg("--compressed", r.compressed)
  }

  /** A request as a curl argument list. */
  function RequestArgs(r: CurlRequest): seq<string>
  {
    ["curl"] + FlagArgs(r) + [r.url]
  }

  predicate CanonicalHeader(h: (string, string))
  {
    ':' !in h.0 && Trimmed(h.0) && Trimmed(h.1) && Lower(h.0) != "cookie"
  }

  predicate CanonicalUrl(url: string)
  {
    !StartsWith(url, "-") || url == "-"
  }

  /** Upper-case method, trimmed colon-free header names other than `cookie`, trimmed values, and a URL
      that cannot be taken for a flag. */
  predicate Canonical(env: Env, r: CurlRequest)
  {
    env.upper(r.method_) == r.method_ && CanonicalUrl(r.url) && forall h | h in r.headers :: CanonicalHeader(h)
  }

  lemma TrimLeadingSpace(v: string)
    ensures Trim(" " + v) == Trim(v)
  {
    assert (" " + v)[1..] == v;
  }

  lemma {:induction false} TrimStartShortens(s: string)
    ensures |TrimStart(s)| <= |s|
    ensures forall c | c in TrimStart(s) :: c in s
  {
    if s != "" && IsWhitespace(s[0]) {
      TrimStartShortens(s[1..]);
    }
  }

  /** A printed header is read back as itself exactly when it is canonical. */
  lemma HeaderReadsBack(h: (string, string))
    ensures HeaderEvent(h.0 + ": " + h.1) == AddHeader(h.0, h.1) <==> CanonicalHeader(h)
    ensures !HeaderEvent(h.0 + ": " + h.1).Warn?
  {
    var v := h.0 + ": " + h.1;
    assert v[|h.0|] == ':';
    if ':' !in h.0 {
      assert v == h.0 + [':'] + (" " + h.1);
      FindIn(h.0, ':', " " + h.1);
      TrimLeadingSpace(h.1);
      TrimTrimmed(h.0);
      TrimTrimmed(h.1);
    } else {
      var p := SplitOnce(v, ':').value;
      TrimStartShortens(p.0);
    }
  }

  function HeaderEvents(headers: seq<(string, string)>): seq<Event>
  {
    if headers == [] then [] else [HeaderEvent(headers[0].0 + ": " + headers[0].1)] + HeaderEvents(headers[1..])
  }

  function Optional(e: Event, on: bool): seq<Event>
  {
    if on then [e] else []
  }

  function OptionEvents(value: Option<string>, make: string -> Event): seq<Event>
  {
    match value case Some(v) => [make(v)] case None => []
  }

  /** The options of a printed request, up to the URL. */
  function OptionsOf(env: Env, r: CurlRequest): seq<Event>
  {
    [SetMethod(env.upper(r.method_))] + HeaderEvents(r.headers) + OptionEvents(r.cookie, (v: string) => SetCookie(v))
    + OptionEvents(r.body, (v: string) => AddData(v)) + Optional(Follow, r.followRedirects)
    + OptionEvents(r.proxy, (v: string) => SetProxy(v)) + Optional(Compress, r.compressed)
  }

  function Prefix(evs: seq<Event>, r: Result<seq<Event>, string>): Result<seq<Event>, string>
  {
    match r
    case Ok(v) => Ok(evs + v)
    case Err(m) => Err(m)
  }

  lemma PrefixTwice(a: seq<Event>, b: seq<Event>, r: Result<seq<Event>, string>)
    ensures Prefix(a, Prefix(b, r)) == Prefix(a + b, r)
    ensures Prefix([], r) == r
  {
    if r.Ok? {
      assert a + (b + r.value) == a + b + r.value && [] + r.value == r.value;
    }
  }

  lemma ShortFlag(c: char)
    requires c != '-'
    ensures SplitFlag(['-', c]) == (['-', c], None)
  {
  }

  /** Whatever follows, these arguments are read as these options. */
  ghost predicate Reads(env: Env, args: seq<string>, evs: seq<Event>)
  {
    forall rest :: Events(env, args + rest) == Prefix(evs, Events(env, rest))
  }

  lemma ReadsConcat(env: Env, a: seq<string>, ea: seq<Event>, b: seq<string>, eb: seq<Event>)
    requires Reads(env, a, ea) && Reads(env, b, eb)
    ensures Reads(env, a + b, ea + eb)
  {
    hide Events, Prefix;
    forall rest
      ensures Events(env, a + b + rest) == Prefix(ea + eb, Events(env, rest))
    {
      assert a + b + rest == a + (b + rest);
      PrefixTwice(ea, eb, Events(env, rest));
    }
  }

  lemma ReadsNothing(env: Env)
    ensures Reads(env, [], [])
  {
    hide Events, Prefix;
    forall rest
      ensures Events(env, [] + rest) == Prefix([], Events(env, rest))
    {
      assert [] + rest == rest;
      PrefixTwice([], [], Events(env, rest));
    }
  }

  lemma ReadsValued(env: Env, flag: string, v: string)
    requires SplitFlag(flag) == (flag, None) && TakesValue(Classify(flag))
    ensures Reads(env, [flag, v], [EventOf(env, flag, flag, v)])
  {
    hide EventOf, SplitFlag, Classify;
    forall rest
      ensures Events(env, [flag, v] + rest) == Prefix([EventOf(env, flag, flag, v)], Events(env, rest))
    {
      assert ([flag, v] + rest)[2..] == rest;
    }
  }

  lemma ReadsBare(env: Env, flag: string, on: bool, e: Event)
    requires SplitFlag(flag) == (flag, None) && !TakesValue(Classify(flag)) && EventOf(env, flag, flag, "") == e
    ensures Reads(env, BareArg(flag, on), Optional(e, on))
  {
    hide EventOf, SplitFlag, Classify;
    ReadsNothing(env);
    if on {
      forall rest
        ensures Events(env, [flag] + rest) == Prefix([e], Events(env, rest))
      {
        assert ([flag] + rest)[1..] == rest;
      }
    }
  }

  lemma ReadsOption(env: Env, flag: string, value: Option<string>, make: string -> Event)
    requires SplitFlag(flag) == (flag, None) && TakesValue(Classify(flag))
    requires forall v :: EventOf(env, flag, flag, v) == make(v)
    ensures Reads(env, OptionArgs(flag, value), OptionEvents(value, make))
  {
    ReadsNothing(env);
    if value.Some? {
      ReadsValued(env, flag, value.value);
    }
  }

  lemma {:induction false} ReadsHeaders(env: Env, headers: seq<(string, string)>)
    ensures Reads(env, HeaderArgs(headers), HeaderEvents(headers))
  {
    hide Reads, HeaderEvent;
    if headers == [] {
      ReadsNothing(env);
    } else {
      var v := headers[0].0 + ": " + headers[0].1;
      ShortFlag('H');
      ReadsValued(env, "-H", v);
      ReadsHeaders(env, headers[1..]);
      ReadsConcat(env, ["-H", v], [HeaderEvent(v)], HeaderArgs(headers[1..]), HeaderEvents(headers[1..]));
    }
  }

  lemma ReadsMethod(env: Env, r: CurlRequest)
    ensures Reads(env, ["-X", r.method_], [SetMethod(env.upper(r.method_))])
  {
    ShortFlag('X');
    ReadsValued(env, "-X", r.method_);
  }

  lemma ReadsCookie(env: Env, r: CurlRequest)
    ensures Reads(env, OptionArgs("-b", r.cookie), OptionEvents(r.cookie, (v: string) => SetCookie(v)))
  {
    ShortFlag('b');
    ReadsOption(env, "-b", r.cookie, (v: string) => SetCookie(v));
  }

  lemma NoEqualsIn(a: string, b: string)
    requires '=' !in a && '=' !in b
    ensures '=' !in a + b
  {
  }

  lemma DataRawFlag()
    ensures SplitFlag("--data-raw") == ("--data-raw", None) && Classify("--data-raw") == Data
  {
    NoEqualsIn("--data", "-raw");
    assert "--data-raw" == "--data" + "-raw";
  }

  lemma CompressedSplits()
    ensures SplitFlag("--compressed") == ("--compressed", None)
  {
    NoEqualsIn("--comp", "ressed");
    assert "--compressed" == "--comp" + "ressed";
  }

  lemma CompressedFlag()
    ensures SplitFlag("--compressed") == ("--compressed", None) && Classify("--compressed") == Compressed
  {
    CompressedSplits();
    hide SplitFlag;
    TwelveLetters("--compressed");
  }

  lemma TwelveLetters(flag: string)
    requires |flag| == 12
    ensures flag == "--compressed" ==> Classify(flag) == Compressed
  {
  }

  lemma LocationFlag()
    ensures SplitFlag("-L") == ("-L", None) && Classify("-L") == Location
  {
    ShortFlag('L');
  }

  lemma ReadsBody(env: Env, r: CurlRequest)
    ensures Reads(env, OptionArgs("--data-raw", r.body), OptionEvents(r.body, (v: string) => AddData(v)))
  {
    DataRawFlag();
    hide Classify, SplitFlag, Reads;
    ReadsOption(env, "--data-raw", r.body, (v: string) => AddData(v));
  }

  lemma ReadsProxy(env: Env, r: CurlRequest)
    ensures Reads(env, OptionArgs("-x", r.proxy), OptionEvents(r.proxy, (v: string) => SetProxy(v)))
  {
    ShortFlag('x');
    ReadsOption(env, "-x", r.proxy, (v: string) => SetProxy(v));
  }

  lemma ReadsSwitches(env: Env, r: CurlRequest)
    ensures Reads(env, BareArg("-L", r.followRedirects), Optional(Follow, r.followRedirects))
    ensures Reads(env, BareArg("--compressed", r.compressed), Optional(Compress, r.compressed))
  {
    LocationFlag();
    CompressedFlag();
    hide Classify, SplitFlag, Reads;
    ReadsBare(env, "-L", r.followRedirects, Follow);
    ReadsBare(env, "--compressed", r.compressed, Compress);
  }

  lemma ReadsFlags(env: Env, r: CurlRequest)
    ensures Reads(env, FlagArgs(r), OptionsOf(env, r))
  {
    hide Reads, HeaderArgs, HeaderEvents, OptionArgs, OptionEvents, BareArg, Optional;
    ReadsMethod(env, r);
    ReadsHeaders(env, r.headers);
    ReadsCookie(env, r);
    ReadsBody(env, r);
    ReadsProxy(env, r);
    ReadsSwitches(env, r);
    JoinReads(env, ["-X", r.method_], [SetMethod(env.upper(r.method_))], HeaderArgs(r.headers), HeaderEvents(r.headers),
      OptionArgs("-b", r.cookie), OptionEvents(r.cookie, (v: string) => SetCookie(v)),
      OptionArgs("--data-raw", r.body), OptionEvents(r.body, (v: string) => AddData(v)),
      BareArg("-L", r.followRedirects), Optional(Follow, r.followRedirects),
      OptionArgs("-x", r.proxy), OptionEvents(r.proxy, (v: string) => SetProxy(v)),
      BareArg("--compressed", r.compressed), Optional(Compress, r.compressed));
  }

  lemma JoinReads(env: Env, a0: seq<string>, e0: seq<Event>, a1: seq<string>, e1: seq<Event>,
                  a2: seq<string>, e2: seq<Event>, a3: seq<string>, e3: seq<Event>, a4: seq<string>, e4: seq<Event>,
                  a5: seq<string>, e5: seq<Event>, a6: seq<string>, e6: seq<Event>)
    requires Reads(env, a0, e0) && Reads(env, a1, e1) && Reads(env, a2, e2) && Reads(env, a3, e3)
    requires Reads(env, a4, e4) && Reads(env, a5, e5) && Reads(env, a6, e6)
    ensures Reads(env, a0 + a1 + a2 + a3 + a4 + a5 + a6, e0 + e1 + e2 + e3 + e4 + e5 + e6)
  {
    hide Reads;
    ReadsConcat(env, a0, e0, a1, e1);
    ReadsConcat(env, a0 + a1, e0 + e1, a2, e2);
    ReadsConcat(env, a0 + a1 + a2, e0 + e1 + e2, a3, e3);
    ReadsConcat(env, a0 + a1 + a2 + a3, e0 + e1 + e2 + e3, a4, e4);
    ReadsConcat(env, a0 + a1 + a2 + a3 + a4, e0 + e1 + e2 + e3 + e4, a5, e5);
    ReadsConcat(env, a0 + a1 + a2 + a3 + a4 + a5, e0 + e1 + e2 + e3 + e4 + e5, a6, e6);
  }

  /** The printed arguments are read as the printed options followed by whatever the URL is read as. */
  lemma RequestArgsRead(env: Env, r: CurlRequest)
    ensures Events(env, Arguments(RequestArgs(r))) == Prefix(OptionsOf(env, r), Events(env, [r.url]))
  {
    ReadsFlags(env, r);
    hide Events, Prefix, OptionsOf, FlagArgs;
    assert Arguments(RequestArgs(r)) == FlagArgs(r) + [r.url];
  }

  // ----- the state after the printed options -----

  /** Fold from a given state. */
  function FoldFrom(st: State, evs: seq<Event>): State
    decreases |evs|
  {
    if evs == [] then st else FoldFrom(Apply(st, evs[0]), evs[1..])
  }

  lemma {:induction false} FoldIsFoldFrom(a: seq<Event>, b: seq<Event>)
    ensures Fold(a + b) == FoldFrom(Fold(a), b)
    decreases |b|
  {
    hide Apply, Fold;
    if b == [] {
      assert a + b == a;
    } else {
      FoldOneMore(a, b[0]);
      assert a + b == (a + [b[0]]) + b[1..];
      FoldIsFoldFrom(a + [b[0]], b[1..]);
    }
  }

  lemma FoldOption(a: seq<Event>, value: Option<string>, make: string -> Event)
    ensures Fold(a + OptionEvents(value, make)) ==
            match value case Some(v) => Apply(Fold(a), make(v)) case None => Fold(a)
  {
    hide Apply, Fold;
    match value
    case Some(v) => FoldOneMore(a, make(v));
    case None => assert a + [] == a;
  }

  lemma FoldBare(a: seq<Event>, e: Event, on: bool)
    ensures Fold(a + Optional(e, on)) == if on then Apply(Fold(a), e) else Fold(a)
  {
    hide Apply, Fold;
    if on {
      FoldOneMore(a, e);
    } else {
      assert a + [] == a;
    }
  }

  function SurvivingOne(h: (string, string)): seq<(string, string)>
  {
    var e := HeaderEvent(h.0 + ": " + h.1);
    if e.AddHeader? then [(e.name, e.value)] else []
  }

  /** The headers that survive being printed and read. */
  function Surviving(headers: seq<(string, string)>): seq<(string, string)>
  {
    if headers == [] then []
    else
      SurvivingOne(headers[0]) + Surviving(headers[1..])
  }

  lemma {:induction false} SurvivingIsAll(headers: seq<(string, string)>)
    ensures |Surviving(headers)| <= |headers|
    ensures Surviving(headers) == headers <==> forall h | h in headers :: CanonicalHeader(h)
  {
    hide HeaderEvent, CanonicalHeader;
    if headers == [] {
    } else {
      SurvivingIsAll(headers[1..]);
      HeaderReadsBack(headers[0]);
      assert headers == [headers[0]] + headers[1..];
      if Surviving(headers) == headers {
        assert Surviving(headers)[1..] == headers[1..];
      }
    }
  }

  ghost predicate OnlyHeaders(st: State, st': State)
  {
    st' == st.(req := st.req.(headers := st'.req.headers, cookie := st'.req.cookie))
  }

  lemma HeaderApply(st: State, h: (string, string))
    ensures var e := HeaderEvent(h.0 + ": " + h.1);
            var st' := Apply(st, e);
            && OnlyHeaders(st, st')
            && st'.req.headers == st.req.headers + SurvivingOne(h)
            && (CanonicalHeader(h) ==> st'.req.cookie == st.req.cookie)
  {
    HeaderReadsBack(h);
  }

  lemma FoldFirstHeader(st: State, headers: seq<(string, string)>)
    requires headers != []
    ensures FoldFrom(st, HeaderEvents(headers)) ==
            FoldFrom(Apply(st, HeaderEvent(headers[0].0 + ": " + headers[0].1)), HeaderEvents(headers[1..]))
  {
    hide HeaderEvent, Apply;
    assert HeaderEvents(headers)[1..] == HeaderEvents(headers[1..]);
  }

  lemma {:induction false} HeadersFold(st: State, headers: seq<(string, string)>)
    ensures FoldFrom(st, HeaderEvents(headers)).req.headers == st.req.headers + Surviving(headers)
    decreases |headers|
  {
    if headers == [] {
      assert st.req.headers + [] == st.req.headers;
    } else {
      var st1 := Apply(st, HeaderEvent(headers[0].0 + ": " + headers[0].1));
      var one, tail := SurvivingOne(headers[0]), headers[1..];
      FoldFirstHeader(st, headers);
      HeaderApply(st, headers[0]);
      HeadersFold(st1, tail);
      assert Surviving(headers) == one + Surviving(tail);
      ConcatThree(st.req.headers, one, Surviving(tail), st1.req.headers, Surviving(headers));
      hide *;
    }
  }

  lemma ConcatThree<T>(a: seq<T>, b: seq<T>, c: seq<T>, ab: seq<T>, bc: seq<T>)
    requires ab == a + b && bc == b + c
    ensures ab + c == a + bc
  {
  }

  lemma {:induction false} HeadersFoldFrame(st: State, headers: seq<(string, string)>)
    ensures OnlyHeaders(st, FoldFrom(st, HeaderEvents(headers)))
    decreases |headers|
  {
    if headers == [] {
    } else {
      FoldFirstHeader(st, headers);
      hide HeaderEvent, Apply, FoldFrom, HeaderEvents;
      HeaderApply(st, headers[0]);
      HeadersFoldFrame(Apply(st, HeaderEvent(headers[0].0 + ": " + headers[0].1)), headers[1..]);
    }
  }

  lemma {:induction false} HeadersFoldCookie(st: State, headers: seq<(string, string)>)
    requires forall h | h in headers :: CanonicalHeader(h)
    ensures FoldFrom(st, HeaderEvents(headers)).req.cookie == st.req.cookie
    decreases |headers|
  {
    if headers == [] {
    } else {
      FoldFirstHeader(st, headers);
      hide HeaderEvent, Apply, CanonicalHeader, FoldFrom, HeaderEvents;
      var e := HeaderEvent(headers[0].0 + ": " + headers[0].1);
      HeaderApply(st, headers[0]);
      HeadersFoldCookie(Apply(st, e), headers[1..]);
    }
  }

  /** Method and headers printed and read. */
  lemma FirstOptionsFold(m: string, headers: seq<(string, string)>)
    ensures var st := Fold([SetMethod(m)] + HeaderEvents(headers));
            && st == State(CurlRequest(m, "", Surviving(headers), st.req.cookie, None, false, None, false),
                           [], true, None)
            && ((forall h | h in headers :: CanonicalHeader(h)) ==> st.req.cookie == None)
  {
    var e0 := [SetMethod(m)];
    FoldOneMore([], e0[0]);
    assert [] + e0 == e0 && Fold([]) == START;
    FoldIsFoldFrom(e0, HeaderEvents(headers));
    HeadersFold(Fold(e0), headers);
    HeadersFoldFrame(Fold(e0), headers);
    hide FoldFrom, Fold, HeaderEvents, CanonicalHeader, Surviving;
    assert [] + Surviving(headers) == Surviving(headers);
    if forall h | h in headers :: CanonicalHeader(h) {
      HeadersFoldCookie(Fold(e0), headers);
    }
  }

  /** The state after the printed options. */
  lemma OptionsFold(env: Env, r: CurlRequest)
    ensures var st := Fold(OptionsOf(env, r));
            && st.url == None && st.warnings == []
            && st.req == CurlRequest(env.upper(r.method_), "", Surviving(r.headers), st.req.cookie, r.body,
                                     r.followRedirects, r.proxy, r.compressed)
            && ((forall h | h in r.headers :: CanonicalHeader(h)) ==> st.req.cookie == r.cookie)
  {
    hide Fold, HeaderEvents, OptionEvents, Optional, CanonicalHeader, Surviving;
    FirstOptionsFold(env.upper(r.method_), r.headers);
    var e1 := [SetMethod(env.upper(r.method_))] + HeaderEvents(r.headers);
    var e2 := e1 + OptionEvents(r.cookie, (v: string) => SetCookie(v));
    FoldOption(e1, r.cookie, (v: string) => SetCookie(v));
    var e3 := e2 + OptionEvents(r.body, (v: string) => AddData(v));
    FoldOption(e2, r.body, (v: string) => AddData(v));
    var e4 := e3 + Optional(Follow, r.followRedirects);
    FoldBare(e3, Follow, r.followRedirects);
    var e5 := e4 + OptionEvents(r.proxy, (v: string) => SetProxy(v));
    FoldOption(e4, r.proxy, (v: string) => SetProxy(v));
    FoldBare(e5, Compress, r.compressed);
  }

  lemma DashStart(s: string)
    ensures StartsWith(s, "-") <==> s != "" && s[0] == '-'
  {
  }

  /** A trailing argument is the URL exactly when it cannot be a flag. */
  lemma UrlArgRead(env: Env, url: string)
    ensures CanonicalUrl(url) ==> Events(env, [url]) == Ok([Url(url)])
    ensures !CanonicalUrl(url) ==>
              match Events(env, [url]) case Ok(evs) => |evs| == 1 && !evs[0].Url? case Err(_) => true
  {
    DashStart(url);
    EventsStep(env, [url]);
    assert [url][1..] == [];
    if CanonicalUrl(url) {
      PositionalFlag(url);
      hide Classify, SplitFlag;
      assert [Url(url)] + [] == [Url(url)];
    } else {
      var flag := SplitFlag(url).0;
      FlagIsNotPositional(url);
      hide Classify, SplitFlag, CanonicalUrl;
      EventIsNotUrl(env, url, flag, "");
      if SplitFlag(url).1.Some? {
        EventIsNotUrl(env, url, flag, SplitFlag(url).1.value);
      }
    }
  }

  lemma EventIsNotUrl(env: Env, arg: string, flag: string, v: string)
    requires !Classify(flag).Positional?
    ensures !EventOf(env, arg, flag, v).Url?
  {
    hide Classify;
    HeaderEventIsNotUrl(v);
  }

  lemma HeaderEventIsNotUrl(v: string)
    ensures !HeaderEvent(v).Url?
  {
  }

  lemma PositionalFlag(s: string)
    requires s == "" || s[0] != '-' || s == "-"
    ensures Classify(s) == Positional && SplitFlag(s) == (s, None)
  {
  }

  lemma FlagIsNotPositional(arg: string)
    requires |arg| > 1 && arg[0] == '-'
    ensures !Classify(SplitFlag(arg).0).Positional?
  {
    var flag := SplitFlag(arg).0;
    if flag != arg {
      assert "--" <= arg && '=' in arg;
      var p := SplitOnce(arg, '=').value;
      assert arg[0] == '-' && arg[1] == '-';
      assert |p.0| >= 2;
      assert p.0[0] == '-';
    }
    assert StartsWith(flag, "-") && |flag| > 1;
  }

  /** Printing and parsing again returns the same request without a warning, exactly for canonical requests. */
  lemma ArgsReadBack(env: Env, r: CurlRequest)
    ensures Parsed(env, RequestArgs(r)) == Ok(ParsedCurl(r, [])) <==> Canonical(env, r)
  {
    RequestArgsRead(env, r);
    OptionsFold(env, r);
    SurvivingIsAll(r.headers);
    UrlArgRead(env, r.url);
    hide Fold, OptionsOf, Events, CanonicalHeader, CanonicalUrl, Surviving, RequestArgs, Arguments;
    match Events(env, [r.url])
    case Ok(evs) =>
      FoldOneMore(OptionsOf(env, r), evs[0]);
      assert evs == [evs[0]];
    case Err(_) =>
  }

  /** The whole import: printed as a quoted command line in any quoting style, a request is tokenized and
      parsed back to itself exactly when it is canonical. */
  lemma CommandLineReadsBack(env: Env, r: CurlRequest, single: string -> bool, gap: seq<Tokenizer.Part>)
    requires Tokenizer.IsGap(gap)
    ensures var line := Tokenizer.Text(Tokenizer.Line(RequestArgs(r), single, gap));
            match Tokenizer.Scan(line, "", false)
            case Ok(toks) => Parsed(env, toks) == Ok(ParsedCurl(r, [])) <==> Canonical(env, r)
            case Err(_) => false
  {
    Tokenizer.QuotedLineReadsBack(RequestArgs(r), single, gap);
    ArgsReadBack(env, r);
  }
}
