/**
 What the options that src/from_curl.rs understands mean, each in any of its spellings.

 `Opt` is an option as it is written, `Flat` the words of an option list. The request and the warnings that
 `CurlArgs.Parsed` makes of the words are stated in terms of the option names themselves.
 */
module CurlOptions {
  import opened Wrappers
  import opened Strings
  import opened CurlArgs

  datatype Opt =
    | Given(flag: string, value: string, inline: bool)    // an option with a value: `flag value` or `flag=value`
    | Switch(flag: string, extra: Option<string>)         // one without; a long one may carry an unused `=extra`
    | Address(text: string)

  const DATA: set<string> := {"-d", "--data", "--data-raw", "--data-binary", "--data-urlencode"}

  /** Accepted without effect. */
  const SILENT: set<string> := {
    "-k", "--insecure", "-s", "--silent", "-i", "--include", "-v", "--verbose", "-#", "--progress-bar",
    "--no-progress-meter"}

  /** Accepted with their value, and ignored. */
  const IGNORED: set<string> := {
    "-o", "--output", "--max-time", "--connect-timeout", "--retry", "--retry-delay", "--retry-max-time", "--resolve",
    "--cacert", "--cert", "--key"}

  const VALUED: set<string> := DATA + IGNORED + {
    "-H", "--header", "-b", "--cookie", "-X", "--request", "-x", "--proxy", "-A", "--user-agent", "-e", "--referer",
    "-u", "--user"}

  predicate IsLong(flag: string)
  {
    StartsWith(flag, "--")
  }

  /** Options that can be written down: the value-taking ones are `VALUED`, only long ones take an equals sign. */
  predicate Proper(o: Opt)
  {
    match o
    case Given(flag, _, inline) => flag in VALUED && (IsLong(flag) ==> '=' !in flag) && (inline ==> IsLong(flag))
    case Switch(flag, extra) =>
      && flag !in VALUED && |flag| > 1 && flag[0] == '-'
      && (IsLong(flag) ==> '=' !in flag) && (extra.Some? ==> IsLong(flag))
    case Address(text) => text == "" || text == "-" || text[0] != '-'
  }

  function Words(o: Opt): (r: seq<string>)
    ensures r != []
  {
    match o
    case Given(flag, value, true) => [flag + "=" + value]
    case Given(flag, value, false) => [flag, value]
    case Switch(flag, Some(extra)) => [flag + "=" + extra]
    case Switch(flag, None) => [flag]
    case Address(text) => [text]
  }

  function Flat(opts: seq<Opt>): seq<string>
  {
    if opts == [] then [] else Words(opts[0]) + Flat(opts[1..])
  }

  // ----- what the options say, by name -----

  /** A `-H` value that names a cookie. */
  predicate CookieLine(value: string)
  {
    SplitOnce(value, ':').Some? && Lower(Trim(SplitOnce(value, ':').value.0)) == "cookie"
  }

  function HeaderGiven(env: Env, o: Opt): Option<(string, string)>
  {
    if !o.Given? then None
    else if o.flag in {"-H", "--header"} then
      match SplitOnce(o.value, ':')
      case Some(p) => if CookieLine(o.value) then None else Some((Trim(p.0), Trim(p.1)))
      case None => None
    else if o.flag in {"-A", "--user-agent"} then Some(("User-Agent", o.value))
    else if o.flag in {"-e", "--referer"} then Some(("Referer", o.value))
    else if o.flag in {"-u", "--user"} then Some(("Authorization", "Basic " + env.base64(o.value)))
    else None
  }

  function CookieGiven(o: Opt): Option<string>
  {
    if !o.Given? then None
    else if o.flag in {"-b", "--cookie"} then Some(o.value)
    else if o.flag in {"-H", "--header"} && CookieLine(o.value) then Some(Trim(SplitOnce(o.value, ':').value.1))
    else None
  }

  /** The value of an option with one of these names. */
  function ValueOf(o: Opt, names: set<string>): Option<string>
  {
    if o.Given? && o.flag in names then Some(o.value) else None
  }

  function MethodGiven(env: Env, o: Opt): Option<string>
  {
    if o.Given? && o.flag in {"-X", "--request"} then Some(env.upper(o.value)) else None
  }

  function TextOf(o: Opt): Option<string>
  {
    if o.Address? then Some(o.text) else None
  }

  predicate Switched(opts: seq<Opt>, names: set<string>)
  {
    exists o | o in opts :: o.Switch? && o.flag in names
  }

  /** The warning of an option, wherever it stands. */
  function WarningGiven(o: Opt): Option<string>
  {
    match o
    case Given(flag, value, _) =>
      if flag in IGNORED then Some("ignored flag `" + flag + "`")
      else if flag in {"-H", "--header"} && ':' !in value then Some("ignored malformed -H value `" + value + "`")
      else None
    case Switch(flag, _) =>
      if flag in SILENT || flag in {"-L", "--location", "--compressed"} then None
      else Some("ignored unknown flag `" + flag + "`")
    case Address(_) => None
  }

  /** All warnings in order; every address after the first is one. */
  function Warnings(opts: seq<Opt>): seq<string>
    decreases |opts|
  {
    if opts == [] then []
    else
      var front, o := opts[..|opts| - 1], opts[|opts| - 1];
      Warnings(front) +
      if o.Address? then
        if exists x | x in front :: x.Address? then ["ignored extra positional `" + o.text + "`"] else []
      else match WarningGiven(o) case Some(w) => [w] case None => []
  }

  // ----- names and kinds -----

  lemma NamesOfTwo(flag: string)
    requires |flag| == 2
    ensures flag == "-H" ==> Classify(flag) == Kind.Header
    ensures flag == "-b" ==> Classify(flag) == Kind.Cookie
    ensures flag == "-d" ==> Classify(flag) == Kind.Data
    ensures flag == "-X" ==> Classify(flag) == Kind.Method
    ensures flag == "-L" ==> Classify(flag) == Kind.Location
    ensures flag == "-x" ==> Classify(flag) == Kind.Proxy
    ensures flag == "-A" ==> Classify(flag) == Kind.UserAgent
    ensures flag == "-e" ==> Classify(flag) == Kind.Referer
    ensures flag == "-u" ==> Classify(flag) == Kind.User
    ensures flag == "-k" ==> Classify(flag) == Kind.NoOp
    ensures flag == "-s" ==> Classify(flag) == Kind.NoOp
    ensures flag == "-i" ==> Classify(flag) == Kind.NoOp
    ensures flag == "-v" ==> Classify(flag) == Kind.NoOp
    ensures flag == "-#" ==> Classify(flag) == Kind.NoOp
    ensures flag == "-o" ==> Classify(flag) == Kind.Ignored
  {
  }

  lemma NamesOfFive(flag: string)
    requires |flag| == 5
    ensures flag == "--key" ==> Classify(flag) == Kind.Ignored
  {
  }

  lemma NamesOfSix(flag: string)
    requires |flag| == 6
    ensures flag == "--data" ==> Classify(flag) == Kind.Data
    ensures flag == "--user" ==> Classify(flag) == Kind.User
    ensures flag == "--cert" ==> Classify(flag) == Kind.Ignored
  {
  }

  lemma NamesOfSeven(flag: string)
    requires |flag| == 7
    ensures flag == "--proxy" ==> Classify(flag) == Kind.Proxy
    ensures flag == "--retry" ==> Classify(flag) == Kind.Ignored
  {
  }

  lemma NamesOfEight(flag: string)
    requires |flag| == 8
    ensures flag == "--header" ==> Classify(flag) == Kind.Header
    ensures flag == "--cookie" ==> Classify(flag) == Kind.Cookie
    ensures flag == "--silent" ==> Classify(flag) == Kind.NoOp
    ensures flag == "--output" ==> Classify(flag) == Kind.Ignored
    ensures flag == "--cacert" ==> Classify(flag) == Kind.Ignored
  {
  }

  lemma NamesOfNine(flag: string)
    requires |flag| == 9
    ensures flag == "--request" ==> Classify(flag) == Kind.Method
    ensures flag == "--referer" ==> Classify(flag) == Kind.Referer
    ensures flag == "--include" ==> Classify(flag) == Kind.NoOp
    ensures flag == "--verbose" ==> Classify(flag) == Kind.NoOp
    ensures flag == "--resolve" ==> Classify(flag) == Kind.Ignored
  {
  }

  lemma NamesOfTen(flag: string)
    requires |flag| == 10
    ensures flag == "--data-raw" ==> Classify(flag) == Kind.Data
    ensures flag == "--location" ==> Classify(flag) == Kind.Location
    ensures flag == "--insecure" ==> Classify(flag) == Kind.NoOp
    ensures flag == "--max-time" ==> Classify(flag) == Kind.Ignored
  {
  }

  lemma NamesOfTwelve(flag: string)
    requires |flag| == 12
    ensures flag == "--compressed" ==> Classify(flag) == Kind.Compressed
    ensures flag == "--user-agent" ==> Classify(flag) == Kind.UserAgent
  {
  }

  lemma NamesOfThirteen(flag: string)
    requires |flag| == 13
    ensures flag == "--data-binary" ==> Classify(flag) == Kind.Data
    ensures flag == "--retry-delay" ==> Classify(flag) == Kind.Ignored
  {
  }

  lemma NamesOfFourteen(flag: string)
    requires |flag| == 14
    ensures flag == "--progress-bar" ==> Classify(flag) == Kind.NoOp
  {
  }

  lemma NamesOfSixteen(flag: string)
    requires |flag| == 16
    ensures flag == "--data-urlencode" ==> Classify(flag) == Kind.Data
    ensures flag == "--retry-max-time" ==> Classify(flag) == Kind.Ignored
  {
  }

  lemma NamesOfSeventeen(flag: string)
    requires |flag| == 17
    ensures flag == "--connect-timeout" ==> Classify(flag) == Kind.Ignored
  {
  }

  lemma NamesOfNineteen(flag: string)
    requires |flag| == 19
    ensures flag == "--no-progress-meter" ==> Classify(flag) == Kind.NoOp
  {
  }

  lemma RequestKinds(flag: string)
    ensures Classify(flag) == Kind.Header ==> flag in {"-H", "--header"}
    ensures Classify(flag) == Kind.Cookie ==> flag in {"-b", "--cookie"}
    ensures Classify(flag) == Kind.Method ==> flag in {"-X", "--request"}
    ensures Classify(flag) == Kind.Location ==> flag in {"-L", "--location"}
    ensures Classify(flag) == Kind.Proxy ==> flag in {"-x", "--proxy"}
  {
  }

  lemma HeaderKinds(flag: string)
    ensures Classify(flag) == Kind.Compressed ==> flag in {"--compressed"}
    ensures Classify(flag) == Kind.UserAgent ==> flag in {"-A", "--user-agent"}
    ensures Classify(flag) == Kind.Referer ==> flag in {"-e", "--referer"}
    ensures Classify(flag) == Kind.User ==> flag in {"-u", "--user"}
  {
  }

  lemma DataKind(flag: string)
    ensures Classify(flag) == Kind.Data ==> flag in DATA
  {
  }

  lemma SilentKind(flag: string)
    ensures Classify(flag) == Kind.NoOp ==> flag in SILENT
  {
  }

  lemma IgnoredKind(flag: string)
    ensures Classify(flag) == Kind.Ignored ==> flag in IGNORED
  {
  }

  lemma RequestNames(flag: string)
    ensures flag in {"-H", "--header"} <==> Classify(flag) == Kind.Header
    ensures flag in {"-b", "--cookie"} <==> Classify(flag) == Kind.Cookie
    ensures flag in {"-X", "--request"} <==> Classify(flag) == Kind.Method
    ensures flag in {"-L", "--location"} <==> Classify(flag) == Kind.Location
    ensures flag in {"-x", "--proxy"} <==> Classify(flag) == Kind.Proxy
  {
    hide Classify;
    RequestKinds(flag);
    if flag == "-H" {
      NamesOfTwo(flag);
    } else if flag == "--header" {
      NamesOfEight(flag);
    } else if flag == "-b" {
      NamesOfTwo(flag);
    } else if flag == "--cookie" {
      NamesOfEight(flag);
    } else if flag == "-X" {
      NamesOfTwo(flag);
    } else if flag == "--request" {
      NamesOfNine(flag);
    } else if flag == "-L" {
      NamesOfTwo(flag);
    } else if flag == "--location" {
      NamesOfTen(flag);
    } else if flag == "-x" {
      NamesOfTwo(flag);
    } else if flag == "--proxy" {
      NamesOfSeven(flag);
    }
  }

  lemma HeaderNames(flag: string)
    ensures flag in {"--compressed"} <==> Classify(flag) == Kind.Compressed
    ensures flag in {"-A", "--user-agent"} <==> Classify(flag) == Kind.UserAgent
    ensures flag in {"-e", "--referer"} <==> Classify(flag) == Kind.Referer
    ensures flag in {"-u", "--user"} <==> Classify(flag) == Kind.User
  {
    hide Classify;
    HeaderKinds(flag);
    if flag == "--compressed" {
      NamesOfTwelve(flag);
    } else if flag == "-A" {
      NamesOfTwo(flag);
    } else if flag == "--user-agent" {
      NamesOfTwelve(flag);
    } else if flag == "-e" {
      NamesOfTwo(flag);
    } else if flag == "--referer" {
      NamesOfNine(flag);
    } else if flag == "-u" {
      NamesOfTwo(flag);
    } else if flag == "--user" {
      NamesOfSix(flag);
    }
  }

  lemma DataNames(flag: string)
    ensures flag in DATA <==> Classify(flag) == Kind.Data
  {
    hide Classify;
    DataKind(flag);
    if flag == "-d" {
      NamesOfTwo(flag);
    } else if flag == "--data" {
      NamesOfSix(flag);
    } else if flag == "--data-raw" {
      NamesOfTen(flag);
    } else if flag == "--data-binary" {
      NamesOfThirteen(flag);
    } else if flag == "--data-urlencode" {
      NamesOfSixteen(flag);
    }
  }

  lemma SilentNames(flag: string)
    ensures flag in SILENT <==> Classify(flag) == Kind.NoOp
  {
    hide Classify;
    SilentKind(flag);
    if flag == "-k" {
      NamesOfTwo(flag);
    } else if flag == "--insecure" {
      NamesOfTen(flag);
    } else if flag == "-s" {
      NamesOfTwo(flag);
    } else if flag == "--silent" {
      NamesOfEight(flag);
    } else if flag == "-i" {
      NamesOfTwo(flag);
    } else if flag == "--include" {
      NamesOfNine(flag);
    } else if flag == "-v" {
      NamesOfTwo(flag);
    } else if flag == "--verbose" {
      NamesOfNine(flag);
    } else if flag == "-#" {
      NamesOfTwo(flag);
    } else if flag == "--progress-bar" {
      NamesOfFourteen(flag);
    } else if flag == "--no-progress-meter" {
      NamesOfNineteen(flag);
    }
  }

  lemma IgnoredNamesEarly(flag: string)
    requires flag in {"-o", "--output", "--max-time", "--connect-timeout", "--retry", "--retry-delay"}
    ensures Classify(flag) == Kind.Ignored
  {
    hide Classify;
    if flag == "-o" {
      NamesOfTwo(flag);
    } else if flag == "--output" {
      NamesOfEight(flag);
    } else if flag == "--max-time" {
      NamesOfTen(flag);
    } else if flag == "--connect-timeout" {
      NamesOfSeventeen(flag);
    } else if flag == "--retry" {
      NamesOfSeven(flag);
    } else if flag == "--retry-delay" {
      NamesOfThirteen(flag);
    }
  }

  lemma IgnoredNamesLate(flag: string)
    requires flag in {"--retry-max-time", "--resolve", "--cacert", "--cert", "--key"}
    ensures Classify(flag) == Kind.Ignored
  {
    hide Classify;
    if flag == "--retry-max-time" {
      NamesOfSixteen(flag);
    } else if flag == "--resolve" {
      NamesOfNine(flag);
    } else if flag == "--cacert" {
      NamesOfEight(flag);
    } else if flag == "--cert" {
      NamesOfSix(flag);
    } else if flag == "--key" {
      NamesOfFive(flag);
    }
  }

  lemma IgnoredNames(flag: string)
    ensures flag in IGNORED <==> Classify(flag) == Kind.Ignored
  {
    hide Classify;
    IgnoredKind(flag);
    if flag in IGNORED {
      if flag in {"-o", "--output", "--max-time", "--connect-timeout", "--retry", "--retry-delay"} {
        IgnoredNamesEarly(flag);
      } else {
        IgnoredNamesLate(flag);
      }
    }
  }

  lemma ValuedNames(flag: string)
    ensures flag in VALUED <==> TakesValue(Classify(flag))
  {
    hide Classify;
    RequestNames(flag);
    HeaderNames(flag);
    DataNames(flag);
    IgnoredNames(flag);
  }

  /** Every other word with a dash is a flag, of its own kind or unknown; the rest are positional. */
  lemma OtherWords(flag: string)
    ensures Classify(flag) == Positional <==> flag == "" || flag == "-" || flag[0] != '-'
    ensures Classify(flag) != Positional ==> |flag| > 1 && flag[0] == '-'
  {
  }

  // ----- how the parser reads an option -----

  function EventFor(env: Env, o: Opt): Event
  {
    match o
    case Given(flag, value, _) => EventOf(env, flag, flag, value)
    case Switch(flag, _) => EventOf(env, flag, flag, "")
    case Address(text) => Url(text)
  }

  function EventsFor(env: Env, opts: seq<Opt>): seq<Event>
  {
    seq(|opts|, i requires 0 <= i < |opts| => EventFor(env, opts[i]))
  }

  lemma SplitsPlain(flag: string)
    requires IsLong(flag) ==> '=' !in flag
    ensures SplitFlag(flag) == (flag, None)
  {
  }

  lemma SplitsAtEquals(flag: string, value: string)
    requires IsLong(flag) && '=' !in flag
    ensures SplitFlag(flag + "=" + value) == (flag, Some(value))
  {
    FindIn(flag, '=', value);
    assert flag + ['='] + value == flag + "=" + value;
    assert "--" <= flag + "=" + value;
  }

  lemma FlagAlone(env: Env, arg: string, flag: string, v: string)
    requires !Classify(flag).Positional?
    ensures EventOf(env, arg, flag, v) == EventOf(env, flag, flag, v)
  {
    hide Classify, HeaderEvent;
  }

  lemma ReadsGiven(env: Env, flag: string, value: string)
    requires IsLong(flag) && '=' !in flag && TakesValue(Classify(flag))
    ensures Reads(env, [flag + "=" + value], [EventOf(env, flag, flag, value)])
  {
    hide EventOf, SplitFlag, Classify, IsLong;
    SplitsAtEquals(flag, value);
    FlagAlone(env, flag + "=" + value, flag, value);
    forall rest
      ensures Events(env, [flag + "=" + value] + rest) == Prefix([EventOf(env, flag, flag, value)], Events(env, rest))
    {
      assert ([flag + "=" + value] + rest)[1..] == rest;
    }
  }

  /** One word that is read on its own. */
  lemma ReadsAlone(env: Env, word: string, flag: string, e: Event)
    requires SplitFlag(word).0 == flag && !TakesValue(Classify(flag)) && EventOf(env, word, flag, "") == e
    ensures Reads(env, [word], [e])
  {
    hide EventOf, SplitFlag, Classify;
    forall rest
      ensures Events(env, [word] + rest) == Prefix([e], Events(env, rest))
    {
      assert ([word] + rest)[1..] == rest;
    }
  }

  lemma ReadsOpt(env: Env, o: Opt)
    requires Proper(o)
    ensures Reads(env, Words(o), [EventFor(env, o)])
  {
    hide Reads, Classify, SplitFlag, EventOf, VALUED, Events;
    match o
    case Given(flag, value, inline) =>
      ValuedNames(flag);
      if inline {
        ReadsGiven(env, flag, value);
      } else {
        SplitsPlain(flag);
        ReadsValued(env, flag, value);
      }
    case Switch(flag, extra) =>
      ValuedNames(flag);
      OtherWords(flag);
      match extra {
        case Some(v) =>
          SplitsAtEquals(flag, v);
          FlagAlone(env, flag + "=" + v, flag, "");
          ReadsAlone(env, flag + "=" + v, flag, EventFor(env, o));
        case None =>
          SplitsPlain(flag);
          ReadsAlone(env, flag, flag, EventFor(env, o));
      }
    case Address(text) =>
      ReadsText(env, text);
  }

  lemma ReadsText(env: Env, text: string)
    requires text == "" || text == "-" || text[0] != '-'
    ensures Reads(env, [text], [Url(text)])
  {
    hide Reads, Classify, SplitFlag, EventOf;
    PositionalFlag(text);
    assert TakesValue(Positional) == false;
    PositionalIsUrl(env, text);
    ReadsAlone(env, text, text, Url(text));
  }

  lemma PositionalIsUrl(env: Env, text: string)
    requires Classify(text) == Positional
    ensures EventOf(env, text, text, "") == Url(text)
  {
    hide Classify, HeaderEvent;
  }

  lemma {:induction false} ReadsOpts(env: Env, opts: seq<Opt>)
    requires forall o | o in opts :: Proper(o)
    ensures Reads(env, Flat(opts), EventsFor(env, opts))
  {
    hide Reads, Proper, EventFor;
    if opts == [] {
      ReadsNothing(env);
    } else {
      ReadsOpt(env, opts[0]);
      ReadsOpts(env, opts[1..]);
      ReadsConcat(env, Words(opts[0]), [EventFor(env, opts[0])], Flat(opts[1..]), EventsFor(env, opts[1..]));
      assert EventsFor(env, opts) == [EventFor(env, opts[0])] + EventsFor(env, opts[1..]);
    }
  }

  // ----- what the options of an event are -----

  lemma HeaderKind(env: Env, o: Opt)
    requires Proper(o)
    ensures var e := EventFor(env, o);
            HeaderGiven(env, o) == if e.AddHeader? then Some((e.name, e.value)) else None
  {
    hide Classify, Trim, Lower, VALUED, SplitOnce, StartsWith;
    if !o.Address? {
      RequestNames(o.flag);
      HeaderNames(o.flag);
      ValuedNames(o.flag);
    }
  }

  lemma CookieKind(env: Env, o: Opt)
    requires Proper(o)
    ensures var e := EventFor(env, o); CookieGiven(o) == if e.SetCookie? then Some(e.value) else None
  {
    hide Classify, Trim, Lower, VALUED, SplitOnce, StartsWith;
    if !o.Address? {
      RequestNames(o.flag);
      ValuedNames(o.flag);
    }
  }

  lemma ValueKinds(env: Env, o: Opt)
    requires Proper(o)
    ensures var e := EventFor(env, o);
            && MethodGiven(env, o) == (if e.SetMethod? then Some(e.value) else None)
            && ValueOf(o, {"-x", "--proxy"}) == if e.SetProxy? then Some(e.value) else None
  {
    hide Classify, HeaderEvent, VALUED, StartsWith;
    if !o.Address? {
      RequestNames(o.flag);
      ValuedNames(o.flag);
    }
    HeaderEventsOnly(env, o);
  }

  lemma DataKinds(env: Env, o: Opt)
    requires Proper(o)
    ensures var e := EventFor(env, o);
            && ValueOf(o, DATA) == (if e.AddData? then Some(e.value) else None)
            && TextOf(o) == if e.Url? then Some(e.arg) else None
  {
    hide Classify, HeaderEvent, VALUED, DATA, StartsWith;
    if !o.Address? {
      DataNames(o.flag);
      ValuedNames(o.flag);
      OtherWords(o.flag);
    }
    HeaderEventsOnly(env, o);
  }

  lemma HeaderEventsOnly(env: Env, o: Opt)
    ensures o.Given? ==>
              var e := HeaderEvent(o.value); e.AddHeader? || e.SetCookie? || e.Warn?
  {
    hide Trim, Lower, SplitOnce;
  }

  lemma SwitchKinds(env: Env, o: Opt)
    requires Proper(o)
    ensures EventFor(env, o) == Follow <==> o.Switch? && o.flag in {"-L", "--location"}
    ensures EventFor(env, o) == Compress <==> o.Switch? && o.flag == "--compressed"
  {
    hide Classify, HeaderEvent, VALUED, StartsWith;
    if !o.Address? {
      RequestNames(o.flag);
      HeaderNames(o.flag);
      ValuedNames(o.flag);
    }
    HeaderEventsOnly(env, o);
  }

  lemma WarningKind(env: Env, o: Opt)
    requires Proper(o)
    ensures var e := EventFor(env, o); WarningGiven(o) == if e.Warn? then Some(e.text) else None
  {
    hide Classify, Trim, Lower, VALUED, SplitOnce, StartsWith, DATA, SILENT, IGNORED;
    if !o.Address? {
      RequestNames(o.flag);
      HeaderNames(o.flag);
      DataNames(o.flag);
      SilentNames(o.flag);
      IgnoredNames(o.flag);
      OtherWords(o.flag);
      ValuedNames(o.flag);
    }
  }

  // ----- the command word -----

  /** `curl` or `curl.` with something behind it, after any directory. */
  ghost predicate CallsCurl(word: string)
  {
    exists path, name | word == path + name ::
      && (path == "" || path[|path| - 1] == '/') && '/' !in name
      && (name == "curl" || "curl." <= name)
  }

  lemma {:induction false} BaseNameOf(path: string, name: string)
    requires (path == "" || path[|path| - 1] == '/') && '/' !in name
    ensures BaseName(path + name) == name
    decreases |path|
  {
    if path == "" {
      assert path + name == name;
    } else {
      var n := Find(path, '/');
      assert path[|path| - 1] == '/';
      assert path == path[..n] + ['/'] + path[n + 1..];
      assert path + name == path[..n] + ['/'] + (path[n + 1..] + name);
      FindIn(path[..n], '/', path[n + 1..] + name);
      assert (path + name)[n + 1..] == path[n + 1..] + name;
      BaseNameOf(path[n + 1..], name);
    }
  }

  lemma {:induction false} BaseNameIs(word: string) returns (path: string)
    ensures word == path + BaseName(word) && (path == "" || path[|path| - 1] == '/') && '/' !in BaseName(word)
    decreases |word|
  {
    hide BaseName;
    var n := Find(word, '/');
    BaseNameStep(word);
    if n == |word| {
      path := "";
      assert "" + word == word;
    } else {
      hide Find;
      var tail := BaseNameIs(word[n + 1..]);
      path := word[..n + 1] + tail;
      assert word == word[..n + 1] + word[n + 1..];
      assert word == path + BaseName(word[n + 1..]);
      assert tail == "" ==> path[|path| - 1] == word[n];
    }
  }

  lemma BaseNameStep(word: string)
    ensures var n := Find(word, '/');
            && BaseName(word) == (if n == |word| then word else BaseName(word[n + 1..]))
            && (n == |word| ==> '/' !in word) && (n < |word| ==> word[n] == '/')
  {
  }

  lemma CommandDropped(toks: seq<string>)
    ensures Arguments(toks) == if toks != [] && CallsCurl(toks[0]) then toks[1..] else toks
  {
    if toks != [] {
      var word := toks[0];
      var path := BaseNameIs(word);
      if CallsCurl(word) {
        var p, name :| word == p + name && (p == "" || p[|p| - 1] == '/') && '/' !in name
                       && (name == "curl" || "curl." <= name);
        BaseNameOf(p, name);
      }
    }
  }

  // ----- main results -----

  lemma {:induction false} CollectMaps<X, Y, T>(xs: seq<X>, ys: seq<Y>, p: X -> Option<T>, q: Y -> Option<T>)
    requires |xs| == |ys| && forall i | 0 <= i < |xs| :: p(xs[i]) == q(ys[i])
    ensures Collect(xs, p) == Collect(ys, q)
    decreases |xs|
  {
    if xs == [] {
    } else {
      CollectMaps(xs[..|xs| - 1], ys[..|ys| - 1], p, q);
    }
  }

  lemma {:induction false} CollectsSome<X, T>(xs: seq<X>, p: X -> Option<T>)
    ensures Collect(xs, p) != [] <==> exists x | x in xs :: p(x).Some?
    decreases |xs|
  {
    if xs == [] {
    } else {
      var front, x := xs[..|xs| - 1], xs[|xs| - 1];
      CollectsSome(front, p);
      assert xs == front + [x];
    }
  }

  lemma HeadersByName(env: Env, opts: seq<Opt>)
    requires forall o | o in opts :: Proper(o)
    ensures HeadersOf(EventsFor(env, opts)) == Collect(opts, (o: Opt) => HeaderGiven(env, o))
    ensures CookiesOf(EventsFor(env, opts)) == Collect(opts, (o: Opt) => CookieGiven(o))
  {
    hide Proper, EventFor, HeaderGiven, CookieGiven, Collect;
    var evs := EventsFor(env, opts);
    forall i | 0 <= i < |opts|
      ensures HeaderGiven(env, opts[i]) == if evs[i].AddHeader? then Some((evs[i].name, evs[i].value)) else None
      ensures CookieGiven(opts[i]) == if evs[i].SetCookie? then Some(evs[i].value) else None
    {
      HeaderKind(env, opts[i]);
      CookieKind(env, opts[i]);
    }
    CollectMaps(evs, opts, (e: Event) => if e.AddHeader? then Some((e.name, e.value)) else None,
                (o: Opt) => HeaderGiven(env, o));
    CollectMaps(evs, opts, (e: Event) => if e.SetCookie? then Some(e.value) else None, (o: Opt) => CookieGiven(o));
  }

  lemma ValuesByName(env: Env, opts: seq<Opt>)
    requires forall o | o in opts :: Proper(o)
    ensures DataOf(EventsFor(env, opts)) == Collect(opts, (o: Opt) => ValueOf(o, DATA))
    ensures MethodsOf(EventsFor(env, opts)) == Collect(opts, (o: Opt) => MethodGiven(env, o))
    ensures ProxiesOf(EventsFor(env, opts)) == Collect(opts, (o: Opt) => ValueOf(o, {"-x", "--proxy"}))
    ensures UrlsOf(EventsFor(env, opts)) == Collect(opts, (o: Opt) => TextOf(o))
  {
    hide Proper, EventFor, MethodGiven, ValueOf, TextOf, Collect;
    var evs := EventsFor(env, opts);
    forall i | 0 <= i < |opts|
      ensures ValueOf(opts[i], DATA) == if evs[i].AddData? then Some(evs[i].value) else None
      ensures MethodGiven(env, opts[i]) == if evs[i].SetMethod? then Some(evs[i].value) else None
      ensures ValueOf(opts[i], {"-x", "--proxy"}) == if evs[i].SetProxy? then Some(evs[i].value) else None
      ensures TextOf(opts[i]) == if evs[i].Url? then Some(evs[i].arg) else None
    {
      ValueKinds(env, opts[i]);
      DataKinds(env, opts[i]);
    }
    CollectMaps(evs, opts, (e: Event) => if e.AddData? then Some(e.value) else None, (o: Opt) => ValueOf(o, DATA));
    CollectMaps(evs, opts, (e: Event) => if e.SetMethod? then Some(e.value) else None,
                (o: Opt) => MethodGiven(env, o));
    CollectMaps(evs, opts, (e: Event) => if e.SetProxy? then Some(e.value) else None,
                (o: Opt) => ValueOf(o, {"-x", "--proxy"}));
    CollectMaps(evs, opts, (e: Event) => if e.Url? then Some(e.arg) else None, (o: Opt) => TextOf(o));
  }

  lemma SwitchesByName(env: Env, opts: seq<Opt>)
    requires forall o | o in opts :: Proper(o)
    ensures Follow in EventsFor(env, opts) <==> Switched(opts, {"-L", "--location"})
    ensures Compress in EventsFor(env, opts) <==> Switched(opts, {"--compressed"})
  {
    hide Proper, EventFor;
    var evs := EventsFor(env, opts);
    forall i | 0 <= i < |opts|
      ensures evs[i] == Follow <==> opts[i].Switch? && opts[i].flag in {"-L", "--location"}
      ensures evs[i] == Compress <==> opts[i].Switch? && opts[i].flag == "--compressed"
    {
      SwitchKinds(env, opts[i]);
    }
    if o :| o in opts && o.Switch? && o.flag in {"-L", "--location"} {
      var i :| 0 <= i < |opts| && opts[i] == o;
      assert evs[i] == Follow;
    }
    if o :| o in opts && o.Switch? && o.flag in {"--compressed"} {
      var i :| 0 <= i < |opts| && opts[i] == o;
      assert evs[i] == Compress;
    }
  }

  lemma {:induction false} WarningsByName(env: Env, opts: seq<Opt>)
    requires forall o | o in opts :: Proper(o)
    ensures Fold(EventsFor(env, opts)).warnings == Warnings(opts)
    decreases |opts|
  {
    hide Proper, EventFor, EventsFor, WarningGiven, Fold, Apply, Collect;
    if opts == [] {
      NoWarnings(env);
    } else {
      var front, o := opts[..|opts| - 1], opts[|opts| - 1];
      WarningsByName(env, front);
      WarningKind(env, o);
      DataKinds(env, o);
      UrlIffAddress(env, front);
      OneMoreEvent(env, opts);
      AppliesWarning(Fold(EventsFor(env, front)), EventFor(env, o));
    }
  }

  lemma NoWarnings(env: Env)
    ensures Fold(EventsFor(env, [])).warnings == []
  {
    assert EventsFor(env, []) == [];
  }

  lemma OneMoreEvent(env: Env, opts: seq<Opt>)
    requires opts != []
    ensures Fold(EventsFor(env, opts)) ==
            Apply(Fold(EventsFor(env, opts[..|opts| - 1])), EventFor(env, opts[|opts| - 1]))
  {
    hide Apply, Fold, EventFor;
    var front := opts[..|opts| - 1];
    FoldOneMore(EventsFor(env, front), EventFor(env, opts[|opts| - 1]));
    assert EventsFor(env, opts) == EventsFor(env, front) + [EventFor(env, opts[|opts| - 1])];
  }

  lemma UrlIffAddress(env: Env, opts: seq<Opt>)
    requires forall o | o in opts :: Proper(o)
    ensures Fold(EventsFor(env, opts)).url.Some? <==> exists o | o in opts :: o.Address?
  {
    hide Proper, EventsFor, Collect, Fold, DataOf, MethodsOf, ProxiesOf, UrlsOf;
    ValuesByName(env, opts);
    UrlIsFirst(EventsFor(env, opts));
    CollectsSome(opts, (o: Opt) => TextOf(o));
    if o :| o in opts && o.Address? {
      assert TextOf(o).Some?;
    }
  }

  lemma AppliesWarning(st: State, e: Event)
    ensures Apply(st, e).warnings ==
            st.warnings +
            if e.Warn? then [e.text]
            else if e.Url? && st.url.Some? then ["ignored extra positional `" + e.arg + "`"]
            else []
  {
  }

  /** What any list of options means, in any spelling and order, after any command word: the request and the exact
      warnings. The first address is the URL, an explicit method wins over the `POST` that data implies, data
      accumulates, cookie and proxy are the last given, headers keep their order and duplicates. */
  lemma OptionsMean(env: Env, toks: seq<string>, opts: seq<Opt>)
    requires forall o | o in opts :: Proper(o)
    requires Flat(opts) == if toks != [] && CallsCurl(toks[0]) then toks[1..] else toks
    ensures var urls := Collect(opts, (o: Opt) => TextOf(o));
            var methods := Collect(opts, (o: Opt) => MethodGiven(env, o));
            var data := Collect(opts, (o: Opt) => ValueOf(o, DATA));
            var cookies := Collect(opts, (o: Opt) => CookieGiven(o));
            var proxies := Collect(opts, (o: Opt) => ValueOf(o, {"-x", "--proxy"}));
            Parsed(env, toks) ==
              if urls == [] then Err("no URL found in curl command")
              else
                var request := CurlRequest(
                  if methods != [] then methods[|methods| - 1] else if data != [] then "POST" else "GET",
                  urls[0],
                  Collect(opts, (o: Opt) => HeaderGiven(env, o)),
                  if cookies != [] then Some(cookies[|cookies| - 1]) else None,
                  if data != [] then Some(JoinAmp(data)) else None,
                  Switched(opts, {"-L", "--location"}),
                  if proxies != [] then Some(proxies[|proxies| - 1]) else None,
                  Switched(opts, {"--compressed"}));
                Ok(ParsedCurl(request, Warnings(opts)))
  {
    hide Parsed, Events, Collect, HeadersOf, CookiesOf, DataOf, MethodsOf, ProxiesOf, UrlsOf, Fold, EventsFor, Switched,
         Arguments, CallsCurl, Proper, Warnings;
    CommandDropped(toks);
    var evs := EventsFor(env, opts);
    ReadAsEvents(env, toks, opts);
    ParsedFields(env, toks, evs);
    HeadersByName(env, opts);
    ValuesByName(env, opts);
    SwitchesByName(env, opts);
    WarningsByName(env, opts);
    ParsedWarnings(env, toks, evs);
  }

  lemma ReadAsEvents(env: Env, toks: seq<string>, opts: seq<Opt>)
    requires (forall o | o in opts :: Proper(o)) && Arguments(toks) == Flat(opts)
    ensures Events(env, Arguments(toks)) == Ok(EventsFor(env, opts))
  {
    hide EventsFor, Flat, Arguments;
    ReadsOpts(env, opts);
    assert Flat(opts) + [] == Flat(opts);
    assert EventsFor(env, opts) + [] == EventsFor(env, opts);
  }

  lemma ParsedWarnings(env: Env, toks: seq<string>, evs: seq<Event>)
    requires Events(env, Arguments(toks)) == Ok(evs)
    ensures Parsed(env, toks).Ok? ==> Parsed(env, toks).value.warnings == Fold(evs).warnings
  {
    hide Events, Arguments, Fold;
  }

  /** The option at the head of an argument list, or none if it lacks its value. */
  lemma FirstOption(env: Env, toks: seq<string>) returns (first: Option<Opt>)
    requires toks != []
    ensures match first
            case Some(o) => Proper(o) && |Words(o)| <= |toks| && Words(o) == toks[..|Words(o)|]
            case None =>
              && |toks| == 1 && toks[0] in VALUED
              && Events(env, toks) == Err("flag `" + toks[0] + "` expects a value")
  {
    hide Classify, SplitFlag, Events, EventOf, VALUED, IsLong, TakesValue, Before;
    var (flag, inline) := SplitFlag(toks[0]);
    FlagOf(toks[0]);
    ValuedNames(flag);
    OtherWords(flag);
    EventsStep(env, toks);
    if TakesValue(Classify(flag)) {
      if inline.Some? {
        first := Some(Given(flag, inline.value, true));
      } else if |toks| > 1 {
        first := Some(Given(flag, toks[1], false));
      } else {
        first := None;
      }
    } else if Classify(flag) == Positional {
      first := Some(Address(toks[0]));
    } else {
      first := Some(Switch(flag, inline));
    }
  }

  lemma FlagOf(word: string)
    ensures var (flag, inline) := SplitFlag(word);
            match inline
            case Some(v) => word == flag + "=" + v && IsLong(flag) && '=' !in flag && |flag| > 1 && flag[0] == '-'
            case None => flag == word && (IsLong(flag) ==> '=' !in flag)
  {
    if IsLong(word) && '=' in word {
      var p := SplitOnce(word, '=').value;
      assert word == p.0 + "=" + p.1;
      assert word[0] == '-' && word[1] == '-';
      assert |p.0| >= 2;
      assert p.0[0] == '-' && p.0[1] == '-';
    }
  }

  lemma OneMoreOption(env: Env, o: Opt, opts: seq<Opt>, toks: seq<string>)
    requires Proper(o) && |Words(o)| <= |toks| && Words(o) == toks[..|Words(o)|]
    ensures Events(env, toks) == Prefix([EventFor(env, o)], Events(env, toks[|Words(o)|..]))
    ensures Flat([o] + opts) == Words(o) + Flat(opts)
    ensures EventsFor(env, [o] + opts) == [EventFor(env, o)] + EventsFor(env, opts)
  {
    hide Events, Words, EventFor, Prefix, Proper;
    ReadsOpt(env, o);
    assert toks == Words(o) + toks[|Words(o)|..];
    assert ([o] + opts)[1..] == opts;
  }

  /** Every argument list is such a list of options, perhaps with the name of an option at its end that lacks its value,
      which is then the complaint. So `OptionsMean` leaves out nothing that the parser accepts. */
  lemma {:induction false} EveryListIsOptions(env: Env, toks: seq<string>)
    returns (opts: seq<Opt>, last: Option<string>)
    ensures forall o | o in opts :: Proper(o)
    ensures toks == Flat(opts) + match last case Some(flag) => [flag] case None => []
    ensures match last
            case Some(flag) => flag in VALUED && Events(env, toks) == Err("flag `" + flag + "` expects a value")
            case None => Events(env, toks) == Ok(EventsFor(env, opts))
    decreases |toks|
  {
    hide Events, VALUED, Words, Proper, EventFor;
    if toks == [] {
      opts, last := [], None;
      EventsOfNone(env);
    } else {
      var first := FirstOption(env, toks);
      if first == None {
        opts, last := [], Some(toks[0]);
        assert toks == [] + [toks[0]];
      } else {
        var o := first.value;
        var rest := toks[|Words(o)|..];
        opts, last := EveryListIsOptions(env, rest);
        OneMoreOption(env, o, opts, toks);
        hide Flat, EventsFor;
        assert toks == Words(o) + rest;
        opts := [o] + opts;
      }
    }
  }

  lemma EventsOfNone(env: Env)
    ensures Events(env, []) == Ok(EventsFor(env, []))
  {
    assert EventsFor(env, []) == [];
  }

  /** What a header line means: the name and the value, whatever white space surrounds them. */
  lemma HeaderLineMeans(env: Env, flag: string, inline: bool, name: string, value: string,
                        a: string, b: string, c: string, d: string)
    requires flag in {"-H", "--header"} && Blank(a) && Blank(b) && Blank(c) && Blank(d)
    requires Trimmed(name) && Trimmed(value) && ':' !in name
    ensures var o := Given(flag, (a + name + b) + ":" + (c + value + d), inline);
            && HeaderGiven(env, o) == (if Lower(name) == "cookie" then None else Some((name, value)))
            && CookieGiven(o) == (if Lower(name) == "cookie" then Some(value) else None)
            && WarningGiven(o) == None
  {
    var left, right := a + name + b, c + value + d;
    var line := left + ":" + right;
    assert line == left + [':'] + right;
    TrimPadded(a, name, b);
    TrimPadded(c, value, d);
    BlankSeparatesNothing(a);
    BlankSeparatesNothing(b);
    FindIn(left, ':', right);
    assert ':' in line;
    HeaderGivenBySplit(env, Given(flag, line, inline), left, right);
  }

  lemma HeaderGivenBySplit(env: Env, o: Opt, left: string, right: string)
    requires o.Given? && o.flag in {"-H", "--header"} && SplitOnce(o.value, ':') == Some((left, right))
    ensures var cookie := Lower(Trim(left)) == "cookie";
            && HeaderGiven(env, o) == (if cookie then None else Some((Trim(left), Trim(right))))
            && CookieGiven(o) == (if cookie then Some(Trim(right)) else None)
            && WarningGiven(o) == None
  {
    hide Trim, Lower, SplitOnce, Classify, IGNORED;
    RequestNames(o.flag);
    IgnoredNames(o.flag);
  }
}
