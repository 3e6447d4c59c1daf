/**
 The Content-Signal directive of robots.txt, as src/robots.rs reads it: `parse_content_signal`,
 `parse_signal_value` and the two questions asked of the result.
 */
module ContentSignal {
  import opened Wrappers
  import opened Strings

  datatype Purpose = Search | AiInput | AiTrain

  datatype Signal = Signal(search: bool, aiInput: bool, aiTrain: bool) {
    predicate Permits(p: Purpose)
    {
      match p
      case Search => search
      case AiInput => aiInput
      case AiTrain => aiTrain
    }

    predicate FullyDenies(declared: seq<Purpose>)
    {
      declared != [] && forall p | p in declared :: !Permits(p)
    }
  }

  const DEFAULT := Signal(true, true, true)

  // ----- one directive -----

  function PurposeNamed(name: string): Option<Purpose>
  {
    if name == "search" then Some(Search)
    else if name == "ai-input" || name == "ai_input" then Some(AiInput)
    else if name == "ai-train" || name == "ai_train" then Some(AiTrain)
    else None
  }

  predicate Allows(verdict: string)
  {
    verdict == "yes" || verdict == "y" || verdict == "true" || verdict == "1" || verdict == "allow"
  }

  type Mention = Option<(Purpose, bool)>

  function Spoken(name: string, verdict: string): Mention
  {
    match PurposeNamed(name)
    case Some(p) => Some((p, Allows(verdict)))
    case None => None
  }

  /** Which purpose a piece speaks about and what it says; a piece without `=` says yes. */
  function MentionIn(piece: string): Mention
  {
    var t := Trim(piece);
    match SplitOnce(t, '=')
    case Some(nv) => Spoken(Lower(Trim(nv.0)), Lower(Trim(nv.1)))
    case None => Spoken(Lower(t), "yes")
  }

  function Mentions(pieces: seq<string>): seq<Mention>
  {
    if pieces == [] then [] else Mentions(pieces[..|pieces| - 1]) + [MentionIn(pieces[|pieces| - 1])]
  }

  predicate About(m: Mention, p: Purpose)
  {
    m.Some? && m.value.0 == p
  }

  /** What the last mention of `p` says; nothing said means yes. */
  function LastWord(said: seq<Mention>, p: Purpose): bool
  {
    if said == [] then true
    else if About(said[|said| - 1], p) then said[|said| - 1].value.1
    else LastWord(said[..|said| - 1], p)
  }

  function SignalOf(value: string): Signal
  {
    var said := Mentions(Split(value, ','));
    Signal(LastWord(said, Search), LastWord(said, AiInput), LastWord(said, AiTrain))
  }

  /** A purpose is denied exactly when some mention denies it and no later one is about it. */
  lemma {:induction false} DeniedByLastMention(said: seq<Mention>, p: Purpose)
    ensures !LastWord(said, p) <==>
            (exists i | 0 <= i < |said| :: About(said[i], p) && !said[i].value.1 &&
               forall j | i < j < |said| :: !About(said[j], p))
  {
    if said == [] {
    } else {
      var front, last := said[..|said| - 1], |said| - 1;
      DeniedByLastMention(front, p);
      if !About(said[last], p) && !LastWord(front, p) {
        var i :| 0 <= i < |front| && About(front[i], p) && !front[i].value.1 &&
                 forall j | i < j < |front| :: !About(front[j], p);
        assert About(said[i], p) && forall j | i < j < |said| :: !About(said[j], p);
      }
    }
  }

  // ----- what is written in a directive -----

  /** The names of a purpose. */
  function Names(p: Purpose): set<string>
  {
    match p
    case Search => {"search"}
    case AiInput => {"ai-input", "ai_input"}
    case AiTrain => {"ai-train", "ai_train"}
  }

  /** A piece `name=verdict`, in any letter case and with any white space, speaks about the purpose of that name and
      says yes for five words only. */
  lemma PieceSays(name: string, verdict: string, a: string, b: string, c: string, d: string, p: Purpose)
    requires Trimmed(name + b + "=" + c + verdict) && Trimmed(name) && Trimmed(verdict) && '=' !in name
    requires Blank(a) && Blank(b) && Blank(c) && Blank(d)
    ensures var said := MentionIn(a + (name + b + "=" + c + verdict) + d);
            && (About(said, p) <==> Lower(name) in Names(p))
            && (About(said, p) ==> (said.value.1 <==> Lower(verdict) in {"yes", "y", "true", "1", "allow"}))
  {
    hide Trim, Lower, SplitOnce, Find, Trimmed;
    var text := name + b + "=" + c + verdict;
    TrimPadded(a, text, d);
    assert text == (name + b) + ['='] + (c + verdict);
    BlankSeparatesNothing(b);
    FindIn(name + b, '=', c + verdict);
    TrimPadded("", name, b);
    TrimPadded(c, verdict, "");
    assert "" + name + b == name + b && c + verdict + "" == c + verdict;
    SpokenByName(Lower(name), Lower(verdict), p);
    hide PurposeNamed, Allows, About, Names;
  }

  lemma SpokenByName(name: string, verdict: string, p: Purpose)
    ensures About(Spoken(name, verdict), p) <==> name in Names(p)
    ensures About(Spoken(name, verdict), p) ==>
              (Spoken(name, verdict).value.1 <==> verdict in {"yes", "y", "true", "1", "allow"})
  {
  }

  /** A name on its own says yes. */
  lemma BarePieceSays(name: string, a: string, b: string, p: Purpose)
    requires Trimmed(name) && '=' !in name && Blank(a) && Blank(b)
    ensures var said := MentionIn(a + name + b);
            (About(said, p) <==> Lower(name) in Names(p)) && (About(said, p) ==> said.value.1)
  {
    hide Trim, Lower, Find;
    TrimPadded(a, name, b);
    SpokenByName(Lower(name), "yes", p);
    hide PurposeNamed, About, Names;
  }

  /** The piece of a directive is about the purpose. */
  predicate Concerns(piece: string, p: Purpose)
  {
    match SplitOnce(Trim(piece), '=')
    case Some(nv) => Lower(Trim(nv.0)) in Names(p)
    case None => Lower(Trim(piece)) in Names(p)
  }

  predicate SaysNo(piece: string)
  {
    match SplitOnce(Trim(piece), '=')
    case Some(nv) => Lower(Trim(nv.1)) !in {"yes", "y", "true", "1", "allow"}
    case None => false
  }

  lemma PieceByName(piece: string, p: Purpose)
    ensures About(MentionIn(piece), p) <==> Concerns(piece, p)
    ensures About(MentionIn(piece), p) ==> (MentionIn(piece).value.1 <==> !SaysNo(piece))
  {
    hide Trim, Lower, SplitOnce, PurposeNamed, Allows, About, Names;
    match SplitOnce(Trim(piece), '=')
    case Some(nv) => SpokenByName(Lower(Trim(nv.0)), Lower(Trim(nv.1)), p);
    case None => SpokenByName(Lower(Trim(piece)), "yes", p);
  }

  lemma {:induction false} MentionsAt(pieces: seq<string>, i: nat)
    requires i < |pieces|
    ensures |Mentions(pieces)| == |pieces| && Mentions(pieces)[i] == MentionIn(pieces[i])
    decreases |pieces|
  {
    hide MentionIn;
    var n := |pieces| - 1;
    if n == 0 {
      assert Mentions(pieces[..0]) == [];
    } else {
      MentionsAt(pieces[..n], if i < n then i else 0);
    }
  }

  /** A directive denies a purpose iff one of its comma-separated pieces names the purpose and does not say yes, and no
      later piece names it. */
  lemma DirectiveDenies(value: string, p: Purpose)
    ensures var pieces := Split(value, ',');
            !SignalOf(value).Permits(p) <==>
            exists i | 0 <= i < |pieces| ::
              && Concerns(pieces[i], p) && SaysNo(pieces[i])
              && forall j | i < j < |pieces| :: !Concerns(pieces[j], p)
  {
    hide MentionIn, Concerns, SaysNo, Mentions, LastWord, Split;
    var pieces := Split(value, ',');
    var said := Mentions(pieces);
    forall i | 0 <= i < |pieces|
      ensures |said| == |pieces| && said[i] == MentionIn(pieces[i])
      ensures About(said[i], p) <==> Concerns(pieces[i], p)
      ensures About(said[i], p) ==> (said[i].value.1 <==> !SaysNo(pieces[i]))
    {
      MentionsAt(pieces, i);
      PieceByName(pieces[i], p);
    }
    assert |said| == |pieces| by {
      MentionsAt(pieces, 0);
    }
    DeniedByLastMention(said, p);
    PermitsLastWord(value, p);
  }

  lemma PermitsLastWord(value: string, p: Purpose)
    ensures SignalOf(value).Permits(p) <==> LastWord(Mentions(Split(value, ',')), p)
  {
    hide LastWord, Mentions, Split;
  }

  lemma MentionWith(piece: string, name: string, verdict: string)
    requires SplitOnce(Trim(piece), '=') == Some((name, verdict))
    ensures MentionIn(piece) == Spoken(Lower(Trim(name)), Lower(Trim(verdict)))
  {
  }

  lemma MentionWithout(piece: string)
    requires SplitOnce(Trim(piece), '=') == None
    ensures MentionIn(piece) == Spoken(Lower(Trim(piece)), "yes")
  {
  }

  lemma EmptyPieceSaysNothing(piece: string)
    requires Trim(piece) == ""
    ensures MentionIn(piece) == None
  {
  }

  lemma OneMorePiece(pieces: seq<string>, i: nat)
    requires i < |pieces|
    ensures Mentions(pieces[..i + 1]) == Mentions(pieces[..i]) + [MentionIn(pieces[i])]
  {
    assert pieces[..i + 1][..i] == pieces[..i];
  }

  lemma OneMoreMention(said: seq<Mention>, m: Mention, p: Purpose)
    ensures LastWord(said + [m], p) == if About(m, p) then m.value.1 else LastWord(said, p)
  {
    assert (said + [m])[..|said|] == said;
  }

  predicate Reports(sig: Signal, said: seq<Mention>)
  {
    && sig.search == LastWord(said, Search)
    && sig.aiInput == LastWord(said, AiInput)
    && sig.aiTrain == LastWord(said, AiTrain)
  }

  /** A single token toggles a single field. */
  method Toggle(sig: Signal, name: string, verdict: string, ghost said: seq<Mention>) returns (r: Signal)
    requires Reports(sig, said)
    ensures Reports(r, said + [Spoken(name, verdict)])
  {
    r := sig;
    var allowed := Allows(verdict);
    if name == "search" {
      r := sig.(search := allowed);
    } else if name == "ai-input" || name == "ai_input" {
      r := sig.(aiInput := allowed);
    } else if name == "ai-train" || name == "ai_train" {
      r := sig.(aiTrain := allowed);
    }
    OneMoreMention(said, Spoken(name, verdict), Search);
    OneMoreMention(said, Spoken(name, verdict), AiInput);
    OneMoreMention(said, Spoken(name, verdict), AiTrain);
    hide Allows, LastWord;
  }

  lemma NothingSaid(sig: Signal, said: seq<Mention>)
    requires Reports(sig, said)
    ensures Reports(sig, said + [None])
  {
    OneMoreMention(said, None, Search);
    OneMoreMention(said, None, AiInput);
    OneMoreMention(said, None, AiTrain);
  }

  lemma AtStart()
    ensures Reports(DEFAULT, []) && Mentions([]) == []
  {
  }

  lemma AtEnd(value: string, sig: Signal)
    requires Reports(sig, Mentions(Split(value, ',')))
    ensures sig == SignalOf(value)
  {
  }

  method ParseSignalValue(value: string) returns (sig: Signal)
    ensures sig == SignalOf(value)
  {
    hide *;
    sig := DEFAULT;
    AtStart();
    var pieces := Split(value, ',');
    assert pieces[..0] == [];
    for i := 0 to |pieces|
      invariant Reports(sig, Mentions(pieces[..i]))
    {
      OneMorePiece(pieces, i);
      ghost var said := Mentions(pieces[..i]);
      var piece := Trim(pieces[i]);
      if piece == "" {
        EmptyPieceSaysNothing(pieces[i]);
        NothingSaid(sig, said);
        continue;
      }
      match SplitOnce(piece, '=') {
        case Some(nv) =>
          MentionWith(pieces[i], nv.0, nv.1);
          sig := Toggle(sig, Lower(Trim(nv.0)), Lower(Trim(nv.1)), said);
        case None =>
          MentionWithout(pieces[i]);
          sig := Toggle(sig, Lower(piece), "yes", said);
      }
    }
    assert pieces[..|pieces|] == pieces;
    AtEnd(value, sig);
  }

  // ----- the file: two passes -----

  datatype Field = Agent(name: string) | Directive(signal: Signal) | Other

  function FieldNamed(name: string, value: string): Field
  {
    if name == "user-agent" then Agent(Lower(value))
    else if name == "content-signal" then Directive(SignalOf(value))
    else Other
  }

  /** What a line is; blank lines, comments and lines without a colon are nothing. */
  function FieldOf(raw: string): Option<Field>
  {
    match SplitOnce(Trim(raw[..Find(raw, '#')]), ':')
    case None => None
    case Some(fv) => Some(FieldNamed(Lower(Trim(fv.0)), Trim(fv.1)))
  }

  /** A written line `name: value`, in any letter case, with any white space and any comment behind it. */
  lemma LineIs(name: string, value: string, a: string, b: string, c: string, d: string, comment: string)
    requires Trimmed(name) && Trimmed(value) && Trimmed(name + b + ":" + c + value)
    requires Blank(a) && Blank(b) && Blank(c) && Blank(d) && ':' !in name && '#' !in name && '#' !in value
    requires comment == "" || comment[0] == '#'
    ensures FieldOf(a + (name + b + ":" + c + value) + d + comment) == Some(
              if Lower(name) == "user-agent" then Agent(Lower(value))
              else if Lower(name) == "content-signal" then Directive(SignalOf(value))
              else Other)
  {
    hide Trim, Lower, SplitOnce, Find, Trimmed, SignalOf, Blank;
    var text := name + b + ":" + c + value;
    var raw := a + text + d + comment;
    BlankSeparatesNothing(a);
    BlankSeparatesNothing(b);
    BlankSeparatesNothing(c);
    BlankSeparatesNothing(d);
    NoHash(a, name, b, c, value, d);
    CutAtHash(a + text + d, comment);
    TrimPadded(a, text, d);
    assert text == (name + b) + [':'] + (c + value);
    FindIn(name + b, ':', c + value);
    TrimPadded("", name, b);
    TrimPadded(c, value, "");
    BlankEmpty();
    assert "" + name + b == name + b && c + value + "" == c + value;
  }

  lemma NoHash(a: string, name: string, b: string, c: string, value: string, d: string)
    requires '#' !in a && '#' !in name && '#' !in b && '#' !in c && '#' !in value && '#' !in d
    ensures '#' !in a + (name + b + ":" + c + value) + d
  {
  }

  /** Anything else is nothing: a line without a colon in front of its comment. */
  lemma OtherLinesAreNothing(raw: string)
    ensures FieldOf(raw) == None <==> ':' !in raw[..Find(raw, '#')]
  {
    TrimKeeps(raw[..Find(raw, '#')], ':');
    hide Trim, Find, SplitOnce, Lower, SignalOf;
  }

  lemma {:induction false} TrimStartKeeps(s: string, c: char)
    requires !IsWhitespace(c)
    ensures c in TrimStart(s) <==> c in s
  {
    if s != "" && IsWhitespace(s[0]) {
      TrimStartKeeps(s[1..], c);
      assert s == [s[0]] + s[1..];
    }
  }

  lemma {:induction false} TrimEndKeeps(s: string, c: char)
    requires !IsWhitespace(c)
    ensures c in TrimEnd(s) <==> c in s
    decreases |s|
  {
    if s != "" && IsWhitespace(s[|s| - 1]) {
      TrimEndKeeps(s[..|s| - 1], c);
      assert s == s[..|s| - 1] + [s[|s| - 1]];
    }
  }

  lemma TrimKeeps(s: string, c: char)
    requires !IsWhitespace(c)
    ensures c in Trim(s) <==> c in s
  {
    TrimStartKeeps(s, c);
    TrimEndKeeps(TrimStart(s), c);
  }

  function Fields(lines: seq<string>): seq<Field>
  {
    if lines == [] then []
    else
      Fields(lines[..|lines| - 1]) +
      match FieldOf(lines[|lines| - 1]) { case Some(f) => [f] case None => [] }
  }

  /** The run of user-agent lines that ends before field `i`. */
  function Stack(fields: seq<Field>, i: nat): seq<string>
    requires i <= |fields|
  {
    if i == 0 || !fields[i - 1].Agent? then [] else Stack(fields, i - 1) + [fields[i - 1].name]
  }

  /** The agents of the group that field `i` is in: the nearest run of user-agent lines above it. */
  function Group(fields: seq<Field>, i: nat): seq<string>
    requires i <= |fields|
  {
    if i == 0 then [] else if fields[i - 1].Agent? then Stack(fields, i) else Group(fields, i - 1)
  }

  function Agents(names: seq<string>): seq<Field>
  {
    seq(|names|, i requires 0 <= i < |names| => Agent(names[i]))
  }

  lemma {:induction false} StackIs(before: seq<Field>, names: seq<string>, rest: seq<Field>, n: nat)
    requires (before == [] || !before[|before| - 1].Agent?) && n <= |names|
    ensures Stack(before + Agents(names) + rest, |before| + n) == names[..n]
  {
    var fields := before + Agents(names) + rest;
    if n == 0 {
    } else {
      StackIs(before, names, rest, n - 1);
      assert fields[|before| + n - 1] == Agent(names[n - 1]);
      assert names[..n] == names[..n - 1] + [names[n - 1]];
    }
  }

  /** Stacked user-agent lines share what follows, up to the next user-agent line. */
  lemma {:induction false} GroupIsTheRunAbove(before: seq<Field>, names: seq<string>, rest: seq<Field>, n: nat)
    requires before == [] || !before[|before| - 1].Agent?
    requires names != [] && n <= |rest| && forall i | 0 <= i < n :: !rest[i].Agent?
    ensures Group(before + Agents(names) + rest, |before| + |names| + n) == names
  {
    var fields := before + Agents(names) + rest;
    if n > 0 {
      GroupIsTheRunAbove(before, names, rest, n - 1);
      assert fields[|before| + |names| + n - 1] == rest[n - 1];
    } else {
      StackIs(before, names, rest, |names|);
      assert fields[|before| + |names| - 1] == Agent(names[|names| - 1]);
      assert names[..|names|] == names;
    }
    hide Agents;
  }

  /** Field `i` is a signal in a group that names `agent`. */
  predicate Addresses(fields: seq<Field>, i: nat, agent: string)
    requires i < |fields|
  {
    fields[i].Directive? && agent in Group(fields, i)
  }

  /** The first signal among the first `n` fields that addresses `agent`. */
  function First(fields: seq<Field>, n: nat, agent: string): Option<Signal>
    requires n <= |fields|
  {
    if n == 0 then None
    else if First(fields, n - 1, agent).Some? then First(fields, n - 1, agent)
    else if Addresses(fields, n - 1, agent) then Some(fields[n - 1].signal)
    else None
  }

  /** The exact agent first, then `*`, then everything is permitted. */
  function Decide(fields: seq<Field>, agent: string): Signal
  {
    match First(fields, |fields|, agent)
    case Some(s) => s
    case None =>
      match First(fields, |fields|, "*")
      case Some(s) => s
      case None => DEFAULT
  }

  /** Field `i` is the first signal that addresses the agent. */
  ghost predicate IsFirst(fields: seq<Field>, i: int, agent: string)
  {
    0 <= i < |fields| && Addresses(fields, i, agent) && forall j | 0 <= j < i :: !Addresses(fields, j, agent)
  }

  lemma {:induction false} FirstIs(fields: seq<Field>, n: nat, agent: string)
    requires n <= |fields|
    ensures match First(fields, n, agent)
      case None => forall i | 0 <= i < n :: !Addresses(fields, i, agent)
      case Some(s) => exists i :: IsFirst(fields, i, agent) && i < n && fields[i].signal == s
  {
    if n == 0 {
    } else {
      FirstIs(fields, n - 1, agent);
      hide Group;
    }
  }

  /** The first signal that addresses the agent denies the purpose. */
  ghost predicate FirstDenies(fields: seq<Field>, agent: string, p: Purpose)
  {
    exists i :: IsFirst(fields, i, agent) && !fields[i].signal.Permits(p)
  }

  /** The file denies the purpose: by the first signal that addresses the agent itself, or, if there is none, by the
      first that addresses `*`. */
  ghost predicate DeniedByALine(fields: seq<Field>, agent: string, p: Purpose)
  {
    || FirstDenies(fields, agent, p)
    || ((forall j | 0 <= j < |fields| :: !Addresses(fields, j, agent)) && FirstDenies(fields, "*", p))
  }

  lemma FirstDeniesIff(fields: seq<Field>, agent: string, p: Purpose)
    ensures FirstDenies(fields, agent, p) <==>
            First(fields, |fields|, agent).Some? && !First(fields, |fields|, agent).value.Permits(p)
    ensures First(fields, |fields|, agent).None? <==> forall j | 0 <= j < |fields| :: !Addresses(fields, j, agent)
  {
    hide First, Group;
    FirstIs(fields, |fields|, agent);
    if FirstDenies(fields, agent, p) && First(fields, |fields|, agent).Some? {
      var s := First(fields, |fields|, agent).value;
      var i :| IsFirst(fields, i, agent) && !fields[i].signal.Permits(p);
      var m :| IsFirst(fields, m, agent) && fields[m].signal == s;
      assert i == m;
    }
  }

  /** A purpose is denied exactly when a line denies it. */
  lemma DeniedIffALineDenies(fields: seq<Field>, agent: string, p: Purpose)
    ensures !Decide(fields, agent).Permits(p) <==> DeniedByALine(fields, agent, p)
  {
    hide First, Addresses, FirstDenies;
    FirstDeniesIff(fields, agent, p);
    FirstDeniesIff(fields, "*", p);
  }

  /** A run is called off before its first fetch exactly when it declares some purpose and each one it declares is
      denied by a line. */
  lemma AbortIffAllDenied(fields: seq<Field>, agent: string, declared: seq<Purpose>)
    ensures Decide(fields, agent).FullyDenies(declared) <==>
            declared != [] && forall p | p in declared :: DeniedByALine(fields, agent, p)
  {
    hide DeniedByALine, Decide;
    forall p | p in declared
      ensures !Decide(fields, agent).Permits(p) <==> DeniedByALine(fields, agent, p)
    {
      DeniedIffALineDenies(fields, agent, p);
    }
  }

  // ----- the file: the source's single pass -----

  /** The loop's state after these fields: the agents, whether the last field was one, and the best match. */
  ghost predicate Tracks(
    fields: seq<Field>, agent: string, agents: seq<string>, lastWasAgent: bool, rank: nat, best: Signal)
  {
    && agents == Group(fields, |fields|)
    && lastWasAgent == (fields != [] && fields[|fields| - 1].Agent?)
    && Ranked(First(fields, |fields|, agent), First(fields, |fields|, "*"), rank, best)
  }

  predicate Ranked(exact: Option<Signal>, star: Option<Signal>, rank: nat, best: Signal)
  {
    match exact
    case Some(s) => rank == 2 && best == s
    case None =>
      match star
      case Some(s) => rank == 1 && best == s
      case None => rank == 0 && best == DEFAULT
  }

  function RankOf(ua: string, agent: string): nat
  {
    if ua == agent then 2 else if ua == "*" then 1 else 0
  }

  function Improved(agents: seq<string>, agent: string, sig: Signal, rank: nat, best: Signal): (nat, Signal)
  {
    if agent in agents && rank < 2 then (2, sig)
    else if "*" in agents && rank < 1 then (1, sig)
    else (rank, best)
  }

  /** The inner loop over the group's agents. */
  method Improve(agents: seq<string>, agent: string, sig: Signal, rank: nat, best: Signal)
    returns (newRank: nat, newBest: Signal)
    ensures (newRank, newBest) == Improved(agents, agent, sig, rank, best)
  {
    newRank, newBest := rank, best;
    for i := 0 to |agents|
      invariant (newRank, newBest) == Improved(agents[..i], agent, sig, rank, best)
    {
      var spec := RankOf(agents[i], agent);
      if spec > newRank {
        newRank, newBest := spec, sig;
      }
    }
    assert agents[..|agents|] == agents;
  }

  lemma {:induction false} StackIsKept(fields: seq<Field>, f: Field, n: nat)
    requires n <= |fields|
    ensures Stack(fields + [f], n) == Stack(fields, n) && Group(fields + [f], n) == Group(fields, n)
  {
    if n == 0 {
    } else {
      StackIsKept(fields, f, n - 1);
    }
  }

  lemma {:induction false} FirstIsKept(fields: seq<Field>, f: Field, n: nat, agent: string)
    requires n <= |fields|
    ensures First(fields + [f], n, agent) == First(fields, n, agent)
  {
    if n == 0 {
    } else {
      FirstIsKept(fields, f, n - 1, agent);
      StackIsKept(fields, f, n - 1);
    }
  }

  lemma AgentStep(
    fields: seq<Field>, name: string, agent: string, agents: seq<string>, last: bool, rank: nat, best: Signal)
    requires Tracks(fields, agent, agents, last, rank, best)
    ensures Tracks(fields + [Agent(name)], agent, (if last then agents else []) + [name], true, rank, best)
  {
    StackIsKept(fields, Agent(name), |fields|);
    FirstIsKept(fields, Agent(name), |fields|, agent);
    FirstIsKept(fields, Agent(name), |fields|, "*");
    hide First;
  }

  lemma OtherStep(fields: seq<Field>, agent: string, agents: seq<string>, last: bool, rank: nat, best: Signal)
    requires Tracks(fields, agent, agents, last, rank, best)
    ensures Tracks(fields + [Other], agent, agents, false, rank, best)
  {
    StackIsKept(fields, Other, |fields|);
    FirstIsKept(fields, Other, |fields|, agent);
    FirstIsKept(fields, Other, |fields|, "*");
    hide Stack;
  }

  lemma DirectiveStep(
    fields: seq<Field>, sig: Signal, agent: string, agents: seq<string>, last: bool, rank: nat, best: Signal)
    requires Tracks(fields, agent, agents, last, rank, best)
    ensures var (r, b) := Improved(agents, agent, sig, rank, best);
      Tracks(fields + [Directive(sig)], agent, agents, false, r, b)
  {
    StackIsKept(fields, Directive(sig), |fields|);
    FirstIsKept(fields, Directive(sig), |fields|, agent);
    FirstIsKept(fields, Directive(sig), |fields|, "*");
    hide Stack;
  }

  lemma OneMoreLine(lines: seq<string>, i: nat)
    requires i < |lines|
    ensures FieldOf(lines[i]).Some? ==> Fields(lines[..i + 1]) == Fields(lines[..i]) + [FieldOf(lines[i]).value]
    ensures FieldOf(lines[i]).None? ==> Fields(lines[..i + 1]) == Fields(lines[..i])
  {
    assert lines[..i + 1][..i] == lines[..i];
  }

  lemma NoFields(agent: string)
    ensures Fields([]) == [] && Tracks([], agent, [], false, 0, DEFAULT)
  {
  }

  lemma AllFields(fields: seq<Field>, agent: string, agents: seq<string>, last: bool, rank: nat, best: Signal)
    requires Tracks(fields, agent, agents, last, rank, best)
    ensures best == Decide(fields, agent)
  {
  }

  lemma FieldCases(name: string, value: string)
    ensures name == "user-agent" ==> FieldNamed(name, value) == Agent(Lower(value))
    ensures name == "content-signal" ==> FieldNamed(name, value) == Directive(SignalOf(value))
    ensures name != "user-agent" && name != "content-signal" ==> FieldNamed(name, value) == Other
  {
  }

  lemma EmptyLine(raw: string)
    requires Trim(raw[..Find(raw, '#')]) == ""
    ensures FieldOf(raw) == None
  {
  }

  lemma NoColon(raw: string)
    requires SplitOnce(Trim(raw[..Find(raw, '#')]), ':') == None
    ensures FieldOf(raw) == None
  {
  }

  lemma WithColon(raw: string, name: string, value: string)
    requires SplitOnce(Trim(raw[..Find(raw, '#')]), ':') == Some((name, value))
    ensures FieldOf(raw) == Some(FieldNamed(Lower(Trim(name)), Trim(value)))
  {
  }

  method ParseContentSignal(body: string, userAgent: string) returns (r: Signal)
    ensures r == Decide(Fields(Lines(body)), Lower(userAgent))
  {
    hide *;
    var uaLc := Lower(userAgent);
    var currentUas: seq<string> := [];
    var lastWasAgent := false;
    var rank: nat, best := 0, DEFAULT;
    var lines := Lines(body);
    NoFields(uaLc);
    assert lines[..0] == [];
    for i := 0 to |lines|
      invariant Tracks(Fields(lines[..i]), uaLc, currentUas, lastWasAgent, rank, best)
    {
      OneMoreLine(lines, i);
      ghost var fields := Fields(lines[..i]);
      var line := Trim(lines[i][..Find(lines[i], '#')]);
      if line == "" {
        EmptyLine(lines[i]);
        continue;
      }
      var split := SplitOnce(line, ':');
      if split.None? {
        NoColon(lines[i]);
        continue;
      }
      WithColon(lines[i], split.value.0, split.value.1);
      var fieldLc, value := Lower(Trim(split.value.0)), Trim(split.value.1);
      FieldCases(fieldLc, value);
      if fieldLc == "user-agent" {
        AgentStep(fields, Lower(value), uaLc, currentUas, lastWasAgent, rank, best);
        if !lastWasAgent {
          currentUas := [];
        }
        currentUas := currentUas + [Lower(value)];
        lastWasAgent := true;
      } else if fieldLc == "content-signal" {
        var sig := ParseSignalValue(value);
        DirectiveStep(fields, sig, uaLc, currentUas, lastWasAgent, rank, best);
        lastWasAgent := false;
        rank, best := Improve(currentUas, uaLc, sig, rank, best);
      } else {
        OtherStep(fields, uaLc, currentUas, lastWasAgent, rank, best);
        lastWasAgent := false;
      }
    }
    assert lines[..|lines|] == lines;
    AllFields(Fields(lines), uaLc, currentUas, lastWasAgent, rank, best);
    r := best;
  }
}
