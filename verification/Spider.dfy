/**
 The spider runtime of sdk/crawlex-sdk.js: `runSpider` with its frontier, seen set, checkpoint and resume.

 What a request leads to (robots refusal, failed fetch, or a page and what `parse` yields for it) is
 the argument `fates`; the abort signal, read at every loop head, is a function of the loop head's number.
 */
module Spider {
  import opened Wrappers

  type Item = string

  /** `verb`, the request method, is the empty string when a `Request` was built with one. */
  datatype Req = Req(url: string, verb: string, session: Option<string>)

  datatype Yield = Nothing | Emit(item: Item) | Follow(request: Req)

  /** `throws`: `parse` raises an error after these results. */
  datatype Fate = Refuse | Fail | Page(produced: seq<Yield>, throws: bool)

  type Fates = Req -> Fate

  datatype Event = Refused(req: Req) | Failed(req: Req) | Fetched(req: Req) | Emitted(item: Item)

  datatype Phase = Running | Paused | Finished | Broken

  datatype State = State(pending: seq<Req>, seen: set<string>, items: nat, phase: Phase, log: seq<Event>)

  datatype Checkpoint = Checkpoint(pending: seq<Req>, seen: set<string>, items: nat)

  function MethodOf(r: Req): string
  {
    if r.verb == "" then "GET" else r.verb
  }

  function Key(r: Req): string
  {
    MethodOf(r) + " " + r.url
  }

  // ----- the run as a function on states -----

  function Empty(seen: set<string>, items: nat): State
  {
    State([], seen, items, Running, [])
  }

  function Push(s: State, r: Req): State
  {
    if Key(r) in s.seen then s else s.(seen := s.seen + {Key(r)}, pending := s.pending + [r])
  }

  function Seed(u: string): Req
  {
    Req(u, "GET", None)
  }

  function Start(urls: seq<string>): State
  {
    if urls == [] then Empty({}, 0) else Push(Start(urls[..|urls| - 1]), Seed(urls[|urls| - 1]))
  }

  function Take(s: State, y: Yield): State
  {
    match y
    case Nothing => s
    case Emit(v) => s.(items := s.items + 1, log := s.log + [Emitted(v)])
    case Follow(r) => Push(s, r)
  }

  function TakeAll(s: State, ys: seq<Yield>): State
  {
    if ys == [] then s else Take(TakeAll(s, ys[..|ys| - 1]), ys[|ys| - 1])
  }

  function Visit(s: State, fate: Fate): State
    requires s.pending != []
  {
    var r := s.pending[0];
    var t := s.(pending := s.pending[1..]);
    match fate
    case Refuse => t.(log := t.log + [Refused(r)])
    case Fail => t.(log := t.log + [Failed(r)])
    case Page(ys, throws) =>
      var u := TakeAll(t.(log := t.log + [Fetched(r)]), ys);
      if throws then u.(phase := Broken) else u
  }

  /** `maxItems` is 0 when the spider sets none. */
  predicate AtLimit(maxItems: nat, s: State)
  {
    maxItems > 0 && s.items >= maxItems
  }

  /** One loop head and the iteration it starts, if any. */
  function Step(maxItems: nat, fates: Fates, aborted: bool, s: State): State
  {
    if s.phase != Running then s
    else if s.pending == [] then s.(phase := Finished)
    else if aborted || AtLimit(maxItems, s) then s.(phase := Paused)
    else Visit(s, fates(s.pending[0]))
  }

  function Steps(maxItems: nat, fates: Fates, signal: nat -> bool, s: State, n: nat): State
  {
    if n == 0 then s else Step(maxItems, fates, signal(n - 1), Steps(maxItems, fates, signal, s, n - 1))
  }

  function Snapshot(s: State): Checkpoint
  {
    Checkpoint(s.pending, s.seen, s.items)
  }

  function Resumed(r: Req): Req
  {
    r.(verb := MethodOf(r))
  }

  function Resume(c: Checkpoint): State
  {
    Empty(c.seen, c.items).(pending := seq(|c.pending|, i requires 0 <= i < |c.pending| => Resumed(c.pending[i])))
  }

  // ----- every request goes from unseen to pending to settled, once -----

  /** The requests taken off the frontier, in order. */
  function Visits(log: seq<Event>): seq<Req>
  {
    if log == [] then []
    else Visits(log[..|log| - 1]) + (if log[|log| - 1].Emitted? then [] else [log[|log| - 1].req])
  }

  /** Everything discovered, in the order of discovery. */
  function Order(s: State): seq<Req>
  {
    Visits(s.log) + s.pending
  }

  function Keys(q: seq<Req>): set<string>
  {
    set r | r in q :: Key(r)
  }

  ghost predicate Distinct(q: seq<Req>)
  {
    forall i, j | 0 <= i < j < |q| :: Key(q[i]) != Key(q[j])
  }

  /** The seen keys are, without overlap, those settled before this run (`before`), those settled by it
      and those pending; no key occurs twice. */
  ghost predicate Inv(s: State, before: set<string>)
  {
    && Distinct(Order(s))
    && s.seen == before + Keys(Order(s))
    && before !! Keys(Order(s))
  }

  lemma VisitsOneMore(log: seq<Event>, e: Event)
    ensures Visits(log + [e]) == Visits(log) + (if e.Emitted? then [] else [e.req])
  {
    assert (log + [e])[..|log|] == log;
  }

  lemma KeysOneMore(q: seq<Req>, r: Req)
    ensures Keys(q + [r]) == Keys(q) + {Key(r)}
  {
    assert forall x :: x in q + [r] <==> x in q || x == r;
  }

  lemma DistinctOneMore(q: seq<Req>, r: Req)
    requires Distinct(q) && Key(r) !in Keys(q)
    ensures Distinct(q + [r])
  {
    assert forall i | 0 <= i < |q| :: q[i] in q && Key(q[i]) in Keys(q);
    hide Key, Keys;
  }

  lemma PushKeepsInv(s: State, before: set<string>, r: Req)
    requires Inv(s, before)
    ensures Inv(Push(s, r), before) && Order(s) <= Order(Push(s, r)) && Push(s, r).log == s.log
    ensures Push(s, r).phase == s.phase && s.seen <= Push(s, r).seen && Key(r) in Push(s, r).seen
  {
    if Key(r) !in s.seen {
      KeysOneMore(Order(s), r);
      DistinctOneMore(Order(s), r);
      assert Order(Push(s, r)) == Order(s) + [r];
      hide Key, Keys, Distinct, Visits, Order;
    }
  }

  lemma {:induction false} TakeAllKeepsInv(s: State, before: set<string>, ys: seq<Yield>)
    requires Inv(s, before)
    ensures Inv(TakeAll(s, ys), before) && Order(s) <= Order(TakeAll(s, ys)) && s.seen <= TakeAll(s, ys).seen
    ensures TakeAll(s, ys).phase == s.phase
  {
    if ys == [] {
    } else {
      var t, y := TakeAll(s, ys[..|ys| - 1]), ys[|ys| - 1];
      TakeAllKeepsInv(s, before, ys[..|ys| - 1]);
      match y
      case Nothing =>
      case Emit(v) =>
        VisitsOneMore(t.log, Emitted(v));
        assert Order(Take(t, y)) == Order(t);
      case Follow(r) =>
        PushKeepsInv(t, before, r);
    }
  }

  /** Taking a request off the frontier moves it from the pending to the settled ones. */
  lemma ShiftKeepsInv(s: State, before: set<string>, e: Event)
    requires Inv(s, before) && s.pending != [] && !e.Emitted? && e.req == s.pending[0]
    ensures Inv(s.(pending := s.pending[1..], log := s.log + [e]), before)
    ensures Order(s.(pending := s.pending[1..], log := s.log + [e])) == Order(s)
  {
    VisitsOneMore(s.log, e);
    assert s.pending == [s.pending[0]] + s.pending[1..];
    assert Order(s.(pending := s.pending[1..], log := s.log + [e])) == Order(s);
  }

  lemma VisitKeepsInv(s: State, before: set<string>, fate: Fate)
    requires Inv(s, before) && s.pending != []
    ensures Inv(Visit(s, fate), before) && Order(s) <= Order(Visit(s, fate))
  {
    var r := s.pending[0];
    match fate
    case Refuse => ShiftKeepsInv(s, before, Refused(r));
    case Fail => ShiftKeepsInv(s, before, Failed(r));
    case Page(ys, throws) =>
      var t := s.(pending := s.pending[1..], log := s.log + [Fetched(r)]);
      ShiftKeepsInv(s, before, Fetched(r));
      TakeAllKeepsInv(t, before, ys);
  }

  lemma {:induction false} StartHoldsInv(urls: seq<string>)
    ensures Inv(Start(urls), {}) && Start(urls).phase == Running && Start(urls).log == []
  {
    if urls == [] {
    } else {
      var u := urls[|urls| - 1];
      StartHoldsInv(urls[..|urls| - 1]);
      PushKeepsInv(Start(urls[..|urls| - 1]), {}, Seed(u));
      hide Inv, Order, Key;
    }
  }

  function StartKeys(urls: seq<string>): set<string>
  {
    set u | u in urls :: Key(Seed(u))
  }

  lemma {:induction false} StartSees(urls: seq<string>)
    ensures Start(urls).seen == StartKeys(urls)
  {
    if urls == [] {
    } else {
      StartSees(urls[..|urls| - 1]);
      assert forall x :: x in urls <==> x in urls[..|urls| - 1] || x == urls[|urls| - 1];
      hide Key;
    }
  }

  /** At every loop head of every run, with any fates and any signal, the invariant holds and requests are
      taken in the order in which they were discovered. */
  lemma {:induction false} RunKeepsInv(
    maxItems: nat, fates: Fates, signal: nat -> bool, s: State, before: set<string>, n: nat)
    requires Inv(s, before)
    ensures Inv(Steps(maxItems, fates, signal, s, n), before)
    ensures Order(s) <= Order(Steps(maxItems, fates, signal, s, n))
  {
    if n == 0 {
    } else {
      RunKeepsInv(maxItems, fates, signal, s, before, n - 1);
      var t := Steps(maxItems, fates, signal, s, n - 1);
      if t.phase == Running && t.pending != [] {
        VisitKeepsInv(t, before, fates(t.pending[0]));
      }
    }
  }

  /** So no key is fetched twice, or fetched after it failed or was refused. */
  lemma EachKeyOnce(maxItems: nat, fates: Fates, signal: nat -> bool, urls: seq<string>, n: nat)
    ensures Distinct(Visits(Steps(maxItems, fates, signal, Start(urls), n).log))
  {
    StartHoldsInv(urls);
    RunKeepsInv(maxItems, fates, signal, Start(urls), {}, n);
    var s := Steps(maxItems, fates, signal, Start(urls), n);
    assert Visits(s.log) <= Order(s);
  }

  // ----- termination -----

  /** Every request that any page asks for has its key in `universe`. */
  ghost predicate Within(fates: Fates, universe: set<string>)
  {
    forall r: Req, y: Yield :: fates(r).Page? && y in fates(r).produced && y.Follow? ==> Key(y.request) in universe
  }

  function Measure(s: State, universe: set<string>): nat
  {
    2 * |universe - s.seen| + |s.pending|
  }

  lemma {:induction false} TakeAllMeasure(s: State, ys: seq<Yield>, universe: set<string>)
    requires s.seen <= universe && forall y | y in ys && y.Follow? :: Key(y.request) in universe
    ensures TakeAll(s, ys).seen <= universe && Measure(TakeAll(s, ys), universe) <= Measure(s, universe)
  {
    if ys == [] {
    } else {
      var t, y := TakeAll(s, ys[..|ys| - 1]), ys[|ys| - 1];
      TakeAllMeasure(s, ys[..|ys| - 1], universe);
      if y.Follow? && Key(y.request) !in t.seen {
        assert universe - t.seen == (universe - (t.seen + {Key(y.request)})) + {Key(y.request)};
      }
    }
  }

  lemma {:induction false} MeasureShrinks(
    maxItems: nat, fates: Fates, signal: nat -> bool, s: State, universe: set<string>, n: nat)
    requires s.seen <= universe && Within(fates, universe)
    ensures var t := Steps(maxItems, fates, signal, s, n);
      t.seen <= universe && (t.phase == Running ==> Measure(t, universe) + n <= Measure(s, universe))
  {
    if n == 0 {
    } else {
      MeasureShrinks(maxItems, fates, signal, s, universe, n - 1);
      var t := Steps(maxItems, fates, signal, s, n - 1);
      if t.phase == Running && t.pending != [] {
        var fate := fates(t.pending[0]);
        if fate.Page? {
          TakeAllMeasure(
            t.(pending := t.pending[1..], log := t.log + [Fetched(t.pending[0])]), fate.produced, universe);
        }
      }
    }
  }

  /** If only finitely many keys can be asked for, the run is over after 2 * (unseen keys) + pending + 1 heads. */
  lemma RunEnds(maxItems: nat, fates: Fates, signal: nat -> bool, s: State, universe: set<string>)
    requires s.seen <= universe && Within(fates, universe)
    ensures Steps(maxItems, fates, signal, s, Measure(s, universe) + 1).phase != Running
  {
    MeasureShrinks(maxItems, fates, signal, s, universe, Measure(s, universe) + 1);
  }

  // ----- what a finished run has explored -----

  /** What a request that was fetched asked for is in the set. */
  ghost predicate FollowsIn(fate: Fate, keys: set<string>)
  {
    fate.Page? ==> forall y | y in fate.produced && y.Follow? :: Key(y.request) in keys
  }

  /** A set of keys that contains what those of these requests ask for whose keys it has. */
  ghost predicate ClosedOn(fates: Fates, visits: seq<Req>, keys: set<string>)
  {
    forall r | r in visits && Key(r) in keys :: FollowsIn(fates(r), keys)
  }

  /** A set of keys that contains what its own pages ask for. */
  ghost predicate Closed(fates: Fates, keys: set<string>)
  {
    forall r: Req | Key(r) in keys :: FollowsIn(fates(r), keys)
  }

  /** Requests with the same key have the same fate. */
  ghost predicate Keyed(fates: Fates)
  {
    forall r: Req, q: Req | Key(r) == Key(q) :: fates(r) == fates(q)
  }

  lemma {:induction false} TakeAllSees(s: State, ys: seq<Yield>)
    ensures s.seen <= TakeAll(s, ys).seen && forall y | y in ys && y.Follow? :: Key(y.request) in TakeAll(s, ys).seen
    ensures forall k | k in TakeAll(s, ys).seen ::
              k in s.seen || exists y | y in ys && y.Follow? :: Key(y.request) == k
  {
    if ys == [] {
    } else {
      TakeAllSees(s, ys[..|ys| - 1]);
      assert forall y :: y in ys <==> y in ys[..|ys| - 1] || y == ys[|ys| - 1];
      hide Key;
    }
  }

  lemma {:induction false} TakeAllVisits(s: State, ys: seq<Yield>)
    ensures Visits(TakeAll(s, ys).log) == Visits(s.log)
  {
    if ys == [] {
    } else {
      TakeAllVisits(s, ys[..|ys| - 1]);
      var t, y := TakeAll(s, ys[..|ys| - 1]), ys[|ys| - 1];
      if y.Emit? {
        VisitsOneMore(t.log, Emitted(y.item));
      }
    }
  }

  ghost predicate Explored(fates: Fates, s: State)
  {
    forall r | r in Visits(s.log) :: FollowsIn(fates(r), s.seen)
  }

  lemma VisitExplores(fates: Fates, s: State)
    requires s.pending != [] && Explored(fates, s)
    ensures Explored(fates, Visit(s, fates(s.pending[0])))
  {
    var r := s.pending[0];
    var e := match fates(r) { case Refuse => Refused(r) case Fail => Failed(r) case Page(_, _) => Fetched(r) };
    var t := s.(pending := s.pending[1..], log := s.log + [e]);
    VisitsOneMore(s.log, e);
    if fates(r).Page? {
      TakeAllSees(t, fates(r).produced);
      TakeAllVisits(t, fates(r).produced);
    }
    hide Visits, TakeAll, Key;
  }

  lemma VisitTakesOne(s: State, fate: Fate)
    requires s.pending != []
    ensures Visits(Visit(s, fate).log) == Visits(s.log) + [s.pending[0]]
  {
    var r := s.pending[0];
    var e := match fate { case Refuse => Refused(r) case Fail => Failed(r) case Page(_, _) => Fetched(r) };
    VisitsOneMore(s.log, e);
    if fate.Page? {
      TakeAllVisits(s.(pending := s.pending[1..], log := s.log + [e]), fate.produced);
    }
    hide Visits, TakeAll;
  }

  lemma VisitStaysInside(fates: Fates, s: State, keys: set<string>)
    requires s.pending != [] && Key(s.pending[0]) in s.seen && s.seen <= keys && FollowsIn(fates(s.pending[0]), keys)
    ensures Visit(s, fates(s.pending[0])).seen <= keys
  {
    var r := s.pending[0];
    if fates(r).Page? {
      TakeAllSees(s.(pending := s.pending[1..], log := s.log + [Fetched(r)]), fates(r).produced);
    }
    hide Key, TakeAll;
  }

  lemma PendingIsSeen(s: State, before: set<string>)
    requires Inv(s, before) && s.pending != []
    ensures Key(s.pending[0]) in s.seen
  {
    assert s.pending[0] in Order(s) && Key(s.pending[0]) in Keys(Order(s));
  }

  lemma StepExplores(
    maxItems: nat, fates: Fates, aborted: bool, s: State, before: set<string>, keys: set<string>)
    requires Inv(s, before) && Explored(fates, s)
    ensures var t := Step(maxItems, fates, aborted, s);
      && Explored(fates, t) && Visits(s.log) <= Visits(t.log)
      && (ClosedOn(fates, Visits(t.log), keys) && s.seen <= keys ==> t.seen <= keys)
  {
    hide Visit, Visits, Key, Keys, Distinct, Inv, Order, FollowsIn;
    if s.phase == Running && s.pending != [] {
      var r := s.pending[0];
      VisitExplores(fates, s);
      VisitTakesOne(s, fates(r));
      PendingIsSeen(s, before);
      if ClosedOn(fates, Visits(s.log) + [r], keys) && s.seen <= keys {
        assert r in Visits(s.log) + [r];
        VisitStaysInside(fates, s, keys);
      }
    }
  }

  lemma {:induction false} RunExplores(
    maxItems: nat, fates: Fates, signal: nat -> bool, s: State, before: set<string>, keys: set<string>, n: nat)
    requires Inv(s, before) && Explored(fates, s)
    ensures var t := Steps(maxItems, fates, signal, s, n);
      Explored(fates, t) && (ClosedOn(fates, Visits(t.log), keys) && s.seen <= keys ==> t.seen <= keys)
  {
    if n == 0 {
    } else {
      RunExplores(maxItems, fates, signal, s, before, keys, n - 1);
      RunKeepsInv(maxItems, fates, signal, s, before, n - 1);
      StepExplores(maxItems, fates, signal(n - 1), Steps(maxItems, fates, signal, s, n - 1), before, keys);
      hide Step, Explored, Inv, Visits, Key, FollowsIn;
    }
  }

  /** A run that drains its frontier has taken exactly the keys reachable from the start URLs through the requests it
      made: the least set that holds the start keys and whatever those of the requests asked for whose keys it has. */
  lemma FinishedRunIsExhaustive(
    maxItems: nat, fates: Fates, signal: nat -> bool, urls: seq<string>, keys: set<string>, n: nat)
    requires Steps(maxItems, fates, signal, Start(urls), n).phase == Finished
    ensures var s := Steps(maxItems, fates, signal, Start(urls), n);
      && Keys(Visits(s.log)) == s.seen
      && StartKeys(urls) <= s.seen && ClosedOn(fates, Visits(s.log), s.seen)
      && (StartKeys(urls) <= keys && ClosedOn(fates, Visits(s.log), keys) ==> s.seen <= keys)
  {
    var s := Steps(maxItems, fates, signal, Start(urls), n);
    StartHoldsInv(urls);
    StartSees(urls);
    RunKeepsInv(maxItems, fates, signal, Start(urls), {}, n);
    RunExplores(maxItems, fates, signal, Start(urls), {}, keys, n);
    SeenOnlyGrows(maxItems, fates, signal, Start(urls), n);
    FinishedIsDrained(maxItems, fates, signal, Start(urls), n);
    assert Order(s) == Visits(s.log);
    hide Steps, Visits, Key, Start;
  }

  /** If moreover requests with one key lead to one page, that is the least set that holds the start keys and whatever
      its own pages ask for. */
  lemma KeyedRunIsExhaustive(
    maxItems: nat, fates: Fates, signal: nat -> bool, urls: seq<string>, keys: set<string>, n: nat)
    requires Keyed(fates) && Steps(maxItems, fates, signal, Start(urls), n).phase == Finished
    ensures var s := Steps(maxItems, fates, signal, Start(urls), n);
      && StartKeys(urls) <= s.seen && Closed(fates, s.seen)
      && (StartKeys(urls) <= keys && Closed(fates, keys) ==> s.seen <= keys)
  {
    hide Steps, Visits, Key, Start, FollowsIn;
    var s := Steps(maxItems, fates, signal, Start(urls), n);
    FinishedRunIsExhaustive(maxItems, fates, signal, urls, keys, n);
    forall r: Req | Key(r) in s.seen
      ensures FollowsIn(fates(r), s.seen)
    {
      var q :| q in Visits(s.log) && Key(q) == Key(r);
      assert fates(q) == fates(r);
    }
  }

  lemma {:induction false} SeenOnlyGrows(maxItems: nat, fates: Fates, signal: nat -> bool, s: State, n: nat)
    ensures s.seen <= Steps(maxItems, fates, signal, s, n).seen
  {
    if n == 0 {
    } else {
      SeenOnlyGrows(maxItems, fates, signal, s, n - 1);
      var t := Steps(maxItems, fates, signal, s, n - 1);
      if t.pending != [] && fates(t.pending[0]).Page? {
        TakeAllSees(
          t.(pending := t.pending[1..], log := t.log + [Fetched(t.pending[0])]), fates(t.pending[0]).produced);
      }
      hide TakeAll;
    }
  }

  lemma {:induction false} FinishedIsDrained(maxItems: nat, fates: Fates, signal: nat -> bool, s: State, n: nat)
    requires s.phase == Running && Steps(maxItems, fates, signal, s, n).phase == Finished
    ensures Steps(maxItems, fates, signal, s, n).pending == []
  {
    var t := Steps(maxItems, fates, signal, s, n - 1);
    if t.phase == Finished {
      FinishedIsDrained(maxItems, fates, signal, s, n - 1);
    } else if t.phase == Running && t.pending != [] && fates(t.pending[0]).Page? {
      TakeAllPhase(t.(pending := t.pending[1..], log := t.log + [Fetched(t.pending[0])]), fates(t.pending[0]).produced);
    }
  }

  lemma {:induction false} TakeAllPhase(s: State, ys: seq<Yield>)
    ensures TakeAll(s, ys).phase == s.phase
  {
    if ys == [] {
    } else {
      TakeAllPhase(s, ys[..|ys| - 1]);
    }
  }

  // ----- what one head does, and when it takes a request -----

  lemma {:induction false} TakeAllSplits(s: State, ys: seq<Yield>, k: nat)
    requires k <= |ys|
    ensures TakeAll(s, ys) == TakeAll(TakeAll(s, ys[..k]), ys[k..])
  {
    if k < |ys| {
      var front := ys[..|ys| - 1];
      TakeAllSplits(s, front, k);
      assert ys[k..][..|ys| - 1 - k] == front[k..] && front[..k] == ys[..k];
    } else {
      assert ys[..k] == ys;
    }
  }

  /** The requests among a page's results whose method and URL have not been seen, each at its first occurrence. */
  function NewRequests(seen: set<string>, ys: seq<Yield>): seq<Req>
    decreases |ys|
  {
    if ys == [] then []
    else if !ys[0].Follow? then NewRequests(seen, ys[1..])
    else
      var r := ys[0].request;
      var key := (if r.verb == "" then "GET" else r.verb) + " " + r.url;
      if key in seen then NewRequests(seen, ys[1..]) else [r] + NewRequests(seen + {key}, ys[1..])
  }

  /** The items among a page's results, in order, as they are logged. */
  function Emissions(ys: seq<Yield>): seq<Event>
  {
    if ys == [] then []
    else if ys[0].Emit? then [Emitted(ys[0].item)] + Emissions(ys[1..])
    else Emissions(ys[1..])
  }

  lemma {:induction false} PageGives(s: State, ys: seq<Yield>)
    ensures TakeAll(s, ys).pending == s.pending + NewRequests(s.seen, ys)
    ensures TakeAll(s, ys).log == s.log + Emissions(ys)
    ensures TakeAll(s, ys).items == s.items + |Emissions(ys)|
    decreases |ys|
  {
    hide TakeAll;
    if ys == [] {
      TakesNothing(s);
    } else {
      TakeAllSplits(s, ys, 1);
      TakesFirst(s, ys);
      PageGives(Take(s, ys[0]), ys[1..]);
    }
  }

  lemma TakesNothing(s: State)
    ensures TakeAll(s, []) == s
  {
  }

  lemma TakesFirst(s: State, ys: seq<Yield>)
    requires ys != []
    ensures TakeAll(s, ys[..1]) == Take(s, ys[0])
  {
    assert ys[..1][..0] == [];
  }

  /** One loop head of a running spider: nothing left ends the run; an abort or `maxItems` items out (0 sets no limit)
      pauses it; else the oldest pending request is taken. A refused or failed one is logged and gives nothing, a page
      gives its items in order and its new requests at the end of the frontier, and breaks the run if `parse` throws. */
  lemma HeadDoes(maxItems: nat, fates: Fates, aborted: bool, s: State)
    requires s.phase == Running
    ensures var t := Step(maxItems, fates, aborted, s);
            if s.pending == [] then t == s.(phase := Finished)
            else if aborted || (maxItems > 0 && s.items >= maxItems) then t == s.(phase := Paused)
            else
              var r := s.pending[0];
              match fates(r)
              case Refuse =>
                && t.log == s.log + [Refused(r)] && t.pending == s.pending[1..]
                && t.items == s.items && t.seen == s.seen && t.phase == Running
              case Fail =>
                && t.log == s.log + [Failed(r)] && t.pending == s.pending[1..]
                && t.items == s.items && t.seen == s.seen && t.phase == Running
              case Page(ys, throws) =>
                && t.log == s.log + [Fetched(r)] + Emissions(ys)
                && t.pending == s.pending[1..] + NewRequests(s.seen, ys)
                && t.items == s.items + |Emissions(ys)|
                && t.phase == if throws then Broken else Running
  {
    hide TakeAll, NewRequests, Emissions;
    if s.pending != [] && fates(s.pending[0]).Page? {
      var began := s.(pending := s.pending[1..], log := s.log + [Fetched(s.pending[0])]);
      PageGives(began, fates(s.pending[0]).produced);
      TakeAllPhase(began, fates(s.pending[0]).produced);
    }
  }

  /** The items emitted in a log. */
  function ItemsIn(log: seq<Event>): seq<Item>
  {
    if log == [] then []
    else (if log[0].Emitted? then [log[0].item] else []) + ItemsIn(log[1..])
  }

  lemma {:induction false} ItemsInBoth(a: seq<Event>, b: seq<Event>)
    ensures ItemsIn(a + b) == ItemsIn(a) + ItemsIn(b)
  {
    if a == [] {
      assert a + b == b;
    } else {
      ItemsInBoth(a[1..], b);
      assert (a + b)[1..] == a[1..] + b;
    }
  }

  lemma {:induction false} EmissionsAreItems(ys: seq<Yield>)
    ensures |ItemsIn(Emissions(ys))| == |Emissions(ys)|
  {
    if ys == [] {
    } else {
      EmissionsAreItems(ys[1..]);
    }
  }

  lemma StepAtRest(maxItems: nat, fates: Fates, aborted: bool, s: State)
    ensures s.phase != Running ==> Step(maxItems, fates, aborted, s) == s
  {
  }

  lemma StepCounts(maxItems: nat, fates: Fates, aborted: bool, s: State) returns (added: seq<Event>)
    ensures var t := Step(maxItems, fates, aborted, s);
            t.log == s.log + added && t.items == s.items + |ItemsIn(added)|
  {
    hide Step;
    added := [];
    StepAtRest(maxItems, fates, aborted, s);
    if s.phase == Running {
      HeadDoes(maxItems, fates, aborted, s);
      if s.pending != [] && !aborted && !AtLimit(maxItems, s) {
        var r := s.pending[0];
        match fates(r)
        case Refuse => added := [Refused(r)];
        case Fail => added := [Failed(r)];
        case Page(ys, _) =>
          added := [Fetched(r)] + Emissions(ys);
          EmissionsAreItems(ys);
          assert added[1..] == Emissions(ys);
      }
    }
  }

  /** Over any run the item count is that of the start and one for each item emitted since. */
  lemma {:induction false} ItemsAreEmitted(maxItems: nat, fates: Fates, signal: nat -> bool, s: State, n: nat)
    ensures var t := Steps(maxItems, fates, signal, s, n);
            s.log <= t.log && t.items == s.items + |ItemsIn(t.log[|s.log|..])|
  {
    hide Step, ItemsIn;
    if n == 0 {
      assert s.log[|s.log|..] == [];
      NoItems();
    } else {
      ItemsAreEmitted(maxItems, fates, signal, s, n - 1);
      var t := Steps(maxItems, fates, signal, s, n - 1);
      var added := StepCounts(maxItems, fates, signal(n - 1), t);
      ItemsInBoth(t.log[|s.log|..], added);
      assert (t.log + added)[|s.log|..] == t.log[|s.log|..] + added;
    }
  }

  lemma NoItems()
    ensures ItemsIn([]) == []
  {
  }

  /** When a run goes on: at a head that is not aborted the next request is taken iff there is no item limit or fewer
      items are out, those of the checkpoint it started from included; else the run pauses there. */
  lemma HeadDecides(maxItems: nat, fates: Fates, signal: nat -> bool, s: State, n: nat)
    requires var t := Steps(maxItems, fates, signal, s, n); t.phase == Running && t.pending != [] && !signal(n)
    ensures var t := Steps(maxItems, fates, signal, s, n);
            var next := Steps(maxItems, fates, signal, s, n + 1);
            s.log <= t.log &&
            if maxItems == 0 || s.items + |ItemsIn(t.log[|s.log|..])| < maxItems then
              Visits(next.log) == Visits(t.log) + [t.pending[0]]
            else next == t.(phase := Paused)
  {
    hide Visits, Visit, ItemsIn;
    ItemsAreEmitted(maxItems, fates, signal, s, n);
    var t := Steps(maxItems, fates, signal, s, n);
    VisitTakesOne(t, fates(t.pending[0]));
  }

  /** Once `maxItems` items are out no further request is taken. The limit is read at loop heads only, so the page
      that reaches it is emitted to its end. */
  lemma {:induction false} LimitStopsTheRun(
    maxItems: nat, fates: Fates, signal: nat -> bool, s: State, k: nat, n: nat)
    requires k <= n && AtLimit(maxItems, Steps(maxItems, fates, signal, s, k))
    ensures Steps(maxItems, fates, signal, s, n).log == Steps(maxItems, fates, signal, s, k).log
    ensures AtLimit(maxItems, Steps(maxItems, fates, signal, s, n))
  {
    if k < n {
      LimitStopsTheRun(maxItems, fates, signal, s, k, n - 1);
    }
  }

  // ----- pausing and resuming -----

  function Never(head: nat): bool
  {
    false
  }

  function After(log: seq<Event>, s: State): State
  {
    s.(log := log + s.log)
  }

  lemma {:induction false} TakeAllAfter(log: seq<Event>, s: State, ys: seq<Yield>)
    ensures TakeAll(After(log, s), ys) == After(log, TakeAll(s, ys))
  {
    if ys == [] {
    } else {
      TakeAllAfter(log, s, ys[..|ys| - 1]);
      var t, y := TakeAll(s, ys[..|ys| - 1]), ys[|ys| - 1];
      if y.Emit? {
        assert (log + t.log) + [Emitted(y.item)] == log + (t.log + [Emitted(y.item)]);
      }
    }
  }

  lemma VisitAfter(log: seq<Event>, s: State, fate: Fate)
    requires s.pending != []
    ensures Visit(After(log, s), fate) == After(log, Visit(s, fate))
  {
    var r := s.pending[0];
    match fate
    case Refuse => assert (log + s.log) + [Refused(r)] == log + (s.log + [Refused(r)]);
    case Fail => assert (log + s.log) + [Failed(r)] == log + (s.log + [Failed(r)]);
    case Page(ys, throws) =>
      assert (log + s.log) + [Fetched(r)] == log + (s.log + [Fetched(r)]);
      TakeAllAfter(log, s.(pending := s.pending[1..], log := s.log + [Fetched(r)]), ys);
  }

  /** What happened before does not influence what happens next. */
  lemma {:induction false} StepsAfter(
    maxItems: nat, fates: Fates, signal: nat -> bool, log: seq<Event>, s: State, n: nat)
    ensures Steps(maxItems, fates, signal, After(log, s), n) == After(log, Steps(maxItems, fates, signal, s, n))
  {
    if n == 0 {
    } else {
      StepsAfter(maxItems, fates, signal, log, s, n - 1);
      var t := Steps(maxItems, fates, signal, s, n - 1);
      if t.phase == Running && t.pending != [] {
        VisitAfter(log, t, fates(t.pending[0]));
      }
    }
  }

  lemma {:induction false} StepsCompose(maxItems: nat, fates: Fates, s: State, k: nat, n: nat)
    ensures Steps(maxItems, fates, Never, s, k + n) ==
            Steps(maxItems, fates, Never, Steps(maxItems, fates, Never, s, k), n)
  {
    if n == 0 {
    } else {
      StepsCompose(maxItems, fates, s, k, n - 1);
    }
  }

  predicate AllNamed(q: seq<Req>)
  {
    forall r | r in q :: r.verb != ""
  }

  lemma ResumeIsRest(s: State)
    requires s.phase == Running && AllNamed(s.pending)
    ensures s == After(s.log, Resume(Snapshot(s)))
  {
    assert Resume(Snapshot(s)).pending == s.pending;
  }

  /** A resumed run starts with the invariant, the keys settled before the pause counting as settled: no key is
      taken again after a pause either. */
  lemma ResumeHoldsInv(s: State, before: set<string>)
    requires Inv(s, before)
    ensures Inv(Resume(Snapshot(s)), before + Keys(Visits(s.log)))
  {
    var r := Resume(Snapshot(s));
    ResumedIs(s);
    OrderIs(s);
    OrderIs(r);
    hide Key, Visits, MethodOf, Order, Resume, Snapshot;
    KeysOfParts(Visits(s.log), s.pending);
    SameKeys(s.pending, r.pending);
  }

  lemma OrderIs(s: State)
    ensures Order(s) == Visits(s.log) + s.pending && (s.log == [] ==> Order(s) == s.pending)
  {
  }

  lemma ResumedIs(s: State)
    ensures var r := Resume(Snapshot(s));
      && r.log == [] && r.seen == s.seen && |r.pending| == |s.pending|
      && forall i | 0 <= i < |s.pending| :: Key(s.pending[i]) == Key(r.pending[i])
  {
    assert forall i | 0 <= i < |s.pending| :: Resume(Snapshot(s)).pending[i] == Resumed(s.pending[i]);
  }

  lemma KeysOfParts(v: seq<Req>, q: seq<Req>)
    requires Distinct(v + q)
    ensures Keys(v + q) == Keys(v) + Keys(q) && Keys(v) !! Keys(q) && Distinct(q)
  {
    var all := v + q;
    forall r, p | r in v && p in q
      ensures Key(r) != Key(p)
    {
      var i :| 0 <= i < |v| && v[i] == r;
      var j :| 0 <= j < |q| && q[j] == p;
      assert all[i] == r && all[|v| + j] == p;
    }
    assert forall i | 0 <= i < |q| :: all[|v| + i] == q[i];
    assert forall r :: r in all <==> r in v || r in q;
    hide Key;
  }

  lemma SameKeys(a: seq<Req>, b: seq<Req>)
    requires |a| == |b| && (forall i | 0 <= i < |a| :: Key(a[i]) == Key(b[i])) && Distinct(a)
    ensures Keys(a) == Keys(b) && Distinct(b)
  {
    hide Key;
    forall k | k in Keys(a) || k in Keys(b)
      ensures k in Keys(a) && k in Keys(b)
    {
      if k in Keys(a) {
        var i :| 0 <= i < |a| && Key(a[i]) == k;
        assert b[i] in b;
      }
      if k in Keys(b) {
        var i :| 0 <= i < |b| && Key(b[i]) == k;
        assert a[i] in a;
      }
    }
  }

  /** Aborting a run at its k-th loop head, checkpointing and resuming makes the same fetches and emits the same items
      as the run that was never aborted, if no pending request has an empty method. */
  lemma PauseAndResume(maxItems: nat, fates: Fates, s: State, k: nat, n: nat)
    requires Steps(maxItems, fates, Never, s, k).phase == Running
    requires AllNamed(Steps(maxItems, fates, Never, s, k).pending)
    ensures var mid := Steps(maxItems, fates, Never, s, k);
      var checkpoint := Snapshot(Step(maxItems, fates, true, mid));
      Steps(maxItems, fates, Never, s, k + n) ==
      After(mid.log, Steps(maxItems, fates, Never, Resume(checkpoint), n))
  {
    var mid := Steps(maxItems, fates, Never, s, k);
    StepsCompose(maxItems, fates, s, k, n);
    ResumeIsRest(mid);
    StepsAfter(maxItems, fates, Never, mid.log, Resume(Snapshot(mid)), n);
    assert Snapshot(Step(maxItems, fates, true, mid)) == Snapshot(mid);
    hide *;
  }

  /** Whatever the requests lead to, the resumed run does what the original would have done. */
  ghost predicate ResumesFaithfully(maxItems: nat, s: State)
  {
    forall fates: Fates, n: nat ::
      Steps(maxItems, fates, Never, s, n).log ==
      s.log + Steps(maxItems, fates, Never, Resume(Snapshot(s)), n).log
  }

  function FailEverything(r: Req): Fate
  {
    Fail
  }

  lemma {:induction false} FailingRun(maxItems: nat, s: State, n: nat)
    requires s.phase == Running && !AtLimit(maxItems, s) && n <= |s.pending|
    ensures var t := Steps(maxItems, FailEverything, Never, s, n);
      && t.phase == Running && t.items == s.items && t.pending == s.pending[n..]
      && |t.log| == |s.log| + n && (forall i | 0 <= i < |s.log| :: t.log[i] == s.log[i])
      && (forall i | 0 <= i < n :: t.log[|s.log| + i] == Failed(s.pending[i]))
  {
    if n == 0 {
    } else {
      FailingRun(maxItems, s, n - 1);
    }
  }

  lemma EmptyMethodIsLost(maxItems: nat, s: State)
    requires s.phase == Running && !AllNamed(s.pending) && !AtLimit(maxItems, s)
    ensures !ResumesFaithfully(maxItems, s)
  {
    var r, n := Resume(Snapshot(s)), |s.pending|;
    var i: nat :| i < n && s.pending[i].verb == "";
    FailingRun(maxItems, s, n);
    FailingRun(maxItems, r, n);
    hide Steps;
    var t, u := Steps(maxItems, FailEverything, Never, s, n).log, Steps(maxItems, FailEverything, Never, r, n).log;
    assert t[|s.log| + i] == Failed(s.pending[i]);
    assert u[|r.log| + i] == Failed(r.pending[i]);
    assert (s.log + u)[|s.log| + i] == u[i];
    assert r.pending[i] != s.pending[i];
  }

  /** A checkpoint turns an empty method into `GET`, so a run resumes faithfully exactly when no pending request has
      an empty method, or the run is over its item limit and takes nothing more anyway. */
  lemma ResumesFaithfullyIff(maxItems: nat, s: State)
    requires s.phase == Running
    ensures ResumesFaithfully(maxItems, s) <==> AllNamed(s.pending) || AtLimit(maxItems, s)
  {
    var r := Resume(Snapshot(s));
    if AtLimit(maxItems, s) {
      forall fates: Fates, n: nat
        ensures Steps(maxItems, fates, Never, s, n).log == s.log + Steps(maxItems, fates, Never, r, n).log
      {
        LimitStopsTheRun(maxItems, fates, Never, s, 0, n);
        LimitStopsTheRun(maxItems, fates, Never, r, 0, n);
      }
    } else if AllNamed(s.pending) {
      ResumeIsRest(s);
      forall fates: Fates, n: nat
        ensures Steps(maxItems, fates, Never, s, n).log == s.log + Steps(maxItems, fates, Never, r, n).log
      {
        StepsAfter(maxItems, fates, Never, s.log, r, n);
      }
    } else {
      EmptyMethodIsLost(maxItems, s);
    }
  }

  /** Nothing new comes of these. */
  predicate Barren(s: State, ys: seq<Yield>)
  {
    forall y | y in ys :: y.Nothing? || (y.Follow? && Key(y.request) in s.seen)
  }

  lemma {:induction false} BarrenIff(s: State, ys: seq<Yield>)
    ensures Snapshot(TakeAll(s, ys)) == Snapshot(s) <==> Barren(s, ys)
    ensures TakeAll(s, ys).items >= s.items && s.seen <= TakeAll(s, ys).seen
  {
    if ys == [] {
    } else {
      var front, y := ys[..|ys| - 1], ys[|ys| - 1];
      var t := TakeAll(s, front);
      BarrenIff(s, front);
      assert forall x :: x in ys <==> x in front || x == y;
      assert Snapshot(Take(t, y)) == Snapshot(t) <==> (y.Nothing? || (y.Follow? && Key(y.request) in t.seen));
      hide Key;
    }
  }

  /** A checkpoint taken while a page is being processed, after its first `k` results, loses the rest of the page: it
      equals the checkpoint at the page's end exactly when the rest holds no item and no new request. */
  lemma MidPageCheckpoint(s: State, ys: seq<Yield>, k: nat)
    requires k <= |ys|
    ensures Snapshot(TakeAll(s, ys[..k])) == Snapshot(TakeAll(s, ys)) <==> Barren(TakeAll(s, ys[..k]), ys[k..])
  {
    TakeAllSplits(s, ys, k);
    BarrenIff(TakeAll(s, ys[..k]), ys[k..]);
  }

  // ----- keys -----

  /** Method `n` is `m`, a space and more, and URL `u` starts with that rest. */
  predicate Overlaps(m: string, u: string, n: string, v: string)
  {
    |m| < |n| && n[..|m|] == m && n[|m|] == ' ' && u == n[|m| + 1..] + " " + v
  }

  lemma OverlapsIff(m: string, u: string, n: string, v: string)
    requires |m| < |n|
    ensures m + " " + u == n + " " + v <==> Overlaps(m, u, n, v)
  {
    var k, r := m + " " + u, n + " " + v;
    if k == r {
      assert r[..|m|] == n[..|m|] && k[..|m|] == m;
      assert k[|m|] == ' ' && r[|m|] == n[|m|];
      assert k[|m| + 1..] == u && r[|m| + 1..] == n[|m| + 1..] + " " + v;
    }
    if Overlaps(m, u, n, v) {
      assert n == m + " " + n[|m| + 1..];
      assert k == m + " " + n[|m| + 1..] + " " + v;
    }
  }

  lemma SameLength(m: string, u: string, n: string, v: string)
    requires |m| == |n|
    ensures m + " " + u == n + " " + v <==> m == n && u == v
  {
    var k, r := m + " " + u, n + " " + v;
    if k == r {
      assert k[..|m|] == m && r[..|m|] == n && k[|m| + 1..] == u && r[|m| + 1..] == v;
    }
  }

  /** Two requests share a key exactly when method and URL agree, or when one method is the other with a space and the
      start of the other's URL: the later of two such requests is taken for seen. */
  lemma KeysCollideIff(a: Req, b: Req)
    ensures Key(a) == Key(b) <==>
            || (MethodOf(a) == MethodOf(b) && a.url == b.url)
            || Overlaps(MethodOf(a), a.url, MethodOf(b), b.url)
            || Overlaps(MethodOf(b), b.url, MethodOf(a), a.url)
  {
    var m, n := MethodOf(a), MethodOf(b);
    if |m| < |n| {
      OverlapsIff(m, a.url, n, b.url);
    } else if |n| < |m| {
      OverlapsIff(n, b.url, m, a.url);
    } else {
      SameLength(m, a.url, n, b.url);
    }
  }

  /** So method and URL determine the key and the key them, as long as no method has a space. */
  lemma KeysTellRequestsApart(a: Req, b: Req)
    requires ' ' !in a.verb && ' ' !in b.verb
    ensures Key(a) == Key(b) <==> MethodOf(a) == MethodOf(b) && a.url == b.url
  {
    KeysCollideIff(a, b);
    hide Key;
  }

  // ----- the source's form -----

  class SpiderRun {
    const maxItems: nat
    var pending: seq<Req>
    var seen: set<string>
    var itemsEmitted: nat
    var phase: Phase
    /** The fetches made and the items yielded so far. */
    var log: seq<Event>

    ghost function Abstract(): State
      reads this
    {
      State(pending, seen, itemsEmitted, phase, log)
    }

    constructor FromUrls(maxItems: nat, startUrls: seq<string>)
      ensures this.maxItems == maxItems && Abstract() == Start(startUrls)
    {
      this.maxItems := maxItems;
      this.pending, this.seen, this.itemsEmitted, this.phase, this.log := [], {}, 0, Running, [];
      new;
      for i := 0 to |startUrls|
        invariant Abstract() == Start(startUrls[..i])
      {
        assert startUrls[..i + 1][..i] == startUrls[..i];
        var r := Req(startUrls[i], "GET", None);
        if Key(r) !in seen {
          seen := seen + {Key(r)};
          pending := pending + [r];
        }
        hide Key;
      }
      assert startUrls[..|startUrls|] == startUrls;
    }

    constructor FromCheckpoint(maxItems: nat, c: Checkpoint)
      ensures this.maxItems == maxItems && Abstract() == Resume(c)
    {
      this.maxItems := maxItems;
      this.pending, this.seen, this.itemsEmitted, this.phase, this.log := [], c.seen, c.items, Running, [];
      new;
      for i := 0 to |c.pending|
        invariant Abstract() == Resume(c).(pending := Resume(c).pending[..i])
      {
        pending := pending + [c.pending[i].(verb := MethodOf(c.pending[i]))];
      }
    }

    method TakeCheckpoint() returns (c: Checkpoint)
      ensures c == Snapshot(Abstract())
    {
      c := Checkpoint(pending, seen, itemsEmitted);
    }

    method TakeResults(ys: seq<Yield>)
      modifies this
      ensures Abstract() == TakeAll(old(Abstract()), ys)
    {
      for i := 0 to |ys|
        invariant Abstract() == TakeAll(old(Abstract()), ys[..i])
      {
        assert ys[..i + 1][..i] == ys[..i];
        match ys[i]
        case Nothing =>
        case Emit(v) =>
          itemsEmitted := itemsEmitted + 1;
          log := log + [Emitted(v)];
        case Follow(r) =>
          if Key(r) !in seen {
            seen := seen + {Key(r)};
            pending := pending + [r];
          }
      }
      assert ys[..|ys|] == ys;
    }

    /** One pass of the loop. */
    method Head(fates: Fates, aborted: bool)
      requires phase == Running
      modifies this
      ensures Abstract() == Step(maxItems, fates, aborted, old(Abstract()))
    {
      if pending == [] {
        phase := Finished;
        return;
      }
      if aborted || (maxItems > 0 && itemsEmitted >= maxItems) {
        phase := Paused;
        return;
      }
      var req := pending[0];
      pending := pending[1..];
      match fates(req)
      case Refuse => log := log + [Refused(req)];
      case Fail => log := log + [Failed(req)];
      case Page(ys, throws) =>
        log := log + [Fetched(req)];
        TakeResults(ys);
        if throws {
          phase := Broken;
        }
    }

    /** The loop, for a site with finitely many keys. */
    method Run(fates: Fates, signal: nat -> bool, ghost universe: set<string>) returns (heads: nat)
      requires phase == Running && seen <= universe && Within(fates, universe)
      modifies this
      ensures Abstract() == Steps(maxItems, fates, signal, old(Abstract()), heads)
      ensures phase != Running && heads <= old(Measure(Abstract(), universe)) + 1
    {
      heads := 0;
      while phase == Running
        invariant Abstract() == Steps(maxItems, fates, signal, old(Abstract()), heads)
        invariant seen <= universe
        invariant phase == Running ==> Measure(Abstract(), universe) + heads <= old(Measure(Abstract(), universe))
        invariant heads <= old(Measure(Abstract(), universe)) + 1
        decreases old(Measure(Abstract(), universe)) + 1 - heads
      {
        MeasureShrinks(maxItems, fates, signal, old(Abstract()), universe, heads + 1);
        Head(fates, signal(heads));
        heads := heads + 1;
      }
    }
  }
}
