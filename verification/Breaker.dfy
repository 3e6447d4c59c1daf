/**
 `RequestProfileClient` of crawlex/access_profiles.py: sessions, rate limit and circuit breaker around
 HTTP GETs, as `request` and `fetch_url` drive them.

 The readings of the monotonic clock in a call, the jitter drawn and what the GET gave are the call's arguments.
 */
module Breaker {
  import opened Wrappers

  datatype Profile = Profile(
    isolated: bool, maxRequests: Option<int>, maxAge: Option<real>, minDelay: real, jitter: real,
    threshold: int, cooldown: real)

  /** `Neutral`: `fetch_url` found the response neither blocked nor good. */
  datatype Verdict = Blocked | Passed | Neutral

  /** The GET raised, in which case only `fetch_url` stamps the time, or it was answered. */
  datatype Outcome = Raised(stamped: bool) | Answered(verdict: Verdict)

  /** The clock as read by `_check_circuit`, by `_wait_rate_limit` and after its sleep, by `_session_expired` and
      `_new_session`, at the GET, at its end and when the circuit is opened. */
  datatype Call = Call(
    allowed: bool, check: real, wait: real, draw: real, wake: real, expiry: real, created: real,
    start: real, end: real, after: real, outcome: Outcome)

  datatype Session = Session(id: nat, created: real, count: nat)

  /** A GET that was sent; `created` is when its session was made, `expiry` when the expiry of the last one was tested,
      `trip` when the circuit was opened. */
  datatype Get = Get(
    start: real, end: real, session: nat, created: real, expiry: real, outcome: Outcome, trip: Option<real>)

  /** `clock` is the latest reading, `sessions` how many sessions were made. */
  datatype State = State(
    shared: Option<Session>, lastRequestAt: real, blocks: nat, openUntil: real,
    clock: real, sessions: nat, log: seq<Get>)

  function Init(clock: real): State
  {
    State(None, 0.0, 0, 0.0, clock, 0, [])
  }

  // ----- a call as a function -----

  predicate Expired(p: Profile, m: Session, now: real)
  {
    (p.maxRequests.Some? && m.count >= p.maxRequests.value) || (p.maxAge.Some? && now - m.created >= p.maxAge.value)
  }

  predicate NeedsSession(p: Profile, s: State, c: Call)
  {
    p.isolated || s.shared.None? || Expired(p, s.shared.value, c.expiry)
  }

  function Used(p: Profile, s: State, c: Call): Session
  {
    if NeedsSession(p, s, c) then Session(s.sessions, c.created, 0) else s.shared.value
  }

  predicate Stamps(o: Outcome)
  {
    o.Answered? || o.stamped
  }

  function BlocksAfter(blocks: nat, o: Outcome): nat
  {
    if o == Answered(Blocked) then blocks + 1 else if o == Answered(Passed) then 0 else blocks
  }

  /** A threshold of zero never opens the circuit. */
  predicate Opens(p: Profile, blocks: nat, o: Outcome)
  {
    o == Answered(Blocked) && p.threshold != 0 && BlocksAfter(blocks, o) >= p.threshold
  }

  function Next(p: Profile, s: State, c: Call): State
  {
    if !c.allowed then s
    else if c.check < s.openUntil then s.(clock := c.check)
    else
      var m := Used(p, s, c);
      var used := if c.outcome.Answered? then m.(count := m.count + 1) else m;
      var opens := Opens(p, s.blocks, c.outcome);
      State(
        if p.isolated then s.shared else Some(used),
        if Stamps(c.outcome) then c.end else s.lastRequestAt,
        BlocksAfter(s.blocks, c.outcome),
        if opens then c.after + p.cooldown else s.openUntil,
        c.after,
        if NeedsSession(p, s, c) then s.sessions + 1 else s.sessions,
        s.log + [Get(c.start, c.end, m.id, m.created, c.expiry, c.outcome, if opens then Some(c.after) else None)])
  }

  predicate Drawn(p: Profile, draw: real)
  {
    if p.jitter >= 0.0 then 0.0 <= draw <= p.jitter else p.jitter <= draw <= 0.0
  }

  /** `_last_request_at` counts as unset when it is zero. */
  predicate MustWait(p: Profile, s: State, c: Call)
  {
    s.lastRequestAt != 0.0 && c.wait - s.lastRequestAt < p.minDelay + c.draw
  }

  /** The clock never goes back and a sleep takes at least its time. */
  predicate Possible(p: Profile, s: State, c: Call)
  {
    && s.clock <= c.check <= c.wait <= c.wake <= c.expiry <= c.created <= c.start <= c.end <= c.after
    && Drawn(p, c.draw)
    && (MustWait(p, s, c) ==> c.wake >= c.wait + (p.minDelay + c.draw - (c.wait - s.lastRequestAt)))
  }

  function Run(p: Profile, s: State, calls: seq<Call>): State
  {
    if calls == [] then s else Next(p, Run(p, s, calls[..|calls| - 1]), calls[|calls| - 1])
  }

  ghost predicate PossibleRun(p: Profile, s: State, calls: seq<Call>)
  {
    calls != [] ==>
      var front := calls[..|calls| - 1];
      PossibleRun(p, s, front) && Possible(p, Run(p, s, front), calls[|calls| - 1])
  }

  // ----- what every run keeps -----

  /** Blocked answers since the last good one. */
  function BlocksIn(log: seq<Get>): nat
  {
    if log == [] then 0 else BlocksAfter(BlocksIn(log[..|log| - 1]), log[|log| - 1].outcome)
  }

  function Counts(g: Get, id: nat): nat
  {
    if g.session == id && g.outcome.Answered? then 1 else 0
  }

  function Answers(log: seq<Get>, id: nat): nat
  {
    if log == [] then 0 else Answers(log[..|log| - 1], id) + Counts(log[|log| - 1], id)
  }

  ghost predicate BlocksCounted(p: Profile, s: State)
  {
    && s.blocks == BlocksIn(s.log)
    && forall i | 0 <= i < |s.log| ::
         s.log[i].trip.Some? <==> Opens(p, BlocksIn(s.log[..i]), s.log[i].outcome)
  }

  ghost predicate CooldownKept(p: Profile, s: State)
  {
    && (forall i | 0 <= i < |s.log| :: s.log[i].end <= s.clock &&
         (s.log[i].trip.Some? ==> s.log[i].trip.value <= s.clock && s.openUntil >= s.log[i].trip.value + p.cooldown))
    && forall i, j | 0 <= i < j < |s.log| && s.log[i].trip.Some? ::
         s.log[j].start >= s.log[i].trip.value + p.cooldown
  }

  /** The delay with the smallest draw: a negative jitter setting takes from it. */
  function LeastDelay(p: Profile): real
  {
    p.minDelay + (if p.jitter < 0.0 then p.jitter else 0.0)
  }

  /** Every GET that stamped a positive time precedes the later ones by the least delay. */
  ghost predicate DelayKept(p: Profile, s: State)
  {
    && s.lastRequestAt <= s.clock
    && (forall i | 0 <= i < |s.log| && Stamps(s.log[i].outcome) :: s.log[i].end <= s.lastRequestAt)
    && forall i, j | 0 <= i < j < |s.log| && Stamps(s.log[i].outcome) && s.log[i].end > 0.0 ::
         s.log[j].start >= s.log[i].end + LeastDelay(p)
  }

  /** The most answers one session may get. */
  function MaxAnswers(p: Profile): int
    requires p.isolated || p.maxRequests.Some?
  {
    if p.isolated || p.maxRequests.value < 1 then 1 else p.maxRequests.value
  }

  predicate LastUsed(m: Session, g: Get)
  {
    m.id == g.session && m.created == g.created
  }

  /** No GET before this one had its session. */
  ghost predicate NewSession(log: seq<Get>, g: Get)
  {
    forall i | 0 <= i < |log| :: log[i].session != g.session
  }

  /** The session of a GET: that of the GET before it, unless sessions are isolated or that one is used up or too old;
      otherwise one that was never used. */
  ghost predicate SessionChosen(p: Profile, log: seq<Get>, g: Get)
  {
    if p.isolated || log == [] then NewSession(log, g)
    else
      var last := log[|log| - 1];
      if || (p.maxRequests.Some? && Answers(log, last.session) >= p.maxRequests.value)
         || (p.maxAge.Some? && g.expiry - last.created >= p.maxAge.value)
      then NewSession(log, g)
      else g.session == last.session && g.created == last.created
  }

  ghost predicate SessionsKept(p: Profile, s: State)
  {
    && (forall i | 0 <= i < |s.log| :: s.log[i].session < s.sessions)
    && (s.shared.Some? ==> s.shared.value.id < s.sessions && s.shared.value.count == Answers(s.log, s.shared.value.id))
    && (if p.isolated || s.log == [] then s.shared == None
        else s.shared.Some? && LastUsed(s.shared.value, s.log[|s.log| - 1]))
    && (forall i | 0 <= i < |s.log| :: SessionChosen(p, s.log[..i], s.log[i]))
    && (p.isolated || p.maxRequests.Some? ==> forall id: nat :: Answers(s.log, id) <= MaxAnswers(p))
  }

  lemma OneMoreGet(log: seq<Get>, g: Get)
    ensures BlocksIn(log + [g]) == BlocksAfter(BlocksIn(log), g.outcome)
    ensures forall id :: Answers(log + [g], id) == Answers(log, id) + Counts(g, id)
  {
    assert (log + [g])[..|log|] == log;
  }

  lemma NextCountsBlocks(p: Profile, s: State, c: Call)
    requires BlocksCounted(p, s)
    ensures BlocksCounted(p, Next(p, s, c))
  {
    var t := Next(p, s, c);
    if t.log != s.log {
      OneMoreGet(s.log, t.log[|s.log|]);
      assert t.log[..|s.log|] == s.log;
      assert forall i | 0 <= i < |s.log| :: t.log[..i] == s.log[..i];
    }
  }

  lemma NextKeepsCooldown(p: Profile, s: State, c: Call)
    requires CooldownKept(p, s) && Possible(p, s, c)
    ensures CooldownKept(p, Next(p, s, c))
  {
  }

  lemma NextKeepsDelay(p: Profile, s: State, c: Call)
    requires DelayKept(p, s) && Possible(p, s, c)
    ensures DelayKept(p, Next(p, s, c))
  {
  }

  lemma {:induction false} FreshSession(log: seq<Get>, id: nat)
    requires forall i | 0 <= i < |log| :: log[i].session < id
    ensures Answers(log, id) == 0
  {
    if log == [] {
    } else {
      FreshSession(log[..|log| - 1], id);
    }
  }

  lemma NextKeepsSessions(p: Profile, s: State, c: Call)
    requires SessionsKept(p, s)
    ensures SessionsKept(p, Next(p, s, c))
  {
    hide Answers, BlocksIn, Opens, BlocksAfter, Stamps;
    var t := Next(p, s, c);
    if t.log != s.log {
      var g := t.log[|s.log|];
      OneMoreGet(s.log, g);
      FreshSession(s.log, s.sessions);
      assert forall id: nat | id != g.session :: Answers(t.log, id) == Answers(s.log, id);
      assert SessionChosen(p, s.log, g);
      assert forall i | 0 <= i < |s.log| :: t.log[..i] == s.log[..i];
      assert t.log[..|s.log|] == s.log;
    }
  }

  ghost predicate Inv(p: Profile, s: State)
  {
    BlocksCounted(p, s) && CooldownKept(p, s) && DelayKept(p, s) && SessionsKept(p, s)
  }

  /** Over every possible run of calls: the block counter counts the blocked answers since the last good one, no GET
      is sent within the cooldown after one that opened the circuit or within the minimum delay after one that ended,
      and no session gets more answers than it may or is used again at its maximum age. */
  lemma {:induction false} RunKeepsInv(p: Profile, clock: real, calls: seq<Call>)
    requires clock >= 0.0 && PossibleRun(p, Init(clock), calls)
    ensures Inv(p, Run(p, Init(clock), calls))
  {
    if calls == [] {
    } else {
      var front, c := calls[..|calls| - 1], calls[|calls| - 1];
      RunKeepsInv(p, clock, front);
      var s := Run(p, Init(clock), front);
      NextCountsBlocks(p, s, c);
      NextKeepsCooldown(p, s, c);
      NextKeepsDelay(p, s, c);
      NextKeepsSessions(p, s, c);
      hide BlocksCounted, CooldownKept, DelayKept, SessionsKept, Next, Possible;
    }
  }

  /** The verdicts that say blocked or good, in order. */
  function Verdicts(log: seq<Get>): seq<Verdict>
  {
    if log == [] then []
    else
      var o := log[|log| - 1].outcome;
      Verdicts(log[..|log| - 1]) + (if o.Answered? && !o.verdict.Neutral? then [o.verdict] else [])
  }

  /** The counter is the length of the trailing run of blocked answers. */
  lemma {:induction false} BlocksAreTheTrailingRun(log: seq<Get>)
    ensures var d, n := Verdicts(log), BlocksIn(log);
      && n <= |d| && (forall i | |d| - n <= i < |d| :: d[i] == Blocked)
      && (n < |d| ==> d[|d| - n - 1] == Passed)
  {
    if log == [] {
    } else {
      BlocksAreTheTrailingRun(log[..|log| - 1]);
    }
  }

  /** The answers that opened the circuit, by name: a blocked one, unless the threshold is zero, that makes the last
      `threshold` verdicts all blocked. */
  lemma TripsExactly(p: Profile, clock: real, calls: seq<Call>, i: nat)
    requires clock >= 0.0 && PossibleRun(p, Init(clock), calls) && i < |Run(p, Init(clock), calls).log|
    ensures var log := Run(p, Init(clock), calls).log;
            var d := Verdicts(log[..i + 1]);
            log[i].trip.Some? <==>
              && log[i].outcome == Answered(Blocked) && p.threshold != 0 && p.threshold <= |d|
              && forall j | |d| - p.threshold <= j < |d| :: d[j] == Blocked
  {
    hide Run, PossibleRun, Verdicts, CooldownKept, DelayKept, SessionsKept, Answers;
    RunKeepsInv(p, clock, calls);
    var log := Run(p, Init(clock), calls).log;
    assert log[..i + 1][..i] == log[..i];
    BlocksAreTheTrailingRun(log[..i + 1]);
  }

  /** GETs keep their distance, by name: one that was answered, or stamped its failure, at a time other than zero
      precedes every later one by the minimum delay, less what a negative jitter takes from it. */
  lemma DelayBetween(p: Profile, clock: real, calls: seq<Call>, i: nat, j: nat)
    requires clock >= 0.0 && PossibleRun(p, Init(clock), calls) && i < j < |Run(p, Init(clock), calls).log|
    ensures var first, later := Run(p, Init(clock), calls).log[i], Run(p, Init(clock), calls).log[j];
            (first.outcome.Answered? || first.outcome.stamped) && first.end > 0.0 ==>
              later.start >= first.end + p.minDelay + (if p.jitter < 0.0 then p.jitter else 0.0)
  {
    hide Run, PossibleRun, BlocksCounted, CooldownKept, SessionsKept;
    RunKeepsInv(p, clock, calls);
  }

  /** The circuit is closed until the first trip, and the last one says until when it is open. */
  ghost predicate OpenByTrips(p: Profile, s: State)
  {
    && s.clock >= 0.0
    && (s.openUntil == 0.0 ||
        exists i | 0 <= i < |s.log| :: s.log[i].trip.Some? && s.openUntil == s.log[i].trip.value + p.cooldown)
  }

  lemma {:induction false} RunOpensByTrips(p: Profile, clock: real, calls: seq<Call>)
    requires clock >= 0.0 && PossibleRun(p, Init(clock), calls)
    ensures OpenByTrips(p, Run(p, Init(clock), calls))
  {
    if calls == [] {
    } else {
      var front, c := calls[..|calls| - 1], calls[|calls| - 1];
      RunOpensByTrips(p, clock, front);
      OpensByTrip(p, Run(p, Init(clock), front), c);
      hide OpenByTrips, Next;
    }
  }

  lemma OpensByTrip(p: Profile, s: State, c: Call)
    requires OpenByTrips(p, s) && Possible(p, s, c)
    ensures OpenByTrips(p, Next(p, s, c))
  {
    hide Opens, Used, NeedsSession;
    var t := Next(p, s, c);
    if t.log != s.log && t.openUntil == s.openUntil && s.openUntil != 0.0 {
      var i :| 0 <= i < |s.log| && s.log[i].trip.Some? && s.openUntil == s.log[i].trip.value + p.cooldown;
      assert t.log[i] == s.log[i];
    } else if t.log != s.log && t.openUntil != 0.0 {
      assert t.log[|s.log|].trip.Some?;
    }
  }

  /** A call sends its GET iff the endpoint is allowed and the cooldown after every trip so far is over. */
  lemma SendsIff(p: Profile, clock: real, calls: seq<Call>, c: Call)
    requires clock >= 0.0 && PossibleRun(p, Init(clock), calls) && Possible(p, Run(p, Init(clock), calls), c)
    ensures var s := Run(p, Init(clock), calls);
            |Next(p, s, c).log| == |s.log| + 1 <==>
            c.allowed && forall g | g in s.log && g.trip.Some? :: c.check >= g.trip.value + p.cooldown
  {
    hide Run, PossibleRun, BlocksCounted, DelayKept, SessionsKept, Opens, Used, NeedsSession;
    RunKeepsInv(p, clock, calls);
    RunOpensByTrips(p, clock, calls);
    var s := Run(p, Init(clock), calls);
    forall g | g in s.log && g.trip.Some?
      ensures s.openUntil >= g.trip.value + p.cooldown
    {
      var i :| 0 <= i < |s.log| && s.log[i] == g;
    }
    if s.openUntil != 0.0 {
      var i :| 0 <= i < |s.log| && s.log[i].trip.Some? && s.openUntil == s.log[i].trip.value + p.cooldown;
      assert s.log[i] in s.log;
    }
  }

  /** Which session a GET uses: over every possible run the one before it, as long as sessions are shared and that one
      is neither used up nor too old, and else a new one. */
  lemma SessionsExactly(p: Profile, clock: real, calls: seq<Call>, i: nat)
    requires clock >= 0.0 && PossibleRun(p, Init(clock), calls) && i < |Run(p, Init(clock), calls).log|
    ensures var log := Run(p, Init(clock), calls).log;
            var kept := !p.isolated && i > 0
              && (p.maxRequests.Some? ==> Answers(log[..i], log[i - 1].session) < p.maxRequests.value)
              && (p.maxAge.Some? ==> log[i].expiry - log[i - 1].created < p.maxAge.value);
            if kept then log[i].session == log[i - 1].session && log[i].created == log[i - 1].created
            else forall j | 0 <= j < i :: log[j].session != log[i].session
  {
    hide Run, PossibleRun, BlocksCounted, CooldownKept, DelayKept, Answers;
    RunKeepsInv(p, clock, calls);
    var log := Run(p, Init(clock), calls).log;
    assert SessionChosen(p, log[..i], log[i]);
    assert forall j | 0 <= j < i :: log[..i][j] == log[j];
  }

  /** The call gets as far as its GET. */
  predicate Sends(s: State, c: Call)
  {
    c.allowed && c.check >= s.openUntil
  }

  /** All readings of the clock are this one, nothing is drawn and the GET is answered. */
  function Instant(now: real): Call
  {
    Call(true, now, now, 0.0, now, now, now, now, now, now, Answered(Passed))
  }

  function Max(a: real, b: real): real
  {
    if a < b then b else a
  }

  /** When the least delay after the last stamp is kept by every call that may come: exactly when the stamp is not
      zero, which counts as none, or by the time the next GET can be sent the delay is over anyway. */
  lemma DelayKeptIff(p: Profile, s: State)
    ensures (forall c | Possible(p, s, c) && Sends(s, c) :: c.start >= s.lastRequestAt + LeastDelay(p)) <==>
            s.lastRequestAt != 0.0 || Max(s.clock, s.openUntil) >= LeastDelay(p)
  {
    var now := Max(s.clock, s.openUntil);
    if s.lastRequestAt == 0.0 {
      assert Possible(p, s, Instant(now)) && Sends(s, Instant(now));
    }
  }

  /** Two GETs at time zero that are not kept apart. */
  lemma StampOfZeroIsIgnored(p: Profile)
    requires p.minDelay > 0.0
    ensures var s := Run(p, Init(0.0), [Instant(0.0), Instant(0.0)]);
      && PossibleRun(p, Init(0.0), [Instant(0.0), Instant(0.0)])
      && |s.log| == 2 && Stamps(s.log[0].outcome) && s.log[1].start < s.log[0].end + p.minDelay
  {
    var c := Instant(0.0);
    assert [c, c][..1] == [c] && [c][..0] == [];
    assert Run(p, Init(0.0), [c]) == Next(p, Init(0.0), c);
  }

  // ----- the source's form -----

  class ManagedSession {
    const id: nat
    const createdAt: real
    var requestCount: nat

    constructor (id: nat, createdAt: real)
      ensures this.id == id && this.createdAt == createdAt && requestCount == 0
    {
      this.id, this.createdAt, this.requestCount := id, createdAt, 0;
    }
  }

  class RequestProfileClient {
    const profile: Profile
    var shared: ManagedSession?
    var lastRequestAt: real
    var consecutiveBlocks: nat
    var circuitOpenUntil: real
    ghost var clock: real
    var sessions: nat
    ghost var log: seq<Get>

    ghost function Owned(): set<object>
      reads this
    {
      if shared == null then {this} else {this, shared}
    }

    ghost function Abstract(): State
      reads this, Owned()
    {
      State(
        if shared == null then None else Some(Session(shared.id, shared.createdAt, shared.requestCount)),
        lastRequestAt, consecutiveBlocks, circuitOpenUntil, clock, sessions, log)
    }

    constructor (profile: Profile, ghost now: real)
      ensures this.profile == profile && Abstract() == Init(now)
    {
      this.profile := profile;
      this.shared, this.lastRequestAt, this.consecutiveBlocks, this.circuitOpenUntil := null, 0.0, 0, 0.0;
      this.clock, this.sessions, this.log := now, 0, [];
    }

    method SessionExpired(managed: ManagedSession, now: real) returns (expired: bool)
      ensures expired == Expired(profile, Session(managed.id, managed.createdAt, managed.requestCount), now)
    {
      if profile.maxRequests.Some? && managed.requestCount >= profile.maxRequests.value {
        return true;
      }
      if profile.maxAge.Some? && now - managed.createdAt >= profile.maxAge.value {
        return true;
      }
      return false;
    }

    method NewSession(now: real) returns (managed: ManagedSession)
      modifies this`sessions
      ensures fresh(managed) && managed.id == old(sessions) && managed.createdAt == now && managed.requestCount == 0
      ensures sessions == old(sessions) + 1
    {
      managed := new ManagedSession(sessions, now);
      sessions := sessions + 1;
    }

    method GetSession(c: Call) returns (managed: ManagedSession)
      modifies this`shared, this`sessions
      ensures var old0 := old(Abstract());
        && Session(managed.id, managed.createdAt, managed.requestCount) == Used(profile, old0, c)
        && sessions == (if NeedsSession(profile, old0, c) then old(sessions) + 1 else old(sessions))
      ensures if profile.isolated then shared == old(shared) && fresh(managed)
              else shared == managed && (managed == old(shared) || fresh(managed))
    {
      if profile.isolated {
        managed := NewSession(c.created);
        return;
      }
      var renew := shared == null;
      if !renew {
        renew := SessionExpired(shared, c.expiry);
      }
      if renew {
        shared := NewSession(c.created);
      }
      return shared;
    }

    /** How long to sleep before the GET: until the delay after the last stamp is over, and no longer. */
    method WaitRateLimit(c: Call) returns (sleep: real)
      ensures sleep >= 0.0
      ensures lastRequestAt == 0.0 ==> sleep == 0.0
      ensures lastRequestAt != 0.0 ==> c.wait + sleep >= lastRequestAt + profile.minDelay + c.draw
      ensures sleep > 0.0 ==> c.wait + sleep == lastRequestAt + profile.minDelay + c.draw
    {
      var delay := profile.minDelay + c.draw;
      var elapsed := c.wait - lastRequestAt;
      sleep := 0.0;
      if lastRequestAt != 0.0 && elapsed < delay {
        sleep := delay - elapsed;
      }
    }

    /** `request`, and `fetch_url` with the outcomes that only it has. `sent` is false when the call raises before the
        GET, for an endpoint that is not allowed or an open circuit. */
    method Request(c: Call) returns (sent: bool)
      requires Possible(profile, Abstract(), c)
      modifies Owned()
      ensures Abstract() == Next(profile, old(Abstract()), c)
      ensures sent <==> c.allowed && c.check >= old(circuitOpenUntil)
    {
      if !c.allowed {
        return false;
      }
      if c.check < circuitOpenUntil {
        clock := c.check;
        return false;
      }
      var sleep := WaitRateLimit(c);
      assert c.wake >= c.wait + sleep;
      var managed := GetSession(c);
      ghost var trip: Option<real> := None;
      if c.outcome.Answered? {
        managed.requestCount := managed.requestCount + 1;
      }
      if c.outcome.Answered? || c.outcome.stamped {
        lastRequestAt := c.end;
      }
      if c.outcome == Answered(Blocked) {
        consecutiveBlocks := consecutiveBlocks + 1;
        if profile.threshold != 0 && consecutiveBlocks >= profile.threshold {
          circuitOpenUntil := c.after + profile.cooldown;
          trip := Some(c.after);
        }
      } else if c.outcome == Answered(Passed) {
        consecutiveBlocks := 0;
      }
      clock := c.after;
      log := log + [Get(c.start, c.end, managed.id, managed.createdAt, c.expiry, c.outcome, trip)];
      return true;
    }
  }
}
