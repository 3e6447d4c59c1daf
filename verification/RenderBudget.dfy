/**
 The render budget of src/scheduler.rs: four counters per request (host, origin,
 proxy, session), taken one after the other by compare-and-swap, rolled back when one
 of them is full, and given back one by one when the guard is dropped.

 `Next` is one atomic memory operation of one worker, so `Run` over an arbitrary
 action list is an arbitrary interleaving of arbitrarily many calls and drops.
 */
module RenderBudget {
  import opened Wrappers
  import opened Common

  /** The limits of `BudgetLimits` that `try_acquire` reads. */
  datatype Limits = Limits(perHost: nat, perOrigin: nat, perProxy: nat, perSession: nat)
  {
    function Cap(dim: nat): nat
    {
      if dim == 0 then perHost
      else if dim == 1 then perOrigin
      else if dim == 2 then perProxy
      else perSession
    }
  }

  datatype BudgetKind = Host | Origin | Proxy | Session

  function Kind(dim: nat): BudgetKind
    requires dim < 4
  {
    if dim == 0 then Host else if dim == 1 then Origin else if dim == 2 then Proxy else Session
  }

  /** The arguments of one `try_acquire` call. */
  datatype Keys = Keys(host: string, origin: string, proxy: Option<string>, session: string)

  /** One atomic counter: the dimension's map and the key in it. */
  datatype Slot = Slot(dim: nat, key: string)

  function SlotOf(keys: Keys, dim: nat): Slot
  {
    Slot(dim,
         if dim == 0 then keys.host
         else if dim == 1 then keys.origin
         else if dim == 2 then (match keys.proxy case Some(u) => u case None => "_direct_")
         else keys.session)
  }

  /** Where a worker stands between two atomic operations. */
  datatype Pc =
    | Idle
    | Loading(keys: Keys, dim: nat)              // `try_bump` of `dim`, before its load
    | Bumping(keys: Keys, dim: nat, cur: nat)    // head of the compare-and-swap loop
    | Undoing(keys: Keys, dim: nat, next: nat)   // `dim` refused, `next` to be undone
    | Counting(keys: Keys, dim: nat)             // `dim` refused, about to count it
    | Holding(keys: Keys)                        // the caller owns a guard
    | Dropping(keys: Keys, next: nat)            // inside `drop`, `next` to be given back

  datatype State = State(counters: map<Slot, nat>, rejections: map<nat, nat>, workers: map<nat, Pc>)

  datatype Action =
    | Acquire(worker: nat, keys: Keys)
    | Step(worker: nat, spurious: bool)
    | Release(worker: nat)

  const USIZE: nat := 0x1_0000_0000_0000_0000

  /** `fetch_sub(1)` on an `AtomicUsize`, which wraps at zero. */
  function FetchSub(value: nat): nat
  {
    if value == 0 then USIZE - 1 else value - 1
  }

  function Read<K>(m: map<K, nat>, k: K): nat
  {
    if k in m then m[k] else 0
  }

  function PcOf(st: State, w: nat): Pc
  {
    if w in st.workers then st.workers[w] else Idle
  }

  /** The counters `try_acquire` looks up exist afterwards, with 0 when they were missing. */
  function Lookup(counters: map<Slot, nat>, keys: Keys): map<Slot, nat>
  {
    map[SlotOf(keys, 0) := 0, SlotOf(keys, 1) := 0, SlotOf(keys, 2) := 0, SlotOf(keys, 3) := 0] + counters
  }

  const INITIAL: State := State(map[], map[], map[])

  function Next(l: Limits, st: State, a: Action): State
  {
    match a
    case Acquire(w, keys) =>
      if PcOf(st, w) != Idle then st
      else st.(counters := Lookup(st.counters, keys), workers := st.workers[w := Loading(keys, 0)])
    case Release(w) =>
      if !PcOf(st, w).Holding? then st
      else st.(workers := st.workers[w := Dropping(PcOf(st, w).keys, 0)])
    case Step(w, spurious) => Advance(l, st, w, spurious)
  }

  /** The counter the next operation of a busy worker touches. */
  function Target(pc: Pc): Slot
    requires pc.Loading? || pc.Bumping? || pc.Undoing? || pc.Dropping?
  {
    match pc
    case Loading(k, d) => SlotOf(k, d)
    case Bumping(k, d, _) => SlotOf(k, d)
    case Undoing(k, _, n) => SlotOf(k, n)
    case Dropping(k, n) => SlotOf(k, n)
  }

  /** One operation on the target counter, which reads `actual`: the new counter and program point. */
  function Operate(l: Limits, pc: Pc, actual: nat, spurious: bool): (nat, Pc)
    requires pc.Loading? || pc.Bumping? || pc.Undoing? || pc.Dropping?
  {
    match pc
    case Loading(k, d) => (actual, Bumping(k, d, actual))
    case Bumping(k, d, cur) =>
      if cur >= l.Cap(d) then (actual, if d == 0 then Counting(k, 0) else Undoing(k, d, 0))
      else if actual == cur && !spurious then (cur + 1, if d == 3 then Holding(k) else Loading(k, d + 1))
      else (actual, Bumping(k, d, actual))
    case Undoing(k, d, n) => (FetchSub(actual), if n + 1 == d then Counting(k, d) else Undoing(k, d, n + 1))
    case Dropping(k, n) => (FetchSub(actual), if n == 3 then Idle else Dropping(k, n + 1))
  }

  function Advance(l: Limits, st: State, w: nat, spurious: bool): State
  {
    match PcOf(st, w)
    case Idle => st
    case Holding(_) => st
    case Counting(k, d) =>
      st.(rejections := st.rejections[d := Read(st.rejections, d) + 1], workers := st.workers[w := Idle])
    case pc =>
      var s := Target(pc);
      var (value, after) := Operate(l, pc, Read(st.counters, s), spurious);
      st.(counters := st.counters[s := value], workers := st.workers[w := after])
  }

  function Run(l: Limits, st: State, acts: seq<Action>): State
    decreases |acts|
  {
    if acts == [] then st
    else Next(l, Run(l, st, acts[..|acts| - 1]), acts[|acts| - 1])
  }

  // ----- who holds what -----

  /** Slots bumped and not yet given back at this point of the code. */
  predicate Holds(pc: Pc, s: Slot)
  {
    match pc
    case Idle => false
    case Counting(_, _) => false
    case Loading(k, d) => s.dim < d && s == SlotOf(k, s.dim)
    case Bumping(k, d, _) => s.dim < d && s == SlotOf(k, s.dim)
    case Undoing(k, d, n) => n <= s.dim < d && s == SlotOf(k, s.dim)
    case Holding(k) => s.dim < 4 && s == SlotOf(k, s.dim)
    case Dropping(k, n) => n <= s.dim < 4 && s == SlotOf(k, s.dim)
  }

  function Holders(workers: map<nat, Pc>, s: Slot): set<nat>
  {
    set w | w in workers && Holds(workers[w], s)
  }

  predicate PcOk(pc: Pc)
  {
    match pc
    case Idle => true
    case Holding(_) => true
    case Loading(_, d) => d < 4
    case Bumping(_, d, _) => d < 4
    case Undoing(_, d, n) => n < d < 4
    case Counting(_, d) => d < 4
    case Dropping(_, n) => n < 4
  }

  ghost predicate Inv(l: Limits, st: State)
  {
    && (forall w :: w in st.workers ==> PcOk(st.workers[w]))
    && (forall s :: Read(st.counters, s) == |Holders(st.workers, s)|)
    && (forall s :: Read(st.counters, s) <= l.Cap(s.dim))
  }

  lemma HoldersAfter(workers: map<nat, Pc>, w: nat, pc: Pc, s: Slot)
    ensures var before := w in workers && Holds(workers[w], s);
            |Holders(workers[w := pc], s)| ==
            |Holders(workers, s)| - (if before then 1 else 0) + (if Holds(pc, s) then 1 else 0)
  {
    var old_ := Holders(workers, s);
    var rest := old_ - {w};
    var new_ := Holders(workers[w := pc], s);
    assert new_ == if Holds(pc, s) then rest + {w} else rest;
    assert old_ == if w in workers && Holds(workers[w], s) then rest + {w} else rest;
  }

  /** An operation moves its counter exactly as far as it moves what the worker holds. */
  lemma OperateMovesTogether(l: Limits, pc: Pc, actual: nat, spurious: bool, s: Slot)
    requires pc.Loading? || pc.Bumping? || pc.Undoing? || pc.Dropping?
    requires PcOk(pc) && (Holds(pc, Target(pc)) ==> actual > 0)
    ensures var (value, after) := Operate(l, pc, actual, spurious);
            && PcOk(after)
            && (s == Target(pc) ==> value - actual == Bit(Holds(after, s)) - Bit(Holds(pc, s)))
            && (s != Target(pc) ==> Holds(after, s) == Holds(pc, s))
            && (value <= actual || value <= l.Cap(Target(pc).dim))
  {
  }

  lemma AdvanceMovesTogether(l: Limits, st: State, w: nat, spurious: bool, s: Slot)
    requires Inv(l, st) && w in st.workers
    ensures var st' := Advance(l, st, w, spurious);
            && w in st'.workers && PcOk(st'.workers[w])
            && Read(st'.counters, s) == |Holders(st'.workers, s)| <= l.Cap(s.dim)
  {
    var pc := st.workers[w];
    var st' := Advance(l, st, w, spurious);
    assert Read(st.counters, s) == |Holders(st.workers, s)| <= l.Cap(s.dim);
    if st' != st {
      HoldersAfter(st.workers, w, st'.workers[w], s);
      if !pc.Counting? {
        var t := Target(pc);
        assert Read(st.counters, t) == |Holders(st.workers, t)|;
        if Holds(pc, t) {
          assert w in Holders(st.workers, t);
        }
        OperateMovesTogether(l, pc, Read(st.counters, t), spurious, s);
      }
    }
  }

  lemma AdvanceKeepsInv(l: Limits, st: State, w: nat, spurious: bool)
    requires Inv(l, st)
    ensures Inv(l, Advance(l, st, w, spurious))
  {
    if w in st.workers {
      forall s
        ensures var st' := Advance(l, st, w, spurious);
                Read(st'.counters, s) == |Holders(st'.workers, s)| <= l.Cap(s.dim)
      {
        AdvanceMovesTogether(l, st, w, spurious, s);
      }
      AdvanceMovesTogether(l, st, w, spurious, Slot(0, ""));
    }
  }

  lemma NextKeepsInv(l: Limits, st: State, a: Action)
    requires Inv(l, st)
    ensures Inv(l, Next(l, st, a))
  {
    var st' := Next(l, st, a);
    if a.Step? {
      AdvanceKeepsInv(l, st, a.worker, a.spurious);
    } else if st' != st {
      forall s
        ensures Read(st'.counters, s) == |Holders(st'.workers, s)| <= l.Cap(s.dim)
      {
        HoldersAfter(st.workers, a.worker, st'.workers[a.worker], s);
        assert Read(st.counters, s) == |Holders(st.workers, s)| <= l.Cap(s.dim);
      }
    }
  }

  /** Every interleaving keeps every counter equal to the number of workers holding its slot. */
  lemma {:induction false} RunKeepsInv(l: Limits, st: State, acts: seq<Action>)
    requires Inv(l, st)
    ensures Inv(l, Run(l, st, acts))
    decreases |acts|
  {
    if acts == [] {
    } else {
      RunKeepsInv(l, st, acts[..|acts| - 1]);
      NextKeepsInv(l, Run(l, st, acts[..|acts| - 1]), acts[|acts| - 1]);
    }
  }

  lemma InitialInv(l: Limits)
    ensures Inv(l, INITIAL)
  {
    forall s ensures Holders(INITIAL.workers, s) == {} {}
  }

  lemma CountersEqualHolders(l: Limits, acts: seq<Action>, s: Slot)
    ensures var st := Run(l, INITIAL, acts);
            Read(st.counters, s) == |Holders(st.workers, s)| <= l.Cap(s.dim)
  {
    InitialInv(l);
    RunKeepsInv(l, INITIAL, acts);
  }

  /** `undo` and `drop` never meet a zero counter, so their `fetch_sub` never wraps. */
  lemma GiveBackNeverWraps(l: Limits, acts: seq<Action>, w: nat)
    ensures var st := Run(l, INITIAL, acts);
            var pc := PcOf(st, w);
            pc.Undoing? || pc.Dropping? ==> Read(st.counters, Target(pc)) > 0
  {
    InitialInv(l);
    RunKeepsInv(l, INITIAL, acts);
    var st := Run(l, INITIAL, acts);
    var pc := PcOf(st, w);
    if pc.Undoing? || pc.Dropping? {
      assert w in Holders(st.workers, Target(pc));
      assert Read(st.counters, Target(pc)) == |Holders(st.workers, Target(pc))|;
    }
  }

  // ----- nothing in flight: counters are the live guards -----

  ghost predicate Settled(st: State)
  {
    forall w :: w in st.workers ==> st.workers[w].Idle? || st.workers[w].Holding?
  }

  /** Live guards on one counter. */
  function Guards(workers: map<nat, Pc>, s: Slot): set<nat>
  {
    set w | w in workers && workers[w].Holding? && s.dim < 4 && s == SlotOf(workers[w].keys, s.dim)
  }

  lemma GuardsHold(workers: map<nat, Pc>, s: Slot)
    ensures Guards(workers, s) <= Holders(workers, s)
    ensures |Guards(workers, s)| <= |Holders(workers, s)|
    ensures |Guards(workers, s)| == |Holders(workers, s)| <==> Guards(workers, s) == Holders(workers, s)
  {
    var rest := Holders(workers, s) - Guards(workers, s);
    assert Holders(workers, s) == Guards(workers, s) + rest;
  }

  /** With no call and no drop under way, `inflight` reports the live guards and nothing else. */
  lemma SettledCountersAreGuards(l: Limits, acts: seq<Action>, s: Slot)
    requires Settled(Run(l, INITIAL, acts))
    ensures var st := Run(l, INITIAL, acts); Read(st.counters, s) == |Guards(st.workers, s)|
  {
    CountersEqualHolders(l, acts, s);
    var st := Run(l, INITIAL, acts);
    assert Holders(st.workers, s) == Guards(st.workers, s);
  }

  /** The same by name: in every interleaving each of the four counters stays within its own limit. */
  lemma CountersWithinLimits(l: Limits, acts: seq<Action>, key: string)
    ensures var counters := Run(l, INITIAL, acts).counters;
            && Read(counters, Slot(0, key)) <= l.perHost
            && Read(counters, Slot(1, key)) <= l.perOrigin
            && Read(counters, Slot(2, key)) <= l.perProxy
            && Read(counters, Slot(3, key)) <= l.perSession
  {
    hide Run, Read, Holders;
    CountersEqualHolders(l, acts, Slot(0, key));
    CountersEqualHolders(l, acts, Slot(1, key));
    CountersEqualHolders(l, acts, Slot(2, key));
    CountersEqualHolders(l, acts, Slot(3, key));
  }

  lemma GuardsWithin(l: Limits, acts: seq<Action>, s: Slot, some: set<nat>)
    requires some <= Guards(Run(l, INITIAL, acts).workers, s)
    ensures |some| <= l.Cap(s.dim)
  {
    hide Run;
    var workers := Run(l, INITIAL, acts).workers;
    CountersEqualHolders(l, acts, s);
    var rest := Holders(workers, s) - some;
    assert Holders(workers, s) == some + rest;
  }

  /** And what the limits are for: in every interleaving the live guards of one host, of one origin, of one proxy (or
      of none) and of one session are at most as many as the limit of that name. */
  lemma GuardsWithinLimits(l: Limits, acts: seq<Action>, some: set<nat>, k: Keys)
    requires forall w | w in some :: PcOf(Run(l, INITIAL, acts), w).Holding?
    ensures var st := Run(l, INITIAL, acts);
            && ((forall w | w in some :: PcOf(st, w).keys.host == k.host) ==> |some| <= l.perHost)
            && ((forall w | w in some :: PcOf(st, w).keys.origin == k.origin) ==> |some| <= l.perOrigin)
            && ((forall w | w in some :: PcOf(st, w).keys.proxy == k.proxy) ==> |some| <= l.perProxy)
            && ((forall w | w in some :: PcOf(st, w).keys.session == k.session) ==> |some| <= l.perSession)
  {
    hide Run;
    var st := Run(l, INITIAL, acts);
    if forall w | w in some :: PcOf(st, w).keys.host == k.host {
      GuardsWithin(l, acts, Slot(0, k.host), some);
    }
    if forall w | w in some :: PcOf(st, w).keys.origin == k.origin {
      GuardsWithin(l, acts, Slot(1, k.origin), some);
    }
    if forall w | w in some :: PcOf(st, w).keys.proxy == k.proxy {
      GuardsWithin(l, acts, SlotOf(k, 2), some);
    }
    if forall w | w in some :: PcOf(st, w).keys.session == k.session {
      GuardsWithin(l, acts, Slot(3, k.session), some);
    }
  }

  // ----- why a call is refused -----

  predicate AtLoop(st: State, w: nat, k: Keys, d: nat, cur: nat)
  {
    PcOf(st, w) == Bumping(k, d, cur)
  }

  /** The instant `j` is the one after the worker's latest operation. */
  ghost predicate LatestStep(acts: seq<Action>, w: nat, j: nat)
  {
    && 0 < j <= |acts| && acts[j - 1].Step? && acts[j - 1].worker == w
    && forall m | j <= m < |acts| :: !(acts[m].Step? && acts[m].worker == w)
  }

  /** The value a compare-and-swap loop works with was the counter's value at the worker's latest operation,
      and the worker has been at that loop head ever since. */
  lemma {:induction false} LoopValueWasRead(l: Limits, acts: seq<Action>, w: nat, k: Keys, d: nat, cur: nat)
    returns (j: nat)
    requires AtLoop(Run(l, INITIAL, acts), w, k, d, cur)
    ensures LatestStep(acts, w, j)
    ensures Read(Run(l, INITIAL, acts[..j]).counters, SlotOf(k, d)) == cur
    ensures forall m | j <= m <= |acts| :: AtLoop(Run(l, INITIAL, acts[..m]), w, k, d, cur)
    decreases |acts|
  {
    StartsIdle(l, acts, w);
    hide Next, Run;
    var n := |acts| - 1;
    var before, a := Run(l, INITIAL, acts[..n]), acts[n];
    assert acts[..n + 1] == acts;
    OneMoreAction(l, acts);
    LoopReached(l, before, a, w, k, d, cur);
    if a.Step? && a.worker == w {
      j := |acts|;
    } else {
      j := LoopValueWasRead(l, acts[..n], w, k, d, cur);
      assert acts[..n][..j] == acts[..j];
      assert forall m | 0 <= m < n :: acts[..n][m] == acts[m];
      forall m | j <= m <= |acts|
        ensures AtLoop(Run(l, INITIAL, acts[..m]), w, k, d, cur)
      {
        if m <= n {
          assert acts[..n][..m] == acts[..m];
        }
      }
    }
  }

  lemma StartsIdle(l: Limits, acts: seq<Action>, w: nat)
    ensures acts == [] ==> PcOf(Run(l, INITIAL, acts), w).Idle?
  {
  }

  lemma OneMoreAction(l: Limits, acts: seq<Action>)
    requires acts != []
    ensures Run(l, INITIAL, acts) == Next(l, Run(l, INITIAL, acts[..|acts| - 1]), acts[|acts| - 1])
  {
    hide Next;
  }

  /** A worker comes to this loop head by its own step only, which reads the value. */
  lemma LoopReached(l: Limits, st: State, a: Action, w: nat, k: Keys, d: nat, cur: nat)
    requires AtLoop(Next(l, st, a), w, k, d, cur)
    ensures if a.Step? && a.worker == w then Read(Next(l, st, a).counters, SlotOf(k, d)) == cur
            else AtLoop(st, w, k, d, cur)
  {
  }

  /** The worker has been refused in dimension `d` and has yet to undo the earlier ones and count the refusal. */
  predicate RefusedIn(pc: Pc, k: Keys, d: nat)
  {
    pc == Counting(k, d) || (pc.Undoing? && pc.keys == k && pc.dim == d)
  }

  /** When a call is refused: the value that a loop works with was read by the worker's latest operation, at instant `j`
      of this very loop, and its next operation refuses exactly when at that instant the limit of workers held the
      slot. */
  lemma RefusedIffFull(l: Limits, acts: seq<Action>, w: nat, k: Keys, d: nat, cur: nat, spurious: bool)
    returns (j: nat)
    requires AtLoop(Run(l, INITIAL, acts), w, k, d, cur)
    ensures LatestStep(acts, w, j) && Read(Run(l, INITIAL, acts[..j]).counters, SlotOf(k, d)) == cur
    ensures forall m | j <= m <= |acts| :: AtLoop(Run(l, INITIAL, acts[..m]), w, k, d, cur)
    ensures RefusedIn(PcOf(Next(l, Run(l, INITIAL, acts), Step(w, spurious)), w), k, d) <==>
            |Holders(Run(l, INITIAL, acts[..j]).workers, SlotOf(k, d))| == l.Cap(d)
  {
    j := LoopValueWasRead(l, acts, w, k, d, cur);
    CountersEqualHolders(l, acts[..j], SlotOf(k, d));
    RefusesIff(l, Run(l, INITIAL, acts), w, k, d, cur, spurious);
    hide *;
  }

  lemma RefusesIff(l: Limits, st: State, w: nat, k: Keys, d: nat, cur: nat, spurious: bool)
    requires AtLoop(st, w, k, d, cur)
    ensures RefusedIn(PcOf(Next(l, st, Step(w, spurious)), w), k, d) <==> l.Cap(d) <= cur
  {
  }

  /** When it is refused wrongly, with fewer live guards on the slot than its limit at the read: exactly when the slot
      was full there and one of its holders was in the middle of a call or a drop. */
  lemma WronglyRefusedIff(l: Limits, acts: seq<Action>, w: nat, k: Keys, d: nat, cur: nat, spurious: bool)
    returns (j: nat)
    requires AtLoop(Run(l, INITIAL, acts), w, k, d, cur)
    ensures LatestStep(acts, w, j) && Read(Run(l, INITIAL, acts[..j]).counters, SlotOf(k, d)) == cur
    ensures forall m | j <= m <= |acts| :: AtLoop(Run(l, INITIAL, acts[..m]), w, k, d, cur)
    ensures var at, s := Run(l, INITIAL, acts[..j]).workers, SlotOf(k, d);
      RefusedIn(PcOf(Next(l, Run(l, INITIAL, acts), Step(w, spurious)), w), k, d) && |Guards(at, s)| < l.Cap(d) <==>
      |Holders(at, s)| == l.Cap(d) && exists u | u in Holders(at, s) :: !at[u].Holding?
  {
    j := RefusedIffFull(l, acts, w, k, d, cur, spurious);
    FewerGuardsIff(Run(l, INITIAL, acts[..j]).workers, SlotOf(k, d));
    hide *;
  }

  /** Some holder has no guard exactly when there are fewer guards than holders. */
  lemma FewerGuardsIff(workers: map<nat, Pc>, s: Slot)
    ensures |Guards(workers, s)| < |Holders(workers, s)| <==>
            exists u | u in Holders(workers, s) :: !workers[u].Holding?
  {
    GuardsHold(workers, s);
    if forall u | u in Holders(workers, s) :: workers[u].Holding? {
      assert Guards(workers, s) == Holders(workers, s);
    }
  }

  // ----- one call on its own -----

  /** First dimension without room, or 4. */
  function FirstFull(l: Limits, counters: map<Slot, nat>, k: Keys, d: nat): (r: nat)
    requires d <= 4
    ensures d <= r <= 4
    ensures forall i | d <= i < r :: Read(counters, SlotOf(k, i)) < l.Cap(i)
    ensures r < 4 ==> Read(counters, SlotOf(k, r)) >= l.Cap(r)
    decreases 4 - d
  {
    if d == 4 || Read(counters, SlotOf(k, d)) >= l.Cap(d) then d else FirstFull(l, counters, k, d + 1)
  }

  /** The workers' slots added to the counters found by the call: `d` dimensions taken. */
  ghost predicate Taken(before: map<Slot, nat>, now: map<Slot, nat>, pc: Pc)
  {
    forall s :: Read(now, s) == Read(before, s) + Bit(Holds(pc, s))
  }

  /** What a worker knows at its program point, as long as nobody else moves. */
  ghost predicate Knows(l: Limits, before: map<Slot, nat>, k: Keys, pc: Pc)
  {
    var full := FirstFull(l, before, k, 0);
    && PcOk(pc)
    && match pc
       case Loading(k', d) => k' == k && d <= full
       case Bumping(k', d, cur) => k' == k && d <= full && cur == Read(before, SlotOf(k, d))
       case Undoing(k', d, _) => k' == k && d == full
       case Counting(k', d) => k' == k && d == full
       case Holding(k') => k' == k && full == 4
       case Idle => full < 4
       case Dropping(_, _) => false
  }

  ghost predicate AloneAt(l: Limits, before: map<Slot, nat>, k: Keys, now: State, w: nat)
  {
    Knows(l, before, k, PcOf(now, w)) && Taken(before, now.counters, PcOf(now, w))
  }

  lemma KnowsNext(l: Limits, before: map<Slot, nat>, k: Keys, pc: Pc, spurious: bool)
    requires Knows(l, before, k, pc) && (pc.Loading? || pc.Bumping? || pc.Undoing?)
    ensures var actual := Read(before, Target(pc)) + Bit(pc.Undoing?);
            Knows(l, before, k, Operate(l, pc, actual, spurious).1)
  {
  }

  lemma AloneCounters(l: Limits, before: map<Slot, nat>, st: State, w: nat, spurious: bool)
    requires Taken(before, st.counters, PcOf(st, w)) && PcOk(PcOf(st, w))
    requires PcOf(st, w).Loading? || PcOf(st, w).Bumping? || PcOf(st, w).Undoing?
    ensures var st' := Advance(l, st, w, spurious); Taken(before, st'.counters, PcOf(st', w))
  {
    var pc := PcOf(st, w);
    var st' := Advance(l, st, w, spurious);
    forall s
      ensures Read(st'.counters, s) == Read(before, s) + Bit(Holds(PcOf(st', w), s))
    {
      assert Read(st.counters, s) == Read(before, s) + Bit(Holds(pc, s));
      OperateMovesTogether(l, pc, Read(st.counters, Target(pc)), spurious, s);
    }
  }

  lemma AloneStep(l: Limits, before: map<Slot, nat>, k: Keys, st: State, w: nat, spurious: bool)
    requires AloneAt(l, before, k, st, w)
    ensures AloneAt(l, before, k, Advance(l, st, w, spurious), w)
  {
    hide Knows, Operate, SlotOf, FirstFull, Taken, Read;
    var pc := PcOf(st, w);
    KnowsOk(l, before, k, pc);
    if pc.Counting? {
      CountingEnds(l, before, k, pc, PcOf(Advance(l, st, w, spurious), w));
      StillTaken(before, st, Advance(l, st, w, spurious), w);
    } else if pc.Loading? || pc.Bumping? || pc.Undoing? {
      AloneCounters(l, before, st, w, spurious);
      KnowsNext(l, before, k, pc, spurious);
      WhatItReads(before, st, w);
    }
  }

  lemma WhatItReads(before: map<Slot, nat>, st: State, w: nat)
    requires Taken(before, st.counters, PcOf(st, w)) && PcOk(PcOf(st, w))
    requires PcOf(st, w).Loading? || PcOf(st, w).Bumping? || PcOf(st, w).Undoing?
    ensures var pc := PcOf(st, w);
            Read(st.counters, Target(pc)) == Read(before, Target(pc)) + Bit(pc.Undoing?)
  {
    assert Holds(PcOf(st, w), Target(PcOf(st, w))) == PcOf(st, w).Undoing?;
  }

  lemma CountingEnds(l: Limits, before: map<Slot, nat>, k: Keys, pc: Pc, pc': Pc)
    requires Knows(l, before, k, pc) && pc.Counting? && pc'.Idle?
    ensures Knows(l, before, k, pc')
  {
  }

  lemma StillTaken(before: map<Slot, nat>, st: State, st': State, w: nat)
    requires Taken(before, st.counters, PcOf(st, w)) && PcOf(st, w).Counting?
    requires PcOf(st', w).Idle? && st'.counters == st.counters
    ensures Taken(before, st'.counters, PcOf(st', w))
  {
  }

  lemma KnowsOk(l: Limits, before: map<Slot, nat>, k: Keys, pc: Pc)
    requires Knows(l, before, k, pc)
    ensures PcOk(pc) && !pc.Dropping?
  {
  }

  ghost predicate OnlyStepsOf(acts: seq<Action>, w: nat)
  {
    forall i | 0 <= i < |acts| :: acts[i].Step? && acts[i].worker == w
  }

  lemma OthersStand(l: Limits, st: State, a: Action, w: nat)
    requires a.Step? && a.worker == w
    ensures Next(l, st, a) == Advance(l, st, w, a.spurious)
    ensures forall u | u != w :: PcOf(Next(l, st, a), u) == PcOf(st, u)
  {
  }

  lemma {:induction false} AloneRun(l: Limits, before: map<Slot, nat>, k: Keys, st: State, acts: seq<Action>, w: nat)
    requires AloneAt(l, before, k, st, w) && OnlyStepsOf(acts, w)
    ensures AloneAt(l, before, k, Run(l, st, acts), w)
    ensures forall u | u != w :: PcOf(Run(l, st, acts), u) == PcOf(st, u)
    decreases |acts|
  {
    hide Next, Advance, AloneAt, PcOf;
    if acts == [] {
    } else {
      var n := |acts| - 1;
      AloneRun(l, before, k, st, acts[..n], w);
      OthersStand(l, Run(l, st, acts[..n]), acts[n], w);
      AloneStep(l, before, k, Run(l, st, acts[..n]), w, acts[n].spurious);
    }
  }

  /** An uninterrupted call, whatever spurious failures it meets, is all or nothing: once it is over
      it holds a guard iff every dimension had room, and otherwise every counter is as it was. */
  lemma AloneIsAllOrNothing(l: Limits, st: State, w: nat, k: Keys, acts: seq<Action>)
    requires PcOf(st, w).Idle? && OnlyStepsOf(acts, w)
    requires var end := Run(l, Next(l, st, Acquire(w, k)), acts); PcOf(end, w).Idle? || PcOf(end, w).Holding?
    ensures var end := Run(l, Next(l, st, Acquire(w, k)), acts);
            && (PcOf(end, w) == Holding(k) <==>
                forall d | 0 <= d < 4 :: Read(st.counters, SlotOf(k, d)) < l.Cap(d))
            && (PcOf(end, w).Idle? ==> SameCounts(end.counters, st.counters))
            && (PcOf(end, w).Holding? ==> PcOf(end, w).keys == k && Taken(st.counters, end.counters, Holding(k)))
  {
    var begun := Next(l, st, Acquire(w, k));
    assert AloneAt(l, st.counters, k, begun, w);
    AloneRun(l, st.counters, k, begun, acts, w);
  }

  /** So the interleaved protocol run without interruption computes what `TryAcquire` below computes. */
  lemma AloneIsAtomic(l: Limits, st: State, w: nat, k: Keys, acts: seq<Action>)
    requires PcOf(st, w).Idle? && OnlyStepsOf(acts, w)
    requires var end := Run(l, Next(l, st, Acquire(w, k)), acts); PcOf(end, w).Idle? || PcOf(end, w).Holding?
    ensures var end := Run(l, Next(l, st, Acquire(w, k)), acts);
            && (PcOf(end, w).Holding? <==> AtomicAcquire(l, st.counters, k).1.Ok?)
            && SameCounts(end.counters, AtomicAcquire(l, st.counters, k).0)
  {
    hide Run, Next, TakeSlots, FirstFull;
    AloneIsAllOrNothing(l, st, w, k, acts);
    var full := FirstFull(l, st.counters, k, 0);
    assert full == 4 <==> PcOf(Run(l, Next(l, st, Acquire(w, k)), acts), w).Holding?;
  }

  /** The refusals counted so far, as long as nobody else moves: one more for the full dimension at the end. */
  ghost predicate CountedAt(l: Limits, begun: State, k: Keys, now: State, w: nat)
  {
    var full := FirstFull(l, begun.counters, k, 0);
    now.rejections ==
      if PcOf(now, w).Idle? then begun.rejections[full := Read(begun.rejections, full) + 1] else begun.rejections
  }

  lemma WhenCounted(l: Limits, before: map<Slot, nat>, k: Keys, st: State, w: nat, spurious: bool)
    requires AloneAt(l, before, k, st, w)
    ensures var now := PcOf(st, w);
            && (now.Counting? ==> now.dim == FirstFull(l, before, k, 0))
            && (PcOf(Advance(l, st, w, spurious), w).Idle? <==> now.Idle? || now.Counting?)
  {
    hide FirstFull, SlotOf, Holds, Read;
  }

  lemma WhatIsCounted(l: Limits, st: State, w: nat, spurious: bool)
    ensures var now := PcOf(st, w);
            Advance(l, st, w, spurious).rejections ==
              if now.Counting? then st.rejections[now.dim := Read(st.rejections, now.dim) + 1] else st.rejections
  {
    hide Operate, Target;
  }

  lemma CountedStep(l: Limits, begun: State, k: Keys, st: State, w: nat, spurious: bool)
    requires AloneAt(l, begun.counters, k, st, w) && CountedAt(l, begun, k, st, w)
    ensures CountedAt(l, begun, k, Advance(l, st, w, spurious), w)
  {
    hide Advance, AloneAt, FirstFull, PcOf, Read;
    WhenCounted(l, begun.counters, k, st, w, spurious);
    WhatIsCounted(l, st, w, spurious);
  }

  lemma {:induction false} CountedRun(l: Limits, begun: State, k: Keys, st: State, acts: seq<Action>, w: nat)
    requires AloneAt(l, begun.counters, k, st, w) && CountedAt(l, begun, k, st, w) && OnlyStepsOf(acts, w)
    ensures CountedAt(l, begun, k, Run(l, st, acts), w)
    decreases |acts|
  {
    hide Next, Advance, AloneAt, CountedAt, PcOf;
    if acts == [] {
    } else {
      var n := |acts| - 1;
      CountedRun(l, begun, k, st, acts[..n], w);
      AloneRun(l, begun.counters, k, st, acts[..n], w);
      OthersStand(l, Run(l, st, acts[..n]), acts[n], w);
      CountedStep(l, begun, k, Run(l, st, acts[..n]), w, acts[n].spurious);
    }
  }

  /** By name: an uninterrupted call takes one from host, origin, proxy (or "_direct_") and session iff each of them is
      below its own limit; otherwise the first one that is not is counted as the reason and nothing is taken. */
  lemma AloneByName(l: Limits, st: State, w: nat, k: Keys, acts: seq<Action>)
    requires PcOf(st, w).Idle? && OnlyStepsOf(acts, w)
    requires var end := Run(l, Next(l, st, Acquire(w, k)), acts); PcOf(end, w).Idle? || PcOf(end, w).Holding?
    ensures var end := Run(l, Next(l, st, Acquire(w, k)), acts);
            var host, origin, session := Slot(0, k.host), Slot(1, k.origin), Slot(3, k.session);
            var proxy := Slot(2, match k.proxy case Some(url) => url case None => "_direct_");
            if Read(st.counters, host) >= l.perHost then Refused(st, end, w, 0)
            else if Read(st.counters, origin) >= l.perOrigin then Refused(st, end, w, 1)
            else if Read(st.counters, proxy) >= l.perProxy then Refused(st, end, w, 2)
            else if Read(st.counters, session) >= l.perSession then Refused(st, end, w, 3)
            else
              && PcOf(end, w) == Holding(k) && end.rejections == st.rejections
              && forall s :: Read(end.counters, s) == Read(st.counters, s) + Bit(s in {host, origin, proxy, session})
  {
    hide Run, Next, FirstFull, Read, SlotOf, PcOf, Taken, SameCounts, OnlyStepsOf;
    AloneIsAllOrNothing(l, st, w, k, acts);
    CountedFrom(l, st, w, k, acts);
    FirstFullByName(l, st.counters, k);
    AloneEnds(l, st, Run(l, Next(l, st, Acquire(w, k)), acts), w, k);
  }

  /** What `AloneIsAllOrNothing` and `CountedFrom` say, put by the first full dimension. */
  lemma AloneEnds(l: Limits, st: State, end: State, w: nat, k: Keys)
    requires PcOf(end, w).Idle? || PcOf(end, w).Holding?
    requires PcOf(end, w) == Holding(k) <==> forall d | 0 <= d < 4 :: Read(st.counters, SlotOf(k, d)) < l.Cap(d)
    requires PcOf(end, w).Idle? ==> SameCounts(end.counters, st.counters)
    requires PcOf(end, w).Holding? ==> PcOf(end, w).keys == k && Taken(st.counters, end.counters, Holding(k))
    ensures var full := FirstFull(l, st.counters, k, 0);
            && (full == 4 ==> PcOf(end, w) == Holding(k))
            && (full < 4 ==> PcOf(end, w).Idle?)
            && (full == 4 ==>
                  forall s :: Read(end.counters, s) == Read(st.counters, s) + Bit(s.dim < 4 && s == SlotOf(k, s.dim)))
            && (full < 4 ==> forall s :: Read(end.counters, s) == Read(st.counters, s))
  {
    hide FirstFull, Read, SlotOf;
  }

  /** A call that ended without a guard, took nothing and was counted in dimension `d`. */
  ghost predicate Refused(st: State, end: State, w: nat, d: nat)
  {
    PcOf(end, w).Idle? && OnlyCounted(st.counters, st.rejections, end.counters, end.rejections, d)
  }

  lemma CountedFrom(l: Limits, st: State, w: nat, k: Keys, acts: seq<Action>)
    requires PcOf(st, w).Idle? && OnlyStepsOf(acts, w)
    ensures var full := FirstFull(l, st.counters, k, 0);
            var end := Run(l, Next(l, st, Acquire(w, k)), acts);
            end.rejections ==
              if PcOf(end, w).Idle? then st.rejections[full := Read(st.rejections, full) + 1] else st.rejections
  {
    hide *;
    var begun := Next(l, st, Acquire(w, k));
    Begun(l, st, w, k);
    CountedRun(l, begun, k, begun, acts, w);
    CountedMeans(l, begun, k, Run(l, begun, acts), w);
  }

  lemma CountedMeans(l: Limits, begun: State, k: Keys, now: State, w: nat)
    ensures CountedAt(l, begun, k, now, w) <==>
            var full := FirstFull(l, begun.counters, k, 0);
            now.rejections ==
              if PcOf(now, w).Idle? then begun.rejections[full := Read(begun.rejections, full) + 1]
              else begun.rejections
  {
  }

  lemma Begun(l: Limits, st: State, w: nat, k: Keys)
    requires PcOf(st, w).Idle?
    ensures var begun := Next(l, st, Acquire(w, k));
            && AloneAt(l, begun.counters, k, begun, w) && CountedAt(l, begun, k, begun, w)
            && begun.rejections == st.rejections
            && FirstFull(l, begun.counters, k, 0) == FirstFull(l, st.counters, k, 0)
  {
    var begun := Next(l, st, Acquire(w, k));
    assert PcOf(begun, w) == Loading(k, 0);
    hide FirstFull;
    SameFirstFull(l, st.counters, begun.counters, k);
  }

  lemma SameFirstFull(l: Limits, a: map<Slot, nat>, b: map<Slot, nat>, k: Keys)
    requires forall s :: Read(a, s) == Read(b, s)
    ensures FirstFull(l, a, k, 0) == FirstFull(l, b, k, 0)
  {
    var i, j := FirstFull(l, a, k, 0), FirstFull(l, b, k, 0);
    assert i < 4 ==> Read(b, SlotOf(k, i)) >= l.Cap(i);
    assert j < 4 ==> Read(a, SlotOf(k, j)) >= l.Cap(j);
  }

  lemma FirstFullByName(l: Limits, counters: map<Slot, nat>, k: Keys)
    ensures FirstFull(l, counters, k, 0) ==
            if Read(counters, Slot(0, k.host)) >= l.perHost then 0
            else if Read(counters, Slot(1, k.origin)) >= l.perOrigin then 1
            else if Read(counters, Slot(2, match k.proxy case Some(url) => url case None => "_direct_")) >= l.perProxy
                 then 2
            else if Read(counters, Slot(3, k.session)) >= l.perSession then 3
            else 4
    ensures SlotOf(k, 0) == Slot(0, k.host) && SlotOf(k, 1) == Slot(1, k.origin) && SlotOf(k, 3) == Slot(3, k.session)
    ensures SlotOf(k, 2) == Slot(2, match k.proxy case Some(url) => url case None => "_direct_")
  {
  }

  /** Consequence for the whole system: starting when nothing else is under way, an uninterrupted call
      succeeds exactly when each of its four slots has fewer live guards than its limit. */
  lemma AloneDecidesByGuards(l: Limits, hist: seq<Action>, w: nat, k: Keys, acts: seq<Action>)
    requires Settled(Run(l, INITIAL, hist)) && PcOf(Run(l, INITIAL, hist), w).Idle? && OnlyStepsOf(acts, w)
    requires var end := Run(l, Next(l, Run(l, INITIAL, hist), Acquire(w, k)), acts);
             PcOf(end, w).Idle? || PcOf(end, w).Holding?
    ensures var st := Run(l, INITIAL, hist);
            PcOf(Run(l, Next(l, st, Acquire(w, k)), acts), w) == Holding(k) <==>
            forall d | 0 <= d < 4 :: |Guards(st.workers, SlotOf(k, d))| < l.Cap(d)
  {
    var st := Run(l, INITIAL, hist);
    AloneIsAllOrNothing(l, st, w, k, acts);
    forall d | 0 <= d < 4
      ensures Read(st.counters, SlotOf(k, d)) == |Guards(st.workers, SlotOf(k, d))|
    {
      SettledCountersAreGuards(l, hist, SlotOf(k, d));
    }
  }

  lemma {:induction false} RunConcat(l: Limits, st: State, a: seq<Action>, b: seq<Action>)
    ensures Run(l, st, a + b) == Run(l, Run(l, st, a), b)
    decreases |b|
  {
    if b == [] {
      assert a + b == a;
    } else {
      var n := |b| - 1;
      RunConcat(l, st, a, b[..n]);
      assert (a + b)[..|a + b| - 1] == a + b[..n];
    }
  }

  /** Load and compare-and-swap without interference. */
  function BumpOnce(w: nat): seq<Action>
  {
    [Step(w, false), Step(w, false)]
  }

  lemma BumpOnceDoes(l: Limits, st: State, w: nat, k: Keys, d: nat)
    requires PcOf(st, w) == Loading(k, d) && d < 4
    ensures var st' := Run(l, st, BumpOnce(w));
            var v := Read(st.counters, SlotOf(k, d));
            && (v < l.Cap(d) ==>
                && PcOf(st', w) == (if d == 3 then Holding(k) else Loading(k, d + 1))
                && Read(st'.counters, SlotOf(k, d)) == v + 1)
            && (v >= l.Cap(d) ==> PcOf(st', w) == if d == 0 then Counting(k, 0) else Undoing(k, d, 0))
            && (forall s | s != SlotOf(k, d) :: Read(st'.counters, s) == Read(st.counters, s))
            && (forall u | u != w :: PcOf(st', u) == PcOf(st, u))
  {
    var acts := BumpOnce(w);
    assert acts[..1] == [Step(w, false)] && acts[..1][..0] == [];
    assert Run(l, st, acts[..1]) == Advance(l, st, w, false);
  }

  /** A first worker gets its guard. */
  lemma OneGuard(l: Limits, a: Keys) returns (st: State, acts: seq<Action>)
    requires forall d | 0 <= d < 4 :: 0 < l.Cap(d)
    ensures st == Run(l, INITIAL, acts) && PcOf(st, 0) == Holding(a)
    ensures forall u | u != 0 :: PcOf(st, u) == Idle
    ensures forall s :: Read(st.counters, s) == Bit(s.dim < 4 && s == SlotOf(a, s.dim))
  {
    st := Next(l, INITIAL, Acquire(0, a));
    acts := [Acquire(0, a)];
    assert acts[..0] == [];
    for d := 0 to 4
      invariant st == Run(l, INITIAL, acts)
      invariant PcOf(st, 0) == if d == 4 then Holding(a) else Loading(a, d)
      invariant forall u | u != 0 :: PcOf(st, u) == Idle
      invariant forall s :: Read(st.counters, s) == Bit(s.dim < d && s == SlotOf(a, s.dim))
    {
      st, acts := BumpAgain(l, st, acts, a, d);
    }
  }

  lemma BumpAgain(l: Limits, st: State, acts: seq<Action>, a: Keys, d: nat) returns (st': State, acts': seq<Action>)
    requires st == Run(l, INITIAL, acts) && d < 4 && PcOf(st, 0) == Loading(a, d)
    requires Read(st.counters, SlotOf(a, d)) == 0 < l.Cap(d)
    ensures st' == Run(l, INITIAL, acts') && PcOf(st', 0) == if d == 3 then Holding(a) else Loading(a, d + 1)
    ensures forall u | u != 0 :: PcOf(st', u) == PcOf(st, u)
    ensures forall s :: Read(st'.counters, s) == if s == SlotOf(a, d) then 1 else Read(st.counters, s)
  {
    BumpOnceDoes(l, st, 0, a, d);
    RunConcat(l, INITIAL, acts, BumpOnce(0));
    st', acts' := Run(l, st, BumpOnce(0)), acts + BumpOnce(0);
  }

  /** Under interleaving the same is false: a half-finished call of somebody else, doomed to be rolled
      back, refuses a call although all four of its slots are free of guards. */
  lemma RefusedByAHalfFinishedCall() returns (l: Limits, acts: seq<Action>, k: Keys)
    ensures var st := Run(l, INITIAL, acts);
            && PcOf(st, 2) == Counting(k, 0)
            && (forall d | 0 <= d < 4 :: Guards(st.workers, SlotOf(k, d)) == {} && 0 < l.Cap(d))
  {
    l := Limits(1, 1, 1, 1);
    var a, b := Keys("a", "o", Some("p1"), "s1"), Keys("h", "o", Some("p2"), "s2");
    k := Keys("h", "x", Some("p3"), "s3");
    var st;
    st, acts := OneGuard(l, a);
    st, acts := ActThenBump(l, st, acts, 1, b);
    st, acts := ActThenBump(l, st, acts, 2, k);
    forall d | 0 <= d < 4
      ensures Guards(st.workers, SlotOf(k, d)) == {}
    {
      forall w | w in st.workers && st.workers[w].Holding?
        ensures SlotOf(st.workers[w].keys, d) != SlotOf(k, d)
      {
        assert PcOf(st, w) == Holding(a);
      }
    }
  }

  lemma ActThenBump(l: Limits, st: State, acts: seq<Action>, w: nat, k: Keys) returns (st': State, acts': seq<Action>)
    requires st == Run(l, INITIAL, acts) && PcOf(st, w).Idle?
    ensures st' == Run(l, INITIAL, acts')
    ensures Read(st.counters, SlotOf(k, 0)) < l.Cap(0) ==>
              PcOf(st', w) == Loading(k, 1) && Read(st'.counters, SlotOf(k, 0)) == Read(st.counters, SlotOf(k, 0)) + 1
    ensures Read(st.counters, SlotOf(k, 0)) >= l.Cap(0) ==> PcOf(st', w) == Counting(k, 0)
    ensures forall u | u != w :: PcOf(st', u) == PcOf(st, u)
  {
    var begun := Next(l, st, Acquire(w, k));
    assert (acts + [Acquire(w, k)])[..|acts|] == acts;
    BumpOnceDoes(l, begun, w, k, 0);
    acts' := acts + [Acquire(w, k)] + BumpOnce(w);
    RunConcat(l, INITIAL, acts + [Acquire(w, k)], BumpOnce(w));
    st' := Run(l, begun, BumpOnce(w));
  }

  // ----- the object as one thread uses it -----

  /** What a call does when nobody interferes: everything, or nothing and the first full dimension. */
  function AtomicAcquire(l: Limits, counters: map<Slot, nat>, k: Keys): (r: (map<Slot, nat>, Result<Keys, BudgetKind>))
  {
    var full := FirstFull(l, counters, k, 0);
    if full < 4 then (counters, Err(Kind(full))) else (TakeSlots(counters, k, 4), Ok(k))
  }

  function TakeSlots(counters: map<Slot, nat>, k: Keys, n: nat): (r: map<Slot, nat>)
    requires n <= 4
    ensures forall s :: Read(r, s) == Read(counters, s) + Bit(s.dim < n && s == SlotOf(k, s.dim))
  {
    if n == 0 then counters
    else
      var m := TakeSlots(counters, k, n - 1);
      m[SlotOf(k, n - 1) := Read(m, SlotOf(k, n - 1)) + 1]
  }

  ghost predicate SameCounts(a: map<Slot, nat>, b: map<Slot, nat>)
  {
    forall s :: Read(a, s) == Read(b, s)
  }

  /** The dimensions from `from` below `to` have been taken since `before`, and nothing else changed. */
  ghost predicate Between(before: map<Slot, nat>, now: map<Slot, nat>, k: Keys, from: nat, to: nat)
  {
    forall s :: Read(now, s) == Read(before, s) + Bit(from <= s.dim < to && s == SlotOf(k, s.dim))
  }

  lemma LookedUp(before: map<Slot, nat>, k: Keys)
    ensures Between(before, Lookup(before, k), k, 0, 0)
  {
  }

  lemma Bumped(before: map<Slot, nat>, now: map<Slot, nat>, k: Keys, d: nat)
    requires Between(before, now, k, 0, d)
    ensures Read(now, SlotOf(k, d)) == Read(before, SlotOf(k, d))
    ensures Between(before, now[SlotOf(k, d) := Read(now, SlotOf(k, d)) + 1], k, 0, d + 1)
  {
  }

  lemma GivenBack(before: map<Slot, nat>, now: map<Slot, nat>, k: Keys, n: nat, d: nat)
    requires n < d && Between(before, now, k, n, d)
    ensures Between(before, now[SlotOf(k, n) := FetchSub(Read(now, SlotOf(k, n)))], k, n + 1, d)
  {
    assert Read(now, SlotOf(k, n)) == Read(before, SlotOf(k, n)) + 1;
  }

  /** What the answer of one bump says about the first full dimension. */
  lemma Decided(l: Limits, before: map<Slot, nat>, k: Keys, d: nat, ok: bool)
    requires d < 4 && FirstFull(l, before, k, 0) >= d && (ok <==> Read(before, SlotOf(k, d)) < l.Cap(d))
    ensures if ok then FirstFull(l, before, k, 0) > d
            else FirstFull(l, before, k, 0) == d && AtomicAcquire(l, before, k) == (before, Err(Kind(d)))
  {
  }

  lemma Kinds()
    ensures Kind(0) == Host && Kind(1) == Origin && Kind(2) == Proxy && Kind(3) == Session
  {
  }

  /** A refusal in dimension `d` leaves one trace: it is counted. */
  ghost predicate OnlyCounted(counters0: map<Slot, nat>, rejections0: map<nat, nat>,
                              counters: map<Slot, nat>, rejections: map<nat, nat>, d: nat)
  {
    && rejections == rejections0[d := Read(rejections0, d) + 1]
    && forall s :: Read(counters, s) == Read(counters0, s)
  }

  lemma AllGivenBack(before: map<Slot, nat>, rejected: map<nat, nat>, now: map<Slot, nat>, k: Keys, d: nat)
    requires Between(before, now, k, d, d)
    ensures SameCounts(now, before)
    ensures OnlyCounted(before, rejected, now, rejected[d := Read(rejected, d) + 1], d)
  {
  }

  lemma AllTaken(l: Limits, before: map<Slot, nat>, now: map<Slot, nat>, k: Keys)
    requires Between(before, now, k, 0, 4) && FirstFull(l, before, k, 0) > 3
    ensures AtomicAcquire(l, before, k).1 == Ok(k) && SameCounts(now, AtomicAcquire(l, before, k).0)
    ensures var proxy := Slot(2, match k.proxy case Some(url) => url case None => "_direct_");
            var taken := {Slot(0, k.host), Slot(1, k.origin), proxy, Slot(3, k.session)};
            forall s :: Read(now, s) == Read(before, s) + Bit(s in taken)
  {
  }

  /** `RenderBudgets`: the counters, the refusal counts and the limits. */
  class RenderBudgets {
    const limits: Limits
    var counters: map<Slot, nat>
    var rejections: map<nat, nat>

    constructor (limits: Limits)
      ensures this.limits == limits && counters == map[] && rejections == map[]
    {
      this.limits := limits;
      counters, rejections := map[], map[];
    }

    /** `try_bump`; the weak compare-and-swap fails `spurious` times for no reason before it succeeds. */
    method TryBump(s: Slot, max: nat, spurious: nat) returns (ok: bool)
      modifies this`counters
      ensures ok <==> old(Read(counters, s)) < max
      ensures counters == if ok then old(counters)[s := old(Read(counters, s)) + 1] else old(counters)
    {
      var cur := Read(counters, s);
      var left := spurious;
      while true
        invariant cur == Read(counters, s) && counters == old(counters)
        decreases left
      {
        if cur >= max {
          return false;
        }
        if Read(counters, s) == cur && left == 0 {
          counters := counters[s := cur + 1];
          return true;
        }
        cur := Read(counters, s);
        if left == 0 {
          assert false;
        } else {
          left := left - 1;
        }
      }
    }

    /** `undo`, and one line of `drop`. */
    method GiveBack(s: Slot)
      modifies this`counters
      ensures counters == old(counters)[s := FetchSub(old(Read(counters, s)))]
    {
      counters := counters[s := FetchSub(Read(counters, s))];
    }

    /** Counts a refusal in dimension `d`. */
    method Refuse(d: nat)
      modifies this`rejections
      ensures rejections == old(rejections)[d := old(Read(rejections, d)) + 1]
    {
      rejections := rejections[d := Read(rejections, d) + 1];
    }

    /** `try_acquire`: everything, or the first of the four named dimensions that is at its limit and nothing. */
    method TryAcquire(k: Keys, spurious: nat) returns (r: Result<Keys, BudgetKind>)
      modifies this`counters, this`rejections
      ensures var host, origin, session := Slot(0, k.host), Slot(1, k.origin), Slot(3, k.session);
              var proxy := Slot(2, match k.proxy case Some(url) => url case None => "_direct_");
              if old(Read(counters, host)) >= limits.perHost then
                r == Err(BudgetKind.Host) && OnlyCounted(old(counters), old(rejections), counters, rejections, 0)
              else if old(Read(counters, origin)) >= limits.perOrigin then
                r == Err(BudgetKind.Origin) && OnlyCounted(old(counters), old(rejections), counters, rejections, 1)
              else if old(Read(counters, proxy)) >= limits.perProxy then
                r == Err(BudgetKind.Proxy) && OnlyCounted(old(counters), old(rejections), counters, rejections, 2)
              else if old(Read(counters, session)) >= limits.perSession then
                r == Err(BudgetKind.Session) && OnlyCounted(old(counters), old(rejections), counters, rejections, 3)
              else
                && r == Ok(k) && rejections == old(rejections)
                && forall s :: Read(counters, s) == old(Read(counters, s)) + Bit(s in {host, origin, proxy, session})
      ensures r == AtomicAcquire(limits, old(counters), k).1
      ensures SameCounts(counters, AtomicAcquire(limits, old(counters), k).0)
    {
      hide *;
      ghost var was, wasRejected := counters, rejections;
      FirstFullByName(limits, was, k);
      counters := Lookup(counters, k);
      LookedUp(was, k);
      Kinds();
      // Host
      Bumped(was, counters, k, 0);
      var ok := TryBump(SlotOf(k, 0), limits.Cap(0), spurious);
      Decided(limits, was, k, 0, ok);
      if !ok {
        Refuse(0);
        AllGivenBack(was, wasRejected, counters, k, 0);
        return Err(BudgetKind.Host);
      }
      // Origin
      Bumped(was, counters, k, 1);
      ok := TryBump(SlotOf(k, 1), limits.Cap(1), spurious);
      Decided(limits, was, k, 1, ok);
      if !ok {
        Undo(was, k, 0, 1);
        Refuse(1);
        AllGivenBack(was, wasRejected, counters, k, 1);
        return Err(BudgetKind.Origin);
      }
      // Proxy
      Bumped(was, counters, k, 2);
      ok := TryBump(SlotOf(k, 2), limits.Cap(2), spurious);
      Decided(limits, was, k, 2, ok);
      if !ok {
        Undo(was, k, 0, 2);
        Undo(was, k, 1, 2);
        Refuse(2);
        AllGivenBack(was, wasRejected, counters, k, 2);
        return Err(BudgetKind.Proxy);
      }
      // Session
      Bumped(was, counters, k, 3);
      ok := TryBump(SlotOf(k, 3), limits.Cap(3), spurious);
      Decided(limits, was, k, 3, ok);
      if !ok {
        Undo(was, k, 0, 3);
        Undo(was, k, 1, 3);
        Undo(was, k, 2, 3);
        Refuse(3);
        AllGivenBack(was, wasRejected, counters, k, 3);
        return Err(BudgetKind.Session);
      }
      AllTaken(limits, was, counters, k);
      return Ok(k);
    }

    /** One `undo` on the way back: dimensions from `n` below `d` are still taken. */
    method Undo(ghost was: map<Slot, nat>, k: Keys, n: nat, d: nat)
      requires n < d <= 4 && Between(was, counters, k, n, d)
      modifies this`counters
      ensures Between(was, counters, k, n + 1, d)
    {
      GivenBack(was, counters, k, n, d);
      GiveBack(SlotOf(k, n));
    }

    /** Dropping the guard returned by `TryAcquire`. */
    method DropGuard(k: Keys)
      requires forall d | 0 <= d < 4 :: Read(counters, SlotOf(k, d)) > 0
      modifies this`counters
      ensures SameCounts(old(counters), TakeSlots(counters, k, 4))
    {
      GiveBack(SlotOf(k, 0));
      GiveBack(SlotOf(k, 1));
      GiveBack(SlotOf(k, 2));
      GiveBack(SlotOf(k, 3));
    }
  }
}
