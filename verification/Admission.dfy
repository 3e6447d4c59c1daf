/**
 Frontier admission of src/crawler.rs (probe, `push_unique`, `mark_seen`) and the edges
 of src/discovery/graph.rs, run by any number of workers at once.

 `Next` is one locked operation of one worker. A worker may be cancelled anywhere except
 inside `push_unique`, whose two locked sections have no suspension point between them.
 */
module Admission {
  import opened Wrappers
  import opened CrawlQueue

  type Url = string
  type Edge = (Url, Url)

  datatype Pc =
    | Idle
    | Probing(from: Option<Url>, to: Url)
    | Claiming(from: Option<Url>, to: Url)                   // not recently seen: key not yet tried
    | Queuing(from: Option<Url>, to: Url)                    // key inserted, job not yet in the heap
    | Marking(from: Option<Url>, to: Url, inserted: bool)
    | Linking(from: Option<Url>, to: Url)                    // answer was `Inserted`: edge to be recorded

  /** `order` is the queue's set of keys, listed by time of insertion; `jobs` the URL of every job ever
      admitted; `started` the jobs popped so far. */
  datatype State = State(
    recent: set<Key>, order: seq<Key>, jobs: seq<Url>, started: set<nat>,
    edges: map<Edge, nat>, workers: map<nat, Pc>)

  datatype Action =
    | Seed(worker: nat, to: Url)
    | StartJob(job: nat)                                     // some loop pops jobs[job]
    | Discover(worker: nat, job: nat, to: Url)               // a link found on the page of a started job
    | Step(worker: nat, full: bool)                          // `full`: the recent set is at its cap
    | Cancel(worker: nat)

  /** What one operation does to the shared state. */
  datatype Effect =
    | Nothing
    | Claim(key: Key)                     // first half of `push_unique`
    | Push(url: Url)                      // second half
    | Remember(key: Key, full: bool)      // `mark_seen`; a full recent set is cleared first
    | Link(edge: Edge)                    // `add_edge`

  const INITIAL: State := State({}, [], [], {}, map[], map[])

  function PcOf(st: State, w: nat): Pc
  {
    if w in st.workers then st.workers[w] else Idle
  }

  function Operation(canon: Url -> Key, st: State, pc: Pc, full: bool): (Pc, Effect)
  {
    match pc
    case Idle => (Idle, Nothing)
    case Probing(from, to) => (if canon(to) in st.recent then Idle else Claiming(from, to), Nothing)
    case Claiming(from, to) =>
      if canon(to) in st.order then (Marking(from, to, false), Nothing)
      else (Queuing(from, to), Claim(canon(to)))
    case Queuing(from, to) => (Marking(from, to, true), Push(to))
    case Marking(from, to, inserted) =>
      (if inserted && from.Some? then Linking(from, to) else Idle, Remember(canon(to), full))
    case Linking(from, to) => (Idle, if from.Some? then Link((from.value, to)) else Nothing)
  }

  function Apply(st: State, e: Effect): State
  {
    match e
    case Nothing => st
    case Claim(k) => st.(order := st.order + [k])
    case Push(url) => st.(jobs := st.jobs + [url])
    case Remember(k, full) => st.(recent := (if full then {} else st.recent) + {k})
    case Link(edge) => st.(edges := st.edges[edge := (if edge in st.edges then st.edges[edge] else 0) + 1])
  }

  /** The worker that acts, where it goes, and what it does. */
  function Choose(canon: Url -> Key, st: State, a: Action): (nat, Pc, Effect)
    requires !a.StartJob?
  {
    var pc := PcOf(st, a.worker);
    match a
    case Seed(w, to) => (w, if pc.Idle? then Probing(None, to) else pc, Nothing)
    case Discover(w, i, to) =>
      (w, if pc.Idle? && i in st.started && i < |st.jobs| then Probing(Some(st.jobs[i]), to) else pc, Nothing)
    case Cancel(w) => (w, if pc.Queuing? then pc else Idle, Nothing)
    case Step(w, full) => var (pc', e) := Operation(canon, st, pc, full); (w, pc', e)
  }

  function Next(canon: Url -> Key, st: State, a: Action): State
  {
    if a.StartJob? then
      if a.job < |st.jobs| then st.(started := st.started + {a.job}) else st
    else
      var (w, pc, e) := Choose(canon, st, a);
      Apply(st, e).(workers := st.workers[w := pc])
  }

  function Run(canon: Url -> Key, acts: seq<Action>): State
    decreases |acts|
  {
    if acts == [] then INITIAL
    else Next(canon, Run(canon, acts[..|acts| - 1]), acts[|acts| - 1])
  }

  // ----- invariants -----

  ghost predicate NoRepeats<T>(s: seq<T>)
  {
    forall i, j | 0 <= i < j < |s| :: s[i] != s[j]
  }

  /** `a` was inserted strictly before `b`. */
  ghost predicate Earlier(order: seq<Key>, a: Key, b: Key)
  {
    exists i, j | 0 <= i < j < |order| :: order[i] == a && order[j] == b
  }

  /** From the insertion of its key until its edge is recorded, a worker owns the key. */
  predicate Owns(canon: Url -> Key, pc: Pc, k: Key)
  {
    (pc.Queuing? || (pc.Marking? && pc.inserted) || pc.Linking?) && canon(pc.to) == k
  }

  predicate Pushes(canon: Url -> Key, pc: Pc, k: Key)
  {
    pc.Queuing? && canon(pc.to) == k
  }

  ghost predicate HasJob(canon: Url -> Key, jobs: seq<Url>, k: Key)
  {
    exists i | 0 <= i < |jobs| :: canon(jobs[i]) == k
  }

  ghost predicate PcOk(canon: Url -> Key, order: seq<Key>, pc: Pc)
  {
    !pc.Idle? ==>
      && (pc.from.Some? ==> canon(pc.from.value) in order)
      && (pc.Queuing? || pc.Marking? || pc.Linking? ==> canon(pc.to) in order)
      && (Owns(canon, pc, canon(pc.to)) && pc.from.Some? ==> Earlier(order, canon(pc.from.value), canon(pc.to)))
  }

  ghost predicate KeysOk(canon: Url -> Key, st: State)
  {
    && NoRepeats(st.order)
    && (forall k | k in st.recent :: k in st.order)
    && (forall w | w in st.workers :: PcOk(canon, st.order, st.workers[w]))
  }

  ghost predicate OwnersOk(canon: Url -> Key, st: State)
  {
    forall w, v, k |
      && w in st.workers && v in st.workers
      && Owns(canon, st.workers[w], k) && Owns(canon, st.workers[v], k) ::
      w == v
  }

  ghost predicate JobsOk(canon: Url -> Key, st: State)
  {
    && (forall i | 0 <= i < |st.jobs| :: canon(st.jobs[i]) in st.order)
    && (forall i, j | 0 <= i < j < |st.jobs| :: canon(st.jobs[i]) != canon(st.jobs[j]))
    && (forall w, i | w in st.workers && 0 <= i < |st.jobs| :: !Pushes(canon, st.workers[w], canon(st.jobs[i])))
  }

  /** The key has a job, or the worker that inserted it is about to push that job. */
  ghost predicate Kept(canon: Url -> Key, st: State, k: Key)
  {
    HasJob(canon, st.jobs, k) || exists w | w in st.workers :: Pushes(canon, st.workers[w], k)
  }

  ghost predicate NoneLost(canon: Url -> Key, st: State)
  {
    forall k | k in st.order :: Kept(canon, st, k)
  }

  ghost predicate EdgesOk(canon: Url -> Key, st: State)
  {
    && (forall e | e in st.edges :: st.edges[e] == 1 && Earlier(st.order, canon(e.0), canon(e.1)))
    && (forall e, f | e in st.edges && f in st.edges && canon(e.1) == canon(f.1) :: e == f)
    && (forall e, w | e in st.edges && w in st.workers :: !Owns(canon, st.workers[w], canon(e.1)))
  }

  ghost predicate Inv(canon: Url -> Key, st: State)
  {
    KeysOk(canon, st) && OwnersOk(canon, st) && JobsOk(canon, st) && NoneLost(canon, st) && EdgesOk(canon, st)
  }

  lemma EarlierGrows(order: seq<Key>, k: Key, a: Key, b: Key)
    requires Earlier(order, a, b)
    ensures Earlier(order + [k], a, b)
  {
    var i, j :| 0 <= i < j < |order| && order[i] == a && order[j] == b;
    assert (order + [k])[i] == a && (order + [k])[j] == b;
  }

  lemma LastIsLater(order: seq<Key>, k: Key, a: Key)
    requires a in order
    ensures Earlier(order + [k], a, k)
  {
    var i :| 0 <= i < |order| && order[i] == a;
    assert (order + [k])[i] == a && (order + [k])[|order|] == k;
  }

  /** The move of one worker, seen from the worker alone. */
  ghost predicate Moved(canon: Url -> Key, st: State, pc: Pc, pc': Pc, e: Effect)
  {
    && (forall k | Owns(canon, pc', k) :: Owns(canon, pc, k) || e == Claim(k))
    && (forall k | Pushes(canon, pc', k) :: Pushes(canon, pc, k) || e == Claim(k))
    && (forall k | Pushes(canon, pc, k) :: Pushes(canon, pc', k) || (e.Push? && canon(e.url) == k))
    && match e
       case Nothing => true
       case Claim(k) => k !in st.order && Owns(canon, pc', k) && Pushes(canon, pc', k)
       case Push(url) => Pushes(canon, pc, canon(url)) && !pc'.Queuing?
       case Remember(k, _) => k in st.order
       case Link(edge) => Owns(canon, pc, canon(edge.1)) && !Owns(canon, pc', canon(edge.1))
                          && pc.from == Some(edge.0) && pc.to == edge.1
  }

  lemma ChooseMoves(canon: Url -> Key, st: State, a: Action)
    requires !a.StartJob? && PcOk(canon, st.order, PcOf(st, a.worker))
    ensures var (w, pc, e) := Choose(canon, st, a); Moved(canon, st, PcOf(st, w), pc, e)
  {
  }

  lemma ChooseKeepsPcOk(canon: Url -> Key, st: State, a: Action)
    requires !a.StartJob? && PcOk(canon, st.order, PcOf(st, a.worker))
    requires forall i | 0 <= i < |st.jobs| :: canon(st.jobs[i]) in st.order
    ensures var (w, pc, e) := Choose(canon, st, a); PcOk(canon, Apply(st, e).order, pc)
  {
    var pc := PcOf(st, a.worker);
    var (w, pc', e) := Choose(canon, st, a);
    if e.Claim? && pc.from.Some? {
      LastIsLater(st.order, e.key, canon(pc.from.value));
    }
  }

  lemma PcOkGrows(canon: Url -> Key, order: seq<Key>, k: Key, pc: Pc)
    requires PcOk(canon, order, pc)
    ensures PcOk(canon, order + [k], pc)
  {
    if !pc.Idle? && pc.from.Some? && Owns(canon, pc, canon(pc.to)) {
      EarlierGrows(order, k, canon(pc.from.value), canon(pc.to));
    }
  }

  lemma KeepsKeys(canon: Url -> Key, st: State, a: Action)
    requires Inv(canon, st) && !a.StartJob?
    ensures KeysOk(canon, Next(canon, st, a))
  {
    var st' := Next(canon, st, a);
    var (w, pc, e) := Choose(canon, st, a);
    ChooseMoves(canon, st, a);
    ChooseKeepsPcOk(canon, st, a);
    forall v | v in st'.workers
      ensures PcOk(canon, st'.order, st'.workers[v])
    {
      if v != w && e.Claim? {
        PcOkGrows(canon, st.order, e.key, st.workers[v]);
      }
    }
  }

  lemma OwnedBefore(canon: Url -> Key, st: State, a: Action, v: nat, k: Key)
    requires Inv(canon, st) && !a.StartJob?
    requires var st' := Next(canon, st, a); v in st'.workers && Owns(canon, st'.workers[v], k)
    ensures var (w, pc, e) := Choose(canon, st, a);
            (v in st.workers && Owns(canon, st.workers[v], k)) || (v == w && e == Claim(k) && k !in st.order)
  {
    ChooseMoves(canon, st, a);
  }

  lemma KeepsOwners(canon: Url -> Key, st: State, a: Action)
    requires Inv(canon, st) && !a.StartJob?
    ensures OwnersOk(canon, Next(canon, st, a))
  {
    var st' := Next(canon, st, a);
    forall w, v, k |
      && w in st'.workers && v in st'.workers
      && Owns(canon, st'.workers[w], k) && Owns(canon, st'.workers[v], k)
      ensures w == v
    {
      OwnedBefore(canon, st, a, w, k);
      OwnedBefore(canon, st, a, v, k);
    }
  }

  lemma KeepsJobs(canon: Url -> Key, st: State, a: Action)
    requires Inv(canon, st) && !a.StartJob?
    ensures JobsOk(canon, Next(canon, st, a))
  {
    var st' := Next(canon, st, a);
    var (w, pc, e) := Choose(canon, st, a);
    ChooseMoves(canon, st, a);
    assert e.Push? ==> w in st.workers;
    forall v, i | v in st'.workers && 0 <= i < |st'.jobs|
      ensures !Pushes(canon, st'.workers[v], canon(st'.jobs[i]))
    {
      if Pushes(canon, st'.workers[v], canon(st'.jobs[i])) && i == |st.jobs| && v != w {
        assert Owns(canon, st.workers[v], canon(e.url)) && Owns(canon, st.workers[w], canon(e.url));
      }
    }
  }

  lemma KeepsNoneLost(canon: Url -> Key, st: State, a: Action)
    requires Inv(canon, st) && !a.StartJob?
    ensures NoneLost(canon, Next(canon, st, a))
  {
    var st' := Next(canon, st, a);
    var (w, pc, e) := Choose(canon, st, a);
    ChooseMoves(canon, st, a);
    forall k | k in st'.order
      ensures Kept(canon, st', k)
    {
      if k !in st.order {
        assert Pushes(canon, st'.workers[w], k);
      } else if HasJob(canon, st.jobs, k) {
        var i :| 0 <= i < |st.jobs| && canon(st.jobs[i]) == k;
        assert canon(st'.jobs[i]) == k;
      } else {
        var v :| v in st.workers && Pushes(canon, st.workers[v], k);
        if !Pushes(canon, st'.workers[v], k) {
          assert canon(st'.jobs[|st.jobs|]) == k;
        }
      }
    }
  }

  lemma KeepsEdgesOrdered(canon: Url -> Key, st: State, a: Action)
    requires Inv(canon, st) && !a.StartJob?
    ensures var st' := Next(canon, st, a);
            forall d | d in st'.edges :: st'.edges[d] == 1 && Earlier(st'.order, canon(d.0), canon(d.1))
  {
    var st' := Next(canon, st, a);
    var (w, pc, e) := Choose(canon, st, a);
    ChooseMoves(canon, st, a);
    assert e.Link? ==> w in st.workers && e.edge !in st.edges;
    forall d | d in st'.edges
      ensures st'.edges[d] == 1 && Earlier(st'.order, canon(d.0), canon(d.1))
    {
      if e.Claim? {
        EarlierGrows(st.order, e.key, canon(d.0), canon(d.1));
      }
    }
  }

  lemma KeepsEdges(canon: Url -> Key, st: State, a: Action)
    requires Inv(canon, st) && !a.StartJob?
    ensures EdgesOk(canon, Next(canon, st, a))
  {
    var st' := Next(canon, st, a);
    var (w, pc, e) := Choose(canon, st, a);
    KeepsEdgesOrdered(canon, st, a);
    ChooseMoves(canon, st, a);
    forall d, v | d in st'.edges && v in st'.workers
      ensures !Owns(canon, st'.workers[v], canon(d.1))
    {
      if Owns(canon, st'.workers[v], canon(d.1)) {
        OwnedBefore(canon, st, a, v, canon(d.1));
      }
    }
    forall d, f | d in st'.edges && f in st'.edges && canon(d.1) == canon(f.1)
      ensures d == f
    {
      if e.Link? && (d == e.edge || f == e.edge) {
        assert Owns(canon, st.workers[w], canon(d.1));
      }
    }
  }

  lemma {:induction false} RunKeepsInv(canon: Url -> Key, acts: seq<Action>)
    ensures Inv(canon, Run(canon, acts))
    decreases |acts|
  {
    if acts == [] {
    } else {
      var before, a := Run(canon, acts[..|acts| - 1]), acts[|acts| - 1];
      RunKeepsInv(canon, acts[..|acts| - 1]);
      if a.StartJob? {
        forall k | k in before.order
          ensures Kept(canon, Next(canon, before, a), k)
        {
          assert Kept(canon, before, k);
        }
      } else {
        KeepsKeys(canon, before, a);
        KeepsOwners(canon, before, a);
        KeepsJobs(canon, before, a);
        KeepsNoneLost(canon, before, a);
        KeepsEdges(canon, before, a);
      }
    }
  }

  // ----- main results: jobs -----

  /** At most one job is ever inserted per canonical key. */
  lemma OneJobPerKey(canon: Url -> Key, acts: seq<Action>, i: nat, j: nat)
    requires var st := Run(canon, acts); i < |st.jobs| && j < |st.jobs| && canon(st.jobs[i]) == canon(st.jobs[j])
    ensures i == j
  {
    RunKeepsInv(canon, acts);
  }

  /** A URL answered `Duplicate`, by the recent set or by the queue, is never lost: its job exists, or the
      worker that beat it to the key is between the two halves of `push_unique`. */
  lemma DuplicateIsKept(canon: Url -> Key, acts: seq<Action>, w: nat)
    requires var st := Run(canon, acts); var pc := PcOf(st, w);
             || (pc.Probing? && canon(pc.to) in st.recent)
             || (pc.Claiming? && canon(pc.to) in st.order)
    ensures var st := Run(canon, acts); Kept(canon, st, canon(PcOf(st, w).to))
  {
    RunKeepsInv(canon, acts);
  }

  /** So whenever no worker is inside `push_unique`, the admitted jobs are exactly the inserted keys. */
  lemma JobsAreTheKeys(canon: Url -> Key, acts: seq<Action>, k: Key)
    requires var st := Run(canon, acts); forall w | w in st.workers :: !st.workers[w].Queuing?
    ensures var st := Run(canon, acts); HasJob(canon, st.jobs, k) <==> k in st.order
  {
    RunKeepsInv(canon, acts);
    var st := Run(canon, acts);
    assert k in st.order ==> Kept(canon, st, k);
  }

  /** A worker stopped wherever it stands, also inside `push_unique`. */
  function Stopped(st: State, w: nat): State
  {
    st.(workers := st.workers[w := Idle])
  }

  /** Further steps from a given state. */
  function RunFrom(canon: Url -> Key, st: State, acts: seq<Action>): State
    decreases |acts|
  {
    if acts == [] then st else Next(canon, RunFrom(canon, st, acts[..|acts| - 1]), acts[|acts| - 1])
  }

  lemma LostStaysLost(canon: Url -> Key, st: State, a: Action, k: Key)
    requires k in st.order && !Kept(canon, st, k)
    ensures var st' := Next(canon, st, a); k in st'.order && !Kept(canon, st', k)
  {
    var st' := Next(canon, st, a);
    if !a.StartJob? {
      var (w, pc, e) := Choose(canon, st, a);
      assert !Pushes(canon, PcOf(st, w), k);
    }
  }

  lemma {:induction false} LostForGood(canon: Url -> Key, st: State, acts: seq<Action>, k: Key)
    requires k in st.order && !Kept(canon, st, k)
    ensures var st' := RunFrom(canon, st, acts); k in st'.order && !Kept(canon, st', k)
    decreases |acts|
  {
    hide Next, Kept;
    if acts == [] {
    } else {
      LostForGood(canon, st, acts[..|acts| - 1], k);
      LostStaysLost(canon, RunFrom(canon, st, acts[..|acts| - 1]), acts[|acts| - 1], k);
    }
  }

  /** Why `push_unique` must not be interrupted between its halves: stopping a worker loses an inserted key for good,
      whatever happens later, exactly when the worker is there with that key. */
  lemma StoppingLosesIff(canon: Url -> Key, acts: seq<Action>, w: nat, later: seq<Action>, k: Key)
    requires k in Run(canon, acts).order
    ensures var pc := PcOf(Run(canon, acts), w);
      if pc.Queuing? && canon(pc.to) == k then
        !Kept(canon, RunFrom(canon, Stopped(Run(canon, acts), w), later), k)
      else Kept(canon, Stopped(Run(canon, acts), w), k)
  {
    hide Run, RunFrom;
    var st := Run(canon, acts);
    var st' := Stopped(st, w);
    RunKeepsInv(canon, acts);
    assert Kept(canon, st, k);
    if PcOf(st, w).Queuing? && canon(PcOf(st, w).to) == k {
      assert Owns(canon, st.workers[w], k) && Pushes(canon, st.workers[w], k);
      assert forall u | u in st.workers && Pushes(canon, st.workers[u], k) :: Owns(canon, st.workers[u], k) && u == w;
      LostForGood(canon, st', later, k);
    } else if !HasJob(canon, st.jobs, k) {
      var u :| u in st.workers && Pushes(canon, st.workers[u], k);
      assert u != w && st'.workers[u] == st.workers[u];
    }
  }

  // ----- main results: one call, and which edges there are -----

  lemma {:induction false} FirstThenRest(canon: Url -> Key, st: State, a: Action, acts: seq<Action>)
    ensures RunFrom(canon, st, [a] + acts) == RunFrom(canon, Next(canon, st, a), acts)
    decreases |acts|
  {
    hide Next;
    if acts == [] {
      assert ([a] + acts)[..0] == [];
    } else {
      FirstThenRest(canon, st, a, acts[..|acts| - 1]);
      assert ([a] + acts)[..|acts|] == [a] + acts[..|acts| - 1];
    }
  }

  /** The steps of one worker that nobody interrupts. */
  function StepsOf(w: nat, full: seq<bool>): seq<Action>
  {
    if full == [] then [] else [Step(w, full[0])] + StepsOf(w, full[1..])
  }

  lemma OneStep(canon: Url -> Key, st: State, w: nat, full: seq<bool>)
    requires full != []
    ensures RunFrom(canon, st, StepsOf(w, full)) ==
            RunFrom(canon, Next(canon, st, Step(w, full[0])), StepsOf(w, full[1..]))
  {
    FirstThenRest(canon, st, Step(w, full[0]), StepsOf(w, full[1..]));
  }

  /** What is left to do for a worker at this point: insert the key, push the job, record the edge. */
  predicate Inserts(canon: Url -> Key, st: State, pc: Pc)
  {
    (pc.Probing? || pc.Claiming?) && canon(pc.to) !in st.order
  }

  predicate PushesJob(canon: Url -> Key, st: State, pc: Pc)
  {
    Inserts(canon, st, pc) || pc.Queuing?
  }

  predicate LinksPage(canon: Url -> Key, st: State, pc: Pc)
  {
    && !pc.Idle? && pc.from.Some?
    && (PushesJob(canon, st, pc) || pc.Linking? || (pc.Marking? && pc.inserted))
  }

  function StepsLeft(pc: Pc): nat
  {
    match pc
    case Probing(_, _) => 5
    case Claiming(_, _) => 4
    case Queuing(_, _) => 3
    case Marking(_, _, _) => 2
    case Linking(_, _) => 1
    case Idle => 0
  }

  /** The worker comes to rest in `end`, having done from `st` what was left to do. */
  ghost predicate Finished(canon: Url -> Key, st: State, end: State, w: nat)
  {
    var pc := PcOf(st, w);
    && PcOf(end, w).Idle?
    && (if pc.Idle? || pc.Linking? then end.recent == st.recent else canon(pc.to) in end.recent)
    && end.order == st.order + (if Inserts(canon, st, pc) then [canon(pc.to)] else [])
    && end.jobs == st.jobs + (if PushesJob(canon, st, pc) then [pc.to] else [])
    && end.edges == if LinksPage(canon, st, pc) then st.edges[(pc.from.value, pc.to) := 1] else st.edges
  }

  ghost predicate Ready(canon: Url -> Key, st: State, pc: Pc)
  {
    && (pc.Probing? && canon(pc.to) in st.recent ==> canon(pc.to) in st.order)
    && (LinksPage(canon, st, pc) ==> (pc.from.value, pc.to) !in st.edges)
  }

  lemma StepNears(canon: Url -> Key, st: State, w: nat, full: bool)
    requires Ready(canon, st, PcOf(st, w))
    ensures var st' := Next(canon, st, Step(w, full));
            && Ready(canon, st', PcOf(st', w)) && StepsLeft(PcOf(st', w)) <= StepsLeft(PcOf(st, w))
            && (!PcOf(st, w).Idle? ==> StepsLeft(PcOf(st', w)) < StepsLeft(PcOf(st, w)))
            && forall end | Finished(canon, st', end, w) :: Finished(canon, st, end, w)
  {
  }

  lemma {:induction false} Finishes(canon: Url -> Key, st: State, w: nat, full: seq<bool>)
    requires Ready(canon, st, PcOf(st, w)) && |full| >= StepsLeft(PcOf(st, w))
    ensures Finished(canon, st, RunFrom(canon, st, StepsOf(w, full)), w)
    decreases |full|
  {
    if full == [] {
    } else {
      OneStep(canon, st, w, full);
      StepNears(canon, st, w, full[0]);
      hide *;
      Finishes(canon, Next(canon, st, Step(w, full[0])), w, full[1..]);
    }
  }

  /** What a call does when nobody interferes, from any state of any run: a discovered link whose key is new gets its
      job and its edge from the page it was found on, one whose key is known changes nothing. */
  lemma UninterruptedDiscovery(canon: Url -> Key, hist: seq<Action>, w: nat, i: nat, to: Url, full: seq<bool>)
    requires var st := Run(canon, hist); PcOf(st, w).Idle? && i in st.started && i < |st.jobs|
    requires |full| >= 5
    ensures var st := Run(canon, hist);
            var end := RunFrom(canon, Next(canon, st, Discover(w, i, to)), StepsOf(w, full));
            && PcOf(end, w).Idle? && canon(to) in end.recent
            && (canon(to) in st.order ==> end.order == st.order && end.jobs == st.jobs && end.edges == st.edges)
            && (canon(to) !in st.order ==>
                  && end.order == st.order + [canon(to)] && end.jobs == st.jobs + [to]
                  && end.edges == st.edges[(st.jobs[i], to) := 1])
  {
    BeginsReady(canon, hist, Discover(w, i, to), full);
  }

  /** A start URL likewise, without an edge. */
  lemma UninterruptedSeed(canon: Url -> Key, hist: seq<Action>, w: nat, to: Url, full: seq<bool>)
    requires PcOf(Run(canon, hist), w).Idle? && |full| >= 5
    ensures var st := Run(canon, hist);
            var end := RunFrom(canon, Next(canon, st, Seed(w, to)), StepsOf(w, full));
            && PcOf(end, w).Idle? && end.edges == st.edges && canon(to) in end.recent
            && (canon(to) in st.order ==> end.order == st.order && end.jobs == st.jobs)
            && (canon(to) !in st.order ==> end.order == st.order + [canon(to)] && end.jobs == st.jobs + [to])
  {
    BeginsReady(canon, hist, Seed(w, to), full);
  }

  lemma BeginsReady(canon: Url -> Key, hist: seq<Action>, a: Action, full: seq<bool>)
    requires var st := Run(canon, hist); a.Seed? || (a.Discover? && a.job in st.started && a.job < |st.jobs|)
    requires PcOf(Run(canon, hist), a.worker).Idle? && |full| >= 5
    ensures var st := Run(canon, hist);
            var begun := Next(canon, st, a);
            var end := RunFrom(canon, begun, StepsOf(a.worker, full));
            && PcOf(begun, a.worker) == Probing(if a.Seed? then None else Some(st.jobs[a.job]), a.to)
            && begun.order == st.order && begun.jobs == st.jobs && begun.edges == st.edges
            && Finished(canon, begun, end, a.worker)
  {
    hide Run, RunFrom, StepsOf, Finished;
    RunKeepsInv(canon, hist);
    Finishes(canon, Next(canon, Run(canon, hist), a), a.worker, full);
  }

  /** The edge this worker is still to record. */
  predicate ToRecord(pc: Pc, e: Edge)
  {
    pc == Queuing(Some(e.0), e.1) || pc == Marking(Some(e.0), e.1, true) || pc == Linking(Some(e.0), e.1)
  }

  /** The link, with the page it was found on, that reaches a new key by this action. */
  function Finds(canon: Url -> Key, st: State, a: Action): set<Edge>
  {
    if !a.Step? then {}
    else
      match PcOf(st, a.worker)
      case Claiming(Some(from), to) => if canon(to) in st.order then {} else {(from, to)}
      case _ => {}
  }

  /** The link given up by this action: its worker is cancelled after pushing the job, before recording the edge. */
  function Drops(st: State, a: Action): set<Edge>
  {
    if !a.Cancel? then {}
    else
      match PcOf(st, a.worker)
      case Marking(Some(from), to, true) => {(from, to)}
      case Linking(Some(from), to) => {(from, to)}
      case _ => {}
  }

  /** All links of a run that were the first to reach their key. */
  ghost function Found(canon: Url -> Key, acts: seq<Action>): set<Edge>
    decreases |acts|
  {
    if acts == [] then {}
    else
      var prev := acts[..|acts| - 1];
      Found(canon, prev) + Finds(canon, Run(canon, prev), acts[|acts| - 1])
  }

  ghost function Dropped(canon: Url -> Key, acts: seq<Action>): set<Edge>
    decreases |acts|
  {
    if acts == [] then {}
    else
      var prev := acts[..|acts| - 1];
      Dropped(canon, prev) + Drops(Run(canon, prev), acts[|acts| - 1])
  }

  ghost predicate BeingRecorded(workers: map<nat, Pc>, e: Edge)
  {
    exists w | w in workers :: ToRecord(workers[w], e)
  }

  /** Dropped links are past: their key is in, nobody works on it and they have no edge. */
  ghost predicate DroppedOk(canon: Url -> Key, st: State, dropped: set<Edge>)
  {
    && (forall e | e in dropped :: canon(e.1) in st.order && e !in st.edges)
    && (forall e, w | e in dropped && w in st.workers :: !Owns(canon, st.workers[w], canon(e.1)))
  }

  ghost predicate Accounted(st: State, found: set<Edge>, dropped: set<Edge>)
  {
    forall e :: e in found <==> e in st.edges || e in dropped || BeingRecorded(st.workers, e)
  }

  /** The acting worker's view: it has one link less to record iff it drops it or records it. */
  lemma Handles(canon: Url -> Key, st: State, a: Action, x: Edge)
    requires !a.StartJob?
    ensures var (w, pc', e) := Choose(canon, st, a);
            var pc := PcOf(st, w);
            && (ToRecord(pc', x) || x in Drops(st, a) || e == Link(x) <==> ToRecord(pc, x) || x in Finds(canon, st, a))
            && (x in Finds(canon, st, a) ==> e == Claim(canon(x.1)) && canon(x.1) !in st.order)
            && (x in Drops(st, a) ==> w in st.workers && Owns(canon, pc, canon(x.1)) && pc'.Idle? && e == Nothing)
            && (e == Link(x) ==> ToRecord(pc, x))
            && (e.Link? ==> e == Link((pc.from.value, pc.to)) && Owns(canon, pc, canon(pc.to)))
  {
  }

  lemma RecordedNext(canon: Url -> Key, st: State, a: Action, x: Edge)
    requires !a.StartJob?
    ensures var (w, pc', e) := Choose(canon, st, a);
            var st' := Next(canon, st, a);
            && (x in st'.edges <==> x in st.edges || e == Link(x))
            && (BeingRecorded(st'.workers, x) <==>
                  ToRecord(pc', x) || exists v | v in st.workers && v != w :: ToRecord(st.workers[v], x))
  {
    var (w, pc', e) := Choose(canon, st, a);
    var st' := Next(canon, st, a);
    hide Choose, ToRecord;
    assert w in st'.workers && st'.workers[w] == pc';
    assert forall v | v in st.workers && v != w :: v in st'.workers && st'.workers[v] == st.workers[v];
  }

  lemma AccountedNext(canon: Url -> Key, st: State, a: Action, found: set<Edge>, dropped: set<Edge>)
    requires Accounted(st, found, dropped) && !a.StartJob?
    ensures Accounted(Next(canon, st, a), found + Finds(canon, st, a), dropped + Drops(st, a))
  {
    hide Choose, Finds, Drops, ToRecord, Next, Owns;
    var (w, pc', e) := Choose(canon, st, a);
    NotIdleIsThere(st, w);
    forall x
      ensures var st' := Next(canon, st, a);
              x in found + Finds(canon, st, a) <==>
              x in st'.edges || x in dropped + Drops(st, a) || BeingRecorded(st'.workers, x)
    {
      Handles(canon, st, a, x);
      RecordedNext(canon, st, a, x);
      assert BeingRecorded(st.workers, x) <==>
             ToRecord(PcOf(st, w), x) || exists v | v in st.workers && v != w :: ToRecord(st.workers[v], x);
    }
  }

  lemma NotIdleIsThere(st: State, w: nat)
    ensures w !in st.workers ==> forall x :: !ToRecord(PcOf(st, w), x)
    ensures w in st.workers ==> PcOf(st, w) == st.workers[w]
  {
  }

  lemma DroppedOkNext(canon: Url -> Key, st: State, a: Action, dropped: set<Edge>)
    requires Inv(canon, st) && DroppedOk(canon, st, dropped) && !a.StartJob?
    ensures DroppedOk(canon, Next(canon, st, a), dropped + Drops(st, a))
  {
    var st' := Next(canon, st, a);
    forall x | x in dropped + Drops(st, a)
      ensures canon(x.1) in st'.order && x !in st'.edges
      ensures forall v | v in st'.workers :: !Owns(canon, st'.workers[v], canon(x.1))
    {
      DropStays(canon, st, a, dropped, x);
    }
  }

  lemma DropStays(canon: Url -> Key, st: State, a: Action, dropped: set<Edge>, x: Edge)
    requires Inv(canon, st) && DroppedOk(canon, st, dropped) && !a.StartJob? && x in dropped + Drops(st, a)
    ensures var st' := Next(canon, st, a);
            && canon(x.1) in st'.order && x !in st'.edges
            && forall v | v in st'.workers :: !Owns(canon, st'.workers[v], canon(x.1))
  {
    var st' := Next(canon, st, a);
    Handles(canon, st, a, x);
    RecordedNext(canon, st, a, x);
    OwnedIsIn(canon, st, x);
    forall v | v in st'.workers
      ensures !Owns(canon, st'.workers[v], canon(x.1))
    {
      if Owns(canon, st'.workers[v], canon(x.1)) {
        OwnedBefore(canon, st, a, v, canon(x.1));
      }
    }
  }

  lemma OwnedIsIn(canon: Url -> Key, st: State, x: Edge)
    requires Inv(canon, st)
    ensures forall w | w in st.workers && Owns(canon, st.workers[w], canon(x.1)) ::
              canon(x.1) in st.order && x !in st.edges
  {
  }

  lemma {:induction false} RunAccounts(canon: Url -> Key, acts: seq<Action>)
    ensures Accounted(Run(canon, acts), Found(canon, acts), Dropped(canon, acts))
    ensures DroppedOk(canon, Run(canon, acts), Dropped(canon, acts))
    decreases |acts|
  {
    hide Next, Inv, Finds, Drops;
    if acts == [] {
    } else {
      var prev, a := acts[..|acts| - 1], acts[|acts| - 1];
      RunAccounts(canon, prev);
      RunKeepsInv(canon, prev);
      var st := Run(canon, prev);
      if a.StartJob? {
        JobStarts(canon, st, a);
      } else {
        AccountedNext(canon, st, a, Found(canon, prev), Dropped(canon, prev));
        DroppedOkNext(canon, st, a, Dropped(canon, prev));
      }
    }
  }

  lemma JobStarts(canon: Url -> Key, st: State, a: Action)
    requires a.StartJob?
    ensures Finds(canon, st, a) == {} && Drops(st, a) == {}
    ensures var st' := Next(canon, st, a);
            st'.edges == st.edges && st'.order == st.order && st'.workers == st.workers
  {
  }

  /** The edges of a run are the links that were the first to reach their key, except for those whose worker has been
      cancelled before recording it and those a worker is still about to record. */
  lemma EdgeIffRecorded(canon: Url -> Key, acts: seq<Action>, e: Edge)
    ensures var st := Run(canon, acts);
            e in st.edges <==>
            e in Found(canon, acts) && e !in Dropped(canon, acts) && !exists w :: ToRecord(PcOf(st, w), e)
  {
    hide Run, Found, Dropped;
    RunAccounts(canon, acts);
    RunKeepsInv(canon, acts);
    var st := Run(canon, acts);
    OwnedIsIn(canon, st, e);
    forall w | ToRecord(PcOf(st, w), e)
      ensures w in st.workers && Owns(canon, st.workers[w], canon(e.1)) && BeingRecorded(st.workers, e)
    {
      NotIdleIsThere(st, w);
    }
    if BeingRecorded(st.workers, e) {
      var w :| w in st.workers && ToRecord(st.workers[w], e);
      assert ToRecord(PcOf(st, w), e);
    }
  }

  // ----- main results: edges -----

  ghost predicate EdgeBetween(canon: Url -> Key, st: State, a: Key, b: Key)
  {
    exists e | e in st.edges :: canon(e.0) == a && canon(e.1) == b
  }

  /** A chain of recorded discoveries, by canonical key. */
  ghost predicate Path(canon: Url -> Key, st: State, p: seq<Key>)
  {
    |p| > 0 && forall i | 0 <= i < |p| - 1 :: EdgeBetween(canon, st, p[i], p[i + 1])
  }

  /** Every discovery is recorded once, and the page it was found on was inserted strictly earlier. */
  lemma EdgeRecordedOnceFromEarlier(canon: Url -> Key, acts: seq<Action>, e: Edge)
    requires e in Run(canon, acts).edges
    ensures var st := Run(canon, acts); st.edges[e] == 1 && Earlier(st.order, canon(e.0), canon(e.1))
  {
    RunKeepsInv(canon, acts);
  }

  /** The page is that of a job that was started. */
  ghost predicate FromStarted(st: State)
  {
    && (forall w | w in st.workers && !st.workers[w].Idle? && st.workers[w].from.Some? ::
          StartedUrl(st, st.workers[w].from.value))
    && (forall e | e in st.edges :: StartedUrl(st, e.0))
  }

  ghost predicate StartedUrl(st: State, url: Url)
  {
    exists i | 0 <= i < |st.jobs| :: i in st.started && st.jobs[i] == url
  }

  lemma StartedStays(canon: Url -> Key, st: State, a: Action, url: Url)
    requires StartedUrl(st, url)
    ensures StartedUrl(Next(canon, st, a), url)
  {
    var i :| 0 <= i < |st.jobs| && i in st.started && st.jobs[i] == url;
    var st' := Next(canon, st, a);
    assert i in st'.started && st'.jobs[i] == url;
  }

  lemma KeepsFromStarted(canon: Url -> Key, st: State, a: Action)
    requires FromStarted(st)
    ensures FromStarted(Next(canon, st, a))
  {
    var st' := Next(canon, st, a);
    forall url | StartedUrl(st, url)
      ensures StartedUrl(st', url)
    {
      StartedStays(canon, st, a, url);
    }
    if !a.StartJob? {
      SameSource(canon, st, a);
      hide Next, Choose, Operation, StartedUrl;
    }
  }

  /** A worker gets its page from a started job and keeps it until it is idle; an edge has that of its worker. */
  lemma SameSource(canon: Url -> Key, st: State, a: Action)
    requires !a.StartJob?
    ensures var st' := Next(canon, st, a);
            && (forall v | v in st'.workers && !st'.workers[v].Idle? && st'.workers[v].from.Some? ::
                  || (v in st.workers && !st.workers[v].Idle? && st.workers[v].from == st'.workers[v].from)
                  || StartedUrl(st, st'.workers[v].from.value))
            && (forall e | e in st'.edges ::
                  || e in st.edges
                  || exists v | v in st.workers :: !st.workers[v].Idle? && st.workers[v].from == Some(e.0))
            && st'.jobs[..|st.jobs|] == st.jobs
  {
    var (w, pc, e) := Choose(canon, st, a);
    assert a.Discover? && a.job in st.started && a.job < |st.jobs| ==> StartedUrl(st, st.jobs[a.job]);
    assert e.Link? ==> w in st.workers;
    hide StartedUrl;
  }

  lemma {:induction false} EdgesFromStarted(canon: Url -> Key, acts: seq<Action>)
    ensures FromStarted(Run(canon, acts))
    decreases |acts|
  {
    hide Next;
    if acts == [] {
    } else {
      EdgesFromStarted(canon, acts[..|acts| - 1]);
      KeepsFromStarted(canon, Run(canon, acts[..|acts| - 1]), acts[|acts| - 1]);
    }
  }

  lemma EarlierTransitive(order: seq<Key>, a: Key, b: Key, c: Key)
    requires NoRepeats(order) && Earlier(order, a, b) && Earlier(order, b, c)
    ensures Earlier(order, a, c)
  {
    var i, j :| 0 <= i < j < |order| && order[i] == a && order[j] == b;
    var j', k :| 0 <= j' < k < |order| && order[j'] == b && order[k] == c;
    assert j == j';
  }

  lemma {:induction false} PathGoesLater(canon: Url -> Key, acts: seq<Action>, p: seq<Key>)
    requires Path(canon, Run(canon, acts), p) && |p| >= 2
    ensures Earlier(Run(canon, acts).order, p[0], p[|p| - 1])
    decreases |p|
  {
    RunKeepsInv(canon, acts);
    var st := Run(canon, acts);
    assert EdgeBetween(canon, st, p[|p| - 2], p[|p| - 1]);
    if |p| > 2 {
      PathGoesLater(canon, acts, p[..|p| - 1]);
      EarlierTransitive(st.order, p[0], p[|p| - 2], p[|p| - 1]);
    }
  }

  /** No cycles and no self-loops. */
  lemma NoCycle(canon: Url -> Key, acts: seq<Action>, p: seq<Key>)
    requires Path(canon, Run(canon, acts), p) && |p| >= 2
    ensures p[0] != p[|p| - 1]
  {
    PathGoesLater(canon, acts, p);
    RunKeepsInv(canon, acts);
  }

  /** A key has at most one parent. */
  lemma OneParent(canon: Url -> Key, acts: seq<Action>, a: Key, b: Key, child: Key)
    requires var st := Run(canon, acts); EdgeBetween(canon, st, a, child) && EdgeBetween(canon, st, b, child)
    ensures a == b
  {
    RunKeepsInv(canon, acts);
    var st := Run(canon, acts);
    var e :| e in st.edges && canon(e.0) == a && canon(e.1) == child;
    var f :| f in st.edges && canon(f.0) == b && canon(f.1) == child;
    assert e == f;
  }

  lemma {:induction false} ChainsAgreeAt(canon: Url -> Key, acts: seq<Action>, p: seq<Key>, q: seq<Key>, i: nat)
    requires Path(canon, Run(canon, acts), p) && Path(canon, Run(canon, acts), q)
    requires i < |p| <= |q| && p[|p| - 1] == q[|q| - 1]
    ensures p[|p| - 1 - i] == q[|q| - 1 - i]
    decreases i
  {
    if i == 0 {
    } else {
      ChainsAgreeAt(canon, acts, p, q, i - 1);
      var j, k := |p| - 1 - i, |q| - 1 - i;
      assert EdgeBetween(canon, Run(canon, acts), p[j], p[j + 1]);
      assert EdgeBetween(canon, Run(canon, acts), q[k], q[k + 1]);
      OneParent(canon, acts, p[j], q[k], p[j + 1]);
    }
  }

  /** Forest: two discovery chains that end at the same key run through the same keys. */
  lemma ChainsAgree(canon: Url -> Key, acts: seq<Action>, p: seq<Key>, q: seq<Key>)
    requires Path(canon, Run(canon, acts), p) && Path(canon, Run(canon, acts), q)
    requires |p| <= |q| && p[|p| - 1] == q[|q| - 1]
    ensures p == q[|q| - |p|..]
  {
    forall j | 0 <= j < |p|
      ensures p[j] == q[|q| - |p| + j]
    {
      ChainsAgreeAt(canon, acts, p, q, |p| - 1 - j);
    }
  }
}
