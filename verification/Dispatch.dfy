/**
 The dispatch loop of `Crawler::run` in src/crawler.rs, with the queue operations its
 tasks use (src/queue/inmemory.rs): admission against `max_pages`, spawning, and the
 settling of every popped job. Any number of loops share the page counter and the queue.

 `Next` is one atomic operation. Delays are not modelled: `Pop` may take any queued job,
 which allows every order a clock could produce. Queue operations do not fail.
 */
module Dispatch {
  import opened Wrappers
  import opened Common

  type Key = string

  /** The part of a job that the loop's accounting depends on. `key` is the page's canonical key. */
  datatype Job = Job(id: nat, key: Key, attempts: nat)

  datatype Config = Config(maxPages: Option<nat>, retryMax: nat)

  /** Where a popped job stands. */
  datatype Stage =
    | Popped                 // before the admission `fetch_add`
    | Over                   // the `fetch_add` went past the limit
    | Refused                // counter given back, about to be completed
    | Admitted               // counted, waiting for its permit
    | Running                // spawned
    | Failing(next: Job)     // `fail` has taken it out of the table and is about to push it again
    | Requeued               // `requeue_after` has pushed its successor, about to complete it
    | Settled

  /** One pop: which loop took it, what it got, how far it is, and whether it was ever spawned. */
  datatype Work = Work(loop: nat, job: Job, stage: Stage, spawned: bool)

  datatype LoopPc = Head | Popping | Busy(ticket: nat) | Draining | Done

  /** `owner[i]` is the page job id `i` was allocated for; `settles` lists tickets in the order settled;
      `retired` are the pages completed, dropped or failed for good. */
  datatype State = State(
    heap: seq<Job>, inFlight: map<nat, Job>, owner: seq<Key>, seen: set<Key>, pages: int,
    loops: map<nat, LoopPc>, work: seq<Work>, settles: seq<nat>, retired: set<Key>)

  /** How `process_job` and the error path end, as far as the queue is concerned. */
  datatype Outcome =
    | Retire          // Complete, Drop or FailedPermanent
    | RetryOk         // `Ok(Retry)`: queue.fail
    | Defer           // requeue under a fresh id
    | Escalate        // requeue under a fresh id with attempts reset
    | ErrorRetry      // the error path's Retry

  datatype Action =
    | Insert(key: Key)               // push_unique of a new page
    | Check(loop: nat)               // the limit test at the loop head
    | Pop(loop: nat, index: nat)
    | PopNone(loop: nat)             // nothing ready
    | Admit(loop: nat)
    | Advance(loop: nat)             // Over -> Refused -> Settled, or Admitted -> Running
    | Finish(ticket: nat, outcome: Outcome)
    | Settle(ticket: nat)            // second half of `fail` or `requeue_after`
    | Drain(loop: nat)

  const INITIAL: State := State([], map[], [], {}, 0, map[], [], [], {})

  function LoopOf(st: State, l: nat): LoopPc
  {
    if l in st.loops then st.loops[l] else Head
  }

  predicate InTask(s: Stage)
  {
    s.Running? || s.Failing? || s.Requeued?
  }

  /** `tasks.is_empty()` for the loop's own join set. */
  predicate NoTasks(work: seq<Work>, l: nat)
  {
    forall t | 0 <= t < |work| :: work[t].loop == l ==> !InTask(work[t].stage)
  }

  function Stand(st: State, t: nat, s: Stage): State
    requires t < |st.work|
  {
    st.(work := st.work[t := st.work[t].(stage := s, spawned := st.work[t].spawned || s.Running?)])
  }

  function SettleIt(st: State, t: nat): State
    requires t < |st.work|
  {
    Stand(st, t, Settled).(settles := st.settles + [t], inFlight := st.inFlight - {st.work[t].job.id})
  }

  function Requeue(st: State, t: nat, next: Job): State
    requires t < |st.work|
  {
    Stand(st, t, Requeued).(heap := st.heap + [next])
  }

  function Next(c: Config, st: State, a: Action): State
  {
    match a
    case Insert(k) =>
      if k in st.seen then st
      else st.(heap := st.heap + [Job(|st.owner|, k, 0)], owner := st.owner + [k], seen := st.seen + {k})
    case Check(l) =>
      if LoopOf(st, l) != Head then st
      else st.(loops := st.loops[l := if c.maxPages.Some? && st.pages >= c.maxPages.value then Draining else Popping])
    case Pop(l, i) =>
      if LoopOf(st, l) != Popping || i >= |st.heap| then st
      else
        var job := st.heap[i];
        st.(heap := Remove(st.heap, i), inFlight := st.inFlight[job.id := job],
            work := st.work + [Work(l, job, Popped, false)], loops := st.loops[l := Busy(|st.work|)])
    case PopNone(l) =>
      if LoopOf(st, l) != Popping then st
      else st.(loops := st.loops[l := if NoTasks(st.work, l) && st.heap == [] then Draining else Head])
    case Admit(l) =>
      if LoopOf(st, l).Busy? && LoopOf(st, l).ticket < |st.work| && st.work[LoopOf(st, l).ticket].stage == Popped then
        AdmitIt(c, st, LoopOf(st, l).ticket)
      else st
    case Advance(l) =>
      if LoopOf(st, l).Busy? && LoopOf(st, l).ticket < |st.work| then AdvanceIt(st, l, LoopOf(st, l).ticket) else st
    case Finish(t, o) =>
      if t < |st.work| && st.work[t].stage == Running then FinishIt(c, st, t, o) else st
    case Settle(t) =>
      if t >= |st.work| then st
      else if st.work[t].stage.Requeued? then SettleIt(st, t)
      else if st.work[t].stage.Failing? then
        Stand(st, t, Settled).(settles := st.settles + [t], heap := st.heap + [st.work[t].stage.next])
      else st
    case Drain(l) =>
      if LoopOf(st, l) == Draining && NoTasks(st.work, l) then st.(loops := st.loops[l := Done]) else st
  }

  function AdmitIt(c: Config, st: State, t: nat): State
    requires t < |st.work|
  {
    if c.maxPages == None then Stand(st, t, Admitted)
    else Stand(st, t, if st.pages + 1 > c.maxPages.value then Over else Admitted).(pages := st.pages + 1)
  }

  function AdvanceIt(st: State, l: nat, t: nat): State
    requires t < |st.work|
  {
    match st.work[t].stage
    case Over => Stand(st, t, Refused).(pages := st.pages - 1)
    case Refused => SettleIt(st, t).(loops := st.loops[l := Draining], retired := st.retired + {st.work[t].job.key})
    case Admitted => Stand(st, t, Running).(loops := st.loops[l := Head])
    case _ => st
  }

  function FinishIt(c: Config, st: State, t: nat, o: Outcome): State
    requires t < |st.work|
  {
    var job := st.work[t].job;
    match o
    case Retire => SettleIt(st, t).(retired := st.retired + {job.key})
    case RetryOk =>
      if job.id in st.inFlight then
        var next := st.inFlight[job.id].(attempts := st.inFlight[job.id].attempts + 1);
        Stand(st, t, Failing(next)).(inFlight := st.inFlight - {job.id})
      else
        SettleIt(st, t)
    case Defer => Requeue(st, t, job.(id := |st.owner|)).(owner := st.owner + [job.key])
    case Escalate => Requeue(st, t, Job(|st.owner|, job.key, 0)).(owner := st.owner + [job.key])
    case ErrorRetry =>
      if job.attempts + 1 > c.retryMax then SettleIt(st, t).(retired := st.retired + {job.key})
      else Requeue(st, t, job.(attempts := job.attempts + 1))
  }

  function Run(c: Config, acts: seq<Action>): State
    decreases |acts|
  {
    if acts == [] then INITIAL
    else Next(c, Run(c, acts[..|acts| - 1]), acts[|acts| - 1])
  }

  // ----- one page, one worker -----

  /** This pop still stands for its page: it has neither finished nor handed the page back. */
  predicate Live(w: Work)
  {
    !w.stage.Settled? && !w.stage.Requeued?
  }

  /** No page is in two places: twice in the heap, in the heap and in work, or in work twice. */
  ghost predicate Exclusive(heap: seq<Job>, work: seq<Work>)
  {
    && (forall i, j | 0 <= i < j < |heap| :: heap[i].key != heap[j].key)
    && (forall i, t | 0 <= i < |heap| && 0 <= t < |work| && Live(work[t]) :: heap[i].key != work[t].job.key)
    && (forall t, u | 0 <= t < u < |work| && Live(work[t]) && Live(work[u]) :: work[t].job.key != work[u].job.key)
  }

  ghost predicate JobOk(owner: seq<Key>, seen: set<Key>, j: Job)
  {
    j.key in seen && j.id < |owner| && owner[j.id] == j.key
  }

  ghost predicate WorkOk(st: State, w: Work)
  {
    && JobOk(st.owner, st.seen, w.job)
    && (w.stage.Failing? ==> w.stage.next.id == w.job.id && w.stage.next.key == w.job.key)
  }

  ghost predicate JobsOk(st: State)
  {
    && (forall i | 0 <= i < |st.heap| :: JobOk(st.owner, st.seen, st.heap[i]))
    && (forall t | 0 <= t < |st.work| :: WorkOk(st, st.work[t]))
    && (forall id | id in st.inFlight :: st.inFlight[id].id == id && JobOk(st.owner, st.seen, st.inFlight[id]))
  }

  lemma FinishKeepsJobsOk(c: Config, st: State, t: nat, o: Outcome)
    requires JobsOk(st)
    ensures JobsOk(Next(c, st, Finish(t, o)))
  {
    if t < |st.work| {
      assert WorkOk(st, st.work[t]);
    }
  }

  lemma KeepsJobsOk(c: Config, st: State, a: Action)
    requires JobsOk(st)
    ensures JobsOk(Next(c, st, a))
  {
    hide FinishIt, AdmitIt, AdvanceIt, NoTasks;
    match a
    case Finish(t, o) => FinishKeepsJobsOk(c, st, t, o);
    case Settle(t) => SettleKeepsJobsOk(c, st, t);
    case Pop(l, i) => PopKeepsJobsOk(c, st, l, i);
    case Admit(l) => AdmitKeepsJobsOk(c, st, l);
    case Advance(l) => AdvanceKeepsJobsOk(c, st, l);
    case _ =>
  }

  lemma SettleKeepsJobsOk(c: Config, st: State, t: nat)
    requires JobsOk(st)
    ensures JobsOk(Next(c, st, Settle(t)))
  {
    if t < |st.work| {
      assert WorkOk(st, st.work[t]);
    }
  }

  lemma AdmitKeepsJobsOk(c: Config, st: State, l: nat)
    requires JobsOk(st)
    ensures JobsOk(Next(c, st, Admit(l)))
  {
  }

  lemma AdvanceKeepsJobsOk(c: Config, st: State, l: nat)
    requires JobsOk(st)
    ensures JobsOk(Next(c, st, Advance(l)))
  {
  }

  lemma PopKeepsJobsOk(c: Config, st: State, l: nat, i: nat)
    requires JobsOk(st)
    ensures JobsOk(Next(c, st, Pop(l, i)))
  {
    var st' := Next(c, st, Pop(l, i));
    if st' != st {
      assert forall j | 0 <= j < |st'.heap| :: st'.heap[j] == if j < i then st.heap[j] else st.heap[j + 1];
    }
  }

  lemma PopKeepsExclusive(heap: seq<Job>, work: seq<Work>, i: nat, l: nat)
    requires Exclusive(heap, work) && i < |heap|
    ensures Exclusive(Remove(heap, i), work + [Work(l, heap[i], Popped, false)])
  {
    var heap' := Remove(heap, i);
    assert forall j | 0 <= j < |heap'| :: heap'[j] == if j < i then heap[j] else heap[j + 1];
  }

  lemma HandBackKeepsExclusive(heap: seq<Job>, work: seq<Work>, t: nat, w: Work, next: Job)
    requires Exclusive(heap, work) && t < |work| && Live(work[t]) && !Live(w) && next.key == work[t].job.key
    ensures Exclusive(heap + [next], work[t := w])
  {
  }

  lemma StandKeepsExclusive(heap: seq<Job>, work: seq<Work>, t: nat, w: Work)
    requires Exclusive(heap, work) && t < |work| && w.job == work[t].job && (Live(w) ==> Live(work[t]))
    ensures Exclusive(heap, work[t := w])
  {
  }

  lemma KeepsExclusive(c: Config, st: State, a: Action)
    requires JobsOk(st) && Exclusive(st.heap, st.work)
    ensures var st' := Next(c, st, a); Exclusive(st'.heap, st'.work)
  {
    hide FinishIt, AdmitIt, AdvanceIt, NoTasks;
    var st' := Next(c, st, a);
    match a
    case Pop(l, i) =>
      if st' != st {
        PopKeepsExclusive(st.heap, st.work, i, l);
      }
    case Admit(l) => AdmitKeepsExclusive(c, st, l);
    case Advance(l) => AdvanceKeepsExclusive(c, st, l);
    case Finish(t, o) => FinishKeepsExclusive(c, st, t, o);
    case Settle(t) =>
      if st' != st && st.work[t].stage.Failing? {
        HandBackKeepsExclusive(st.heap, st.work, t, st'.work[t], st.work[t].stage.next);
      } else if st' != st {
        StandKeepsExclusive(st.heap, st.work, t, st'.work[t]);
      }
    case _ =>
  }

  lemma AdmitKeepsExclusive(c: Config, st: State, l: nat)
    requires Exclusive(st.heap, st.work)
    ensures var st' := Next(c, st, Admit(l)); Exclusive(st'.heap, st'.work)
  {
    var st' := Next(c, st, Admit(l));
    if st' != st {
      StandKeepsExclusive(st.heap, st.work, LoopOf(st, l).ticket, st'.work[LoopOf(st, l).ticket]);
    }
  }

  lemma AdvanceKeepsExclusive(c: Config, st: State, l: nat)
    requires Exclusive(st.heap, st.work)
    ensures var st' := Next(c, st, Advance(l)); Exclusive(st'.heap, st'.work)
  {
    var st' := Next(c, st, Advance(l));
    if st' != st {
      StandKeepsExclusive(st.heap, st.work, LoopOf(st, l).ticket, st'.work[LoopOf(st, l).ticket]);
    }
  }

  lemma FinishKeepsExclusive(c: Config, st: State, t: nat, o: Outcome)
    requires JobsOk(st) && Exclusive(st.heap, st.work)
    ensures var st' := Next(c, st, Finish(t, o)); Exclusive(st'.heap, st'.work)
  {
    var st' := Next(c, st, Finish(t, o));
    if st' != st {
      if st'.heap != st.heap {
        HandBackKeepsExclusive(st.heap, st.work, t, st'.work[t], st'.heap[|st.heap|]);
      } else {
        StandKeepsExclusive(st.heap, st.work, t, st'.work[t]);
      }
    }
  }

  // ----- the loops and the page limit -----

  /** Stages in which the loop itself, not a task, has the job in hand. */
  predicate InLoop(s: Stage)
  {
    s.Popped? || s.Over? || s.Refused? || s.Admitted?
  }

  ghost predicate LoopsOk(loops: map<nat, LoopPc>, work: seq<Work>)
  {
    && (forall l | l in loops && loops[l].Busy? ::
          loops[l].ticket < |work| && work[loops[l].ticket].loop == l && InLoop(work[loops[l].ticket].stage))
    && (forall t | 0 <= t < |work| && InLoop(work[t].stage) ::
          work[t].loop in loops && loops[work[t].loop] == Busy(t))
    && (forall l | l in loops && loops[l].Done? :: NoTasks(work, l))
    && (forall t | 0 <= t < |work| :: (InTask(work[t].stage) ==> work[t].spawned)
                                      && (InLoop(work[t].stage) ==> !work[t].spawned))
  }

  lemma LoopMoves(loops: map<nat, LoopPc>, work: seq<Work>, l: nat, pc: LoopPc)
    requires LoopsOk(loops, work) && !pc.Busy? && (l in loops ==> !loops[l].Busy?)
    requires pc.Done? ==> NoTasks(work, l)
    ensures LoopsOk(loops[l := pc], work)
  {
  }

  lemma LoopTakes(loops: map<nat, LoopPc>, work: seq<Work>, l: nat, job: Job)
    requires LoopsOk(loops, work) && (l in loops ==> !loops[l].Busy?)
    ensures LoopsOk(loops[l := Busy(|work|)], work + [Work(l, job, Popped, false)])
  {
    var loops', work' := loops[l := Busy(|work|)], work + [Work(l, job, Popped, false)];
    forall k | k in loops' && loops'[k].Done?
      ensures NoTasks(work', k)
    {
      assert NoTasks(work, k);
    }
  }

  lemma LoopKeeps(loops: map<nat, LoopPc>, work: seq<Work>, t: nat, w: Work)
    requires LoopsOk(loops, work) && t < |work| && w.loop == work[t].loop && !w.spawned
    requires InLoop(work[t].stage) && InLoop(w.stage)
    ensures LoopsOk(loops, work[t := w])
  {
    forall k | k in loops && loops[k].Done?
      ensures NoTasks(work[t := w], k)
    {
      assert NoTasks(work, k);
    }
  }

  lemma LoopLetsGo(loops: map<nat, LoopPc>, work: seq<Work>, t: nat, w: Work, pc: LoopPc)
    requires LoopsOk(loops, work) && t < |work| && w.loop == work[t].loop
    requires InLoop(work[t].stage) && !InLoop(w.stage) && (InTask(w.stage) ==> w.spawned)
    requires pc.Head? || pc.Draining?
    ensures LoopsOk(loops[w.loop := pc], work[t := w])
  {
    var loops', work' := loops[w.loop := pc], work[t := w];
    forall k | k in loops' && loops'[k].Done?
      ensures NoTasks(work', k)
    {
      assert NoTasks(work, k);
    }
  }

  lemma TaskMoves(loops: map<nat, LoopPc>, work: seq<Work>, t: nat, w: Work)
    requires LoopsOk(loops, work) && t < |work| && w.loop == work[t].loop && w.spawned
    requires InTask(work[t].stage) && !InLoop(w.stage)
    ensures LoopsOk(loops, work[t := w])
  {
    forall k | k in loops && loops[k].Done?
      ensures NoTasks(work[t := w], k)
    {
      assert NoTasks(work, k);
    }
  }

  /** What an action does to the loops and the work list. */
  ghost predicate Shape(loops: map<nat, LoopPc>, work: seq<Work>, loops': map<nat, LoopPc>, work': seq<Work>,
                        l: nat, t: nat)
  {
    || (loops' == loops && work' == work)
    || (l in loops' && loops' == loops[l := loops'[l]] && !loops'[l].Busy? && work' == work
        && (l in loops ==> !loops[l].Busy?) && (loops'[l].Done? ==> NoTasks(work, l)))
    || (t < |work| && |work'| == |work| && work' == work[t := work'[t]] && work'[t].loop == work[t].loop
        && work'[t].job == work[t].job
        && (|| (InLoop(work[t].stage) && InLoop(work'[t].stage) && !work'[t].spawned && loops' == loops)
            || (InLoop(work[t].stage) && !InLoop(work'[t].stage) && (InTask(work'[t].stage) ==> work'[t].spawned)
                && (loops' == loops[work[t].loop := Head] || loops' == loops[work[t].loop := Draining]))
            || (InTask(work[t].stage) && !InLoop(work'[t].stage) && work'[t].spawned && loops' == loops)))
  }

  function LoopIn(a: Action): nat
  {
    match a
    case Check(l) => l
    case Pop(l, _) => l
    case PopNone(l) => l
    case Admit(l) => l
    case Advance(l) => l
    case Drain(l) => l
    case _ => 0
  }

  function TicketIn(st: State, a: Action): nat
  {
    match a
    case Finish(t, _) => t
    case Settle(t) => t
    case _ => var pc := LoopOf(st, LoopIn(a)); if pc.Busy? then pc.ticket else 0
  }

  lemma ActionShape(c: Config, st: State, a: Action)
    requires LoopsOk(st.loops, st.work) && !a.Pop?
    ensures var st' := Next(c, st, a);
            Shape(st.loops, st.work, st'.loops, st'.work, LoopIn(a), TicketIn(st, a))
  {
    if a.Admit? || a.Advance? {
      LoopActionShape(c, st, a);
    } else if a.Finish? {
      FinishShape(c, st, a.ticket, a.outcome);
    }
  }

  lemma FinishShape(c: Config, st: State, t: nat, o: Outcome)
    requires LoopsOk(st.loops, st.work)
    ensures var st' := Next(c, st, Finish(t, o)); Shape(st.loops, st.work, st'.loops, st'.work, 0, t)
  {
  }

  lemma LoopActionShape(c: Config, st: State, a: Action)
    requires LoopsOk(st.loops, st.work) && (a.Admit? || a.Advance?)
    ensures var st' := Next(c, st, a);
            Shape(st.loops, st.work, st'.loops, st'.work, LoopIn(a), TicketIn(st, a))
  {
    var st', l := Next(c, st, a), LoopIn(a);
    if st' != st {
      assert l in st.loops;
      assert st.work[TicketIn(st, a)].loop == l;
      assert a.Advance? && st.work[TicketIn(st, a)].stage.Refused? ==> st'.loops == st.loops[l := Draining];
      assert a.Advance? && st.work[TicketIn(st, a)].stage.Admitted? ==> st'.loops == st.loops[l := Head];
    }
  }

  lemma KeepsLoopsOk(c: Config, st: State, a: Action)
    requires LoopsOk(st.loops, st.work)
    ensures var st' := Next(c, st, a); LoopsOk(st'.loops, st'.work)
  {
    var st' := Next(c, st, a);
    if a.Pop? {
      if st' != st {
        LoopTakes(st.loops, st.work, a.loop, st.heap[a.index]);
      }
    } else if st'.work == st.work {
      ActionShape(c, st, a);
      if st'.loops != st.loops {
        LoopMoves(st.loops, st.work, LoopIn(a), st'.loops[LoopIn(a)]);
      }
    } else {
      ActionShape(c, st, a);
      var t := TicketIn(st, a);
      if InTask(st.work[t].stage) {
        TaskMoves(st.loops, st.work, t, st'.work[t]);
      } else if InLoop(st'.work[t].stage) {
        LoopKeeps(st.loops, st.work, t, st'.work[t]);
      } else {
        LoopLetsGo(st.loops, st.work, t, st'.work[t], st'.loops[st.work[t].loop]);
      }
    }
  }

  predicate Charged(w: Work)
  {
    w.stage.Admitted? || w.spawned
  }

  function Where(work: seq<Work>, p: Work -> bool): set<nat>
  {
    set t | 0 <= t < |work| && p(work[t])
  }

  function ChargedIn(work: seq<Work>): set<nat> { Where(work, (w: Work) => Charged(w)) }

  function OverIn(work: seq<Work>): set<nat> { Where(work, (w: Work) => w.stage.Over?) }

  function SpawnedIn(work: seq<Work>): set<nat> { Where(work, (w: Work) => w.spawned) }

  /** The shared counter is the number of jobs admitted plus the overshoots not yet given back. An
      overshoot exists only while the limit is used up exactly, so it never costs a page. */
  ghost predicate PagesOk(c: Config, pages: int, work: seq<Work>)
  {
    c.maxPages.Some? ==>
      && pages == |ChargedIn(work)| + |OverIn(work)|
      && |ChargedIn(work)| <= c.maxPages.value
      && (|OverIn(work)| > 0 ==> |ChargedIn(work)| == c.maxPages.value)
  }

  lemma WhereAfter(work: seq<Work>, t: nat, w: Work, p: Work -> bool)
    requires t < |work|
    ensures |Where(work[t := w], p)| == |Where(work, p)| + Bit(p(w)) - Bit(p(work[t]))
  {
    var rest := Where(work, p) - {t};
    assert Where(work, p) == if p(work[t]) then rest + {t} else rest;
    assert Where(work[t := w], p) == if p(w) then rest + {t} else rest;
  }

  lemma WhereOnPop(work: seq<Work>, w: Work, p: Work -> bool)
    requires !p(w)
    ensures Where(work + [w], p) == Where(work, p)
  {
  }

  /** How the page counter moves with the stage of the one job concerned. */
  ghost predicate PagesMove(c: Config, pages: int, pages': int, w: Work, w': Work)
  {
    c.maxPages.Some? ==>
      && pages' - pages == Bit(Charged(w')) - Bit(Charged(w)) + Bit(w'.stage.Over?) - Bit(w.stage.Over?)
      && (Charged(w) ==> Charged(w'))
      && (Charged(w') && !Charged(w) ==> pages < c.maxPages.value)
      && (w'.stage.Over? && !w.stage.Over? ==> pages >= c.maxPages.value && Charged(w') == Charged(w))
  }

  lemma ActionMovesPages(c: Config, st: State, a: Action)
    requires LoopsOk(st.loops, st.work) && !a.Pop?
    ensures var st', t := Next(c, st, a), TicketIn(st, a);
            if st'.work == st.work then st'.pages == st.pages
            else t < |st.work| && |st'.work| == |st.work| && st'.work == st.work[t := st'.work[t]]
                 && PagesMove(c, st.pages, st'.pages, st.work[t], st'.work[t])
  {
    ActionShape(c, st, a);
  }

  lemma KeepsPagesOk(c: Config, st: State, a: Action)
    requires LoopsOk(st.loops, st.work) && PagesOk(c, st.pages, st.work)
    ensures var st' := Next(c, st, a); PagesOk(c, st'.pages, st'.work)
  {
    hide FinishIt, AdmitIt, AdvanceIt, NoTasks, LoopsOk;
    var st' := Next(c, st, a);
    if a.Pop? {
      if c.maxPages.Some? && st'.work != st.work {
        WhereOnPop(st.work, Work(a.loop, st.heap[a.index], Popped, false), (w: Work) => Charged(w));
        WhereOnPop(st.work, Work(a.loop, st.heap[a.index], Popped, false), (w: Work) => w.stage.Over?);
      }
    } else {
      ActionMovesPages(c, st, a);
      if c.maxPages.Some? && st'.work != st.work {
        var t := TicketIn(st, a);
        WhereAfter(st.work, t, st'.work[t], (w: Work) => Charged(w));
        WhereAfter(st.work, t, st'.work[t], (w: Work) => w.stage.Over?);
      }
    }
  }

  // ----- settling -----

  ghost predicate SettlesOk(st: State)
  {
    && (forall i, j | 0 <= i < j < |st.settles| :: st.settles[i] != st.settles[j])
    && (forall t | 0 <= t < |st.work| :: t in st.settles <==> st.work[t].stage.Settled?)
    && (forall t | t in st.settles :: t < |st.work|)
  }

  lemma KeepsSettlesOk(c: Config, st: State, a: Action)
    requires SettlesOk(st)
    ensures SettlesOk(Next(c, st, a))
  {
    hide FinishIt, NoTasks;
    match a
    case Finish(t, o) => FinishKeepsSettlesOk(c, st, t, o);
    case _ =>
  }

  lemma FinishKeepsSettlesOk(c: Config, st: State, t: nat, o: Outcome)
    requires SettlesOk(st)
    ensures SettlesOk(Next(c, st, Finish(t, o)))
  {
  }

  // ----- every run -----

  /** A finished page is nowhere else. */
  ghost predicate RetiredGone(st: State)
  {
    forall k | k in st.retired ::
      && k in st.seen
      && (forall i | 0 <= i < |st.heap| :: st.heap[i].key != k)
      && (forall t | 0 <= t < |st.work| && Live(st.work[t]) :: st.work[t].job.key != k)
  }

  lemma KeepsRetiredGone(c: Config, st: State, a: Action)
    requires JobsOk(st) && Exclusive(st.heap, st.work) && RetiredGone(st)
    ensures RetiredGone(Next(c, st, a))
  {
    hide FinishIt, NoTasks;
    match a
    case Finish(t, o) => FinishKeepsRetiredGone(c, st, t, o);
    case Advance(l) => AdvanceKeepsRetiredGone(c, st, l);
    case _ =>
  }

  lemma AdvanceKeepsRetiredGone(c: Config, st: State, l: nat)
    requires JobsOk(st) && Exclusive(st.heap, st.work) && RetiredGone(st)
    ensures RetiredGone(Next(c, st, Advance(l)))
  {
  }

  lemma FinishKeepsRetiredGone(c: Config, st: State, t: nat, o: Outcome)
    requires JobsOk(st) && Exclusive(st.heap, st.work) && RetiredGone(st)
    ensures RetiredGone(Next(c, st, Finish(t, o)))
  {
  }

  ghost predicate Inv(c: Config, st: State)
  {
    && JobsOk(st) && Exclusive(st.heap, st.work) && LoopsOk(st.loops, st.work)
    && PagesOk(c, st.pages, st.work) && SettlesOk(st) && RetiredGone(st)
  }

  lemma {:induction false} RunKeepsInv(c: Config, acts: seq<Action>)
    ensures Inv(c, Run(c, acts))
    decreases |acts|
  {
    if acts == [] {
      assert ChargedIn([]) == {} && OverIn([]) == {};
    } else {
      var before, a := Run(c, acts[..|acts| - 1]), acts[|acts| - 1];
      RunKeepsInv(c, acts[..|acts| - 1]);
      KeepsJobsOk(c, before, a);
      KeepsExclusive(c, before, a);
      KeepsLoopsOk(c, before, a);
      KeepsPagesOk(c, before, a);
      KeepsSettlesOk(c, before, a);
      KeepsRetiredGone(c, before, a);
    }
  }

  // ----- main results -----

  /** The jobs spawned by all loops together never exceed `max_pages`. */
  lemma SpawnedWithinLimit(c: Config, acts: seq<Action>)
    requires c.maxPages.Some?
    ensures |SpawnedIn(Run(c, acts).work)| <= c.maxPages.value
  {
    RunKeepsInv(c, acts);
    var work := Run(c, acts).work;
    var spawned, charged := SpawnedIn(work), ChargedIn(work);
    assert spawned <= charged;
    assert charged == spawned + (charged - spawned);
  }

  /** A job is turned away only when exactly `max_pages` jobs have been admitted. */
  lemma TurnedAwayOnlyAtLimit(c: Config, acts: seq<Action>, t: nat)
    requires c.maxPages.Some?
    requires var st := Run(c, acts); t < |st.work| && st.work[t].stage.Over?
    ensures |ChargedIn(Run(c, acts).work)| == c.maxPages.value
  {
    RunKeepsInv(c, acts);
    assert t in OverIn(Run(c, acts).work);
  }

  /** What the end of a spawned job puts back into the queue, and that it settles the job either way: an error puts it
      back with one more attempt iff fewer than `retry_max` lie behind it, a policy retry iff it is registered. */
  lemma EndedJobPutsBack(c: Config, st: State, t: nat, o: Outcome)
    requires t < |st.work| && st.work[t].stage == Running
    ensures var end := Next(c, Next(c, st, Finish(t, o)), Settle(t));
            var job := st.work[t].job;
            var newId := |st.owner|;
            && end.work == st.work[t := st.work[t].(stage := Settled)]
            && end.settles == st.settles + [t] && end.inFlight == st.inFlight - {job.id}
            && end.loops == st.loops && end.pages == st.pages
            && end.heap == st.heap + (
                 match o
                 case Retire => []
                 case RetryOk =>
                   if job.id in st.inFlight then
                     [st.inFlight[job.id].(attempts := st.inFlight[job.id].attempts + 1)]
                   else []
                 case Defer => [Job(newId, job.key, job.attempts)]
                 case Escalate => [Job(newId, job.key, 0)]
                 case ErrorRetry =>
                   if job.attempts < c.retryMax then [Job(job.id, job.key, job.attempts + 1)] else [])
            && end.owner == st.owner + (if o == Defer || o == Escalate then [job.key] else [])
            && end.retired == st.retired +
                 (if o == Retire || (o == ErrorRetry && job.attempts >= c.retryMax) then {job.key} else {})
  {
    hide NoTasks;
    var one := Next(c, st, Finish(t, o));
    assert one.work == st.work[t := one.work[t]];
    assert !one.work[t].stage.Settled? ==> one.settles == st.settles;
  }

  // ----- when a loop leaves -----

  /** Exactly `max_pages` jobs have been admitted. */
  ghost predicate LimitUsedUp(c: Config, work: seq<Work>)
  {
    c.maxPages.Some? && |ChargedIn(work)| == c.maxPages.value
  }

  /** At its head a loop leaves iff exactly `max_pages` jobs have been admitted; else it goes on to pop. */
  lemma HeadDecides(c: Config, acts: seq<Action>, l: nat)
    requires LoopOf(Run(c, acts), l) == Head
    ensures var st := Run(c, acts);
            LoopOf(Next(c, st, Check(l)), l) ==
              if c.maxPages.Some? && |ChargedIn(st.work)| == c.maxPages.value then Draining else Popping
  {
    hide Run, ChargedIn, OverIn, JobsOk, Exclusive, LoopsOk, SettlesOk, RetiredGone;
    RunKeepsInv(c, acts);
  }

  /** A pop that gets nothing ends the loop iff no job is queued and none of its own tasks is running. */
  lemma NothingToPopDecides(c: Config, acts: seq<Action>, l: nat)
    requires LoopOf(Run(c, acts), l) == Popping
    ensures var st := Run(c, acts);
            LoopOf(Next(c, st, PopNone(l)), l) ==
              if st.heap == [] && (forall w | w in st.work && w.loop == l :: w.spawned ==> w.stage.Settled?)
              then Draining else Head
  {
    hide Run, NoTasks;
    SettledIffNoTasks(c, acts, l);
  }

  /** A loop that leaves is done as soon as each of the jobs it spawned has been settled, and no sooner. */
  lemma DrainDecides(c: Config, acts: seq<Action>, l: nat)
    requires LoopOf(Run(c, acts), l) == Draining
    ensures var st := Run(c, acts);
            LoopOf(Next(c, st, Drain(l)), l) ==
              if forall w | w in st.work && w.loop == l :: w.spawned ==> w.stage.Settled? then Done else Draining
  {
    hide Run, LoopsOk, Exclusive, PagesOk, SettlesOk, RetiredGone, JobsOk;
    SettledIffNoTasks(c, acts, l);
  }

  lemma SettledIffNoTasks(c: Config, acts: seq<Action>, l: nat)
    ensures var work := Run(c, acts).work;
            NoTasks(work, l) <==> forall w | w in work && w.loop == l :: w.spawned ==> w.stage.Settled?
  {
    hide Run, Exclusive, PagesOk, SettlesOk, RetiredGone, JobsOk;
    RunKeepsInv(c, acts);
    var work := Run(c, acts).work;
    if NoTasks(work, l) {
      forall w | w in work && w.loop == l && w.spawned
        ensures w.stage.Settled?
      {
        var t :| 0 <= t < |work| && work[t] == w;
      }
    } else {
      var t :| 0 <= t < |work| && work[t].loop == l && InTask(work[t].stage);
      assert work[t] in work && work[t].spawned;
    }
  }

  /** A popped job is spawned, and its loop goes back to the head, iff fewer than `max_pages` jobs are admitted or
      about to be given back; else it is settled unspawned, its loop leaves, and the counter is as before. */
  lemma PoppedJobIsSpawnedIff(c: Config, acts: seq<Action>, l: nat, i: nat)
    requires var st := Run(c, acts); LoopOf(st, l) == Popping && i < |st.heap|
    ensures var st := Run(c, acts);
            var job, t := st.heap[i], |st.work|;
            var tried := Next(c, Next(c, Next(c, st, Pop(l, i)), Admit(l)), Advance(l));
            if c.maxPages == None || |ChargedIn(st.work)| + |OverIn(st.work)| < c.maxPages.value then
              && tried.work == st.work + [Work(l, job, Running, true)] && LoopOf(tried, l) == Head
              && tried.heap == st.heap[..i] + st.heap[i + 1..] && tried.inFlight == st.inFlight[job.id := job]
              && tried.settles == st.settles
            else
              var end := Next(c, tried, Advance(l));
              && end.work == st.work + [Work(l, job, Settled, false)] && LoopOf(end, l) == Draining
              && end.heap == st.heap[..i] + st.heap[i + 1..] && end.inFlight == st.inFlight - {job.id}
              && end.settles == st.settles + [t] && end.pages == st.pages
  {
    hide Run, ChargedIn, OverIn, JobsOk, Exclusive, LoopsOk, SettlesOk, RetiredGone, NoTasks;
    RunKeepsInv(c, acts);
    var st := Run(c, acts);
    var job, t := st.heap[i], |st.work|;
    var popped := Next(c, st, Pop(l, i));
    assert popped.work[t := Work(l, job, Admitted, false)] == st.work + [Work(l, job, Admitted, false)];
    assert popped.work[t := Work(l, job, Over, false)] == st.work + [Work(l, job, Over, false)];
  }

  predicate Leaving(st: State, l: nat)
  {
    LoopOf(st, l) == Draining || LoopOf(st, l) == Done
  }

  /** A job that was turned away, or is about to be. */
  predicate TurnedAway(w: Work)
  {
    w.stage.Over? || w.stage.Refused? || (w.stage.Settled? && !w.spawned)
  }

  ghost predicate TurnedAwayOk(c: Config, work: seq<Work>)
  {
    forall t | 0 <= t < |work| && TurnedAway(work[t]) :: LimitUsedUp(c, work)
  }

  lemma StaysUsedUp(c: Config, st: State, a: Action)
    requires Inv(c, st) && LimitUsedUp(c, st.work)
    ensures LimitUsedUp(c, Next(c, st, a).work)
  {
    hide FinishIt, AdmitIt, AdvanceIt, NoTasks, Exclusive, JobsOk, SettlesOk, RetiredGone;
    var st' := Next(c, st, a);
    KeepsPagesOk(c, st, a);
    hide LoopsOk;
    if a.Pop? {
      if st'.work != st.work {
        WhereOnPop(st.work, Work(a.loop, st.heap[a.index], Popped, false), (w: Work) => Charged(w));
      }
    } else if st'.work != st.work {
      ActionMovesPages(c, st, a);
      WhereAfter(st.work, TicketIn(st, a), st'.work[TicketIn(st, a)], (w: Work) => Charged(w));
    }
  }

  /** Only an overshoot turns a job away. */
  lemma TurnsAway(c: Config, st: State, a: Action, t: nat)
    requires LoopsOk(st.loops, st.work)
    requires t < |Next(c, st, a).work| && TurnedAway(Next(c, st, a).work[t])
    ensures (t < |st.work| && TurnedAway(st.work[t])) || (Next(c, st, a).work[t].stage.Over? && c.maxPages.Some?)
  {
    hide NoTasks, FinishIt, LoopsOk;
    if a.Finish? || a.Settle? {
      ActionShape(c, st, a);
      hide Next;
      TaskIsNotTurnedAway(st, Next(c, st, a), LoopIn(a), TicketIn(st, a), t);
    }
  }

  lemma TaskIsNotTurnedAway(st: State, st': State, l: nat, u: nat, t: nat)
    requires Shape(st.loops, st.work, st'.loops, st'.work, l, u)
    requires t < |st'.work| && TurnedAway(st'.work[t])
    ensures t < |st.work| && (TurnedAway(st.work[t]) || InLoop(st.work[t].stage))
  {
    hide NoTasks;
  }

  lemma KeepsTurnedAwayOk(c: Config, st: State, a: Action)
    requires Inv(c, st) && TurnedAwayOk(c, st.work)
    ensures TurnedAwayOk(c, Next(c, st, a).work)
  {
    hide Next, Exclusive, JobsOk, SettlesOk, RetiredGone, TurnedAway;
    var st' := Next(c, st, a);
    KeepsPagesOk(c, st, a);
    forall t | 0 <= t < |st'.work| && TurnedAway(st'.work[t])
      ensures LimitUsedUp(c, st'.work)
    {
      TurnsAway(c, st, a, t);
      if st'.work[t].stage.Over? {
        assert t in OverIn(st'.work);
      } else {
        StaysUsedUp(c, st, a);
      }
    }
  }

  lemma {:induction false} RunTurnsAwayAtLimit(c: Config, acts: seq<Action>)
    ensures TurnedAwayOk(c, Run(c, acts).work)
    decreases |acts|
  {
    hide Next, Inv, LimitUsedUp, TurnedAway;
    if acts == [] {
    } else {
      RunTurnsAwayAtLimit(c, acts[..|acts| - 1]);
      RunKeepsInv(c, acts[..|acts| - 1]);
      KeepsTurnedAwayOk(c, Run(c, acts[..|acts| - 1]), acts[|acts| - 1]);
    }
  }

  /** Every job popped by a finished loop was spawned, unless `max_pages` jobs had been admitted. */
  lemma SpawnedUnlessLimitUsedUp(c: Config, acts: seq<Action>, t: nat)
    requires var st := Run(c, acts); t < |st.work| && LoopOf(st, st.work[t].loop) == Done && !st.work[t].spawned
    ensures c.maxPages.Some? && |ChargedIn(Run(c, acts).work)| == c.maxPages.value
  {
    RunTurnsAwayAtLimit(c, acts);
    RunKeepsInv(c, acts);
    hide Run;
  }

  /** Why a loop may leave its head, its pop or its refused job. */
  ghost predicate MayLeave(c: Config, st: State, a: Action, l: nat)
  {
    || LimitUsedUp(c, st.work)
    || (a == PopNone(l) && st.heap == [] && NoTasks(st.work, l))
  }

  lemma LeavesFor(c: Config, st: State, a: Action, l: nat)
    requires Inv(c, st) && TurnedAwayOk(c, st.work) && !Leaving(st, l) && Leaving(Next(c, st, a), l)
    ensures MayLeave(c, st, a, l)
  {
    hide Exclusive, JobsOk, SettlesOk, RetiredGone, FinishIt, ChargedIn, OverIn;
    if a.Finish? {
      FinishKeepsLoops(c, st, a.ticket, a.outcome);
    } else if a.Advance? {
      assert st.work[LoopOf(st, l).ticket].stage.Refused?;
      assert TurnedAway(st.work[LoopOf(st, l).ticket]);
    }
  }

  lemma StaysLeaving(c: Config, st: State, a: Action, l: nat)
    requires Leaving(st, l) && LoopsOk(st.loops, st.work)
    ensures Leaving(Next(c, st, a), l)
  {
    hide NoTasks, FinishIt;
    if a.Finish? {
      FinishKeepsLoops(c, st, a.ticket, a.outcome);
    }
  }

  lemma FinishKeepsLoops(c: Config, st: State, t: nat, o: Outcome)
    ensures Next(c, st, Finish(t, o)).loops == st.loops
  {
  }

  /** A loop that has left did so at one instant, once and for all, because exactly `max_pages` jobs had been admitted
      or because it found nothing queued and had no task of its own. */
  lemma {:induction false} WhyALoopLeft(c: Config, acts: seq<Action>, l: nat) returns (n: nat)
    requires Leaving(Run(c, acts), l)
    ensures n < |acts| && MayLeave(c, Run(c, acts[..n]), acts[n], l)
    ensures forall m | 0 <= m <= |acts| :: Leaving(Run(c, acts[..m]), l) <==> m > n
    decreases |acts|
  {
    NotLeavingYet(c, acts, l);
    hide Next, Inv, MayLeave, Leaving, TurnedAwayOk;
    var k := |acts| - 1;
    var prev := acts[..k];
    assert acts[..k + 1] == acts;
    RunKeepsInv(c, prev);
    RunTurnsAwayAtLimit(c, prev);
    if Leaving(Run(c, prev), l) {
      n := WhyALoopLeft(c, prev, l);
      assert prev[..n] == acts[..n];
      forall m | 0 <= m <= |acts|
        ensures Leaving(Run(c, acts[..m]), l) <==> m > n
      {
        if m <= k {
          assert prev[..m] == acts[..m];
        }
      }
    } else {
      n := k;
      LeavesFor(c, Run(c, prev), acts[k], l);
      forall m | 0 <= m <= k
        ensures !Leaving(Run(c, acts[..m]), l)
      {
        LeftBefore(c, acts, m, k, l);
      }
    }
  }

  lemma NotLeavingYet(c: Config, acts: seq<Action>, l: nat)
    ensures acts == [] ==> !Leaving(Run(c, acts), l)
  {
  }

  lemma {:induction false} LeftBefore(c: Config, acts: seq<Action>, m: nat, k: nat, l: nat)
    requires m <= k <= |acts|
    ensures Leaving(Run(c, acts[..m]), l) ==> Leaving(Run(c, acts[..k]), l)
    decreases k
  {
    hide Next, Leaving, JobsOk, Exclusive, LoopsOk, PagesOk, SettlesOk, RetiredGone;
    if k == m {
    } else {
      LeftBefore(c, acts, m, k - 1, l);
      RunKeepsInv(c, acts[..k - 1]);
      assert acts[..k][..k - 1] == acts[..k - 1];
      if Leaving(Run(c, acts[..k - 1]), l) {
        StaysLeaving(c, Run(c, acts[..k - 1]), acts[k - 1], l);
      }
    }
  }

  /** Once a loop is done, every job it popped has been settled, and settled once. */
  lemma SettledExactlyOnce(c: Config, acts: seq<Action>, t: nat)
    requires var st := Run(c, acts);
             t < |st.work| && st.work[t].loop in st.loops && st.loops[st.work[t].loop].Done?
    ensures multiset(Run(c, acts).settles)[t] == 1
  {
    RunKeepsInv(c, acts);
    var st := Run(c, acts);
    assert !InTask(st.work[t].stage) && !InLoop(st.work[t].stage);
    OnceIn(st.settles, t);
  }

  lemma {:induction false} OnceIn(s: seq<nat>, x: nat)
    requires x in s && forall i, j | 0 <= i < j < |s| :: s[i] != s[j]
    ensures multiset(s)[x] == 1
  {
    var i :| 0 <= i < |s| && s[i] == x;
    assert s == s[..i] + [x] + s[i + 1..];
    assert x !in s[..i] && x !in s[i + 1..];
  }

  /** A page is never worked on twice at the same time, whatever is retried, deferred or escalated. */
  lemma OneWorkerPerPage(c: Config, acts: seq<Action>, t: nat, u: nat)
    requires var st := Run(c, acts);
             && t < |st.work| && u < |st.work| && Live(st.work[t]) && Live(st.work[u])
             && st.work[t].job.key == st.work[u].job.key
    ensures t == u
  {
    RunKeepsInv(c, acts);
  }
}
