/**
 What retries do to the jobs of the dispatch loop in Dispatch.dfy: how many attempts a job can reach, how often a page
 is run, and when a page is lost. Results are per page, so what happens to other pages does not matter.
 */
module Retries {
  import opened Wrappers
  import opened Common
  import opened Dispatch

  // ----- retry limit -----

  /** No job of this page, wherever it is, has more than `n` attempts. */
  ghost predicate AttemptsOf(st: State, k: Key, n: nat)
  {
    && (forall i | 0 <= i < |st.heap| && st.heap[i].key == k :: st.heap[i].attempts <= n)
    && (forall t | 0 <= t < |st.work| && st.work[t].job.key == k :: st.work[t].job.attempts <= n)
    && (forall t | 0 <= t < |st.work| && st.work[t].job.key == k && st.work[t].stage.Failing? ::
          st.work[t].stage.next.attempts <= n)
  }

  /** A job in the table of jobs handed out is the job of some ticket. */
  ghost predicate TableOk(st: State)
  {
    forall id | id in st.inFlight :: exists t | 0 <= t < |st.work| :: st.work[t].job == st.inFlight[id]
  }

  /** A task of this page ends with `Ok(Retry)` and its job is still in the table, so it is put back. */
  predicate PolicyRetry(st: State, a: Action, k: Key)
  {
    && a.Finish? && a.outcome == RetryOk && a.ticket < |st.work| && st.work[a.ticket].stage.Running?
    && st.work[a.ticket].job.key == k && st.work[a.ticket].job.id in st.inFlight
  }

  /** The test that the error path makes and a policy retry does not. */
  predicate Guarded(c: Config, st: State, a: Action, k: Key)
  {
    PolicyRetry(st, a, k) ==> st.inFlight[st.work[a.ticket].job.id].attempts < c.retryMax
  }

  function PolicyRetries(c: Config, acts: seq<Action>, k: Key): nat
    decreases |acts|
  {
    if acts == [] then 0
    else
      var n := |acts| - 1;
      PolicyRetries(c, acts[..n], k) + Bit(PolicyRetry(Run(c, acts[..n]), acts[n], k))
  }

  /** No ticket ever changes its job. */
  lemma JobsStay(c: Config, st: State, a: Action)
    ensures var st' := Next(c, st, a);
      && |st.work| <= |st'.work| && (forall t | 0 <= t < |st.work| :: st'.work[t].job == st.work[t].job)
      && (forall t | |st.work| <= t < |st'.work| :: st'.work[t].job in st.heap && !st'.work[t].stage.Failing?)
  {
    hide FinishIt, AdmitIt, AdvanceIt;
    match a
    case Finish(t, o) => FinishJobsStay(c, st, t, o);
    case Admit(l) => AdmitJobsStay(c, st, l);
    case Advance(l) => AdvanceJobsStay(c, st, l);
    case _ =>
  }

  lemma FinishJobsStay(c: Config, st: State, t: nat, o: Outcome)
    ensures var st' := Next(c, st, Finish(t, o));
      |st.work| == |st'.work| && forall u | 0 <= u < |st.work| :: st'.work[u].job == st.work[u].job
  {
  }

  lemma AdmitJobsStay(c: Config, st: State, l: nat)
    ensures var st' := Next(c, st, Admit(l));
      |st.work| == |st'.work| && forall u | 0 <= u < |st.work| :: st'.work[u].job == st.work[u].job
  {
  }

  lemma AdvanceJobsStay(c: Config, st: State, l: nat)
    ensures var st' := Next(c, st, Advance(l));
      |st.work| == |st'.work| && forall u | 0 <= u < |st.work| :: st'.work[u].job == st.work[u].job
  {
  }

  /** Only a pop adds to the table. */
  lemma TableEntry(c: Config, st: State, a: Action, id: nat)
    requires id in Next(c, st, a).inFlight
    ensures var st' := Next(c, st, a);
      || (id in st.inFlight && st'.inFlight[id] == st.inFlight[id])
      || (|st'.work| == |st.work| + 1 && st'.work[|st.work|].job == st'.inFlight[id])
  {
  }

  lemma KeepsTableOk(c: Config, st: State, a: Action)
    requires TableOk(st)
    ensures TableOk(Next(c, st, a))
  {
    hide Next;
    var st' := Next(c, st, a);
    JobsStay(c, st, a);
    forall id | id in st'.inFlight
      ensures exists t | 0 <= t < |st'.work| :: st'.work[t].job == st'.inFlight[id]
    {
      TableEntry(c, st, a, id);
      if id in st.inFlight && st'.inFlight[id] == st.inFlight[id] {
        var t :| 0 <= t < |st.work| && st.work[t].job == st.inFlight[id];
        assert st'.work[t].job == st'.inFlight[id];
      }
    }
  }

  lemma {:induction false} RunKeepsTableOk(c: Config, acts: seq<Action>)
    ensures TableOk(Run(c, acts))
    decreases |acts|
  {
    if acts == [] {
    } else {
      RunKeepsTableOk(c, acts[..|acts| - 1]);
      KeepsTableOk(c, Run(c, acts[..|acts| - 1]), acts[|acts| - 1]);
      hide Next, TableOk;
    }
  }

  /** What a policy retry puts back: the table's job of this page with one attempt more. */
  lemma PolicyRetryAdds(c: Config, st: State, a: Action, k: Key)
    requires JobsOk(st) && TableOk(st) && PolicyRetry(st, a, k)
    ensures var job := st.inFlight[st.work[a.ticket].job.id];
      && (exists u | 0 <= u < |st.work| :: st.work[u].job == job) && job.key == k
      && Next(c, st, a) == st.(
           work := st.work[a.ticket := st.work[a.ticket].(stage := Failing(job.(attempts := job.attempts + 1)),
                                                          spawned := st.work[a.ticket].spawned)],
           inFlight := st.inFlight - {st.work[a.ticket].job.id})
  {
    var w := st.work[a.ticket];
    assert WorkOk(st, w);
    assert JobOk(st.owner, st.seen, st.inFlight[w.job.id]);
  }

  lemma PolicyRetryAttempts(c: Config, st: State, a: Action, k: Key, n: nat)
    requires JobsOk(st) && TableOk(st) && AttemptsOf(st, k, n) && PolicyRetry(st, a, k)
    ensures AttemptsOf(Next(c, st, a), k, n + 1)
    ensures AttemptsOf(Next(c, st, a), k, n) <==> st.inFlight[st.work[a.ticket].job.id].attempts < n
  {
    hide Next, JobsOk, TableOk;
    PolicyRetryAdds(c, st, a, k);
    var st', t := Next(c, st, a), a.ticket;
    assert st'.work[t].stage.Failing? && st'.work[t].job == st.work[t].job;
    assert forall u | 0 <= u < |st.work| && u != t :: st'.work[u] == st.work[u];
  }

  /** A job in the heap after a step that is not a policy retry was there before, or was about to be pushed, or comes
      from a ticket of its page with no more than `retry_max` attempts or those of the ticket. */
  lemma HeapEntry(c: Config, st: State, a: Action, i: nat)
    requires JobsOk(st) && i < |Next(c, st, a).heap|
    ensures var j := Next(c, st, a).heap[i];
      || j in st.heap
      || (j.attempts == 0)
      || (exists t | 0 <= t < |st.work| :: st.work[t].job.key == j.key &&
            (j.attempts <= c.retryMax || j.attempts == st.work[t].job.attempts || st.work[t].stage == Failing(j)))
  {
    hide FinishIt, AdmitIt, AdvanceIt, NoTasks;
    match a
    case Finish(t, o) => FinishHeapEntry(c, st, t, o, i);
    case Settle(t) => SettleHeapEntry(c, st, t, i);
    case Admit(l) => LoopLeavesHeap(c, st, a);
    case Advance(l) => LoopLeavesHeap(c, st, a);
    case _ =>
  }

  lemma FinishHeapEntry(c: Config, st: State, t: nat, o: Outcome, i: nat)
    requires i < |Next(c, st, Finish(t, o)).heap|
    ensures var j := Next(c, st, Finish(t, o)).heap[i];
      || j in st.heap
      || j.attempts == 0
      || (t < |st.work| && st.work[t].job.key == j.key &&
          (j.attempts <= c.retryMax || j.attempts == st.work[t].job.attempts))
  {
  }

  lemma SettleHeapEntry(c: Config, st: State, t: nat, i: nat)
    requires JobsOk(st) && i < |Next(c, st, Settle(t)).heap|
    ensures var j := Next(c, st, Settle(t)).heap[i];
      j in st.heap || (t < |st.work| && st.work[t].job.key == j.key && st.work[t].stage == Failing(j))
  {
    if t < |st.work| {
      assert WorkOk(st, st.work[t]);
    }
  }

  lemma LoopLeavesHeap(c: Config, st: State, a: Action)
    requires a.Admit? || a.Advance?
    ensures Next(c, st, a).heap == st.heap
  {
  }

  /** Only a policy retry puts a ticket into the stage before a push. */
  lemma FailingEntry(c: Config, st: State, a: Action, t: nat)
    requires t < |st.work| && t < |Next(c, st, a).work| && Next(c, st, a).work[t].stage.Failing?
    ensures Next(c, st, a).work[t].stage == st.work[t].stage || PolicyRetry(st, a, st.work[t].job.key)
  {
    hide FinishIt, AdmitIt, AdvanceIt;
    match a
    case Finish(u, o) => FinishFailing(c, st, u, o, t);
    case Admit(l) => AdmitFailing(c, st, l, t);
    case Advance(l) => AdvanceFailing(c, st, l, t);
    case _ =>
  }

  lemma FinishFailing(c: Config, st: State, u: nat, o: Outcome, t: nat)
    requires var st' := Next(c, st, Finish(u, o)); t < |st.work| && t < |st'.work| && st'.work[t].stage.Failing?
    ensures var st', a := Next(c, st, Finish(u, o)), Finish(u, o);
      st'.work[t].stage == st.work[t].stage || PolicyRetry(st, a, st.work[t].job.key)
  {
  }

  lemma AdmitFailing(c: Config, st: State, l: nat, t: nat)
    requires var st' := Next(c, st, Admit(l)); t < |st.work| && t < |st'.work| && st'.work[t].stage.Failing?
    ensures Next(c, st, Admit(l)).work[t].stage == st.work[t].stage
  {
  }

  lemma AdvanceFailing(c: Config, st: State, l: nat, t: nat)
    requires var st' := Next(c, st, Advance(l)); t < |st.work| && t < |st'.work| && st'.work[t].stage.Failing?
    ensures Next(c, st, Advance(l)).work[t].stage == st.work[t].stage
  {
  }

  /** Any other step leaves the bound of the page as it is. */
  lemma OtherAttempts(c: Config, st: State, a: Action, k: Key, n: nat)
    requires JobsOk(st) && AttemptsOf(st, k, n) && n >= c.retryMax && !PolicyRetry(st, a, k)
    ensures AttemptsOf(Next(c, st, a), k, n)
  {
    hide Next, JobsOk, PolicyRetry;
    var st' := Next(c, st, a);
    JobsStay(c, st, a);
    forall i | 0 <= i < |st'.heap| && st'.heap[i].key == k
      ensures st'.heap[i].attempts <= n
    {
      HeapEntry(c, st, a, i);
    }
    forall t | 0 <= t < |st'.work| && st'.work[t].job.key == k && st'.work[t].stage.Failing?
      ensures st'.work[t].stage.next.attempts <= n
    {
      FailingEntry(c, st, a, t);
    }
  }

  /** Once a job of the page has gone past the bound, one stays past it. */
  lemma ExcessStays(c: Config, st: State, a: Action, k: Key, n: nat)
    requires JobsOk(st) && !AttemptsOf(st, k, n)
    ensures !AttemptsOf(Next(c, st, a), k, n)
  {
    hide Next, JobsOk;
    var st' := Next(c, st, a);
    JobsStay(c, st, a);
    if i: nat :| i < |st.heap| && st.heap[i].key == k && st.heap[i].attempts > n {
      HeapJobStays(c, st, a, i);
    } else if t: nat :| t < |st.work| && st.work[t].job.key == k && st.work[t].job.attempts > n {
      assert st'.work[t].job == st.work[t].job;
    } else {
      var t: nat :| t < |st.work| && st.work[t].job.key == k && st.work[t].stage.Failing?
                    && st.work[t].stage.next.attempts > n;
      FailingStays(c, st, a, t);
    }
  }

  lemma HeapJobStays(c: Config, st: State, a: Action, i: nat)
    requires i < |st.heap|
    ensures var st', j := Next(c, st, a), st.heap[i];
      || (exists m | 0 <= m < |st'.heap| :: st'.heap[m] == j)
      || (exists t | 0 <= t < |st'.work| :: st'.work[t].job == j)
  {
    var st' := Next(c, st, a);
    if a.Pop? && st' != st {
      if i == a.index {
        assert st'.work[|st.work|].job == st.heap[i];
      } else {
        assert st'.heap[if i < a.index then i else i - 1] == st.heap[i];
      }
    } else {
      assert st'.heap[i] == st.heap[i];
    }
  }

  lemma FailingStays(c: Config, st: State, a: Action, t: nat)
    requires JobsOk(st) && t < |st.work| && st.work[t].stage.Failing?
    ensures var st', j := Next(c, st, a), st.work[t].stage.next;
      && j.key == st.work[t].job.key
      && ((t < |st'.work| && st'.work[t] == st.work[t]) || (exists m | 0 <= m < |st'.heap| :: st'.heap[m] == j))
  {
    assert WorkOk(st, st.work[t]);
    FailingIsLeft(c, st, a, t);
    hide Next, JobsOk, WorkOk;
  }

  lemma FailingIsLeft(c: Config, st: State, a: Action, t: nat)
    requires t < |st.work| && st.work[t].stage.Failing?
    ensures var st' := Next(c, st, a);
      || (t < |st'.work| && st'.work[t] == st.work[t])
      || (|st'.heap| > 0 && st'.heap[|st'.heap| - 1] == st.work[t].stage.next)
  {
    hide FinishIt, AdmitIt, AdvanceIt, NoTasks;
    match a
    case Finish(u, o) => FinishLeavesFailing(c, st, u, o, t);
    case Admit(l) => LoopLeavesFailing(c, st, a, t);
    case Advance(l) => LoopLeavesFailing(c, st, a, t);
    case _ =>
  }

  lemma FinishLeavesFailing(c: Config, st: State, u: nat, o: Outcome, t: nat)
    requires t < |st.work| && st.work[t].stage.Failing?
    ensures var st' := Next(c, st, Finish(u, o)); t < |st'.work| && st'.work[t] == st.work[t]
  {
  }

  lemma LoopLeavesFailing(c: Config, st: State, a: Action, t: nat)
    requires t < |st.work| && st.work[t].stage.Failing? && (a.Admit? || a.Advance?)
    ensures var st' := Next(c, st, a); t < |st'.work| && st'.work[t] == st.work[t]
  {
  }

  /** All policy retries of the page so far were within the limit. */
  ghost predicate AllGuarded(c: Config, acts: seq<Action>, k: Key)
  {
    forall n | 0 <= n < |acts| :: Guarded(c, Run(c, acts[..n]), acts[n], k)
  }

  lemma OneMoreGuarded(c: Config, acts: seq<Action>, k: Key)
    requires acts != []
    ensures var n := |acts| - 1;
      AllGuarded(c, acts, k) <==> AllGuarded(c, acts[..n], k) && Guarded(c, Run(c, acts[..n]), acts[n], k)
  {
    hide Guarded, Run;
    var front := acts[..|acts| - 1];
    assert forall n | 0 <= n < |front| :: front[..n] == acts[..n] && front[n] == acts[n];
  }

  /** No job of a page has ever gone past `retry_max` attempts if and only if every retry that the policy decided
      for it found fewer than that: the test of the error path, which a policy retry does not make. */
  lemma {:induction false} WithinLimitIffGuarded(c: Config, acts: seq<Action>, k: Key)
    ensures AttemptsOf(Run(c, acts), k, c.retryMax) <==> AllGuarded(c, acts, k)
    decreases |acts|
  {
    if acts == [] {
    } else {
      var front, a := acts[..|acts| - 1], acts[|acts| - 1];
      WithinLimitIffGuarded(c, front, k);
      OneMoreGuarded(c, acts, k);
      LimitStep(c, front, a, k);
      hide Next, AllGuarded, AttemptsOf, Guarded;
    }
  }

  lemma LimitStep(c: Config, acts: seq<Action>, a: Action, k: Key)
    ensures AttemptsOf(Next(c, Run(c, acts), a), k, c.retryMax) <==>
            AttemptsOf(Run(c, acts), k, c.retryMax) && Guarded(c, Run(c, acts), a, k)
  {
    hide Next, Run, AttemptsOf;
    var st := Run(c, acts);
    RunKeepsInv(c, acts);
    RunKeepsTableOk(c, acts);
    if !AttemptsOf(st, k, c.retryMax) {
      ExcessStays(c, st, a, k, c.retryMax);
    } else if PolicyRetry(st, a, k) {
      PolicyRetryAttempts(c, st, a, k, c.retryMax);
    } else {
      OtherAttempts(c, st, a, k, c.retryMax);
    }
  }

  /** So the error path alone stays within `retry_max`, and each policy retry of the page adds one at most. */
  lemma {:induction false} AttemptsBound(c: Config, acts: seq<Action>, k: Key)
    ensures AttemptsOf(Run(c, acts), k, c.retryMax + PolicyRetries(c, acts, k))
    decreases |acts|
  {
    hide Next, AttemptsOf, PolicyRetry, PolicyRetries;
    RetriesOneMore(c, acts, k);
    if acts == [] {
      NothingAttempted(c, k);
    } else {
      var front := acts[..|acts| - 1];
      AttemptsBound(c, front, k);
      BoundStep(c, front, acts[|acts| - 1], k, c.retryMax + PolicyRetries(c, front, k));
    }
  }

  lemma NothingAttempted(c: Config, k: Key)
    ensures AttemptsOf(INITIAL, k, c.retryMax)
  {
  }

  lemma RetriesOneMore(c: Config, acts: seq<Action>, k: Key)
    ensures acts == [] ==> PolicyRetries(c, acts, k) == 0
    ensures acts != [] ==>
      var n := |acts| - 1;
      PolicyRetries(c, acts, k) == PolicyRetries(c, acts[..n], k) + Bit(PolicyRetry(Run(c, acts[..n]), acts[n], k))
  {
    hide PolicyRetry, Run;
  }

  lemma BoundStep(c: Config, acts: seq<Action>, a: Action, k: Key, n: nat)
    requires AttemptsOf(Run(c, acts), k, n) && n >= c.retryMax
    ensures AttemptsOf(Next(c, Run(c, acts), a), k, n + Bit(PolicyRetry(Run(c, acts), a, k)))
  {
    hide Next, Run, AttemptsOf;
    var st := Run(c, acts);
    RunKeepsInv(c, acts);
    RunKeepsTableOk(c, acts);
    if PolicyRetry(st, a, k) {
      PolicyRetryAttempts(c, st, a, k, n);
    } else {
      OtherAttempts(c, st, a, k, n);
    }
  }

  // ----- how often a page is run -----

  /** The tickets of the page that were spawned. */
  function RunsOf(work: seq<Work>, k: Key): set<nat>
  {
    set t | 0 <= t < |work| && work[t].spawned && work[t].job.key == k
  }

  /** The only way in which a task of the page ends without being final is the error path's retry. */
  predicate FinalOrErrorRetry(st: State, a: Action, k: Key)
  {
    a.Finish? && a.ticket < |st.work| && st.work[a.ticket].job.key == k ==>
      a.outcome == Retire || a.outcome == ErrorRetry
  }

  /** The attempts of the page's one queued or live job are the runs before it. */
  ghost predicate RunsCounted(c: Config, st: State, k: Key)
  {
    && |RunsOf(st.work, k)| <= c.retryMax + 1
    && (forall i | 0 <= i < |st.heap| && st.heap[i].key == k ::
          st.heap[i].attempts == |RunsOf(st.work, k)| <= c.retryMax)
    && (forall t | 0 <= t < |st.work| && Live(st.work[t]) && st.work[t].job.key == k ::
          && st.work[t].job.attempts + Bit(st.work[t].spawned) == |RunsOf(st.work, k)|
          && st.work[t].job.attempts <= c.retryMax && !st.work[t].stage.Failing?)
  }

  lemma SameRuns(work: seq<Work>, t: nat, w: Work, k: Key)
    requires t < |work| && w.job == work[t].job && (w.spawned == work[t].spawned || w.job.key != k)
    ensures RunsOf(work[t := w], k) == RunsOf(work, k)
  {
  }

  lemma OneMoreRun(work: seq<Work>, t: nat, w: Work, k: Key)
    requires t < |work| && w.job == work[t].job && w.job.key == k && w.spawned && !work[t].spawned
    ensures |RunsOf(work[t := w], k)| == |RunsOf(work, k)| + 1
  {
    assert RunsOf(work[t := w], k) == RunsOf(work, k) + {t};
  }

  lemma PoppedIsNoRun(work: seq<Work>, w: Work, k: Key)
    requires !w.spawned
    ensures RunsOf(work + [w], k) == RunsOf(work, k)
  {
  }

  /** What a step does to the page's ticket `t` and to the heap, other than a pop or an insertion. */
  ghost predicate RunMove(c: Config, st: State, st': State, t: nat, k: Key)
  {
    && t < |st.work| && |st'.work| == |st.work| && st'.work == st.work[t := st'.work[t]]
    && st'.work[t].job == st.work[t].job
    && (Live(st'.work[t]) ==> Live(st.work[t]))
    && (st.work[t].spawned ==> st'.work[t].spawned)
    && (!st.work[t].spawned && st'.work[t].spawned ==> Live(st.work[t]) && Live(st'.work[t]) && st'.heap == st.heap)
    && (st.work[t].job.key == k && !st.work[t].stage.Failing? ==>
          && !st'.work[t].stage.Failing?
          && (st'.heap == st.heap ||
              (st'.heap == st.heap + [st.work[t].job.(attempts := st.work[t].job.attempts + 1)]
               && st.work[t].job.attempts < c.retryMax && st.work[t].spawned
               && Live(st.work[t]) && !Live(st'.work[t]))))
    && (st.work[t].job.key != k ==>
          st'.heap == st.heap || (|st'.heap| == |st.heap| + 1 && st'.heap[..|st.heap|] == st.heap
                                  && st'.heap[|st.heap|].key != k))
  }

  lemma MoveCounted(c: Config, st: State, st': State, t: nat, k: Key)
    requires Exclusive(st.heap, st.work) && RunsCounted(c, st, k) && RunMove(c, st, st', t, k)
    ensures RunsCounted(c, st', k)
  {
    hide RunsOf;
    if st.work[t].job.key == k && !st.work[t].spawned && st'.work[t].spawned {
      OneMoreRun(st.work, t, st'.work[t], k);
    } else {
      SameRuns(st.work, t, st'.work[t], k);
    }
  }

  lemma ActionMovesRun(c: Config, st: State, a: Action, k: Key)
    requires Inv(c, st) && FinalOrErrorRetry(st, a, k) && !a.Pop? && !a.Insert?
    ensures var st' := Next(c, st, a);
      (st'.work == st.work && st'.heap == st.heap) || RunMove(c, st, st', TicketIn(st, a), k)
  {
    hide FinishIt, AdmitIt, AdvanceIt, NoTasks, PagesOk, SettlesOk, RetiredGone, Exclusive;
    match a
    case Finish(t, o) => FinishMovesRun(c, st, t, o, k);
    case Settle(t) => SettleMovesRun(c, st, t, k);
    case Admit(l) => LoopMovesRun(c, st, a, k);
    case Advance(l) => LoopMovesRun(c, st, a, k);
    case _ =>
  }

  lemma FinishMovesRun(c: Config, st: State, t: nat, o: Outcome, k: Key)
    requires JobsOk(st) && LoopsOk(st.loops, st.work) && FinalOrErrorRetry(st, Finish(t, o), k)
    ensures var st' := Next(c, st, Finish(t, o)); st' == st || RunMove(c, st, st', t, k)
  {
    if Next(c, st, Finish(t, o)) != st {
      assert WorkOk(st, st.work[t]) && InTask(st.work[t].stage);
    }
  }

  lemma SettleMovesRun(c: Config, st: State, t: nat, k: Key)
    requires JobsOk(st)
    ensures var st' := Next(c, st, Settle(t)); st' == st || RunMove(c, st, st', t, k)
  {
    if Next(c, st, Settle(t)) != st {
      assert WorkOk(st, st.work[t]);
    }
  }

  lemma LoopMovesRun(c: Config, st: State, a: Action, k: Key)
    requires LoopsOk(st.loops, st.work) && (a.Admit? || a.Advance?)
    ensures var st' := Next(c, st, a);
      (st'.work == st.work && st'.heap == st.heap) || RunMove(c, st, st', TicketIn(st, a), k)
  {
  }

  lemma PopCounted(c: Config, st: State, l: nat, i: nat, k: Key)
    requires Exclusive(st.heap, st.work) && RunsCounted(c, st, k)
    ensures RunsCounted(c, Next(c, st, Pop(l, i)), k)
  {
    hide RunsOf;
    var st' := Next(c, st, Pop(l, i));
    if st' != st {
      PoppedIsNoRun(st.work, Work(l, st.heap[i], Popped, false), k);
      assert forall m | 0 <= m < |st'.heap| :: st'.heap[m] == st.heap[if m < i then m else m + 1];
    }
  }

  lemma InsertCounted(c: Config, st: State, k': Key, k: Key)
    requires JobsOk(st) && RunsCounted(c, st, k)
    ensures RunsCounted(c, Next(c, st, Insert(k')), k)
  {
    var st' := Next(c, st, Insert(k'));
    if st' != st && k == k' {
      assert forall t | 0 <= t < |st.work| :: WorkOk(st, st.work[t]);
      assert RunsOf(st.work, k) == {};
    }
  }

  lemma StepCounted(c: Config, st: State, a: Action, k: Key)
    requires Inv(c, st) && RunsCounted(c, st, k) && FinalOrErrorRetry(st, a, k)
    ensures RunsCounted(c, Next(c, st, a), k)
  {
    hide Next, FinalOrErrorRetry, RunMove, JobsOk, Exclusive, LoopsOk, PagesOk, SettlesOk, RetiredGone;
    match a
    case Pop(l, i) => PopCounted(c, st, l, i, k);
    case Insert(k') => InsertCounted(c, st, k', k);
    case _ =>
      ActionMovesRun(c, st, a, k);
      var st' := Next(c, st, a);
      if RunMove(c, st, st', TicketIn(st, a), k) {
        MoveCounted(c, st, st', TicketIn(st, a), k);
      }
  }

  ghost predicate OnlyErrorRetries(c: Config, acts: seq<Action>, k: Key)
  {
    forall n | 0 <= n < |acts| :: FinalOrErrorRetry(Run(c, acts[..n]), acts[n], k)
  }

  lemma {:induction false} RunsAreCounted(c: Config, acts: seq<Action>, k: Key)
    requires OnlyErrorRetries(c, acts, k)
    ensures RunsCounted(c, Run(c, acts), k)
    decreases |acts|
  {
    if acts == [] {
      assert RunsOf([], k) == {};
    } else {
      var n := |acts| - 1;
      OnlyErrorRetriesFront(c, acts, n, k);
      RunsAreCounted(c, acts[..n], k);
      RunKeepsInv(c, acts[..n]);
      StepCounted(c, Run(c, acts[..n]), acts[n], k);
      hide Next, Inv;
    }
  }

  lemma OnlyErrorRetriesFront(c: Config, acts: seq<Action>, n: nat, k: Key)
    requires OnlyErrorRetries(c, acts, k) && n < |acts|
    ensures OnlyErrorRetries(c, acts[..n], k) && FinalOrErrorRetry(Run(c, acts[..n]), acts[n], k)
  {
    hide FinalOrErrorRetry, Run;
    assert forall m | 0 <= m < n :: acts[..n][..m] == acts[..m] && acts[..n][m] == acts[m];
  }

  /** A page whose tasks are retried by the error path alone is run at most `retry_max` + 1 times. */
  lemma RunsWithinLimit(c: Config, acts: seq<Action>, k: Key)
    requires OnlyErrorRetries(c, acts, k)
    ensures |RunsOf(Run(c, acts).work, k)| <= c.retryMax + 1
  {
    RunsAreCounted(c, acts, k);
  }

  // ----- is a page ever lost? -----

  /** The page is queued, being worked on, or finished for good. */
  ghost predicate Accounted(st: State, k: Key)
  {
    || (exists i | 0 <= i < |st.heap| :: st.heap[i].key == k)
    || (exists t | 0 <= t < |st.work| :: Live(st.work[t]) && st.work[t].job.key == k)
    || k in st.retired
  }

  /** A page that was inserted is accounted for. */
  ghost predicate Kept(st: State, k: Key)
  {
    k in st.seen ==> Accounted(st, k)
  }

  /** A task of this page that ends with `Ok(Retry)` finds its job in the table of jobs handed out. */
  predicate KeepsRetry(st: State, a: Action, k: Key)
  {
    a.Finish? && a.outcome == RetryOk && a.ticket < |st.work| && st.work[a.ticket].stage.Running? ==>
      st.work[a.ticket].job.key == k ==> st.work[a.ticket].job.id in st.inFlight
  }

  lemma KeepsAccountedInHeap(c: Config, st: State, a: Action, i: nat)
    requires i < |st.heap|
    ensures Accounted(Next(c, st, a), st.heap[i].key)
  {
    var st' := Next(c, st, a);
    if a.Pop? && st' != st {
      if i == a.index {
        assert st'.work[|st.work|].job == st.heap[i] && Live(st'.work[|st.work|]);
      } else {
        assert st'.heap[if i < a.index then i else i - 1] == st.heap[i];
      }
    } else {
      assert st'.heap[i] == st.heap[i];
    }
  }

  lemma KeepsAccountedAtWork(c: Config, st: State, a: Action, t: nat)
    requires Inv(c, st) && t < |st.work| && Live(st.work[t]) && KeepsRetry(st, a, st.work[t].job.key)
    ensures Accounted(Next(c, st, a), st.work[t].job.key)
  {
    hide Next, Inv, KeepsRetry;
    var st' := Next(c, st, a);
    JobsStay(c, st, a);
    if !Live(st'.work[t]) {
      HandedBackOrRetired(c, st, a, t);
    }
  }

  lemma HandedBackOrRetired(c: Config, st: State, a: Action, t: nat)
    requires Inv(c, st) && t < |st.work| && Live(st.work[t]) && KeepsRetry(st, a, st.work[t].job.key)
    requires t < |Next(c, st, a).work| && !Live(Next(c, st, a).work[t])
    ensures var st', k := Next(c, st, a), st.work[t].job.key;
            k in st'.retired || (|st'.heap| == |st.heap| + 1 && st'.heap[|st.heap|].key == k)
  {
    hide FinishIt, AdmitIt, AdvanceIt, NoTasks, KeepsRetry;
    assert WorkOk(st, st.work[t]);
    match a
    case Finish(u, o) => FinishHandsBackOrRetires(c, st, u, o, t);
    case Admit(l) => LoopRetires(c, st, a, t);
    case Advance(l) => LoopRetires(c, st, a, t);
    case _ =>
  }

  lemma FinishHandsBackOrRetires(c: Config, st: State, u: nat, o: Outcome, t: nat)
    requires t < |st.work| && Live(st.work[t]) && KeepsRetry(st, Finish(u, o), st.work[t].job.key)
    requires t < |Next(c, st, Finish(u, o)).work| && !Live(Next(c, st, Finish(u, o)).work[t])
    ensures var st', k := Next(c, st, Finish(u, o)), st.work[t].job.key;
            k in st'.retired || (|st'.heap| == |st.heap| + 1 && st'.heap[|st.heap|].key == k)
  {
  }

  lemma LoopRetires(c: Config, st: State, a: Action, t: nat)
    requires t < |st.work| && Live(st.work[t]) && (a.Admit? || a.Advance?)
    requires t < |Next(c, st, a).work| && !Live(Next(c, st, a).work[t])
    ensures st.work[t].job.key in Next(c, st, a).retired
  {
  }

  lemma NewPageIsQueued(c: Config, st: State, a: Action, k: Key)
    requires k !in st.seen && k in Next(c, st, a).seen
    ensures var heap := Next(c, st, a).heap; |heap| > 0 && heap[|heap| - 1].key == k
  {
  }

  lemma RetiredGrows(c: Config, st: State, a: Action)
    ensures st.retired <= Next(c, st, a).retired && st.seen <= Next(c, st, a).seen
  {
  }

  /** A step that finds the page's retries in the table keeps the page. */
  lemma StepKeeps(c: Config, st: State, a: Action, k: Key)
    requires Inv(c, st) && Kept(st, k) && KeepsRetry(st, a, k)
    ensures Kept(Next(c, st, a), k)
  {
    hide Next, Inv, KeepsRetry;
    var st' := Next(c, st, a);
    if k in st'.seen {
      if k !in st.seen {
        NewPageIsQueued(c, st, a, k);
      } else if i: nat :| i < |st.heap| && st.heap[i].key == k {
        KeepsAccountedInHeap(c, st, a, i);
      } else if t: nat :| t < |st.work| && Live(st.work[t]) && st.work[t].job.key == k {
        KeepsAccountedAtWork(c, st, a, t);
      } else {
        RetiredGrows(c, st, a);
      }
    }
  }

  /** A step that does not loses it. */
  lemma StepLoses(c: Config, st: State, a: Action, k: Key)
    requires Inv(c, st) && !KeepsRetry(st, a, k)
    ensures !Kept(Next(c, st, a), k)
  {
    var t := a.ticket;
    assert WorkOk(st, st.work[t]);
    assert Next(c, st, a) == SettleIt(st, t);
    hide LoopsOk, PagesOk, SettlesOk;
  }

  /** Where a queued job comes from. */
  lemma HeapSource(c: Config, st: State, a: Action, i: nat)
    requires JobsOk(st) && i < |Next(c, st, a).heap|
    ensures var k := Next(c, st, a).heap[i].key;
      || (exists m | 0 <= m < |st.heap| :: st.heap[m].key == k)
      || k !in st.seen
      || (exists t | 0 <= t < |st.work| :: Live(st.work[t]) && st.work[t].job.key == k)
  {
    hide FinishIt, AdmitIt, AdvanceIt, NoTasks;
    match a
    case Finish(t, o) => FinishHeapSource(c, st, t, o, i);
    case Settle(t) => SettleHeapSource(c, st, t, i);
    case Admit(l) => LoopLeavesHeap(c, st, a);
    case Advance(l) => LoopLeavesHeap(c, st, a);
    case _ =>
  }

  lemma FinishHeapSource(c: Config, st: State, t: nat, o: Outcome, i: nat)
    requires i < |Next(c, st, Finish(t, o)).heap|
    ensures var st' := Next(c, st, Finish(t, o));
      || (i < |st.heap| && st'.heap[i] == st.heap[i])
      || (t < |st.work| && Live(st.work[t]) && st.work[t].job.key == st'.heap[i].key)
  {
  }

  lemma SettleHeapSource(c: Config, st: State, t: nat, i: nat)
    requires JobsOk(st) && i < |Next(c, st, Settle(t)).heap|
    ensures var st' := Next(c, st, Settle(t));
      || (i < |st.heap| && st'.heap[i] == st.heap[i])
      || (t < |st.work| && Live(st.work[t]) && st.work[t].job.key == st'.heap[i].key)
  {
    if t < |st.work| {
      assert WorkOk(st, st.work[t]);
    }
  }

  /** A ticket at work was so before, or was just popped. */
  lemma LiveSource(c: Config, st: State, a: Action, t: nat)
    requires t < |st.work| && t < |Next(c, st, a).work| && Live(Next(c, st, a).work[t])
    ensures Live(st.work[t])
  {
    hide FinishIt, AdmitIt, AdvanceIt, NoTasks;
    match a
    case Finish(u, o) => FinishLive(c, st, u, o, t);
    case Admit(l) => LoopLive(c, st, a, t);
    case Advance(l) => LoopLive(c, st, a, t);
    case _ =>
  }

  lemma FinishLive(c: Config, st: State, u: nat, o: Outcome, t: nat)
    requires var st' := Next(c, st, Finish(u, o)); t < |st.work| && t < |st'.work| && Live(st'.work[t])
    ensures Live(st.work[t])
  {
  }

  lemma LoopLive(c: Config, st: State, a: Action, t: nat)
    requires (a.Admit? || a.Advance?) && t < |st.work| && t < |Next(c, st, a).work| && Live(Next(c, st, a).work[t])
    ensures Live(st.work[t])
  {
  }

  lemma RetiredSource(c: Config, st: State, a: Action, k: Key)
    requires k in Next(c, st, a).retired
    ensures k in st.retired || exists t | 0 <= t < |st.work| :: Live(st.work[t]) && st.work[t].job.key == k
  {
    if a.Finish? && k !in st.retired {
      assert Live(st.work[a.ticket]) && st.work[a.ticket].job.key == k;
    } else if k !in st.retired {
      var t := LoopOf(st, a.loop).ticket;
      assert Live(st.work[t]) && st.work[t].job.key == k;
    }
  }

  /** A lost page stays lost. */
  lemma LostStaysLost(c: Config, st: State, a: Action, k: Key)
    requires JobsOk(st) && !Kept(st, k)
    ensures !Kept(Next(c, st, a), k)
  {
    hide Next, JobsOk, Live;
    var st' := Next(c, st, a);
    RetiredGrows(c, st, a);
    JobsStay(c, st, a);
    if i: nat :| i < |st'.heap| && st'.heap[i].key == k {
      HeapSource(c, st, a, i);
    }
    if t: nat :| t < |st'.work| && Live(st'.work[t]) && st'.work[t].job.key == k {
      if t < |st.work| {
        LiveSource(c, st, a, t);
      }
    }
    if k in st'.retired {
      RetiredSource(c, st, a, k);
    }
  }

  ghost predicate AllKept(c: Config, acts: seq<Action>, k: Key)
  {
    forall n | 0 <= n < |acts| :: KeepsRetry(Run(c, acts[..n]), acts[n], k)
  }

  lemma OneMoreKept(c: Config, acts: seq<Action>, k: Key)
    requires acts != []
    ensures var n := |acts| - 1;
      AllKept(c, acts, k) <==> AllKept(c, acts[..n], k) && KeepsRetry(Run(c, acts[..n]), acts[n], k)
  {
    hide KeepsRetry, Run;
    var front := acts[..|acts| - 1];
    assert forall n | 0 <= n < |front| :: front[..n] == acts[..n] && front[n] == acts[n];
  }

  /** A page that was inserted is queued, being worked on or finished if and only if every retry that the policy
      decided for it found the job in the table: the test at the head of the queue's `fail`. */
  lemma {:induction false} PageKeptIffRetriesFound(c: Config, acts: seq<Action>, k: Key)
    ensures Kept(Run(c, acts), k) <==> AllKept(c, acts, k)
    decreases |acts|
  {
    if acts == [] {
    } else {
      PageKeptIffRetriesFound(c, acts[..|acts| - 1], k);
      OneMoreKept(c, acts, k);
      KeptStep(c, acts[..|acts| - 1], acts[|acts| - 1], k);
      hide Next, AllKept, Kept, KeepsRetry;
    }
  }

  lemma KeptStep(c: Config, acts: seq<Action>, a: Action, k: Key)
    ensures Kept(Next(c, Run(c, acts), a), k) <==> Kept(Run(c, acts), k) && KeepsRetry(Run(c, acts), a, k)
  {
    hide Next, Run, Kept, KeepsRetry, JobsOk;
    var st := Run(c, acts);
    RunKeepsInv(c, acts);
    if !Kept(st, k) {
      LostStaysLost(c, st, a, k);
    } else if KeepsRetry(st, a, k) {
      StepKeeps(c, st, a, k);
    } else {
      StepLoses(c, st, a, k);
    }
  }

  /** A task that ends with `Ok(Retry)` keeps its page exactly when its job is still in the table of
      jobs handed out. */
  lemma PolicyRetryKeepsPageIffRegistered(c: Config, acts: seq<Action>, t: nat)
    requires var st := Run(c, acts); t < |st.work| && st.work[t].stage == Running
    ensures var st := Run(c, acts);
            Accounted(Next(c, st, Finish(t, RetryOk)), st.work[t].job.key) <==> st.work[t].job.id in st.inFlight
  {
    hide Run, Next;
    var st, a := Run(c, acts), Finish(t, RetryOk);
    var k := st.work[t].job.key;
    RunKeepsInv(c, acts);
    assert WorkOk(st, st.work[t]) && Live(st.work[t]) && k in st.seen;
    hide Inv, WorkOk;
    RetiredGrows(c, st, a);
    if KeepsRetry(st, a, k) {
      StepKeeps(c, st, a, k);
    } else {
      StepLoses(c, st, a, k);
    }
    hide Accounted;
  }

  /** What the regular end of a run means: when the only loop finds nothing to pop and leaves, every page ever inserted
      is finished, except for those whose policy retries did not find their jobs. */
  lemma RegularEndFinishesPages(c: Config, acts: seq<Action>, l: nat, k: Key)
    requires var st := Run(c, acts);
             && LoopOf(st, l) == Popping && LoopOf(Next(c, st, PopNone(l)), l) == Draining
             && (forall t | 0 <= t < |st.work| :: st.work[t].loop == l) && k in st.seen
    ensures k in Run(c, acts).retired <==> AllKept(c, acts, k)
  {
    var st := Run(c, acts);
    RunKeepsInv(c, acts);
    NothingLeft(st, l);
    PageKeptIffRetriesFound(c, acts, k);
    hide Run, AllKept, Inv, LoopsOk;
  }

  lemma NothingLeft(st: State, l: nat)
    requires LoopsOk(st.loops, st.work) && LoopOf(st, l) == Popping && NoTasks(st.work, l)
    requires forall t | 0 <= t < |st.work| :: st.work[t].loop == l
    ensures forall t | 0 <= t < |st.work| :: !Live(st.work[t])
  {
    forall t | 0 <= t < |st.work|
      ensures !Live(st.work[t])
    {
      assert !InTask(st.work[t].stage) && !InLoop(st.work[t].stage);
    }
  }

  // ----- runs in which requeues are completed promptly -----

  /** No job is popped while the task that requeued it has yet to complete its predecessor. */
  ghost predicate Prompt(st: State, a: Action)
  {
    a.Pop? && a.index < |st.heap| ==>
      forall u | 0 <= u < |st.work| && st.work[u].stage.Requeued? :: st.work[u].job.id != st.heap[a.index].id
  }

  ghost predicate PromptRun(c: Config, acts: seq<Action>)
  {
    forall n | 0 <= n < |acts| :: Prompt(Run(c, acts[..n]), acts[n])
  }

  predicate AtWork(w: Work)
  {
    Live(w) && !w.stage.Failing?
  }

  /** Every job at work is in the table, and no pending `complete` is about to remove it from there. */
  ghost predicate Registered(st: State)
  {
    && (forall t | 0 <= t < |st.work| && AtWork(st.work[t]) :: st.work[t].job.id in st.inFlight)
    && (forall t, u | 0 <= t < |st.work| && 0 <= u < |st.work| && AtWork(st.work[t]) && st.work[u].stage.Requeued? ::
          st.work[t].job.id != st.work[u].job.id)
  }

  /** Jobs at work on different pages have different ids. */
  lemma IdsDiffer(st: State, t: nat, u: nat)
    requires JobsOk(st) && Exclusive(st.heap, st.work) && t < |st.work| && u < |st.work| && t != u
    requires Live(st.work[t]) && Live(st.work[u])
    ensures st.work[t].job.id != st.work[u].job.id
  {
    assert WorkOk(st, st.work[t]) && WorkOk(st, st.work[u]);
  }

  lemma PopKeepsRegistered(c: Config, st: State, a: Action)
    requires Inv(c, st) && Registered(st) && Prompt(st, a) && a.Pop?
    ensures Registered(Next(c, st, a))
  {
  }

  /** Any action but a pop concerns one ticket; the others keep their registration. */
  lemma OthersStayRegistered(c: Config, st: State, a: Action, v: nat)
    requires Inv(c, st) && Registered(st) && !a.Pop? && v < |st.work| && v != TicketIn(st, a) && AtWork(st.work[v])
    ensures var st' := Next(c, st, a);
            v < |st'.work| && st'.work[v] == st.work[v] && st.work[v].job.id in st'.inFlight
  {
    ActionShape(c, st, a);
    var t := TicketIn(st, a);
    if t < |st.work| && Live(st.work[t]) {
      IdsDiffer(st, t, v);
    }
  }

  lemma OwnStaysRegistered(c: Config, st: State, a: Action)
    requires Inv(c, st) && Registered(st) && !a.Pop?
    ensures var st', t := Next(c, st, a), TicketIn(st, a);
            t < |st.work| && t < |st'.work| && AtWork(st'.work[t]) ==>
              AtWork(st.work[t]) && st'.work[t].job == st.work[t].job && st.work[t].job.id in st'.inFlight
  {
    ActionShape(c, st, a);
  }

  lemma KeepsRegistered(c: Config, st: State, a: Action)
    requires Inv(c, st) && Registered(st) && Prompt(st, a)
    ensures Registered(Next(c, st, a))
  {
    if a.Pop? {
      PopKeepsRegistered(c, st, a);
    } else {
      var st', t := Next(c, st, a), TicketIn(st, a);
      ActionShape(c, st, a);
      OwnStaysRegistered(c, st, a);
      forall v | 0 <= v < |st'.work| && AtWork(st'.work[v])
        ensures AtWork(st.work[v]) && st'.work[v].job == st.work[v].job && st'.work[v].job.id in st'.inFlight
      {
        if v != t {
          OthersStayRegistered(c, st, a, v);
        }
      }
      forall v, u | 0 <= v < |st'.work| && 0 <= u < |st'.work| && AtWork(st'.work[v]) && st'.work[u].stage.Requeued?
        ensures st'.work[v].job.id != st'.work[u].job.id
      {
        NewlyRequeued(c, st, a, u);
        if Live(st.work[u]) {
          IdsDiffer(st, u, v);
        }
      }
    }
  }

  lemma NewlyRequeued(c: Config, st: State, a: Action, u: nat)
    requires Inv(c, st) && !a.Pop? && var st' := Next(c, st, a); u < |st'.work| && st'.work[u].stage.Requeued?
    ensures u < |st.work| && Next(c, st, a).work[u].job == st.work[u].job
    ensures st.work[u].stage.Requeued? || Live(st.work[u])
  {
    ActionShape(c, st, a);
  }

  lemma {:induction false} PromptRunKeepsRegistered(c: Config, acts: seq<Action>)
    requires PromptRun(c, acts)
    ensures Registered(Run(c, acts))
    decreases |acts|
  {
    if acts == [] {
    } else {
      var n := |acts| - 1;
      PromptFront(c, acts, n);
      PromptRunKeepsRegistered(c, acts[..n]);
      RunKeepsInv(c, acts[..n]);
      KeepsRegistered(c, Run(c, acts[..n]), acts[n]);
      hide Next, Registered, Inv;
    }
  }

  lemma PromptFront(c: Config, acts: seq<Action>, n: nat)
    requires PromptRun(c, acts) && n <= |acts|
    ensures PromptRun(c, acts[..n]) && (n < |acts| ==> Prompt(Run(c, acts[..n]), acts[n]))
  {
    hide Prompt, Run;
    assert forall m | 0 <= m < n :: acts[..n][..m] == acts[..m] && acts[..n][m] == acts[m];
  }

  lemma RegisteredKeepsRetry(st: State, a: Action, k: Key)
    requires Registered(st)
    ensures KeepsRetry(st, a, k)
  {
    if a.Finish? && a.ticket < |st.work| && st.work[a.ticket].stage.Running? {
      assert AtWork(st.work[a.ticket]);
    }
  }

  /** If requeued jobs are only popped after their predecessor is completed, no page is ever lost. */
  lemma PromptRunLosesNothing(c: Config, acts: seq<Action>, k: Key)
    requires PromptRun(c, acts) && k in Run(c, acts).seen
    ensures Accounted(Run(c, acts), k)
  {
    hide Run, Registered, KeepsRetry, PromptRun, Accounted;
    forall n | 0 <= n < |acts|
      ensures KeepsRetry(Run(c, acts[..n]), acts[n], k)
    {
      PromptFront(c, acts, n);
      PromptRunKeepsRegistered(c, acts[..n]);
      RegisteredKeepsRetry(Run(c, acts[..n]), acts[n], k);
    }
    PageKeptIffRetriesFound(c, acts, k);
  }

  // ----- two runs -----

  lemma Go(c: Config, st: State, acts: seq<Action>, a: Action) returns (st': State, acts': seq<Action>)
    requires st == Run(c, acts)
    ensures st' == Next(c, st, a) && acts' == acts + [a] && st' == Run(c, acts')
  {
    st', acts' := Next(c, st, a), acts + [a];
    assert acts'[..|acts|] == acts;
  }

  lemma CheckOnly(c: Config, st: State)
    requires c.maxPages == None && LoopOf(st, 0) == Head
    ensures Next(c, st, Check(0)) == st.(loops := st.loops[0 := Popping])
  {
  }

  lemma PopOnly(c: Config, st: State, j: Job)
    requires LoopOf(st, 0) == Popping && st.heap == [j]
    ensures Next(c, st, Pop(0, 0)) ==
            st.(heap := [], inFlight := st.inFlight[j.id := j], loops := st.loops[0 := Busy(|st.work|)],
                work := st.work + [Work(0, j, Popped, false)])
  {
  }

  lemma AdmitOnly(c: Config, st: State, t: nat, j: Job)
    requires c.maxPages == None && LoopOf(st, 0) == Busy(t) && t < |st.work| && st.work[t] == Work(0, j, Popped, false)
    ensures Next(c, st, Admit(0)) == st.(work := st.work[t := Work(0, j, Admitted, false)])
  {
  }

  lemma AdvanceOnly(c: Config, st: State, t: nat, j: Job)
    requires LoopOf(st, 0) == Busy(t) && t < |st.work| && st.work[t] == Work(0, j, Admitted, false)
    ensures Next(c, st, Advance(0)) ==
            st.(work := st.work[t := Work(0, j, Running, true)], loops := st.loops[0 := Head])
  {
  }

  /** A loop takes the only queued job and spawns it. */
  lemma SpawnOnly(c: Config, st: State, acts: seq<Action>, j: Job) returns (st': State, acts': seq<Action>)
    requires st == Run(c, acts) && c.maxPages == None && LoopOf(st, 0) == Head && st.heap == [j]
    ensures st' == Run(c, acts')
    ensures st' == st.(heap := [], inFlight := st.inFlight[j.id := j], loops := st.loops[0 := Head],
                       work := st.work + [Work(0, j, Running, true)])
  {
    hide Next, Run;
    var t := |st.work|;
    CheckOnly(c, st);
    st', acts' := Go(c, st, acts, Check(0));
    PopOnly(c, st', j);
    st', acts' := Go(c, st', acts', Pop(0, 0));
    AdmitOnly(c, st', t, j);
    st', acts' := Go(c, st', acts', Admit(0));
    AdvanceOnly(c, st', t, j);
    st', acts' := Go(c, st', acts', Advance(0));
    assert st'.work == st.work + [Work(0, j, Running, true)];
    assert st'.loops == st.loops[0 := Head];
  }

  /** The second run of a page is under way while its first run has yet to be completed. */
  lemma SecondRunStarted(c: Config, j: Job, j': Job) returns (st: State, acts: seq<Action>)
    requires c == Config(None, 3) && j == Job(0, "k", 0) && j' == Job(0, "k", 1)
    ensures st == Run(c, acts)
    ensures st.heap == [] && st.inFlight == map[0 := j'] && st.seen == {"k"} && st.retired == {}
    ensures st.work == [Work(0, j, Requeued, true), Work(0, j', Running, true)]
  {
    hide Next;
    st, acts := Go(c, INITIAL, [], Insert("k"));
    FirstInsert(c, j);
    st, acts := SpawnOnly(c, st, acts, j);
    assert st.work == [Work(0, j, Running, true)];
    ErrorRequeues(c, st, j);
    st, acts := Go(c, st, acts, Finish(0, ErrorRetry));
    st, acts := SpawnOnly(c, st, acts, j');
  }

  lemma FirstInsert(c: Config, j: Job)
    requires j == Job(0, "k", 0)
    ensures Next(c, INITIAL, Insert("k")) == INITIAL.(heap := [j], owner := ["k"], seen := {"k"})
  {
  }

  lemma ErrorRequeues(c: Config, st: State, j: Job)
    requires j.attempts + 1 <= c.retryMax && st.work == [Work(0, j, Running, true)] && st.heap == []
    ensures Next(c, st, Finish(0, ErrorRetry)) ==
            st.(heap := [j.(attempts := j.attempts + 1)], work := [Work(0, j, Requeued, true)])
  {
  }

  /** Without that condition a page can be lost: the error path requeues job 0, it is popped again before
      its first run is completed, and that late `complete` strikes the second run from the table, so the
      second run's policy retry finds nothing to put back. */
  lemma LateCompleteLosesAPage() returns (c: Config, acts: seq<Action>)
    ensures var st := Run(c, acts); "k" in st.seen && !Accounted(st, "k")
  {
    c := Config(None, 3);
    var j, j' := Job(0, "k", 0), Job(0, "k", 1);
    var st;
    st, acts := SecondRunStarted(c, j, j');
    st, acts := Go(c, st, acts, Settle(0));
    assert st.work == [Work(0, j, Settled, true), Work(0, j', Running, true)];
    assert st.inFlight == map[];
    st, acts := Go(c, st, acts, Finish(1, RetryOk));
    assert st.work == [Work(0, j, Settled, true), Work(0, j', Settled, true)];
  }

  /** Policy retries do add to it. */
  lemma PolicyRetryPassesTheLimit() returns (c: Config, acts: seq<Action>)
    ensures !AttemptsOf(Run(c, acts), "k", c.retryMax)
  {
    hide Next, Run;
    c := Config(None, 0);
    var j := Job(0, "k", 0);
    EmptyRun(c);
    FirstInsert(c, j);
    var st;
    st, acts := Go(c, INITIAL, [], Insert("k"));
    st, acts := SpawnOnly(c, st, acts, j);
    assert st.work == [Work(0, j, Running, true)] && st.inFlight == map[0 := j];
    RetryOnly(c, st, j);
    st, acts := Go(c, st, acts, Finish(0, RetryOk));
    assert st.work[0].stage == Failing(j.(attempts := 1));
  }

  lemma EmptyRun(c: Config)
    ensures Run(c, []) == INITIAL
  {
  }

  lemma RetryOnly(c: Config, st: State, j: Job)
    requires st.work == [Work(0, j, Running, true)] && st.inFlight == map[j.id := j]
    ensures Next(c, st, Finish(0, RetryOk)) ==
            st.(work := [Work(0, j, Failing(j.(attempts := j.attempts + 1)), true)], inFlight := map[])
  {
  }
}
