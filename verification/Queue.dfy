/**
 The in-memory job queue of src/queue/inmemory.rs: a heap ordered by readiness, the
 table of jobs handed out, and the set of canonical keys ever inserted.
 */
module CrawlQueue {
  import opened Wrappers
  import opened Common

  type Key = string

  datatype FetchMethod = Auto | HttpSpoof | Render

  datatype Job = Job(id: nat, crawlId: nat, url: string, depth: nat, priority: int, method_: FetchMethod,
                     attempts: nat, lastError: Option<string>)

  datatype QueueInsert = Inserted | Duplicate

  datatype Entry = Entry(readyAt: int, job: Job)

  const U32_MAX: nat := 0xFFFF_FFFF

  function SaturatingInc(n: nat): nat
  {
    if n >= U32_MAX then U32_MAX else n + 1
  }

  /** `a` leaves the heap no later than `b`: earlier ready time, then higher priority, then lower id. */
  predicate NoLater(a: Entry, b: Entry)
  {
    || a.readyAt < b.readyAt
    || (a.readyAt == b.readyAt && a.job.priority > b.job.priority)
    || (a.readyAt == b.readyAt && a.job.priority == b.job.priority && a.job.id <= b.job.id)
  }

  /** The heap's next entry. */
  ghost predicate IsTop(heap: seq<Entry>, i: nat)
  {
    i < |heap| && forall j | 0 <= j < |heap| :: NoLater(heap[i], heap[j])
  }

  class InMemoryQueue {
    var heap: seq<Entry>
    var inFlight: map<nat, Job>
    var seen: set<Key>

    constructor ()
      ensures heap == [] && inFlight == map[] && seen == {}
    {
      heap, inFlight, seen := [], map[], {};
    }

    method PushAfter(job: Job, now: int, delay: nat)
      modifies this`heap
      ensures heap == old(heap) + [Entry(now + delay, job)]
    {
      heap := heap + [Entry(now + delay, job)];
    }

    /** Inserts exactly when the key was never inserted before, and remembers the key either way. */
    method PushUnique(job: Job, key: Key, now: int) returns (r: QueueInsert)
      modifies this`heap, this`seen
      ensures r == Inserted <==> key !in old(seen)
      ensures seen == old(seen) + {key}
      ensures heap == old(heap) + (if r == Inserted then [Entry(now, job)] else [])
    {
      if key in seen {
        return Duplicate;
      }
      seen := seen + {key};
      PushAfter(job, now, 0);
      return Inserted;
    }

    method Peek() returns (i: nat)
      requires heap != []
      ensures IsTop(heap, i)
    {
      i := 0;
      for k := 1 to |heap|
        invariant i < k && forall j | 0 <= j < k :: NoLater(heap[i], heap[j])
      {
        if !NoLater(heap[i], heap[k]) {
          i := k;
        }
      }
    }

    /** Hands out the top of the heap if it is ready. Nothing is handed out only when nothing is ready:
        looking at the top alone overlooks no ready job. */
    method Pop(now: int) returns (r: Option<Job>)
      modifies this`heap, this`inFlight
      ensures r == None <==> forall e | e in old(heap) :: e.readyAt > now
      ensures r == None ==> heap == old(heap) && inFlight == old(inFlight)
      ensures r != None ==>
                exists i: nat | i < |old(heap)| ::
                  && old(heap)[i].job == r.value && old(heap)[i].readyAt <= now
                  && heap == old(heap)[..i] + old(heap)[i + 1..]
                  && inFlight == old(inFlight)[r.value.id := r.value]
                  && forall e | e in old(heap) ::
                       || old(heap)[i].readyAt < e.readyAt
                       || (old(heap)[i].readyAt == e.readyAt && r.value.priority > e.job.priority)
                       || (old(heap)[i].readyAt == e.readyAt && r.value.priority == e.job.priority
                           && r.value.id <= e.job.id)
    {
      if heap == [] {
        return None;
      }
      var i := Peek();
      if heap[i].readyAt > now {
        return None;
      }
      assert heap[i] in heap;
      r := Some(heap[i].job);
      inFlight := inFlight[heap[i].job.id := heap[i].job];
      heap := Remove(heap, i);
    }

    method Complete(id: nat)
      modifies this`inFlight
      ensures inFlight == old(inFlight) - {id}
    {
      inFlight := inFlight - {id};
    }

    /** A failed job goes back with one more attempt, provided it is still registered as handed out. */
    method Fail(id: nat, err: string, now: int, retryAfter: nat)
      modifies this`heap, this`inFlight
      ensures inFlight == old(inFlight) - {id}
      ensures heap == old(heap) +
                (if id in old(inFlight) then
                   var job := old(inFlight)[id];
                   var attempts := if job.attempts < 0xFFFF_FFFF then job.attempts + 1 else 0xFFFF_FFFF;
                   [Entry(now + retryAfter, job.(attempts := attempts, lastError := Some(err)))]
                 else [])
    {
      if id in inFlight {
        var job := inFlight[id];
        inFlight := inFlight - {id};
        PushAfter(job.(attempts := SaturatingInc(job.attempts), lastError := Some(err)), now, retryAfter);
      }
    }

    method FailPermanently(id: nat)
      modifies this`inFlight
      ensures inFlight == old(inFlight) - {id}
    {
      inFlight := inFlight - {id};
    }

    /** The default `requeue_after`: the new job is visible in the heap before the old one is completed. */
    method RequeueAfter(original: nat, job: Job, now: int, delay: nat)
      modifies this`heap, this`inFlight
      ensures heap == old(heap) + [Entry(now + delay, job)]
      ensures inFlight == old(inFlight) - {original}
    {
      PushAfter(job, now, delay);
      Complete(original);
    }
  }
}
