/**
 The objects behind frontier admission as one caller sees them: `Dedupe` of
 src/frontier/dedupe.rs, `DiscoveryGraph` of src/discovery/graph.rs, and the two
 admission methods of src/crawler.rs that use them with the queue.
 */
module Crawler {
  import opened Wrappers
  import opened CrawlQueue

  type Url = string
  type Edge = (Url, Url)

  datatype DedupeProbe = New | RecentDuplicate | MaybeSeen

  const EXACT_CAP: nat := 100_000

  /** Bloom filter plus a bounded exact set that is emptied when it reaches its cap. */
  class Dedupe {
    var recent: set<Key>
    var bloom: set<Key>

    constructor ()
      ensures recent == {} && bloom == {}
    {
      recent, bloom := {}, {};
    }

    /** `falsePositive` is what the bloom filter answers about a key it was never given. */
    method ProbeUrl(key: Key, falsePositive: bool) returns (p: DedupeProbe)
      ensures p == RecentDuplicate <==> key in recent
      ensures p == New ==> key !in bloom
    {
      if key in recent {
        return RecentDuplicate;
      }
      return if key in bloom || falsePositive then MaybeSeen else New;
    }

    method MarkSeen(key: Key)
      modifies this
      ensures bloom == old(bloom) + {key}
      ensures recent == if |old(recent)| >= 100_000 then {key} else old(recent) + {key}
      ensures |old(recent)| <= EXACT_CAP ==> |recent| <= EXACT_CAP
    {
      if |recent| >= EXACT_CAP {
        recent := {};
      }
      recent := recent + {key};
      bloom := bloom + {key};
    }
  }

  class DiscoveryGraph {
    var edges: map<Edge, nat>

    constructor ()
      ensures edges == map[]
    {
      edges := map[];
    }

    method AddEdge(from: Url, to: Url)
      modifies this
      ensures edges == old(edges)[(from, to) := (if (from, to) in old(edges) then old(edges)[(from, to)] else 0) + 1]
    {
      var e := (from, to);
      edges := edges[e := (if e in edges then edges[e] else 0) + 1];
    }
  }

  class Crawler {
    const dedupe: Dedupe
    const queue: InMemoryQueue
    const graph: DiscoveryGraph
    const canon: Url -> Key
    var nextId: nat

    constructor (canon: Url -> Key)
      ensures Valid() && queue.heap == [] && queue.seen == {} && graph.edges == map[]
      ensures fresh(dedupe) && fresh(queue) && fresh(graph) && this.canon == canon
    {
      this.canon := canon;
      dedupe := new Dedupe();
      queue := new InMemoryQueue();
      graph := new DiscoveryGraph();
      nextId := 0;
    }

    /** What the recent set remembers is in the queue's key set, and one target key has one edge. */
    ghost predicate Valid()
      reads this, dedupe, queue, graph
    {
      && dedupe.recent <= queue.seen
      && |dedupe.recent| <= EXACT_CAP
      && (forall e | e in graph.edges :: graph.edges[e] == 1 && canon(e.1) in queue.seen)
      && (forall e, f | e in graph.edges && f in graph.edges && canon(e.1) == canon(f.1) :: e == f)
    }

    /** The answer is that of the exact key set: neither the recent set nor a bloom false positive
        ever changes it. */
    method AdmitFrontierUrl(url: Url, depth: nat, priority: int, method_: FetchMethod, now: int, falsePositive: bool)
      returns (r: QueueInsert)
      requires Valid()
      modifies this, dedupe, queue`heap, queue`seen
      ensures Valid()
      ensures r == Inserted <==> canon(url) !in old(queue.seen)
      ensures queue.seen == old(queue.seen) + {canon(url)}
      ensures r == Duplicate ==> queue.heap == old(queue.heap)
      ensures r == Inserted ==>
                var job := Job(old(nextId), 0, url, depth, priority, method_, 0, None);
                queue.heap == old(queue.heap) + [Entry(now, job)]
      ensures nextId >= old(nextId) && (r == Inserted ==> nextId > old(nextId))
    {
      var key := canon(url);
      var probe := dedupe.ProbeUrl(key, falsePositive);
      if probe == RecentDuplicate {
        return Duplicate;
      }
      var job := Job(nextId, 0, url, depth, priority, method_, 0, None);
      nextId := nextId + 1;
      r := queue.PushUnique(job, key, now);
      dedupe.MarkSeen(key);
    }

    /** A discovered link is recorded as an edge exactly when it is the first to reach its key. */
    method EnqueueDiscoveredUrl(from: Url, to: Url, follow: bool, depth: nat, priority: int, method_: FetchMethod,
                                now: int, falsePositive: bool)
      requires Valid()
      modifies this, dedupe, queue`heap, queue`seen, graph
      ensures Valid()
      ensures queue.seen == old(queue.seen) + (if follow then {canon(to)} else {})
      ensures graph.edges ==
                if follow && canon(to) !in old(queue.seen) then old(graph.edges)[(from, to) := 1] else old(graph.edges)
      ensures |queue.heap| == |old(queue.heap)| + (if follow && canon(to) !in old(queue.seen) then 1 else 0)
    {
      if !follow {
        return;
      }
      var r := AdmitFrontierUrl(to, depth, priority, method_, now, falsePositive);
      if r == Inserted {
        assert (from, to) !in graph.edges;
        graph.AddEdge(from, to);
      }
    }
  }
}
