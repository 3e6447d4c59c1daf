/**
 `handle.stream()` of sdk/crawlex-sdk.js: one bounded queue per subscriber, filled by the crawl and emptied by
 an async generator that parks on a waiter when it has nothing to yield.

 A generator runs only between suspension points, so its consumer is a small state machine: `Fresh` before the
 first call of `next`, `Idle` between two calls, `Awake` when it is about to look at the queue, `Parked` on its
 waiter, `Over` once it has returned and left the set of subscribers. A generator that is given up before it was
 started never runs its `finally`, so it is `Abandoned` and stays in that set. A `return` while a `next` is pending
 is queued behind it: the generator is `leaving`.
 */
module Stream {
  import opened Common

  type Item = string

  datatype Consumer = Fresh | Idle | Awake | Parked | Over | Abandoned

  /** `sent` are the items broadcast while the subscriber was open. Every queued item travels with its `places`,
      the index it has in `sent`, and `taken` records what the consumer got, with those indices. */
  datatype State = State(
    queue: seq<Item>, places: seq<nat>, closed: bool, done: bool, consumer: Consumer, leaving: bool,
    sent: seq<Item>, taken: seq<(nat, Item)>)

  datatype Action = Push(item: Item) | Close | Next | Check | Cancel

  /** A stream may be opened after the crawl is done. */
  function Opened(done: bool): State
  {
    State([], [], false, done, Fresh, false, [], [])
  }

  function Woken(c: Consumer): Consumer
  {
    if c.Parked? then Awake else c
  }

  /** `Array.shift` leaves an empty queue empty. */
  function Shift<T>(q: seq<T>): seq<T>
  {
    if q == [] then [] else q[1..]
  }

  function Pushed(size: int, s: State, v: Item): State
  {
    if s.closed || s.consumer.Over? then s
    else
      var full := |s.queue| >= size;
      s.(queue := (if full then Shift(s.queue) else s.queue) + [v],
         places := (if full then Shift(s.places) else s.places) + [|s.sent|],
         sent := s.sent + [v],
         consumer := Woken(s.consumer))
  }

  /** Closing reaches every subscriber and marks the crawl done. */
  function Closed(s: State): State
  {
    if s.consumer.Over? then s.(done := true) else s.(closed := true, done := true, consumer := Woken(s.consumer))
  }

  /** The generator's loop up to its next suspension. */
  function Checked(s: State): State
  {
    if s.queue != [] && s.places != [] then
      s.(queue := s.queue[1..], places := s.places[1..],
         consumer := if s.leaving then Over else Idle, leaving := false,
         taken := s.taken + [(s.places[0], s.queue[0])])
    else if s.closed || s.done then s.(consumer := Over, leaving := false)
    else s.(consumer := Parked)
  }

  /** The generator may be called. */
  predicate Waiting(s: State)
  {
    s.consumer.Fresh? || s.consumer.Idle?
  }

  predicate Pending(c: Consumer)
  {
    c.Awake? || c.Parked?
  }

  /** `return` on the generator. */
  function Cancelled(s: State): State
  {
    match s.consumer
    case Fresh => s.(consumer := Abandoned)
    case Idle => s.(consumer := Over)
    case Awake => s.(leaving := true)
    case Parked => s.(leaving := true)
    case _ => s
  }

  function Apply(size: int, s: State, a: Action): State
  {
    match a
    case Push(v) => Pushed(size, s, v)
    case Close => Closed(s)
    case Next => if Waiting(s) then s.(consumer := Awake) else s
    case Check => if s.consumer.Awake? then Checked(s) else s
    case Cancel => Cancelled(s)
  }

  function Run(size: int, s: State, acts: seq<Action>): State
  {
    if acts == [] then s else Apply(size, Run(size, s, acts[..|acts| - 1]), acts[|acts| - 1])
  }

  // ----- the queue is the newest items not yet taken -----

  /** A size below one still holds one item: the queue is shortened before the push, not after it. */
  function Capacity(size: int): nat
  {
    if size < 1 then 1 else size
  }

  /** The first item that has not been taken or passed over. */
  function Wanted(s: State): nat
  {
    if s.taken == [] then 0 else s.taken[|s.taken| - 1].0 + 1
  }

  function Oldest(size: int, s: State): int
  {
    if |s.sent| - Capacity(size) > Wanted(s) then |s.sent| - Capacity(size) else Wanted(s)
  }

  ghost predicate QueueIsNewest(size: int, s: State)
  {
    && Wanted(s) <= |s.sent|
    && s.queue == s.sent[Oldest(size, s)..]
    && |s.places| == |s.queue| && forall i | 0 <= i < |s.places| :: s.places[i] == Oldest(size, s) + i
  }

  ghost predicate TakenInOrder(s: State)
  {
    && (forall i | 0 <= i < |s.taken| :: s.taken[i].0 < |s.sent| && s.taken[i].1 == s.sent[s.taken[i].0])
    && (forall i, j | 0 <= i < j < |s.taken| :: s.taken[i].0 < s.taken[j].0)
  }

  /** A consumer waits only for an open subscriber with nothing queued: no wakeup is lost. */
  ghost predicate NoLostWakeup(s: State)
  {
    && (s.consumer.Parked? ==> s.queue == [] && !s.closed && !s.done)
    && (s.closed ==> s.done)
    && (s.leaving ==> Pending(s.consumer))
  }

  ghost predicate Inv(size: int, s: State)
  {
    QueueIsNewest(size, s) && TakenInOrder(s) && NoLostWakeup(s)
  }

  lemma OldestAfterPush(size: int, s: State, v: Item)
    requires QueueIsNewest(size, s) && !s.closed && !s.consumer.Over?
    ensures var t := Pushed(size, s, v);
      && Wanted(t) == Wanted(s)
      && Oldest(size, t) == Oldest(size, s) + (if |s.queue| >= Capacity(size) then 1 else 0)
      && (|s.queue| >= Capacity(size) ==> s.queue != [] && |s.queue| >= size)
      && (|s.queue| < Capacity(size) && |s.queue| >= size ==> s.queue == [])
      && 0 <= Oldest(size, s) <= |s.sent|
  {
  }

  lemma SuffixAfterPush(sent: seq<Item>, from: nat, v: Item)
    requires from <= |sent|
    ensures (sent + [v])[from..] == sent[from..] + [v]
    ensures from < |sent| ==> (sent + [v])[from + 1..] == sent[from..][1..] + [v]
  {
  }

  lemma PushKeepsNewest(size: int, s: State, v: Item)
    requires QueueIsNewest(size, s) && !s.closed && !s.consumer.Over?
    ensures QueueIsNewest(size, Pushed(size, s, v))
  {
    hide Oldest, Capacity, Wanted;
    OldestAfterPush(size, s, v);
    SuffixAfterPush(s.sent, Oldest(size, s), v);
    var t := Pushed(size, s, v);
    if |s.queue| >= Capacity(size) {
      assert t.queue == s.queue[1..] + [v] && t.places == s.places[1..] + [|s.sent|];
    } else {
      assert t.queue == s.queue + [v] && t.places == s.places + [|s.sent|];
    }
  }

  lemma CheckKeepsNewest(size: int, s: State)
    requires QueueIsNewest(size, s)
    ensures QueueIsNewest(size, Checked(s))
  {
    if s.queue != [] {
      assert Wanted(Checked(s)) == Oldest(size, s) + 1;
      assert s.queue[1..] == s.sent[Oldest(size, s) + 1..];
    }
  }

  lemma PushKeepsTaken(size: int, s: State, v: Item)
    requires TakenInOrder(s)
    ensures TakenInOrder(Pushed(size, s, v))
  {
  }

  lemma CheckKeepsTaken(size: int, s: State)
    requires TakenInOrder(s) && QueueIsNewest(size, s)
    ensures TakenInOrder(Checked(s))
  {
    if s.queue != [] {
      assert s.places[0] == Oldest(size, s) && s.queue[0] == s.sent[s.places[0]];
      assert forall i | 0 <= i < |s.taken| :: s.taken[i].0 <= s.taken[|s.taken| - 1].0 < Wanted(s);
      hide Oldest, Capacity, QueueIsNewest;
    }
  }

  lemma PushKeepsInv(size: int, s: State, v: Item)
    requires Inv(size, s)
    ensures Inv(size, Pushed(size, s, v))
  {
    PushKeepsTaken(size, s, v);
    if !s.closed && !s.consumer.Over? {
      PushKeepsNewest(size, s, v);
    }
    hide QueueIsNewest, TakenInOrder;
  }

  lemma CheckKeepsInv(size: int, s: State)
    requires Inv(size, s)
    ensures Inv(size, Checked(s))
  {
    CheckKeepsTaken(size, s);
    CheckKeepsNewest(size, s);
    hide QueueIsNewest, TakenInOrder;
  }

  lemma UnmovedKeepsInv(size: int, s: State, t: State)
    requires t.queue == s.queue && t.places == s.places && t.sent == s.sent && t.taken == s.taken
    ensures QueueIsNewest(size, s) ==> QueueIsNewest(size, t)
    ensures TakenInOrder(s) ==> TakenInOrder(t)
  {
    assert Wanted(t) == Wanted(s) && Oldest(size, t) == Oldest(size, s);
    hide Oldest, Wanted;
  }

  lemma OtherKeepsInv(size: int, s: State, a: Action)
    requires Inv(size, s) && !a.Push? && !a.Check?
    ensures Inv(size, Apply(size, s, a))
  {
    hide QueueIsNewest, TakenInOrder, Pushed, Checked;
    UnmovedKeepsInv(size, s, Apply(size, s, a));
  }

  lemma ApplyKeepsInv(size: int, s: State, a: Action)
    requires Inv(size, s)
    ensures Inv(size, Apply(size, s, a))
  {
    hide Inv, Pushed, Checked, Closed, Cancelled, Waiting;
    match a
    case Push(v) => PushKeepsInv(size, s, v);
    case Check =>
      if s.consumer.Awake? {
        CheckKeepsInv(size, s);
      }
    case _ => OtherKeepsInv(size, s, a);
  }

  /** In every interleaving of broadcasts, the closing and the consumer's calls, the queue is the newest items the
      consumer has not taken, up to its capacity; items are taken in broadcast order; nobody waits in vain. */
  lemma {:induction false} RunKeepsInv(size: int, done: bool, acts: seq<Action>)
    ensures Inv(size, Run(size, Opened(done), acts))
  {
    if acts == [] {
    } else {
      RunKeepsInv(size, done, acts[..|acts| - 1]);
      ApplyKeepsInv(size, Run(size, Opened(done), acts[..|acts| - 1]), acts[|acts| - 1]);
      hide Apply, Inv;
    }
  }

  /** The items broadcast by these actions. */
  function Broadcasts(acts: seq<Action>): seq<Item>
  {
    if acts == [] then []
    else if acts[0].Push? then [acts[0].item] + Broadcasts(acts[1..])
    else Broadcasts(acts[1..])
  }

  lemma {:induction false} OneMoreBroadcast(acts: seq<Action>, a: Action)
    ensures Broadcasts(acts + [a]) == Broadcasts(acts) + if a.Push? then [a.item] else []
  {
    if acts == [] {
      assert [a][1..] == [];
    } else {
      assert (acts + [a])[1..] == acts[1..] + [a];
      OneMoreBroadcast(acts[1..], a);
    }
  }

  /** Until the closing a stream that has not ended is sent everything that is broadcast; and it ends only if the crawl
      is done, the closing comes or it is given up. */
  lemma {:induction false} SentUntilClosed(size: int, done: bool, acts: seq<Action>)
    requires Close !in acts
    ensures var s := Run(size, Opened(done), acts);
            && !s.closed && s.done == done
            && (!s.consumer.Over? ==> s.sent == Broadcasts(acts))
            && (s.consumer.Over? ==> done || Cancel in acts)
            && (s.leaving ==> Cancel in acts)
  {
    hide Broadcasts, Apply;
    if acts == [] {
      NoBroadcasts();
    } else {
      var front, a := acts[..|acts| - 1], acts[|acts| - 1];
      assert acts == front + [a];
      SentUntilClosed(size, done, front);
      OneMoreBroadcast(front, a);
      hide Run;
      OneMoreAction(size, done, acts);
      SendsOne(size, Run(size, Opened(done), front), a);
    }
  }

  lemma NoBroadcasts()
    ensures Broadcasts([]) == []
  {
  }

  lemma SendsOne(size: int, s: State, a: Action)
    requires a != Close && !s.closed
    ensures var t := Apply(size, s, a);
            && !t.closed && t.done == s.done
            && (t.consumer.Over? ==> s.consumer.Over? || s.done || s.leaving || a == Cancel)
            && (t.leaving ==> s.leaving || a == Cancel)
            && (s.consumer.Over? ==> t.consumer.Over?)
            && (!s.consumer.Over? ==> t.sent == s.sent + if a.Push? then [a.item] else [])
  {
  }

  lemma OneMoreAction(size: int, done: bool, acts: seq<Action>)
    requires acts != []
    ensures Run(size, Opened(done), acts) ==
            Apply(size, Run(size, Opened(done), acts[..|acts| - 1]), acts[|acts| - 1])
  {
  }

  /** After the closing it is sent nothing more. */
  lemma {:induction false} NothingSentOnceClosed(size: int, s: State, acts: seq<Action>)
    requires s.closed || s.consumer.Over?
    ensures var t := Run(size, s, acts); t.sent == s.sent && (t.closed || t.consumer.Over?)
  {
    if acts == [] {
    } else {
      NothingSentOnceClosed(size, s, acts[..|acts| - 1]);
    }
  }

  /** A delivery passes over exactly the items by which the backlog exceeds the capacity. */
  lemma DeliverySkips(size: int, done: bool, acts: seq<Action>)
    requires Run(size, Opened(done), acts).consumer == Awake && Run(size, Opened(done), acts).queue != []
    ensures var s := Run(size, Opened(done), acts);
      var t := Apply(size, s, Check);
      var backlog := |s.sent| - Wanted(s);
      && |t.taken| == |s.taken| + 1 && t.taken[..|s.taken|] == s.taken
      && t.taken[|s.taken|].0 == Wanted(s) + (if backlog > Capacity(size) then backlog - Capacity(size) else 0)
      && t.taken[|s.taken|].0 < |s.sent| && t.taken[|s.taken|].1 == s.sent[t.taken[|s.taken|].0]
  {
    RunKeepsInv(size, done, acts);
  }

  /** `n` more calls of `next`, each run to its suspension. */
  function Pull(n: nat): seq<Action>
  {
    if n == 0 then [] else Pull(n - 1) + [Next, Check]
  }

  lemma RunTwoMore(size: int, s: State, acts: seq<Action>, a: Action, b: Action)
    ensures Run(size, s, acts + [a, b]) == Apply(size, Apply(size, Run(size, s, acts), a), b)
  {
    assert (acts + [a, b])[..|acts| + 1] == acts + [a] && (acts + [a])[..|acts|] == acts;
  }

  lemma {:induction false} PullTakes(size: int, s: State, n: nat)
    requires Waiting(s) && !s.leaving && |s.places| == |s.queue| && n <= |s.queue|
    ensures var t := Run(size, s, Pull(n));
      && t == s.(queue := s.queue[n..], places := s.places[n..], taken := t.taken, consumer := t.consumer) && Waiting(t)
      && |t.taken| == |s.taken| + n && t.taken[..|s.taken|] == s.taken
      && forall i | 0 <= i < n :: t.taken[|s.taken| + i] == (s.places[i], s.queue[i])
  {
    hide Run, Apply;
    if n == 0 {
      NothingPulled(size, s);
    } else {
      PullTakes(size, s, n - 1);
      RunTwoMore(size, s, Pull(n - 1), Next, Check);
      var t := Run(size, s, Pull(n - 1));
      NextTakes(size, t);
      assert t.queue[1..] == s.queue[n..] && t.places[1..] == s.places[n..];
      assert (t.taken + [(t.places[0], t.queue[0])])[..|s.taken|] == t.taken[..|s.taken|];
    }
  }

  lemma NothingPulled(size: int, s: State)
    ensures Run(size, s, Pull(0)) == s
  {
  }

  lemma NextTakes(size: int, s: State)
    requires Waiting(s) && !s.leaving && s.queue != [] && s.places != []
    ensures Apply(size, Apply(size, s, Next), Check) ==
            s.(queue := s.queue[1..], places := s.places[1..], consumer := Idle,
               taken := s.taken + [(s.places[0], s.queue[0])])
  {
  }

  /** Whatever is queued when the crawl closes is still delivered, all of it and in order; then the stream ends. */
  lemma BufferedIsDelivered(size: int, done: bool, acts: seq<Action>)
    requires Run(size, Opened(done), acts).closed && Waiting(Run(size, Opened(done), acts))
    ensures var s := Run(size, Opened(done), acts);
      var t := Run(size, s, Pull(|s.queue| + 1));
      && t.consumer.Over? && t.sent == s.sent && |t.taken| == |s.taken| + |s.queue|
      && forall i | 0 <= i < |s.queue| :: t.taken[|s.taken| + i].1 == s.queue[i]
  {
    hide Run, Inv, Pull, Apply, Waiting;
    var s := Run(size, Opened(done), acts);
    RunKeepsInv(size, done, acts);
    PlacesMatch(size, s);
    PullTakes(size, s, |s.queue|);
    var t := Run(size, s, Pull(|s.queue|));
    PullOneMore(size, s, |s.queue|);
    EmptyClosedEnds(size, t);
  }

  lemma PlacesMatch(size: int, s: State)
    requires Inv(size, s)
    ensures |s.places| == |s.queue| && (Waiting(s) ==> !s.leaving)
  {
  }

  lemma PullOneMore(size: int, s: State, n: nat)
    ensures Run(size, s, Pull(n + 1)) == Apply(size, Apply(size, Run(size, s, Pull(n)), Next), Check)
  {
    RunTwoMore(size, s, Pull(n), Next, Check);
  }

  lemma EmptyClosedEnds(size: int, s: State)
    requires Waiting(s) && s.closed && s.queue == []
    ensures Apply(size, Apply(size, s, Next), Check) == s.(consumer := Over, leaving := false)
  {
  }

  /** A consumer parked when the next item or the closing arrives gets it. */
  lemma ParkedIsWoken(size: int, done: bool, acts: seq<Action>, v: Item)
    requires Run(size, Opened(done), acts).consumer.Parked?
    ensures var s := Run(size, Opened(done), acts);
      && Apply(size, Apply(size, s, Push(v)), Check).taken == s.taken + [(|s.sent|, v)]
      && Apply(size, Apply(size, s, Close), Check).consumer.Over?
  {
    RunKeepsInv(size, done, acts);
  }

  /** A `return` issued while the consumer is parked takes effect after the next item, which is still delivered, or at
      the closing. */
  lemma QueuedReturnIsServed(size: int, done: bool, acts: seq<Action>, v: Item)
    requires Run(size, Opened(done), acts).consumer.Parked?
    ensures var s := Run(size, Opened(done), acts);
      var t := Apply(size, Apply(size, Apply(size, s, Cancel), Push(v)), Check);
      && t.consumer.Over? && t.taken == s.taken + [(|s.sent|, v)]
      && Apply(size, Apply(size, Apply(size, s, Cancel), Close), Check).consumer.Over?
  {
    hide Run;
    RunKeepsInv(size, done, acts);
  }

  /** A stream given up before its first `next` is never unsubscribed and never read: its queue goes on being filled
      (`RunKeepsInv` says with what) for as long as the crawl runs. */
  lemma {:induction false} AbandonedForGood(size: int, s: State, acts: seq<Action>)
    requires s.consumer.Abandoned?
    ensures var t := Run(size, s, acts); t.consumer.Abandoned? && t.taken == s.taken
    ensures !s.closed && Close !in acts ==> var t := Run(size, s, acts); |t.sent| == |s.sent| + Pushes(acts)
  {
    if acts == [] {
    } else {
      var front, a := acts[..|acts| - 1], acts[|acts| - 1];
      AbandonedForGood(size, s, front);
      OpenUntilClosed(size, s, front);
      assert a in acts && forall b | b in front :: b in acts;
    }
  }

  lemma {:induction false} FreshUntilCalled(size: int, done: bool, acts: seq<Action>)
    requires Next !in acts && Cancel !in acts
    ensures var s := Run(size, Opened(done), acts); s.consumer == Fresh && s.taken == []
  {
    if acts == [] {
    } else {
      FreshUntilCalled(size, done, acts[..|acts| - 1]);
      assert acts[|acts| - 1] in acts;
    }
  }

  /** That is every stream given up before its first `next`, whatever is broadcast before. */
  lemma GivenUpFirst(size: int, done: bool, acts: seq<Action>)
    requires Next !in acts && Cancel !in acts
    ensures var s := Run(size, Opened(done), acts + [Cancel]); s.consumer == Abandoned && s.taken == []
  {
    FreshUntilCalled(size, done, acts);
    assert (acts + [Cancel])[..|acts|] == acts;
  }

  function Pushes(acts: seq<Action>): nat
  {
    if acts == [] then 0 else Pushes(acts[..|acts| - 1]) + Bit(acts[|acts| - 1].Push?)
  }

  lemma {:induction false} OpenUntilClosed(size: int, s: State, acts: seq<Action>)
    ensures Close !in acts ==> Run(size, s, acts).closed == s.closed
  {
    if acts == [] {
    } else {
      var front := acts[..|acts| - 1];
      OpenUntilClosed(size, s, front);
      assert acts[|acts| - 1] in acts && forall b | b in front :: b in acts;
    }
  }

  // ----- the source's form -----

  class Subscriber {
    const bufferSize: int
    var queue: seq<Item>
    ghost var places: seq<nat>
    var closed: bool
    var consumer: Consumer
    var leaving: bool
    ghost var sent: seq<Item>
    ghost var taken: seq<(nat, Item)>

    ghost function Abstract(driverDone: bool): State
      reads this
    {
      State(queue, places, closed, driverDone, consumer, leaving, sent, taken)
    }

    constructor (bufferSize: int, ghost driverDone: bool)
      ensures this.bufferSize == bufferSize && Abstract(driverDone) == Opened(driverDone)
    {
      this.bufferSize := bufferSize;
      this.queue, this.closed, this.consumer, this.leaving := [], false, Fresh, false;
      this.places, this.sent, this.taken := [], [], [];
    }

    /** `waiter`, if there is one, is called and forgotten. */
    method Wake()
      modifies this`consumer
      ensures consumer == Woken(old(consumer))
    {
      if consumer.Parked? {
        consumer := Awake;
      }
    }

    method PushItem(v: Item)
      requires !consumer.Over?
      modifies this
      ensures forall done :: Abstract(done) == Pushed(bufferSize, old(Abstract(done)), v)
    {
      if closed {
        return;
      }
      if |queue| >= bufferSize {
        if |queue| > 0 {
          queue := queue[1..];
        }
        places := Shift(places);
      }
      queue, places, sent := queue + [v], places + [|sent|], sent + [v];
      Wake();
    }

    method CloseStream()
      requires !consumer.Over?
      modifies this
      ensures forall done :: Abstract(true) == Closed(old(Abstract(done)))
    {
      closed := true;
      Wake();
    }

    /** One pass of the generator's loop. */
    method Resume(driverDone: bool) returns (item: seq<Item>)
      requires consumer.Awake? && |places| == |queue|
      modifies this
      ensures Abstract(driverDone) == Checked(old(Abstract(driverDone)))
      ensures item == old(if queue == [] then [] else queue[..1])
    {
      item := [];
      if |queue| > 0 {
        item := [queue[0]];
        taken := taken + [(places[0], queue[0])];
        queue, places, consumer := queue[1..], places[1..], if leaving then Over else Idle;
        leaving := false;
      } else if closed || driverDone {
        consumer, leaving := Over, false;
      } else {
        consumer := Parked;
      }
    }
  }

  /** The driver's side: the set of open subscribers, in the order in which they joined. */
  class Broadcaster {
    var subscribers: seq<Subscriber>
    var driverDone: bool

    ghost predicate Valid()
      reads this, subscribers
    {
      && (forall i, j | 0 <= i < j < |subscribers| :: subscribers[i] != subscribers[j])
      && (forall sub | sub in subscribers :: !sub.consumer.Over? && |sub.places| == |sub.queue|)
    }

    constructor ()
      ensures Valid() && subscribers == [] && !driverDone
    {
      subscribers, driverDone := [], false;
    }

    /** `subscribers.delete`. */
    method Delete(sub: Subscriber)
      requires sub in subscribers && forall i, j | 0 <= i < j < |subscribers| :: subscribers[i] != subscribers[j]
      modifies this`subscribers
      ensures sub !in subscribers && forall other :: other in subscribers <==> other in old(subscribers) && other != sub
      ensures forall i, j | 0 <= i < j < |subscribers| :: subscribers[i] != subscribers[j]
    {
      var i := 0;
      while subscribers[i] != sub
        invariant i < |subscribers| && sub in subscribers[i..] && subscribers == old(subscribers)
        decreases |subscribers| - i
      {
        i := i + 1;
      }
      ghost var was := subscribers;
      subscribers := Remove(subscribers, i);
      assert forall k | 0 <= k < |subscribers| :: subscribers[k] == was[if k < i then k else k + 1];
      assert forall k | 0 <= k < |was| && k != i :: was[k] == subscribers[if k < i then k else k - 1];
    }

    /** The generator runs to its next suspension; when it returns, its `finally` unsubscribes it. */
    method Serve(sub: Subscriber) returns (item: seq<Item>)
      requires Valid() && sub in subscribers && sub.consumer.Awake?
      modifies this`subscribers, sub
      ensures Valid() && sub.Abstract(driverDone) == Checked(old(sub.Abstract(driverDone)))
      ensures sub in subscribers <==> !sub.consumer.Over?
      ensures forall other | other != sub :: other in subscribers <==> other in old(subscribers)
    {
      item := sub.Resume(driverDone);
      if sub.consumer.Over? {
        Delete(sub);
      }
    }

    /** `return` on the generator unsubscribes it at once if and only if it waits between two calls. */
    method CancelStream(sub: Subscriber)
      requires Valid() && sub in subscribers
      modifies this`subscribers, sub`consumer, sub`leaving
      ensures Valid() && sub.Abstract(driverDone) == Cancelled(old(sub.Abstract(driverDone)))
      ensures sub !in subscribers <==> old(sub.consumer.Idle?)
      ensures forall other | other != sub :: other in subscribers <==> other in old(subscribers)
    {
      match sub.consumer {
        case Fresh => sub.consumer := Abandoned;
        case Idle =>
          sub.consumer := Over;
          Delete(sub);
        case Awake => sub.leaving := true;
        case Parked => sub.leaving := true;
        case _ =>
      }
    }

    method OpenStream(bufferSize: int) returns (sub: Subscriber)
      requires Valid()
      modifies this`subscribers
      ensures Valid() && fresh(sub) && subscribers == old(subscribers) + [sub]
      ensures sub.bufferSize == bufferSize && sub.Abstract(driverDone) == Opened(driverDone)
    {
      sub := new Subscriber(bufferSize, driverDone);
      subscribers := subscribers + [sub];
    }

    method BroadcastItem(v: Item)
      requires Valid()
      modifies subscribers
      ensures Valid()
      ensures forall sub | sub in subscribers ::
                sub.Abstract(driverDone) == Pushed(sub.bufferSize, old(sub.Abstract(driverDone)), v)
    {
      for i := 0 to |subscribers|
        invariant Valid()
        invariant forall k | 0 <= k < i ::
            subscribers[k].Abstract(driverDone) ==
            Pushed(subscribers[k].bufferSize, old(subscribers[k].Abstract(driverDone)), v)
        invariant forall k | i <= k < |subscribers| ::
            subscribers[k].Abstract(driverDone) == old(subscribers[k].Abstract(driverDone))
      {
        subscribers[i].PushItem(v);
        PushedStaysOpen(subscribers[i].bufferSize, old(subscribers[i].Abstract(driverDone)), v);
        hide Pushed;
      }
    }

    method BroadcastClose()
      requires Valid()
      modifies this`driverDone, subscribers
      ensures Valid() && driverDone
      ensures forall sub | sub in subscribers :: sub.Abstract(true) == Closed(old(sub.Abstract(driverDone)))
    {
      ghost var was := driverDone;
      driverDone := true;
      for i := 0 to |subscribers|
        invariant Valid() && driverDone
        invariant forall k | 0 <= k < i ::
            subscribers[k].Abstract(true) == Closed(old(subscribers[k].Abstract(was)))
        invariant forall k | i <= k < |subscribers| ::
            subscribers[k].Abstract(was) == old(subscribers[k].Abstract(was))
      {
        subscribers[i].CloseStream();
        ClosedStaysOpen(old(subscribers[i].Abstract(was)));
        hide Closed;
      }
    }
  }

  lemma ClosedStaysOpen(s: State)
    requires !s.consumer.Over? && |s.places| == |s.queue|
    ensures !Closed(s).consumer.Over? && |Closed(s).places| == |Closed(s).queue|
  {
  }

  lemma PushedStaysOpen(size: int, s: State, v: Item)
    requires !s.consumer.Over? && |s.places| == |s.queue|
    ensures !Pushed(size, s, v).consumer.Over? && |Pushed(size, s, v).places| == |Pushed(size, s, v).queue|
  {
  }
}
