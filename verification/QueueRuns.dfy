/** What the queue does over whole runs. */
module QueueRuns {
  import opened Bytes
  import opened Trees
  import opened Rings
  import opened Queues

  /** The queue as its users see it. */
  function Waiters(s: State): seq<Msg>
    requires Inv(s)
  {
    s.pushed[s.popped..]
  }

  /** Each atomic step adds one item at the back, takes the one at the front, or leaves the queue alone. */
  lemma StepIsFifo(s: State, a: Action)
    requires Inv(s) && Enabled(s, a)
    ensures Bounds(s) && Inv(Do(s, a))
    ensures a.MoveTail? ==> Waiters(Do(s, a)) == Waiters(s) + [s.pusher.x] && |Waiters(s)| < |s.slots| - 1
    ensures a.MoveHead? ==> Waiters(s) != [] && Waiters(Do(s, a)) == Waiters(s)[1..]
    ensures !a.MoveTail? && !a.MoveHead? ==> Waiters(Do(s, a)) == Waiters(s)
  {
    StepInv(s, a);
    if a.MoveHead? {
      HolderActs(s, a);
    }
  }

  /** The tests and the writes: what blocks, what is overwritten, which branch is dead. */
  lemma StepTests(s: State, a: Action)
    requires Inv(s) && Enabled(s, a)
    ensures Bounds(s)
    ensures a.TestFull? ==> (Do(s, a).pusher.Waiting? <==> |Waiters(s)| == |s.slots| - 1)
    ensures a.Store? ==> s.slots[s.tail] == None
    ensures a.Look? ==> (Do(s, a).pops[a.i].Passed? <==> Waiters(s) != [])
    ensures a.Look? && Do(s, a).pops[a.i].Failing? ==> Waiters(s) == []
    ensures a.Peek? ==> Do(s, a).pops[a.i].Looking?
    ensures a.Fetch? ==> Do(s, a).pops[a.i] == Holding(s.pushed[s.popped - 1])
    ensures !a.ClearEarly?
  {
    InvBounds(s);
    HolderActs(s, a);
    var n := |s.slots|;
    IxDistinct(s.popped, |s.pushed| + 1, n);
    IxDistinct(s.popped + 1, |s.pushed| + 1, n);
    assert Ix(s.popped + 1, n) == Next(s.head, n);
  }

  /** queue_empty and queue_count. */
  function QueueEmpty(s: State): bool
    requires Bounds(s)
  {
    s.slots[s.head] == None && s.tail == Next(s.head, |s.slots|)
  }

  function QueueCount(s: State): nat
    requires Bounds(s)
  {
    (s.tail - s.head + |s.slots|) % |s.slots|
  }

  /** queue_empty is right but while an item is being taken; queue_count is one high and 0 for a full queue. */
  lemma Observers(s: State)
    requires Inv(s)
    ensures Bounds(s)
    ensures QueueEmpty(s) <==> Waiters(s) == [] && !Holder(s).Advanced? && !Holder(s).Holding?
    ensures QueueCount(s) == if |Waiters(s)| == |s.slots| - 1 then 0 else |Waiters(s)| + 1
    ensures QueueCount(s) != |Waiters(s)|
  {
    InvBounds(s);
    var n, d := |s.slots|, |s.pushed| + 1 - s.popped;
    IxPlus(s.popped, d, n);
    IxDistinct(s.popped + 1, |s.pushed| + 1, n);
    assert Ix(s.popped + 1, n) == Next(s.head, n);
    Around(s.head, s.tail, d, n);
  }

  // ---- runs ----

  /** The state after some steps, None when one of them was not possible. */
  function Run(s: State, acts: seq<Action>): Option<State>
    decreases |acts|
  {
    if acts == [] then Some(s)
    else
      match Run(s, acts[..|acts| - 1])
      case None => None
      case Some(t) =>
        var a := acts[|acts| - 1];
        if Enabled(t, a) && Bounds(t) then Some(Do(t, a)) else None
  }

  /** The items given to queue_push, in order. */
  function Offered(acts: seq<Action>): seq<Msg> {
    if acts == [] then []
    else
      var a := acts[|acts| - 1];
      Offered(acts[..|acts| - 1]) + if a.StartPush? then [a.x] else []
  }

  function InFlight(s: State): seq<Msg> {
    if s.pusher.Away? then [] else [s.pusher.x]
  }

  /** In every interleaving: the callers of queue_pop receive the items given to queue_push, in order, each once. */
  lemma {:induction false} EveryRun(qsize: nat, threads: nat, acts: seq<Action>)
    requires Run(Init(qsize, threads), acts).Some?
    ensures var s := Run(Init(qsize, threads), acts).value;
            Inv(s) && Offered(acts) == s.pushed + InFlight(s)
            && s.returned <= s.pushed && |s.pushed| - |Waiters(s)| - 1 <= |s.returned| <= |s.pushed| - |Waiters(s)|
    decreases |acts|
  {
    if acts == [] {
      InitInv(qsize, threads);
    } else {
      var before := acts[..|acts| - 1];
      var a := acts[|acts| - 1];
      EveryRun(qsize, threads, before);
      var t := Run(Init(qsize, threads), before).value;
      StepInv(t, a);
      StepOffers(t, a);
      TakenPrefix(Do(t, a));
    }
  }

  lemma StepOffers(s: State, a: Action)
    requires Bounds(s) && Enabled(s, a)
    ensures Do(s, a).pushed + InFlight(Do(s, a))
            == s.pushed + InFlight(s) + if a.StartPush? then [a.x] else []
  {
  }

  lemma TakenPrefix(s: State)
    requires Inv(s)
    ensures s.returned <= s.pushed
    ensures |s.pushed| - |Waiters(s)| - 1 <= |s.returned| <= |s.pushed| - |Waiters(s)|
  {
  }
}
