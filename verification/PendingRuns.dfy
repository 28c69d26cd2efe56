/** What the pending ring promises over whole runs. */
module PendingRuns {
  import opened Bytes
  import opened Trees
  import opened Wire
  import opened Frames
  import opened Rings
  import opened Pending
  import opened PendingInv

  /** The step can be taken, and a response among the steps comes in order. */
  predicate Possible(s: State, a: Action) {
    Enabled(s, a) && Orderly(s, a) && Bounds(s)
  }

  /** The state after some steps, None when one was not possible. */
  function Run(s: State, acts: seq<Action>): Option<State>
    decreases |acts|
  {
    if acts == [] then Some(s)
    else if Possible(s, acts[0]) then Run(Do(s, acts[0]), acts[1..])
    else None
  }

  lemma {:induction false} RunInv(s: State, acts: seq<Action>)
    requires Inv(s) && Run(s, acts).Some?
    ensures Inv(Run(s, acts).value)
    decreases |acts|
  {
    if acts != [] {
      hide Inv, Do, Enabled, Orderly, Bounds;
      StepInv(s, acts[0]);
      RunInv(Do(s, acts[0]), acts[1..]);
    }
  }

  lemma {:induction false} RunThen(s: State, a: seq<Action>, b: seq<Action>)
    requires Run(s, a).Some?
    ensures Run(s, a + b) == Run(Run(s, a).value, b)
    decreases |a|
  {
    if a == [] {
      assert a + b == b;
    } else {
      assert (a + b)[1..] == a[1..] + b;
      hide Do, Possible;
      RunThen(Do(s, a[0]), a[1..], b);
    }
  }

  // ---- exactly once, in order, each with its own answer ----

  /** Callbacks saw queries 1, 2, 3, ... in sending order, each once, each with its verdict. */
  ghost predicate InOrder(s: State) {
    && |s.served| <= |s.wire|
    && forall k :: 0 <= k < |s.served| ==>
         k < |s.cbs| && Verdict(s.received, k).Some?
         && s.served[k] == Served(k + 1, Verdict(s.received, k), s.cbs[k])
  }

  lemma InvInOrder(s: State)
    requires Inv(s)
    ensures InOrder(s) && s.dropped == 0
    ensures forall i :: 0 <= i < |s.wire| ==> s.wire[i] == i + 1
  {
    hide Verdict, SlotsOk, Pointers, AskOk, Mutex;
    forall k | 0 <= k < |s.served|
      ensures Verdict(s.received, k).Some?
    {
      Settled(s, Packet(0, Leaf(Null)), k);
    }
  }

  /** In every interleaving of querying threads, the receiver and at most one processing thread. */
  lemma EveryRun(pendingMax: int, askers: nat, procs: nat, acts: seq<Action>)
    requires procs <= 1 && Run(Init(pendingMax, askers, procs), acts).Some?
    ensures InOrder(Run(Init(pendingMax, askers, procs), acts).value)
    ensures Run(Init(pendingMax, askers, procs), acts).value.dropped == 0
  {
    InitInv(pendingMax, askers, procs);
    RunInv(Init(pendingMax, askers, procs), acts);
    InvInOrder(Run(Init(pendingMax, askers, procs), acts).value);
  }

  // ---- the ring at any moment ----

  /** The ring is cut into held, READY (or skipped), SENT and free slots, no two of which overlap. */
  lemma Partition(s: State, k: nat)
    requires Inv(s) && Freed(s) <= k < Freed(s) + |s.slots|
    ensures Freed(s) <= s.taken <= s.decided <= |s.cbs| <= Freed(s) + |s.slots| && s.taken - Freed(s) <= 1
    ensures var x := SlotAt(s.slots, k);
            && (k < s.taken ==> x.state.Ready? || x.state.Taken?)
            && (s.taken <= k < s.decided ==>
                  x.id == k + 1
                  && if Skipped(s.received, s.cbs, k) then x.state.Sent? && !x.cb
                     else x.state.Ready? && x.resp == Verdict(s.received, k))
            && (s.decided <= k < |s.cbs| ==> x.state.Sent? && x.id == k + 1 && x.cb == s.cbs[k])
            && (|s.cbs| <= k ==> x.state.Clear? && x.resp.None?)
    ensures forall j: nat :: Freed(s) <= j < Freed(s) + |s.slots| && j != k ==> Ix(j, |s.slots|) != Ix(k, |s.slots|)
  {
    hide Verdict, Ix, DecidedSlot, Pointers, AskOk, RecvOk, ProcOk, Mutex, SlotAt;
    SlotHere(s, k);
    assert SlotAt(s.slots, k) == s.slots[Ix(k, |s.slots|)] by { hide *; AtIs(s.slots, k); }
    assert s.taken <= k < s.decided ==>
        SlotAt(s.slots, k) == DecidedSlot(s.received, s.cbs, k);
    DecidedMeans(s, k);
    forall j: nat | Freed(s) <= j < Freed(s) + |s.slots| && j != k
      ensures Ix(j, |s.slots|) != Ix(k, |s.slots|)
    {
      if j < k { IxDistinct(j, k, |s.slots|); } else { IxDistinct(k, j, |s.slots|); }
    }
  }

  lemma DecidedMeans(s: State, k: nat)
    ensures k < |s.cbs| ==>
              DecidedSlot(s.received, s.cbs, k)
              == if Skipped(s.received, s.cbs, k) then Slot(k + 1, false, Sent, None)
                 else Slot(k + 1, s.cbs[k], Ready, Verdict(s.received, k))
  {
  }

  predicate Rewrites(s: State, t: State, i: nat) {
    i < |s.slots| == |t.slots| && t.slots[i] != s.slots[i]
  }

  /** Each slot has one role allowed to write it: a querying thread a CLEAR slot, the receiver the SENT slot at
      on_deck, the processing thread the slot it took, which nobody refills before it is handed back. */
  lemma OneWriter(s: State, a: Action, k: nat)
    requires Inv(s) && Enabled(s, a) && Bounds(s)
    requires Freed(s) <= k < Freed(s) + |s.slots| && Rewrites(s, Do(s, a), Ix(k, |s.slots|))
    ensures Asks(a) ==> k == |s.cbs| && SlotAt(s.slots, k).state.Clear?
    ensures Receives(a) ==> k == s.decided < |s.cbs| && SlotAt(s.slots, k).state.Sent?
    ensures !Asks(a) && !Receives(a) ==>
              k == s.taken - 1 && Holds(Worker(s)) && (SlotAt(s.slots, k).state.Ready? || SlotAt(s.slots, k).state.Taken?)
  {
    hide Inv, Do, Enabled, Bounds, Rewrites, Ix, SlotAt;
    Partition(s, k);
    if Asks(a) {
      AskWrites(s, a, Ix(k, |s.slots|));
    } else if Receives(a) {
      RecvWrites(s, a, Ix(k, |s.slots|));
    } else {
      ProcWrites(s, a, Ix(k, |s.slots|));
    }
  }

  lemma AskWrites(s: State, a: Action, i: nat)
    requires Inv(s) && Enabled(s, a) && Bounds(s) && Asks(a) && Rewrites(s, Do(s, a), i)
    ensures i == Ix(|s.cbs|, |s.slots|) && |s.cbs| < Freed(s) + |s.slots|
  {
    hide Verdict, Ix, SlotsOk, RecvOk, ProcOk, Pointers, Rising;
    AskActs(s, a);
  }

  lemma RecvWrites(s: State, a: Action, i: nat)
    requires Inv(s) && Enabled(s, a) && Bounds(s) && Receives(a) && Rewrites(s, Do(s, a), i)
    ensures i == Ix(s.decided, |s.slots|) && s.decided < |s.cbs|
  {
    hide Verdict, Ix, SlotsOk, AskOk, ProcOk, Mutex;
  }

  lemma ProcWrites(s: State, a: Action, i: nat)
    requires Inv(s) && Enabled(s, a) && Bounds(s) && !Asks(a) && !Receives(a) && Rewrites(s, Do(s, a), i)
    ensures s.taken > 0 && i == Ix(s.taken - 1, |s.slots|) && Holds(Worker(s))
  {
    hide Verdict, Ix, SlotsOk, AskOk, RecvOk, Pointers;
    ProcActs(s, a);
  }

  // ---- what blocks whom ----

  /** The tests: a query finds room iff fewer than pending_max are unfinished, and a processing thread takes iff
      the oldest query is decided and was not skipped without a callback. */
  lemma StepTests(s: State, a: Action)
    requires Inv(s) && Enabled(s, a) && Bounds(s)
    ensures a.AskTest? ==> (Ask(Do(s, a), a.i).Granted? <==> |s.cbs| - Freed(s) < |s.slots|)
    ensures a.TakeTest? ==>
              (Worker(Do(s, a)).Grabbed? <==> s.taken < s.decided && !Skipped(s.received, s.cbs, s.taken))
    ensures a.AskTest? && |s.cbs| - Freed(s) == |s.slots| ==>
              if a.patient then Do(s, a) == s else Ask(Do(s, a), a.i).Releasing? && Do(s, a).cbs == s.cbs
    ensures a.TakeTest? && !Worker(Do(s, a)).Grabbed? ==> if a.patient then Do(s, a) == s else Worker(Do(s, a)).Leaving?
  {
    hide Verdict, Ix, SlotAt;
    if a.AskTest? {
      AskActs(s, a);
      if |s.cbs| - Freed(s) < |s.slots| {
        SlotHere(s, |s.cbs|);
      } else {
        IxDistinct(Freed(s), |s.cbs|, |s.slots|);
        SlotHere(s, Freed(s));
      }
    }
    if a.TakeTest? {
      ProcActs(s, a);
      SlotHere(s, s.taken);
    }
  }

  /** The oldest query not taken was sent without a callback, and a later one has been answered before it. */
  predicate Stuck(s: State) {
    s.taken < |s.cbs| && Verdict(s.received, s.taken).Some? && Skipped(s.received, s.cbs, s.taken)
  }

  lemma StuckStep(s: State, a: Action)
    requires Inv(s) && Possible(s, a) && Stuck(s)
    ensures Stuck(Do(s, a)) && Do(s, a).taken == s.taken
  {
    hide Verdict, Ix, SlotsOk, Pointers, AskOk, RecvOk, Bounds;
    if Asks(a) {
      AskTouches(s, a);
    } else if Receives(a) {
      RecvTouches(s, a);
      if a.Receive? {
        VerdictSnoc(s.received, a.m, s.taken);
      }
    } else {
      ProcTouches(s, a);
      ProcActs(s, a);
    }
  }

  /** From then on no query is ever processed again. */
  lemma {:induction false} StuckForever(s: State, acts: seq<Action>)
    requires Inv(s) && Stuck(s) && Run(s, acts).Some?
    ensures Run(s, acts).value.taken == s.taken
    decreases |acts|
  {
    if acts != [] {
      hide Inv, Do, Enabled, Orderly, Bounds, Stuck;
      StuckStep(s, acts[0]);
      StepInv(s, acts[0]);
      StuckForever(Do(s, acts[0]), acts[1..]);
    }
  }

  /** opo_client_pending_count and opo_client_ready_count. */
  function PendingCount(s: State): nat
    requires |s.slots| > 0
  {
    (s.tail + |s.slots| - s.deck) % |s.slots|
  }

  function ReadyCount(s: State): nat
    requires |s.slots| > 0
  {
    (s.deck + |s.slots| - s.head) % |s.slots|
  }

  lemma Gap(a: nat, b: nat, n: nat)
    requires n > 0 && a <= b <= a + n
    ensures (Ix(b, n) + n - Ix(a, n)) % n == if b == a + n then 0 else b - a
  {
    hide Ix;
    IxPlus(a, b - a, n);
    Around(Ix(a, n), Ix(b, n), b - a, n);
    assert Ix(b, n) + n - Ix(a, n) == Ix(b, n) - Ix(a, n) + n;
  }

  /** With no step under way they give the lengths of the undecided and the decided range, a full turn reading as 0. */
  lemma Observers(s: State)
    requires Inv(s) && !Unwritten(Asker(s)) && !s.recv.SkipMove? && !s.recv.Move?
    ensures PendingCount(s) == (if |s.cbs| - s.decided == |s.slots| then 0 else |s.cbs| - s.decided)
    ensures ReadyCount(s) == (if s.decided - s.taken == |s.slots| then 0 else s.decided - s.taken)
  {
    hide Verdict, Ix, SlotsOk, RecvOk, AskOk, Mutex;
    Gap(s.decided, |s.cbs|, |s.slots|);
    Gap(s.taken, s.decided, |s.slots|);
  }

  /** The READY slots among queries lo..hi-1. */
  function ReadySlots(slots: seq<Slot>, lo: nat, hi: nat): nat
    requires |slots| > 0
    decreases hi
  {
    if hi <= lo then 0
    else ReadySlots(slots, lo, hi - 1) + if SlotAt(slots, hi - 1).state.Ready? then 1 else 0
  }

  lemma {:induction false} ReadySlotsCount(slots: seq<Slot>, lo: nat, hi: nat)
    requires |slots| > 0 && lo <= hi
    ensures ReadySlots(slots, lo, hi) <= hi - lo
    ensures ReadySlots(slots, lo, hi) == hi - lo <==> forall k :: lo <= k < hi ==> SlotAt(slots, k).state.Ready?
    decreases hi
  {
    hide SlotAt;
    if lo < hi {
      ReadySlotsCount(slots, lo, hi - 1);
    }
  }

  /** With the receiver idle, the last decided query has its own response. */
  lemma LastAnswered(s: State)
    requires Counts(s) && RecvOk(s) && s.recv.Idle? && s.decided > 0 && s.decided <= |s.cbs|
    ensures !Skipped(s.received, s.cbs, s.decided - 1)
  {
    var k := s.decided - 1;
    var before := s.received[..|s.received| - 1];
    var m := s.received[|s.received| - 1];
    assert s.received == before + [m];
    assert Rising(before, |s.wire|);
    hide Verdict;
    VerdictReaches(before, |s.wire|, k);
    VerdictSnoc(before, m, k);
  }

  /** opo_client_ready_count is the number of READY responses iff they do not fill the ring and no query among them
      was skipped without a callback. */
  lemma ReadyExactly(s: State)
    requires Inv(s) && s.recv.Idle?
    ensures ReadyCount(s) == ReadySlots(s.slots, s.taken, s.decided)
        <==> s.decided - s.taken < |s.slots|
             && forall k :: s.taken <= k < s.decided ==> k < |s.cbs| && !Skipped(s.received, s.cbs, k)
  {
    hide Verdict, Ix, RecvOk, AskOk, Mutex, SlotAt, Pointers, SlotsOk;
    DeckCount(s);
    ReadySlotsCount(s.slots, s.taken, s.decided);
    forall k: nat | s.taken <= k < s.decided
      ensures SlotAt(s.slots, k).state.Ready? <==> !Skipped(s.received, s.cbs, k)
    {
      Partition(s, k);
    }
    if s.taken < s.decided {
      LastAnswered(s);
    }
  }

  lemma DeckCount(s: State)
    requires Inv(s) && s.recv.Idle?
    ensures ReadyCount(s) == (if s.decided - s.taken == |s.slots| then 0 else s.decided - s.taken)
    ensures |s.slots| > 0 && s.taken <= s.decided <= |s.cbs| <= Freed(s) + |s.slots| && Freed(s) <= s.taken
  {
    hide Verdict, Ix, SlotsOk, RecvOk, AskOk, Mutex;
    Gap(s.taken, s.decided, |s.slots|);
  }

  /** opo_client_pending_count is the number of queries waiting for responses iff they do not fill the ring. */
  lemma PendingExactly(s: State)
    requires Inv(s) && !Unwritten(Asker(s)) && s.recv.Idle?
    ensures forall k :: s.decided <= k < |s.cbs| ==> SlotAt(s.slots, k).state.Sent?
    ensures PendingCount(s) == |s.cbs| - s.decided <==> |s.cbs| - s.decided < |s.slots|
  {
    hide Inv;
    Observers(s);
    DeckCount(s);
    forall k: nat | s.decided <= k < |s.cbs|
      ensures SlotAt(s.slots, k).state.Sent?
    {
      Partition(s, k);
    }
  }
}
