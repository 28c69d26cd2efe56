/** Positions in a ring of n slots: pointers that step by one and wrap (src/opo/queue.c, src/opo/client.c). */
module Rings {
  /** The slot after i: q + 1, wrapped when it reaches the end. */
  function Next(i: nat, n: nat): nat {
    if n <= i + 1 then 0 else i + 1
  }

  /** Where a pointer stands after k steps from slot 0. */
  function Ix(k: nat, n: nat): (i: nat)
    requires n > 0
    ensures i < n
  {
    if k == 0 then 0 else Next(Ix(k - 1, n), n)
  }

  lemma {:induction false} IxPlus(k: nat, d: nat, n: nat)
    requires n > 0 && d <= n
    ensures Ix(k + d, n) == if Ix(k, n) + d < n then Ix(k, n) + d else Ix(k, n) + d - n
  {
    if d > 0 {
      IxPlus(k, d - 1, n);
    }
  }

  /** Fewer than n steps apart means different slots; n steps come back. */
  lemma IxDistinct(a: nat, b: nat, n: nat)
    requires n > 0 && a <= b <= a + n
    ensures Ix(a, n) == Ix(b, n) <==> b == a || b == a + n
  {
    IxPlus(a, b - a, n);
  }

  /** The pointer difference taken modulo n, as the counting functions take it, loses a full turn. */
  lemma Around(h: nat, t: nat, d: nat, n: nat)
    requires h < n && d <= n && t == if h + d < n then h + d else h + d - n
    ensures (t - h + n) % n == if d == n then 0 else d
  {
    if d < n {
      var x := if h + d < n then n + d else d;
      assert t - h + n == x;
      OneTurn(d, n);
    }
  }

  lemma OneTurn(d: nat, n: nat)
    requires d < n
    ensures (n + d) % n == d && d % n == d
  {
  }
}

/** The ring queue between one pusher and any number of poppers, one atomic access per step
    (src/opo/queue.c:24-109, 113-124, 153-158). */
module Queues {
  import opened Bytes
  import opened Trees
  import opened Rings

  type Msg = seq<byte>

  /** Where the pusher is inside queue_push. */
  datatype PushPc =
    | Away
    | Waiting(x: Msg) // before the test of head against tail
    | Clear(x: Msg)   // tested, before *tail = item
    | Stored(x: Msg)  // before tail moves

  /** Where a thread is inside queue_pop. */
  datatype PopPc =
    | Out
    | Locked        // before item = *head
    | Early(x: Msg)   // *head was not NULL, before it is cleared
    | EarlyOut(x: Msg)
    | Looking       // *head was NULL, before the test of tail against next
    | Failing       // gave up, before the lock is cleared
    | Passed        // before head moves
    | Advanced      // before item = *head
    | Holding(x: Msg) // before *head = NULL
    | Leaving(x: Msg) // before the lock is cleared

  /** The shared memory and the threads, with three histories: `pushed` grows when tail moves, `popped`
      counts the moves of head, `returned` grows when a queue_pop gives its item to the caller. */
  datatype State = State(
    slots: seq<Option<Msg>>,
    head: nat,
    tail: nat,
    lock: Option<nat>,
    pusher: PushPc,
    pops: seq<PopPc>,
    pushed: seq<Msg>,
    popped: nat,
    returned: seq<Msg>)

  /** queue_init: at least four slots, head on slot 0 and tail on slot 1. */
  function Init(qsize: nat, threads: nat): State {
    var n := if qsize < 4 then 4 else qsize;
    State(seq(n, _ => None), 0, 1, None, Away, seq(threads, _ => Out), [], 0, [])
  }

  datatype Action =
    | StartPush(x: Msg) | TestFull | Store | MoveTail
    | Lock(i: nat) | Peek(i: nat) | ClearEarly(i: nat) | Look(i: nat, patient: bool)
    | MoveHead(i: nat) | Fetch(i: nat) | Wipe(i: nat) | Unlock(i: nat)

  function Pc(s: State, i: nat): PopPc {
    if i < |s.pops| then s.pops[i] else Out
  }

  predicate Enabled(s: State, a: Action) {
    match a
    case StartPush(_) => s.pusher.Away?
    case TestFull => s.pusher.Waiting?
    case Store => s.pusher.Clear?
    case MoveTail => s.pusher.Stored?
    case Lock(i) => i < |s.pops| && Pc(s, i).Out? && s.lock.None?
    case Peek(i) => Pc(s, i).Locked?
    case ClearEarly(i) => Pc(s, i).Early?
    case Look(i, _) => Pc(s, i).Looking?
    case MoveHead(i) => Pc(s, i).Passed?
    case Fetch(i) => Pc(s, i).Advanced?
    case Wipe(i) => Pc(s, i).Holding?
    case Unlock(i) => Pc(s, i).Failing? || Pc(s, i).EarlyOut? || Pc(s, i).Leaving?
  }

  predicate Bounds(s: State) {
    s.head < |s.slots| && s.tail < |s.slots|
  }

  function Goes(s: State, i: nat, pc: PopPc): State
    requires i < |s.pops|
  {
    s.(pops := s.pops[i := pc])
  }

  function Do(s: State, a: Action): State
    requires Bounds(s) && Enabled(s, a)
  {
    var n := |s.slots|;
    match a
    case StartPush(x) => s.(pusher := Waiting(x))
    case TestFull => if s.head == s.tail then s else s.(pusher := Clear(s.pusher.x))
    case Store => s.(slots := s.slots[s.tail := Some(s.pusher.x)], pusher := Stored(s.pusher.x))
    case MoveTail => s.(tail := Next(s.tail, n), pusher := Away, pushed := s.pushed + [s.pusher.x])
    case Lock(i) => Goes(s.(lock := Some(i)), i, Locked)
    case Peek(i) =>
      (match s.slots[s.head]
       case Some(x) => Goes(s, i, Early(x))
       case None => Goes(s, i, Looking))
    case ClearEarly(i) => Goes(s.(slots := s.slots[s.head := None]), i, EarlyOut(s.pops[i].x))
    case Look(i, patient) =>
      if s.tail != Next(s.head, n) then Goes(s, i, Passed) else if patient then s else Goes(s, i, Failing)
    case MoveHead(i) => Goes(s.(head := Next(s.head, n), popped := s.popped + 1), i, Advanced)
    case Fetch(i) =>
      (match s.slots[s.head]
       case Some(x) => Goes(s, i, Holding(x))
       case None => Goes(s, i, Failing))
    case Wipe(i) => Goes(s.(slots := s.slots[s.head := None]), i, Leaving(s.pops[i].x))
    case Unlock(i) =>
      var out := if s.pops[i].Failing? then [] else [s.pops[i].x];
      Goes(s.(lock := None, returned := s.returned + out), i, Out)
  }

  // ---- the invariant ----

  /** The slot a pointer reaches after k steps. */
  function Slot(slots: seq<Option<Msg>>, k: nat): Option<Msg>
    requires |slots| > 0
  {
    slots[Ix(k, |slots|)]
  }

  /** The pc of whoever holds the lock. */
  function Holder(s: State): PopPc {
    if s.lock.Some? then Pc(s, s.lock.value) else Out
  }

  predicate Taking(pc: PopPc) { pc.Advanced? || pc.Holding? || pc.Leaving? }

  /** head and tail have made as many steps as the histories say, and tail is at most one turn ahead. */
  predicate Pointers(s: State) {
    && |s.slots| >= 4
    && s.head == Ix(s.popped, |s.slots|)
    && s.tail == Ix(|s.pushed| + 1, |s.slots|)
    && s.popped <= |s.pushed| < s.popped + |s.slots|
  }

  /** One thread at a time is past the lock. */
  predicate Mutex(s: State) {
    && (s.lock.Some? ==> s.lock.value < |s.pops| && !s.pops[s.lock.value].Out?)
    && (forall i :: 0 <= i < |s.pops| && s.lock != Some(i) ==> s.pops[i].Out?)
  }

  /** The slots strictly between head and tail hold what was pushed and not popped; the free ones are NULL. */
  predicate Contents(s: State)
    requires |s.slots| > 0
  {
    && (forall k :: s.popped < k <= |s.pushed| ==> Slot(s.slots, k) == Some(s.pushed[k - 1]))
    && (forall k :: |s.pushed| + 1 < k < s.popped + |s.slots| ==> Slot(s.slots, k) == None)
    && (|s.pushed| + 1 < s.popped + |s.slots| ==>
          Slot(s.slots, |s.pushed| + 1) == if s.pusher.Stored? then Some(s.pusher.x) else None)
  }

  /** Past its test the pusher has a free slot ahead of it. */
  predicate PusherSafe(s: State) {
    s.pusher.Clear? || s.pusher.Stored? ==> |s.pushed| + 1 < s.popped + |s.slots|
  }

  /** *head is NULL except while the lock's holder is taking the item there, which is the last one popped. */
  predicate HeadSlot(s: State)
    requires |s.slots| > 0
  {
    var pc := Holder(s);
    && !pc.Early? && !pc.EarlyOut?
    && (pc.Passed? ==> s.popped < |s.pushed|)
    && (Taking(pc) ==> 0 < s.popped <= |s.pushed|)
    && (pc.Holding? || pc.Leaving? ==> s.popped <= |s.pushed| && 0 < s.popped && pc.x == s.pushed[s.popped - 1])
    && Slot(s.slots, s.popped) == if (pc.Advanced? || pc.Holding?) && 0 < s.popped <= |s.pushed|
                            then Some(s.pushed[s.popped - 1]) else None
  }

  /** The callers have received the pushed items in order, all popped ones but at most the one in flight. */
  predicate Returned(s: State) {
    var m := if Taking(Holder(s)) then s.popped - 1 else s.popped;
    0 <= m <= |s.pushed| && s.returned == s.pushed[..m]
  }

  predicate Inv(s: State) {
    Pointers(s) && Mutex(s) && Contents(s) && PusherSafe(s) && HeadSlot(s) && Returned(s)
  }

  lemma InitInv(qsize: nat, threads: nat)
    ensures Inv(Init(qsize, threads))
  {
    var s := Init(qsize, threads);
    assert Ix(1, |s.slots|) == 1;
  }

  lemma InvBounds(s: State)
    requires Inv(s)
    ensures Bounds(s)
  {
  }

  /** Only the holder of the lock has steps of queue_pop past the lock. */
  lemma HolderActs(s: State, a: Action)
    requires Mutex(s) && Enabled(s, a)
    ensures a.Lock? || a.StartPush? || a.TestFull? || a.Store? || a.MoveTail? || s.lock == Some(a.i)
  {
  }

  /** Every atomic step of every thread keeps the invariant. */
  lemma StepInv(s: State, a: Action)
    requires Inv(s) && Enabled(s, a)
    ensures Bounds(s) && Inv(Do(s, a))
  {
    InvBounds(s);
    HolderActs(s, a);
    match a
    case StartPush(_) =>
    case TestFull => TestFullInv(s);
    case Store => StoreInv(s);
    case MoveTail => MoveTailInv(s);
    case Lock(i) =>
    case Peek(i) =>
    case ClearEarly(i) =>
    case Look(i, patient) => LookInv(s, i, patient);
    case MoveHead(i) => MoveHeadInv(s, i);
    case Fetch(i) =>
    case Wipe(i) => WipeInv(s, i);
    case Unlock(i) =>
  }

  lemma TestFullInv(s: State)
    requires Inv(s) && Bounds(s) && Enabled(s, TestFull)
    ensures Inv(Do(s, TestFull))
  {
    IxDistinct(s.popped, |s.pushed| + 1, |s.slots|);
  }

  lemma StoreInv(s: State)
    requires Inv(s) && Bounds(s) && Enabled(s, Store)
    ensures Inv(Do(s, Store))
  {
    var t := |s.pushed| + 1;
    var s' := Do(s, Store);
    forall k: nat | s.popped <= k < s.popped + |s.slots| && k != t
      ensures Slot(s'.slots, k) == Slot(s.slots, k)
    {
      if k < t { IxDistinct(k, t, |s.slots|); } else { IxDistinct(t, k, |s.slots|); }
    }
  }

  lemma MoveTailInv(s: State)
    requires Inv(s) && Bounds(s) && Enabled(s, MoveTail)
    ensures Inv(Do(s, MoveTail))
  {
    var s' := Do(s, MoveTail);
    assert Ix(|s.pushed| + 2, |s.slots|) == Next(s.tail, |s.slots|);
  }

  lemma LookInv(s: State, i: nat, patient: bool)
    requires Inv(s) && Bounds(s) && Enabled(s, Look(i, patient)) && s.lock == Some(i)
    ensures Inv(Do(s, Look(i, patient)))
  {
    assert Ix(s.popped + 1, |s.slots|) == Next(s.head, |s.slots|);
    var s' := Do(s, Look(i, patient));
  }

  lemma MoveHeadInv(s: State, i: nat)
    requires Inv(s) && Bounds(s) && Enabled(s, MoveHead(i)) && s.lock == Some(i)
    ensures Inv(Do(s, MoveHead(i)))
  {
    var n := |s.slots|;
    assert Ix(s.popped + 1, n) == Next(s.head, n);
    var s' := Do(s, MoveHead(i));
    IxDistinct(s.popped, s.popped + n, n);
    assert Slot(s.slots, s.popped + n) == Slot(s.slots, s.popped) == None;
  }

  lemma WipeInv(s: State, i: nat)
    requires Inv(s) && Bounds(s) && Enabled(s, Wipe(i)) && s.lock == Some(i)
    ensures Inv(Do(s, Wipe(i)))
  {
    var s' := Do(s, Wipe(i));
    forall k: nat | s.popped < k < s.popped + |s.slots|
      ensures Slot(s'.slots, k) == Slot(s.slots, k)
    {
      IxDistinct(s.popped, k, |s.slots|);
    }
  }
}
