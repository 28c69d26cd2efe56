/** Runs of the queue that exist: every thread can be served, and the pusher can go on where there is room. */
module QueueLive {
  import opened Bytes
  import opened Trees
  import opened Rings
  import opened Queues
  import opened QueueRuns

  lemma {:induction false} RunThen(s: State, a: seq<Action>, b: seq<Action>)
    requires Run(s, a).Some?
    ensures Run(s, a + b) == Run(Run(s, a).value, b)
    decreases |b|
  {
    if b == [] {
      assert a + b == a;
    } else {
      assert (a + b)[..|a + b| - 1] == a + b[..|b| - 1];
      hide Do, Enabled, Bounds;
      RunThen(s, a, b[..|b| - 1]);
    }
  }

  lemma RunOne(s: State, a: Action)
    requires Enabled(s, a) && Bounds(s)
    ensures Run(s, [a]) == Some(Do(s, a)) && Run(s, []) == Some(s)
  {
    hide Do, Enabled, Bounds;
    assert [a][..0] == [];
    assert Run(s, [a][..0]) == Some(s);
  }

  lemma RunCons(s: State, a: Action, acts: seq<Action>)
    requires Enabled(s, a) && Bounds(s)
    ensures Run(s, [a] + acts) == Run(Do(s, a), acts)
  {
    hide Do, Enabled, Bounds;
    RunOne(s, a);
    RunThen(s, [a], acts);
  }

  lemma {:induction false} RunInv(s: State, acts: seq<Action>)
    requires Inv(s) && Run(s, acts).Some?
    ensures Inv(Run(s, acts).value)
    decreases |acts|
  {
    if acts != [] {
      hide Inv, Do, Enabled, Bounds;
      RunInv(s, acts[..|acts| - 1]);
      StepInv(Run(s, acts[..|acts| - 1]).value, acts[|acts| - 1]);
    }
  }

  // ---- the pusher ----

  predicate Pushes(a: Action) { a.StartPush? || a.TestFull? || a.Store? || a.MoveTail? }

  predicate OnlyPushes(acts: seq<Action>) { forall i :: 0 <= i < |acts| ==> Pushes(acts[i]) }

  /** What the pusher leaves alone. */
  predicate PusherOnly(s: State, t: State) {
    && t.lock == s.lock && t.pops == s.pops && t.popped == s.popped && t.returned == s.returned
    && t.head == s.head && |t.slots| == |s.slots|
  }

  function PushRank(pc: PushPc): nat {
    match pc
    case Away => 4
    case Waiting(_) => 3
    case Clear(_) => 2
    case Stored(_) => 1
  }

  /** The item the pusher is at, or else x. */
  function Adding(s: State, x: Msg): Msg {
    if s.pusher.Away? then x else s.pusher.x
  }

  lemma PushOne(s: State, x: Msg) returns (a: Action)
    requires Inv(s) && |Waiters(s)| < |s.slots| - 1
    ensures Pushes(a) && Enabled(s, a) && Bounds(s) && Inv(Do(s, a)) && PusherOnly(s, Do(s, a))
    ensures if s.pusher.Stored? then Do(s, a).pushed == s.pushed + [Adding(s, x)]
            else Do(s, a).pushed == s.pushed && PushRank(Do(s, a).pusher) < PushRank(s.pusher)
                 && Adding(Do(s, a), x) == Adding(s, x)
  {
    a := match s.pusher
      case Away => StartPush(x)
      case Waiting(_) => TestFull
      case Clear(_) => Store
      case Stored(_) => MoveTail;
    InvBounds(s);
    StepInv(s, a);
    StepTests(s, a);
    hide Inv;
  }

  /** With room the pusher adds its item. */
  lemma {:induction false} PusherAdds(s: State, x: Msg) returns (acts: seq<Action>)
    requires Inv(s) && |Waiters(s)| < |s.slots| - 1
    ensures Run(s, acts).Some? && OnlyPushes(acts)
    ensures var t := Run(s, acts).value;
            Inv(t) && PusherOnly(s, t) && t.pushed == s.pushed + [Adding(s, x)]
    decreases PushRank(s.pusher)
  {
    var a := PushOne(s, x);
    var t := Do(s, a);
    Lengths(s);
    Lengths(t);
    hide Inv, Do, Enabled, Bounds, Run, Waiters, PushRank, Pushes, Adding;
    if s.pusher.Stored? {
      RunOne(s, a);
      acts := [a];
    } else {
      acts := PusherAdds(t, x);
      RunCons(s, a, acts);
      acts := [a] + acts;
    }
  }

  lemma Lengths(s: State)
    requires Inv(s)
    ensures |Waiters(s)| == |s.pushed| - s.popped && s.popped <= |s.pushed| < s.popped + |s.slots| && |s.slots| >= 4
    ensures s.lock.None? ==> |s.returned| == s.popped
    ensures s.lock.Some? ==> s.lock.value < |s.pops|
  {
  }

  // ---- the thread that holds the lock ----

  function PopRank(pc: PopPc): nat {
    match pc
    case Locked => 9
    case Looking => 8
    case Passed => 7
    case Advanced => 6
    case Holding(_) => 5
    case Leaving(_) => 4
    case Failing => 4
    case _ => 0
  }

  /** The holder of the lock will take the next item whatever the other threads do. */
  predicate Committed(s: State)
    requires Inv(s)
  {
    Holder(s).Passed? || Taking(Holder(s)) || ((Holder(s).Locked? || Holder(s).Looking?) && Waiters(s) != [])
  }

  /** The holder's next step; with nothing to take it gives up. */
  lemma PopOne(s: State) returns (a: Action)
    requires Inv(s) && s.lock.Some?
    ensures Enabled(s, a) && Bounds(s) && Inv(Do(s, a)) && !Pushes(a) && !a.Lock? && a.i == s.lock.value
    ensures a.Look? ==> !a.patient
    ensures var t := Do(s, a);
            && t.pushed == s.pushed && t.pusher == s.pusher && |t.pops| == |s.pops| && |t.slots| == |s.slots|
            && (a.Unlock? <==> Holder(s).Failing? || Holder(s).Leaving?)
            && (if a.Unlock? then t.lock.None?
                else t.lock == s.lock && t.returned == s.returned && PopRank(Holder(t)) < PopRank(Holder(s)))
            && (Committed(s) && !a.Unlock? ==> Committed(t))
            && (Holder(s).Leaving? ==> |t.returned| == |s.returned| + 1)
            && (Holder(s).Failing? ==> t.returned == s.returned)
  {
    var i := s.lock.value;
    a := match Holder(s)
      case Locked => Peek(i)
      case Looking => Look(i, false)
      case Passed => MoveHead(i)
      case Advanced => Fetch(i)
      case Holding(_) => Wipe(i)
      case _ => Unlock(i);
    HolderHere(s);
    InvBounds(s);
    StepInv(s, a);
    StepTests(s, a);
    StepIsFifo(s, a);
    hide Inv, Waiters, Bounds;
  }

  lemma HolderHere(s: State)
    requires Inv(s) && s.lock.Some?
    ensures s.lock.value < |s.pops| && Holder(s) == s.pops[s.lock.value] && !Holder(s).Out?
    ensures !Holder(s).Early? && !Holder(s).EarlyOut?
  {
  }

  /** The last step of the run gives thread i the next item in line: its queue_pop returns it. */
  predicate Gives(s: State, acts: seq<Action>, i: nat) {
    && acts != [] && acts[|acts| - 1] == Unlock(i)
    && Run(s, acts[..|acts| - 1]).Some? && Run(s, acts[..|acts| - 1]).value.returned == s.returned
    && Run(s, acts).Some? && |s.returned| < |Run(s, acts).value.pushed|
    && Run(s, acts).value.returned == s.returned + [Run(s, acts).value.pushed[|s.returned|]]
  }

  lemma GivesLater(s: State, a: Action, acts: seq<Action>, i: nat)
    requires Enabled(s, a) && Bounds(s) && Do(s, a).returned == s.returned && Gives(Do(s, a), acts, i)
    ensures Gives(s, [a] + acts, i) && Run(s, [a] + acts) == Run(Do(s, a), acts)
  {
    hide Do, Enabled, Bounds, Run;
    RunCons(s, a, acts);
    var all := [a] + acts;
    assert all[..|all| - 1] == [a] + acts[..|acts| - 1];
    RunCons(s, a, acts[..|acts| - 1]);
  }

  lemma GivesAfter(s: State, a: seq<Action>, b: seq<Action>, i: nat)
    requires Run(s, a).Some? && Run(s, a).value.returned == s.returned && Gives(Run(s, a).value, b, i)
    ensures Gives(s, a + b, i) && Run(s, a + b) == Run(Run(s, a).value, b)
  {
    hide Run;
    RunThen(s, a, b);
    assert (a + b)[..|a + b| - 1] == a + b[..|b| - 1];
    RunThen(s, a, b[..|b| - 1]);
  }

  lemma GivesNow(s: State, i: nat)
    requires Inv(s) && s.lock == Some(i) && Holder(s).Leaving?
    requires Enabled(s, Unlock(i)) && Bounds(s) && Inv(Do(s, Unlock(i))) && Do(s, Unlock(i)).lock.None?
    requires |Do(s, Unlock(i)).returned| == |s.returned| + 1 && Do(s, Unlock(i)).pushed == s.pushed
    ensures Gives(s, [Unlock(i)], i)
  {
    RunOne(s, Unlock(i));
    assert [Unlock(i)][..0] == [];
    NextItem(s, Do(s, Unlock(i)));
  }

  lemma NextItem(s: State, t: State)
    requires Inv(s) && Inv(t) && t.pushed == s.pushed && |t.returned| == |s.returned| + 1
    ensures |s.returned| < |t.pushed| && t.returned == s.returned + [t.pushed[|s.returned|]]
  {
    TakenPrefix(s);
    TakenPrefix(t);
  }

  /** A thread that holds the lock and is committed returns the next item. */
  lemma {:induction false} TakesThrough(s: State) returns (acts: seq<Action>)
    requires Inv(s) && s.lock.Some? && Committed(s)
    ensures Gives(s, acts, s.lock.value)
    ensures var t := Run(s, acts).value;
            Inv(t) && t.lock.None? && t.pushed == s.pushed && t.pusher == s.pusher && |t.pops| == |s.pops|
            && |t.slots| == |s.slots|
    decreases PopRank(Holder(s))
  {
    var a := PopOne(s);
    var t := Do(s, a);
    if a.Unlock? {
      CommittedLeaves(s);
      GivesNow(s, s.lock.value);
      RunOne(s, a);
      acts := [a];
    } else {
      hide Inv, Do, Enabled, Bounds, Run, Committed, Gives;
      acts := TakesThrough(t);
      GivesLater(s, a, acts, s.lock.value);
      acts := [a] + acts;
    }
  }

  lemma CommittedLeaves(s: State)
    requires Inv(s) && s.lock.Some? && Committed(s) && (Holder(s).Failing? || Holder(s).Leaving?)
    ensures Holder(s).Leaving?
  {
  }

  /** Whoever holds the lock gets out. */
  lemma {:induction false} HolderLeaves(s: State) returns (acts: seq<Action>)
    requires Inv(s)
    ensures Run(s, acts).Some?
    ensures var t := Run(s, acts).value;
            && Inv(t) && t.lock.None? && t.pushed == s.pushed && t.pusher == s.pusher && |t.pops| == |s.pops|
            && |t.slots| == |s.slots|
            && (s.lock.None? || !Committed(s) ==> t.returned == s.returned)
    decreases if s.lock.Some? then PopRank(Holder(s)) + 1 else 0
  {
    if s.lock.None? {
      acts := [];
    } else {
      var a := PopOne(s);
      var t := Do(s, a);
      if !Committed(s) {
        Uncommitted(s, a);
      }
      hide Inv, Do, Enabled, Bounds, Committed, PopRank;
      if a.Unlock? {
        RunOne(s, a);
        acts := [a];
      } else {
        acts := HolderLeaves(t);
        RunCons(s, a, acts);
        acts := [a] + acts;
      }
    }
  }

  lemma Uncommitted(s: State, a: Action)
    requires Inv(s) && Enabled(s, a) && Bounds(s) && s.lock.Some? && !Committed(s) && Inv(Do(s, a))
    requires !Pushes(a) && !a.Lock? && a.i == s.lock.value && (a.Look? ==> !a.patient)
    ensures !a.Unlock? ==> !Committed(Do(s, a))
    ensures a.Unlock? ==> Do(s, a).returned == s.returned
  {
    HolderHere(s);
    StepTests(s, a);
    StepIsFifo(s, a);
    hide Inv, Waiters;
  }

  // ---- every thread can be served ----

  /** Another thread is past the point of no return with the next item. */
  predicate Taken(s: State, i: nat)
    requires Inv(s)
  {
    s.lock.Some? && s.lock != Some(i) && Committed(s)
  }

  lemma LockStep(s: State, i: nat)
    requires Inv(s) && s.lock.None? && i < |s.pops| && Waiters(s) != []
    ensures var a := Lock(i);
            && Enabled(s, a) && Bounds(s) && Inv(Do(s, a)) && Committed(Do(s, a))
            && Do(s, a).lock == Some(i) && Do(s, a).returned == s.returned && Do(s, a).pushed == s.pushed
            && Do(s, a).pusher == s.pusher && |Do(s, a).pops| == |s.pops| && |Do(s, a).slots| == |s.slots|
  {
    InvBounds(s);
    StepInv(s, Lock(i));
    StepIsFifo(s, Lock(i));
  }

  /** With the lock free and an item there, thread i gets it. */
  lemma LocksAndTakes(s: State, i: nat) returns (acts: seq<Action>)
    requires Inv(s) && s.lock.None? && i < |s.pops| && Waiters(s) != []
    ensures Gives(s, acts, i)
    ensures var t := Run(s, acts).value;
            Inv(t) && t.lock.None? && t.pushed == s.pushed && t.pusher == s.pusher && |t.pops| == |s.pops|
            && |t.slots| == |s.slots|
  {
    LockStep(s, i);
    hide Inv, Do, Enabled, Bounds, Run, Waiters, Committed, Gives;
    var b := TakesThrough(Do(s, Lock(i)));
    GivesLater(s, Lock(i), b, i);
    acts := [Lock(i)] + b;
  }

  /** With the lock free: an item is pushed first when there is none. */
  lemma FreeGives(s: State, i: nat) returns (acts: seq<Action>)
    requires Inv(s) && s.lock.None? && i < |s.pops|
    ensures Gives(s, acts, i)
  {
    Lengths(s);
    hide Inv, Do, Enabled, Bounds, Run, Gives;
    if Waiters(s) != [] {
      acts := LocksAndTakes(s, i);
    } else {
      var a := PusherAdds(s, []);
      var t := Run(s, a).value;
      Lengths(t);
      var b := LocksAndTakes(t, i);
      GivesAfter(s, a, b, i);
      acts := a + b;
    }
  }

  lemma ServesNext(s: State, i: nat) returns (acts: seq<Action>)
    requires Inv(s) && i < |s.pops| && !Taken(s, i)
    ensures Gives(s, acts, i)
  {
    hide Do, Enabled, Bounds, Run, Gives, Inv;
    if s.lock == Some(i) && Committed(s) {
      acts := TakesThrough(s);
    } else {
      var a := HolderLeaves(s);
      var b := FreeGives(Run(s, a).value, i);
      GivesAfter(s, a, b, i);
      acts := a + b;
    }
  }

  lemma StillTaken(s: State, a: Action, i: nat)
    requires Inv(s) && Taken(s, i) && Enabled(s, a) && Bounds(s) && Inv(Do(s, a))
    ensures a != Unlock(i)
    ensures Do(s, a).returned == s.returned ==> Taken(Do(s, a), i)
    ensures |Do(s, a).returned| >= |s.returned|
  {
    HolderHere(s);
    HolderActs(s, a);
    StepTests(s, a);
    StepIsFifo(s, a);
    hide Inv, Waiters, Bounds;
  }

  lemma ReturnedGrows(s: State, a: Action)
    requires Enabled(s, a) && Bounds(s)
    ensures s.returned <= Do(s, a).returned
  {
  }

  lemma {:induction false} RunReturns(s: State, acts: seq<Action>)
    requires Run(s, acts).Some?
    ensures s.returned <= Run(s, acts).value.returned
    decreases |acts|
  {
    if acts != [] {
      hide Do, Enabled, Bounds;
      RunReturns(s, acts[..|acts| - 1]);
      ReturnedGrows(Run(s, acts[..|acts| - 1]).value, acts[|acts| - 1]);
    }
  }

  lemma {:induction false} TakenStays(s: State, acts: seq<Action>, i: nat)
    requires Inv(s) && Taken(s, i) && Run(s, acts).Some? && Run(s, acts).value.returned == s.returned
    ensures Inv(Run(s, acts).value) && Taken(Run(s, acts).value, i)
    decreases |acts|
  {
    if acts != [] {
      hide Inv, Do, Enabled, Bounds, Taken;
      var before, a := acts[..|acts| - 1], acts[|acts| - 1];
      var t := Run(s, before).value;
      RunReturns(s, before);
      ReturnedGrows(t, a);
      TakenStays(s, before, i);
      StepInv(t, a);
      StillTaken(t, a, i);
    }
  }

  /** At any moment and for every thread i: some run gives the next item to i, unless another thread already has it. */
  lemma NextToAny(s: State, i: nat)
    requires Inv(s) && i < |s.pops|
    ensures (exists acts :: Gives(s, acts, i)) <==> !Taken(s, i)
  {
    hide Inv, Taken, Gives;
    if !Taken(s, i) {
      var acts := ServesNext(s, i);
    } else {
      forall acts
        ensures !Gives(s, acts, i)
      {
        NotGiven(s, acts, i);
      }
    }
  }

  lemma NotGiven(s: State, acts: seq<Action>, i: nat)
    requires Inv(s) && Taken(s, i)
    ensures !Gives(s, acts, i)
  {
    hide Inv, Taken, Do, Enabled, Bounds;
    if acts != [] && acts[|acts| - 1] == Unlock(i) && Run(s, acts).Some? {
      var before := acts[..|acts| - 1];
      if Run(s, before).value.returned == s.returned {
        TakenStays(s, before, i);
        CannotUnlock(Run(s, before).value, i);
      }
    }
  }

  lemma CannotUnlock(s: State, i: nat)
    requires Inv(s) && Taken(s, i)
    ensures !Enabled(s, Unlock(i))
  {
    HolderHere(s);
  }

  /** And in any case some run returns an item to thread i. */
  lemma EveryThreadServed(s: State, i: nat) returns (acts: seq<Action>)
    requires Inv(s) && i < |s.pops|
    ensures acts != [] && acts[|acts| - 1] == Unlock(i) && Run(s, acts).Some?
    ensures Run(s, acts[..|acts| - 1]).Some?
    ensures |Run(s, acts).value.returned| == |Run(s, acts[..|acts| - 1]).value.returned| + 1
  {
    hide Do, Enabled, Bounds, Run, Inv;
    var a := HolderLeaves(s);
    var t := Run(s, a).value;
    var b := FreeGives(t, i);
    RunThen(s, a, b);
    RunThen(s, a, b[..|b| - 1]);
    assert (a + b)[..|a + b| - 1] == a + b[..|b| - 1];
    acts := a + b;
  }

  // ---- when the pusher can go on ----

  lemma {:induction false} FullStays(s: State, acts: seq<Action>)
    requires Inv(s) && s.pops == [] && Run(s, acts).Some?
    ensures Run(s, acts).value.pops == [] && Run(s, acts).value.popped == s.popped
    ensures |Run(s, acts).value.slots| == |s.slots|
    decreases |acts|
  {
    if acts != [] {
      hide Inv, Do, Bounds;
      FullStays(s, acts[..|acts| - 1]);
      NobodyPops(Run(s, acts[..|acts| - 1]).value, acts[|acts| - 1]);
    }
  }

  lemma NobodyPops(s: State, a: Action)
    requires s.pops == [] && Enabled(s, a) && Bounds(s)
    ensures Do(s, a).pops == [] && Do(s, a).popped == s.popped && |Do(s, a).slots| == |s.slots|
  {
  }

  lemma MakesRoom(s: State) returns (acts: seq<Action>)
    requires Inv(s) && s.pops != []
    ensures Run(s, acts).Some?
    ensures var t := Run(s, acts).value;
            Inv(t) && t.pushed == s.pushed && |Waiters(t)| < |t.slots| - 1
  {
    hide Do, Enabled, Bounds, Run, Inv;
    acts := HolderLeaves(s);
    var t := Run(s, acts).value;
    Lengths(t);
    if |Waiters(t)| == |t.slots| - 1 {
      var b := LocksAndTakes(t, 0);
      GivesGrow(t, b, 0);
      Lengths(Run(t, b).value);
      RunThen(s, acts, b);
      acts := acts + b;
    }
  }

  lemma GivesGrow(s: State, acts: seq<Action>, i: nat)
    requires Gives(s, acts, i)
    ensures Run(s, acts).Some? && |Run(s, acts).value.returned| == |s.returned| + 1
  {
  }

  /** Some run makes the queue accept another item iff there is room or a thread to make some. */
  lemma PushesIff(s: State)
    requires Inv(s)
    ensures (exists acts :: Run(s, acts).Some? && |Run(s, acts).value.pushed| > |s.pushed|)
        <==> |Waiters(s)| < |s.slots| - 1 || s.pops != []
  {
    Lengths(s);
    hide Inv, Run, Waiters;
    if |Waiters(s)| < |s.slots| - 1 {
      var acts := PusherAdds(s, []);
      assert |Run(s, acts).value.pushed| > |s.pushed|;
    } else if s.pops != [] {
      var a := MakesRoom(s);
      var b := PusherAdds(Run(s, a).value, []);
      RunThen(s, a, b);
      assert |Run(s, a + b).value.pushed| > |s.pushed|;
    } else {
      forall acts | Run(s, acts).Some?
        ensures |Run(s, acts).value.pushed| <= |s.pushed|
      {
        FullStays(s, acts);
        RunInv(s, acts);
        Lengths(Run(s, acts).value);
      }
    }
  }

  // ---- the capacity ----

  /** What queue_init leaves: qsize slots, but at least four, and as many threads as there are. */
  lemma Initial(qsize: nat, threads: nat)
    ensures var s := Init(qsize, threads);
            && Inv(s) && |s.slots| == (if qsize < 4 then 4 else qsize) && |s.pops| == threads
            && s.popped == 0 && s.pushed == [] && s.pusher.Away?
  {
    InitInv(qsize, threads);
  }

  lemma {:induction false} Fill(qsize: nat, threads: nat, k: nat) returns (acts: seq<Action>)
    requires k <= if qsize < 4 then 3 else qsize - 1
    ensures OnlyPushes(acts) && Run(Init(qsize, threads), acts).Some?
    ensures var t := Run(Init(qsize, threads), acts).value;
            Inv(t) && |t.pushed| == k && PusherOnly(Init(qsize, threads), t)
  {
    var s := Init(qsize, threads);
    Initial(qsize, threads);
    hide Init, Inv, Run, Do, Enabled, Bounds, Pushes;
    if k == 0 {
      acts := [];
      Nothing(s);
    } else {
      acts := Fill(qsize, threads, k - 1);
      var t := Run(s, acts).value;
      Lengths(t);
      var b := PusherAdds(t, []);
      RunThen(s, acts, b);
      acts := acts + b;
    }
  }

  lemma Nothing(s: State)
    ensures Run(s, []) == Some(s) && PusherOnly(s, s)
  {
  }

  lemma {:induction false} PushesOnly(s: State, acts: seq<Action>)
    requires Run(s, acts).Some? && OnlyPushes(acts)
    ensures PusherOnly(s, Run(s, acts).value)
    decreases |acts|
  {
    if acts != [] {
      hide Do, Enabled, Bounds, Pushes;
      assert Pushes(acts[|acts| - 1]);
      PushesOnly(s, acts[..|acts| - 1]);
      PushKeeps(Run(s, acts[..|acts| - 1]).value, acts[|acts| - 1]);
    }
  }

  lemma PushKeeps(s: State, a: Action)
    requires Enabled(s, a) && Bounds(s) && Pushes(a)
    ensures PusherOnly(s, Do(s, a))
  {
  }

  /** From queue_init, without a pop: exactly max(qsize, 4) - 1 items can be pushed, and the pusher waits iff that many
      are in. */
  lemma Capacity(qsize: nat, threads: nat)
    ensures exists acts :: OnlyPushes(acts) && Run(Init(qsize, threads), acts).Some?
              && |Run(Init(qsize, threads), acts).value.pushed| == if qsize < 4 then 3 else qsize - 1
    ensures forall acts :: OnlyPushes(acts) && Run(Init(qsize, threads), acts).Some? ==>
              Within(Run(Init(qsize, threads), acts).value, if qsize < 4 then 3 else qsize - 1)
  {
    var max: nat := if qsize < 4 then 3 else qsize - 1;
    var acts := Fill(qsize, threads, max);
    forall acts | OnlyPushes(acts) && Run(Init(qsize, threads), acts).Some?
      ensures Within(Run(Init(qsize, threads), acts).value, max)
    {
      Bounded(qsize, threads, acts);
    }
  }

  /** At most `max` items are in, and a pusher at its test goes on waiting iff all of them are. */
  predicate Within(s: State, max: nat) {
    && |s.pushed| <= max && Bounds(s)
    && (s.pusher.Waiting? ==> (Do(s, TestFull).pusher.Waiting? <==> |s.pushed| == max))
  }

  lemma Bounded(qsize: nat, threads: nat, acts: seq<Action>)
    requires OnlyPushes(acts) && Run(Init(qsize, threads), acts).Some?
    ensures Within(Run(Init(qsize, threads), acts).value, if qsize < 4 then 3 else qsize - 1)
  {
    var s := Init(qsize, threads);
    Initial(qsize, threads);
    hide Init, Inv, Run;
    var t := Run(s, acts).value;
    PushesOnly(s, acts);
    RunInv(s, acts);
    Lengths(t);
    InvBounds(t);
    if t.pusher.Waiting? {
      StepTests(t, TestFull);
    }
  }
}
