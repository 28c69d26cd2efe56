/** Several processing threads on the pending ring: an answer reaches its callback twice (src/opo/client.c:148-154). */
module PendingThreads {
  import opened Bytes
  import opened Trees
  import opened Wire
  import opened Frames
  import opened Rings
  import opened Pending
  import opened PendingInv
  import opened PendingRuns
  import opened PendingLive

  // ---- a ring full of answers ----

  predicate Answered(s: State, k: nat) {
    && s.recv.Idle? && s.tailLock.None? && s.procs == [] && s.taken == 0 && s.askers != []
    && |s.cbs| == |s.wire| == s.decided == k <= |s.slots|
    && (forall i :: 0 <= i < k ==> s.cbs[i])
  }

  /** One more query sent and answered. */
  lemma AnswerOne(s: State, k: nat) returns (acts: seq<Action>)
    requires Inv(s) && Answered(s, k) && k < |s.slots|
    ensures Run(s, acts).Some? && NoWork(acts)
    ensures var t := Run(s, acts).value;
            Inv(t) && Answered(t, k + 1) && |t.slots| == |s.slots|
  {
    hide Do, Bounds, Run, Inv, Freed, NoWork;
    Unheld(s);
    acts := AskThrough(s, 0, true);
    var t := Run(s, acts).value;
    WrittenIds(t);
    var b := Answer(t, Packet(k + 1, Leaf(Null)));
    RunThen(s, acts, b);
    NoWorkThen(acts, b);
    acts := acts + b;
  }

  lemma {:induction false} AnswerAll(pendingMax: int, askers: nat, k: nat) returns (acts: seq<Action>)
    requires askers >= 1 && k <= |Init(pendingMax, askers, 0).slots|
    ensures Run(Init(pendingMax, askers, 0), acts).Some? && NoWork(acts)
    ensures var t := Run(Init(pendingMax, askers, 0), acts).value;
            Inv(t) && Answered(t, k) && |t.slots| == |Init(pendingMax, askers, 0).slots|
  {
    var s := Init(pendingMax, askers, 0);
    Start(pendingMax, askers, 0);
    hide Init, Do, Bounds, Run, Inv, NoWork;
    if k == 0 {
      acts := [];
      RunNone(s);
    } else {
      acts := AnswerAll(pendingMax, askers, k - 1);
      var b := AnswerOne(Run(s, acts).value, k - 1);
      RunThen(s, acts, b);
      NoWorkThen(acts, b);
      acts := acts + b;
    }
  }

  lemma Unheld(s: State)
    requires s.procs == []
    ensures Freed(s) == s.taken
  {
  }

  // ---- steps of other threads do not depend on idle processing threads ----

  predicate Idlers(procs: seq<ProcPc>) {
    forall i :: 0 <= i < |procs| ==> procs[i].Out?
  }

  lemma StepLift(s: State, a: Action, p: seq<ProcPc>)
    requires Possible(s, a) && (Asks(a) || Receives(a)) && s.procs == [] && Idlers(p)
    ensures Possible(s.(procs := p), a) && Do(s.(procs := p), a) == Do(s, a).(procs := p) && Do(s, a).procs == []
  {
    LiftPossible(s, a, p);
    if Asks(a) {
      AskLift(s, a, p);
    } else {
      RecvLift(s, a, p);
    }
    hide Bounds, Enabled, DoAsk, DoRecv, Orderly;
  }

  lemma LiftPossible(s: State, a: Action, p: seq<ProcPc>)
    requires Possible(s, a) && (Asks(a) || Receives(a)) && s.procs == [] && Idlers(p)
    ensures Possible(s.(procs := p), a)
  {
  }

  lemma AskLift(s: State, a: Action, p: seq<ProcPc>)
    requires Possible(s, a) && Possible(s.(procs := p), a) && Asks(a)
    ensures DoAsk(s.(procs := p), a) == DoAsk(s, a).(procs := p) && DoAsk(s, a).procs == s.procs
  {
    hide Orderly;
  }

  lemma RecvLift(s: State, a: Action, p: seq<ProcPc>)
    requires Possible(s, a) && Possible(s.(procs := p), a) && Receives(a)
    ensures DoRecv(s.(procs := p), a) == DoRecv(s, a).(procs := p) && DoRecv(s, a).procs == s.procs
  {
    hide Orderly;
  }

  lemma {:induction false} RunLift(s: State, acts: seq<Action>, p: seq<ProcPc>)
    requires Run(s, acts).Some? && NoWork(acts) && s.procs == [] && Idlers(p)
    ensures Run(s.(procs := p), acts) == Some(Run(s, acts).value.(procs := p))
    decreases |acts|
  {
    if acts != [] {
      hide Do, Possible, Asks, Receives;
      var a := acts[0];
      assert Asks(acts[0]) || Receives(acts[0]);
      StepLift(s, a, p);
      RunLift(Do(s, a), acts[1..], p);
    }
  }

  // ---- what one processing thread does undisturbed ----

  function With(s: State, i: nat, pc: ProcPc): State
    requires i < |s.procs|
  {
    s.(procs := s.procs[i := pc])
  }

  lemma ProcBounds(s: State, i: nat, pc: ProcPc)
    requires Bounds(s) && i < |s.procs| && ProcSlot(pc) < |s.slots|
    ensures Bounds(With(s, i, pc))
  {
  }

  lemma TakeSteps(s: State, i: nat) returns (acts: seq<Action>)
    requires Bounds(s) && i < |s.procs| && s.procs[i].Out? && s.headLock.None? && s.slots[s.head].state.Ready?
    ensures Run(s, acts)
            == Some(With(s, i, Marking(s.head)).(head := Next(s.head, |s.slots|), taken := s.taken + 1))
  {
    var q, h := s.head, s.(head := Next(s.head, |s.slots|), taken := s.taken + 1);
    var s1, s2 := With(s, i, Testing).(headLock := Some(i)), With(s, i, Grabbed(q)).(headLock := Some(i));
    var s3, s4 := With(h, i, Holding(q)).(headLock := Some(i)), With(h, i, Marking(q));
    LockStep(s, i);
    TestStep(s, i);
    MoveStep(s, i);
    LeaveStep(s, i);
    hide Goes, With;
    acts := Two(s, TakeLock(i), s1, TakeTest(i, false), s2);
    var b := Two(s2, TakeMove(i), s3, TakeUnlock(i), s4);
    RunThen(s, acts, b);
    acts := acts + b;
  }

  predicate Goes(s: State, a: Action, t: State) {
    Possible(s, a) && Do(s, a) == t
  }

  lemma Two(s0: State, a0: Action, s1: State, a1: Action, s2: State) returns (acts: seq<Action>)
    requires Goes(s0, a0, s1) && Goes(s1, a1, s2)
    ensures Run(s0, acts) == Some(s2)
  {
    hide Do, Possible, Run;
    RunNone(s2);
    RunCons(s1, a1, []);
    RunCons(s0, a0, [a1] + []);
    acts := [a0] + ([a1] + []);
  }

  lemma LockStep(s: State, i: nat)
    requires Bounds(s) && i < |s.procs| && s.procs[i].Out? && s.headLock.None?
    ensures Goes(s, TakeLock(i), With(s, i, Testing).(headLock := Some(i)))
  {
  }

  lemma TestStep(s: State, i: nat)
    requires Bounds(s) && i < |s.procs| && s.slots[s.head].state.Ready?
    ensures Goes(With(s, i, Testing).(headLock := Some(i)), TakeTest(i, false),
                 With(s, i, Grabbed(s.head)).(headLock := Some(i)))
  {
    ProcBounds(s, i, Testing);
  }

  lemma MoveStep(s: State, i: nat)
    requires Bounds(s) && i < |s.procs|
    ensures var h := s.(head := Next(s.head, |s.slots|), taken := s.taken + 1);
            Goes(With(s, i, Grabbed(s.head)).(headLock := Some(i)), TakeMove(i),
                 With(h, i, Holding(s.head)).(headLock := Some(i)))
  {
    ProcBounds(s, i, Grabbed(s.head));
  }

  lemma LeaveStep(s: State, i: nat)
    requires Bounds(s) && i < |s.procs| && s.headLock.None?
    ensures var h := s.(head := Next(s.head, |s.slots|), taken := s.taken + 1);
            Goes(With(h, i, Holding(s.head)).(headLock := Some(i)), TakeUnlock(i), With(h, i, Marking(s.head)))
  {
    var h := s.(head := Next(s.head, |s.slots|), taken := s.taken + 1);
    ProcBounds(h, i, Holding(s.head));
  }

  function Stored(s: State, q: nat, x: Slot): State
    requires q < |s.slots|
  {
    s.(slots := s.slots[q := x])
  }

  /** The thread marks the slot and runs the callback. */
  lemma CallSteps(s: State, i: nat, q: nat) returns (acts: seq<Action>)
    requires Bounds(s) && i < |s.procs| && s.procs[i] == Marking(q)
    ensures q < |s.slots|
    ensures var x := s.slots[q];
            Run(s, acts) == Some(With(Stored(s, q, x.(state := Taken)), i, Called(q))
                                   .(served := s.served + [Served(x.id, x.resp, x.cb)]))
  {
    var x := s.slots[q];
    var s1 := With(Stored(s, q, x.(state := Taken)), i, Calling(q));
    var s2 := With(Stored(s, q, x.(state := Taken)), i, Called(q)).(served := s.served + [Served(x.id, x.resp, x.cb)]);
    MarkStep(s, i, q);
    CallStep(s, i, q);
    hide Goes, With, Stored;
    acts := Two(s, TakeMark(i), s1, ProcCall(i), s2);
  }

  lemma MarkStep(s: State, i: nat, q: nat)
    requires Bounds(s) && i < |s.procs| && s.procs[i] == Marking(q)
    ensures q < |s.slots|
    ensures Goes(s, TakeMark(i), With(Stored(s, q, s.slots[q].(state := Taken)), i, Calling(q)))
  {
  }

  lemma CallStep(s: State, i: nat, q: nat)
    requires Bounds(s) && i < |s.procs| && q < |s.slots|
    ensures var x := s.slots[q];
            Goes(With(Stored(s, q, x.(state := Taken)), i, Calling(q)), ProcCall(i),
                 With(Stored(s, q, x.(state := Taken)), i, Called(q))
                   .(served := s.served + [Served(x.id, x.resp, x.cb)]))
  {
    ProcBounds(s, i, Calling(q));
  }

  /** The thread hands the slot back. */
  lemma WipeSteps(s: State, i: nat, q: nat) returns (acts: seq<Action>)
    requires Bounds(s) && i < |s.procs| && s.procs[i] == Called(q)
    ensures q < |s.slots|
    ensures Run(s, acts) == Some(With(Stored(s, q, Slot(0, s.slots[q].cb, Clear, None)), i, Out))
  {
    var x := s.slots[q].(id := 0);
    var s1 := With(Stored(s, q, x), i, IdWiped(q));
    var s2 := With(Stored(s, q, x.(resp := None)), i, RespWiped(q));
    var s3 := With(Stored(s, q, x.(resp := None, state := Clear)), i, Out);
    IdStep(s, i, q);
    RespStep(s, i, q, x);
    ClearStep(s, i, q, x.(resp := None));
    hide Goes, With, Stored;
    acts := Two(s, ProcId(i), s1, ProcResp(i), s2);
    var b := One(s2, ProcClear(i), s3);
    RunThen(s, acts, b);
    acts := acts + b;
  }

  lemma One(s0: State, a0: Action, s1: State) returns (acts: seq<Action>)
    requires Goes(s0, a0, s1)
    ensures Run(s0, acts) == Some(s1)
  {
    hide Do, Possible, Run;
    RunNone(s1);
    RunCons(s0, a0, []);
    acts := [a0] + [];
  }

  lemma IdStep(s: State, i: nat, q: nat)
    requires Bounds(s) && i < |s.procs| && s.procs[i] == Called(q)
    ensures q < |s.slots| && Goes(s, ProcId(i), With(Stored(s, q, s.slots[q].(id := 0)), i, IdWiped(q)))
  {
  }

  lemma RespStep(s: State, i: nat, q: nat, x: Slot)
    requires Bounds(s) && i < |s.procs| && q < |s.slots|
    ensures Goes(With(Stored(s, q, x), i, IdWiped(q)), ProcResp(i),
                 With(Stored(s, q, x.(resp := None)), i, RespWiped(q)))
  {
    ProcBounds(s, i, IdWiped(q));
  }

  lemma ClearStep(s: State, i: nat, q: nat, x: Slot)
    requires Bounds(s) && i < |s.procs| && q < |s.slots|
    ensures Goes(With(Stored(s, q, x), i, RespWiped(q)), ProcClear(i), With(Stored(s, q, x.(state := Clear)), i, Out))
  {
    ProcBounds(s, i, RespWiped(q));
  }

  // ---- the clash ----

  /** Thread 0 has query 1 and has not marked it; thread 1 has gone round to slot k. */
  predicate Round(s: State, k: nat) {
    var n := |s.slots|;
    && Bounds(s) && 1 <= k <= n && s.head == (if k < n then k else 0) && s.headLock.None?
    && |s.procs| >= 2 && s.procs[0] == Marking(0) && s.procs[1] == Out
    && s.slots[0].state.Ready? && s.slots[0].id == 1
    && (forall j :: k <= j < n ==> s.slots[j].state.Ready?)
  }

  /** Thread 1 takes, serves and hands back one slot. */
  lemma OneRound(s: State, k: nat) returns (acts: seq<Action>)
    requires Round(s, k) && k < |s.slots|
    ensures Run(s, acts).Some? && Round(Run(s, acts).value, k + 1) && |Run(s, acts).value.slots| == |s.slots|
  {
    acts := TakeSteps(s, 1);
    var t := With(s, 1, Marking(k)).(head := Next(k, |s.slots|), taken := s.taken + 1);
    var b := CallSteps(t, 1, k);
    var x := s.slots[k];
    var u := With(Stored(t, k, x.(state := Taken)), 1, Called(k)).(served := t.served + [Served(x.id, x.resp, x.cb)]);
    var c := WipeSteps(u, 1, k);
    hide Run;
    RunThen(s, acts, b);
    acts := acts + b;
    RunThen(s, acts, c);
    acts := acts + c;
  }

  lemma {:induction false} Rounds(s: State, k: nat) returns (acts: seq<Action>)
    requires Round(s, k)
    ensures Run(s, acts).Some? && Round(Run(s, acts).value, |s.slots|) && |Run(s, acts).value.slots| == |s.slots|
    decreases |s.slots| - k
  {
    hide Round, Run;
    RoundBounds(s, k);
    if k == |s.slots| {
      acts := [];
      RunNone(s);
    } else {
      acts := OneRound(s, k);
      var t := Run(s, acts).value;
      var b := Rounds(t, k + 1);
      RunThen(s, acts, b);
      acts := acts + b;
    }
  }

  lemma RoundBounds(s: State, k: nat)
    requires Round(s, k)
    ensures k <= |s.slots|
  {
  }

  predicate ServedTwice(s: State, id: nat) {
    exists i, j :: 0 <= i < j < |s.served| && s.served[i].id == s.served[j].id == id
  }

  /** Back at slot 0, thread 1 takes it again, and both run the callback of query 1. */
  lemma Clash(s: State) returns (acts: seq<Action>)
    requires Round(s, |s.slots|)
    ensures Run(s, acts).Some? && ServedTwice(Run(s, acts).value, 1)
  {
    acts := TakeSteps(s, 1);
    var t := With(s, 1, Marking(0)).(head := Next(0, |s.slots|), taken := s.taken + 1);
    var b := CallSteps(t, 0, 0);
    var x := s.slots[0];
    var e := Served(1, x.resp, x.cb);
    var u := With(Stored(t, 0, x.(state := Taken)), 0, Called(0)).(served := t.served + [e]);
    var c := CallSteps(u, 1, 0);
    hide Run;
    RunThen(s, acts, b);
    acts := acts + b;
    RunThen(s, acts, c);
    acts := acts + c;
    var w := Run(s, acts).value;
    assert w.served == s.served + [e] + [e];
    var m := |s.served|;
    assert w.served[m].id == w.served[m + 1].id == 1;
  }

  /** All queries answered, thread 0 takes the first and pauses. */
  lemma FirstRound(t: State, procs: nat) returns (acts: seq<Action>)
    requires Inv(t) && Answered(t, |t.slots|) && procs >= 2
    ensures var s := t.(procs := seq(procs, _ => Out));
            Run(s, acts).Some? && Round(Run(s, acts).value, 1) && |Run(s, acts).value.slots| == |t.slots|
  {
    var s := t.(procs := seq(procs, _ => Out));
    AllReady(t);
    IdleBounds(t, procs);
    hide Inv, Answered;
    acts := TakeSteps(s, 0);
  }

  lemma IdleBounds(t: State, procs: nat)
    requires Inv(t) && t.procs == []
    ensures Bounds(t.(procs := seq(procs, _ => Out)))
  {
    InvBounds(t);
  }

  lemma AllReady(t: State)
    requires Inv(t) && Answered(t, |t.slots|)
    ensures |t.slots| > 0 && t.head == 0 && t.headLock.None? && t.procs == []
    ensures forall k :: 0 <= k < |t.slots| ==> t.slots[k].state.Ready? && t.slots[k].id == k + 1
  {
    FirstHead(t);
    forall k: nat | k < |t.slots|
      ensures t.slots[k].state.Ready? && t.slots[k].id == k + 1
    {
      hide Inv, Answered;
      Partition(t, k);
      IxPlus(0, k, |t.slots|);
      AtIs(t.slots, k);
    }
  }

  lemma FirstHead(t: State)
    requires Inv(t) && Answered(t, |t.slots|)
    ensures |t.slots| > 0 && t.head == 0 && t.headLock.None? && t.procs == [] && t.taken == 0 && Freed(t) == 0
    ensures t.decided == |t.slots| == |t.cbs| && forall k :: 0 <= k < |t.cbs| ==> !Skipped(t.received, t.cbs, k)
  {
  }

  /** In a ring of any size two processing threads can run the same callback twice. */
  lemma TwoThreadsClash(pendingMax: int, askers: nat, procs: nat) returns (acts: seq<Action>)
    requires askers >= 1 && procs >= 2
    ensures Run(Init(pendingMax, askers, procs), acts).Some?
    ensures ServedTwice(Run(Init(pendingMax, askers, procs), acts).value, 1)
  {
    var s0 := Init(pendingMax, askers, 0);
    var p := seq(procs, _ => Out);
    InitWith(pendingMax, askers, procs);
    hide Init, Run, NoWork, Inv, Answered, Round, ServedTwice;
    acts := AnswerAll(pendingMax, askers, |s0.slots|);
    var t := Run(s0, acts).value;
    AnsweredIdle(t, |s0.slots|);
    RunLift(s0, acts, p);
    var s := s0.(procs := p);
    var b := FirstRound(t, procs);
    RunThen(s, acts, b);
    acts := acts + b;
    var c := Rounds(Run(s, acts).value, 1);
    RunThen(s, acts, c);
    acts := acts + c;
    var d := Clash(Run(s, acts).value);
    RunThen(s, acts, d);
    acts := acts + d;
  }

  lemma InitWith(pendingMax: int, askers: nat, procs: nat)
    ensures Init(pendingMax, askers, procs) == Init(pendingMax, askers, 0).(procs := seq(procs, _ => Out))
    ensures Init(pendingMax, askers, 0).procs == [] && Idlers(seq(procs, _ => Out))
  {
  }

  lemma AnsweredIdle(t: State, k: nat)
    requires Answered(t, k)
    ensures t.procs == []
  {
  }

  lemma NotInOrder(s: State)
    requires ServedTwice(s, 1)
    ensures !InOrder(s)
  {
    var i, j :| 0 <= i < j < |s.served| && s.served[i].id == s.served[j].id == 1;
    assert s.served[i].id == s.served[j].id && i != j;
  }

  /** For every ring size: queries are served once each and in order in all runs iff there is at most one
      processing thread. */
  lemma OneProcessingThread(pendingMax: int, procs: nat)
    ensures (forall askers: nat, acts: seq<Action> ::
               Run(Init(pendingMax, askers, procs), acts).Some? ==>
                 InOrder(Run(Init(pendingMax, askers, procs), acts).value))
            <==> procs <= 1
  {
    hide Init, Run, InOrder, ServedTwice;
    if procs <= 1 {
      forall askers: nat, acts: seq<Action> | Run(Init(pendingMax, askers, procs), acts).Some?
        ensures InOrder(Run(Init(pendingMax, askers, procs), acts).value)
      {
        EveryRun(pendingMax, askers, procs, acts);
      }
    } else {
      var acts := TwoThreadsClash(pendingMax, 1, procs);
      NotInOrder(Run(Init(pendingMax, 1, procs), acts).value);
    }
  }
}
