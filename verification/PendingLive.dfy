/** Runs that exist: threads of the pending ring brought to the end of what they are doing. */
module PendingLive {
  import opened Bytes
  import opened Trees
  import opened Wire
  import opened Frames
  import opened Rings
  import opened Pending
  import opened PendingInv
  import opened PendingRuns

  /** No step of a processing thread. */
  predicate NoWork(acts: seq<Action>) {
    forall i :: 0 <= i < |acts| ==> Asks(acts[i]) || Receives(acts[i])
  }

  lemma RunCons(s: State, a: Action, acts: seq<Action>)
    requires Possible(s, a)
    ensures Run(s, [a] + acts) == Run(Do(s, a), acts)
    ensures NoWork(acts) && (Asks(a) || Receives(a)) ==> NoWork([a] + acts)
  {
    hide Possible, Do, Asks, Receives;
    assert ([a] + acts)[1..] == acts;
  }

  lemma RunNone(s: State)
    ensures Run(s, []) == Some(s) && NoWork([])
  {
  }

  lemma NoWorkThen(a: seq<Action>, b: seq<Action>)
    requires NoWork(a) && NoWork(b)
    ensures NoWork(a + b)
  {
  }

  // ---- a querying thread finishes its query ----

  function AskRank(pc: AskPc): nat {
    match pc
    case Away => 0
    case Releasing => 1
    case Stepped(_) => 2
    case Bumped(_) => 3
    case SentPut(_) => 4
    case CbPut(_, _, _) => 5
    case IdPut(_, _, _) => 6
    case Numbered(_, _, _) => 7
    case Granted(_, _) => 8
    case Asking(_) => 9
  }

  /** The queries sent once the thread holding tail_lock is done. */
  function Coming(s: State): seq<bool> {
    var pc := Asker(s);
    if pc.Asking? || Filling(pc) then s.cbs + [pc.cb] else s.cbs
  }

  /** What the querying threads leave alone, on the way from s to t. */
  predicate AskedOnly(s: State, t: State) {
    AskOnly(s, t) && |t.askers| == |s.askers|
  }

  lemma AskOne(s: State) returns (a: Action)
    requires Inv(s) && s.tailLock.Some? && (Asker(s).Asking? ==> |s.cbs| < Freed(s) + |s.slots|)
    ensures Possible(s, a) && Asks(a) && Inv(Do(s, a)) && AskedOnly(s, Do(s, a))
    ensures Coming(Do(s, a)) == Coming(s) && AskRank(Asker(Do(s, a))) < AskRank(Asker(s))
    ensures !Asker(Do(s, a)).Asking?
  {
    var i := s.tailLock.value;
    a := match Asker(s)
      case Asking(_) => AskTest(i, false)
      case Granted(_, _) => AskNumber(i)
      case Numbered(_, _, _) => AskId(i)
      case IdPut(_, _, _) => AskCb(i)
      case CbPut(_, _, _) => AskSent(i)
      case SentPut(_) => AskBump(i)
      case Bumped(_) => AskWrap(i)
      case Stepped(_) => AskWrite(i)
      case _ => AskUnlock(i);
    hide Inv, Bounds, Do, Freed;
    LockHeld(s);
    InvBounds(s);
    StepInv(s, a);
    AskTouches(s, a);
    if a.AskTest? {
      StepTests(s, a);
    }
    AskEffect(s, a);
  }

  lemma AskEffect(s: State, a: Action)
    requires Enabled(s, a) && Bounds(s) && Asks(a) && s.tailLock == Some(a.i) && a.i < |s.askers|
    requires a.AskTest? ==> !a.patient && Ask(Do(s, a), a.i).Granted?
    ensures Coming(Do(s, a)) == Coming(s) && AskRank(Asker(Do(s, a))) < AskRank(Asker(s))
    ensures |Do(s, a).askers| == |s.askers| && !Asker(Do(s, a)).Asking?
  {
  }

  lemma LockHeld(s: State)
    requires Inv(s) && s.tailLock.Some?
    ensures s.tailLock.value < |s.askers| && Asker(s) == s.askers[s.tailLock.value] && !Asker(s).Away?
  {
  }

  lemma {:induction false} AskerRuns(s: State) returns (acts: seq<Action>)
    requires Inv(s) && (Asker(s).Asking? ==> |s.cbs| < Freed(s) + |s.slots|)
    ensures Run(s, acts).Some? && NoWork(acts)
    ensures var t := Run(s, acts).value;
            Inv(t) && AskedOnly(s, t) && t.tailLock.None? && t.cbs == Coming(s) && |t.wire| == |t.cbs|
    decreases AskRank(Asker(s))
  {
    hide Do, Enabled, Bounds, Orderly, Run, NoWork;
    if s.tailLock.None? {
      acts := [];
      RunNone(s);
      Unlocked(s);
    } else {
      var a := AskOne(s);
      hide Inv;
      acts := AskerRuns(Do(s, a));
      RunCons(s, a, acts);
      var t := Run(Do(s, a), acts).value;
      acts := [a] + acts;
    }
  }

  lemma Unlocked(s: State)
    requires Inv(s) && s.tailLock.None?
    ensures Coming(s) == s.cbs && |s.wire| == |s.cbs| && AskedOnly(s, s)
  {
  }

  // ---- the receiver finishes its response ----

  function RecvRank(pc: RecvPc): nat {
    match pc
    case Idle => 0
    case Move(_) => 1
    case Mark(_, _) => 2
    case Fill(_, _) => 3
    case Check(_, _) => 4
    case SkipMark(_, _) => 5
    case Skip(_, _) => 6
    case SkipMove(_, _) => 7
    case Onward(_, _, _, _) => 8
    case Scan(_, _, _, _) => 8
    case Compare(_) => 9
  }

  /** How far a scan may still go, in half steps. */
  function ScanRank(pc: RecvPc): nat {
    match pc
    case Scan(m, _, _, j) => if j <= m.id then 2 * (m.id - j) + 1 else 0
    case Onward(m, _, _, j) => if j <= m.id then 2 * (m.id - j) else 0
    case _ => 0
  }

  function Behind(s: State): nat {
    if !s.recv.Idle? && s.decided <= s.recv.m.id then s.recv.m.id - s.decided else 0
  }

  /** What the receiver leaves alone while it works on a response. */
  predicate ReceivedOnly(s: State, t: State) {
    RecvOnly(s, t) && t.received == s.received && s.decided <= t.decided
  }

  lemma RecvOne(s: State) returns (a: Action)
    requires Inv(s) && !s.recv.Idle?
    ensures Possible(s, a) && Receives(a) && Inv(Do(s, a)) && ReceivedOnly(s, Do(s, a))
    ensures Behind(Do(s, a)) <= Behind(s)
    ensures Behind(Do(s, a)) == Behind(s) ==> RecvRank(Do(s, a).recv) <= RecvRank(s.recv)
    ensures Behind(Do(s, a)) == Behind(s) && RecvRank(Do(s, a).recv) == RecvRank(s.recv) ==>
              ScanRank(Do(s, a).recv) < ScanRank(s.recv)
    ensures Do(s, a).recv.Idle? || Do(s, a).recv.m == s.recv.m
    ensures Do(s, a).recv.Idle? ==> Do(s, a).decided == s.recv.m.id
  {
    a := match s.recv
      case Compare(_) => RecvCompare
      case Scan(_, _, _, _) => RecvScan
      case Onward(_, _, _, _) => RecvOnward
      case Skip(_, _) => RecvSkip
      case SkipMark(_, _) => RecvSkipMark
      case SkipMove(_, _) => RecvSkipMove
      case Check(_, _) => RecvCheck
      case Fill(_, _) => RecvFill
      case Mark(_, _) => RecvMark
      case _ => RecvMove;
    hide Inv, Bounds, Do, Freed;
    InvBounds(s);
    StepInv(s, a);
    RecvTouches(s, a);
    RecvWhere(s);
    RecvWhere(Do(s, a));
    RecvEffect(s, a);
  }

  /** Where the receiver stands, from the invariant. */
  lemma RecvWhere(s: State)
    requires Inv(s)
    ensures s.recv.Idle? ==> s.decided == LastId(s.received)
    ensures !s.recv.Idle? ==> LastId(s.received) == s.recv.m.id && s.decided <= s.recv.m.id
    ensures !s.recv.Idle? && !s.recv.Move? ==> s.decided < s.recv.m.id
    ensures s.recv.Scan? || s.recv.Onward? ==> s.recv.j < s.recv.m.id
  {
    hide Verdict, Ix, SlotsOk, Pointers, AskOk, ProcOk, Mutex;
  }

  lemma RecvEffect(s: State, a: Action)
    requires Enabled(s, a) && Bounds(s) && Receives(a) && !a.Receive?
    requires !s.recv.Move? ==> s.decided < s.recv.m.id
    requires s.recv.Scan? || s.recv.Onward? ==> s.recv.j < s.recv.m.id
    ensures var t := Do(s, a);
            !t.recv.Idle? ==>
              && t.recv.m == s.recv.m && Behind(t) <= Behind(s)
              && (Behind(t) == Behind(s) ==> RecvRank(t.recv) <= RecvRank(s.recv))
              && (Behind(t) == Behind(s) && RecvRank(t.recv) == RecvRank(s.recv) ==> ScanRank(t.recv) < ScanRank(s.recv))
    ensures RecvRank(s.recv) > 0
  {
  }

  lemma {:induction false} RecvRuns(s: State) returns (acts: seq<Action>)
    requires Inv(s)
    ensures Run(s, acts).Some? && NoWork(acts)
    ensures var t := Run(s, acts).value;
            && Inv(t) && ReceivedOnly(s, t) && t.recv.Idle?
            && t.decided == if s.recv.Idle? then s.decided else s.recv.m.id
    decreases Behind(s), RecvRank(s.recv), ScanRank(s.recv)
  {
    hide Do, Enabled, Bounds, Orderly, Run, NoWork, Inv, Behind, RecvRank, ScanRank;
    if s.recv.Idle? {
      acts := [];
      RunNone(s);
    } else {
      var a := RecvOne(s);
      acts := RecvRuns(Do(s, a));
      RunCons(s, a, acts);
      var t := Run(Do(s, a), acts).value;
      acts := [a] + acts;
    }
  }

  // ---- the processing thread ----

  function WorkRank(pc: ProcPc): nat {
    match pc
    case Grabbed(_) => 1
    case Testing => 2
    case Out => 3
    case Leaving => 4
    case RespWiped(_) => 4
    case IdWiped(_) => 5
    case Called(_) => 6
    case Calling(_) => 7
    case Marking(_) => 8
    case Holding(_) => 9
  }

  /** The oldest query can be taken. */
  predicate Takeable(s: State) {
    s.taken < s.decided && s.taken < |s.cbs| && !Skipped(s.received, s.cbs, s.taken)
  }

  lemma WorkOne(s: State) returns (a: Action)
    requires Inv(s) && |s.procs| == 1 && (Worker(s).Out? || Worker(s).Testing? ==> Takeable(s))
    ensures Possible(s, a) && Works(a) && Inv(Do(s, a)) && ProcOnly(s, Do(s, a)) && |Do(s, a).procs| == 1
    ensures if Worker(s).Grabbed? then Do(s, a).taken == s.taken + 1
            else Do(s, a).taken == s.taken && WorkRank(Worker(Do(s, a))) < WorkRank(Worker(s))
  {
    a := match Worker(s)
      case Out => TakeLock(0)
      case Testing => TakeTest(0, false)
      case Grabbed(_) => TakeMove(0)
      case Holding(_) => TakeUnlock(0)
      case Leaving => TakeUnlock(0)
      case Marking(_) => TakeMark(0)
      case Calling(_) => ProcCall(0)
      case Called(_) => ProcId(0)
      case IdWiped(_) => ProcResp(0)
      case RespWiped(_) => ProcClear(0);
    hide Inv, Bounds, Do, Freed, Skipped, Holds, Takeable;
    TakeableIs(s);
    HeadFree(s);
    InvBounds(s);
    StepInv(s, a);
    ProcTouches(s, a);
    if a.TakeTest? {
      StepTests(s, a);
    }
    WorkEffect(s, a);
  }

  lemma TakeableIs(s: State)
    ensures Takeable(s) ==> s.taken < s.decided && s.taken < |s.cbs| && !Skipped(s.received, s.cbs, s.taken)
  {
  }

  lemma HeadFree(s: State)
    requires Inv(s) && |s.procs| == 1
    ensures Worker(s) == s.procs[0] && (Worker(s).Out? ==> s.headLock.None?)
  {
  }

  lemma WorkEffect(s: State, a: Action)
    requires Enabled(s, a) && Bounds(s) && Works(a) && |s.procs| == 1 && a.i == 0
    requires a.TakeTest? ==> Worker(Do(s, a)).Grabbed?
    ensures |Do(s, a).procs| == 1
    ensures if Worker(s).Grabbed? then Do(s, a).taken == s.taken + 1
            else Do(s, a).taken == s.taken && WorkRank(Worker(Do(s, a))) < WorkRank(Worker(s))
  {
  }

  /** The thread hands back what it holds. */
  lemma {:induction false} WorkerRests(s: State) returns (acts: seq<Action>)
    requires Inv(s) && |s.procs| == 1 && (Holds(Worker(s)) || Worker(s).Leaving? || Worker(s).Out?)
    ensures Run(s, acts).Some?
    ensures var t := Run(s, acts).value;
            Inv(t) && ProcOnly(s, t) && |t.procs| == 1 && t.taken == s.taken && Worker(t).Out?
    decreases WorkRank(Worker(s))
  {
    hide Do, Enabled, Bounds, Orderly, Run, Inv, Takeable, Works, WorkRank, Holds;
    if Worker(s).Out? {
      acts := [];
      RunNone(s);
    } else {
      Resting(s);
      var a := WorkOne(s);
      RestStep(s, a);
      acts := WorkerRests(Do(s, a));
      RunCons(s, a, acts);
      var t := Run(Do(s, a), acts).value;
      acts := [a] + acts;
    }
  }

  lemma Resting(s: State)
    requires Holds(Worker(s)) || Worker(s).Leaving?
    ensures !Worker(s).Out? && !Worker(s).Testing? && !Worker(s).Grabbed?
  {
  }

  lemma RestStep(s: State, a: Action)
    requires Enabled(s, a) && Bounds(s) && |s.procs| == 1 && |Do(s, a).procs| == 1
    requires Holds(Worker(s)) || Worker(s).Leaving?
    requires WorkRank(Worker(Do(s, a))) < WorkRank(Worker(s)) && Works(a)
    ensures Holds(Worker(Do(s, a))) || Worker(Do(s, a)).Leaving? || Worker(Do(s, a)).Out?
  {
  }

  /** The thread takes the oldest query. */
  lemma {:induction false} WorkerTakes(s: State) returns (acts: seq<Action>)
    requires Inv(s) && |s.procs| == 1 && Takeable(s)
    ensures Run(s, acts).Some? && Run(s, acts).value.taken == s.taken + 1
    decreases WorkRank(Worker(s))
  {
    hide Do, Enabled, Bounds, Orderly, Run, Inv, Takeable;
    var a := WorkOne(s);
    if Worker(s).Grabbed? {
      RunNone(Do(s, a));
      RunCons(s, a, []);
      acts := [a] + [];
    } else {
      StillTakeable(s, Do(s, a));
      acts := WorkerTakes(Do(s, a));
      RunCons(s, a, acts);
      acts := [a] + acts;
    }
  }

  lemma StillTakeable(s: State, t: State)
    requires Takeable(s) && ProcOnly(s, t) && t.taken == s.taken
    ensures Takeable(t)
  {
  }

  // ---- one query, one response ----

  /** With the lock free and room, any querying thread can send a query. */
  lemma AskThrough(s: State, i: nat, cb: bool) returns (acts: seq<Action>)
    requires Inv(s) && s.tailLock.None? && i < |s.askers| && |s.cbs| < Freed(s) + |s.slots|
    ensures Run(s, acts).Some? && NoWork(acts)
    ensures var t := Run(s, acts).value;
            && Inv(t) && AskedOnly(s, t) && t.tailLock.None?
            && t.cbs == s.cbs + [cb] && |t.wire| == |t.cbs|
  {
    hide Do, Bounds, Run, NoWork, Inv, Coming, AskRank;
    var a := AskLock(i, cb);
    AllAway(s, i);
    InvBounds(s);
    StepInv(s, a);
    Locked(s, a);
    acts := AskerRuns(Do(s, a));
    RunCons(s, a, acts);
    acts := [a] + acts;
  }

  lemma AllAway(s: State, i: nat)
    requires Inv(s) && s.tailLock.None? && i < |s.askers|
    ensures Enabled(s, AskLock(i, true)) && Enabled(s, AskLock(i, false))
  {
  }

  lemma Locked(s: State, a: Action)
    requires Enabled(s, a) && Bounds(s) && a.AskLock?
    ensures AskedOnly(s, Do(s, a)) && Coming(Do(s, a)) == s.cbs + [a.cb]
    ensures Do(s, a).cbs == s.cbs && Freed(Do(s, a)) == Freed(s) && |Do(s, a).slots| == |s.slots|
  {
  }

  lemma Answer(s: State, m: Packet) returns (acts: seq<Action>)
    requires Inv(s) && s.recv.Idle? && m.id in s.wire && s.decided < m.id
    ensures Run(s, acts).Some? && NoWork(acts)
    ensures var t := Run(s, acts).value;
            Inv(t) && RecvOnly(s, t) && t.received == s.received + [m] && t.recv.Idle? && t.decided == m.id
  {
    hide Do, Bounds, Run, NoWork, Inv;
    var a := Receive(m);
    RecvWhere(s);
    InvBounds(s);
    StepInv(s, a);
    Begun(s, m);
    acts := RecvRuns(Do(s, a));
    RunCons(s, a, acts);
    acts := [a] + acts;
  }

  lemma Begun(s: State, m: Packet)
    requires s.recv.Idle? && Bounds(s)
    ensures var t := Do(s, Receive(m));
            RecvOnly(s, t) && t.received == s.received + [m] && t.recv == Compare(m)
  {
  }

  // ---- when another query can be taken ----

  lemma DecidedTakeable(s: State)
    requires Inv(s) && s.taken < s.decided && !Stuck(s)
    ensures Takeable(s)
  {
    hide Verdict, Ix, SlotsOk, Pointers, AskOk, ProcOk, Mutex;
    Settled(s, Packet(0, Leaf(Null)), s.taken);
  }

  lemma Numbers(s: State)
    requires Inv(s)
    ensures s.taken <= s.decided <= |s.wire| <= |s.cbs| && |s.slots| > 0
    ensures s.taken < |s.wire| ==> s.taken + 1 in s.wire
    ensures !Holds(Worker(s)) ==> Freed(s) == s.taken
    ensures Asker(s).Asking? || s.tailLock.None? ==> |s.wire| == |s.cbs|
    ensures |s.procs| == 1 && Worker(s).Grabbed? ==> s.taken < s.decided
  {
    hide Verdict, Ix, SlotsOk, Pointers, AskOk, RecvOk;
    if s.taken < |s.wire| {
      assert s.wire[s.taken] == s.taken + 1;
    }
  }

  lemma OwnAnswer(s: State, t: State, m: Packet)
    requires Inv(s) && s.recv.Idle? && s.taken == s.decided && m.id == s.taken + 1
    requires RecvOnly(s, t) && t.received == s.received + [m] && t.decided == m.id && m.id <= |t.cbs|
    ensures Takeable(t)
  {
    hide Verdict, Ix, SlotsOk, Pointers, AskOk, ProcOk, Mutex;
    VerdictReaches(s.received, |s.wire|, s.taken);
    VerdictSnoc(s.received, m, s.taken);
  }

  /** With a written query undecided: have it answered, and take it. */
  lemma TakesWritten(s: State) returns (acts: seq<Action>)
    requires Inv(s) && |s.procs| == 1 && s.recv.Idle? && s.taken == s.decided < |s.wire|
    ensures Run(s, acts).Some? && Run(s, acts).value.taken == s.taken + 1
  {
    hide Do, Bounds, Run, Inv, Takeable;
    var m := Packet(s.taken + 1, Leaf(Null));
    Numbers(s);
    var a := Answer(s, m);
    var t := Run(s, a).value;
    Numbers(t);
    OwnAnswer(s, t, m);
    var b := WorkerTakes(t);
    RunThen(s, a, b);
    acts := a + b;
  }

  /** With nothing left to decide: have a query sent first. */
  lemma TakesNew(s: State) returns (acts: seq<Action>)
    requires Inv(s) && |s.procs| == 1 && s.recv.Idle? && s.taken == s.decided == |s.wire| && s.askers != []
    requires !Holds(Worker(s))
    ensures Run(s, acts).Some? && Run(s, acts).value.taken == s.taken + 1
  {
    hide Do, Bounds, Run, Inv, Coming, Freed;
    Numbers(s);
    acts := AskerRuns(s);
    var t := Run(s, acts).value;
    AskedKeeps(s, t);
    Numbers(t);
    if |t.wire| == t.taken {
      var b := AskThrough(t, 0, true);
      RunThen(s, acts, b);
      AskedKeeps(t, Run(t, b).value);
      acts := acts + b;
      t := Run(s, acts).value;
    }
    var c := TakesWritten(t);
    RunThen(s, acts, c);
    acts := acts + c;
  }

  lemma AskedKeeps(s: State, t: State)
    requires AskedOnly(s, t)
    ensures t.procs == s.procs && t.taken == s.taken && t.decided == s.decided && t.recv == s.recv
    ensures t.received == s.received && |t.slots| == |s.slots| && (s.askers != [] ==> t.askers != [])
    ensures Worker(t) == Worker(s) && Freed(t) == Freed(s) && |t.wire| >= |s.wire|
  {
  }

  lemma TakesIdle(s: State) returns (acts: seq<Action>)
    requires Inv(s) && |s.procs| == 1 && s.recv.Idle? && s.taken == s.decided
    requires s.taken < |s.wire| || s.askers != []
    ensures Run(s, acts).Some? && Run(s, acts).value.taken == s.taken + 1
  {
    hide Do, Bounds, Run, Inv;
    Numbers(s);
    if s.decided < |s.wire| {
      acts := TakesWritten(s);
    } else if Holds(Worker(s)) {
      acts := WorkerRests(s);
      var t := Run(s, acts).value;
      var b := TakesNew(t);
      RunThen(s, acts, b);
      acts := acts + b;
    } else {
      acts := TakesNew(s);
    }
  }

  /** Unless it is stuck the ring can go on. */
  lemma TakesAnother(s: State) returns (acts: seq<Action>)
    requires Inv(s) && |s.procs| == 1 && !Stuck(s) && (s.taken < |s.wire| || s.askers != [])
    ensures Run(s, acts).Some? && Run(s, acts).value.taken == s.taken + 1
  {
    hide Do, Bounds, Run, Inv, Takeable, Stuck;
    Numbers(s);
    if s.taken < s.decided {
      DecidedTakeable(s);
      acts := WorkerTakes(s);
    } else {
      acts := RecvRuns(s);
      var t := Run(s, acts).value;
      ReceivedKeeps(s, t);
      var b;
      if t.taken < t.decided {
        DecidedTakeable(t);
        b := WorkerTakes(t);
      } else {
        Numbers(t);
        b := TakesIdle(t);
      }
      RunThen(s, acts, b);
      acts := acts + b;
    }
  }

  lemma ReceivedKeeps(s: State, t: State)
    requires ReceivedOnly(s, t)
    ensures t.procs == s.procs && t.taken == s.taken && t.wire == s.wire && t.askers == s.askers
    ensures Stuck(t) <==> Stuck(s)
  {
    hide Verdict;
  }

  lemma StepMonotone(s: State, a: Action)
    requires Enabled(s, a) && Bounds(s)
    ensures s.taken <= Do(s, a).taken
    ensures s.askers == [] ==> Do(s, a).askers == [] && Do(s, a).wire == s.wire
  {
  }

  lemma {:induction false} RunMonotone(s: State, acts: seq<Action>)
    requires Run(s, acts).Some?
    ensures s.taken <= Run(s, acts).value.taken
    ensures s.askers == [] ==> Run(s, acts).value.wire == s.wire
    decreases |acts|
  {
    hide Do, Enabled, Bounds, Orderly;
    if acts != [] {
      StepMonotone(s, acts[0]);
      RunMonotone(Do(s, acts[0]), acts[1..]);
    }
  }

  /** From any moment with a processing thread, some continuation takes another query iff the ring is not stuck and
      there is a query to take or a thread to send one. */
  lemma TakesIff(s: State)
    requires Inv(s) && |s.procs| == 1
    ensures (exists acts :: Run(s, acts).Some? && Run(s, acts).value.taken > s.taken)
        <==> !Stuck(s) && (s.taken < |s.wire| || s.askers != [])
  {
    hide Run, Inv, Stuck;
    if !Stuck(s) && (s.taken < |s.wire| || s.askers != []) {
      var acts := TakesAnother(s);
      assert Run(s, acts).value.taken > s.taken;
    } else {
      forall acts | Run(s, acts).Some?
        ensures Run(s, acts).value.taken <= s.taken
      {
        if Stuck(s) {
          StuckForever(s, acts);
        } else {
          RunMonotone(s, acts);
          RunInv(s, acts);
          Numbers(s);
          Numbers(Run(s, acts).value);
        }
      }
    }
  }

  /** The initial state: nothing held, nothing sent. */
  lemma Start(pendingMax: int, askers: nat, procs: nat)
    requires procs <= 1
    ensures var s := Init(pendingMax, askers, procs);
            && Inv(s) && s.recv.Idle? && s.tailLock.None? && s.cbs == [] && s.wire == [] && s.received == []
            && s.decided == 0 && s.taken == 0 && Freed(s) == 0 && |s.askers| == askers && |s.procs| == procs
            && |s.slots| == if pendingMax < 1 then 1 else pendingMax
  {
    InitInv(pendingMax, askers, procs);
  }

  /** A query without a callback, one with a callback, and the response to the second: stuck. */
  lemma StuckReached(pendingMax: int, askers: nat, procs: nat) returns (acts: seq<Action>)
    requires pendingMax >= 2 && askers >= 1 && procs <= 1
    ensures Run(Init(pendingMax, askers, procs), acts).Some?
    ensures Stuck(Run(Init(pendingMax, askers, procs), acts).value)
  {
    var s := Init(pendingMax, askers, procs);
    Start(pendingMax, askers, procs);
    hide Init, Do, Bounds, Run, Inv, Freed, Stuck;
    acts := AskThrough(s, 0, false);
    var t := Run(s, acts).value;
    AskedKeeps(s, t);
    var b := AskThrough(t, 0, true);
    RunThen(s, acts, b);
    acts := acts + b;
    var u := Run(s, acts).value;
    AskedKeeps(t, u);
    WrittenIds(u);
    var c := Answer(u, Packet(2, Leaf(Null)));
    RunThen(s, acts, c);
    acts := acts + c;
    var w := Run(s, acts).value;
    NowStuck(w);
  }

  lemma WrittenIds(s: State)
    requires Inv(s)
    ensures forall i :: 0 <= i < |s.wire| ==> s.wire[i] == i + 1
    ensures forall i: nat :: 1 <= i <= |s.wire| ==> i in s.wire
  {
    forall i: nat | 1 <= i <= |s.wire|
      ensures i in s.wire
    {
      assert s.wire[i - 1] == i;
    }
  }

  lemma NowStuck(s: State)
    requires s.taken == 0 && s.cbs == [false, true] && s.received == [Packet(2, Leaf(Null))]
    ensures Stuck(s)
  {
    VerdictSnoc([], Packet(2, Leaf(Null)), 0);
    assert [] + [Packet(2, Leaf(Null))] == s.received;
    assert Verdict([], 0) == None;
  }
}
