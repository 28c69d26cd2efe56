/** The client's ring of pending queries, shared by querying threads, one receiver and processing threads
    (src/opo/client.c:125-157, 180-246, 507-567), one access per step to memory another thread may be writing. */
module Pending {
  import opened Bytes
  import opened Trees
  import opened Wire
  import opened Frames
  import opened Rings

  datatype QueryState = Clear | Sent | Ready | Taken

  /** cb tells whether the query came with a callback. */
  datatype Slot = Slot(id: nat, cb: bool, state: QueryState, resp: Option<Packet>)

  /** OPO_ERR_LOST where the platform does not define ELAST. */
  const ERR_LOST := 174

  /** The message made for a query whose response was skipped, with the id it is given. */
  function Lost(id: nat): Packet {
    Packet(id, Node(Obj, [Item(Some(CODE), Leaf(Int(ERR_LOST))), Item(Some(ERROR), Leaf(Str(NO_RESPONSE)))]))
  }

  const CODE: seq<byte> := [99, 111, 100, 101]
  const ERROR: seq<byte> := [101, 114, 114, 111, 114]
  const NO_RESPONSE: seq<byte> := [110, 111, 32, 114, 101, 115, 112, 111, 110, 115, 101]

  // ---- threads ----

  /** Where a thread is inside opo_client_query. */
  datatype AskPc =
    | Away
    | Asking(cb: bool)                    // holds tail_lock, before the test of tail's state
    | Granted(cb: bool, q: nat)           // before next_id is taken
    | Numbered(cb: bool, q: nat, id: nat) // before q->id
    | IdPut(cb: bool, q: nat, id: nat)    // before q->cb
    | CbPut(cb: bool, q: nat, id: nat)   // before the state becomes SENT
    | SentPut(q: nat)                     // before tail++
    | Bumped(q: nat)                      // before the wrap of tail
    | Stepped(q: nat)                     // before the write to the socket
    | Releasing                            // before tail_lock is cleared

  /** Where the receiver is inside process_msg; j counts a scan's position without wrapping. */
  datatype RecvPc =
    | Idle
    | Compare(m: Packet)
    | Scan(m: Packet, q: nat, looped: bool, j: nat)   // before the test of q->id
    | Onward(m: Packet, q: nat, looped: bool, j: nat) // before q++ and the test of tail
    | Skip(m: Packet, q: nat)     // before the test q != on_deck
    | SkipMark(m: Packet, q: nat) // lost message stored, before on_deck's state becomes READY
    | SkipMove(m: Packet, q: nat) // before on_deck++
    | Check(m: Packet, q: nat)    // before the test of q's state
    | Fill(m: Packet, q: nat)     // before q->resp
    | Mark(m: Packet, q: nat)     // before q's state becomes READY
    | Move(m: Packet)             // before on_deck++

  /** Where a thread is inside take_next_ready and opo_client_process. */
  datatype ProcPc =
    | Out
    | Testing           // holds head_lock, before the test of head's state
    | Grabbed(q: nat)   // before head++
    | Holding(q: nat)   // before head_lock is cleared
    | Marking(q: nat)   // before the state becomes TAKEN
    | Calling(q: nat)   // before the callback
    | Called(q: nat)    // before q->id
    | IdWiped(q: nat)   // before q->resp
    | RespWiped(q: nat) // before the state becomes CLEAR
    | Leaving           // nothing ready, before head_lock is cleared

  /** What a processing thread found in the slot it took. */
  datatype Served = Served(id: nat, resp: Option<Packet>, cb: bool)

  /** Shared memory, threads, and histories: `cbs` tells of each query marked SENT whether it came with a callback, `wire` lists the ids written to
      the socket, `received` the responses, `decided` counts the slots the receiver is done with, `taken` the
      moves of head, `served` lists what reached the callbacks, `dropped` counts unmatched responses. */
  datatype State = State(
    slots: seq<Slot>,
    head: nat,
    deck: nat,
    tail: nat,
    nextId: nat,
    headLock: Option<nat>,
    tailLock: Option<nat>,
    askers: seq<AskPc>,
    recv: RecvPc,
    procs: seq<ProcPc>,
    cbs: seq<bool>,
    wire: seq<nat>,
    received: seq<Packet>,
    decided: nat,
    taken: nat,
    served: seq<Served>,
    dropped: nat)

  /** opo_client_connect: at least one slot, all clear, ids from 1. */
  function Init(pendingMax: int, askers: nat, procs: nat): State {
    var n := if pendingMax < 1 then 1 else pendingMax;
    State(seq(n, _ => Slot(0, false, Clear, None)), 0, 0, 0, 1, None, None,
          seq(askers, _ => Away), Idle, seq(procs, _ => Out), [], [], [], 0, 0, [], 0)
  }

  // ---- steps ----

  datatype Action =
    | AskLock(i: nat, cb: bool) | AskTest(i: nat, patient: bool) | AskNumber(i: nat) | AskId(i: nat) | AskCb(i: nat)
    | AskSent(i: nat) | AskBump(i: nat) | AskWrap(i: nat) | AskWrite(i: nat) | AskUnlock(i: nat)
    | Receive(m: Packet) | RecvCompare | RecvScan | RecvOnward | RecvSkip | RecvSkipMark | RecvSkipMove
    | RecvCheck | RecvFill | RecvMark | RecvMove
    | TakeLock(i: nat) | TakeTest(i: nat, patient: bool) | TakeMove(i: nat) | TakeUnlock(i: nat) | TakeMark(i: nat)
    | ProcCall(i: nat) | ProcId(i: nat) | ProcResp(i: nat) | ProcClear(i: nat)

  function Ask(s: State, i: nat): AskPc {
    if i < |s.askers| then s.askers[i] else Away
  }

  function Proc(s: State, i: nat): ProcPc {
    if i < |s.procs| then s.procs[i] else Out
  }

  predicate Enabled(s: State, a: Action) {
    match a
    case AskLock(i, _) => i < |s.askers| && Ask(s, i).Away? && s.tailLock.None?
    case AskTest(i, _) => Ask(s, i).Asking?
    case AskNumber(i) => Ask(s, i).Granted?
    case AskId(i) => Ask(s, i).Numbered?
    case AskCb(i) => Ask(s, i).IdPut?
    case AskSent(i) => Ask(s, i).CbPut?
    case AskBump(i) => Ask(s, i).SentPut?
    case AskWrap(i) => Ask(s, i).Bumped?
    case AskWrite(i) => Ask(s, i).Stepped?
    case AskUnlock(i) => Ask(s, i).Releasing?
    case Receive(_) => s.recv.Idle?
    case RecvCompare => s.recv.Compare?
    case RecvScan => s.recv.Scan?
    case RecvOnward => s.recv.Onward?
    case RecvSkip => s.recv.Skip?
    case RecvSkipMark => s.recv.SkipMark?
    case RecvSkipMove => s.recv.SkipMove?
    case RecvCheck => s.recv.Check?
    case RecvFill => s.recv.Fill?
    case RecvMark => s.recv.Mark?
    case RecvMove => s.recv.Move?
    case TakeLock(i) => i < |s.procs| && Proc(s, i).Out? && s.headLock.None?
    case TakeTest(i, _) => Proc(s, i).Testing?
    case TakeMove(i) => Proc(s, i).Grabbed?
    case TakeUnlock(i) => Proc(s, i).Holding? || Proc(s, i).Leaving?
    case TakeMark(i) => Proc(s, i).Marking?
    case ProcCall(i) => Proc(s, i).Calling?
    case ProcId(i) => Proc(s, i).Called?
    case ProcResp(i) => Proc(s, i).IdWiped?
    case ProcClear(i) => Proc(s, i).RespWiped?
  }

  function AskSlot(pc: AskPc): nat {
    if pc.Away? || pc.Asking? || pc.Releasing? then 0 else pc.q
  }

  function RecvSlot(pc: RecvPc): nat {
    if pc.Idle? || pc.Compare? || pc.Move? then 0 else pc.q
  }

  function ProcSlot(pc: ProcPc): nat {
    if pc.Out? || pc.Testing? || pc.Leaving? then 0 else pc.q
  }

  /** Every pointer a step follows is inside the ring. */
  predicate Bounds(s: State) {
    var n := |s.slots|;
    && s.head < n && s.deck < n
    && (forall i :: 0 <= i < |s.askers| ==> AskSlot(s.askers[i]) < n && (s.askers[i].Asking? ==> s.tail < n))
    && RecvSlot(s.recv) < n
    && (forall i :: 0 <= i < |s.procs| ==> ProcSlot(s.procs[i]) < n)
  }

  function AskGoes(s: State, i: nat, pc: AskPc): State
    requires i < |s.askers|
  {
    s.(askers := s.askers[i := pc])
  }

  function ProcGoes(s: State, i: nat, pc: ProcPc): State
    requires i < |s.procs|
  {
    s.(procs := s.procs[i := pc])
  }

  function Put(s: State, q: nat, x: Slot): State
    requires q < |s.slots|
  {
    s.(slots := s.slots[q := x])
  }

  function DoAsk(s: State, a: Action): State
    requires Bounds(s) && Enabled(s, a) && Asks(a)
  {
    var n, pc := |s.slots|, Ask(s, a.i);
    match a
    case AskLock(i, cb) => AskGoes(s.(tailLock := Some(i)), i, Asking(cb))
    case AskTest(i, patient) =>
      if s.slots[s.tail].state.Clear? then AskGoes(s, i, Granted(pc.cb, s.tail))
      else if patient then s else AskGoes(s, i, Releasing)
    case AskNumber(i) => AskGoes(s.(nextId := s.nextId + 1), i, Numbered(pc.cb, pc.q, s.nextId))
    case AskId(i) => AskGoes(Put(s, pc.q, s.slots[pc.q].(id := pc.id)), i, IdPut(pc.cb, pc.q, pc.id))
    case AskCb(i) => AskGoes(Put(s, pc.q, s.slots[pc.q].(cb := pc.cb)), i, CbPut(pc.cb, pc.q, pc.id))
    case AskSent(i) =>
      AskGoes(Put(s, pc.q, s.slots[pc.q].(state := Sent)).(cbs := s.cbs + [pc.cb]), i, SentPut(pc.q))
    case AskBump(i) => AskGoes(s.(tail := s.tail + 1), i, Bumped(pc.q))
    case AskWrap(i) => AskGoes(s.(tail := if n <= s.tail then 0 else s.tail), i, Stepped(pc.q))
    case AskWrite(i) => AskGoes(s.(wire := s.wire + [s.slots[pc.q].id]), i, Releasing)
    case AskUnlock(i) => AskGoes(s.(tailLock := None), i, Away)
  }

  function DoRecv(s: State, a: Action): State
    requires Bounds(s) && Enabled(s, a) && Receives(a)
  {
    var n, pc := |s.slots|, s.recv;
    match a
    case Receive(m) => s.(recv := Compare(m), received := s.received + [m])
    case RecvCompare =>
      if pc.m.id != s.slots[s.deck].id then s.(recv := Scan(pc.m, s.deck, false, s.decided))
      else s.(recv := Check(pc.m, s.deck))
    case RecvScan =>
      if s.slots[pc.q].id == pc.m.id then s.(recv := Skip(pc.m, pc.q))
      else s.(recv := Onward(pc.m, pc.q, pc.looped, pc.j))
    case RecvOnward =>
      if n <= pc.q + 1 && pc.looped then s.(recv := Idle, dropped := s.dropped + 1)
      else if Next(pc.q, n) == s.tail then s.(recv := Idle, dropped := s.dropped + 1)
      else s.(recv := Scan(pc.m, Next(pc.q, n), pc.looped || n <= pc.q + 1, pc.j + 1))
    case RecvSkip =>
      if pc.q == s.deck then s.(recv := Check(pc.m, pc.q))
      else if s.slots[s.deck].cb then
        Put(s, s.deck, s.slots[s.deck].(resp := Some(Lost(pc.m.id)))).(recv := SkipMark(pc.m, pc.q))
      else s.(recv := SkipMove(pc.m, pc.q), decided := s.decided + 1)
    case RecvSkipMark =>
      Put(s, s.deck, s.slots[s.deck].(state := Ready)).(recv := SkipMove(pc.m, pc.q), decided := s.decided + 1)
    case RecvSkipMove => s.(deck := Next(s.deck, n), recv := Skip(pc.m, pc.q))
    case RecvCheck =>
      if s.slots[pc.q].state.Sent? then s.(recv := Fill(pc.m, pc.q)) else s.(recv := Idle, dropped := s.dropped + 1)
    case RecvFill => Put(s, pc.q, s.slots[pc.q].(resp := Some(pc.m))).(recv := Mark(pc.m, pc.q))
    case RecvMark => Put(s, pc.q, s.slots[pc.q].(state := Ready)).(recv := Move(pc.m), decided := s.decided + 1)
    case RecvMove => s.(deck := Next(s.deck, n), recv := Idle)
  }

  function DoProc(s: State, a: Action): State
    requires Bounds(s) && Enabled(s, a) && !Asks(a) && !Receives(a)
  {
    var n, pc := |s.slots|, Proc(s, a.i);
    match a
    case TakeLock(i) => ProcGoes(s.(headLock := Some(i)), i, Testing)
    case TakeTest(i, patient) =>
      if s.slots[s.head].state.Ready? then ProcGoes(s, i, Grabbed(s.head))
      else if patient then s else ProcGoes(s, i, Leaving)
    case TakeMove(i) => ProcGoes(s.(head := Next(s.head, n), taken := s.taken + 1), i, Holding(pc.q))
    case TakeUnlock(i) => ProcGoes(s.(headLock := None), i, if pc.Holding? then Marking(pc.q) else Out)
    case TakeMark(i) => ProcGoes(Put(s, pc.q, s.slots[pc.q].(state := Taken)), i, Calling(pc.q))
    case ProcCall(i) =>
      var x := s.slots[pc.q];
      ProcGoes(s.(served := s.served + [Served(x.id, x.resp, x.cb)]), i, Called(pc.q))
    case ProcId(i) => ProcGoes(Put(s, pc.q, s.slots[pc.q].(id := 0)), i, IdWiped(pc.q))
    case ProcResp(i) => ProcGoes(Put(s, pc.q, s.slots[pc.q].(resp := None)), i, RespWiped(pc.q))
    case ProcClear(i) => ProcGoes(Put(s, pc.q, s.slots[pc.q].(state := Clear)), i, Out)
  }

  predicate Asks(a: Action) {
    a.AskLock? || a.AskTest? || a.AskNumber? || a.AskId? || a.AskCb?
    || a.AskSent? || a.AskBump? || a.AskWrap? || a.AskWrite? || a.AskUnlock?
  }

  predicate Receives(a: Action) {
    a.Receive? || a.RecvCompare? || a.RecvScan? || a.RecvOnward? || a.RecvSkip? || a.RecvSkipMark? || a.RecvSkipMove?
    || a.RecvCheck? || a.RecvFill? || a.RecvMark? || a.RecvMove?
  }

  function Do(s: State, a: Action): State
    requires Bounds(s) && Enabled(s, a)
  {
    if Asks(a) then DoAsk(s, a) else if Receives(a) then DoRecv(s, a) else DoProc(s, a)
  }

  /** The server answers queries at most once, in the order they were sent, possibly leaving some out. */
  predicate Orderly(s: State, a: Action) {
    a.Receive? ==> a.m.id in s.wire && LastId(s.received) < a.m.id
  }

  function LastId(received: seq<Packet>): nat {
    if received == [] then 0 else received[|received| - 1].id
  }
}

/** What every step on the pending ring keeps, with one processing thread. Slots are counted without wrapping:
    query k has id k + 1 and lives in slot Ix(k). */
module PendingInv {
  import opened Bytes
  import opened Trees
  import opened Wire
  import opened Frames
  import opened Rings
  import opened Pending

  // ---- what a query should be answered with ----

  /** The answer to query k after the responses so far: the first with its id or a later one decides, its own
      response or a lost message carrying the later id. */
  function Verdict(received: seq<Packet>, k: nat): Option<Packet> {
    if received == [] then None
    else
      var m := received[|received| - 1];
      var before := Verdict(received[..|received| - 1], k);
      if before.Some? then before
      else if m.id == k + 1 then Some(m)
      else if m.id > k + 1 then Some(Lost(m.id))
      else None
  }

  lemma VerdictSnoc(received: seq<Packet>, m: Packet, k: nat)
    ensures Verdict(received + [m], k)
            == if Verdict(received, k).Some? then Verdict(received, k)
               else if m.id == k + 1 then Some(m)
               else if m.id > k + 1 then Some(Lost(m.id))
               else None
  {
    assert (received + [m])[..|received|] == received;
  }

  /** Ids rise from 1 to at most top. */
  predicate Rising(received: seq<Packet>, top: nat) {
    && (forall i, j :: 0 <= i < j < |received| ==> received[i].id < received[j].id)
    && (forall i :: 0 <= i < |received| ==> 1 <= received[i].id <= top)
  }

  lemma {:induction false} VerdictReaches(received: seq<Packet>, top: nat, k: nat)
    requires Rising(received, top)
    ensures Verdict(received, k).Some? <==> k < LastId(received)
    decreases |received|
  {
    if received != [] {
      VerdictReaches(received[..|received| - 1], top, k);
    }
  }

  /** Read off the responses: query k gets its own response when there is one, and otherwise a lost message
      stamped with the next id that was answered. */
  lemma {:induction false} VerdictMeans(received: seq<Packet>, top: nat, k: nat) returns (i: nat)
    requires Rising(received, top) && Verdict(received, k).Some?
    ensures i < |received| && received[i].id > k && (forall j :: 0 <= j < i ==> received[j].id <= k)
    ensures Verdict(received, k) == Some(if received[i].id == k + 1 then received[i] else Lost(received[i].id))
    decreases |received|
  {
    var before := received[..|received| - 1];
    VerdictReaches(before, top, k);
    if Verdict(before, k).Some? {
      i := VerdictMeans(before, top, k);
    } else {
      i := |received| - 1;
      forall j | 0 <= j < i
        ensures received[j].id <= k
      {
        assert before[j].id <= LastId(before);
      }
    }
  }

  // ---- the invariant ----

  /** The querying thread that holds tail_lock. */
  function Asker(s: State): AskPc {
    if s.tailLock.Some? then Ask(s, s.tailLock.value) else Away
  }

  function Worker(s: State): ProcPc {
    Proc(s, 0)
  }

  predicate Holds(pc: ProcPc) {
    pc.Holding? || pc.Marking? || pc.Calling? || pc.Called? || pc.IdWiped? || pc.RespWiped?
  }

  predicate Filling(pc: AskPc) { pc.Granted? || pc.Numbered? || pc.IdPut? || pc.CbPut? }

  predicate Unwritten(pc: AskPc) { pc.SentPut? || pc.Bumped? || pc.Stepped? }

  /** Queries whose slot has been handed back. */
  function Freed(s: State): int {
    s.taken - if Holds(Worker(s)) then 1 else 0
  }

  predicate Mutex(s: State) {
    && (s.tailLock.Some? ==> s.tailLock.value < |s.askers| && !s.askers[s.tailLock.value].Away?)
    && (forall i :: 0 <= i < |s.askers| && s.tailLock != Some(i) ==> s.askers[i].Away?)
    && |s.procs| <= 1
    && var w := Worker(s);
       s.headLock == if w.Testing? || w.Grabbed? || w.Holding? || w.Leaving? then Some(0) else None
  }

  /** The counts in order: freed, taken, decided, written, sent, at most one turn in all. */
  predicate Counts(s: State) {
    && |s.slots| > 0
    && 0 <= Freed(s) && s.taken <= s.decided <= |s.wire|
    && |s.wire| == |s.cbs| - (if Unwritten(Asker(s)) then 1 else 0)
    && |s.cbs| <= Freed(s) + |s.slots|
    && s.nextId == 1 + |s.cbs| + (if Filling(Asker(s)) && !Asker(s).Granted? then 1 else 0)
    && (forall i :: 0 <= i < |s.wire| ==> s.wire[i] == i + 1)
  }

  /** The three pointers against the counts, up to their mid-step offsets. */
  predicate Pointers(s: State)
    requires Counts(s)
  {
    var n, a := |s.slots|, Asker(s);
    && s.head == Ix(s.taken, n)
    && (if s.recv.SkipMove? || s.recv.Move? then 0 < s.decided && s.deck == Ix(s.decided - 1, n)
        else s.deck == Ix(s.decided, n))
    && s.tail == if a.SentPut? then Ix(|s.cbs| - 1, n)
                 else if a.Bumped? then Ix(|s.cbs| - 1, n) + 1
                 else Ix(|s.cbs|, n)
  }

  predicate AskOk(s: State)
    requires Counts(s)
  {
    var n, pc := |s.slots|, Asker(s);
    && (Filling(pc) ==> pc.q == Ix(|s.cbs|, n) && |s.cbs| < Freed(s) + n)
    && (Filling(pc) && !pc.Granted? ==> pc.id == |s.cbs| + 1)
    && (Unwritten(pc) ==> pc.q == Ix(|s.cbs| - 1, n))
  }

  predicate RecvOk(s: State)
    requires Counts(s)
  {
    var n, pc := |s.slots|, s.recv;
    && Rising(s.received, |s.wire|) && s.dropped == 0
    && if pc.Idle? then s.decided == LastId(s.received)
       else
         && s.received != [] && pc.m == s.received[|s.received| - 1]
         && LastId(s.received[..|s.received| - 1]) <= s.decided
         && match pc
            case Compare(m) => s.decided < m.id
            case Scan(m, q, looped, j) =>
              s.decided <= j < m.id && q == Ix(j, n) && (looped <==> Ix(j, n) < Ix(s.decided, n))
            case Onward(m, q, looped, j) =>
              s.decided <= j && j + 1 < m.id && q == Ix(j, n) && (looped <==> Ix(j, n) < Ix(s.decided, n))
            case Skip(m, q) => s.decided < m.id && q == Ix(m.id - 1, n)
            case SkipMark(m, q) => s.decided < m.id - 1 && q == Ix(m.id - 1, n) && s.cbs[s.decided]
            case SkipMove(m, q) => s.decided < m.id && q == Ix(m.id - 1, n)
            case Check(m, q) => s.decided == m.id - 1 && q == Ix(s.decided, n)
            case Fill(m, q) => s.decided == m.id - 1 && q == Ix(s.decided, n)
            case Mark(m, q) => s.decided == m.id - 1 && q == Ix(s.decided, n)
            case Move(m) => s.decided == m.id
  }

  /** Query k, sent without a callback, was skipped. */
  predicate Skipped(received: seq<Packet>, cbs: seq<bool>, k: nat)
    requires k < |cbs|
  {
    !cbs[k] && (Verdict(received, k).Some? ==> Verdict(received, k).value.id != k + 1)
  }

  predicate ProcOk(s: State)
    requires Counts(s)
  {
    var n, pc := |s.slots|, Worker(s);
    && (pc.Grabbed? ==> pc.q == Ix(s.taken, n) && s.taken < s.decided && !Skipped(s.received, s.cbs, s.taken))
    && (Holds(pc) ==> pc.q == Ix(s.taken - 1, n))
    && |s.served| == s.taken - (if pc.Holding? || pc.Marking? || pc.Calling? then 1 else 0)
    && (forall k :: 0 <= k < |s.served| ==> s.served[k] == Served(k + 1, Verdict(s.received, k), s.cbs[k]))
  }

  // ---- the slots ----

  function SlotAt(slots: seq<Slot>, k: nat): Slot
    requires |slots| > 0
  {
    slots[Ix(k, |slots|)]
  }

  lemma AtIs(slots: seq<Slot>, k: nat)
    requires |slots| > 0
    ensures SlotAt(slots, k) == slots[Ix(k, |slots|)]
  {
  }

  /** An answered query waits READY; one skipped without a callback stays SENT. */
  function DecidedSlot(received: seq<Packet>, cbs: seq<bool>, k: nat): Slot
    requires k < |cbs|
  {
    if Skipped(received, cbs, k) then Slot(k + 1, false, Sent, None)
    else Slot(k + 1, cbs[k], Ready, Verdict(received, k))
  }

  /** The taken slot on its way back to CLEAR. */
  function HeldSlot(pc: ProcPc, x: Slot): Slot {
    if pc.Holding? || pc.Marking? then x
    else if pc.Calling? || pc.Called? then x.(state := Taken)
    else if pc.IdWiped? then x.(state := Taken, id := 0)
    else x.(state := Taken, id := 0, resp := None)
  }

  /** What the receiver has stored in a slot it is about to mark READY. */
  function Stored(pc: RecvPc): Option<Packet> {
    if pc.SkipMark? then Some(Lost(pc.m.id)) else if pc.Mark? then Some(pc.m) else None
  }

  predicate FillingSlot(pc: AskPc, x: Slot) {
    && x.state.Clear? && x.resp.None?
    && x.id == (if pc.IdPut? || pc.CbPut? then pc.id else 0)
    && (pc.CbPut? ==> x.cb == pc.cb)
  }

  /** x is what the slot of query k should hold. */
  predicate SlotOk(s: State, k: nat, x: Slot) {
    if k < s.taken then
      k < |s.cbs| && x == HeldSlot(Worker(s), Slot(k + 1, s.cbs[k], Ready, Verdict(s.received, k)))
    else if k < s.decided then
      k < |s.cbs| && x == DecidedSlot(s.received, s.cbs, k)
    else if k < |s.cbs| then
      x == Slot(k + 1, s.cbs[k], Sent, if k == s.decided then Stored(s.recv) else None)
    else if k == |s.cbs| then
      FillingSlot(Asker(s), x)
    else
      x.id == 0 && x.state.Clear? && x.resp.None?
  }

  predicate SlotsOk(s: State)
    requires Counts(s)
  {
    forall k: nat :: Freed(s) <= k < Freed(s) + |s.slots| ==> SlotOk(s, k, SlotAt(s.slots, k))
  }

  predicate Inv(s: State) {
    Mutex(s) && Counts(s) && Pointers(s) && AskOk(s) && RecvOk(s) && ProcOk(s) && SlotsOk(s)
  }

  // ---- every step keeps it ----

  lemma InitInv(pendingMax: int, askers: nat, procs: nat)
    requires procs <= 1
    ensures Inv(Init(pendingMax, askers, procs))
  {
  }

  lemma InvBounds(s: State)
    requires Inv(s)
    ensures Bounds(s)
  {
    var n := |s.slots|;
    forall i | 0 <= i < |s.askers|
      ensures AskSlot(s.askers[i]) < n && (s.askers[i].Asking? ==> s.tail < n)
    {
      if s.tailLock == Some(i) {
        assert Asker(s) == s.askers[i];
      }
    }
    forall i | 0 <= i < |s.procs|
      ensures ProcSlot(s.procs[i]) < n
    {
      assert Worker(s) == s.procs[i];
    }
  }

  /** Writing the slot of query k leaves the other slots of a turn around it alone. */
  lemma PutAt(slots: seq<Slot>, k: nat, x: Slot)
    requires |slots| > 0
    ensures SlotAt(slots[Ix(k, |slots|) := x], k) == x
    ensures forall j: nat :: k - |slots| < j < k + |slots| && j != k ==>
              SlotAt(slots[Ix(k, |slots|) := x], j) == SlotAt(slots, j)
  {
    forall j: nat | k - |slots| < j < k + |slots| && j != k
      ensures SlotAt(slots[Ix(k, |slots|) := x], j) == SlotAt(slots, j)
    {
      if j < k { IxDistinct(j, k, |slots|); } else { IxDistinct(k, j, |slots|); }
    }
  }

  /** The parts of the invariant that do not look into the slots. */
  predicate Placed(s: State) {
    Mutex(s) && Counts(s) && Pointers(s)
  }

  // querying threads

  lemma AskActs(s: State, a: Action)
    requires Mutex(s) && Enabled(s, a) && Asks(a)
    ensures a.i < |s.askers|
    ensures if a.AskLock? then s.tailLock.None? else s.tailLock == Some(a.i) && Asker(s) == s.askers[a.i]
  {
  }

  /** Of the rest of the state a querying thread only makes cbs and wire grow. */
  predicate AskOnly(s: State, t: State) {
    && t.recv == s.recv && t.received == s.received && t.decided == s.decided && t.dropped == s.dropped
    && t.procs == s.procs && t.headLock == s.headLock && t.taken == s.taken && t.served == s.served
    && t.head == s.head && t.deck == s.deck && |t.slots| == |s.slots|
    && s.cbs <= t.cbs && s.wire <= t.wire
  }

  lemma AskTouches(s: State, a: Action)
    requires Bounds(s) && Enabled(s, a) && Asks(a)
    ensures AskOnly(s, Do(s, a))
  {
  }

  lemma AskFrames(s: State, t: State)
    requires Counts(s) && Counts(t) && AskOnly(s, t)
    ensures RecvOk(s) ==> RecvOk(t)
    ensures ProcOk(s) ==> ProcOk(t)
  {
    hide Verdict, Ix;
  }

  lemma AskInv(s: State, a: Action)
    requires Inv(s) && Bounds(s) && Enabled(s, a) && Asks(a)
    ensures Inv(Do(s, a))
  {
    hide Counts, Mutex, Pointers, AskOk, RecvOk, ProcOk, SlotsOk, Bounds, Enabled, Do, AskOnly;
    AskActs(s, a);
    AskTouches(s, a);
    if a.AskLock? || a.AskNumber? || a.AskUnlock? {
      AskPlainInv(s, a);
    } else if a.AskTest? {
      AskTestInv(s, a.i, a.patient);
    } else if a.AskId? || a.AskCb? {
      AskPutInv(s, a);
    } else if a.AskSent? {
      AskSentInv(s, a.i);
    } else if a.AskBump? || a.AskWrap? {
      AskMoveInv(s, a);
    } else {
      AskWriteInv(s, a.i);
    }
    AskFrames(s, Do(s, a));
  }

  lemma AskPlainInv(s: State, a: Action)
    requires Inv(s) && Bounds(s) && Enabled(s, a) && (a.AskLock? || a.AskNumber? || a.AskUnlock?)
    ensures Placed(Do(s, a)) && AskOk(Do(s, a)) && SlotsOk(Do(s, a))
  {
    hide RecvOk, ProcOk, Verdict, Ix, DecidedSlot, HeldSlot, Bounds;
    AskActs(s, a);
    SameSlots(s, Do(s, a));
  }

  /** Slots stay right when nothing they depend on changes. */
  lemma SameSlots(s: State, t: State)
    requires Counts(s) && Counts(t) && SlotsOk(s)
    requires t.slots == s.slots && t.cbs == s.cbs && t.received == s.received
    requires t.recv == s.recv && t.procs == s.procs && t.taken == s.taken && t.decided == s.decided
    requires forall x: Slot :: FillingSlot(Asker(s), x) ==> FillingSlot(Asker(t), x)
    ensures SlotsOk(t)
  {
    hide Counts, Verdict, Ix, DecidedSlot, HeldSlot, Asker, FillingSlot;
    assert Freed(s) == Freed(t);
    forall k: nat | Freed(t) <= k < Freed(t) + |t.slots|
      ensures SlotOk(t, k, SlotAt(t.slots, k))
    {
      assert SlotOk(s, k, SlotAt(s.slots, k));
    }
  }

  lemma AskMoveInv(s: State, a: Action)
    requires Inv(s) && Bounds(s) && Enabled(s, a) && (a.AskBump? || a.AskWrap?)
    ensures Placed(Do(s, a)) && AskOk(Do(s, a)) && SlotsOk(Do(s, a))
  {
    AskActs(s, a);
    assert Ix(|s.cbs|, |s.slots|) == Next(Ix(|s.cbs| - 1, |s.slots|), |s.slots|);
    hide RecvOk, ProcOk, Verdict, Ix, DecidedSlot, HeldSlot, Bounds;
    SameSlots(s, Do(s, a));
  }

  lemma AskTestInv(s: State, i: nat, patient: bool)
    requires Inv(s) && Bounds(s) && Enabled(s, AskTest(i, patient))
    ensures Placed(Do(s, AskTest(i, patient))) && AskOk(Do(s, AskTest(i, patient)))
    ensures SlotsOk(Do(s, AskTest(i, patient)))
  {
    AskActs(s, AskTest(i, patient));
    if s.slots[s.tail].state.Clear? {
      TailFree(s);
    }
    hide RecvOk, ProcOk, Verdict, Ix, DecidedSlot, HeldSlot, Bounds;
    SameSlots(s, Do(s, AskTest(i, patient)));
  }

  /** A CLEAR slot at tail is free: the ring is not full. */
  lemma TailFree(s: State)
    requires Inv(s) && Asker(s).Asking? && s.tail < |s.slots| && s.slots[s.tail].state.Clear?
    ensures |s.cbs| < Freed(s) + |s.slots|
  {
    hide Ix, Verdict, RecvOk, ProcOk, AskOk;
    IxDistinct(Freed(s), |s.cbs|, |s.slots|);
    SlotHere(s, Freed(s));
  }

  /** A querying thread writes the slot at tail; the others stay right. */
  lemma AskSlots(s: State, t: State, x: Slot)
    requires Counts(s) && Counts(t) && SlotsOk(s) && |s.cbs| < Freed(s) + |s.slots|
    requires t.slots == s.slots[Ix(|s.cbs|, |s.slots|) := x] && SlotOk(t, |s.cbs|, x)
    requires t.cbs == s.cbs || (|t.cbs| == |s.cbs| + 1 && s.cbs <= t.cbs && !Filling(Asker(t)))
    requires t.recv == s.recv && t.received == s.received
    requires t.procs == s.procs && t.taken == s.taken && t.decided == s.decided
    ensures SlotsOk(t)
  {
    PutAt(s.slots, |s.cbs|, x);
    hide Counts, Verdict, Ix, HeldSlot, Asker, SlotAt;
    assert Freed(s) == Freed(t);
    forall k: nat | Freed(t) <= k < Freed(t) + |t.slots|
      ensures SlotOk(t, k, SlotAt(t.slots, k))
    {
      assert SlotOk(s, k, SlotAt(s.slots, k));
    }
  }

  lemma SlotHere(s: State, k: nat)
    requires Counts(s) && SlotsOk(s) && Freed(s) <= k < Freed(s) + |s.slots|
    ensures SlotOk(s, k, s.slots[Ix(k, |s.slots|)])
  {
    assert SlotOk(s, k, SlotAt(s.slots, k));
  }

  lemma AskPutInv(s: State, a: Action)
    requires Inv(s) && Bounds(s) && Enabled(s, a) && (a.AskId? || a.AskCb?)
    ensures Placed(Do(s, a)) && AskOk(Do(s, a)) && SlotsOk(Do(s, a))
  {
    hide RecvOk, ProcOk, Verdict, Ix, DecidedSlot, HeldSlot, SlotAt, SlotsOk;
    AskActs(s, a);
    SlotHere(s, |s.cbs|);
    var t := Do(s, a);
    AskSlots(s, t, t.slots[Asker(s).q]);
  }

  /** With every query decided the receiver is not about to mark one. */
  lemma NothingStored(s: State)
    requires Counts(s) && RecvOk(s) && s.decided == |s.wire|
    ensures Stored(s.recv) == None
  {
  }

  lemma AskSentInv(s: State, i: nat)
    requires Inv(s) && Bounds(s) && Enabled(s, AskSent(i))
    ensures Placed(Do(s, AskSent(i))) && AskOk(Do(s, AskSent(i))) && SlotsOk(Do(s, AskSent(i)))
  {
    hide RecvOk, ProcOk, Verdict, Ix, DecidedSlot, HeldSlot, SlotAt, SlotsOk;
    AskActs(s, AskSent(i));
    SlotHere(s, |s.cbs|);
    var t := Do(s, AskSent(i));
    if s.decided == |s.cbs| {
      NothingStored(s);
    }
    AskSlots(s, t, t.slots[Asker(s).q]);
  }

  lemma AskWriteInv(s: State, i: nat)
    requires Inv(s) && Bounds(s) && Enabled(s, AskWrite(i))
    ensures Placed(Do(s, AskWrite(i))) && AskOk(Do(s, AskWrite(i))) && SlotsOk(Do(s, AskWrite(i)))
  {
    hide RecvOk, ProcOk, Verdict, Ix, DecidedSlot, HeldSlot, SlotAt, SlotsOk;
    AskActs(s, AskWrite(i));
    SlotHere(s, |s.cbs| - 1);
    SameSlots(s, Do(s, AskWrite(i)));
  }

  // the processing thread

  predicate Works(a: Action) { !Asks(a) && !Receives(a) }

  lemma ProcActs(s: State, a: Action)
    requires Mutex(s) && Enabled(s, a) && Works(a)
    ensures a.i == 0 && |s.procs| == 1 && Worker(s) == s.procs[0]
  {
  }

  /** A processing thread leaves everything else as it is. */
  predicate ProcOnly(s: State, t: State) {
    && t.recv == s.recv && t.received == s.received && t.decided == s.decided && t.dropped == s.dropped
    && t.askers == s.askers && t.tailLock == s.tailLock && t.nextId == s.nextId
    && t.tail == s.tail && t.deck == s.deck && t.cbs == s.cbs && t.wire == s.wire
    && |t.slots| == |s.slots|
  }

  lemma ProcTouches(s: State, a: Action)
    requires Bounds(s) && Enabled(s, a) && Works(a)
    ensures ProcOnly(s, Do(s, a))
  {
  }

  lemma ProcFrames(s: State, t: State)
    requires Counts(s) && Counts(t) && ProcOnly(s, t) && Freed(s) <= Freed(t)
    ensures RecvOk(s) ==> RecvOk(t)
    ensures AskOk(s) ==> AskOk(t)
  {
    hide Verdict, Ix;
  }

  lemma ProcInv(s: State, a: Action)
    requires Inv(s) && Bounds(s) && Enabled(s, a) && Works(a)
    ensures Inv(Do(s, a))
  {
    hide Counts, Mutex, Pointers, AskOk, RecvOk, ProcOk, SlotsOk, Bounds, Enabled, Do, ProcOnly, Freed;
    ProcTouches(s, a);
    if a.TakeLock? || a.TakeUnlock? {
      ProcPlainInv(s, a);
    } else if a.TakeTest? {
      TakeTestInv(s, a);
    } else if a.TakeMove? {
      TakeMoveInv(s, a);
    } else if a.ProcCall? {
      ProcCallInv(s, a);
    } else if a.ProcClear? {
      ProcClearInv(s, a);
    } else {
      ProcActs(s, a);
      if a.TakeMark? {
        TakeMarkInv(s);
      } else if a.ProcId? {
        ProcIdInv(s);
      } else {
        ProcRespInv(s);
      }
    }
    ProcFrames(s, Do(s, a));
  }

  predicate ProcStep(s: State, t: State) {
    Placed(t) && ProcOk(t) && SlotsOk(t) && Freed(s) <= Freed(t)
  }

  /** Slots stay right when only the place of the processing thread changes and the held slot is as it should be. */
  lemma ProcSlots(s: State, t: State)
    requires Counts(s) && Counts(t) && SlotsOk(s) && ProcOnly(s, t)
    requires t.slots == s.slots && t.taken == s.taken && Freed(s) == Freed(t)
    requires Holds(Worker(s)) ==> forall x: Slot :: HeldSlot(Worker(s), x) == HeldSlot(Worker(t), x)
    ensures SlotsOk(t)
  {
    hide Counts, Verdict, Ix, DecidedSlot, HeldSlot, FillingSlot;
    assert Asker(s) == Asker(t);
    forall k: nat | Freed(t) <= k < Freed(t) + |t.slots|
      ensures SlotOk(t, k, SlotAt(t.slots, k))
    {
      assert SlotOk(s, k, SlotAt(s.slots, k));
    }
  }

  lemma ProcPlainInv(s: State, a: Action)
    requires Inv(s) && Bounds(s) && Enabled(s, a) && (a.TakeLock? || a.TakeUnlock?)
    ensures ProcStep(s, Do(s, a))
  {
    hide RecvOk, AskOk, Verdict, Ix, DecidedSlot, Bounds, Skipped;
    ProcActs(s, a);
    ProcSlots(s, Do(s, a));
  }

  lemma TakeTestInv(s: State, a: Action)
    requires Inv(s) && Bounds(s) && Enabled(s, a) && a.TakeTest?
    ensures ProcStep(s, Do(s, a))
  {
    hide RecvOk, AskOk, Verdict, Ix, SlotAt;
    ProcActs(s, a);
    if s.slots[s.head].state.Ready? {
      HeadReady(s);
    }
    ProcSlots(s, Do(s, a));
  }

  /** A READY slot at head belongs to a decided query that was not skipped. */
  lemma HeadReady(s: State)
    requires Inv(s) && !Holds(Worker(s)) && s.head < |s.slots| && s.slots[s.head].state.Ready?
    ensures s.taken < s.decided && !Skipped(s.received, s.cbs, s.taken)
  {
    hide Verdict, Ix, AskOk, ProcOk;
    assert SlotOk(s, s.taken, SlotAt(s.slots, s.taken));
  }

  lemma TakeMoveInv(s: State, a: Action)
    requires Inv(s) && Bounds(s) && Enabled(s, a) && a.TakeMove?
    ensures ProcStep(s, Do(s, a))
  {
    ProcActs(s, a);
    assert Ix(s.taken + 1, |s.slots|) == Next(s.head, |s.slots|);
    hide RecvOk, AskOk, Verdict, Ix;
    var t := Do(s, a);
    assert SlotsOk(t) by {
      hide Pointers, ProcOk, Mutex, FillingSlot;
      forall k: nat | Freed(t) <= k < Freed(t) + |t.slots|
        ensures SlotOk(t, k, SlotAt(t.slots, k))
      {
        assert SlotOk(s, k, SlotAt(s.slots, k));
      }
    }
  }

  lemma ProcCallInv(s: State, a: Action)
    requires Inv(s) && Bounds(s) && Enabled(s, a) && a.ProcCall?
    ensures ProcStep(s, Do(s, a))
  {
    hide RecvOk, AskOk, Verdict, Ix, DecidedSlot, SlotAt;
    ProcActs(s, a);
    SlotHere(s, s.taken - 1);
    ProcSlots(s, Do(s, a));
  }

  /** The processing thread writes the slot it holds; the others stay right. */
  lemma HeldPut(s: State, t: State, x: Slot)
    requires Counts(s) && Counts(t) && SlotsOk(s) && ProcOnly(s, t)
    requires Holds(Worker(s)) && Holds(Worker(t)) && t.taken == s.taken > 0
    requires t.slots == s.slots[Ix(s.taken - 1, |s.slots|) := x] && SlotOk(t, s.taken - 1, x)
    ensures SlotsOk(t)
  {
    PutAt(s.slots, s.taken - 1, x);
    hide Counts, Verdict, Ix, DecidedSlot, HeldSlot, FillingSlot, SlotAt;
    assert Asker(s) == Asker(t);
    forall k: nat | Freed(t) <= k < Freed(t) + |t.slots|
      ensures SlotOk(t, k, SlotAt(t.slots, k))
    {
      assert SlotOk(s, k, SlotAt(s.slots, k));
    }
  }

  lemma TakeMarkInv(s: State)
    requires Inv(s) && Bounds(s) && Enabled(s, TakeMark(0))
    ensures ProcStep(s, Do(s, TakeMark(0)))
  {
    hide RecvOk, AskOk, Verdict, Ix, DecidedSlot, SlotAt, SlotsOk, FillingSlot;
    ProcActs(s, TakeMark(0));
    SlotHere(s, s.taken - 1);
    var t := Do(s, TakeMark(0));
    HeldPut(s, t, t.slots[Worker(s).q]);
  }

  lemma ProcIdInv(s: State)
    requires Inv(s) && Bounds(s) && Enabled(s, ProcId(0))
    ensures ProcStep(s, Do(s, ProcId(0)))
  {
    hide RecvOk, AskOk, Verdict, Ix, DecidedSlot, SlotAt, SlotsOk, FillingSlot;
    ProcActs(s, ProcId(0));
    SlotHere(s, s.taken - 1);
    var t := Do(s, ProcId(0));
    HeldPut(s, t, t.slots[Worker(s).q]);
  }

  lemma ProcRespInv(s: State)
    requires Inv(s) && Bounds(s) && Enabled(s, ProcResp(0))
    ensures ProcStep(s, Do(s, ProcResp(0)))
  {
    hide RecvOk, AskOk, Verdict, Ix, DecidedSlot, SlotAt, SlotsOk, FillingSlot;
    ProcActs(s, ProcResp(0));
    SlotHere(s, s.taken - 1);
    var t := Do(s, ProcResp(0));
    HeldPut(s, t, t.slots[Worker(s).q]);
  }

  lemma ProcClearInv(s: State, a: Action)
    requires Inv(s) && Bounds(s) && Enabled(s, a) && a.ProcClear?
    ensures ProcStep(s, Do(s, a))
  {
    hide RecvOk, Verdict, Ix, DecidedSlot, SlotAt, SlotsOk;
    ProcActs(s, a);
    SlotHere(s, s.taken - 1);
    var t := Do(s, a);
    FreedPut(s, t, t.slots[Worker(s).q]);
  }

  /** The slot handed back becomes the last free one, a turn later. */
  lemma FreedPut(s: State, t: State, x: Slot)
    requires Counts(s) && Counts(t) && AskOk(s) && SlotsOk(s) && ProcOnly(s, t)
    requires Holds(Worker(s)) && !Holds(Worker(t)) && t.taken == s.taken > 0
    requires t.slots == s.slots[Ix(s.taken - 1, |s.slots|) := x] && x.id == 0 && x.state.Clear? && x.resp.None?
    ensures SlotsOk(t)
  {
    var n, f := |s.slots|, Freed(s);
    PutAt(s.slots, f, x);
    IxDistinct(f, f + n, n);
    assert SlotAt(t.slots, f + n) == SlotAt(t.slots, f) == x;
    hide Verdict, Ix, DecidedSlot, HeldSlot, SlotAt;
    assert Asker(s) == Asker(t);
    forall k: nat | Freed(t) <= k < Freed(t) + |t.slots|
      ensures SlotOk(t, k, SlotAt(t.slots, k))
    {
      if k < f + n {
        assert SlotOk(s, k, SlotAt(s.slots, k));
      }
    }
  }

  // the receiver

  /** The receiver leaves everything else as it is. */
  predicate RecvOnly(s: State, t: State) {
    && t.askers == s.askers && t.tailLock == s.tailLock && t.nextId == s.nextId && t.tail == s.tail
    && t.procs == s.procs && t.headLock == s.headLock && t.head == s.head && t.taken == s.taken
    && t.served == s.served && t.cbs == s.cbs && t.wire == s.wire && |t.slots| == |s.slots|
  }

  lemma RecvTouches(s: State, a: Action)
    requires Bounds(s) && Enabled(s, a) && Receives(a)
    ensures RecvOnly(s, Do(s, a))
    ensures if a.Receive? then Do(s, a).received == s.received + [a.m] else Do(s, a).received == s.received
    ensures s.decided <= Do(s, a).decided
  {
  }

  lemma RecvFrames(s: State, t: State)
    requires Counts(s) && Counts(t) && RecvOnly(s, t) && s.decided <= t.decided
    ensures Mutex(s) ==> Mutex(t)
    ensures AskOk(s) ==> AskOk(t)
    ensures ProcOk(s) && t.received == s.received ==> ProcOk(t)
  {
    hide Verdict, Ix;
  }

  /** The answer to a decided query is settled. */
  lemma Settled(s: State, m: Packet, k: nat)
    requires Counts(s) && RecvOk(s) && k < s.decided
    ensures Verdict(s.received, k).Some? && Verdict(s.received + [m], k) == Verdict(s.received, k)
  {
    hide Verdict;
    VerdictReaches(s.received, |s.wire|, k);
    VerdictSnoc(s.received, m, k);
  }

  /** The response at hand answers the next undecided query. */
  lemma VerdictNow(s: State)
    requires Counts(s) && RecvOk(s) && !s.recv.Idle? && s.decided < s.recv.m.id
    ensures Verdict(s.received, s.decided)
            == Some(if s.recv.m.id == s.decided + 1 then s.recv.m else Lost(s.recv.m.id))
  {
    var before := BeforeNow(s);
    hide Verdict, RecvOk, Counts, Rising;
    VerdictReaches(before, |s.wire|, s.decided);
    VerdictSnoc(before, s.recv.m, s.decided);
  }

  lemma BeforeNow(s: State) returns (before: seq<Packet>)
    requires Counts(s) && RecvOk(s) && !s.recv.Idle?
    ensures s.received == before + [s.recv.m] && Rising(before, |s.wire|) && LastId(before) <= s.decided
  {
    hide Verdict, Ix;
    before := s.received[..|s.received| - 1];
  }

  lemma RecvInv(s: State, a: Action)
    requires Inv(s) && Bounds(s) && Enabled(s, a) && Receives(a) && Orderly(s, a)
    ensures Inv(Do(s, a))
  {
    hide Counts, Mutex, Pointers, AskOk, RecvOk, ProcOk, SlotsOk, Bounds, Enabled, Do, RecvOnly, Orderly;
    RecvTouches(s, a);
    match a {
      case Receive(m) => ReceiveInv(s, m);
      case RecvCompare => CompareInv(s);
      case RecvScan => ScanInv(s);
      case RecvOnward => OnwardInv(s);
      case RecvSkip => SkipInv(s);
      case RecvSkipMark => SkipMarkInv(s);
      case RecvSkipMove => SkipMoveInv(s);
      case RecvCheck => CheckInv(s);
      case RecvFill => FillInv(s);
      case RecvMark => MarkInv(s);
      case RecvMove => MoveInv(s);
      case _ =>
    }
    RecvFrames(s, Do(s, a));
  }

  /** What a step of the receiver has to show. */
  predicate RecvStep(s: State, t: State) {
    && Counts(t) && Pointers(t) && RecvOk(t) && SlotsOk(t)
    && (t.received != s.received ==> ProcOk(t))
  }

  lemma ReceiveInv(s: State, m: Packet)
    requires Inv(s) && Bounds(s) && Enabled(s, Receive(m)) && Orderly(s, Receive(m))
    ensures RecvStep(s, Do(s, Receive(m)))
  {
    hide Verdict, Ix, Mutex, AskOk, SlotAt, FillingSlot;
    var t := Do(s, Receive(m));
    assert t.received[..|s.received|] == s.received;
    forall k: nat | k < s.decided
      ensures Verdict(t.received, k) == Verdict(s.received, k)
    {
      Settled(s, m, k);
    }
    assert Asker(s) == Asker(t);
    forall k: nat | Freed(t) <= k < Freed(t) + |t.slots|
      ensures SlotOk(t, k, SlotAt(t.slots, k))
    {
      assert SlotOk(s, k, SlotAt(s.slots, k));
    }
  }

  /** Slots stay right when the receiver moves on without deciding anything. */
  lemma RecvSlots(s: State, t: State)
    requires Counts(s) && Counts(t) && SlotsOk(s) && RecvOnly(s, t) && t.slots == s.slots
    requires t.received == s.received && t.decided == s.decided && Stored(s.recv) == Stored(t.recv)
    ensures SlotsOk(t)
  {
    hide Counts, Verdict, Ix, DecidedSlot, HeldSlot, FillingSlot, Stored;
    assert Asker(s) == Asker(t);
    forall k: nat | Freed(t) <= k < Freed(t) + |t.slots|
      ensures SlotOk(t, k, SlotAt(t.slots, k))
    {
      assert SlotOk(s, k, SlotAt(s.slots, k));
    }
  }

  /** Slots stay right when the receiver decides query `decided` or stores its answer, given that slot is right. */
  lemma DeckSlots(s: State, t: State, x: Slot)
    requires Counts(s) && Counts(t) && SlotsOk(s) && RecvOnly(s, t)
    requires s.decided < |s.cbs| && t.slots == s.slots[Ix(s.decided, |s.slots|) := x]
    requires t.received == s.received && s.decided <= t.decided <= s.decided + 1
    requires t.decided > s.decided ==> Stored(t.recv) == None
    requires SlotOk(t, s.decided, x)
    ensures SlotsOk(t)
  {
    PutAt(s.slots, s.decided, x);
    hide Counts, Verdict, Ix, DecidedSlot, HeldSlot, FillingSlot, Stored, SlotAt;
    assert Asker(s) == Asker(t);
    assert s.decided < Freed(s) + |s.slots| && s.taken <= s.decided by {
      CountsRoom(s);
    }
    forall k: nat | Freed(t) <= k < Freed(t) + |t.slots|
      ensures SlotOk(t, k, SlotAt(t.slots, k))
    {
      assert SlotOk(s, k, SlotAt(s.slots, k));
    }
  }

  lemma CountsRoom(s: State)
    requires Counts(s)
    ensures s.taken <= s.decided && |s.cbs| <= Freed(s) + |s.slots| && Freed(s) <= s.taken
  {
  }

  lemma CompareInv(s: State)
    requires Inv(s) && Bounds(s) && Enabled(s, RecvCompare)
    ensures RecvStep(s, Do(s, RecvCompare))
  {
    hide Verdict, Ix, Mutex, AskOk, ProcOk, SlotAt, SlotsOk;
    SlotHere(s, s.decided);
    RecvSlots(s, Do(s, RecvCompare));
  }

  lemma ScanInv(s: State)
    requires Inv(s) && Bounds(s) && Enabled(s, RecvScan)
    ensures RecvStep(s, Do(s, RecvScan))
  {
    hide Verdict, Ix, Mutex, AskOk, ProcOk, SlotAt, SlotsOk;
    SlotHere(s, s.recv.j);
    RecvSlots(s, Do(s, RecvScan));
  }

  lemma OnwardInv(s: State)
    requires Inv(s) && Bounds(s) && Enabled(s, RecvOnward)
    ensures RecvStep(s, Do(s, RecvOnward))
  {
    hide Verdict, Ix, Mutex, AskOk, ProcOk, SlotAt, SlotsOk;
    ScanStep(s);
    RecvSlots(s, Do(s, RecvOnward));
  }

  /** Short of the query sought, the scan neither wraps twice nor meets tail. */
  lemma ScanStep(s: State)
    requires Counts(s) && Pointers(s) && RecvOk(s) && s.recv.Onward?
    ensures var n, pc := |s.slots|, s.recv;
            && pc.q < n && Next(pc.q, n) == Ix(pc.j + 1, n) && Next(pc.q, n) != s.tail
            && !(n <= pc.q + 1 && pc.looped)
            && (pc.looped || n <= pc.q + 1 <==> Ix(pc.j + 1, n) < Ix(s.decided, n))
  {
    var n, d, j := |s.slots|, s.decided, s.recv.j;
    ScanPlace(s);
    TailAhead(s);
    assert Ix(j + 1, n) == Next(Ix(j, n), n);
    hide *;
    IxPlus(d, j - d, n);
    IxPlus(d, j + 1 - d, n);
    IxDistinct(j + 1, |s.wire|, n);
    IxDistinct(j + 1, |s.cbs|, n);
  }

  lemma ScanPlace(s: State)
    requires Counts(s) && RecvOk(s) && s.recv.Onward?
    ensures var n, pc := |s.slots|, s.recv;
            && s.decided <= pc.j && pc.j + 1 < |s.wire| <= |s.cbs| <= s.decided + n && n > 0
            && pc.q == Ix(pc.j, n) && (pc.looped <==> Ix(pc.j, n) < Ix(s.decided, n))
  {
    hide Verdict, Ix;
  }

  /** tail stands after the written queries, or one further, or past the end about to wrap. */
  lemma TailAhead(s: State)
    requires Counts(s) && Pointers(s)
    ensures s.tail == Ix(|s.wire|, |s.slots|) || s.tail == |s.slots|
            || (s.tail == Ix(|s.cbs|, |s.slots|) && |s.cbs| == |s.wire| + 1)
  {
    if Unwritten(Asker(s)) {
      assert Ix(|s.cbs|, |s.slots|) == Next(Ix(|s.cbs| - 1, |s.slots|), |s.slots|);
    }
  }

  lemma SkipInv(s: State)
    requires Inv(s) && Bounds(s) && Enabled(s, RecvSkip)
    ensures RecvStep(s, Do(s, RecvSkip))
  {
    hide Verdict, Ix, Mutex, AskOk, ProcOk, SlotAt, SlotsOk;
    var t := Do(s, RecvSkip);
    IxDistinct(s.decided, s.recv.m.id - 1, |s.slots|);
    SlotHere(s, s.decided);
    if s.decided == s.recv.m.id - 1 {
      RecvSlots(s, t);
    } else {
      VerdictNow(s);
      assert t.slots == s.slots[s.deck := t.slots[s.deck]];
      DeckSlots(s, t, t.slots[s.deck]);
    }
  }

  lemma SkipMarkInv(s: State)
    requires Inv(s) && Bounds(s) && Enabled(s, RecvSkipMark)
    ensures RecvStep(s, Do(s, RecvSkipMark))
  {
    hide Verdict, Ix, Mutex, AskOk, ProcOk, SlotAt, SlotsOk;
    var t := Do(s, RecvSkipMark);
    SlotHere(s, s.decided);
    VerdictNow(s);
    DeckSlots(s, t, t.slots[s.deck]);
  }

  lemma CheckInv(s: State)
    requires Inv(s) && Bounds(s) && Enabled(s, RecvCheck)
    ensures RecvStep(s, Do(s, RecvCheck))
  {
    hide Verdict, Ix, Mutex, AskOk, ProcOk, SlotAt, SlotsOk;
    SlotHere(s, s.decided);
    RecvSlots(s, Do(s, RecvCheck));
  }

  lemma FillInv(s: State)
    requires Inv(s) && Bounds(s) && Enabled(s, RecvFill)
    ensures RecvStep(s, Do(s, RecvFill))
  {
    hide Verdict, Ix, Mutex, AskOk, ProcOk, SlotAt, SlotsOk;
    var t := Do(s, RecvFill);
    SlotHere(s, s.decided);
    DeckSlots(s, t, t.slots[s.recv.q]);
  }

  lemma MarkInv(s: State)
    requires Inv(s) && Bounds(s) && Enabled(s, RecvMark)
    ensures RecvStep(s, Do(s, RecvMark))
  {
    hide Verdict, Ix, Mutex, AskOk, ProcOk, SlotAt, SlotsOk;
    var t := Do(s, RecvMark);
    SlotHere(s, s.decided);
    VerdictNow(s);
    DeckSlots(s, t, t.slots[s.recv.q]);
  }

  lemma DeckNext(s: State)
    requires Counts(s) && s.decided > 0
    ensures Ix(s.decided, |s.slots|) == Next(Ix(s.decided - 1, |s.slots|), |s.slots|)
  {
  }

  lemma SkipMoveInv(s: State)
    requires Inv(s) && Bounds(s) && Enabled(s, RecvSkipMove)
    ensures RecvStep(s, Do(s, RecvSkipMove))
  {
    DeckNext(s);
    hide Verdict, Ix, Mutex, AskOk, ProcOk, SlotAt, SlotsOk, FillingSlot;
    RecvSlots(s, Do(s, RecvSkipMove));
  }

  lemma MoveInv(s: State)
    requires Inv(s) && Bounds(s) && Enabled(s, RecvMove)
    ensures RecvStep(s, Do(s, RecvMove))
  {
    DeckNext(s);
    hide Verdict, Ix, Mutex, AskOk, ProcOk, SlotAt, SlotsOk, FillingSlot;
    RecvSlots(s, Do(s, RecvMove));
  }

  /** Every atomic step of every thread keeps the invariant, while responses arrive in order. */
  lemma StepInv(s: State, a: Action)
    requires Inv(s) && Enabled(s, a) && Orderly(s, a)
    ensures Bounds(s) && Inv(Do(s, a))
  {
    hide Inv, Do, Bounds, Enabled, Orderly;
    InvBounds(s);
    if Asks(a) {
      AskInv(s, a);
    } else if Receives(a) {
      RecvInv(s, a);
    } else {
      ProcInv(s, a);
    }
  }
}
