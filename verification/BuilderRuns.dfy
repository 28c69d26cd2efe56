/** Whole runs of builder calls: what any run finishes as, and where the storage and depth limits are. */
module BuilderRuns {
  import opened Bytes
  import opened Trees
  import opened Wire
  import opened Zippers
  import opened Builders
  import O = Ojcs
  import M = Messages
  import T = Times

  // ---- the message a run finishes with ----

  function ZeroGaps(n: nat): (g: seq<seq<byte>>)
    ensures |g| == n && forall i :: 0 <= i < n ==> |g[i]| == 4
  {
    seq(n, i => Zeros(4))
  }

  /** The bytes in the buffer, whatever the unfilled lengths are. */
  function SizeOf(z: Zipper): nat {
    |Spread(z, ZeroGaps(|z.open|))|
  }

  lemma {:induction false} SizeAnyGaps(z: Zipper, gaps: seq<seq<byte>>)
    requires Gaps(z, gaps)
    ensures |Spread(z, gaps)| == SizeOf(z)
  {
    if z.open == [] {
    } else {
      var z0 := Zipper(None, z.open);
      SpreadSize(z, gaps);
      SpreadSize(z, ZeroGaps(|z.open|));
    }
  }

  lemma AddSize(z: Zipper, key: Option<seq<byte>>, v: Val)
    requires CheckKey(z, key) == OK
    ensures SizeOf(Add(z, key, v)) == SizeOf(z) + |EncodeLabel(key)| + |Encode(v)|
  {
    hide *;
    var g := ZeroGaps(|z.open|);
    ZeroGapsFit(z);
    SpreadAdd(z, g, key, v);
    SizeAnyGaps(z, g);
    SizeAnyGaps(Add(z, key, v), g);
  }

  lemma ZeroGapsFit(z: Zipper)
    ensures Gaps(z, ZeroGaps(|z.open|))
  {
  }

  lemma OpenedSize(z: Zipper, key: Option<seq<byte>>, kind: Kind)
    requires Ok(z) && CheckKey(z, key) == OK
    ensures SizeOf(Zipper(None, z.open + [Hole(key, kind, [])])) == SizeOf(z) + |EncodeLabel(key)| + 5
  {
    var g := ZeroGaps(|z.open|);
    var gap := Zeros(4);
    ZeroGapsFit(z);
    SpreadOpen(z, g, key, kind, gap);
    hide Spread, Gaps;
    SizeAnyGaps(z, g);
    SizeAnyGaps(Zipper(None, z.open + [Hole(key, kind, [])]), g + [gap]);
  }

  lemma ClosedSize(z: Zipper)
    requires Ok(z) && z.open != []
    ensures SizeOf(CloseLast(z)) == SizeOf(z)
    ensures |EncodeItems(Last(z.open).items)| < SizeOf(z)
  {
    var g := ZeroGaps(|z.open|);
    ZeroGapsFit(z);
    SpreadClose(z, g);
    SpreadUnfold(z, g);
    hide Spread, Gaps, EncodeItems, CloseLast, TopOffset, BE;
    SizeAnyGaps(z, g);
    SizeAnyGaps(CloseLast(z), Front(g));
  }

  /** Each call adds its extent to the message. */
  lemma SizeStep(z: Zipper, op: Op)
    requires Ok(z)
    ensures SizeOf(Apply(z, op).0) == SizeOf(z) + Extent(z, op)
  {
    hide SizeOf, Add, CloseLast, EncodeLabel, EncodeScalar;
    match op
    case PushScalar(key, x) =>
      if CheckKey(z, key) == OK {
        AddSize(z, key, Leaf(x));
      }
    case PushEncoded(key, v) =>
      if CheckKey(z, key) == OK {
        AddSize(z, key, v);
      }
    case PushContainer(key, kind) =>
      if CheckKey(z, key) == OK {
        OpenedSize(z, key, kind);
      }
    case PopOp =>
      if z.open != [] {
        ClosedSize(z);
      }
  }

  lemma {:induction false} RunGrows(z: Zipper, ops: seq<Op>)
    requires Ok(z)
    ensures SizeOf(RunOps(z, ops)) >= SizeOf(z)
    decreases |ops|
  {
    hide SizeOf, Apply, Extent;
    if ops != [] {
      SizeStep(z, ops[0]);
      ApplyOk(z, ops[0]);
      RunGrows(Apply(z, ops[0]).0, ops[1..]);
    }
  }

  // ---- the storage over a run ----

  /** The capacity after a list of calls. */
  function CapRun(z: Zipper, cap: nat, ops: seq<Op>, assured: bool): nat
    decreases |ops|
  {
    if ops == [] then cap
    else CapRun(Apply(z, ops[0]).0, CapAfter(z, SizeOf(z), cap, ops[0], assured), ops[1..], assured)
  }

  /** After every call cur is inside the storage. */
  predicate Within(z: Zipper, cap: nat, ops: seq<Op>, assured: bool)
    decreases |ops|
  {
    ops == []
    || var z', cap' := Apply(z, ops[0]).0, CapAfter(z, SizeOf(z), cap, ops[0], assured);
       SizeOf(z') <= cap' && Within(z', cap', ops[1..], assured)
  }

  /** An accepted push_array finds five bytes after its key. */
  predicate ArrayFits(z: Zipper, cap: nat, op: Op) {
    op.PushContainer? && op.kind.Arr? && Apply(z, op).1 == OK ==>
      SizeOf(z) + |EncodeLabel(op.key)| + 5 <= CapAfterKey(cap, SizeOf(z), op.key)
  }

  predicate ArraysFit(z: Zipper, cap: nat, ops: seq<Op>)
    decreases |ops|
  {
    ops == []
    || (ArrayFits(z, cap, ops[0])
        && ArraysFit(Apply(z, ops[0]).0, CapAfter(z, SizeOf(z), cap, ops[0], false), ops[1..]))
  }

  /** One call stays in the storage unless it is a push_array without room. */
  lemma StepWithin(z: Zipper, cap: nat, op: Op, assured: bool)
    requires Ok(z) && SizeOf(z) <= cap
    ensures SizeOf(Apply(z, op).0) <= CapAfter(z, SizeOf(z), cap, op, assured) <==> assured || ArrayFits(z, cap, op)
    ensures cap <= CapAfter(z, SizeOf(z), cap, op, assured)
  {
    SizeStep(z, op);
    hide SizeOf, Encode, EncodeLabel, EncodeScalar, EncodeKey, Add, CloseLast;
    if !op.PopOp? {
      KeyFitsNeed(op.key);
      assert |EncodeLabel(op.key)| == 0 || op.key.Some? by { NoLabel(op.key); }
    }
    if op.PushScalar? {
      ReserveFits(op.x);
    }
  }

  lemma NoLabel(key: Option<seq<byte>>)
    ensures key.None? ==> |EncodeLabel(key)| == 0
  {
  }

  /** From any capacity, over any calls: cur never leaves the storage iff every accepted push_array found room. */
  lemma {:induction false} WithinExactly(z: Zipper, cap: nat, ops: seq<Op>)
    requires Ok(z) && SizeOf(z) <= cap
    ensures Within(z, cap, ops, false) <==> ArraysFit(z, cap, ops)
    decreases |ops|
  {
    if ops != [] {
      hide SizeOf, Apply, CapAfter, ArrayFits;
      StepWithin(z, cap, ops[0], false);
      ApplyOk(z, ops[0]);
      if ArrayFits(z, cap, ops[0]) {
        WithinExactly(Apply(z, ops[0]).0, CapAfter(z, SizeOf(z), cap, ops[0], false), ops[1..]);
      }
    }
  }

  /** With builder_assure in push_array the storage always suffices. */
  lemma {:induction false} AssuredWithin(z: Zipper, cap: nat, ops: seq<Op>)
    requires Ok(z) && SizeOf(z) <= cap
    ensures Within(z, cap, ops, true)
    decreases |ops|
  {
    if ops != [] {
      hide SizeOf, Apply, CapAfter;
      StepWithin(z, cap, ops[0], true);
      ApplyOk(z, ops[0]);
      AssuredWithin(Apply(z, ops[0]).0, CapAfter(z, SizeOf(z), cap, ops[0], true), ops[1..]);
    }
  }

  /** No more than 512 containers are ever open iff every call that opens one finds a stack entry free. */
  predicate NeverDeeper(z: Zipper, ops: seq<Op>)
    decreases |ops|
  {
    |z.open| <= MAX_DEPTH && (ops == [] || NeverDeeper(Apply(z, ops[0]).0, ops[1..]))
  }

  lemma {:induction false} StackExactly(z: Zipper, ops: seq<Op>)
    requires Ok(z) && |z.open| <= MAX_DEPTH
    ensures Shallow(z, ops) <==> NeverDeeper(z, ops)
    decreases |ops|
  {
    if ops != [] {
      ApplyOk(z, ops[0]);
      if StackHolds(z, ops[0]) {
        StackExactly(Apply(z, ops[0]).0, ops[1..]);
      }
    }
  }

  /** The calls stay inside the storage and the stack, and a lent buffer is never outgrown. */
  predicate InMemory(cap: nat, own: bool, ops: seq<Op>) {
    && HEAD <= cap && ArraysFit(Empty(), cap, ops) && Shallow(Empty(), ops)
    && (own || CapRun(Empty(), cap, ops, false) == cap)
  }

  lemma {:induction false} FinishedSize(z: Zipper)
    requires Ok(z)
    ensures |Finished(z)| == SizeOf(z)
    decreases |z.open|
  {
    if z.open == [] {
      FinishedSpread(z);
      SizeAnyGaps(z, []);
    } else {
      ClosedSize(z);
      ApplyOk(z, PopOp);
      FinishedSize(CloseLast(z));
    }
  }

  /** The values and keys a call passes fit the format. */
  predicate OpFits(op: Op) {
    match op
    case PushScalar(key, x) => WfScalar(x) && (key.Some? ==> |key.value| <= MAX_KEY)
    case PushEncoded(key, v) => Wf(v) && (key.Some? ==> |key.value| <= MAX_KEY)
    case PushContainer(key, _) => key.Some? ==> |key.value| <= MAX_KEY
    case PopOp => true
  }

  predicate HoleFits(h: Hole) {
    WfItems(h.kind, h.items) && (h.name.Some? ==> |h.name.value| <= MAX_KEY)
  }

  predicate ZipperFits(z: Zipper) {
    && (z.root.Some? ==> Wf(z.root.value))
    && forall i :: 0 <= i < |z.open| ==> HoleFits(z.open[i])
  }

  lemma AddFits(z: Zipper, key: Option<seq<byte>>, v: Val)
    requires Ok(z) && ZipperFits(z) && CheckKey(z, key) == OK
    requires Wf(v) && (key.Some? ==> |key.value| <= MAX_KEY)
    ensures ZipperFits(Add(z, key, v))
  {
    if z.open != [] {
      hide Wf;
      var h := Last(z.open);
      assert HoleFits(z.open[|z.open| - 1]);
      var h' := h.(items := h.items + [Item(key, v)]);
      assert WfItem(h.kind, Item(key, v)) by { WfItemIs(h.kind, key, v); }
      assert forall it :: it in h'.items ==> it in h.items || it == Item(key, v);
      assert HoleFits(h');
    }
  }

  lemma WfItemIs(kind: Kind, key: Option<seq<byte>>, v: Val)
    requires Wf(v) && KeyFits(kind, key) && (key.Some? ==> |key.value| <= MAX_KEY)
    ensures WfItem(kind, Item(key, v))
  {
  }

  lemma CloseFits(z: Zipper)
    requires Ok(z) && ZipperFits(z) && z.open != [] && SizeOf(z) < 0x1_0000_0000
    ensures ZipperFits(CloseLast(z))
  {
    var h := Last(z.open);
    assert HoleFits(z.open[|z.open| - 1]);
    ClosedSize(z);
    ParentReady(z);
    var z0 := Zipper(None, Front(z.open));
    assert forall i :: 0 <= i < |z0.open| ==> z0.open[i] == z.open[i];
    AddFits(z0, h.name, Close(h).val);
  }

  lemma ApplyFits(z: Zipper, op: Op)
    requires Ok(z) && ZipperFits(z) && OpFits(op) && SizeOf(z) < 0x1_0000_0000
    ensures ZipperFits(Apply(z, op).0)
  {
    match op
    case PushScalar(key, x) =>
      if CheckKey(z, key) == OK {
        AddFits(z, key, Leaf(x));
      }
    case PushEncoded(key, v) =>
      if CheckKey(z, key) == OK {
        AddFits(z, key, v);
      }
    case PushContainer(key, kind) =>
      assert HoleFits(Hole(key, kind, [])) || !OpFits(op);
    case PopOp =>
      if z.open != [] {
        CloseFits(z);
      }
  }

  lemma {:induction false} RunFits(z: Zipper, ops: seq<Op>)
    requires Ok(z) && ZipperFits(z) && (forall i :: 0 <= i < |ops| ==> OpFits(ops[i]))
    requires SizeOf(RunOps(z, ops)) < 0x1_0000_0000
    ensures Ok(RunOps(z, ops)) && ZipperFits(RunOps(z, ops))
    decreases |ops|
  {
    hide SizeOf, ZipperFits, Ok, Apply;
    if ops != [] {
      var z1 := Apply(z, ops[0]).0;
      RunGrows(z, ops);
      ApplyFits(z, ops[0]);
      ApplyOk(z, ops[0]);
      RunFits(z1, ops[1..]);
    }
  }

  lemma {:induction false} FinishFits(z: Zipper)
    requires Ok(z) && ZipperFits(z) && SizeOf(z) < 0x1_0000_0000
    ensures ZipperFits(Finish(z))
    decreases |z.open|
  {
    if z.open != [] {
      ClosedSize(z);
      CloseFits(z);
      ApplyOk(z, PopOp);
      FinishFits(CloseLast(z));
    }
  }

  /**
   * Whatever the calls, accepted or refused, as long as they stay in memory, a builder finishes either
   * with nothing but the id or with the encoding of one well-formed value, whose length opo_msg_bsize
   * reads off its first bytes, inside the storage.
   */
  lemma AnyRunFinishes(cap: nat, own: bool, ops: seq<Op>)
    requires InMemory(cap, own, ops)
    requires forall i :: 0 <= i < |ops| ==> OpFits(ops[i])
    requires SizeOf(RunOps(Empty(), ops)) < 0x1_0000_0000
    ensures var z := RunOps(Empty(), ops);
            && |Finished(z)| <= CapRun(Empty(), cap, ops, false)
            && if z == Empty() then Finished(z) == Zeros(HEAD)
               else
                 && Finish(z).root.Some? && Wf(Finish(z).root.value)
                 && Finished(z) == Zeros(HEAD) + Encode(Finish(z).root.value)
                 && HeaderFits(Finished(z), HEAD) && HEAD + BSize(Finished(z), HEAD) == |Finished(z)|
  {
    MemoryIs(cap, own, ops);
    hide *;
    var z := RunOps(Empty(), ops);
    EmptyFits();
    WithinExactly(Empty(), cap, ops);
    RunOk(Empty(), ops);
    RunInside(Empty(), cap, ops);
    RunFits(Empty(), ops);
    FinishFits(z);
    FinishedSize(z);
    FinishClosed(z);
    FinishedReads(z);
  }

  lemma MemoryIs(cap: nat, own: bool, ops: seq<Op>)
    requires InMemory(cap, own, ops)
    ensures HEAD <= cap && ArraysFit(Empty(), cap, ops)
  {
  }

  lemma {:induction false} RunInside(z: Zipper, cap: nat, ops: seq<Op>)
    requires SizeOf(z) <= cap && Within(z, cap, ops, false)
    ensures SizeOf(RunOps(z, ops)) <= CapRun(z, cap, ops, false)
    decreases |ops|
  {
    hide SizeOf, Apply, CapAfter;
    if ops != [] {
      RunInside(Apply(z, ops[0]).0, CapAfter(z, SizeOf(z), cap, ops[0], false), ops[1..]);
    }
  }

  lemma EmptyFits()
    ensures Ok(Empty()) && ZipperFits(Empty()) && SizeOf(Empty()) == HEAD
    ensures Finished(Empty()) == Zeros(HEAD)
  {
  }

  lemma FinishedReads(z: Zipper)
    requires ZipperFits(Finish(z))
    ensures Finish(z).root.Some? ==>
              && Wf(Finish(z).root.value)
              && Finished(z) == Zeros(HEAD) + Encode(Finish(z).root.value)
              && HeaderFits(Finished(z), HEAD) && HEAD + BSize(Finished(z), HEAD) == |Finished(z)|
  {
    if Finish(z).root.Some? {
      var v := Finish(z).root.value;
      assert Finished(z) == Zeros(HEAD) + Encode(v);
      hide Finish, Encode, BSize, Wf;
      assert At(Finished(z), HEAD, Encode(v));
      SelfDelimiting(Finished(z), HEAD, v);
    }
  }

  // ---- the two encoders agree ----

  lemma {:induction false} ClassifiedKeyed(cal: T.Calendar, o: O.Ojc)
    requires O.OjcFits(o)
    ensures Keyed(O.ToVal(cal, o))
    decreases o
  {
    if o.Node? {
      var vs := O.ToVal(cal, o).items;
      forall i | 0 <= i < |vs|
        ensures KeyedItem(o.kind, vs[i])
      {
        assert O.ItemFits(o.kind, o.items[i]);
        assert o.items[i].val < o.items[i] && o.items[i] < o;
        ClassifiedKeyed(cal, o.items[i].val);
      }
    }
  }

  /**
   * Driving a builder over an OjC value, with any choice of subtrees spliced in already encoded, from
   * owned storage of any capacity in which every push_array finds room: all stays in memory, and what
   * comes out is byte for byte what opo_ojc_to_msg gives, a zero id and the encoding of the classified value.
   */
  lemma EncodersAgree(cal: T.Calendar, o: O.Ojc, splice: Val -> bool, cap: nat)
    requires O.OjcFits(o) && Depth(o) <= MAX_DEPTH
    requires HEAD <= cap && ArraysFit(Empty(), cap, Script(O.ToVal(cal, o), None, splice))
    ensures var ops := Script(O.ToVal(cal, o), None, splice);
            && AllAccepted(Empty(), ops)
            && InMemory(cap, true, ops) && Within(Empty(), cap, ops, false)
            && Finished(RunOps(Empty(), ops)) == Zeros(HEAD) + Encode(O.ToVal(cal, o))
  {
    var ops := Script(O.ToVal(cal, o), None, splice);
    EmptyFits();
    ScriptEncodes(cal, o, splice);
    hide Script, SizeOf, ArraysFit, Within, Shallow;
    WithinExactly(Empty(), cap, ops);
  }

  lemma ScriptEncodes(cal: T.Calendar, o: O.Ojc, splice: Val -> bool)
    requires O.OjcFits(o) && Depth(o) <= MAX_DEPTH
    ensures var ops := Script(O.ToVal(cal, o), None, splice);
            && AllAccepted(Empty(), ops) && Shallow(Empty(), ops)
            && Finished(RunOps(Empty(), ops)) == Zeros(HEAD) + Encode(O.ToVal(cal, o))
  {
    ClassifiedKeyed(cal, o);
    O.MapDepth((x: O.OjcLeaf) => O.Classify(cal, x), o);
    DrivenBuilderEncodes(O.ToVal(cal, o), splice);
  }

  /** With builder_assure in push_array this needs no room to start with. */
  lemma AssuredEncodersAgree(cal: T.Calendar, o: O.Ojc, splice: Val -> bool, cap: nat)
    requires O.OjcFits(o) && Depth(o) <= MAX_DEPTH && HEAD <= cap
    ensures var ops := Script(O.ToVal(cal, o), None, splice);
            && AllAccepted(Empty(), ops) && Shallow(Empty(), ops) && Within(Empty(), cap, ops, true)
            && Finished(RunOps(Empty(), ops)) == Zeros(HEAD) + Encode(O.ToVal(cal, o))
  {
    EmptyFits();
    ScriptEncodes(cal, o, splice);
    hide Script, SizeOf, Within, Shallow;
    AssuredWithin(Empty(), cap, Script(O.ToVal(cal, o), None, splice));
  }

  // ---- the depth limit ----

  function Arrays(n: nat): seq<Op> {
    seq(n, i => PushContainer(None, Arr))
  }

  function Nest(n: nat): Zipper {
    Zipper(None, seq(n, i => Hole(None, Arr, [])))
  }

  lemma {:induction false} NestedArrays(n: nat)
    requires n <= MAX_DEPTH + 1
    ensures RunOps(Empty(), Arrays(n)) == Nest(n) && AllAccepted(Empty(), Arrays(n))
    ensures OpenSize(Nest(n).open) == HEAD + 5 * n
    decreases n
  {
    if n == 0 {
      assert Nest(0) == Empty();
    } else {
      NestedArrays(n - 1);
      var op := PushContainer(None, Arr);
      assert Arrays(n) == Arrays(n - 1) + [op];
      RunAppend(Empty(), Arrays(n - 1), [op]);
      RunOne(Nest(n - 1), op);
      assert Nest(n).open == Nest(n - 1).open + [Hole(None, Arr, [])];
      assert Front(Nest(n).open) == Nest(n - 1).open;
      assert HoleSize(Hole(None, Arr, [])) == 5;
    }
  }

  /**
   * The 512-entry offset stack: an accepted push writes slot |open|, which is inside the array
   * exactly when fewer than 512 containers are open; 512 open ones are still accepted, 513 are not.
   */
  lemma StackSlotInside(z: Zipper, key: Option<seq<byte>>, kind: Kind)
    requires Ok(z) && Apply(z, PushContainer(key, kind)).1 == OK
    ensures |z.open| <= MAX_DEPTH
    ensures |Offsets(Apply(z, PushContainer(key, kind)).0.open)| <= MAX_DEPTH <==> |z.open| < MAX_DEPTH
  {
  }

  lemma NestTop()
    ensures Apply(Nest(512), PushContainer(None, Arr)) == (Nest(513), OK)
    ensures Apply(Nest(513), PushContainer(None, Arr)) == (Nest(513), OVERFLOW)
  {
    assert Nest(512).open + [Hole(None, Arr, [])] == Nest(513).open;
  }

  lemma StackOverrun()
    ensures RunOps(Empty(), Arrays(512)) == Nest(512)
    ensures Apply(Nest(512), PushContainer(None, Arr)) == (Nest(513), OK)
    ensures Apply(Nest(513), PushContainer(None, Arr)) == (Nest(513), OVERFLOW)
  {
    hide Nest, Arrays, RunOps, AllAccepted;
    NestedArrays(512);
    NestTop();
  }

  // ---- the storage limits ----

  /** Nested push_array calls leave a default 1024 byte buffer from the 204th on, all accepted. */
  lemma ArrayOverrun(n: nat)
    requires n <= MAX_DEPTH
    ensures AllAccepted(Empty(), Arrays(n))
    ensures Within(Empty(), MIN_MSG_BUF, Arrays(n), false) <==> n <= 203
  {
    NestedArrays(n);
    assert Nest(0) == Empty();
    ArraysFrom(0, n);
  }

  lemma WithinCons(z: Zipper, cap: nat, op: Op, rest: seq<Op>)
    ensures var z', cap' := Apply(z, op).0, CapAfter(z, SizeOf(z), cap, op, false);
            Within(z, cap, [op] + rest, false) <==> SizeOf(z') <= cap' && Within(z', cap', rest, false)
  {
    hide SizeOf, Apply, CapAfter;
    assert ([op] + rest)[1..] == rest;
  }

  lemma ArraysCons(n: nat)
    ensures n == 0 ==> Arrays(n) == []
    ensures n > 0 ==> Arrays(n) == [PushContainer(None, Arr)] + Arrays(n - 1)
  {
  }

  lemma {:induction false} ArraysFrom(k: nat, n: nat)
    requires k + n <= MAX_DEPTH && HEAD + 5 * k <= MIN_MSG_BUF
    ensures Within(Nest(k), MIN_MSG_BUF, Arrays(n), false) <==> HEAD + 5 * (k + n) <= MIN_MSG_BUF
    decreases n
  {
    hide SizeOf, Apply, Nest, Arrays, CapAfter;
    ArraysCons(n);
    if n > 0 {
      hide Within;
      WithinCons(Nest(k), MIN_MSG_BUF, PushContainer(None, Arr), Arrays(n - 1));
      NestSize(k);
      NestSize(k + 1);
      NestStep(k, MIN_MSG_BUF);
      if HEAD + 5 * (k + 1) <= MIN_MSG_BUF {
        ArraysFrom(k + 1, n - 1);
      }
    }
  }

  lemma NestStep(k: nat, cap: nat)
    requires k < MAX_DEPTH
    ensures Apply(Nest(k), PushContainer(None, Arr)) == (Nest(k + 1), OK)
    ensures CapAfter(Nest(k), SizeOf(Nest(k)), cap, PushContainer(None, Arr), false) == cap
  {
    assert Nest(k).open + [Hole(None, Arr, [])] == Nest(k + 1).open;
  }

  lemma NestSize(k: nat)
    requires k <= MAX_DEPTH
    ensures SizeOf(Nest(k)) == HEAD + 5 * k
  {
    NestedArrays(k);
    SpreadSize(Nest(k), ZeroGaps(k));
  }

  /** The storage after builder_assure: realloc keeps the bytes, malloc delivers `given` ones. */
  function Assured(own: bool, bytes: seq<byte>, cur: nat, size: nat, given: seq<byte>): (r: seq<byte>)
    requires cur <= |bytes| && |given| == Grown(|bytes|, cur, size)
  {
    if |bytes| <= cur + size then
      if own then bytes + given[|bytes|..] else given
    else bytes
  }

  /** The message survives builder_assure, whatever malloc delivers, iff the buffer is owned or roomy. */
  lemma AssureKeepsMessage(own: bool, bytes: seq<byte>, cur: nat, size: nat)
    requires HEAD <= cur <= |bytes|
    ensures (forall given: seq<byte> :: |given| == Grown(|bytes|, cur, size) ==>
               Assured(own, bytes, cur, size, given)[..cur] == bytes[..cur])
        <==> own || cur + size < |bytes|
  {
    if !own && |bytes| <= cur + size {
      var other: byte := if bytes[0] == 0 then 1 else 0;
      var junk: seq<byte> := seq(Grown(|bytes|, cur, size), i => other);
      assert Assured(own, bytes, cur, size, junk)[..cur][0] != bytes[..cur][0];
    }
  }

  // ---- a caller driving the builder over a value: runs in pieces ----

  lemma {:induction false} StorageAppend(z: Zipper, cap: nat, a: seq<Op>, b: seq<Op>)
    ensures CapRun(z, cap, a + b, false) == CapRun(RunOps(z, a), CapRun(z, cap, a, false), b, false)
    ensures ArraysFit(z, cap, a + b)
        <==> ArraysFit(z, cap, a) && ArraysFit(RunOps(z, a), CapRun(z, cap, a, false), b)
    decreases |a|
  {
    if a == [] {
      assert a + b == b;
    } else {
      hide Apply, CapAfter, ArrayFits, SizeOf;
      assert (a + b)[1..] == a[1..] + b && (a + b)[0] == a[0];
      StorageAppend(Apply(z, a[0]).0, CapAfter(z, SizeOf(z), cap, a[0], false), a[1..], b);
    }
  }

  lemma StorageOne(z: Zipper, cap: nat, op: Op)
    ensures CapRun(z, cap, [op], false) == CapAfter(z, SizeOf(z), cap, op, false)
    ensures ArraysFit(z, cap, [op]) <==> ArrayFits(z, cap, op)
    ensures RunOps(z, [op]) == Apply(z, op).0
  {
    hide Apply, CapAfter, ArrayFits, SizeOf;
    assert [op][1..] == [];
    assert ArraysFit(Apply(z, op).0, CapAfter(z, SizeOf(z), cap, op, false), []);
    assert RunOps(Apply(z, op).0, []) == Apply(z, op).0;
    assert CapRun(Apply(z, op).0, CapAfter(z, SizeOf(z), cap, op, false), [], false) == CapAfter(z, SizeOf(z), cap, op, false);
  }

  /** Nothing is spliced in. */
  function Whole(): Val -> bool { _ => false }

  /** The calls for a value. */
  function Calls(v: Val, key: Option<seq<byte>>): seq<Op> {
    Script(v, key, Whole())
  }

  function CallsFor(items: seq<Member>): seq<Op> {
    ScriptItems(items, Whole())
  }

  /** Every scalar is one the push functions take; push_double prints at most 63 characters. */
  predicate Pushable(v: Val)
    decreases v
  {
    match v
    case Leaf(x) => WfScalar(x) && (x.Dec? ==> |x.text| < 64)
    case Node(_, items) => forall i :: 0 <= i < |items| ==> PushableItem(items[i])
  }

  predicate PushableItem(it: Member)
    decreases it
  {
    Pushable(it.val)
  }

  lemma SizeIsCur(b: Builder)
    requires b.Valid()
    ensures SizeOf(b.z) == b.cur
  {
    SizeAnyGaps(b.z, b.gaps);
  }

  /** The call for a scalar. */
  method DriveScalar(b: Builder, x: Scalar, key: Option<seq<byte>>)
    requires b.Valid() && b.own && CheckKey(b.z, key) == OK && Pushable(Leaf(x))
    modifies b, b.buf
    ensures b.Valid() && b.own && (b.buf == old(b.buf) || fresh(b.buf))
    ensures b.z == Add(old(b.z), key, Leaf(x))
    ensures b.buf.Length == CapAfter(old(b.z), old(b.cur), old(b.buf.Length), PushScalar(key, x), false)
  {
    hide Add, CapAfter, Extent, CheckKey, Encode, EncodeScalar, Spread;
    var code;
    match x {
      case Null => code := b.PushNull(key);
      case Bool(v) => code := b.PushBool(v, key);
      case Int(i) => code := b.PushInt(i, key);
      case Str(s) => code := b.PushString(s, key);
      case Dec(text) => code := b.PushDouble(text, key);
      case Uuid(hi, lo) => code := b.PushUuid(hi, lo, key);
      case Time(ns) => code := b.PushTime(ns, key);
    }
  }

  lemma NodeCalls(z: Zipper, cap: nat, v: Val, key: Option<seq<byte>>)
    requires v.Node? && Ok(z) && Keyed(v) && CheckKey(z, key) == OK && |z.open| + Depth(v) <= MAX_DEPTH
    requires ArraysFit(z, cap, Calls(v, key))
    ensures var op := PushContainer(key, v.kind);
            var z1, cap1 := Zipper(None, z.open + [Hole(key, v.kind, [])]), CapAfter(z, SizeOf(z), cap, op, false);
            && Apply(z, op) == (z1, OK) && ArrayFits(z, cap, op) && Ok(z1)
            && ArraysFit(z1, cap1, CallsFor(v.items))
            && CapRun(z, cap, Calls(v, key), false) == CapRun(z1, cap1, CallsFor(v.items), false)
  {
    var op, inner := PushContainer(key, v.kind), CallsFor(v.items);
    var z1, cap1 := Zipper(None, z.open + [Hole(key, v.kind, [])]), CapAfter(z, SizeOf(z), cap, op, false);
    var z2 := Zipper(None, z.open + [Hole(key, v.kind, v.items)]);
    assert Calls(v, key) == [op] + inner + [PopOp] by { CallsOfNode(v, key); }
    assert Apply(z, op) == (z1, OK);
    OpenedOk(z, key, v.kind);
    assert v.items[0..] == v.items && v.items[..0] == [];
    ScriptItemsBuild(z.open, key, v, 0, Whole());
    hide *;
    StorageAppend(z, cap, [op] + inner, [PopOp]);
    StorageAppend(z, cap, [op], inner);
    StorageOne(z, cap, op);
    RunAppend(z, [op], inner);
    StorageOne(z2, CapRun(z1, cap1, inner, false), PopOp);
    PopKeepsCap(z2, CapRun(z1, cap1, inner, false));
  }

  lemma CallsOfNode(v: Val, key: Option<seq<byte>>)
    requires v.Node?
    ensures Calls(v, key) == [PushContainer(key, v.kind)] + CallsFor(v.items) + [PopOp]
  {
  }

  lemma PopKeepsCap(z: Zipper, cap: nat)
    ensures CapAfter(z, SizeOf(z), cap, PopOp, false) == cap
  {
    hide SizeOf;
  }

  lemma ItemCalls(z: Zipper, cap: nat, v: Val, i: nat, open: seq<Hole>, key: Option<seq<byte>>)
    requires v.Node? && i < |v.items| && Keyed(v) && Ok(z)
    requires z == Zipper(None, open + [Hole(key, v.kind, v.items[..i])]) && |open| + Depth(v) <= MAX_DEPTH
    requires ArraysFit(z, cap, CallsFor(v.items[i..]))
    ensures var it := v.items[i];
            && Keyed(it.val) && CheckKey(z, it.key) == OK && |z.open| + Depth(it.val) <= MAX_DEPTH
            && ArraysFit(z, cap, Calls(it.val, it.key))
            && Add(z, it.key, it.val) == Zipper(None, open + [Hole(key, v.kind, v.items[..i + 1])])
            && var cap' := CapRun(z, cap, Calls(it.val, it.key), false);
               && ArraysFit(Add(z, it.key, it.val), cap', CallsFor(v.items[i + 1..]))
               && CapRun(z, cap, CallsFor(v.items[i..]), false)
                  == CapRun(Add(z, it.key, it.val), cap', CallsFor(v.items[i + 1..]), false)
  {
    var it := v.items[i];
    ItemReady(z, v, i, open, key);
    assert v.items[i..][1..] == v.items[i + 1..];
    assert CallsFor(v.items[i..]) == Calls(it.val, it.key) + CallsFor(v.items[i + 1..]) by {
      hide *;
      CallsCons(v.items, i);
    }
    hide *;
    ScriptBuilds(z, it.val, it.key, Whole());
    CallsAre(it.val, it.key);
    StorageAppend(z, cap, Calls(it.val, it.key), CallsFor(v.items[i + 1..]));
  }

  lemma CallsAre(v: Val, key: Option<seq<byte>>)
    ensures Calls(v, key) == Script(v, key, Whole())
  {
  }

  lemma CallsCons(items: seq<Member>, i: nat)
    requires i < |items|
    ensures CallsFor(items[i..]) == Calls(items[i].val, items[i].key) + CallsFor(items[i + 1..])
  {
    assert items[i..][1..] == items[i + 1..];
    assert items[i..][0] == items[i];
    assert ScriptItem(items[i], Whole()) == Calls(items[i].val, items[i].key);
  }

  lemma ItemReady(z: Zipper, v: Val, i: nat, open: seq<Hole>, key: Option<seq<byte>>)
    requires v.Node? && i < |v.items| && Keyed(v) && |open| + Depth(v) <= MAX_DEPTH
    requires z == Zipper(None, open + [Hole(key, v.kind, v.items[..i])])
    ensures var it := v.items[i];
            && Keyed(it.val) && CheckKey(z, it.key) == OK && |z.open| + Depth(it.val) <= MAX_DEPTH
            && Add(z, it.key, it.val) == Zipper(None, open + [Hole(key, v.kind, v.items[..i + 1])])
  {
    var it := v.items[i];
    assert KeyedItem(v.kind, it);
    DepthItemsBounds(v.items, i);
    assert Front(z.open) == open;
    assert v.items[..i + 1] == v.items[..i] + [it];
  }

  /** Push a value call by call, where every push_array finds room: the builder holds it, with the storage the run says. */
  method Drive(b: Builder, v: Val, key: Option<seq<byte>>)
    requires b.Valid() && b.own && CheckKey(b.z, key) == OK && Pushable(v) && Keyed(v)
    requires |b.z.open| + Depth(v) <= MAX_DEPTH && ArraysFit(b.z, b.buf.Length, Calls(v, key))
    modifies b, b.buf, b.stack
    ensures b.Valid() && b.own && (b.buf == old(b.buf) || fresh(b.buf))
    ensures b.z == Add(old(b.z), key, v)
    ensures b.buf.Length == CapRun(old(b.z), old(b.buf.Length), Calls(v, key), false)
    decreases v
  {
    hide Add, CapAfter, Extent, CheckKey, Encode, EncodeScalar, Spread, Calls, CallsFor, ArraysFit, CapRun, Apply,
      RunOps, SizeOf, Ok, ArrayFits;
    ghost var z0, cap0 := b.z, b.buf.Length;
    SizeIsCur(b);
    ValidOk(b);
    if v.Leaf? {
      CallsOfLeaf(v, key);
      StorageOne(z0, cap0, PushScalar(key, v.leaf));
      DriveScalar(b, v.leaf, key);
      return;
    }
    NodeCalls(z0, cap0, v, key);
    OpenCall(b, v.kind, key);
    ghost var open := z0.open;
    assert v.items[0..] == v.items && v.items[..0] == [];
    for i := 0 to |v.items|
      invariant b.Valid() && b.own && (b.buf == old(b.buf) || fresh(b.buf))
      invariant b.z == Zipper(None, open + [Hole(key, v.kind, v.items[..i])])
      invariant ArraysFit(b.z, b.buf.Length, CallsFor(v.items[i..]))
      invariant CapRun(z0, cap0, Calls(v, key), false) == CapRun(b.z, b.buf.Length, CallsFor(v.items[i..]), false)
    {
      ValidOk(b);
      ItemCalls(b.z, b.buf.Length, v, i, open, key);
      assert PushableItem(v.items[i]);
      assert v.items[i].val < v.items[i];
      Drive(b, v.items[i].val, v.items[i].key);
    }
    assert v.items[..|v.items|] == v.items && v.items[|v.items|..] == [];
    NoCalls(b.z, b.buf.Length);
    ClosesTo(b.z, z0, v, key);
    var _ := b.Pop();
  }

  lemma ValidOk(b: Builder)
    requires b.Valid()
    ensures Ok(b.z)
  {
  }

  lemma CallsOfLeaf(v: Val, key: Option<seq<byte>>)
    requires v.Leaf?
    ensures Calls(v, key) == [PushScalar(key, v.leaf)]
  {
  }

  lemma NoCalls(z: Zipper, cap: nat)
    ensures CallsFor([]) == [] && CapRun(z, cap, [], false) == cap
  {
  }

  lemma ClosesTo(z: Zipper, z0: Zipper, v: Val, key: Option<seq<byte>>)
    requires v.Node? && z == Zipper(None, z0.open + [Hole(key, v.kind, v.items)]) && CheckKey(z0, key) == OK
    ensures Apply(z, PopOp) == (Add(z0, key, v), OK)
  {
    assert Front(z.open) == z0.open;
  }

  /** The call that opens a container. */
  method OpenCall(b: Builder, kind: Kind, key: Option<seq<byte>>)
    requires b.Valid() && b.own && |b.z.open| < MAX_DEPTH
    requires CheckKey(b.z, key) == OK && ArrayFits(b.z, b.buf.Length, PushContainer(key, kind))
    requires Apply(b.z, PushContainer(key, kind)).1 == OK
    modifies b, b.buf, b.stack
    ensures b.Valid() && b.own && (b.buf == old(b.buf) || fresh(b.buf))
    ensures b.z == Apply(old(b.z), PushContainer(key, kind)).0
    ensures b.buf.Length == CapAfter(old(b.z), SizeOf(old(b.z)), old(b.buf.Length), PushContainer(key, kind), false)
  {
    SizeIsCur(b);
    hide Spread, CapAfter, Extent, Apply, CheckKey, SizeOf, EncodeLabel, CapAfterKey;
    var code;
    if kind.Obj? {
      code := b.PushObject(key);
    } else {
      code := b.PushArray(key);
    }
  }

  // ---- the two encoders side by side ----

  lemma {:induction false} OjcPushable(cal: T.Calendar, o: O.Ojc)
    requires O.OjcFits(o)
    ensures Pushable(O.ToVal(cal, o))
    decreases o
  {
    if o.Node? {
      var vs := O.ToVal(cal, o).items;
      forall i | 0 <= i < |vs|
        ensures PushableItem(vs[i])
      {
        assert O.ItemFits(o.kind, o.items[i]);
        assert o.items[i].val < o.items[i] && o.items[i] < o;
        OjcPushable(cal, o.items[i].val);
      }
    } else {
      LeafPushable(cal, o.leaf);
    }
  }

  lemma LeafPushable(cal: T.Calendar, x: O.OjcLeaf)
    requires O.LeafFits(x)
    ensures Pushable(Leaf(O.Classify(cal, x)))
  {
    M.LeafCarried(cal, x);
  }

  /** A builder driven over an OjC value and taken, and opo_ojc_to_msg: the same bytes. */
  method BothEncoders(cal: T.Calendar, o: O.Ojc, size: nat) returns (built: array<byte>, filled: array<byte>)
    requires O.OjcFits(o) && Depth(o) <= MAX_DEPTH
    requires ArraysFit(Empty(), if size < MIN_MSG_BUF then MIN_MSG_BUF else size, Calls(O.ToVal(cal, o), None))
    ensures var n := HEAD + |Encode(O.ToVal(cal, o))|;
            && n <= built.Length && n <= filled.Length
            && built[..n] == filled[..n] == Zeros(HEAD) + Encode(O.ToVal(cal, o))
  {
    hide Encode, Finish, Finished, Script, Calls, ArraysFit, Wf, Keyed, Pushable;
    filled := M.OjcToMsg(cal, o);
    built := BuildOjc(cal, o, size);
  }

  /** Build a message of an OjC value with a builder that owns its buffer. */
  method BuildOjc(cal: T.Calendar, o: O.Ojc, size: nat) returns (msg: array<byte>)
    requires O.OjcFits(o) && Depth(o) <= MAX_DEPTH
    requires ArraysFit(Empty(), if size < MIN_MSG_BUF then MIN_MSG_BUF else size, Calls(O.ToVal(cal, o), None))
    ensures var n := HEAD + |Encode(O.ToVal(cal, o))|;
            n <= msg.Length && msg[..n] == Zeros(HEAD) + Encode(O.ToVal(cal, o))
  {
    var v := O.ToVal(cal, o);
    OjcPushable(cal, o);
    ClassifiedKeyed(cal, o);
    O.MapDepth((x: O.OjcLeaf) => O.Classify(cal, x), o);
    RootOnly(v);
    hide Encode, Finish, Finished, Script, Calls, ArraysFit, Wf, Keyed, Pushable, Spread, Offsets;
    var b := new Builder(size);
    Drive(b, v, None);
    msg := b.Take();
  }

  lemma RootOnly(v: Val)
    ensures Add(Empty(), None, v) == Zipper(Some(v), [])
    ensures Finished(Zipper(Some(v), [])) == Zeros(HEAD) + Encode(v)
  {
    hide Encode;
  }
}
