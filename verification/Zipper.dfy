/**
 * What a builder means: a zipper of open containers (src/opo/builder.c:224-296). The refusals, the
 * effect of each accepted operation and the layout of the half-written buffer.
 */
module Zippers {
  import opened Bytes
  import opened Trees
  import opened Wire

  const HEAD: nat := 8 // the message id

  datatype Code = OK | OVERFLOW | ARG

  datatype Hole = Hole(name: Option<seq<byte>>, kind: Kind, items: seq<Member>)

  /** The finished root, or the containers still open from the outermost in. */
  datatype Zipper = Zipper(root: Option<Val>, open: seq<Hole>)

  function Empty(): Zipper { Zipper(None, []) }

  /** check_key: one root, keys for the members of objects and for nothing else. */
  function CheckKey(z: Zipper, key: Option<seq<byte>>): Code {
    if z.open == [] then
      if z.root.Some? then OVERFLOW else if key.Some? then ARG else OK
    else if KeyFits(Last(z.open).kind, key) then OK
    else ARG
  }

  /** Which refusal gives which code: a second root overflows, a key out of place or missing is a wrong argument. */
  lemma Refusals(z: Zipper, key: Option<seq<byte>>, op: Op)
    ensures z.open == [] && z.root.Some? ==> CheckKey(z, key) == OVERFLOW
    ensures z.open == [] && z.root.None? ==> CheckKey(z, key) == if key.Some? then ARG else OK
    ensures z.open != [] && Last(z.open).kind.Obj? ==> CheckKey(z, key) == if key.None? then ARG else OK
    ensures z.open != [] && Last(z.open).kind.Arr? ==> CheckKey(z, key) == if key.Some? then ARG else OK
    ensures op.PopOp? && z.open == [] ==> Apply(z, op) == (z, OVERFLOW)
    ensures op.PushContainer? && |z.open| == 513 ==> Apply(z, op) == (z, OVERFLOW)
  {
  }

  function AddItem(open: seq<Hole>, it: Member): seq<Hole>
    requires open != []
  {
    Front(open) + [Last(open).(items := Last(open).items + [it])]
  }

  function Add(z: Zipper, key: Option<seq<byte>>, v: Val): Zipper {
    if z.open == [] then Zipper(Some(v), []) else Zipper(None, AddItem(z.open, Item(key, v)))
  }

  function Close(h: Hole): Member {
    Item(h.name, Node(h.kind, h.items))
  }

  function CloseLast(z: Zipper): Zipper
    requires z.open != []
  {
    Add(Zipper(None, Front(z.open)), Last(z.open).name, Close(Last(z.open)).val)
  }

  datatype Op =
    | PushScalar(key: Option<seq<byte>>, x: Scalar)
    | PushEncoded(key: Option<seq<byte>>, v: Val) // opo_builder_push_val
    | PushContainer(key: Option<seq<byte>>, kind: Kind)
    | PopOp

  /** A value, when its key is where it belongs. */
  function Put(z: Zipper, key: Option<seq<byte>>, v: Val): (Zipper, Code) {
    var c := CheckKey(z, key);
    (if c == OK then Add(z, key, v) else z, c)
  }

  /** One builder call: its code, and its effect when the code is OK. */
  function Apply(z: Zipper, op: Op): (Zipper, Code) {
    match op
    case PushScalar(key, x) => Put(z, key, Leaf(x))
    case PushEncoded(key, v) => Put(z, key, v)
    case PushContainer(key, kind) =>
      // the guard compares the top slot's index with the limit, so it lets 513 containers open
      var c := if MAX_DEPTH < |z.open| then OVERFLOW else CheckKey(z, key);
      (if c == OK then Zipper(None, z.open + [Hole(key, kind, [])]) else z, c)
    case PopOp =>
      if z.open == [] then (z, OVERFLOW) else (CloseLast(z), OK)
  }

  function Finish(z: Zipper): Zipper
    decreases |z.open|
  {
    if z.open == [] then z else
    Finish(CloseLast(z))
  }

  /** The state after a list of calls, refused ones included. */
  function RunOps(z: Zipper, ops: seq<Op>): Zipper
    decreases |ops|
  {
    if ops == [] then z else RunOps(Apply(z, ops[0]).0, ops[1..])
  }

  /** The code every call returns. */
  predicate AllAccepted(z: Zipper, ops: seq<Op>)
    decreases |ops|
  {
    ops == [] || (Apply(z, ops[0]).1 == OK && AllAccepted(Apply(z, ops[0]).0, ops[1..]))
  }

  /** Every call that opens a container finds one of the 512 stack entries free. */
  predicate Shallow(z: Zipper, ops: seq<Op>)
    decreases |ops|
  {
    ops == [] || (StackHolds(z, ops[0]) && Shallow(Apply(z, ops[0]).0, ops[1..]))
  }

  predicate StackHolds(z: Zipper, op: Op) {
    op.PushContainer? && Apply(z, op).1 == OK ==> |z.open| < MAX_DEPTH
  }

  lemma {:induction false} RunAppend(z: Zipper, a: seq<Op>, b: seq<Op>)
    ensures RunOps(z, a + b) == RunOps(RunOps(z, a), b)
    ensures Shallow(z, a + b) <==> Shallow(z, a) && Shallow(RunOps(z, a), b)
    ensures AllAccepted(z, a + b) <==> AllAccepted(z, a) && AllAccepted(RunOps(z, a), b)
    decreases |a|
  {
    if a == [] {
      assert a + b == b;
    } else {
      RunAppend(Apply(z, a[0]).0, a[1..], b);
      assert (a + b)[1..] == a[1..] + b && (a + b)[0] == a[0];
    }
  }

  // ---- well-formedness ----

  /** Names and keys are where they belong, all the way down. */
  predicate Ok(z: Zipper) {
    && (z.root.Some? ==> z.open == [])
    && OpenOk(z.open)
  }

  predicate OpenOk(open: seq<Hole>) {
    && (open != [] ==> open[0].name.None?)
    && (forall i :: 0 < i < |open| ==> KeyFits(open[i - 1].kind, open[i].name))
  }

  lemma ApplyOk(z: Zipper, op: Op)
    requires Ok(z)
    ensures Ok(Apply(z, op).0)
    ensures |Apply(z, op).0.open| <= (if |z.open| <= MAX_DEPTH + 1 then MAX_DEPTH + 1 else |z.open|)
  {
    if op.PopOp? && |z.open| > 1 {
      var open := Front(z.open);
      assert forall i :: 0 <= i < |open| ==> open[i] == z.open[i];
    }
  }

  lemma {:induction false} RunOk(z: Zipper, ops: seq<Op>)
    requires Ok(z)
    ensures Ok(RunOps(z, ops))
    decreases |ops|
  {
    if ops != [] {
      ApplyOk(z, ops[0]);
      RunOk(Apply(z, ops[0]).0, ops[1..]);
    }
  }

  lemma {:induction false} FinishClosed(z: Zipper)
    requires Ok(z)
    ensures Finish(z).open == [] && Ok(Finish(z))
    ensures Finish(z).root.None? <==> z == Empty()
    decreases |z.open|
  {
    if z.open != [] {
      ApplyOk(z, PopOp);
      FinishClosed(CloseLast(z));
    }
  }

  // ---- the buffer ----

  function RootBytes(root: Option<Val>): seq<byte> {
    Zeros(HEAD) + if root.None? then [] else Encode(root.value)
  }

  /** An open container's bytes: its length field is a gap of four bytes that mean nothing yet. */
  function HoleBytes(h: Hole, gap: seq<byte>): seq<byte> {
    EncodeLabel(h.name) + [KindTag(h.kind)] + gap + EncodeItems(h.items)
  }

  predicate Gaps(z: Zipper, gaps: seq<seq<byte>>) {
    |gaps| == |z.open| && forall i :: 0 <= i < |gaps| ==> |gaps[i]| == 4
  }

  /** The half-written message: the head, then every open container in turn. */
  function Spread(z: Zipper, gaps: seq<seq<byte>>): seq<byte>
    requires Gaps(z, gaps)
    decreases |z.open|
  {
    if z.open == [] then RootBytes(z.root)
    else Spread(Zipper(None, Front(z.open)), Front(gaps)) + HoleBytes(Last(z.open), Last(gaps))
  }

  function HoleSize(h: Hole): nat {
    |EncodeLabel(h.name)| + 5 + |EncodeItems(h.items)|
  }

  function OpenSize(open: seq<Hole>): nat
    decreases |open|
  {
    if open == [] then HEAD else OpenSize(Front(open)) + HoleSize(Last(open))
  }

  /** Where the innermost open container's tag is. */
  function TopOffset(open: seq<Hole>): nat
    requires open != []
  {
    OpenSize(Front(open)) + |EncodeLabel(Last(open).name)|
  }

  /** Where the tag of each open container is: what the builder's stack holds. */
  function Offsets(open: seq<Hole>): (offs: seq<nat>)
    ensures |offs| == |open|
    decreases |open|
  {
    if open == [] then []
    else Offsets(Front(open)) + [TopOffset(open)]
  }

  lemma {:induction false} SpreadSize(z: Zipper, gaps: seq<seq<byte>>)
    requires Gaps(z, gaps)
    ensures z.open != [] || z.root.None? ==> |Spread(z, gaps)| == OpenSize(z.open)
    ensures z.open == [] && z.root.Some? ==> |Spread(z, gaps)| > HEAD
    ensures |Spread(z, gaps)| == HEAD <==> z.open == [] && z.root.None?
    ensures |Spread(z, gaps)| >= HEAD
    decreases |z.open|
  {
    if z.open != [] {
      SpreadSize(Zipper(None, Front(z.open)), Front(gaps));
    }
  }

  /** The tag of the innermost container is at the last offset, with its length field after it. */
  lemma TagAtOffset(z: Zipper, gaps: seq<seq<byte>>)
    requires Gaps(z, gaps) && z.open != []
    ensures var b, s := Spread(z, gaps), TopOffset(z.open);
            HEAD <= s && s + 5 <= |b| && b[s] == KindTag(Last(z.open).kind)
  {
    var z0 := Zipper(None, Front(z.open));
    SpreadSize(z0, Front(gaps));
    OffsetsUnfold(z.open);
    hide Spread, OpenSize, EncodeLabel, EncodeItems, Offsets;
    var pre, h := Spread(z0, Front(gaps)), Last(z.open);
    SpreadUnfold(z, gaps);
    assert Spread(z, gaps) == pre + HoleBytes(h, Last(gaps));
  }

  lemma SpreadUnfold(z: Zipper, gaps: seq<seq<byte>>)
    requires Gaps(z, gaps) && z.open != []
    ensures gaps != [] && Gaps(Zipper(None, Front(z.open)), Front(gaps)) && |Last(gaps)| == 4
    ensures Spread(z, gaps) == Spread(Zipper(None, Front(z.open)), Front(gaps)) + HoleBytes(Last(z.open), Last(gaps))
  {
  }

  lemma TopOffsetIs(open: seq<Hole>)
    requires open != []
    ensures TopOffset(open) == OpenSize(Front(open)) + |EncodeLabel(Last(open).name)|
  {
  }

  lemma OffsetsUnfold(open: seq<Hole>)
    requires open != []
    ensures Offsets(open) == Offsets(Front(open)) + [TopOffset(open)]
    ensures TopOffset(open) == OpenSize(Front(open)) + |EncodeLabel(Last(open).name)|
    ensures Offsets(open)[|open| - 1] == TopOffset(open) && Offsets(open)[..|open| - 1] == Offsets(Front(open))
  {
    hide OpenSize, EncodeLabel, TopOffset;
    TopOffsetIs(open);
  }

  lemma AddParts(z: Zipper, gaps: seq<seq<byte>>, key: Option<seq<byte>>, v: Val)
    requires z.open != [] && Gaps(z, gaps)
    ensures var z' := Add(z, key, v);
            && Gaps(z', gaps) && z'.open != []
            && Front(z'.open) == Front(z.open)
            && Last(z'.open) == Last(z.open).(items := Last(z.open).items + [Item(key, v)])
            && EncodeItem(Item(key, v)) == EncodeLabel(key) + Encode(v)
  {
  }

  lemma RootAdd(z: Zipper, gaps: seq<seq<byte>>, key: Option<seq<byte>>, v: Val)
    requires z.open == [] && Gaps(z, gaps) && CheckKey(z, key) == OK
    ensures Add(z, key, v) == Zipper(Some(v), []) && Gaps(Add(z, key, v), gaps)
    ensures Spread(Add(z, key, v), gaps) == Spread(z, gaps) + EncodeLabel(key) + Encode(v)
  {
    hide Encode;
    assert Spread(z, gaps) + EncodeLabel(key) + Encode(v) == RootBytes(Some(v));
  }

  /** Appending a complete item. */
  lemma SpreadAdd(z: Zipper, gaps: seq<seq<byte>>, key: Option<seq<byte>>, v: Val)
    requires Gaps(z, gaps) && CheckKey(z, key) == OK
    ensures Gaps(Add(z, key, v), gaps)
    ensures Spread(Add(z, key, v), gaps) == Spread(z, gaps) + EncodeLabel(key) + Encode(v)
    ensures Offsets(Add(z, key, v).open) == Offsets(z.open)
  {
    hide *;
    if z.open == [] {
      RootAdd(z, gaps, key, v);
    } else {
      AddParts(z, gaps, key, v);
      OffsetsUnfold(z.open);
      OffsetsUnfold(Add(z, key, v).open);
      SpreadUnfold(z, gaps);
      SpreadUnfold(Add(z, key, v), gaps);
      HoleGrows(Last(z.open), Last(gaps), Item(key, v));
    }
  }

  lemma HoleGrows(h: Hole, gap: seq<byte>, it: Member)
    ensures HoleBytes(h.(items := h.items + [it]), gap) == HoleBytes(h, gap) + EncodeItem(it)
  {
    EncodeItemsSnoc(h.items, it);
    hide EncodeItem, EncodeItems, EncodeLabel;
  }

  lemma FreshHole(key: Option<seq<byte>>, kind: Kind, gap: seq<byte>)
    ensures HoleBytes(Hole(key, kind, []), gap) == EncodeLabel(key) + [KindTag(kind)] + gap
  {
    assert EncodeItems([]) == [];
  }

  lemma OpenParts(z: Zipper, gaps: seq<seq<byte>>, h: Hole, gap: seq<byte>)
    requires Gaps(z, gaps) && |gap| == 4 && z.root.None?
    ensures var z' := Zipper(None, z.open + [h]);
            && Gaps(z', gaps + [gap]) && z'.open != []
            && Zipper(None, Front(z'.open)) == z && Last(z'.open) == h
            && Front(gaps + [gap]) == gaps && Last(gaps + [gap]) == gap
  {
  }

  lemma RootlessSize(z: Zipper, gaps: seq<seq<byte>>, key: Option<seq<byte>>)
    requires Gaps(z, gaps) && CheckKey(z, key) == OK && Ok(z)
    ensures z.root.None? && OpenSize(z.open) == |Spread(z, gaps)|
  {
    SpreadSize(z, gaps);
  }

  /** Appending the start of a container. */
  lemma SpreadOpen(z: Zipper, gaps: seq<seq<byte>>, key: Option<seq<byte>>, kind: Kind, gap: seq<byte>)
    requires Gaps(z, gaps) && CheckKey(z, key) == OK && |gap| == 4 && Ok(z)
    ensures var z' := Zipper(None, z.open + [Hole(key, kind, [])]);
            && Gaps(z', gaps + [gap])
            && Spread(z', gaps + [gap]) == Spread(z, gaps) + EncodeLabel(key) + [KindTag(kind)] + gap
  {
    hide *;
    var h := Hole(key, kind, []);
    RootlessSize(z, gaps, key);
    OpenParts(z, gaps, h, gap);
    SpreadUnfold(Zipper(None, z.open + [h]), gaps + [gap]);
    FreshHole(key, kind, gap);
  }

  /** The offset that goes on the stack. */
  lemma OffsetsOpen(z: Zipper, gaps: seq<seq<byte>>, key: Option<seq<byte>>, kind: Kind)
    requires Gaps(z, gaps) && CheckKey(z, key) == OK && Ok(z)
    ensures Offsets(z.open + [Hole(key, kind, [])]) == Offsets(z.open) + [|Spread(z, gaps)| + |EncodeLabel(key)|]
  {
    hide *;
    RootlessSize(z, gaps, key);
    OpenParts(z, gaps, Hole(key, kind, []), [0, 0, 0, 0]);
    OffsetsUnfold(z.open + [Hole(key, kind, [])]);
  }

  /** The bytes once the container at s has its length. */
  function Patched(b: seq<byte>, s: nat): seq<byte>
    requires s + 5 <= |b|
  {
    b[..s + 1] + BE(|b| - s - 5, 4) + b[s + 5..]
  }

  lemma PatchedHole(pre: seq<byte>, h: Hole, gap: seq<byte>)
    requires |gap| == 4
    ensures |pre| + |EncodeLabel(h.name)| + 5 <= |pre + HoleBytes(h, gap)|
    ensures Patched(pre + HoleBytes(h, gap), |pre| + |EncodeLabel(h.name)|)
         == pre + EncodeLabel(h.name) + Encode(Close(h).val)
  {
    var k, c := EncodeLabel(h.name), EncodeItems(h.items);
    assert Encode(Close(h).val) == [KindTag(h.kind)] + BE(|c|, 4) + c;
    hide EncodeLabel, EncodeItems, Encode, BE;
    var b, s := pre + HoleBytes(h, gap), |pre| + |k|;
    assert b == (pre + k + [KindTag(h.kind)]) + gap + c;
    assert b[..s + 1] == pre + k + [KindTag(h.kind)] && b[s + 5..] == c;
  }

  lemma ParentReady(z: Zipper)
    requires Ok(z) && z.open != []
    ensures Ok(Zipper(None, Front(z.open))) && CheckKey(Zipper(None, Front(z.open)), Last(z.open).name) == OK
  {
    if |z.open| > 1 {
      assert KeyFits(z.open[|z.open| - 2].kind, z.open[|z.open| - 1].name);
    }
  }

  /** Filling in a length closes the innermost container. */
  lemma SpreadClose(z: Zipper, gaps: seq<seq<byte>>)
    requires Ok(z) && Gaps(z, gaps) && z.open != []
    ensures TopOffset(z.open) + 5 <= |Spread(z, gaps)|
    ensures Gaps(CloseLast(z), Front(gaps))
    ensures Spread(CloseLast(z), Front(gaps)) == Patched(Spread(z, gaps), TopOffset(z.open))
    ensures Offsets(CloseLast(z).open) == Offsets(Front(z.open))
  {
    hide *;
    var z0 := Zipper(None, Front(z.open));
    var h := Last(z.open);
    OffsetsUnfold(z.open);
    SpreadUnfold(z, gaps);
    SizeOfOpen(z0, Front(gaps));
    PatchedHole(Spread(z0, Front(gaps)), h, Last(gaps));
    ParentReady(z);
    SpreadAdd(z0, Front(gaps), h.name, Close(h).val);
    CloseLastAdds(z);
  }

  lemma SizeOfOpen(z: Zipper, gaps: seq<seq<byte>>)
    requires Gaps(z, gaps) && z.root.None?
    ensures |Spread(z, gaps)| == OpenSize(z.open)
  {
    SpreadSize(z, gaps);
  }

  lemma CloseLastAdds(z: Zipper)
    requires z.open != []
    ensures CloseLast(z) == Add(Zipper(None, Front(z.open)), Last(z.open).name, Close(Last(z.open)).val)
  {
  }

  // ---- the whole message ----

  /** What a finished builder's buffer holds. */
  function Finished(z: Zipper): seq<byte> {
    RootBytes(Finish(z).root)
  }

  lemma FinishedSpread(z: Zipper)
    requires z.open == []
    ensures Gaps(z, []) && Spread(z, []) == Finished(z)
  {
  }

  // ---- driving a builder over a tree ----

  /** Subtrees for which splice holds are pushed whole with push_val, the rest element by element. */
  function Script(v: Val, key: Option<seq<byte>>, splice: Val -> bool): seq<Op>
    decreases v
  {
    if splice(v) then [PushEncoded(key, v)]
    else if v.Leaf? then [PushScalar(key, v.leaf)]
    else [PushContainer(key, v.kind)] + ScriptItems(v.items, splice) + [PopOp]
  }

  function ScriptItem(it: Member, splice: Val -> bool): seq<Op>
    decreases it
  {
    Script(it.val, it.key, splice)
  }

  function ScriptItems(items: seq<Member>, splice: Val -> bool): seq<Op>
    decreases items
  {
    if items == [] then [] else ScriptItem(items[0], splice) + ScriptItems(items[1..], splice)
  }

  /** Keys sit on the members of objects and nowhere else. */
  predicate Keyed(v: Val)
    decreases v
  {
    v.Leaf? || forall i :: 0 <= i < |v.items| ==> KeyedItem(v.kind, v.items[i])
  }

  predicate KeyedItem(kind: Kind, it: Member)
    decreases it
  {
    KeyFits(kind, it.key) && Keyed(it.val)
  }

  lemma {:induction false} ScriptBuilds(z: Zipper, v: Val, key: Option<seq<byte>>, splice: Val -> bool)
    requires Ok(z) && Keyed(v) && CheckKey(z, key) == OK
    requires |z.open| + Depth(v) <= MAX_DEPTH
    ensures AllAccepted(z, Script(v, key, splice)) && Shallow(z, Script(v, key, splice))
    ensures RunOps(z, Script(v, key, splice)) == Add(z, key, v)
    decreases v, if v.Node? then |v.items| + 1 else 0
  {
    if splice(v) {
      RunOne(z, PushEncoded(key, v));
    } else if v.Leaf? {
      RunOne(z, PushScalar(key, v.leaf));
    } else {
      assert v.items[0..] == v.items && v.items[..0] == [];
      ScriptItemsBuild(z.open, key, v, 0, splice);
      WrappedBuilds(z, v, key, ScriptItems(v.items, splice));
    }
  }

  /** Opening a container, calls that fill it, and closing it. */
  lemma WrappedBuilds(z: Zipper, v: Val, key: Option<seq<byte>>, inner: seq<Op>)
    requires v.Node? && CheckKey(z, key) == OK && |z.open| < MAX_DEPTH
    requires AllAccepted(Zipper(None, z.open + [Hole(key, v.kind, [])]), inner)
    requires Shallow(Zipper(None, z.open + [Hole(key, v.kind, [])]), inner)
    requires RunOps(Zipper(None, z.open + [Hole(key, v.kind, [])]), inner)
             == Zipper(None, z.open + [Hole(key, v.kind, v.items)])
    ensures AllAccepted(z, [PushContainer(key, v.kind)] + inner + [PopOp])
    ensures Shallow(z, [PushContainer(key, v.kind)] + inner + [PopOp])
    ensures RunOps(z, [PushContainer(key, v.kind)] + inner + [PopOp]) == Add(z, key, v)
  {
    var first := PushContainer(key, v.kind);
    var z2 := Zipper(None, z.open + [Hole(key, v.kind, v.items)]);
    RunOne(z, first);
    RunOne(z2, PopOp);
    assert Front(z2.open) == z.open;
    hide RunOps, AllAccepted, Shallow;
    RunAppend(z, [first], inner);
    RunAppend(z, [first] + inner, [PopOp]);
  }

  lemma RunOne(z: Zipper, op: Op)
    ensures RunOps(z, [op]) == Apply(z, op).0
    ensures AllAccepted(z, [op]) <==> Apply(z, op).1 == OK
    ensures Shallow(z, [op]) <==> StackHolds(z, op)
  {
    assert [op][1..] == [];
    assert Shallow(Apply(z, op).0, [op][1..]);
    assert RunOps(Apply(z, op).0, [op][1..]) == Apply(z, op).0;
  }

  lemma {:induction false} ScriptItemsBuild(open: seq<Hole>, key: Option<seq<byte>>, v: Val, i: nat, splice: Val -> bool)
    requires v.Node? && i <= |v.items| && Keyed(v)
    requires OpenOk(open + [Hole(key, v.kind, v.items[..i])])
    requires |open| + Depth(v) <= MAX_DEPTH
    ensures var z := Zipper(None, open + [Hole(key, v.kind, v.items[..i])]);
            && AllAccepted(z, ScriptItems(v.items[i..], splice)) && Shallow(z, ScriptItems(v.items[i..], splice))
            && RunOps(z, ScriptItems(v.items[i..], splice)) == Zipper(None, open + [Hole(key, v.kind, v.items)])
    decreases v, |v.items| - i
  {
    var h := Hole(key, v.kind, v.items[..i]);
    var z := Zipper(None, open + [h]);
    if i == |v.items| {
      assert v.items[..i] == v.items;
    } else {
      var it := v.items[i];
      assert KeyedItem(v.kind, it);
      assert it.val < it && it < v;
      DepthItemsBounds(v.items, i);
      ScriptBuilds(z, it.val, it.key, splice);
      var h' := Hole(key, v.kind, v.items[..i + 1]);
      assert v.items[..i + 1] == v.items[..i] + [it];
      assert Front(z.open) == open;
      assert Add(z, it.key, it.val).open == open + [h'];
      assert v.items[i..][1..] == v.items[i + 1..];
      RunAppend(z, ScriptItem(it, splice), ScriptItems(v.items[i + 1..], splice));
      assert forall j :: 0 <= j < |open| ==> (open + [h'])[j] == (open + [h])[j];
      ScriptItemsBuild(open, key, v, i + 1, splice);
    }
  }

  /**
   * Driving a builder over a tree, whichever subtrees are spliced in, is accepted throughout and
   * finishes as the encoding of the tree.
   */
  lemma DrivenBuilderEncodes(v: Val, splice: Val -> bool)
    requires Keyed(v) && Depth(v) <= MAX_DEPTH
    ensures AllAccepted(Empty(), Script(v, None, splice)) && Shallow(Empty(), Script(v, None, splice))
    ensures Finished(RunOps(Empty(), Script(v, None, splice))) == Zeros(HEAD) + Encode(v)
  {
    ScriptBuilds(Empty(), v, None, splice);
  }
}
