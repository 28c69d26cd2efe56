/**
 * Exactly which values the one-pop decoder rebuilds. Every value is filed under the container on
 * top of the stack, so the built tree's total depth is the sum of the stack heights seen; the true
 * containers are never popped early, so a value filed in a wrong place makes that sum too large.
 */
module DecoderExact {
  import opened Bytes
  import opened Trees
  import opened Wire
  import opened Decoder
  import opened DecoderCorrect

  // ---- total depth ----

  function Weight<L>(v: Tree<L>, d: nat): nat
    decreases v
  {
    match v
    case Leaf(_) => d
    case Node(_, items) => d + WeightItems(items, d + 1)
  }

  function WeightItems<L>(items: seq<Item<L>>, d: nat): nat
    decreases items
  {
    if items == [] then 0
    else
      var it := items[|items| - 1];
      assert it.val < it;
      WeightItems(items[..|items| - 1], d) + Weight(it.val, d)
  }

  lemma WeightItemsSnoc(items: seq<Member>, it: Member, d: nat)
    ensures WeightItems(items + [it], d) == WeightItems(items, d) + Weight(it.val, d)
  {
    assert (items + [it])[..|items|] == items;
  }

  function WeightStack(stack: seq<Frame<Scalar>>): nat
    decreases |stack|
  {
    if stack == [] then 0
    else WeightStack(Front(stack)) + |stack| - 1 + WeightItems(Last(stack).items, |stack|)
  }

  function CtxWeight(st: Ctx<Scalar>): nat
    requires st.Ctx?
  {
    if st.stack != [] then WeightStack(st.stack)
    else if st.top.Some? then Weight(st.top.value, 0)
    else 0
  }

  lemma AppendTopWeight(stack: seq<Frame<Scalar>>, it: Member)
    requires stack != []
    ensures WeightStack(AppendTop(stack, it)) == WeightStack(stack) + Weight(it.val, |stack|)
  {
    var s := AppendTop(stack, it);
    assert Front(s) == Front(stack);
    WeightItemsSnoc(Last(stack).items, it, |stack|);
  }

  lemma PopWeight(st: Ctx<Scalar>)
    requires st.Ctx? && st.stack != []
    ensures CtxWeight(Pop(st)) == CtxWeight(st)
  {
    if |st.stack| > 1 {
      AppendTopWeight(Front(st.stack), Closed(Last(st.stack)));
    } else {
      assert Front(st.stack) == [];
      assert Pop(st).stack == [] && WeightStack(Front(st.stack)) == 0;
    }
  }

  lemma {:induction false} CollapseWeight(stack: seq<Frame<Scalar>>)
    requires stack != []
    ensures Weight(Collapse(stack).val, 0) == WeightStack(stack)
    decreases |stack|
  {
    if |stack| == 1 {
      assert Front(stack) == [];
    } else {
      AppendTopWeight(Front(stack), Closed(Last(stack)));
      CollapseWeight(AppendTop(Front(stack), Closed(Last(stack))));
    }
  }

  // ---- containers still open past q ----

  function OpenPast(stack: seq<Frame<Scalar>>, q: nat): (n: nat)
    ensures n <= |stack|
    decreases |stack|
  {
    if stack == [] then 0
    else OpenPast(Front(stack), q) + if Last(stack).end >= q then 1 else 0
  }

  lemma {:induction false} OpenPastMonotone(stack: seq<Frame<Scalar>>, q: nat, r: nat)
    requires q <= r
    ensures OpenPast(stack, q) >= OpenPast(stack, r)
    decreases |stack|
  {
    if stack != [] {
      OpenPastMonotone(Front(stack), q, r);
    }
  }

  lemma {:induction false} OpenPastAppend(a: seq<Frame<Scalar>>, b: seq<Frame<Scalar>>, q: nat)
    ensures OpenPast(a + b, q) == OpenPast(a, q) + OpenPast(b, q)
    decreases |b|
  {
    if b == [] {
      assert a + b == a;
    } else {
      assert Front(a + b) == a + Front(b);
      OpenPastAppend(a, Front(b), q);
    }
  }

  lemma OpenPastAppendTop(stack: seq<Frame<Scalar>>, it: Member, q: nat)
    requires stack != []
    ensures OpenPast(AppendTop(stack, it), q) == OpenPast(stack, q)
  {
    assert Front(AppendTop(stack, it)) == Front(stack);
  }

  lemma OpenPastPush(stack: seq<Frame<Scalar>>, f: Frame<Scalar>, q: nat)
    ensures OpenPast(stack + [f], q) == OpenPast(stack, q) + if f.end >= q then 1 else 0
  {
    assert Front(stack + [f]) == stack;
  }

  // ---- one turn of the loop ----

  lemma SettleKeeps(st: Ctx<Scalar>, p: nat, q: nat)
    requires st.Ctx? && p < q
    ensures var r := Settle(st, p, false);
            && CtxWeight(r) == CtxWeight(st)
            && OpenPast(r.stack, q) == OpenPast(st.stack, q)
            && |st.stack| - 1 <= |r.stack| <= |st.stack|
            && (st.stack == [] ==> r == st)
  {
    if st.stack != [] && Last(st.stack).end <= p {
      PopWeight(st);
      if |st.stack| > 1 {
        OpenPastAppendTop(Front(st.stack), Closed(Last(st.stack)), q);
      } else {
        assert Front(st.stack) == [];
      }
    }
  }

  predicate IsValue(t: Token) { !t.Key? }

  lemma ActWeighs(st: Ctx<Scalar>, p: nat, t: Token, q: nat)
    requires st.Ctx? && (st.stack == [] ==> st.top.None?)
    requires Act(st, p, t, Same).Ctx?
    ensures var r := Act(st, p, t, Same);
            && CtxWeight(r) == CtxWeight(st) + (if IsValue(t) then |st.stack| else 0)
            && OpenPast(r.stack, q) >= OpenPast(st.stack, q)
            && (t.Open? && q <= p + 5 + t.size ==> OpenPast(r.stack, q) == OpenPast(st.stack, q) + 1)
  {
    match t
    case Scal(x) => LeafWeighs(st, p, x, q);
    case Key(k) =>
    case Open(kind, size) => OpenWeighs(st, p, kind, size, q);
  }

  lemma LeafWeighs(st: Ctx<Scalar>, p: nat, x: Scalar, q: nat)
    requires st.Ctx? && (st.stack == [] ==> st.top.None?)
    requires Act(st, p, Scal(x), Same).Ctx?
    ensures var r := Act(st, p, Scal(x), Same);
            CtxWeight(r) == CtxWeight(st) + |st.stack| && OpenPast(r.stack, q) == OpenPast(st.stack, q)
  {
    hide WeightStack, OpenPast, AppendTop;
    if st.stack != [] {
      var it: Member := Item(if Last(st.stack).kind.Obj? then st.key else None, Leaf(x));
      AppendTopWeight(st.stack, it);
      OpenPastAppendTop(st.stack, it, q);
      assert |AppendTop(st.stack, it)| > 0 by { AppendTopHeight(st.stack, it); }
    }
  }

  lemma AppendTopHeight(stack: seq<Frame<Scalar>>, it: Member)
    requires stack != []
    ensures |AppendTop(stack, it)| == |stack|
  {
  }

  lemma OpenWeighs(st: Ctx<Scalar>, p: nat, kind: Kind, size: nat, q: nat)
    requires st.Ctx? && (st.stack == [] ==> st.top.None?)
    requires Act(st, p, Open(kind, size), Same).Ctx?
    ensures var r := Act(st, p, Open(kind, size), Same);
            && CtxWeight(r) == CtxWeight(st) + |st.stack|
            && OpenPast(r.stack, q) == OpenPast(st.stack, q) + if q <= p + 5 + size then 1 else 0
  {
    hide Act, OpenPast, WeightStack;
    var f := OpenedFrame(st, p, kind, size);
    OpenPastPush(st.stack, f, q);
    PushWeight(st.stack, f);
    assert WeightStack([]) == 0 by { EmptyWeight(); }
  }

  lemma OpenedFrame(st: Ctx<Scalar>, p: nat, kind: Kind, size: nat) returns (f: Frame<Scalar>)
    requires st.Ctx? && Act(st, p, Open(kind, size), Same).Ctx?
    ensures Act(st, p, Open(kind, size), Same).stack == st.stack + [f] && f.items == [] && f.end == p + 5 + size
  {
    f := Frame(if st.stack != [] && Last(st.stack).kind.Obj? then st.key else None, kind, [], p + 5 + size);
  }

  lemma EmptyWeight()
    ensures WeightStack([]) == 0
  {
  }

  lemma PushWeight(stack: seq<Frame<Scalar>>, f: Frame<Scalar>)
    requires f.items == []
    ensures WeightStack(stack + [f]) == WeightStack(stack) + |stack|
  {
    assert Front(stack + [f]) == stack;
  }

  /** One turn of the loop: a value adds the height of the settled stack, nothing open past q goes. */
  lemma Turn(st: Ctx<Scalar>, p: nat, t: Token, q: nat)
    requires st.Ctx? && p < q
    requires OpenPast(st.stack, q) >= 1 || (st.stack == [] && st.top.None?)
    requires Step(st, p, t, false, Same).Ctx?
    ensures var st1, r := Settle(st, p, false), Step(st, p, t, false, Same);
            && CtxWeight(r) == CtxWeight(st) + (if IsValue(t) then |st1.stack| else 0)
            && OpenPast(r.stack, q) >= OpenPast(st.stack, q)
            && (t.Open? && q <= p + 5 + t.size ==> OpenPast(r.stack, q) == OpenPast(st.stack, q) + 1)
            && (t.Key? ==> r.stack == st1.stack)
            && |st1.stack| >= |st.stack| - 1
  {
    SettleKeeps(st, p, q);
    ActWeighs(Settle(st, p, false), p, t, q);
  }

  /** The first token did not fail if the whole feed did not. */
  lemma FirstLives(st: Ctx<Scalar>, p: nat, t: Token, rest: seq<Token>)
    requires Feed(st, p, [t] + rest, false).Ctx?
    ensures Step(st, p, t, false, Same).Ctx?
    ensures Feed(st, p, [t] + rest, false)
         == Feed(Step(st, p, t, false, Same), p + |TokenBytes(t)|, rest, false)
  {
    hide Feed, Step, TokenBytes;
    FeedOne(st, p, t, rest, false);
    if Step(st, p, t, false, Same).Failed? {
      FeedFailed(p + |TokenBytes(t)|, rest, false);
    }
  }

  /** Containers that end at or after q are never popped before q. */
  lemma {:induction false} OpenPastKept(st: Ctx<Scalar>, p: nat, ts: seq<Token>, q: nat)
    requires st.Ctx? && OpenPast(st.stack, q) >= 1
    requires p + |BytesOf(ts)| <= q
    requires Feed(st, p, ts, false).Ctx?
    ensures OpenPast(Feed(st, p, ts, false).stack, q) >= OpenPast(st.stack, q)
    decreases |ts|
  {
    hide Step, TokenBytes, OpenPast;
    if ts != [] {
      hide Feed;
      assert ts == [ts[0]] + ts[1..];
      FirstLives(st, p, ts[0], ts[1..]);
      Turn(st, p, ts[0], q);
      OpenPastKept(Step(st, p, ts[0], false, Same), p + |TokenBytes(ts[0])|, ts[1..], q);
    }
  }

  // ---- a value adds at least its own depth ----

  lemma {:induction false} AtLeast(st: Ctx<Scalar>, p: nat, v: Val, d: nat)
    requires st.Ctx? && OpenPast(st.stack, p + |Encode(v)|) >= d
    requires d >= 1 || (st.stack == [] && st.top.None?)
    requires Feed(st, p, Tokens(v), false).Ctx?
    ensures CtxWeight(Feed(st, p, Tokens(v), false)) + d
         >= CtxWeight(st) + Weight(v, d) + |Settle(st, p, false).stack|
    decreases v, Extra(v)
  {
    hide Step, Settle, CtxWeight, OpenPast;
    var e := p + |Encode(v)|;
    match v
    case Leaf(x) =>
      assert [Scal(x)] + [] == Tokens(v);
      FirstLives(st, p, Scal(x), []);
      Turn(st, p, Scal(x), e);
    case Node(kind, items) =>
      hide Feed;
      var t := Open(kind, |EncodeItems(items)|);
      FirstLives(st, p, t, TokensItems(items));
      Turn(st, p, t, e);
      assert items[0..] == items && items[..0] == [];
      AtLeastItems(Step(st, p, t, false, Same), p + 5, v, 0, d + 1, e);
  }

  lemma {:induction false} AtLeastItems(st: Ctx<Scalar>, p: nat, v: Val, i: nat, d: nat, e: nat)
    requires v.Node? && i <= |v.items| && d >= 1
    requires st.Ctx? && OpenPast(st.stack, e) >= d
    requires p + |EncodeItems(v.items[i..])| == e
    requires Feed(st, p, TokensItems(v.items[i..]), false).Ctx?
    ensures CtxWeight(Feed(st, p, TokensItems(v.items[i..]), false)) + WeightItems(v.items[..i], d)
         >= CtxWeight(st) + WeightItems(v.items, d)
    decreases v, 2 * (|v.items| - i) + 1
  {
    hide Encode, Step, CtxWeight, OpenPast, EncodeItem, TokensItem, Weight, WeightItems, Feed, EncodeItems, TokensItems;
    if i == |v.items| {
      NothingFrom(st, p, v);
    } else {
      ItemsFrom(v, i);
      var it, rest := v.items[i], TokensItems(v.items[i + 1..]);
      assert v.items[i..][1..] == v.items[i + 1..];
      assert it.val < it && it < v;
      ItemLives(st, p, it, rest);
      AtLeastItem(st, p, it, d, e);
      AtLeastItems(Feed(st, p, TokensItem(it), false), p + |EncodeItem(it)|, v, i + 1, d, e);
      WeightItemsSnoc(v.items[..i], it, d);
      assert v.items[..i] + [it] == v.items[..i + 1];
    }
  }

  lemma NothingFrom(st: Ctx<Scalar>, p: nat, v: Val)
    requires v.Node?
    ensures v.items[..|v.items|] == v.items && TokensItems(v.items[|v.items|..]) == []
    ensures Feed(st, p, [], false) == st
  {
  }

  lemma ItemLives(st: Ctx<Scalar>, p: nat, it: Member, rest: seq<Token>)
    requires Feed(st, p, TokensItem(it) + rest, false).Ctx?
    ensures Feed(st, p, TokensItem(it), false).Ctx?
    ensures Feed(st, p, TokensItem(it) + rest, false)
         == Feed(Feed(st, p, TokensItem(it), false), p + |EncodeItem(it)|, rest, false)
  {
    hide Feed, TokensItem, EncodeItem;
    TokensItemSpell(it);
    FeedAppend(st, p, TokensItem(it), rest, false);
    if Feed(st, p, TokensItem(it), false).Failed? {
      FeedFailed(p + |EncodeItem(it)|, rest, false);
    }
  }

  function KeyPops(it: Member): nat {
    if it.key.None? then 1 else 2
  }

  lemma {:induction false} AtLeastItem(st: Ctx<Scalar>, p: nat, it: Member, d: nat, e: nat)
    requires d >= 1
    requires st.Ctx? && OpenPast(st.stack, e) >= d
    requires p + |EncodeItem(it)| <= e
    requires Feed(st, p, TokensItem(it), false).Ctx?
    ensures var r := Feed(st, p, TokensItem(it), false);
            && CtxWeight(r) >= CtxWeight(st) + Weight(it.val, d)
            && CtxWeight(r) + d + KeyPops(it) >= CtxWeight(st) + Weight(it.val, d) + |st.stack|
            && OpenPast(r.stack, e) >= d
    decreases it.val, Extra(it.val) + 1
  {
    hide Step, Settle, CtxWeight, OpenPast, Feed, Encode;
    TokensItemSpell(it);
    OpenPastKept(st, p, TokensItem(it), e);
    if it.key.None? {
      assert TokensItem(it) == Tokens(it.val);
      OpenPastMonotone(st.stack, p + |Encode(it.val)|, e);
      SettleKeeps(st, p, e);
      AtLeast(st, p, it.val, d);
    } else {
      var k := it.key.value;
      var q := p + |EncodeKey(k)|;
      var st1 := Step(st, p, Key(k), false, Same);
      FirstLives(st, p, Key(k), Tokens(it.val));
      Turn(st, p, Key(k), e);
      SettleKeeps(st1, q, e);
      OpenPastMonotone(st1.stack, q + |Encode(it.val)|, e);
      AtLeast(st1, q, it.val, d);
    }
  }

  // ---- and strictly more when one pop per token is too few ----

  /** v fits below a stack of height d: shallow enough, and never more finished containers than pops. */
  ghost predicate Placeable(v: Val, d: nat) {
    SinglePopSafe(v) && d + Depth(v) <= MAX_DEPTH
  }

  /** Members up to i fit, and the finished containers before each of them can be popped in time. */
  ghost predicate FitsUpTo(v: Val, i: nat, d: nat)
    requires v.Node? && i <= |v.items|
  {
    && (forall j :: 0 <= j < i ==> Placeable(v.items[j].val, d + 1))
    && (forall j :: 0 <= j < i - 1 ==> Closes(v.items[j].val) <= Pops(v.kind))
  }

  lemma FitsAll(v: Val, d: nat)
    requires v.Node? && d + 1 <= MAX_DEPTH && FitsUpTo(v, |v.items|, d)
    ensures Placeable(v, d)
  {
    forall j | 0 <= j < |v.items|
      ensures ItemSafe(v.items[j])
    {
      assert Placeable(v.items[j].val, d + 1);
    }
    assert ItemsSafe(v.items);
    forall j | 0 <= j < |v.items| - 1
      ensures Closes(v.items[j].val) <= Pops(v.kind)
    {
    }
    assert GapsSafe(v.kind, v.items);
    DepthItemsAtMost(v.items, MAX_DEPTH - d - 1);
  }

  lemma {:induction false} DepthItemsAtMost(items: seq<Member>, m: nat)
    requires forall j :: 0 <= j < |items| ==> Depth(items[j].val) <= m
    ensures DepthItems(items) <= m
    decreases |items|
  {
    if items != [] {
      DepthItemsAtMost(items[1..], m);
    }
  }

  /** The settled stack is exactly the d containers around the value that ends at e. */
  ghost predicate Around(st: Ctx<Scalar>, p: nat, d: nat, e: nat) {
    && Ready(st, p) && |st.stack| == d <= MAX_DEPTH && OpenPast(st.stack, e) == d
    && (d == 0 ==> st.top.None?)
  }

  /** A value that does not fit makes the machine fail or the tree too deep. */
  lemma {:induction false} Needed(st: Ctx<Scalar>, p: nat, v: Val, d: nat)
    requires Wf(v) && st.Ctx? && Around(Settle(st, p, false), p, d, p + |Encode(v)|)
    requires CtxWeight(Settle(st, p, false)) == CtxWeight(st)
    requires !Placeable(v, d)
    requires Feed(st, p, Tokens(v), false).Ctx?
    ensures CtxWeight(Feed(st, p, Tokens(v), false)) > CtxWeight(st) + Weight(v, d)
    decreases v, Extra(v)
  {
    hide CtxWeight, OpenPast, Feed;
    assert v.Node?;
    var items := v.items;
    var st1 := Settle(st, p, false);
    var e := p + |Encode(v)|;
    var t := Open(v.kind, |EncodeItems(items)|);
    FirstLives(st, p, t, TokensItems(items));
    ActWeighs(st1, p, t, e);
    var name := if st1.stack == [] then None else st1.key;
    var top := if st1.stack == [] then None else st1.top;
    var st2 := Step(st, p, t, false, Same);
    assert items[..0] == [] && items[0..] == items;
    assert st2 == Mid(top, st1.stack, name, v, 0, e, p + 5);
    NeededItems(top, st1.stack, name, v, 0, d, e, p + 5);
  }

  lemma MidHeight(top: Option<Val>, below: seq<Frame<Scalar>>, name: Option<seq<byte>>, v: Val,
                  i: nat, e: nat, p: nat)
    requires v.Node? && i <= |v.items| && OpenPast(below, e) == |below|
    ensures var st := Mid(top, below, name, v, i, e, p);
            && OpenPast(st.stack, e) >= |below| + 1
            && |st.stack| == |below| + 1 + if i == 0 then 0 else Closes(v.items[i - 1].val)
  {
    var st := Mid(top, below, name, v, i, e, p);
    var f := st.stack[|below|];
    assert f.end == e;
    assert st.stack == below + [f] + st.stack[|below| + 1..];
    OpenPastPush(below, f, e);
    OpenPastAppend(below + [f], st.stack[|below| + 1..], e);
  }

  lemma {:induction false} NeededItems(top: Option<Val>, below: seq<Frame<Scalar>>, name: Option<seq<byte>>,
                                       v: Val, i: nat, d: nat, e: nat, p: nat)
    requires v.Node? && Wf(v) && i <= |v.items|
    requires |below| == d < MAX_DEPTH && OpenPast(below, e) == d
    requires e == p + |EncodeItems(v.items[i..])|
    requires FitsUpTo(v, i, d) && !Placeable(v, d)
    requires Feed(Mid(top, below, name, v, i, e, p), p, TokensItems(v.items[i..]), false).Ctx?
    ensures CtxWeight(Feed(Mid(top, below, name, v, i, e, p), p, TokensItems(v.items[i..]), false))
            + WeightItems(v.items[..i], d + 1)
          > CtxWeight(Mid(top, below, name, v, i, e, p)) + WeightItems(v.items, d + 1)
    decreases v, 2 * (|v.items| - i) + 1
  {
    hide CtxWeight, OpenPast, Feed, Mid, EncodeItem, TokensItem, Placeable, Closes, Wf, WfItem, KeyPops, Pops,
      Weight, WeightItems, TokensItems, EncodeItems;
    var items := v.items;
    if i == |items| {
      FitsAll(v, d);
    } else {
      ItemsFrom(v, i);
      var it, rest := items[i], TokensItems(items[i + 1..]);
      var st := Mid(top, below, name, v, i, e, p);
      var q := p + |EncodeItem(it)|;
      assert items[i..][1..] == items[i + 1..];
      assert it.val < it && it < v;
      ItemLives(st, p, it, rest);
      MidHeight(top, below, name, v, i, e, p);
      AtLeastItem(st, p, it, d + 1, e);
      AtLeastItems(Feed(st, p, TokensItem(it), false), q, v, i + 1, d + 1, e);
      WeightItemsSnoc(items[..i], it, d + 1);
      assert items[..i] + [it] == items[..i + 1];
      MemberPops(v, i);
      if i == 0 || Closes(items[i - 1].val) <= Pops(v.kind) {
        NeededItem(top, below, name, v, i, d, e, p);
        if Placeable(it.val, d + 1) {
          NeededItems(top, below, name, v, i + 1, d, e, q);
        }
      }
    }
  }

  lemma ItemsFrom(v: Val, i: nat)
    requires v.Node? && i < |v.items|
    ensures TokensItems(v.items[i..]) == TokensItem(v.items[i]) + TokensItems(v.items[i + 1..])
    ensures EncodeItems(v.items[i..]) == EncodeItem(v.items[i]) + EncodeItems(v.items[i + 1..])
  {
    assert v.items[i..][1..] == v.items[i + 1..];
  }

  lemma MemberPops(v: Val, i: nat)
    requires v.Node? && Wf(v) && i < |v.items|
    ensures WfItem(v.kind, v.items[i]) && KeyPops(v.items[i]) == Pops(v.kind)
  {
    assert WfItem(v.kind, v.items[i]);
  }

  /** A member that can be placed: it adds too much if it does not fit, and leaves the next Mid if it does. */
  lemma {:induction false} NeededItem(top: Option<Val>, below: seq<Frame<Scalar>>, name: Option<seq<byte>>,
                                      v: Val, i: nat, d: nat, e: nat, p: nat)
    requires v.Node? && Wf(v) && i < |v.items|
    requires |below| == d < MAX_DEPTH && OpenPast(below, e) == d
    requires p + |EncodeItem(v.items[i])| <= e
    requires i == 0 || Closes(v.items[i - 1].val) <= Pops(v.kind)
    requires Feed(Mid(top, below, name, v, i, e, p), p, TokensItem(v.items[i]), false).Ctx?
    ensures var it, r := v.items[i], Feed(Mid(top, below, name, v, i, e, p), p, TokensItem(v.items[i]), false);
            if Placeable(it.val, d + 1)
            then r == Mid(top, below, name, v, i + 1, e, p + |EncodeItem(it)|)
            else CtxWeight(r) > CtxWeight(Mid(top, below, name, v, i, e, p)) + Weight(it.val, d + 1)
    decreases v, 2 * (|v.items| - i)
  {
    hide CtxWeight, OpenPast, Feed, TokensItem, EncodeItem;
    var it, done := v.items[i], v.items[..i];
    var f := Frame(name, v.kind, done, e);
    var st := Mid(top, below, name, v, i, e, p);
    assert done + [it] == v.items[..i + 1];
    assert WfItem(v.kind, it);
    assert it.val < it && it < v;
    if Placeable(it.val, d + 1) {
      FeedMember(top, below, f, it, p, false);
    } else {
      NeededMember(top, below, f, it, d, p);
    }
  }

  lemma {:induction false} NeededMember(top: Option<Val>, below: seq<Frame<Scalar>>, f: Frame<Scalar>,
                                        it: Member, d: nat, p: nat)
    requires WfItem(f.kind, it) && !Placeable(it.val, d + 1)
    requires |below| == d < MAX_DEPTH && OpenPast(below, f.end) == d
    requires f.items == [] || Closes(Last(f.items).val) <= Pops(f.kind)
    requires p + |EncodeItem(it)| <= f.end
    requires var st := Ctx(top, Lagging(below, f.name, f.kind, f.items, f.end, p), None);
             Feed(st, p, TokensItem(it), false).Ctx?
    ensures var st := Ctx(top, Lagging(below, f.name, f.kind, f.items, f.end, p), None);
            CtxWeight(Feed(st, p, TokensItem(it), false)) > CtxWeight(st) + Weight(it.val, d + 1)
    decreases it.val, Extra(it.val) + 2
  {
    hide CtxWeight, Feed, Lagging, EncodeKey, Encode, Placeable, OpenPast, Around, Weight, Wf, Closes, Depth, Tokens;
    MemberParts(f.kind, it);
    if it.key.None? {
      NeededUnkeyed(top, below, f, it.val, d, p);
    } else {
      NeededKeyed(top, below, f, it.key.value, it.val, d, p);
    }
  }

  lemma MemberParts(kind: Kind, it: Member)
    requires WfItem(kind, it)
    ensures Wf(it.val)
    ensures it.key.None? ==> Pops(kind) == 1 && TokensItem(it) == Tokens(it.val) && EncodeItem(it) == Encode(it.val)
    ensures it.key.Some? ==>
              && Pops(kind) == 2 && TokensItem(it) == [Key(it.key.value)] + Tokens(it.val)
              && EncodeItem(it) == EncodeKey(it.key.value) + Encode(it.val)
  {
    hide Encode, EncodeKey;
  }

  lemma {:induction false} NeededUnkeyed(top: Option<Val>, below: seq<Frame<Scalar>>, f: Frame<Scalar>,
                                         v: Val, d: nat, p: nat)
    requires Wf(v) && !Placeable(v, d + 1)
    requires |below| == d < MAX_DEPTH && OpenPast(below, f.end) == d && KeyFits(f.kind, None)
    requires f.items == [] || Closes(Last(f.items).val) <= 1
    requires p + |Encode(v)| <= f.end
    requires var st := Ctx(top, Lagging(below, f.name, f.kind, f.items, f.end, p), None);
             Feed(st, p, Tokens(v), false).Ctx?
    ensures var st := Ctx(top, Lagging(below, f.name, f.kind, f.items, f.end, p), None);
            CtxWeight(Feed(st, p, Tokens(v), false)) > CtxWeight(st) + Weight(v, d + 1)
    decreases v, Extra(v) + 1
  {
    hide CtxWeight, Feed, Lagging, Encode, Placeable, OpenPast, Around, Weight, Wf, Closes, Depth, Tokens, Settle;
    var e := f.end;
    var st := Ctx(top, Lagging(below, f.name, f.kind, f.items, e, p), None);
    SettleLag(top, below, f.name, f.kind, f.items, e, p, None, false);
    SettleKeeps(st, p, e);
    SettledAround(top, below, f, None, d, p, p + |Encode(v)|);
    Needed(st, p, v, d + 1);
  }

  lemma {:induction false} NeededKeyed(top: Option<Val>, below: seq<Frame<Scalar>>, f: Frame<Scalar>,
                                       k: seq<byte>, v: Val, d: nat, p: nat)
    requires Wf(v) && !Placeable(v, d + 1)
    requires |below| == d < MAX_DEPTH && OpenPast(below, f.end) == d && KeyFits(f.kind, Some(k))
    requires f.items == [] || Closes(Last(f.items).val) <= 2
    requires p + |EncodeKey(k)| + |Encode(v)| <= f.end
    requires var st := Ctx(top, Lagging(below, f.name, f.kind, f.items, f.end, p), None);
             Feed(st, p, [Key(k)] + Tokens(v), false).Ctx?
    ensures var st := Ctx(top, Lagging(below, f.name, f.kind, f.items, f.end, p), None);
            CtxWeight(Feed(st, p, [Key(k)] + Tokens(v), false)) > CtxWeight(st) + Weight(v, d + 1)
    decreases v, Extra(v) + 1
  {
    hide CtxWeight, Feed, Lagging, EncodeKey, Encode, Placeable, OpenPast, Around, Weight, Wf, Closes, Depth, Tokens;
    var e := f.end;
    var st := Ctx(top, Lagging(below, f.name, f.kind, f.items, e, p), None);
    var q := p + |EncodeKey(k)|;
    SettleKeyed(top, below, f.name, f.kind, f.items, e, p, q, Some(k), false);
    FirstLives(st, p, Key(k), Tokens(v));
    var st1 := Settle(st, p, false).(key := Some(k));
    assert Step(st, p, Key(k), false, Same) == st1;
    SettleKeeps(st, p, e);
    SettleKeeps(st1, q, e);
    KeyWeighsNothing(Settle(st, p, false), Some(k));
    SettledAround(top, below, f, Some(k), d, q, q + |Encode(v)|);
    Needed(st1, q, v, d + 1);
  }

  lemma SettledAround(top: Option<Val>, below: seq<Frame<Scalar>>, f: Frame<Scalar>, key: Option<seq<byte>>,
                      d: nat, p: nat, e: nat)
    requires |below| == d < MAX_DEPTH && OpenPast(below, f.end) == d
    requires p < e <= f.end && KeyFits(f.kind, key)
    ensures Around(Ctx(top, below + [f], key), p, d + 1, e)
  {
    OpenPastPush(below, f, e);
    OpenPastMonotone(below, e, f.end);
    assert Last(below + [f]) == f;
  }

  lemma KeyWeighsNothing(st: Ctx<Scalar>, key: Option<seq<byte>>)
    requires st.Ctx?
    ensures CtxWeight(st.(key := key)) == CtxWeight(st)
  {
  }

  /** What comes out for a value that does not fit has a greater total depth, so it is another tree. */
  lemma MisfiledIsHeavier(p: nat, v: Val)
    requires Wf(v) && !Placeable(v, 0)
    ensures var r := Root(Feed(Init(), p, Tokens(v), false));
            r.Some? ==> Weight(r.value, 0) > Weight(v, 0)
  {
    var r := Feed(Init(), p, Tokens(v), false);
    if r.Ctx? {
      Needed(Init(), p, v, 0);
      if r.stack != [] {
        CollapseWeight(r.stack);
      }
    }
  }

  /**
   * The decoder's exact domain: it returns the value if and only if no container is nested deeper
   * than the stack and no member is followed by one that brings too few pops.
   */
  lemma DecodesExactly(p: nat, v: Val)
    requires Wf(v)
    ensures Root(Feed(Init(), p, Tokens(v), false)) == Some(v)
        <==> Depth(v) <= MAX_DEPTH && SinglePopSafe(v)
  {
    if Placeable(v, 0) {
      FeedRoot(p, v, false);
    } else {
      MisfiledIsHeavier(p, v);
    }
  }

  /** The repaired decoder rebuilds every value that is not nested too deeply. */
  lemma PopAllDecodes(p: nat, v: Val)
    requires Wf(v) && Depth(v) <= MAX_DEPTH
    ensures Root(Feed(Init(), p, Tokens(v), true)) == Some(v)
  {
    FeedRoot(p, v, true);
  }
}
