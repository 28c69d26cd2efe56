/** The decoder rebuilds every value that needs no more pops than it makes. */
module DecoderCorrect {
  import opened Bytes
  import opened Trees
  import opened Wire
  import opened Decoder

  /** The current container has at most one finished member above it, or all are popped. */
  lemma SettleLag(top: Option<Val>, below: seq<Frame<Scalar>>, name: Option<seq<byte>>, kind: Kind,
                  items: seq<Member>, e: nat, p: nat, key: Option<seq<byte>>, popAll: bool)
    requires p < e
    requires items == [] || Closes(Last(items).val) <= 1 || popAll
    ensures Settle(Ctx(top, Lagging(below, name, kind, items, e, p), key), p, popAll)
         == Ctx(top, below + [Frame(name, kind, items, e)], key)
  {
    var n := |items|;
    var st := Ctx(top, Lagging(below, name, kind, items, e, p), key);
    if n > 0 && items[n - 1].val.Node? {
      var it := items[n - 1];
      var f := Frame(name, kind, items[..n - 1], e);
      assert items[..n - 1] + [it] == items;
      if popAll {
        PopAllChain(st, below, f, it.key, it.val, p);
      } else {
        var c := Chain(it.key, it.val, p);
        assert c == [Frame(it.key, it.val.kind, it.val.items, p)];
        assert st.stack == below + [f, c[0]];
        PopInto(st, below, f, c[0], p);
      }
    }
  }

  /** Two finished members above the current container go with two pops. */
  lemma SettleLagTwice(top: Option<Val>, below: seq<Frame<Scalar>>, name: Option<seq<byte>>, kind: Kind,
                       items: seq<Member>, e: nat, p: nat, q: nat, key: Option<seq<byte>>)
    requires p <= q < e
    requires items != [] && Closes(Last(items).val) == 2
    ensures var st := Settle(Ctx(top, Lagging(below, name, kind, items, e, p), None), p, false);
            st.Ctx? && Settle(st.(key := key), q, false) == Ctx(top, below + [Frame(name, kind, items, e)], key)
  {
    var n := |items|;
    var it := items[n - 1];
    var f := Frame(name, kind, items[..n - 1], e);
    assert items[..n - 1] + [it] == items;
    var xs := it.val.items;
    var m := |xs|;
    var jt := xs[m - 1];
    assert xs[..m - 1] + [jt] == xs;
    var g := Frame(it.key, it.val.kind, xs[..m - 1], p);
    var h := Frame(jt.key, jt.val.kind, jt.val.items, p);
    assert Chain(it.key, it.val, p) == [g] + Chain(jt.key, jt.val, p) == [g] + [h];
    var st := Ctx(top, Lagging(below, name, kind, items, e, p), None);
    assert st.stack == below + [f] + [g, h];
    assert Front(st.stack) == below + [f] + [g];
    assert Front(below + [f] + [g]) == below + [f];
    var g' := Frame(it.key, it.val.kind, xs, p);
    assert Append(g, Closed(h)) == g';
    assert Pop(st).stack == below + [f] + [g'] == below + [f, g'];
    PopInto(Pop(st).(key := key), below, f, g', q);
  }

  ghost predicate Accepts(v: Val, popAll: bool) {
    popAll || SinglePopSafe(v)
  }

  /** A value fed to a settled state is added whole; its own containers are left to be popped. */
  lemma {:induction false} FeedValue(st: Ctx<Scalar>, p: nat, v: Val, popAll: bool)
    requires Wf(v) && Accepts(v, popAll)
    requires st.Ctx? && Ready(Settle(st, p, popAll), p)
    requires |Settle(st, p, popAll).stack| + Depth(v) <= MAX_DEPTH
    ensures Feed(st, p, Tokens(v), popAll) == After(Settle(st, p, popAll), v, p + |Encode(v)|)
    decreases v, Extra(v)
  {
    hide *;
    ExtraOfNode(v);
    var st1 := Settle(st, p, popAll);
    var e := p + |Encode(v)|;
    match v
    case Leaf(x) =>
      LeafTurn(st, p, x, popAll);
    case Node(kind, items) =>
      var name := if st1.stack == [] then None else st1.key;
      var top := if st1.stack == [] then None else st1.top;
      OpenTurn(st, p, v, popAll);
      assert items[0..] == items;
      FeedItems(top, st1.stack, name, v, 0, e, p + 5, popAll);
      MidAtEnd(st1, top, name, v, e);
  }

  lemma LeafTurn(st: Ctx<Scalar>, p: nat, x: Scalar, popAll: bool)
    requires st.Ctx?
    ensures Feed(st, p, Tokens(Leaf(x)), popAll) == After(Settle(st, p, popAll), Leaf(x), p + |Encode(Leaf(x))|)
  {
    FeedOne(st, p, Scal(x), [], popAll);
    assert [Scal(x)] + [] == Tokens(Leaf(x));
  }

  /** A container token opens an empty container on the settled stack. */
  lemma OpenStep(st1: Ctx<Scalar>, p: nat, v: Val)
    requires v.Node? && Ready(st1, p) && |st1.stack| + Depth(v) <= MAX_DEPTH
    ensures |st1.stack| < MAX_DEPTH && |Encode(v)| == 5 + |EncodeItems(v.items)|
    ensures Act(st1, p, Open(v.kind, |EncodeItems(v.items)|), Same)
         == Mid(if st1.stack == [] then None else st1.top, st1.stack,
                if st1.stack == [] then None else st1.key, v, 0, p + |Encode(v)|, p + 5)
    ensures Tokens(v) == [Open(v.kind, |EncodeItems(v.items)|)] + TokensItems(v.items)
  {
    assert v.items[..0] == [];
  }

  lemma OpenLength(st: Ctx<Scalar>, p: nat, t: Token, popAll: bool)
    requires st.Ctx? && t.Open?
    ensures |TokenBytes(t)| == 5 && Step(st, p, t, popAll, Same) == Act(Settle(st, p, popAll), p, t, Same)
  {
  }

  lemma OpenTurn(st: Ctx<Scalar>, p: nat, v: Val, popAll: bool)
    requires v.Node? && st.Ctx? && Ready(Settle(st, p, popAll), p)
    requires |Settle(st, p, popAll).stack| + Depth(v) <= MAX_DEPTH
    ensures var st1 := Settle(st, p, popAll);
            && |Encode(v)| == 5 + |EncodeItems(v.items)|
            && |st1.stack| < MAX_DEPTH
            && Feed(st, p, Tokens(v), popAll)
            == Feed(Mid(if st1.stack == [] then None else st1.top, st1.stack,
                        if st1.stack == [] then None else st1.key, v, 0, p + |Encode(v)|, p + 5),
                    p + 5, TokensItems(v.items), popAll)
  {
    hide *;
    var t := Open(v.kind, |EncodeItems(v.items)|);
    OpenLength(st, p, t, popAll);
    FeedOne(st, p, t, TokensItems(v.items), popAll);
    OpenStep(Settle(st, p, popAll), p, v);
  }

  lemma MidAtEnd(st: Ctx<Scalar>, top: Option<Val>, name: Option<seq<byte>>, v: Val, e: nat)
    requires v.Node? && st.Ctx?
    requires name == (if st.stack == [] then None else st.key) && top == (if st.stack == [] then None else st.top)
    ensures Mid(top, st.stack, name, v, |v.items|, e, e) == After(st, v, e)
  {
    assert v.items[..|v.items|] == v.items;
    LaggingAtEnd(st.stack, name, v, e);
  }

  /** The context at p between members: the first i members of v are in, e is v's end. */
  ghost function Mid(top: Option<Val>, below: seq<Frame<Scalar>>, name: Option<seq<byte>>, v: Val,
                     i: nat, e: nat, p: nat): (st: Ctx<Scalar>)
    requires v.Node? && i <= |v.items|
    ensures st.Ctx?
  {
    Ctx(top, Lagging(below, name, v.kind, v.items[..i], e, p), None)
  }

  lemma {:induction false} FeedItems(top: Option<Val>, below: seq<Frame<Scalar>>, name: Option<seq<byte>>,
                                     v: Val, i: nat, e: nat, p: nat, popAll: bool)
    requires v.Node? && Wf(v) && Accepts(v, popAll) && i <= |v.items|
    requires e == p + |EncodeItems(v.items[i..])|
    requires |below| + Depth(v) <= MAX_DEPTH
    ensures Feed(Mid(top, below, name, v, i, e, p), p, TokensItems(v.items[i..]), popAll)
         == Mid(top, below, name, v, |v.items|, e, e)
    decreases v, 2 * (|v.items| - i) + 1
  {
    hide Mid, Step, TokensItem, EncodeItem, Depth, Wf, SinglePopSafe;
    if i < |v.items| {
      hide Feed;
      var it := v.items[i];
      assert v.items[i..][1..] == v.items[i + 1..];
      FeedItem(top, below, name, v, i, e, p, popAll);
      TokensItemSpell(it);
      FeedAppend(Mid(top, below, name, v, i, e, p), p, TokensItem(it), TokensItems(v.items[i + 1..]), popAll);
      FeedItems(top, below, name, v, i + 1, e, p + |EncodeItem(it)|, popAll);
    }
  }

  /** The key token's pop and the value token's pop together settle up to two finished members. */
  lemma SettleKeyed(top: Option<Val>, below: seq<Frame<Scalar>>, name: Option<seq<byte>>, kind: Kind,
                    items: seq<Member>, e: nat, p: nat, q: nat, key: Option<seq<byte>>, popAll: bool)
    requires p <= q < e
    requires items == [] || Closes(Last(items).val) <= 2 || popAll
    ensures var st := Settle(Ctx(top, Lagging(below, name, kind, items, e, p), None), p, popAll);
            st.Ctx? && Settle(st.(key := key), q, popAll) == Ctx(top, below + [Frame(name, kind, items, e)], key)
  {
    if items == [] || Closes(Last(items).val) <= 1 || popAll {
      SettleLag(top, below, name, kind, items, e, p, None, popAll);
    } else {
      SettleLagTwice(top, below, name, kind, items, e, p, q, key);
    }
  }

  /** What a member needs of the members before it. */
  lemma Gap(v: Val, i: nat)
    requires v.Node? && SinglePopSafe(v) && i < |v.items|
    ensures SinglePopSafe(v.items[i].val)
    ensures i > 0 ==> Closes(Last(v.items[..i]).val) <= Pops(v.kind)
  {
    assert ItemsSafe(v.items) && GapsSafe(v.kind, v.items);
    assert ItemSafe(v.items[i]);
    if i > 0 {
      assert Last(v.items[..i]) == v.items[i - 1];
    }
  }

  lemma AfterInto(st: Ctx<Scalar>, below: seq<Frame<Scalar>>, f: Frame<Scalar>, it: Member, e: nat)
    requires st.Ctx? && st.stack == below + [f] && st.key == it.key && KeyFits(f.kind, it.key)
    ensures After(st, it.val, e)
         == Ctx(st.top, Lagging(below, f.name, f.kind, f.items + [it], f.end, e), None)
  {
    assert (f.items + [it])[..|f.items|] == f.items;
    assert Front(st.stack) == below;
  }

  function Extra(v: Val): nat {
    if v.Node? then 2 * |v.items| + 2 else 0
  }

  lemma ExtraOfNode(v: Val)
    ensures v.Node? ==> Extra(v) == 2 * |v.items| + 2
  {
  }

  /** One more member for the container f, whose last member may still be on the stack. */
  lemma {:induction false} FeedMember(top: Option<Val>, below: seq<Frame<Scalar>>, f: Frame<Scalar>,
                                      it: Member, p: nat, popAll: bool)
    requires WfItem(f.kind, it) && Accepts(it.val, popAll)
    requires f.items == [] || Closes(Last(f.items).val) <= Pops(f.kind) || popAll
    requires p + |EncodeItem(it)| <= f.end
    requires |below| + 1 + Depth(it.val) <= MAX_DEPTH
    ensures Feed(Ctx(top, Lagging(below, f.name, f.kind, f.items, f.end, p), None), p, TokensItem(it), popAll)
         == Ctx(top, Lagging(below, f.name, f.kind, f.items + [it], f.end, p + |EncodeItem(it)|), None)
    decreases it.val, Extra(it.val) + 1
  {
    hide *;
    var st := Ctx(top, Lagging(below, f.name, f.kind, f.items, f.end, p), None);
    var settled := Ctx(top, below + [f], it.key);
    var e := p + |EncodeItem(it)|;
    WfItemParts(f.kind, it);
    AfterInto(settled, below, f, it, e);
    if it.key.None? {
      SettleLag(top, below, f.name, f.kind, f.items, f.end, p, None, popAll);
      SettledReady(top, below, f, it.key, p);
      FeedValue(st, p, it.val, popAll);
    } else {
      var q := p + |EncodeKey(it.key.value)|;
      SettleKeyed(top, below, f.name, f.kind, f.items, f.end, p, q, it.key, popAll);
      var st1 := Settle(st, p, popAll).(key := it.key);
      KeyTurn(st, p, it.key.value, Tokens(it.val), popAll);
      SettledReady(top, below, f, it.key, q);
      FeedValue(st1, q, it.val, popAll);
    }
  }

  lemma WfItemParts(kind: Kind, it: Member)
    requires WfItem(kind, it)
    ensures Wf(it.val) && KeyFits(kind, it.key) && |Encode(it.val)| > 0
    ensures it.key.None? ==> Pops(kind) == 1 && TokensItem(it) == Tokens(it.val) && |EncodeItem(it)| == |Encode(it.val)|
    ensures it.key.Some? ==>
              && Pops(kind) == 2 && TokensItem(it) == [Key(it.key.value)] + Tokens(it.val)
              && |EncodeItem(it)| == |EncodeKey(it.key.value)| + |Encode(it.val)|
  {
  }

  /** A key token only settles and stores the key. */
  lemma KeyTurn(st: Ctx<Scalar>, p: nat, k: seq<byte>, rest: seq<Token>, popAll: bool)
    requires st.Ctx?
    ensures var st1 := Settle(st, p, popAll);
            st1.Ctx? && Feed(st, p, [Key(k)] + rest, popAll)
                     == Feed(st1.(key := Some(k)), p + |EncodeKey(k)|, rest, popAll)
  {
    FeedOne(st, p, Key(k), rest, popAll);
  }

  lemma SettledReady(top: Option<Val>, below: seq<Frame<Scalar>>, f: Frame<Scalar>, key: Option<seq<byte>>, p: nat)
    requires p < f.end && KeyFits(f.kind, key)
    ensures Ready(Ctx(top, below + [f], key), p)
  {
  }

  lemma {:induction false} FeedItem(top: Option<Val>, below: seq<Frame<Scalar>>, name: Option<seq<byte>>,
                                    v: Val, i: nat, e: nat, p: nat, popAll: bool)
    requires v.Node? && Wf(v) && Accepts(v, popAll) && i < |v.items|
    requires e >= p + |EncodeItem(v.items[i])|
    requires |below| + Depth(v) <= MAX_DEPTH
    ensures Feed(Mid(top, below, name, v, i, e, p), p, TokensItem(v.items[i]), popAll)
         == Mid(top, below, name, v, i + 1, e, p + |EncodeItem(v.items[i])|)
    decreases v, 2 * (|v.items| - i)
  {
    hide Lagging, Feed, TokensItem, EncodeItem;
    var it, done := v.items[i], v.items[..i];
    assert done + [it] == v.items[..i + 1];
    assert WfItem(v.kind, it);
    if !popAll {
      Gap(v, i);
    }
    DepthItemsBounds(v.items, i);
    assert it.val < it && it < v;
    FeedMember(top, below, Frame(name, v.kind, done, e), it, p, popAll);
  }

  /** Closing a lone chain gives back its value. */
  lemma {:induction false} CollapseChain(below: seq<Frame<Scalar>>, name: Option<seq<byte>>, v: Val, e: nat)
    requires v.Node?
    ensures Collapse(below + Chain(name, v, e)) == Collapse(below + [Frame(name, v.kind, v.items, e)])
    decreases v
  {
    var n := |v.items|;
    if n > 0 && v.items[n - 1].val.Node? {
      var it := v.items[n - 1];
      assert it.val < it;
      var g := Frame(name, v.kind, v.items[..n - 1], e);
      assert below + Chain(name, v, e) == below + [g] + Chain(it.key, it.val, e);
      CollapseChain(below + [g], it.key, it.val, e);
      var h := Frame(it.key, it.val.kind, it.val.items, e);
      var full := below + [g] + [h];
      assert Front(full) == below + [g] && Last(full) == h;
      assert Front(below + [g]) == below;
      assert v.items[..n - 1] + [it] == v.items;
    }
  }

  lemma RootAfter(v: Val, e: nat)
    ensures Root(After(Init(), v, e)) == Some(v)
  {
    if v.Node? {
      CollapseChain([], None, v, e);
      assert [] + Chain(None, v, e) == Chain(None, v, e);
      assert [] + [Frame(None, v.kind, v.items, e)] == [Frame(None, v.kind, v.items, e)];
    }
  }

  /** Every value the machine accepts comes back from an empty context. */
  lemma FeedRoot(p: nat, v: Val, popAll: bool)
    requires Wf(v) && Accepts(v, popAll) && Depth(v) <= MAX_DEPTH
    ensures Root(Feed(Init(), p, Tokens(v), popAll)) == Some(v)
  {
    hide Wf, SinglePopSafe, Root, After, Feed;
    FeedValue(Init(), p, v, popAll);
    RootAfter(v, p + |Encode(v)|);
  }
}
