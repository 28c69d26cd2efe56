/**
 * The stack decoder of opo_val_to_ojc (src/opo/opo.c:533-713) as a machine over tokens.
 * Containers stay on the stack until popped; the code pops at most one finished container
 * per token, `popAll` is the repaired variant that pops every finished one.
 */
module Decoder {
  import opened Bytes
  import opened Trees
  import opened Wire

  // ---- tokens ----

  datatype Token = Scal(x: Scalar) | Key(k: seq<byte>) | Open(kind: Kind, size: nat)

  function TokenBytes(t: Token): (e: seq<byte>)
    ensures |e| > 0
  {
    match t
    case Scal(x) => EncodeScalar(x)
    case Key(k) => EncodeKey(k)
    case Open(kind, size) => [KindTag(kind)] + BE(size, 4)
  }

  function BytesOf(ts: seq<Token>): seq<byte> {
    if ts == [] then [] else TokenBytes(ts[0]) + BytesOf(ts[1..])
  }

  function Tokens(v: Val): (ts: seq<Token>)
    ensures |ts| > 0
    decreases v
  {
    match v
    case Leaf(x) => [Scal(x)]
    case Node(kind, items) => [Open(kind, |EncodeItems(items)|)] + TokensItems(items)
  }

  function TokensItem(it: Member): seq<Token>
    decreases it
  {
    (if it.key.None? then [] else [Key(it.key.value)]) + Tokens(it.val)
  }

  function TokensItems(items: seq<Member>): seq<Token>
    decreases items
  {
    if items == [] then [] else TokensItem(items[0]) + TokensItems(items[1..])
  }

  lemma BytesOfCons(t: Token, rest: seq<Token>)
    ensures BytesOf([t] + rest) == TokenBytes(t) + BytesOf(rest)
  {
    assert ([t] + rest)[1..] == rest;
  }

  lemma {:induction false} BytesOfAppend(a: seq<Token>, b: seq<Token>)
    ensures BytesOf(a + b) == BytesOf(a) + BytesOf(b)
  {
    if a == [] {
      assert a + b == b;
    } else {
      var h, t := a[0], a[1..];
      assert a == [h] + t && a + b == [h] + (t + b);
      calc {
        BytesOf(a + b);
        { BytesOfCons(h, t + b); }
        TokenBytes(h) + BytesOf(t + b);
        { BytesOfAppend(t, b); }
        TokenBytes(h) + (BytesOf(t) + BytesOf(b));
        TokenBytes(h) + BytesOf(t) + BytesOf(b);
        { BytesOfCons(h, t); }
        BytesOf(a) + BytesOf(b);
      }
    }
  }

  lemma BytesOfOne(t: Token)
    ensures BytesOf([t]) == TokenBytes(t)
  {
    assert [t][1..] == [];
    assert BytesOf([t][1..]) == [];
  }

  /** The token stream of a value spells its encoding. */
  lemma {:induction false} TokensSpell(v: Val)
    ensures BytesOf(Tokens(v)) == Encode(v)
    decreases v
  {
    match v
    case Leaf(x) => BytesOfOne(Scal(x));
    case Node(kind, items) =>
      TokensItemsSpell(items);
      BytesOfAppend([Open(kind, |EncodeItems(items)|)], TokensItems(items));
      BytesOfOne(Open(kind, |EncodeItems(items)|));
  }

  lemma {:induction false} TokensItemSpell(it: Member)
    ensures BytesOf(TokensItem(it)) == EncodeItem(it)
    decreases it
  {
    assert it.val < it;
    TokensSpell(it.val);
    if it.key.Some? {
      BytesOfAppend([Key(it.key.value)], Tokens(it.val));
      BytesOfOne(Key(it.key.value));
    } else {
      assert TokensItem(it) == Tokens(it.val);
    }
  }

  lemma {:induction false} TokensItemsSpell(items: seq<Member>)
    ensures BytesOf(TokensItems(items)) == EncodeItems(items)
    decreases items
  {
    if items != [] {
      TokensItemSpell(items[0]);
      TokensItemsSpell(items[1..]);
      BytesOfAppend(TokensItem(items[0]), TokensItems(items[1..]));
    }
  }

  // ---- the machine ----

  /** An open (or finished but not yet popped) container. */
  datatype Frame<L> = Frame(name: Option<seq<byte>>, kind: Kind, items: seq<Item<L>>, end: nat)

  datatype Ctx<L> =
    | Ctx(top: Option<Tree<L>>, stack: seq<Frame<L>>, key: Option<seq<byte>>)
    | Failed

  function Init<L>(): Ctx<L> {
    Ctx(None, [], None)
  }

  function Closed<L>(f: Frame<L>): Item<L> {
    Item(f.name, Node(f.kind, f.items))
  }

  function Append<L>(f: Frame<L>, it: Item<L>): Frame<L> {
    f.(items := f.items + [it])
  }

  function AppendTop<L>(stack: seq<Frame<L>>, it: Item<L>): seq<Frame<L>>
    requires stack != []
  {
    Front(stack) + [Append(Last(stack), it)]
  }

  /** Take the top container off the stack; it is already a member of the one below. */
  function Pop<L>(st: Ctx<L>): Ctx<L>
    requires st.Ctx? && st.stack != []
  {
    var it := Closed(Last(st.stack));
    if |st.stack| == 1 then st.(top := Some(it.val), stack := [])
    else st.(stack := AppendTop(Front(st.stack), it))
  }

  /** The pop test at the head of the loop: one finished container in the code, all when popAll. */
  function Settle<L>(st: Ctx<L>, p: nat, popAll: bool): (r: Ctx<L>)
    requires st.Ctx?
    ensures r.Ctx? && r.key == st.key
    decreases |st.stack|
  {
    if st.stack != [] && Last(st.stack).end <= p then
      if popAll then Settle(Pop(st), p, popAll) else Pop(st)
    else st
  }

  /** push_parse_value for a scalar. */
  function PushLeaf<L>(st: Ctx<L>, x: L): Ctx<L>
    requires st.Ctx?
  {
    if st.stack == [] then st.(top := Some(Leaf(x)))
    else if Last(st.stack).kind.Obj? then
      if st.key.None? then Failed
      else Ctx(st.top, AppendTop(st.stack, Item(st.key, Leaf(x))), None)
    else Ctx(st.top, AppendTop(st.stack, Item(None, Leaf(x))), st.key)
  }

  /** The container cases: the depth check, push_parse_value, then the new stack entry. */
  function PushOpen<L>(st: Ctx<L>, kind: Kind, end: nat): Ctx<L>
    requires st.Ctx?
  {
    if MAX_DEPTH <= |st.stack| then Failed
    else if st.stack == [] then Ctx(None, [Frame(None, kind, [], end)], st.key)
    else if Last(st.stack).kind.Obj? then
      if st.key.None? then Failed
      else Ctx(st.top, st.stack + [Frame(st.key, kind, [], end)], None)
    else Ctx(st.top, st.stack + [Frame(None, kind, [], end)], st.key)
  }

  function Act<L>(st: Ctx<L>, p: nat, t: Token, show: Scalar -> L): Ctx<L>
    requires st.Ctx?
  {
    match t
    case Scal(x) => PushLeaf(st, show(x))
    case Key(k) => st.(key := Some(k))
    case Open(kind, size) => PushOpen(st, kind, p + 5 + size)
  }

  /** One turn of the loop with the token t at offset p; an error ends the loop. */
  function Step<L>(st: Ctx<L>, p: nat, t: Token, popAll: bool, show: Scalar -> L): Ctx<L> {
    if st.Failed? then Failed else Act(Settle(st, p, popAll), p, t, show)
  }

  function Run<L>(st: Ctx<L>, p: nat, ts: seq<Token>, popAll: bool, show: Scalar -> L): Ctx<L>
    decreases |ts|
  {
    if ts == [] then st
    else Run(Step(st, p, ts[0], popAll, show), p + |TokenBytes(ts[0])|, ts[1..], popAll, show)
  }

  /** The tree built so far: every container on the stack closed. */
  function Collapse<L>(stack: seq<Frame<L>>): Item<L>
    requires stack != []
    decreases |stack|
  {
    if |stack| == 1 then Closed(stack[0])
    else Collapse(AppendTop(Front(stack), Closed(Last(stack))))
  }

  /** ctx.top when the loop ends, or None after an error. */
  function Root<L>(st: Ctx<L>): Option<Tree<L>> {
    if st.Failed? then None
    else if st.stack == [] then st.top
    else Some(Collapse(st.stack).val)
  }

  function Same(x: Scalar): Scalar { x }

  /** The machine on the wire scalars themselves. */
  function Feed(st: Ctx<Scalar>, p: nat, ts: seq<Token>, popAll: bool): Ctx<Scalar> {
    Run(st, p, ts, popAll, Same)
  }

  lemma FeedOne(st: Ctx<Scalar>, p: nat, t: Token, rest: seq<Token>, popAll: bool)
    ensures Feed(st, p, [t] + rest, popAll)
         == Feed(Step(st, p, t, popAll, Same), p + |TokenBytes(t)|, rest, popAll)
  {
    assert ([t] + rest)[1..] == rest;
  }

  lemma {:induction false} FeedAppend(st: Ctx<Scalar>, p: nat, a: seq<Token>, b: seq<Token>, popAll: bool)
    ensures Feed(st, p, a + b, popAll) == Feed(Feed(st, p, a, popAll), p + |BytesOf(a)|, b, popAll)
    decreases |a|
  {
    hide Step, TokenBytes;
    if a == [] {
      assert a + b == b;
    } else {
      var h, t := a[0], a[1..];
      var st', p' := Step(st, p, h, popAll, Same), p + |TokenBytes(h)|;
      assert a == [h] + t && a + b == [h] + (t + b);
      FeedOne(st, p, h, t + b, popAll);
      FeedOne(st, p, h, t, popAll);
      BytesOfCons(h, t);
      FeedAppend(st', p', t, b, popAll);
    }
  }

  lemma {:induction false} FeedFailed(p: nat, ts: seq<Token>, popAll: bool)
    ensures Feed(Failed, p, ts, popAll).Failed?
    decreases |ts|
  {
    if ts != [] {
      FeedFailed(p + |TokenBytes(ts[0])|, ts[1..], popAll);
    }
  }

  // ---- when one pop per token is enough ----

  /** How many containers end exactly where v ends. */
  function Closes<L>(v: Tree<L>): nat
    decreases v
  {
    match v
    case Leaf(_) => 0
    case Node(_, items) =>
      if items == [] then 1
      else
        var it := items[|items| - 1];
        assert it.val < it;
        1 + Closes(it.val)
  }

  /** A following element brings one pop, a following member two: its key and its value. */
  function Pops(kind: Kind): nat {
    if kind.Obj? then 2 else 1
  }

  predicate SinglePopSafe<L>(v: Tree<L>)
    decreases v
  {
    match v
    case Leaf(_) => true
    case Node(kind, items) => ItemsSafe(items) && GapsSafe(kind, items)
  }

  predicate ItemsSafe<L>(items: seq<Item<L>>)
    decreases items
  {
    forall i | 0 <= i < |items| :: ItemSafe(items[i])
  }

  predicate ItemSafe<L>(it: Item<L>)
    decreases it
  {
    SinglePopSafe(it.val)
  }

  predicate GapsSafe<L>(kind: Kind, items: seq<Item<L>>)
  {
    forall i | 0 <= i < |items| - 1 :: Closes(items[i].val) <= Pops(kind)
  }

  // ---- the state after a value has been consumed correctly ----

  /** The containers of v that are finished at its end but still on the stack, outermost first. */
  function Chain<L>(name: Option<seq<byte>>, v: Tree<L>, e: nat): (c: seq<Frame<L>>)
    requires v.Node?
    ensures |c| == Closes(v) > 0
    ensures forall f | f in c :: f.end == e
    decreases v
  {
    var n := |v.items|;
    if n == 0 || v.items[n - 1].val.Leaf? then [Frame(name, v.kind, v.items, e)]
    else
      var it := v.items[n - 1];
      assert it.val < it;
      [Frame(name, v.kind, v.items[..n - 1], e)] + Chain(it.key, it.val, e)
  }

  /** Stack `below` with the container (name, kind, items) on it whose last member is closed but unpopped. */
  function Lagging<L>(below: seq<Frame<L>>, name: Option<seq<byte>>, kind: Kind, items: seq<Item<L>>,
                      e: nat, p: nat): seq<Frame<L>>
  {
    var n := |items|;
    if n == 0 || items[n - 1].val.Leaf? then below + [Frame(name, kind, items, e)]
    else below + [Frame(name, kind, items[..n - 1], e)] + Chain(items[n - 1].key, items[n - 1].val, p)
  }

  lemma LaggingAtEnd<L>(below: seq<Frame<L>>, name: Option<seq<byte>>, v: Tree<L>, e: nat)
    requires v.Node?
    ensures Lagging(below, name, v.kind, v.items, e, e) == below + Chain(name, v, e)
  {
  }

  /** The state once v has been consumed from the settled state st; v ends at e. */
  function After<L>(st: Ctx<L>, v: Tree<L>, e: nat): Ctx<L>
    requires st.Ctx?
  {
    if v.Leaf? then PushLeaf(st, v.leaf)
    else Ctx(if st.stack == [] then None else st.top,
             st.stack + Chain(if st.stack == [] then None else st.key, v, e),
             None)
  }

  /** st can take a value at p: the current container is unfinished and has its key if it needs one. */
  predicate Ready<L>(st: Ctx<L>, p: nat) {
    && st.Ctx?
    && (st.stack == [] ==> st.key.None?)
    && (st.stack != [] ==> Last(st.stack).end > p && KeyFits(Last(st.stack).kind, st.key))
  }

  /** One closed member below an open container is popped into it. */
  lemma PopInto<L>(st: Ctx<L>, below: seq<Frame<L>>, f: Frame<L>, g: Frame<L>, p: nat)
    requires st.Ctx? && st.stack == below + [f, g] && g.end <= p < f.end
    ensures Settle(st, p, false) == st.(stack := below + [Append(f, Closed(g))])
    ensures Settle(st, p, true) == st.(stack := below + [Append(f, Closed(g))])
  {
    assert Front(st.stack) == below + [f];
    assert Front(below + [f]) == below;
    assert Pop(st).stack == below + [Append(f, Closed(g))];
  }

  /** Popping the container g off f makes it a member of f. */
  lemma PopTop<L>(st: Ctx<L>, below: seq<Frame<L>>, f: Frame<L>, g: Frame<L>)
    requires st.Ctx? && st.stack == below + [f, g]
    ensures Pop(st) == st.(stack := below + [Append(f, Closed(g))])
  {
    assert Front(st.stack) == below + [f];
    assert Front(below + [f]) == below;
  }

  /** Popping a chain leaves the value as a member of the container below; popping goes on from there. */
  lemma {:induction false} PopChainStep<L>(st: Ctx<L>, below: seq<Frame<L>>, f: Frame<L>,
                                           name: Option<seq<byte>>, v: Tree<L>, p: nat)
    requires v.Node? && st.Ctx?
    requires st.stack == below + [f] + Chain(name, v, p)
    ensures Settle(st, p, true) == Settle(st.(stack := below + [Append(f, Item(name, v))]), p, true)
    decreases v
  {
    var g' := Frame(name, v.kind, v.items, p);
    ChainParts(st, below, f, name, v, p);
    FinishedPops(st, below, f, g', p);
    if |v.items| > 0 && v.items[|v.items| - 1].val.Node? {
      var it := v.items[|v.items| - 1];
      assert it.val < it;
      var g := Frame(name, v.kind, v.items[..|v.items| - 1], p);
      hide *;
      PopChainStep(st, below + [f], g, it.key, it.val, p);
      AppendItem(g, it, v.items);
    }
  }

  lemma ChainParts<L>(st: Ctx<L>, below: seq<Frame<L>>, f: Frame<L>, name: Option<seq<byte>>, v: Tree<L>, p: nat)
    requires v.Node? && st.Ctx?
    requires st.stack == below + [f] + Chain(name, v, p)
    ensures if |v.items| > 0 && v.items[|v.items| - 1].val.Node?
            then
              var it := v.items[|v.items| - 1];
              && st.stack == below + [f] + [Frame(name, v.kind, v.items[..|v.items| - 1], p)] + Chain(it.key, it.val, p)
              && v.items[..|v.items| - 1] + [it] == v.items
            else st.stack == below + [f] + [Frame(name, v.kind, v.items, p)]
  {
  }

  /** A finished container on top of f goes into f. */
  lemma FinishedPops<L>(st: Ctx<L>, below: seq<Frame<L>>, f: Frame<L>, g: Frame<L>, p: nat)
    requires st.Ctx? && g.end <= p
    ensures Settle(st.(stack := below + [f] + [g]), p, true) == Settle(st.(stack := below + [Append(f, Closed(g))]), p, true)
  {
    var mid := st.(stack := below + [f, g]);
    assert below + [f] + [g] == below + [f, g];
    PopTop(mid, below, f, g);
    assert Last(mid.stack) == g;
    assert Settle(mid, p, true) == Settle(Pop(mid), p, true);
  }

  lemma AppendItem<L>(g: Frame<L>, it: Item<L>, items: seq<Item<L>>)
    requires g.items + [it] == items
    ensures Append(g, Item(it.key, it.val)) == g.(items := items)
  {
  }

  /** Popping everything folds a whole chain back into the value it came from. */
  lemma PopAllChain<L>(st: Ctx<L>, below: seq<Frame<L>>, f: Frame<L>,
                       name: Option<seq<byte>>, v: Tree<L>, p: nat)
    requires v.Node? && st.Ctx? && p < f.end
    requires st.stack == below + [f] + Chain(name, v, p)
    ensures Settle(st, p, true) == st.(stack := below + [Append(f, Item(name, v))])
  {
    PopChainStep(st, below, f, name, v, p);
  }
}
