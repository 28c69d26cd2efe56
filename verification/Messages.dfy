/** Whole messages: opo_ojc_to_msg, opo_msg_to_ojc and their round trip (src/opo/opo.c:495-713). */
module Messages {
  import opened Bytes
  import opened Trees
  import opened Wire
  import opened Decoder
  import opened DecoderExact
  import opened Ojcs
  import T = Times
  import Uuids

  // ---- the machine commutes with changing the leaves ----

  function MapFrame<A, B>(f: A -> B, fr: Frame<A>): Frame<B> {
    Frame(fr.name, fr.kind, MapItems(f, fr.items), fr.end)
  }

  function MapStack<A, B>(f: A -> B, stack: seq<Frame<A>>): (r: seq<Frame<B>>)
    ensures |r| == |stack|
    ensures forall i :: 0 <= i < |stack| ==> r[i] == MapFrame(f, stack[i])
  {
    if stack == [] then [] else [MapFrame(f, stack[0])] + MapStack(f, stack[1..])
  }

  function MapOption<A, B>(f: A -> B, v: Option<Tree<A>>): Option<Tree<B>> {
    if v.None? then None else Some(Map(f, v.value))
  }

  function MapCtx<A, B>(f: A -> B, st: Ctx<A>): Ctx<B> {
    if st.Failed? then Failed else Ctx(MapOption(f, st.top), MapStack(f, st.stack), st.key)
  }

  lemma MapAppendTop<A, B>(f: A -> B, stack: seq<Frame<A>>, it: Item<A>)
    requires stack != []
    ensures MapStack(f, AppendTop(stack, it)) == AppendTop(MapStack(f, stack), MapItem(f, it))
  {
    MapItemsSnoc(f, Last(stack).items, it);
  }

  lemma MapFront<A, B>(f: A -> B, stack: seq<Frame<A>>)
    requires stack != []
    ensures MapStack(f, Front(stack)) == Front(MapStack(f, stack))
  {
  }

  lemma MapPop<A, B>(f: A -> B, st: Ctx<A>)
    requires st.Ctx? && st.stack != []
    ensures MapCtx(f, Pop(st)) == Pop(MapCtx(f, st))
  {
    if |st.stack| > 1 {
      MapFront(f, st.stack);
      MapAppendTop(f, Front(st.stack), Closed(Last(st.stack)));
    }
  }

  lemma MapSettle<A, B>(f: A -> B, st: Ctx<A>, p: nat)
    requires st.Ctx?
    ensures MapCtx(f, Settle(st, p, false)) == Settle(MapCtx(f, st), p, false)
  {
    if st.stack != [] {
      MapPop(f, st);
    }
  }

  lemma MapPushLeaf(f: Scalar -> OjcLeaf, st: Ctx<Scalar>, x: Scalar)
    requires st.Ctx?
    ensures MapCtx(f, PushLeaf(st, x)) == PushLeaf(MapCtx(f, st), f(x))
  {
    if st.stack != [] {
      var it: Member := Item(if Last(st.stack).kind.Obj? then st.key else None, Leaf(x));
      assert MapItem(f, it) == Item(it.key, Leaf(f(x)));
      MapAppendTop(f, st.stack, it);
      hide AppendTop, MapItems;
    }
  }

  lemma MapPushOpen(f: Scalar -> OjcLeaf, st: Ctx<Scalar>, kind: Kind, end: nat)
    requires st.Ctx?
    ensures MapCtx(f, PushOpen(st, kind, end)) == PushOpen(MapCtx(f, st), kind, end)
  {
  }

  lemma MapAct(f: Scalar -> OjcLeaf, st: Ctx<Scalar>, p: nat, t: Token)
    requires st.Ctx?
    ensures MapCtx(f, Act(st, p, t, Same)) == Act(MapCtx(f, st), p, t, f)
  {
    hide PushLeaf, PushOpen, MapStack, MapItems;
    match t
    case Scal(x) => MapPushLeaf(f, st, x);
    case Key(k) =>
    case Open(kind, size) => MapPushOpen(f, st, kind, p + 5 + size);
  }

  lemma MapStep(f: Scalar -> OjcLeaf, st: Ctx<Scalar>, p: nat, t: Token)
    ensures MapCtx(f, Step(st, p, t, false, Same)) == Step(MapCtx(f, st), p, t, false, f)
  {
    hide Act, Settle, MapStack;
    if st.Ctx? {
      MapSettle(f, st, p);
      MapAct(f, Settle(st, p, false), p, t);
    }
  }

  lemma {:induction false} MapRun(f: Scalar -> OjcLeaf, st: Ctx<Scalar>, p: nat, ts: seq<Token>)
    ensures Run(MapCtx(f, st), p, ts, false, f) == MapCtx(f, Feed(st, p, ts, false))
    decreases |ts|
  {
    hide Step, MapCtx;
    if ts != [] {
      MapStep(f, st, p, ts[0]);
      MapRun(f, Step(st, p, ts[0], false, Same), p + |TokenBytes(ts[0])|, ts[1..]);
    }
  }

  lemma {:induction false} MapCollapse<A, B>(f: A -> B, stack: seq<Frame<A>>)
    requires stack != []
    ensures Collapse(MapStack(f, stack)) == MapItem(f, Collapse(stack))
    decreases |stack|
  {
    if |stack| > 1 {
      MapFront(f, stack);
      MapAppendTop(f, Front(stack), Closed(Last(stack)));
      MapCollapse(f, AppendTop(Front(stack), Closed(Last(stack))));
    }
  }

  lemma MapRoot<A, B>(f: A -> B, st: Ctx<A>)
    ensures Root(MapCtx(f, st)) == MapOption(f, Root(st))
  {
    if st.Ctx? && st.stack != [] {
      MapCollapse(f, st.stack);
    }
  }

  lemma {:induction false} MapWeight<A, B>(f: A -> B, v: Tree<A>, d: nat)
    ensures Weight(Map(f, v), d) == Weight(v, d)
    decreases v
  {
    if v.Node? {
      MapWeightItems(f, v.items, d + 1);
    }
  }

  lemma {:induction false} MapWeightItems<A, B>(f: A -> B, items: seq<Item<A>>, d: nat)
    ensures WeightItems(MapItems(f, items), d) == WeightItems(items, d)
    decreases items
  {
    if items != [] {
      var it := items[|items| - 1];
      assert it.val < it;
      MapWeight(f, it.val, d);
      MapWeightItems(f, items[..|items| - 1], d);
      assert MapItems(f, items)[..|items| - 1] == MapItems(f, items[..|items| - 1]);
    }
  }

  // ---- the decoder as a loop over bytes ----

  predicate TokenOk(t: Token) {
    match t
    case Scal(x) => WfScalar(x)
    case Key(k) => |k| <= MAX_KEY
    case Open(_, size) => size < 0x1_0000_0000
  }

  predicate TokensOk(ts: seq<Token>) {
    forall i :: 0 <= i < |ts| ==> TokenOk(ts[i])
  }

  lemma {:induction false} ValueTokensOk(v: Val)
    requires Wf(v)
    ensures TokensOk(Tokens(v))
    decreases v
  {
    if v.Node? {
      ItemsTokensOk(v.kind, v.items);
    }
  }

  lemma {:induction false} ItemsTokensOk(kind: Kind, items: seq<Member>)
    requires WfItems(kind, items)
    ensures TokensOk(TokensItems(items))
    decreases items
  {
    if items != [] {
      assert WfItem(kind, items[0]);
      assert items[0].val < items[0];
      ValueTokensOk(items[0].val);
      ItemsTokensOk(kind, items[1..]);
    }
  }

  function Shower(cal: T.Calendar): Scalar -> OjcLeaf {
    (x: Scalar) => Show(cal, x)
  }

  lemma ShowerShows(cal: T.Calendar, x: Scalar)
    ensures Shower(cal)(x) == Show(cal, x)
  {
  }

  /** What reading one token's bytes yields. */
  lemma TokenRead(s: seq<byte>, p: nat, t: Token)
    requires TokenOk(t) && At(s, p, TokenBytes(t))
    ensures HeaderFits(s, p)
    ensures t.Open? <==> IsContainerTag(s[p])
    ensures t.Key? <==> IsKeyTag(s[p])
    ensures t.Open? ==> p + 5 <= |s| && t.kind == (if s[p] == VAL_OBJ then Obj else Arr) && FromBE(s[p + 1..p + 5]) == t.size
    ensures !t.Open? ==> BSize(s, p) == |TokenBytes(t)| && p + BSize(s, p) <= |s|
    ensures t.Key? ==> ReadKey(s, p) == Some(t.k)
    ensures t.Scal? ==> ReadScalar(s, p) == Some(t.x)
  {
    match t
    case Scal(x) => ReadScalarInverts(s, p, x);
    case Key(k) => ReadKeyInverts(s, p, k);
    case Open(kind, size) =>
      Pow256Values();
      assert [KindTag(kind)] + BE(size, 4) + [] == TokenBytes(t);
      HeaderAt(s, p, KindTag(kind), size, []);
  }

  lemma ReadTokens(s: seq<byte>, p: nat, ts: seq<Token>)
    requires ts != [] && TokensOk(ts) && At(s, p, BytesOf(ts))
    ensures TokenOk(ts[0]) && At(s, p, TokenBytes(ts[0]))
    ensures TokensOk(ts[1..]) && At(s, p + |TokenBytes(ts[0])|, BytesOf(ts[1..]))
    ensures |BytesOf(ts)| == |TokenBytes(ts[0])| + |BytesOf(ts[1..])|
  {
    hide TokenBytes, TokenOk, BytesOf, At;
    assert ts == [ts[0]] + ts[1..];
    BytesOfCons(ts[0], ts[1..]);
    AtSplit(s, p, TokenBytes(ts[0]), BytesOf(ts[1..]));
  }

  lemma Started<L>()
    ensures Init<L>().Ctx?
  {
  }

  lemma NonEmpty(ts: seq<Token>)
    ensures ts == [] <==> |BytesOf(ts)| == 0
  {
  }

  /** One turn of the loop, token kind by token kind. */
  lemma RunTurn(st: Ctx<OjcLeaf>, p: nat, ts: seq<Token>, show: Scalar -> OjcLeaf)
    requires st.Ctx? && ts != []
    ensures var t, st1 := ts[0], Settle(st, p, false);
            && st1.Ctx?
            && Run(st, p, ts, false, show) == Run(Act(st1, p, t, show), p + |TokenBytes(t)|, ts[1..], false, show)
            && (t.Scal? ==> Act(st1, p, t, show) == PushLeaf(st1, show(t.x)))
            && (t.Key? ==> Act(st1, p, t, show) == st1.(key := Some(t.k)))
            && (t.Open? ==> Act(st1, p, t, show) == PushOpen(st1, t.kind, p + 5 + t.size) && |TokenBytes(t)| == 5)
  {
  }

  lemma {:induction false} RunFailed(p: nat, ts: seq<Token>, show: Scalar -> OjcLeaf)
    ensures var r := Run(Failed, p, ts, false, show);
            r == Failed && Root(r) == None
    decreases |ts|
  {
    if ts != [] {
      RunFailed(p + |TokenBytes(ts[0])|, ts[1..], show);
    }
  }

  lemma RunDone(st: Ctx<OjcLeaf>, p: nat, show: Scalar -> OjcLeaf)
    ensures Run(st, p, [], false, show) == st
  {
  }

  /** The machine on shown leaves gives the shown value exactly on the decoder's domain. */
  lemma ShownExactly(cal: T.Calendar, p: nat, v: Val)
    requires Wf(v)
    ensures Root(Run(Init(), p, Tokens(v), false, Shower(cal))) == Some(FromVal(cal, v))
        <==> Depth(v) <= MAX_DEPTH && SinglePopSafe(v)
  {
    var f := Shower(cal);
    var w := Root(Feed(Init(), p, Tokens(v), false));
    MapRun(f, Init(), p, Tokens(v));
    assert MapCtx(f, Init()) == Init();
    MapRoot(f, Feed(Init(), p, Tokens(v), false));
    assert FromVal(cal, v) == Map(f, v);
    DecodesExactly(p, v);
    if w.Some? && w != Some(v) {
      MisfiledIsHeavier(p, v);
      MapWeight(f, v, 0);
      MapWeight(f, w.value, 0);
    }
  }

  /** opo_val_to_ojc on the bytes of v. */
  method ValToOjc(cal: T.Calendar, s: seq<byte>, p: nat, ghost v: Val) returns (r: Option<Ojc>)
    requires Wf(v) && At(s, p, Encode(v))
    ensures r == Root(Run(Init(), p, Tokens(v), false, Shower(cal)))
    ensures r == Some(FromVal(cal, v)) <==> Depth(v) <= MAX_DEPTH && SinglePopSafe(v)
  {
    hide *;
    SelfDelimiting(s, p, v);
    TokensSpell(v);
    ValueTokensOk(v);
    var end := p + BSize(s, p);
    var pos := p;
    var ctx: Ctx<OjcLeaf> := Init();
    ghost var rest := Tokens(v);
    Started<OjcLeaf>();
    while pos < end
      invariant ctx.Ctx? && p <= pos
      invariant TokensOk(rest) && At(s, pos, BytesOf(rest)) && pos + |BytesOf(rest)| == end
      invariant Run(ctx, pos, rest, false, Shower(cal)) == Run(Init(), p, Tokens(v), false, Shower(cal))
      decreases end - pos
    {
      NonEmpty(rest);
      ReadTokens(s, pos, rest);
      TokenRead(s, pos, rest[0]);
      RunTurn(ctx, pos, rest, Shower(cal));
      ctx := Settle(ctx, pos, false);
      var tag := s[pos];
      if IsContainerTag(tag) {
        var size := ReadUint(s, pos + 1, 4);
        pos := pos + 5;
        ctx := PushOpen(ctx, if tag == VAL_OBJ then Obj else Arr, pos + size);
      } else if IsKeyTag(tag) {
        ctx := ctx.(key := ReadKey(s, pos));
        pos := pos + BSize(s, pos);
      } else {
        var x := ReadScalar(s, pos).value;
        ctx := PushLeaf(ctx, Show(cal, x));
        ShowerShows(cal, x);
        pos := pos + BSize(s, pos);
      }
      if ctx.Failed? {
        RunFailed(pos, rest[1..], Shower(cal));
        ShownExactly(cal, p, v);
        return None;
      }
      rest := rest[1..];
    }
    NonEmpty(rest);
    RunDone(ctx, pos, Shower(cal));
    ShownExactly(cal, p, v);
    r := Root(ctx);
  }

  // ---- messages ----

  const MSG_ID_BYTES: nat := 8

  /** opo_ojc_fill_msg: a zero id, then the value; the caller sized the buffer with opo_ojc_msg_size. */
  method FillMsg(cal: T.Calendar, o: Ojc, buf: array<byte>)
    requires OjcFits(o) && MSG_ID_BYTES + |Encode(ToVal(cal, o))| <= buf.Length
    modifies buf
    ensures buf[..MSG_ID_BYTES + |Encode(ToVal(cal, o))|] == Zeros(MSG_ID_BYTES) + Encode(ToVal(cal, o))
  {
    forall i | 0 <= i < MSG_ID_BYTES {
      buf[i] := 0;
    }
    ghost var was := buf[..];
    var end := WireFill(cal, o, buf, MSG_ID_BYTES);
    WroteAt(was, buf[..], MSG_ID_BYTES, Encode(ToVal(cal, o)));
    assert buf[..MSG_ID_BYTES] == was[..MSG_ID_BYTES] == Zeros(MSG_ID_BYTES);
    assert buf[..end] == buf[..MSG_ID_BYTES] + buf[MSG_ID_BYTES..end];
  }

  /** opo_ojc_to_msg: the size computed first is exactly the size filled, unless a key is too long. */
  method OjcToMsg(cal: T.Calendar, o: Ojc) returns (msg: array<byte>)
    requires OjcFits(o)
    ensures msg.Length == MSG_ID_BYTES + |Encode(ToVal(cal, o))| + 2 * LongKeys(o)
    ensures msg[..MSG_ID_BYTES + |Encode(ToVal(cal, o))|] == Zeros(MSG_ID_BYTES) + Encode(ToVal(cal, o))
  {
    var size := WireSize(cal, o);
    msg := new byte[size + MSG_ID_BYTES];
    FillMsg(cal, o, msg);
  }

  /** opo_msg_to_ojc: the value starts after the id. */
  method MsgToOjc(cal: T.Calendar, msg: seq<byte>, ghost v: Val) returns (r: Option<Ojc>)
    requires Wf(v) && At(msg, MSG_ID_BYTES, Encode(v))
    ensures r == Some(FromVal(cal, v)) <==> Depth(v) <= MAX_DEPTH && SinglePopSafe(v)
  {
    r := ValToOjc(cal, msg, MSG_ID_BYTES, v);
  }

  lemma {:induction false} MapCloses<A, B>(f: A -> B, v: Tree<A>)
    ensures Closes(Map(f, v)) == Closes(v)
    decreases v
  {
    if v.Node? && v.items != [] {
      var it := v.items[|v.items| - 1];
      assert it.val < it;
      MapCloses(f, it.val);
    }
  }

  lemma {:induction false} MapSafe<A, B>(f: A -> B, v: Tree<A>)
    ensures SinglePopSafe(Map(f, v)) <==> SinglePopSafe(v)
    decreases v
  {
    if v.Node? {
      var xs, ys := v.items, MapItems(f, v.items);
      forall i | 0 <= i < |xs|
        ensures ItemSafe(ys[i]) <==> ItemSafe(xs[i])
        ensures Closes(ys[i].val) == Closes(xs[i].val)
      {
        assert xs[i].val < xs[i] && xs[i] < v;
        MapSafe(f, xs[i].val);
        MapCloses(f, xs[i].val);
      }
      assert ItemsSafe(ys) <==> ItemsSafe(xs);
      assert GapsSafe(v.kind, ys) <==> GapsSafe(v.kind, xs);
    }
  }

  /** Any OjC value with keys up to 65535 bytes and an encoding under 4 GiB is carried faithfully. */
  lemma {:induction false} Carried(cal: T.Calendar, o: Ojc)
    requires OjcFits(o) && LongKeys(o) == 0 && |Encode(ToVal(cal, o))| < 0x1_0000_0000
    ensures Wf(ToVal(cal, o))
    decreases o
  {
    match o
    case Leaf(x) => LeafCarried(cal, x);
    case Node(kind, items) =>
      var vs := ToVal(cal, o).items;
      forall it | it in vs
        ensures WfItem(kind, it)
      {
        var i :| 0 <= i < |vs| && vs[i] == it;
        assert ItemFits(kind, items[i]);
        assert items[i].val < items[i] && items[i] < o;
        PartSizes(cal, items, vs, i);
        Carried(cal, items[i].val);
      }
      assert WfItems(kind, vs);
  }

  lemma LeafCarried(cal: T.Calendar, x: OjcLeaf)
    requires LeafFits(x)
    ensures WfScalar(Classify(cal, x))
  {
    Pow256Values();
    if x.OStr? && Classify(cal, x).Uuid? {
      UuidInRange(x.s);
    }
  }

  lemma UuidInRange(s: seq<byte>)
    requires Uuids.IsUuid(s)
    ensures Uuids.ParseUuid(s).0 < Pow256(8) && Uuids.ParseUuid(s).1 < Pow256(8)
  {
    Uuids.TextRoundTrip(s);
  }

  lemma PartSize(vs: seq<Member>, i: nat)
    requires i < |vs|
    ensures |EncodeItem(vs[i])| <= |EncodeItems(vs)|
  {
    hide EncodeItem, EncodeItems;
    assert vs == vs[..i] + ([vs[i]] + vs[i + 1..]);
    EncodeItemsAppend(vs[..i], [vs[i]] + vs[i + 1..]);
    EncodeItemsCons(vs[i], vs[i + 1..]);
  }

  lemma PartSizes(cal: T.Calendar, items: seq<OjcItem>, vs: seq<Member>, i: nat)
    requires vs == MapItems((x: OjcLeaf) => Classify(cal, x), items) && i < |items|
    ensures |Encode(ToVal(cal, items[i].val))| <= |EncodeItems(vs)|
    ensures LongKeys(items[i].val) + LongKey(items[i]) <= LongKeysIn(items)
  {
    hide EncodeItems, LongKeysIn, LongKeys, LongKey, Encode, EncodeLabel;
    PartSize(vs, i);
    LongKeysPart(items, i);
  }

  lemma {:induction false} LongKeysPart(items: seq<OjcItem>, i: nat)
    requires i < |items|
    ensures LongKeys(items[i].val) + LongKey(items[i]) <= LongKeysIn(items)
    decreases |items|
  {
    if i < |items| - 1 {
      LongKeysPart(items[..|items| - 1], i);
    }
  }

  /**
   * The round trip through a message, for every OjC value the format can carry: decoding gives the
   * value back, in normal form, exactly when it is at most 512 deep and needs no second pop.
   */
  lemma RoundTripsExactly(cal: T.Calendar, o: Ojc)
    requires OjcFits(o) && LongKeys(o) == 0 && |Encode(ToVal(cal, o))| < 0x1_0000_0000
    ensures Wf(ToVal(cal, o))
    ensures Root(Run(Init(), MSG_ID_BYTES, Tokens(ToVal(cal, o)), false, Shower(cal)))
            == Some(Map((x: OjcLeaf) => Normal(cal, x), o))
        <==> Depth(o) <= MAX_DEPTH && SinglePopSafe(o)
  {
    hide *;
    var v := ToVal(cal, o);
    Carried(cal, o);
    ShownExactly(cal, MSG_ID_BYTES, v);
    Normalised(cal, o);
    SameShape(cal, o);
  }

  lemma SameShape(cal: T.Calendar, o: Ojc)
    ensures Depth(ToVal(cal, o)) == Depth(o) && (SinglePopSafe(ToVal(cal, o)) <==> SinglePopSafe(o))
  {
    MapDepth((x: OjcLeaf) => Classify(cal, x), o);
    MapSafe((x: OjcLeaf) => Classify(cal, x), o);
  }

  // The value [[[1]], 2] and what the one-pop decoder makes of it, [[[1], 2]].
  function Elem(v: Val): Member { Item(None, v) }
  function Nested(): Val { Node(Arr, [Elem(Node(Arr, [Elem(Node(Arr, [Elem(Leaf(Int(1)))]))])), Elem(Leaf(Int(2)))]) }
  function Misfiled(): Val { Node(Arr, [Elem(Node(Arr, [Elem(Node(Arr, [Elem(Leaf(Int(1)))])), Elem(Leaf(Int(2)))]))]) }

  function NestedTokens(): seq<Token> {
    [Open(Arr, 14), Open(Arr, 7), Open(Arr, 2), Scal(Int(1)), Scal(Int(2))]
  }

  lemma OneElem(v: Val)
    ensures EncodeItems([Elem(v)]) == Encode(v) && TokensItems([Elem(v)]) == Tokens(v)
  {
    assert [Elem(v)][1..] == [];
    assert EncodeItems([Elem(v)][1..]) == [] && TokensItems([Elem(v)][1..]) == [];
    assert EncodeItem(Elem(v)) == Encode(v) && TokensItem(Elem(v)) == Tokens(v);
  }

  lemma NestedSpelled()
    ensures Tokens(Nested()) == NestedTokens()
  {
    Pow256Values();
    var one, two := Leaf(Int(1)), Leaf(Int(2));
    var a := Node(Arr, [Elem(one)]);
    var b := Node(Arr, [Elem(a)]);
    assert |Encode(one)| == 2 && |Encode(two)| == 2;
    OneElem(one);
    OneElem(a);
    OneElem(two);
    var items := [Elem(b), Elem(two)];
    assert items[1..] == [Elem(two)];
    assert |Encode(a)| == 7 && |Encode(b)| == 12;
    assert EncodeItem(Elem(b)) == Encode(b) && TokensItem(Elem(b)) == Tokens(b);
    assert EncodeItems(items) == Encode(b) + Encode(two);
    assert TokensItems(items) == Tokens(b) + Tokens(two);
    assert Tokens(a) == [Open(Arr, 2), Scal(Int(1))];
    assert Tokens(b) == [Open(Arr, 7), Open(Arr, 2), Scal(Int(1))];
  }

  const F0: Frame<Scalar> := Frame(None, Arr, [], 19)
  const F1: Frame<Scalar> := Frame(None, Arr, [], 17)
  function InnerFull(): Frame<Scalar> { Frame(None, Arr, [Elem(Leaf(Int(1)))], 17) }
  function WithTwo(): Frame<Scalar> { Frame(None, Arr, [Elem(Node(Arr, [Elem(Leaf(Int(1)))])), Elem(Leaf(Int(2)))], 17) }

  function OneFrame(): Ctx<Scalar> { Ctx(None, [F0], None) }
  function TwoFrames(): Ctx<Scalar> { Ctx(None, [F0, F1], None) }
  function ThreeFrames(): Ctx<Scalar> { Ctx(None, [F0, F1, F1], None) }

  lemma OpenTurns()
    ensures Step(Init(), 0, NestedTokens()[0], false, Same) == OneFrame()
    ensures Step(OneFrame(), 5, NestedTokens()[1], false, Same) == TwoFrames()
    ensures Step(TwoFrames(), 10, NestedTokens()[2], false, Same) == ThreeFrames()
  {
  }

  lemma LeafTurn()
    ensures Step(ThreeFrames(), 15, NestedTokens()[3], false, Same) == Ctx(None, [F0, F1, InnerFull()], None)
  {
    assert Append(F1, Elem(Leaf(Int(1)))).items == InnerFull().items;
    assert AppendTop(ThreeFrames().stack, Elem(Leaf(Int(1)))) == [F0, F1] + [InnerFull()] == [F0, F1, InnerFull()];
  }

  lemma FirstFourTurns()
    ensures Feed(Init(), 0, NestedTokens(), false)
         == Feed(Ctx(None, [F0, F1, InnerFull()], None), 17, [Scal(Int(2))], false)
  {
    var ts := NestedTokens();
    assert ts == [ts[0]] + ts[1..] && ts[1..] == [ts[1]] + ts[2..];
    assert ts[2..] == [ts[2]] + ts[3..] && ts[3..] == [ts[3]] + ts[4..] && ts[4..] == [Scal(Int(2))];
    hide *;
    OpenTurns();
    LeafTurn();
    TokenLengths();
    FeedOne(Init(), 0, ts[0], ts[1..], false);
    FeedOne(OneFrame(), 5, ts[1], ts[2..], false);
    FeedOne(TwoFrames(), 10, ts[2], ts[3..], false);
    FeedOne(ThreeFrames(), 15, ts[3], ts[4..], false);
  }

  lemma TokenLengths()
    ensures forall i :: 0 <= i < 3 ==> |TokenBytes(NestedTokens()[i])| == 5
    ensures |TokenBytes(NestedTokens()[3])| == 2
  {
    Pow256Values();
  }

  lemma LastTurn()
    ensures Root(Feed(Ctx(None, [F0, F1, InnerFull()], None), 17, [Scal(Int(2))], false)) == Some(Misfiled())
  {
    var st := Ctx(None, [F0, F1, InnerFull()], None);
    var it := Closed(InnerFull());
    assert [F0, F1, InnerFull()] == [F0] + [F1, InnerFull()];
    PopTop(st, [F0], F1, InnerFull());
    var st1 := Settle(st, 17, false);
    assert st1.stack == [F0] + [Append(F1, it)];
    assert Append(Append(F1, it), Elem(Leaf(Int(2)))).items == WithTwo().items;
    assert AppendTop(st1.stack, Elem(Leaf(Int(2)))) == [F0, WithTwo()];
    var st2 := Ctx(None, [F0, WithTwo()], None);
    assert Step(st, 17, Scal(Int(2)), false, Same) == st2;
    FeedOne(st, 17, Scal(Int(2)), [], false);
    assert [Scal(Int(2))] + [] == [Scal(Int(2))];
    assert Feed(st, 17, [Scal(Int(2))], false) == st2;
    assert AppendTop(Front(st2.stack), Closed(WithTwo())) == [Append(F0, Closed(WithTwo()))];
    var whole := Append(F0, Closed(WithTwo()));
    assert whole.items == [Closed(WithTwo())];
    assert Front(st2.stack) == [F0] && AppendTop([F0], Closed(WithTwo())) == [whole];
    assert Collapse(st2.stack) == Collapse([whole]) == Closed(whole);
  }

  lemma SinglePopCounterexample()
    ensures Root(Feed(Init(), 0, Tokens(Nested()), false)) == Some(Misfiled())
    ensures Misfiled() != Nested()
  {
    NestedSpelled();
    FirstFourTurns();
    LastTurn();
    var a, b := Nested().items, Misfiled().items;
    assert |a| == 2 && |b| == 1;
  }
}
