/** Ordered trees with optional keys: the shape shared by OjC values and wire values. */
module Trees {
  import opened Bytes

  datatype Option<+T> = None | Some(value: T)

  function Last<T>(s: seq<T>): T
    requires s != []
  {
    s[|s| - 1]
  }

  function Front<T>(s: seq<T>): seq<T>
    requires s != []
  {
    s[..|s| - 1]
  }

  datatype Kind = Arr | Obj

  /** A member: keyed inside an object, unkeyed inside an array. */
  datatype Item<L> = Item(key: Option<seq<byte>>, val: Tree<L>)

  datatype Tree<L> = Leaf(leaf: L) | Node(kind: Kind, items: seq<Item<L>>)

  /** The key of a member agrees with the kind of its container. */
  predicate KeyFits(kind: Kind, key: Option<seq<byte>>) {
    kind.Obj? <==> key.Some?
  }

  /** The number of containers nested in v, counting v. */
  function Depth<L>(v: Tree<L>): (d: nat)
    ensures d == 0 <==> v.Leaf?
  {
    match v
    case Leaf(_) => 0
    case Node(_, items) => 1 + DepthItems(items)
  }

  function DepthItems<L>(items: seq<Item<L>>): nat {
    if items == [] then 0
    else
      var it := items[0];
      assert it.val < it;
      var a, b := Depth(it.val), DepthItems(items[1..]);
      if a < b then b else a
  }

  lemma {:induction false} DepthItemsBounds<L>(items: seq<Item<L>>, i: nat)
    requires i < |items|
    ensures Depth(items[i].val) <= DepthItems(items)
  {
    if i > 0 {
      DepthItemsBounds(items[1..], i - 1);
    }
  }
}

/** The wire format: tags, scalars and length-prefixed containers (src/opo/internal.h). */
module Wire {
  import opened Bytes
  import opened Trees

  const MAX_DEPTH: nat := 512 // OPO_MSG_MAX_DEPTH

  const VAL_NULL: byte := 90   // 'Z'
  const VAL_TRUE: byte := 116  // 't'
  const VAL_FALSE: byte := 102 // 'f'
  const VAL_INT1: byte := 105  // 'i'
  const VAL_INT2: byte := 50   // '2'
  const VAL_INT4: byte := 52   // '4'
  const VAL_INT8: byte := 56   // '8'
  const VAL_STR1: byte := 115  // 's'
  const VAL_STR2: byte := 83   // 'S'
  const VAL_STR4: byte := 66   // 'B'
  const VAL_KEY1: byte := 107  // 'k'
  const VAL_KEY2: byte := 75   // 'K'
  const VAL_DEC: byte := 100   // 'd'
  const VAL_UUID: byte := 117  // 'u'
  const VAL_TIME: byte := 84   // 'T'
  const VAL_OBJ: byte := 123   // '{'
  const VAL_ARRAY: byte := 91  // '['

  /** A scalar as it travels: decimals as their text, times as nanoseconds. */
  datatype Scalar =
    | Null
    | Bool(b: bool)
    | Int(i: int)
    | Str(s: seq<byte>)
    | Dec(text: seq<byte>)
    | Uuid(hi: nat, lo: nat)
    | Time(ns: int)

  type Val = Tree<Scalar>
  type Member = Item<Scalar>

  // ---- encoding ----

  function KindTag(kind: Kind): byte {
    if kind.Obj? then VAL_OBJ else VAL_ARRAY
  }

  /** The narrowest of the four integer widths. */
  function IntWidth(i: int): nat {
    if FitsSigned(i, 1) then 1
    else if FitsSigned(i, 2) then 2
    else if FitsSigned(i, 4) then 4
    else 8
  }

  function IntTag(width: nat): byte {
    if width == 1 then VAL_INT1 else if width == 2 then VAL_INT2 else if width == 4 then VAL_INT4 else VAL_INT8
  }

  function EncodeStr(s: seq<byte>): seq<byte> {
    (if |s| <= 0xff then [VAL_STR1] + BE(|s|, 1)
     else if |s| <= 0xffff then [VAL_STR2] + BE(|s|, 2)
     else [VAL_STR4] + BE(|s|, 4)) + s + [0]
  }

  /** fill_key has no four byte form: a key over 65535 bytes gets a truncated length. */
  function EncodeKey(k: seq<byte>): seq<byte> {
    (if |k| <= 0xff then [VAL_KEY1] + BE(|k|, 1) else [VAL_KEY2] + BE(|k|, 2)) + k + [0]
  }

  function EncodeLabel(key: Option<seq<byte>>): seq<byte> {
    match key
    case None => []
    case Some(k) => EncodeKey(k)
  }

  function EncodeScalar(x: Scalar): (e: seq<byte>)
    ensures |e| > 0
  {
    match x
    case Null => [VAL_NULL]
    case Bool(b) => if b then [VAL_TRUE] else [VAL_FALSE]
    case Int(i) => [IntTag(IntWidth(i))] + BE(ToUnsigned(i, IntWidth(i)), IntWidth(i))
    case Str(s) => EncodeStr(s)
    case Dec(text) => [VAL_DEC] + BE(|text|, 1) + text
    case Uuid(hi, lo) => [VAL_UUID] + BE(hi, 8) + BE(lo, 8)
    case Time(ns) => [VAL_TIME] + BE(ToUnsigned(ns, 8), 8)
  }

  function Encode(v: Val): (e: seq<byte>)
    ensures |e| > 0
    decreases v
  {
    match v
    case Leaf(x) => EncodeScalar(x)
    case Node(kind, items) => Wrap(kind, EncodeItems(items))
  }

  /** A container around its finished content. */
  function Wrap(kind: Kind, content: seq<byte>): seq<byte> {
    [KindTag(kind)] + BE(|content|, 4) + content
  }

  function EncodeItems(items: seq<Member>): seq<byte>
    decreases items
  {
    if items == [] then [] else EncodeItem(items[0]) + EncodeItems(items[1..])
  }

  function EncodeItem(it: Member): seq<byte>
    decreases it
  {
    EncodeLabel(it.key) + Encode(it.val)
  }

  lemma {:induction false} EncodeItemsCons(it: Member, rest: seq<Member>)
    ensures EncodeItems([it] + rest) == EncodeItem(it) + EncodeItems(rest)
  {
    assert ([it] + rest)[1..] == rest;
  }

  lemma {:induction false} EncodeItemsAppend(a: seq<Member>, b: seq<Member>)
    ensures EncodeItems(a + b) == EncodeItems(a) + EncodeItems(b)
  {
    if a == [] {
      assert a + b == b;
    } else {
      var h, t := a[0], a[1..];
      assert a == [h] + t && a + b == [h] + (t + b);
      calc {
        EncodeItems(a + b);
        { EncodeItemsCons(h, t + b); }
        EncodeItem(h) + EncodeItems(t + b);
        { EncodeItemsAppend(t, b); }
        EncodeItem(h) + (EncodeItems(t) + EncodeItems(b));
        EncodeItem(h) + EncodeItems(t) + EncodeItems(b);
        { EncodeItemsCons(h, t); }
        EncodeItems(a) + EncodeItems(b);
      }
    }
  }

  lemma EncodeItemsSnoc(a: seq<Member>, it: Member)
    ensures EncodeItems(a + [it]) == EncodeItems(a) + EncodeItem(it)
  {
    EncodeItemsAppend(a, [it]);
    assert EncodeItems([it]) == EncodeItem(it);
  }

  // ---- what the format can carry ----

  const MAX_KEY := 0xffff

  predicate WfScalar(x: Scalar) {
    match x
    case Int(i) => FitsSigned(i, 8)
    case Str(s) => |s| < 0x1_0000_0000
    case Dec(text) => |text| < 0x100
    case Uuid(hi, lo) => hi < Pow256(8) && lo < Pow256(8)
    case Time(ns) => FitsSigned(ns, 8)
    case _ => true
  }

  predicate WfLabel(kind: Kind, key: Option<seq<byte>>) {
    KeyFits(kind, key) && (key.Some? ==> |key.value| <= MAX_KEY)
  }

  /** Every scalar and key fits its fields and every container's content is under 4 GiB. */
  predicate Wf(v: Val)
    decreases v
  {
    match v
    case Leaf(x) => WfScalar(x)
    case Node(kind, items) => WfItems(kind, items) && |EncodeItems(items)| < 0x1_0000_0000
  }

  predicate WfItems(kind: Kind, items: seq<Member>)
    decreases items
  {
    forall it | it in items :: WfItem(kind, it)
  }

  predicate WfItem(kind: Kind, it: Member)
    decreases it
  {
    WfLabel(kind, it.key) && Wf(it.val)
  }

  // ---- reading one token ----

  /** The number of length bytes that follow a tag. */
  function LenBytes(tag: byte): nat {
    if tag == VAL_STR1 || tag == VAL_KEY1 || tag == VAL_DEC then 1
    else if tag == VAL_STR2 || tag == VAL_KEY2 then 2
    else if tag == VAL_STR4 || tag == VAL_OBJ || tag == VAL_ARRAY then 4
    else 0
  }

  predicate HeaderFits(s: seq<byte>, p: nat) {
    p < |s| && p + 1 + LenBytes(s[p]) <= |s|
  }

  /** opo_val_bsize: the extent of the token at p, from its tag and length field alone. */
  function BSize(s: seq<byte>, p: nat): nat
    requires HeaderFits(s, p)
  {
    var tag := s[p];
    var num := FromBE(s[p + 1..p + 1 + LenBytes(tag)]);
    if tag == VAL_NULL || tag == VAL_TRUE || tag == VAL_FALSE then 1
    else if tag == VAL_INT1 then 2
    else if tag == VAL_INT2 then 3
    else if tag == VAL_INT4 then 5
    else if tag == VAL_INT8 then 9
    else if tag == VAL_STR1 then 3 + num
    else if tag == VAL_STR2 then 4 + num
    else if tag == VAL_STR4 then 6 + num
    else if tag == VAL_KEY1 then 3 + num
    else if tag == VAL_KEY2 then 4 + num
    else if tag == VAL_DEC then 2 + num
    else if tag == VAL_UUID then 17
    else if tag == VAL_TIME then 9
    else if tag == VAL_OBJ || tag == VAL_ARRAY then num + 5
    else 0
  }

  lemma HeaderAt(s: seq<byte>, p: nat, tag: byte, n: nat, rest: seq<byte>)
    requires At(s, p, [tag] + BE(n, LenBytes(tag)) + rest)
    requires n < Pow256(LenBytes(tag))
    ensures HeaderFits(s, p) && s[p] == tag
    ensures s[p + 1..p + 1 + LenBytes(tag)] == BE(n, LenBytes(tag))
    ensures FromBE(s[p + 1..p + 1 + LenBytes(tag)]) == n
  {
    AtSplit(s, p, [tag] + BE(n, LenBytes(tag)), rest);
    AtSplit(s, p, [tag], BE(n, LenBytes(tag)));
    AtByte(s, p, [tag], 0);
    FromBEInvertsBE(n, LenBytes(tag));
  }

  /** opo_val_bsize of an encoded key is its length exactly when the key is at most 65535 bytes. */
  lemma KeyDelimits(s: seq<byte>, p: nat, k: seq<byte>)
    requires At(s, p, EncodeKey(k))
    ensures HeaderFits(s, p)
    ensures BSize(s, p) == |EncodeKey(k)| <==> |k| <= MAX_KEY
  {
    Pow256Values();
    if |k| <= 0xff {
      assert EncodeKey(k) == [VAL_KEY1] + BE(|k|, 1) + (k + [0]);
      HeaderAt(s, p, VAL_KEY1, |k|, k + [0]);
    } else {
      var n := |k| % 0x1_0000;
      BEMod(|k|);
      assert EncodeKey(k) == [VAL_KEY2] + BE(n, 2) + (k + [0]);
      HeaderAt(s, p, VAL_KEY2, n, k + [0]);
    }
  }

  lemma BEMod(n: nat)
    ensures BE(n, 2) == BE(n % 0x1_0000, 2)
  {
    var q, m := n / 0x1_0000, n % 0x1_0000;
    assert n % 256 == m % 256 && n / 256 == q * 256 + m / 256;
    assert BE(n, 2) == BE(n / 256, 1) + [(n % 256) as byte];
    assert BE(m, 2) == BE(m / 256, 1) + [(m % 256) as byte];
    assert BE(n / 256, 1) == [(n / 256 % 256) as byte];
    assert BE(m / 256, 1) == [(m / 256 % 256) as byte];
  }

  lemma ScalarDelimits(s: seq<byte>, p: nat, x: Scalar)
    requires WfScalar(x) && At(s, p, EncodeScalar(x))
    ensures HeaderFits(s, p) && BSize(s, p) == |EncodeScalar(x)|
  {
    Pow256Values();
    AtByte(s, p, EncodeScalar(x), 0);
    match x
    case Str(t) =>
      var w := if |t| <= 0xff then 1 else if |t| <= 0xffff then 2 else 4;
      var tag := if w == 1 then VAL_STR1 else if w == 2 then VAL_STR2 else VAL_STR4;
      assert EncodeScalar(x) == [tag] + BE(|t|, w) + (t + [0]);
      HeaderAt(s, p, tag, |t|, t + [0]);
    case Dec(text) =>
      HeaderAt(s, p, VAL_DEC, |text|, text);
    case _ =>
  }

  lemma NodeHeader(s: seq<byte>, p: nat, kind: Kind, content: seq<byte>)
    requires At(s, p, Wrap(kind, content)) && |content| < 0x1_0000_0000
    ensures HeaderFits(s, p) && s[p] == KindTag(kind)
    ensures FromBE(s[p + 1..p + 5]) == |content|
    ensures At(s, p + 5, content)
  {
    Pow256Values();
    HeaderAt(s, p, KindTag(kind), |content|, content);
    AtSplit(s, p, [KindTag(kind)] + BE(|content|, 4), content);
  }

  /** Self-delimitation: the first bytes of an encoding tell where it ends, whatever follows. */
  lemma SelfDelimiting(s: seq<byte>, p: nat, v: Val)
    requires Wf(v) && At(s, p, Encode(v))
    ensures HeaderFits(s, p) && BSize(s, p) == |Encode(v)|
  {
    match v
    case Leaf(x) => ScalarDelimits(s, p, x);
    case Node(kind, items) => NodeHeader(s, p, kind, EncodeItems(items));
  }

  // ---- reading one scalar (the scalar cases of opo_val_to_ojc and val_iterate) ----

  predicate IsContainerTag(tag: byte) { tag == VAL_OBJ || tag == VAL_ARRAY }

  predicate IsKeyTag(tag: byte) { tag == VAL_KEY1 || tag == VAL_KEY2 }

  /** The scalar at p, or None when the tag is no scalar's. */
  function ReadScalar(s: seq<byte>, p: nat): Option<Scalar>
    requires HeaderFits(s, p) && p + BSize(s, p) <= |s|
  {
    var tag := s[p];
    if tag == VAL_NULL then Some(Null)
    else if tag == VAL_TRUE then Some(Bool(true))
    else if tag == VAL_FALSE then Some(Bool(false))
    else if tag == VAL_INT1 then Some(Int(ToSigned(FromBE(s[p + 1..p + 2]), 1)))
    else if tag == VAL_INT2 then Some(Int(ToSigned(FromBE(s[p + 1..p + 3]), 2)))
    else if tag == VAL_INT4 then Some(Int(ToSigned(FromBE(s[p + 1..p + 5]), 4)))
    else if tag == VAL_INT8 then Some(Int(ToSigned(FromBE(s[p + 1..p + 9]), 8)))
    else if tag == VAL_STR1 then Some(Str(s[p + 2..p + BSize(s, p) - 1]))
    else if tag == VAL_STR2 then Some(Str(s[p + 3..p + BSize(s, p) - 1]))
    else if tag == VAL_STR4 then Some(Str(s[p + 5..p + BSize(s, p) - 1]))
    else if tag == VAL_DEC then Some(Dec(s[p + 2..p + BSize(s, p)]))
    else if tag == VAL_UUID then Some(Uuid(FromBE(s[p + 1..p + 9]), FromBE(s[p + 9..p + 17])))
    else if tag == VAL_TIME then Some(Time(ToSigned(FromBE(s[p + 1..p + 9]), 8)))
    else None
  }

  /** The key at p, or None when the tag is no key's (val_key and the key cases of the readers). */
  function ReadKey(s: seq<byte>, p: nat): Option<seq<byte>>
    requires HeaderFits(s, p) && p + BSize(s, p) <= |s|
  {
    var tag := s[p];
    if tag == VAL_KEY1 then Some(s[p + 2..p + BSize(s, p) - 1])
    else if tag == VAL_KEY2 then Some(s[p + 3..p + BSize(s, p) - 1])
    else None
  }

  /** A text between its header and its terminator. */
  lemma TextAt(s: seq<byte>, p: nat, head: seq<byte>, t: seq<byte>)
    requires At(s, p, head + t + [0]) && head != []
    ensures p + |head| + |t| + 1 <= |s| && s[p + |head|..p + |head| + |t|] == t && s[p] == head[0]
  {
    AtByte(s, p, head + t + [0], 0);
    AtSplit(s, p, head + t, [0]);
    AtSplit(s, p, head, t);
  }

  lemma KeyForm(k: seq<byte>)
    requires |k| <= MAX_KEY
    ensures |k| <= 0xff ==> EncodeKey(k) == ([VAL_KEY1] + BE(|k|, 1)) + k + [0]
    ensures |k| > 0xff ==> EncodeKey(k) == ([VAL_KEY2] + BE(|k|, 2)) + k + [0]
  {
  }

  lemma ReadKeyInverts(s: seq<byte>, p: nat, k: seq<byte>)
    requires |k| <= MAX_KEY && At(s, p, EncodeKey(k))
    ensures HeaderFits(s, p) && BSize(s, p) == |EncodeKey(k)|
    ensures IsKeyTag(s[p]) && ReadKey(s, p) == Some(k)
  {
    KeyForm(k);
    KeyDelimits(s, p, k);
    hide EncodeKey, BE, FromBE, At, BSize, HeaderFits;
    if |k| <= 0xff {
      TextAt(s, p, [VAL_KEY1] + BE(|k|, 1), k);
    } else {
      TextAt(s, p, [VAL_KEY2] + BE(|k|, 2), k);
    }
  }

  lemma StrForm(t: seq<byte>)
    ensures |t| <= 0xff ==> EncodeStr(t) == ([VAL_STR1] + BE(|t|, 1)) + t + [0]
    ensures 0xff < |t| <= 0xffff ==> EncodeStr(t) == ([VAL_STR2] + BE(|t|, 2)) + t + [0]
    ensures 0xffff < |t| ==> EncodeStr(t) == ([VAL_STR4] + BE(|t|, 4)) + t + [0]
  {
  }

  lemma ReadStrInverts(s: seq<byte>, p: nat, t: seq<byte>)
    requires |t| < 0x1_0000_0000 && At(s, p, EncodeStr(t))
    ensures HeaderFits(s, p) && BSize(s, p) == |EncodeStr(t)|
    ensures p + BSize(s, p) <= |s| && !IsContainerTag(s[p]) && !IsKeyTag(s[p])
    ensures ReadScalar(s, p) == Some(Str(t))
  {
    StrForm(t);
    ScalarDelimits(s, p, Str(t));
    assert EncodeScalar(Str(t)) == EncodeStr(t);
    hide EncodeScalar, EncodeStr, BE, FromBE, At, BSize, HeaderFits;
    if |t| <= 0xff {
      TextAt(s, p, [VAL_STR1] + BE(|t|, 1), t);
    } else if |t| <= 0xffff {
      TextAt(s, p, [VAL_STR2] + BE(|t|, 2), t);
    } else {
      TextAt(s, p, [VAL_STR4] + BE(|t|, 4), t);
    }
  }

  lemma ReadIntInverts(s: seq<byte>, p: nat, i: int)
    requires FitsSigned(i, 8) && At(s, p, EncodeScalar(Int(i)))
    ensures HeaderFits(s, p) && BSize(s, p) == |EncodeScalar(Int(i))|
    ensures ReadScalar(s, p) == Some(Int(i))
  {
    ScalarDelimits(s, p, Int(i));
    AtByte(s, p, EncodeScalar(Int(i)), 0);
    var w := IntWidth(i);
    AtSplit(s, p, [IntTag(w)], BE(ToUnsigned(i, w), w));
    SignedRoundTrip(i, w);
    FromBEInvertsBE(ToUnsigned(i, w), w);
  }

  /** Reading a scalar gives back what was encoded, for every scalar. */
  lemma ReadScalarInverts(s: seq<byte>, p: nat, x: Scalar)
    requires WfScalar(x) && At(s, p, EncodeScalar(x))
    ensures HeaderFits(s, p) && BSize(s, p) == |EncodeScalar(x)|
    ensures !IsContainerTag(s[p]) && !IsKeyTag(s[p])
    ensures ReadScalar(s, p) == Some(x)
  {
    ScalarDelimits(s, p, x);
    AtByte(s, p, EncodeScalar(x), 0);
    match x
    case Int(i) => ReadIntInverts(s, p, i);
    case Str(t) => ReadStrInverts(s, p, t);
    case Dec(text) => AtSplit(s, p, [VAL_DEC] + BE(|text|, 1), text);
    case Uuid(hi, lo) =>
      AtSplit(s, p, [VAL_UUID] + BE(hi, 8), BE(lo, 8));
      AtSplit(s, p, [VAL_UUID], BE(hi, 8));
      FromBEInvertsBE(hi, 8);
      FromBEInvertsBE(lo, 8);
    case Time(ns) =>
      AtSplit(s, p, [VAL_TIME], BE(ToUnsigned(ns, 8), 8));
      SignedRoundTrip(ns, 8);
      FromBEInvertsBE(ToUnsigned(ns, 8), 8);
    case _ =>
  }

  /** A value starts with a container tag exactly when it is a container, and never with a key tag. */
  lemma TagTells(s: seq<byte>, p: nat, v: Val)
    requires At(s, p, Encode(v))
    ensures IsContainerTag(s[p]) <==> v.Node?
    ensures !IsKeyTag(s[p])
    ensures v.Node? ==> s[p] == KindTag(v.kind)
  {
    AtByte(s, p, Encode(v), 0);
  }

  // ---- prefix-freeness and injectivity ----

  lemma AtHead(e: seq<byte>, rest: seq<byte>)
    ensures At(e + rest, 0, e)
  {
    assert (e + rest)[0..|e|] == e;
  }

  lemma AtTransfer(s: seq<byte>, e: seq<byte>, rest: seq<byte>)
    requires s == e + rest
    ensures At(s, 0, e) && s[|e|..] == rest
  {
    AtHead(e, rest);
  }

  /** No encoding is a prefix of another, and an encoding determines its value. */
  lemma {:induction false} EncodeUnique(a: Val, b: Val, x: seq<byte>, y: seq<byte>)
    requires Wf(a) && Wf(b)
    requires Encode(a) + x == Encode(b) + y
    ensures a == b && x == y
    decreases a
  {
    var s := Encode(a) + x;
    AtTransfer(s, Encode(a), x);
    AtTransfer(s, Encode(b), y);
    SelfDelimiting(s, 0, a);
    SelfDelimiting(s, 0, b);
    TagTells(s, 0, a);
    TagTells(s, 0, b);
    match (a, b)
    case (Leaf(p), Leaf(q)) =>
      ReadScalarInverts(s, 0, p);
      ReadScalarInverts(s, 0, q);
    case (Node(k1, xs), Node(k2, ys)) =>
      NodeHeader(s, 0, k1, EncodeItems(xs));
      NodeHeader(s, 0, k2, EncodeItems(ys));
      ItemsUnique(k1, xs, ys);
    case _ =>
  }

  lemma EmptyEncodes(xs: seq<Member>)
    ensures EncodeItems(xs) == [] <==> xs == []
    ensures xs != [] ==> EncodeItems(xs) == EncodeItem(xs[0]) + EncodeItems(xs[1..])
  {
  }

  lemma {:induction false} ItemsUnique(kind: Kind, xs: seq<Member>, ys: seq<Member>)
    requires WfItems(kind, xs) && WfItems(kind, ys)
    requires EncodeItems(xs) == EncodeItems(ys)
    ensures xs == ys
    decreases xs
  {
    EmptyEncodes(xs);
    EmptyEncodes(ys);
    if xs != [] && ys != [] {
      hide *;
      var a, b := xs[0], ys[0];
      var ra, rb := EncodeItems(xs[1..]), EncodeItems(ys[1..]);
      WfHead(kind, xs);
      WfHead(kind, ys);
      KeyUnique(kind, a, b, ra, rb);
      assert a.val < a;
      EncodeUnique(a.val, b.val, ra, rb);
      ItemsUnique(kind, xs[1..], ys[1..]);
      assert xs == [a] + xs[1..] && ys == [b] + ys[1..];
    }
  }

  lemma WfHead(kind: Kind, xs: seq<Member>)
    requires xs != [] && WfItems(kind, xs)
    ensures WfItem(kind, xs[0]) && WfItems(kind, xs[1..]) && Wf(xs[0].val)
  {
  }

  lemma KeyUnique(kind: Kind, a: Member, b: Member, ra: seq<byte>, rb: seq<byte>)
    requires WfItem(kind, a) && WfItem(kind, b)
    requires EncodeItem(a) + ra == EncodeItem(b) + rb
    ensures a.key == b.key && Encode(a.val) + ra == Encode(b.val) + rb
  {
    hide Encode, EncodeKey, Wf;
    var s := EncodeItem(a) + ra;
    var la, lb := EncodeLabel(a.key), EncodeLabel(b.key);
    assert s == la + (Encode(a.val) + ra);
    assert s == lb + (Encode(b.val) + rb);
    AtTransfer(s, la, Encode(a.val) + ra);
    AtTransfer(s, lb, Encode(b.val) + rb);
    if kind.Obj? {
      ReadKeyInverts(s, 0, a.key.value);
      ReadKeyInverts(s, 0, b.key.value);
    }
  }

  // ---- the bytes themselves ----

  lemma SampleWidths()
    ensures IntWidth(5) == 1 && IntWidth(-2) == 1 && IntWidth(300) == 2 && IntWidth(70000) == 4
    ensures IntWidth(5000000000) == 8
    ensures forall i: int, k: nat :: i >= 0 ==> ToUnsigned(i, k) == i
    ensures ToUnsigned(-2, 1) == 254 && ToUnsigned(-1, 8) == 0xffff_ffff_ffff_ffff
  {
    Pow256Values();
  }

  lemma SampleNumbers()
    ensures BE(5, 1) == [5] && BE(254, 1) == [254] && BE(2, 1) == [2] && BE(3, 1) == [3] && BE(1, 1) == [1]
    ensures BE(300, 2) == [1, 44] && BE(256, 2) == [1, 0]
  {
    assert BE(300, 2) == BE(1, 1) + [44];
    assert BE(256, 2) == BE(1, 1) + [0];
  }

  lemma SampleQuads()
    ensures BE(70000, 4) == [0, 1, 17, 112] && BE(65536, 4) == [0, 1, 0, 0]
    ensures BE(0, 4) == [0, 0, 0, 0] && BE(6, 4) == [0, 0, 0, 6] && BE(2, 4) == [0, 0, 0, 2]
  {
    hide BE;
    BE4(70000);
    BE4(65536);
    BE4(0);
    BE4(6);
    BE4(2);
  }

  lemma SampleBig()
    ensures BE(5000000000, 8) == [0, 0, 0, 1, 42, 5, 242, 0]
  {
    hide BE;
    BE8(5000000000);
    BE4(5000000000);
  }

  lemma SampleOnes()
    ensures BE(0xffff_ffff_ffff_ffff, 8) == [255, 255, 255, 255, 255, 255, 255, 255]
  {
    hide BE;
    BE8(0xffff_ffff_ffff_ffff);
    BE4(0xffff_ffff_ffff_ffff);
  }

  lemma SampleSmall()
    ensures BE(1, 8) == [0, 0, 0, 0, 0, 0, 0, 1] && BE(2, 8) == [0, 0, 0, 0, 0, 0, 0, 2]
  {
    hide BE;
    BE8(1);
    BE4(1);
    BE8(2);
    BE4(2);
  }

  /** Integers of every width as they travel. */
  lemma IntBytes()
    ensures EncodeScalar(Int(5)) == [105, 5] && EncodeScalar(Int(-2)) == [105, 254]
    ensures EncodeScalar(Int(300)) == [50, 1, 44] && EncodeScalar(Int(70000)) == [52, 0, 1, 17, 112]
    ensures EncodeScalar(Int(5000000000)) == [56, 0, 0, 0, 1, 42, 5, 242, 0]
  {
    hide BE, IntWidth, ToUnsigned;
    SampleWidths();
    SampleNumbers();
    SampleQuads();
    SampleBig();
  }

  /** One of each other scalar. */
  lemma ScalarBytes()
    ensures EncodeScalar(Null) == [90] && EncodeScalar(Bool(true)) == [116] && EncodeScalar(Bool(false)) == [102]
    ensures EncodeScalar(Dec([49, 46, 53])) == [100, 3, 49, 46, 53]
  {
    hide BE, IntWidth, ToUnsigned;
    SampleNumbers();
  }

  lemma WideBytes()
    ensures EncodeScalar(Uuid(1, 2)) == [117] + [0, 0, 0, 0, 0, 0, 0, 1] + [0, 0, 0, 0, 0, 0, 0, 2]
    ensures EncodeScalar(Time(-1)) == [84] + [255, 255, 255, 255, 255, 255, 255, 255]
  {
    hide BE, IntWidth, ToUnsigned;
    SampleWidths();
    SampleSmall();
    SampleOnes();
  }

  /** The three forms of a string and the two of a key. */
  lemma TextBytes(s: seq<byte>)
    ensures EncodeStr([104, 105]) == [115, 2, 104, 105, 0] && EncodeKey([97]) == [107, 1, 97, 0]
    ensures |s| == 256 ==> EncodeStr(s) == [83, 1, 0] + s + [0] && EncodeKey(s) == [75, 1, 0] + s + [0]
    ensures |s| == 65536 ==> EncodeStr(s) == [66, 0, 1, 0, 0] + s + [0]
  {
    hide BE;
    SampleNumbers();
    SampleQuads();
  }

  /** An object, an array and an empty array: {"a":5}, [5], []. */
  lemma ContainerBytes()
    ensures Encode(Node(Obj, [Item(Some([97]), Leaf(Int(5)))])) == [123, 0, 0, 0, 6, 107, 1, 97, 0, 105, 5]
    ensures Encode(Node(Arr, [Item(None, Leaf(Int(5)))])) == [91, 0, 0, 0, 2, 105, 5]
    ensures Encode(Node(Arr, [])) == [91, 0, 0, 0, 0]
  {
    hide BE, EncodeScalar, EncodeKey, EncodeStr, EncodeItems;
    IntBytes();
    TextBytes([]);
    SampleQuads();
    OneMember(Item(Some([97]), Leaf(Int(5))));
    OneMember(Item(None, Leaf(Int(5))));
    NoMembers();
    assert [107, 1, 97, 0] + [105, 5] == [107, 1, 97, 0, 105, 5];
  }

  lemma NoMembers()
    ensures EncodeItems([]) == []
  {
  }

  lemma OneMember(it: Member)
    ensures EncodeItems([it]) == EncodeLabel(it.key) + Encode(it.val)
  {
    assert [it][1..] == [];
    assert EncodeItems([it][1..]) == [];
    hide EncodeLabel, Encode;
  }

  /** The ranges a well-formed scalar is held to are those of its fields. */
  lemma ScalarRanges(i: int, s: seq<byte>, hi: nat, lo: nat)
    ensures WfScalar(Null) && WfScalar(Bool(true)) && WfScalar(Bool(false))
    ensures WfScalar(Int(i)) <==> -0x8000_0000_0000_0000 <= i < 0x8000_0000_0000_0000
    ensures WfScalar(Time(i)) <==> -0x8000_0000_0000_0000 <= i < 0x8000_0000_0000_0000
    ensures WfScalar(Str(s)) <==> |s| < 0x1_0000_0000
    ensures WfScalar(Dec(s)) <==> |s| < 256
    ensures WfScalar(Uuid(hi, lo)) <==> hi < 0x1_0000_0000_0000_0000 && lo < 0x1_0000_0000_0000_0000
  {
    Pow256Values();
  }
}
