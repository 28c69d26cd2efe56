/** OjC values and their encoding by wire_size and wire_fill (src/opo/opo.c:297-524). */
module Ojcs {
  import opened Bytes
  import opened Trees
  import opened Wire
  import opened Fill
  import U = Uuids
  import T = Times

  datatype OjcLeaf =
    | ONull
    | OBool(b: bool)
    | OStr(s: seq<byte>)
    | ONumber(s: seq<byte>) // a number kept as text
    | OFix(i: int)
    | ODec(text: seq<byte>) // a double, by the text it prints as
    | OWord(s: seq<byte>)

  type Ojc = Tree<OjcLeaf>
  type OjcItem = Item<OjcLeaf>

  // ---- same shape, other leaves ----

  function Map<A, B>(f: A -> B, v: Tree<A>): Tree<B>
    decreases v
  {
    match v
    case Leaf(x) => Leaf(f(x))
    case Node(kind, items) => Node(kind, MapItems(f, items))
  }

  function MapItem<A, B>(f: A -> B, it: Item<A>): Item<B>
    decreases it
  {
    Item(it.key, Map(f, it.val))
  }

  function MapItems<A, B>(f: A -> B, items: seq<Item<A>>): (r: seq<Item<B>>)
    ensures |r| == |items|
    ensures forall i :: 0 <= i < |items| ==> r[i] == MapItem(f, items[i])
    decreases items
  {
    if items == [] then [] else [MapItem(f, items[0])] + MapItems(f, items[1..])
  }

  lemma MapItemsSnoc<A, B>(f: A -> B, items: seq<Item<A>>, it: Item<A>)
    ensures MapItems(f, items + [it]) == MapItems(f, items) + [MapItem(f, it)]
  {
  }

  // ---- what a leaf becomes on the wire, and what it comes back as ----

  /** Strings that look like a UUID or a time travel as one; numbers and words travel as strings. */
  function Classify(cal: T.Calendar, x: OjcLeaf): Scalar {
    match x
    case ONull => Null
    case OBool(b) => Bool(b)
    case OStr(s) =>
      if U.IsUuid(s) then (var (hi, lo) := U.ParseUuid(s); Uuid(hi, lo))
      else if T.TimeOf(cal, s).Some? then Time(T.TimeOf(cal, s).value)
      else Str(s)
    case ONumber(s) => Str(s)
    case OFix(i) => Int(i)
    case ODec(text) => Dec(text)
    case OWord(s) => Str(s)
  }

  function Show(cal: T.Calendar, x: Scalar): OjcLeaf {
    match x
    case Null => ONull
    case Bool(b) => OBool(b)
    case Int(i) => OFix(i)
    case Str(s) => OStr(s)
    case Dec(text) => ODec(text)
    case Uuid(hi, lo) => OStr(U.PrintUuid(hi, lo))
    case Time(ns) => OStr(T.PrintTime(cal, ns))
  }

  function ToVal(cal: T.Calendar, o: Ojc): Val {
    Map((x: OjcLeaf) => Classify(cal, x), o)
  }

  function FromVal(cal: T.Calendar, v: Val): Ojc {
    Map((x: Scalar) => Show(cal, x), v)
  }

  /** Numbers and words are strings afterwards, times are as the calendar prints them. */
  function Normal(cal: T.Calendar, x: OjcLeaf): OjcLeaf {
    match x
    case ONumber(s) => OStr(s)
    case OWord(s) => OStr(s)
    case OStr(s) => if T.TimeOf(cal, s).Some? then OStr(T.PrintTime(cal, T.TimeOf(cal, s).value)) else x
    case _ => x
  }

  lemma ShowClassify(cal: T.Calendar, x: OjcLeaf)
    ensures Show(cal, Classify(cal, x)) == Normal(cal, x)
  {
    if x.OStr? && U.IsUuid(x.s) {
      U.TextRoundTrip(x.s);
    }
  }

  /** A tree that has been through the wire differs only in its leaves' normal form. */
  lemma {:induction false} Normalised(cal: T.Calendar, o: Ojc)
    ensures FromVal(cal, ToVal(cal, o)) == Map((x: OjcLeaf) => Normal(cal, x), o)
    decreases o
  {
    var f := (x: OjcLeaf) => Classify(cal, x);
    var g := (x: Scalar) => Show(cal, x);
    var h := (x: OjcLeaf) => Normal(cal, x);
    match o
    case Leaf(x) => ShowClassify(cal, x);
    case Node(kind, items) =>
      forall i | 0 <= i < |items|
        ensures MapItems(g, MapItems(f, items))[i] == MapItems(h, items)[i]
      {
        assert items[i].val < items[i] && items[i] < o;
        Normalised(cal, items[i].val);
      }
  }

  /** The shape survives, so depth and pop safety can be read off either side. */
  lemma {:induction false} MapDepth<A, B>(f: A -> B, v: Tree<A>)
    ensures Depth(Map(f, v)) == Depth(v)
    decreases v
  {
    if v.Node? {
      MapDepthItems(f, v.items);
    }
  }

  lemma {:induction false} MapDepthItems<A, B>(f: A -> B, items: seq<Item<A>>)
    ensures DepthItems(MapItems(f, items)) == DepthItems(items)
    decreases items
  {
    if items != [] {
      var it := items[0];
      assert it.val < it;
      MapDepth(f, it.val);
      MapDepthItems(f, items[1..]);
      assert MapItems(f, items)[1..] == MapItems(f, items[1..]);
    }
  }

  // ---- sizes ----

  predicate LeafFits(x: OjcLeaf) {
    match x
    case OStr(s) => |s| < 0x8000_0000
    case ONumber(s) => |s| < 0x8000_0000
    case OWord(s) => |s| < 0x8000_0000
    case OFix(i) => FitsSigned(i, 8)
    case ODec(text) => |text| < 64
    case _ => true
  }

  /** What the C types of an OjC value guarantee: int lengths, 64 bit integers, keys where they belong. */
  predicate OjcFits(o: Ojc)
    decreases o
  {
    match o
    case Leaf(x) => LeafFits(x)
    case Node(kind, items) => forall i :: 0 <= i < |items| ==> ItemFits(kind, items[i])
  }

  predicate ItemFits(kind: Kind, it: OjcItem)
    decreases it
  {
    KeyFits(kind, it.key) && (it.key.Some? ==> |it.key.value| < 0x8000_0000) && OjcFits(it.val)
  }

  function SizeBytes(n: nat): nat {
    if n <= 0xff then 1 else if n <= 0xffff then 2 else if n <= 0xffff_ffff then 4 else 8
  }

  function LongKey(it: OjcItem): nat {
    if it.key.Some? && |it.key.value| > MAX_KEY then 1 else 0
  }

  /** How many keys in o are over 65535 bytes. */
  function LongKeys(o: Ojc): nat
    decreases o
  {
    match o
    case Leaf(_) => 0
    case Node(_, items) => LongKeysIn(items)
  }

  function LongKeysIn(items: seq<OjcItem>): nat
    decreases items
  {
    if items == [] then 0
    else
      var it := items[|items| - 1];
      assert it.val < it;
      LongKeysIn(items[..|items| - 1]) + LongKey(it) + LongKeys(it.val)
  }

  lemma LongKeysSnoc(items: seq<OjcItem>, i: nat)
    requires i < |items|
    ensures LongKeysIn(items[..i + 1]) == LongKeysIn(items[..i]) + LongKey(items[i]) + LongKeys(items[i].val)
  {
    assert items[..i + 1][..i] == items[..i];
  }

  lemma LeafSize(cal: T.Calendar, x: OjcLeaf, size: nat)
    requires LeafFits(x)
    requires size == match x {
               case ONull => 1
               case OBool(_) => 1
               case OStr(s) => if U.IsUuid(s) then 17 else if T.TimeOf(cal, s).Some? then 9 else 1 + |s| + SizeBytes(|s|) + 1
               case ONumber(s) => 1 + |s| + SizeBytes(|s|) + 1
               case OFix(i) => 1 + IntWidth(i)
               case ODec(text) => 2 + |text|
               case OWord(s) => 1 + |s| + SizeBytes(|s|) + 1
             }
    ensures size == |EncodeScalar(Classify(cal, x))|
  {
  }

  method IsizeBytes(n: int) returns (cnt: nat)
    requires FitsSigned(n, 8)
    ensures cnt == IntWidth(n)
  {
    Pow256Values();
    if -128 <= n <= 127 {
      cnt := 1;
    } else if -32768 <= n <= 32767 {
      cnt := 2;
    } else if -2147483648 <= n <= 2147483647 {
      cnt := 4;
    } else {
      cnt := 8;
    }
  }

  method LeafWireSize(cal: T.Calendar, x: OjcLeaf) returns (size: nat)
    requires LeafFits(x)
    ensures size == |EncodeScalar(Classify(cal, x))|
  {
    size := 1;
    match x {
      case ONull =>
      case OBool(_) =>
      case OStr(s) =>
        var uuid := U.DetectUuid(s);
        if uuid {
          size := size + 16;
        } else {
          var t := T.NO_TIME;
          if |s| == T.TIME_STR_LEN {
            t := T.TimeParse(cal, s);
          }
          if t != T.NO_TIME {
            size := size + 8;
          } else {
            size := size + |s| + SizeBytes(|s|) + 1;
          }
        }
      case ONumber(s) =>
        size := size + |s| + SizeBytes(|s|) + 1;
      case OFix(i) =>
        var n := IsizeBytes(i);
        size := size + n;
      case ODec(text) =>
        size := size + 1 + |text|;
      case OWord(s) =>
        size := size + |s| + SizeBytes(|s|) + 1;
    }
    LeafSize(cal, x, size);
  }

  /** wire_size counts what wire_fill writes, plus two bytes for every key over 65535 bytes. */
  method WireSize(cal: T.Calendar, o: Ojc) returns (size: nat)
    requires OjcFits(o)
    ensures size == |Encode(ToVal(cal, o))| + 2 * LongKeys(o)
    decreases o
  {
    match o {
      case Leaf(x) =>
        size := LeafWireSize(cal, x);
      case Node(kind, items) =>
        hide EncodeItems, LongKeysIn, LongKeys, Map;
        size := 5;
        EmptySize();
        ghost var vs := ToVal(cal, o).items;
        var i := 0;
        while i < |items|
          invariant 0 <= i <= |items|
          invariant size == 5 + |EncodeItems(vs[..i])| + 2 * LongKeysIn(items[..i])
        {
          var it := items[i];
          assert ItemFits(kind, it);
          assert it.val < it && it < o;
          if kind.Obj? {
            size := size + |it.key.value| + SizeBytes(|it.key.value|) + 2;
          }
          var n := WireSize(cal, it.val);
          size := size + n;
          ItemSize(cal, kind, items, i, vs);
          i := i + 1;
        }
        assert vs[..i] == vs && items[..i] == items;
    }
  }

  lemma EmptySize()
    ensures EncodeItems([]) == [] && LongKeysIn([]) == 0
  {
  }

  lemma ItemSize(cal: T.Calendar, kind: Kind, items: seq<OjcItem>, i: nat, vs: seq<Member>)
    requires vs == ToVal(cal, Node(kind, items)).items && i < |items| && ItemFits(kind, items[i])
    ensures |EncodeItems(vs[..i + 1])| + 2 * LongKeysIn(items[..i + 1])
         == |EncodeItems(vs[..i])| + 2 * LongKeysIn(items[..i])
            + (if kind.Obj? then |items[i].key.value| + SizeBytes(|items[i].key.value|) + 2 else 0)
            + |Encode(ToVal(cal, items[i].val))| + 2 * LongKeys(items[i].val)
  {
    assert vs[..i + 1] == vs[..i] + [vs[i]];
    EncodeItemsSnoc(vs[..i], vs[i]);
    LongKeysSnoc(items, i);
  }

  // ---- filling a buffer ----

  /** The string case: a UUID, a time or plain text. */
  /** What a text is encoded as. */
  lemma TextClass(cal: T.Calendar, s: seq<byte>)
    ensures U.IsUuid(s) ==> EncodeScalar(Classify(cal, OStr(s))) == [VAL_UUID] + U.Pack(U.Nibbles(s))
    ensures U.IsUuid(s) ==> |U.Nibbles(s)| / 2 == |U.Pack(U.Nibbles(s))|
    ensures !U.IsUuid(s) && T.TimeOf(cal, s).Some? ==>
              && Classify(cal, OStr(s)) == Time(T.TimeOf(cal, s).value)
              && |EncodeScalar(Classify(cal, OStr(s)))| == 9
    ensures !U.IsUuid(s) && T.TimeOf(cal, s).None? ==> EncodeScalar(Classify(cal, OStr(s))) == EncodeStr(s)
    ensures T.TimeOf(cal, s).Some? ==> |s| == T.TIME_STR_LEN && T.TimeOf(cal, s).value != T.NO_TIME
  {
    if U.IsUuid(s) {
      U.DashedNibbles(s);
      UuidBytes(s);
    }
  }

  /** A timestamp travels as nine bytes, wherever its instant fits and is not -1. */
  lemma TimestampTravels(cal: T.Calendar, tm: T.Tm, frac: nat)
    requires T.Printable(tm) && frac < 1000000000
    ensures var ns := cal.timegm(tm) * 1000000000 + frac;
            -0x8000_0000_0000_0000 <= ns < 0x8000_0000_0000_0000 && ns != -1 ==>
              EncodeScalar(Classify(cal, OStr(T.Text(tm, frac)))) == [84] + BE(ToUnsigned(ns, 8), 8)
  {
    hide *;
    T.TimestampMeans(cal, tm, frac);
    T.TextPlaces(tm, frac);
    var ns := cal.timegm(tm) * 1000000000 + frac;
    if -0x8000_0000_0000_0000 <= ns < 0x8000_0000_0000_0000 && ns != -1 {
      TimeClass(cal, T.Text(tm, frac));
    }
  }

  lemma TimeClass(cal: T.Calendar, s: seq<byte>)
    requires |s| == T.TIME_STR_LEN && T.TimeOf(cal, s).Some?
    ensures EncodeScalar(Classify(cal, OStr(s))) == [84] + BE(ToUnsigned(T.TimeOf(cal, s).value, 8), 8)
  {
    hide T.TimeOf, BE, ToUnsigned;
    assert !U.IsUuid(s);
  }

  /** The other leaves keep what they carry: numbers and words as plain strings, whatever they look like. */
  lemma LeafBytes(cal: T.Calendar, b: bool, i: int, s: seq<byte>)
    ensures EncodeScalar(Classify(cal, ONull)) == [90]
    ensures EncodeScalar(Classify(cal, OBool(b))) == [if b then 116 else 102]
    ensures -128 <= i < 128 ==> EncodeScalar(Classify(cal, OFix(i))) == [105] + BE(ToUnsigned(i, 1), 1)
    ensures |s| < 256 ==> EncodeScalar(Classify(cal, ODec(s))) == [100, |s| as byte] + s
    ensures |s| < 256 ==> EncodeScalar(Classify(cal, ONumber(s))) == [115, |s| as byte] + s + [0]
    ensures |s| < 256 ==> EncodeScalar(Classify(cal, OWord(s))) == [115, |s| as byte] + s + [0]
  {
    ScalarBytes();
    PlainText(cal, s);
    SmallInt(cal, i);
    hide EncodeScalar, EncodeStr, BE, ToUnsigned;
  }

  lemma SmallInt(cal: T.Calendar, i: int)
    ensures -128 <= i < 128 ==> EncodeScalar(Classify(cal, OFix(i))) == [105] + BE(ToUnsigned(i, 1), 1)
  {
    hide BE, ToUnsigned, EncodeStr;
  }

  lemma PlainText(cal: T.Calendar, s: seq<byte>)
    ensures |s| < 256 ==> EncodeScalar(Classify(cal, ODec(s))) == [100, |s| as byte] + s
    ensures |s| < 256 ==> EncodeScalar(Classify(cal, ONumber(s))) == [115, |s| as byte] + s + [0]
    ensures |s| < 256 ==> EncodeScalar(Classify(cal, OWord(s))) == [115, |s| as byte] + s + [0]
  {
    OneByte(|s|);
    hide *;
    if |s| < 256 {
      Classes(cal, s);
      DecBytes(s, |s| as byte);
      StrBytes(s, |s| as byte);
    }
  }

  lemma Classes(cal: T.Calendar, s: seq<byte>)
    ensures Classify(cal, ODec(s)) == Dec(s) && Classify(cal, ONumber(s)) == Str(s) && Classify(cal, OWord(s)) == Str(s)
  {
  }

  lemma DecBytes(s: seq<byte>, n: byte)
    requires BE(|s|, 1) == [n]
    ensures EncodeScalar(Dec(s)) == [100, n] + s
  {
    hide BE;
    assert [VAL_DEC] + [n] == [100, n];
  }

  lemma StrBytes(s: seq<byte>, n: byte)
    requires |s| < 256 && BE(|s|, 1) == [n]
    ensures EncodeScalar(Str(s)) == [115, n] + s + [0]
  {
    hide BE;
    assert [VAL_STR1] + [n] == [115, n];
  }

  lemma OneByte(n: nat)
    ensures n < 256 ==> BE(n, 1) == [n as byte]
  {
  }

  method FillString(cal: T.Calendar, s: seq<byte>, w: array<byte>, at: nat) returns (end: nat)
    requires at + |EncodeScalar(Classify(cal, OStr(s)))| <= w.Length
    modifies w
    ensures end == at + |EncodeScalar(Classify(cal, OStr(s)))|
    ensures Wrote(old(w[..]), w[..], at, EncodeScalar(Classify(cal, OStr(s))))
  {
    TextClass(cal, s);
    hide Classify, EncodeScalar, EncodeStr, Wrote, BE;
    var uuid := U.DetectUuid(s);
    if uuid {
      end := U.FillUuid(w, at, VAL_UUID, s);
    } else {
      var t := T.NO_TIME;
      if |s| == T.TIME_STR_LEN {
        t := T.TimeParse(cal, s);
      }
      if t != T.NO_TIME {
        end := FillTime(w, at, t);
      } else {
        end := FillStr(w, at, s);
      }
    }
  }

  method FillLeaf(cal: T.Calendar, x: OjcLeaf, w: array<byte>, at: nat) returns (end: nat)
    requires LeafFits(x) && at + |EncodeScalar(Classify(cal, x))| <= w.Length
    modifies w
    ensures end == at + |EncodeScalar(Classify(cal, x))|
    ensures Wrote(old(w[..]), w[..], at, EncodeScalar(Classify(cal, x)))
  {
    match x {
      case ONull =>
        end := PutByte(w, at, VAL_NULL);
      case OBool(b) =>
        end := PutByte(w, at, if b then VAL_TRUE else VAL_FALSE);
      case OStr(s) =>
        end := FillString(cal, s, w, at);
      case ONumber(s) =>
        end := FillStr(w, at, s);
      case OFix(i) =>
        end := FillInt(w, at, i);
      case ODec(text) =>
        end := FillDec(w, at, text);
      case OWord(s) =>
        end := FillStr(w, at, s);
    }
  }

  /** Skipping a hole writes the hole's old bytes. */
  lemma WroteAroundHole(was: seq<byte>, m1: seq<byte>, m2: seq<byte>, at: nat, a: seq<byte>, hole: nat, c: seq<byte>)
    requires Wrote(was, m1, at, a) && Wrote(m1, m2, at + |a| + hole, c)
    ensures Wrote(was, m2, at, a + was[at + |a|..at + |a| + hole] + c)
  {
    var p := at + |a|;
    var h := was[p..p + hole];
    assert m1[..p + hole] == was[..at] + a + h;
    assert m1[p + hole + |c|..] == was[p + hole + |c|..];
    assert (was[..at] + a + h) + c == was[..at] + (a + h + c);
  }

  /** Filling the hole later replaces those bytes. */
  lemma WroteIntoHole(was: seq<byte>, m2: seq<byte>, now: seq<byte>, at: nat,
                      a: seq<byte>, hole: seq<byte>, c: seq<byte>, len: seq<byte>)
    requires Wrote(was, m2, at, a + hole + c) && |hole| == |len|
    requires Wrote(m2, now, at + |a|, len)
    ensures Wrote(was, now, at, a + len + c)
  {
    var x, y := was[..at] + a, c + was[at + |a| + |hole| + |c|..];
    assert m2 == x + hole + y;
    Refill(x, hole, y, now, len);
    assert now == was[..at] + (a + len + c) + was[at + |a + len + c|..];
  }

  lemma Refill(x: seq<byte>, hole: seq<byte>, y: seq<byte>, now: seq<byte>, len: seq<byte>)
    requires |hole| == |len| && Wrote(x + hole + y, now, |x|, len)
    ensures now == x + len + y
  {
    assert (x + hole + y)[..|x|] == x && (x + hole + y)[|x| + |len|..] == y;
  }

  /** Writing the length last gives the container: the hole left for it is filled in place. */
  lemma Backpatch(was: seq<byte>, m1: seq<byte>, m2: seq<byte>, now: seq<byte>, at: nat, kind: Kind, content: seq<byte>)
    requires Wrote(was, m1, at, [KindTag(kind)])
    requires Wrote(m1, m2, at + 5, content)
    requires Wrote(m2, now, at + 1, BE(|content|, 4))
    ensures Wrote(was, now, at, Wrap(kind, content))
  {
    hide *;
    var t, len := [KindTag(kind)], BE(|content|, 4);
    WroteLength(was, m1, at, t);
    WroteLength(m1, m2, at + 5, content);
    WroteAroundHole(was, m1, m2, at, t, 4, content);
    WroteIntoHole(was, m2, now, at, t, was[at + 1..at + 5], content, len);
    WrapParts(kind, content);
  }

  lemma WrapParts(kind: Kind, content: seq<byte>)
    ensures Wrap(kind, content) == [KindTag(kind)] + BE(|content|, 4) + content
    ensures |BE(|content|, 4)| == 4
  {
  }

  /** wire_fill writes the encoding of the classified value and nothing else. */
  method WireFill(cal: T.Calendar, o: Ojc, w: array<byte>, at: nat) returns (end: nat)
    requires OjcFits(o) && at + |Encode(ToVal(cal, o))| <= w.Length
    modifies w
    ensures end == at + |Encode(ToVal(cal, o))|
    ensures Wrote(old(w[..]), w[..], at, Encode(ToVal(cal, o)))
    decreases o
  {
    match o {
      case Leaf(x) =>
        end := FillLeaf(cal, x, w, at);
      case Node(kind, items) =>
        hide EncodeItems, Wrote;
        ghost var vs := ToVal(cal, o).items;
        ghost var was := w[..];
        var start := PutByte(w, at, KindTag(kind));
        ghost var m1 := w[..];
        end := start + 4;
        var i := 0;
        WroteNothing(m1, at + 5);
        EmptySize();
        while i < |items|
          invariant 0 <= i <= |items|
          invariant w.Length == |was|
          invariant end == at + 5 + |EncodeItems(vs[..i])|
          invariant Wrote(m1, w[..], at + 5, EncodeItems(vs[..i]))
        {
          end := FillItem(cal, kind, items, i, vs, w, at + 5, end, m1, o);
          i := i + 1;
        }
        assert vs[..i] == vs;
        ghost var m2 := w[..];
        var _ := FillUint32(w, start, end - start - 4);
        Backpatch(was, m1, m2, w[..], at, kind, EncodeItems(vs));
    }
  }

  lemma WroteNothing(s: seq<byte>, at: nat)
    requires at <= |s|
    ensures Wrote(s, s, at, [])
  {
  }

  /** The next member's encoding follows that of the members before it, and stays inside the whole. */
  lemma NextItem(cal: T.Calendar, kind: Kind, items: seq<OjcItem>, i: nat, vs: seq<Member>, o: Ojc)
    requires o == Node(kind, items) && OjcFits(o) && i < |items| && vs == ToVal(cal, o).items
    ensures |vs| == |items| && ItemFits(kind, items[i]) && items[i].val < o
    ensures EncodeItems(vs[..i + 1])
            == EncodeItems(vs[..i]) + EncodeLabel(items[i].key) + Encode(ToVal(cal, items[i].val))
    ensures |EncodeItems(vs[..i + 1])| <= |EncodeItems(vs)|
  {
    hide Encode, EncodeItems, EncodeLabel;
    var it := items[i];
    assert ItemFits(kind, it);
    assert it.val < it && it < o;
    assert vs[i] == Item(it.key, ToVal(cal, it.val));
    assert vs[..i + 1] == vs[..i] + [vs[i]] && vs == vs[..i + 1] + vs[i + 1..];
    EncodeItemsSnoc(vs[..i], vs[i]);
    EncodeItemsAppend(vs[..i + 1], vs[i + 1..]);
  }

  /** One turn of wire_fill's member loop: the key, if any, then the value. */
  method FillItem(cal: T.Calendar, kind: Kind, items: seq<OjcItem>, i: nat, ghost vs: seq<Member>, w: array<byte>,
                  ghost start: nat, p: nat, ghost was: seq<byte>, ghost o: Ojc) returns (end: nat)
    requires o == Node(kind, items) && OjcFits(o) && i < |items| && vs == ToVal(cal, o).items
    requires p == start + |EncodeItems(vs[..i])|
    requires start + |EncodeItems(vs)| <= w.Length
    requires Wrote(was, w[..], start, EncodeItems(vs[..i]))
    modifies w
    ensures end == start + |EncodeItems(vs[..i + 1])|
    ensures Wrote(was, w[..], start, EncodeItems(vs[..i + 1]))
    decreases o, 0
  {
    hide Encode, EncodeItems, EncodeLabel, Wrote, ToVal, Map, OjcFits;
    var it := items[i];
    NextItem(cal, kind, items, i, vs, o);
    ghost var done, keyed, body := EncodeItems(vs[..i]), EncodeLabel(it.key), Encode(ToVal(cal, it.val));
    ghost var m1 := w[..];
    end := FillLabel(kind, it.key, w, p);
    ghost var m2 := w[..];
    WroteThen(was, m1, m2, start, done, keyed);
    end := WireFill(cal, it.val, w, end);
    WroteThen(was, m2, w[..], start, done + keyed, body);
  }

  /** Only an object's members have their key written. */
  method FillLabel(kind: Kind, key: Option<seq<byte>>, w: array<byte>, p: nat) returns (end: nat)
    requires KeyFits(kind, key) && p + |EncodeLabel(key)| <= w.Length
    modifies w
    ensures end == p + |EncodeLabel(key)|
    ensures Wrote(old(w[..]), w[..], p, EncodeLabel(key))
  {
    hide EncodeKey, Wrote;
    end := p;
    if kind.Obj? {
      end := FillKey(w, p, key.value);
    } else {
      WroteNothing(w[..], p);
    }
  }
}
