/** Reading values in place: integers, keys, members (src/opo/val.c:505-543, 610-640, 694-771). */
module Readers {
  import opened Bytes
  import opened Trees
  import opened Wire

  // ---- integers ----

  /** opo_val_int: the integer at p, or None where the code reports a type error. */
  method ValInt(s: seq<byte>, p: nat) returns (r: Option<int>)
    requires HeaderFits(s, p) && p + BSize(s, p) <= |s|
    ensures r == match ReadScalar(s, p) case Some(Int(i)) => Some(i) case _ => None
  {
    var tag := s[p];
    if tag == VAL_INT1 {
      r := Some(ToSigned(FromBE(s[p + 1..p + 2]), 1));
    } else if tag == VAL_INT2 {
      var num := ReadUint(s, p + 1, 2);
      r := Some(ToSigned(num, 2));
    } else if tag == VAL_INT4 {
      var num := ReadUint(s, p + 1, 4);
      r := Some(ToSigned(num, 4));
    } else if tag == VAL_INT8 {
      var num := ReadUint(s, p + 1, 8);
      r := Some(ToSigned(num, 8));
    } else {
      r := None;
    }
  }

  /** Every 64 bit integer reads back, from the fewest of 1, 2, 4 and 8 bytes that hold it. */
  lemma IntReadsBack(s: seq<byte>, p: nat, i: int)
    requires FitsSigned(i, 8) && At(s, p, EncodeScalar(Int(i)))
    ensures HeaderFits(s, p) && BSize(s, p) == 1 + IntWidth(i) && ReadScalar(s, p) == Some(Int(i))
    ensures FitsSigned(i, IntWidth(i))
    ensures forall w :: w in {1, 2, 4, 8} && FitsSigned(i, w) ==> IntWidth(i) <= w
  {
    Pow256Values();
    ReadIntInverts(s, p, i);
  }

  // ---- message ids ----

  /** opo_msg_set_id writes what opo_msg_id reads and leaves the value alone. */
  method MsgSetId(msg: array<byte>, id: nat)
    requires 8 <= msg.Length && id < Pow256(8)
    modifies msg
    ensures FromBE(msg[..8]) == id
    ensures msg[8..] == old(msg[8..])
  {
    ghost var was := msg[..];
    var _ := FillUint64(msg, 0, id);
    WroteAt(was, msg[..], 0, BE(id, 8));
    assert msg[..8] == msg[..][0..8] == BE(id, 8);
    assert msg[8..] == msg[..][8..];
    FromBEInvertsBE(id, 8);
  }

  // ---- keys ----

  /** opo_val_key as written: the second case tests the tag of a string. */
  function OpoValKey(s: seq<byte>, p: nat): Option<seq<byte>>
    requires HeaderFits(s, p) && p + BSize(s, p) <= |s|
  {
    if s[p] == VAL_KEY1 then Some(s[p + 2..p + BSize(s, p) - 1])
    else if s[p] == VAL_STR2 then Some(s[p + 3..p + BSize(s, p) - 1])
    else None
  }

  /** It finds a key exactly when the key is at most 255 bytes long. */
  lemma OpoValKeyShortOnly(s: seq<byte>, p: nat, k: seq<byte>)
    requires |k| <= MAX_KEY && At(s, p, EncodeKey(k))
    ensures HeaderFits(s, p) && p + BSize(s, p) <= |s|
    ensures OpoValKey(s, p) == Some(k) <==> |k| <= 0xff
  {
    ReadKeyInverts(s, p, k);
    AtByte(s, p, EncodeKey(k), 0);
  }

  /** And it takes a string of 256 to 65535 bytes for a key. */
  lemma OpoValKeyOnString(s: seq<byte>, p: nat, t: seq<byte>)
    requires 0xff < |t| <= 0xffff && At(s, p, EncodeStr(t))
    ensures HeaderFits(s, p) && p + BSize(s, p) <= |s| && OpoValKey(s, p) == Some(t)
  {
    ReadStrInverts(s, p, t);
    AtByte(s, p, EncodeStr(t), 0);
  }

  // ---- members ----

  /** Where member i starts, counted from its container. */
  function MemberStart(items: seq<Member>, i: nat): nat
    requires i <= |items|
  {
    5 + |EncodeItems(items[..i])|
  }

  /** Where the value of member i starts. */
  function ValueStart(items: seq<Member>, i: nat): nat
    requires i < |items|
  {
    MemberStart(items, i) + |EncodeLabel(items[i].key)|
  }

  lemma MemberWf(v: Val, i: nat)
    requires v.Node? && Wf(v) && i < |v.items|
    ensures WfItem(v.kind, v.items[i]) && KeyFits(v.kind, v.items[i].key) && Wf(v.items[i].val)
    ensures v.kind.Obj? ==> v.items[i].key.Some? && |v.items[i].key.value| <= MAX_KEY
    ensures v.kind.Arr? ==> v.items[i].key.None?
  {
    assert WfItem(v.kind, v.items[i]);
  }

  /** The content of a container, cut at member i. */
  lemma MemberLayout(items: seq<Member>, i: nat)
    requires i < |items|
    ensures EncodeItems(items) == EncodeItems(items[..i])
                                  + (EncodeLabel(items[i].key) + Encode(items[i].val))
                                  + EncodeItems(items[i + 1..])
    ensures MemberStart(items, i) == 5 + |EncodeItems(items[..i])|
    ensures ValueStart(items, i) == MemberStart(items, i) + |EncodeLabel(items[i].key)|
    ensures MemberStart(items, i + 1) == ValueStart(items, i) + |Encode(items[i].val)|
  {
    hide Encode, EncodeItems, EncodeLabel;
    var it := items[i];
    assert items == items[..i + 1] + items[i + 1..] && items[..i + 1] == items[..i] + [it];
    EncodeItemsSnoc(items[..i], it);
    EncodeItemsAppend(items[..i + 1], items[i + 1..]);
    assert EncodeItem(it) == EncodeLabel(it.key) + Encode(it.val);
  }

  lemma ContentAt(s: seq<byte>, p: nat, v: Val)
    requires v.Node? && Wf(v) && At(s, p, Encode(v))
    ensures At(s, p + 5, EncodeItems(v.items)) && |Encode(v)| == 5 + |EncodeItems(v.items)|
  {
    NodeHeader(s, p, v.kind, EncodeItems(v.items));
  }

  lemma MemberAt(s: seq<byte>, p: nat, v: Val, i: nat)
    requires v.Node? && Wf(v) && At(s, p, Encode(v)) && i < |v.items|
    ensures At(s, p + MemberStart(v.items, i), EncodeLabel(v.items[i].key))
    ensures At(s, p + ValueStart(v.items, i), Encode(v.items[i].val))
    ensures MemberStart(v.items, i + 1) == ValueStart(v.items, i) + |Encode(v.items[i].val)|
    ensures MemberStart(v.items, i) <= ValueStart(v.items, i)
    ensures MemberStart(v.items, i + 1) <= |Encode(v)|
    ensures Wf(v.items[i].val)
  {
    hide *;
    var items, it := v.items, v.items[i];
    MemberWf(v, i);
    ContentAt(s, p, v);
    MemberLayout(items, i);
    var before, mid, after := EncodeItems(items[..i]), EncodeLabel(it.key) + Encode(it.val), EncodeItems(items[i + 1..]);
    AtSplit(s, p + 5, before + mid, after);
    AtSplit(s, p + 5, before, mid);
    AtSplit(s, p + MemberStart(items, i), EncodeLabel(it.key), Encode(it.val));
  }

  lemma MembersEnd(v: Val)
    requires v.Node?
    ensures MemberStart(v.items, 0) == 5 && MemberStart(v.items, |v.items|) == |Encode(v)|
  {
    assert v.items[..0] == [] && v.items[..|v.items|] == v.items;
  }

  lemma {:induction false} MemberStartsGrow(items: seq<Member>, i: nat, j: nat)
    requires i < j <= |items|
    ensures MemberStart(items, i) < MemberStart(items, j)
  {
    assert items[..j] == items[..i] + [items[i]] + items[i + 1..j];
    EncodeItemsAppend(items[..i] + [items[i]], items[i + 1..j]);
    EncodeItemsSnoc(items[..i], items[i]);
  }

  /** What a walker sees at member i: an object's key, then the value, ending where member i + 1 starts. */
  lemma MemberStep(s: seq<byte>, p: nat, v: Val, i: nat)
    requires v.Node? && Wf(v) && At(s, p, Encode(v)) && i < |v.items|
    ensures v.kind.Obj? ==> KeySeen(s, p + MemberStart(v.items, i), v.items[i].key)
    ensures v.kind.Obj? ==> v.items[i].key.Some?
    ensures v.kind.Obj? ==>
              p + MemberStart(v.items, i) + BSize(s, p + MemberStart(v.items, i)) == p + ValueStart(v.items, i)
    ensures v.kind.Arr? ==> MemberStart(v.items, i) == ValueStart(v.items, i)
    ensures HeaderFits(s, p + ValueStart(v.items, i))
    ensures p + ValueStart(v.items, i) + BSize(s, p + ValueStart(v.items, i)) == p + MemberStart(v.items, i + 1)
    ensures MemberStart(v.items, i) <= ValueStart(v.items, i) < MemberStart(v.items, i + 1)
    ensures p + MemberStart(v.items, i + 1) <= |s|
    ensures At(s, p + ValueStart(v.items, i), Encode(v.items[i].val)) && Wf(v.items[i].val)
  {
    hide *;
    MemberAt(s, p, v, i);
    MemberWf(v, i);
    MemberLayout(v.items, i);
    AtFits(s, p, Encode(v));
    ValueSeen(s, p + ValueStart(v.items, i), v.items[i].val);
    LabelSeen(s, p + MemberStart(v.items, i), v.items[i].key);
  }

  lemma LabelSeen(s: seq<byte>, at: nat, key: Option<seq<byte>>)
    requires At(s, at, EncodeLabel(key)) && (key.Some? ==> |key.value| <= MAX_KEY)
    ensures if key.Some? then KeySeen(s, at, key) && BSize(s, at) == |EncodeLabel(key)|
            else |EncodeLabel(key)| == 0
  {
    if key.Some? {
      KeyIsSeen(s, at, key.value);
    }
  }

  predicate KeySeen(s: seq<byte>, at: nat, key: Option<seq<byte>>) {
    HeaderFits(s, at) && at + BSize(s, at) <= |s| && IsKeyTag(s[at]) && ReadKey(s, at) == key
  }

  lemma AtFits(s: seq<byte>, p: nat, e: seq<byte>)
    requires At(s, p, e)
    ensures p + |e| <= |s|
  {
  }

  lemma KeyIsSeen(s: seq<byte>, at: nat, k: seq<byte>)
    requires |k| <= MAX_KEY && At(s, at, EncodeKey(k))
    ensures KeySeen(s, at, Some(k)) && BSize(s, at) == |EncodeKey(k)|
  {
    ReadKeyInverts(s, at, k);
    AtFits(s, at, EncodeKey(k));
  }

  lemma ValueSeen(s: seq<byte>, at: nat, v: Val)
    requires Wf(v) && At(s, at, Encode(v))
    ensures HeaderFits(s, at) && BSize(s, at) == |Encode(v)| > 0 && at + BSize(s, at) <= |s|
  {
    SelfDelimiting(s, at, v);
    AtFits(s, at, Encode(v));
  }

  /** The container's header as the readers see it: its tag, its size field and where its members lie. */
  lemma Header(s: seq<byte>, p: nat, v: Val)
    requires v.Node? && Wf(v) && At(s, p, Encode(v))
    ensures HeaderFits(s, p) && p + 5 <= |s| && s[p] == KindTag(v.kind)
    ensures BSize(s, p) == |Encode(v)| && 5 + FromBE(s[p + 1..p + 5]) == |Encode(v)|
    ensures MemberStart(v.items, 0) == 5
    ensures forall i :: 0 <= i <= |v.items| ==> (MemberStart(v.items, i) < |Encode(v)| <==> i < |v.items|)
  {
    NodeHeader(s, p, v.kind, EncodeItems(v.items));
    SelfDelimiting(s, p, v);
    MembersEnd(v);
    forall i: nat | i < |v.items|
      ensures MemberStart(v.items, i) < |Encode(v)|
    {
      MemberStartsGrow(v.items, i, |v.items|);
    }
  }

  /** The stops of a walk with opo_val_next: each member's value, in an object after its key. */
  function Stops(v: Val, p: nat, n: nat): seq<nat>
    requires v.Node? && n <= |v.items|
  {
    if n == 0 then []
    else
      Stops(v, p, n - 1)
      + (if v.kind.Obj? then [p + MemberStart(v.items, n - 1)] else [])
      + [p + ValueStart(v.items, n - 1)]
  }

  lemma StopsStep(v: Val, p: nat, n: nat)
    requires v.Node? && n < |v.items|
    ensures Stops(v, p, n + 1)
            == Stops(v, p, n)
               + (if v.kind.Obj? then [p + MemberStart(v.items, n)] else [])
               + [p + ValueStart(v.items, n)]
  {
    hide MemberStart, ValueStart;
  }

  lemma NoStops(v: Val, p: nat)
    requires v.Node?
    ensures Stops(v, p, 0) == []
  {
  }

  /** opo_val_members, then opo_val_next until the container's end: exactly the members, in order. */
  method Walk(s: seq<byte>, p: nat, ghost v: Val) returns (r: Option<seq<nat>>)
    requires Wf(v) && At(s, p, Encode(v))
    ensures r == if v.Leaf? then None else Some(Stops(v, p, |v.items|))
  {
    hide Encode, At, Wf, WfItem, BSize, MemberStart, ValueStart, ReadKey, Stops;
    SelfDelimiting(s, p, v);
    TagTells(s, p, v);
    if s[p] != VAL_OBJ && s[p] != VAL_ARRAY {
      return None;
    }
    Header(s, p, v);
    var end := p + BSize(s, p);
    var val := p + 5;
    var stops: seq<nat> := [];
    NoStops(v, p);
    ghost var i := 0;
    while val < end
      invariant 0 <= i <= |v.items| && val == p + MemberStart(v.items, i)
      invariant stops == Stops(v, p, i)
      decreases end - val
    {
      MemberStep(s, p, v, i);
      StopsStep(v, p, i);
      stops := stops + [val];
      if s[p] == VAL_OBJ {
        val := val + BSize(s, val);
        stops := stops + [val];
      }
      val := val + BSize(s, val);
      i := i + 1;
    }
    r := Some(stops);
  }

  /** opo_val_member_count: the number of members; None stands for the type error. */
  method MemberCount(s: seq<byte>, p: nat, ghost v: Val) returns (r: Option<nat>)
    requires Wf(v) && At(s, p, Encode(v))
    ensures r == if v.Leaf? then None else Some(|v.items|)
  {
    hide Encode, At, Wf, WfItem, BSize, MemberStart, ValueStart, ReadKey, FromBE;
    SelfDelimiting(s, p, v);
    TagTells(s, p, v);
    if !IsContainerTag(s[p]) {
      return None;
    }
    Header(s, p, v);
    var size := ReadUint(s, p + 1, 4);
    var val := p + 5;
    var end := val + size;
    var cnt := 0;
    while val < end
      invariant 0 <= cnt <= |v.items| && val == p + MemberStart(v.items, cnt)
      decreases end - val
    {
      MemberStep(s, p, v, cnt);
      if s[p] == VAL_OBJ {
        val := val + BSize(s, val);
      }
      val := val + BSize(s, val);
      cnt := cnt + 1;
    }
    r := Some(cnt);
  }
}
