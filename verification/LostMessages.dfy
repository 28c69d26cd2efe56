/** The message process_msg makes for a skipped query (src/opo/client.c:215-225). */
module LostMessages {
  import opened Bytes
  import opened Trees
  import opened Wire
  import opened Pending
  import opened Zippers
  import opened Builders
  import F = Frames
  import R = Readers

  const CODE_ITEM: Member := Item(Some(CODE), Leaf(Int(ERR_LOST)))
  const ERROR_ITEM: Member := Item(Some(ERROR), Leaf(Str(NO_RESPONSE)))

  function Opened(items: seq<Member>): Zipper {
    Zipper(None, [Hole(None, Obj, items)])
  }

  lemma Opens(cap: nat)
    ensures Apply(Empty(), PushContainer(None, Obj)) == (Opened([]), OK)
    ensures Extent(Empty(), PushContainer(None, Obj)) == 5
    ensures cap > 13 ==> CapAfter(Empty(), 8, cap, PushContainer(None, Obj), false) == cap
  {
    assert Empty().open + [Hole(None, Obj, [])] == Opened([]).open;
  }

  lemma Pushes(items: seq<Member>, key: seq<byte>, x: Scalar, cur: nat, cap: nat)
    ensures var op := PushScalar(Some(key), x);
            && Apply(Opened(items), op) == (Opened(items + [Item(Some(key), Leaf(x))]), OK)
            && Extent(Opened(items), op) == |EncodeKey(key)| + |EncodeScalar(x)|
            && (cur + |key| + 4 + Reserve(x) < cap ==> CapAfter(Opened(items), cur, cap, op, false) == cap)
  {
    assert Front(Opened(items).open) == [];
    assert [] + Opened(items + [Item(Some(key), Leaf(x))]).open == Opened(items + [Item(Some(key), Leaf(x))]).open;
    KeyFitsNeed(Some(key));
    hide EncodeKey, EncodeScalar, Reserve;
  }

  lemma Closes(items: seq<Member>)
    ensures Finished(Opened(items)) == Zeros(HEAD) + Encode(Node(Obj, items))
    ensures Finish(Opened(items)) == Zipper(Some(Node(Obj, items)), [])
  {
    assert Front(Opened(items).open) == [];
    assert CloseLast(Opened(items)) == Zipper(Some(Node(Obj, items)), []);
    assert Finish(CloseLast(Opened(items))) == CloseLast(Opened(items));
    hide Encode;
  }

  lemma LostSizes()
    ensures |EncodeKey(CODE)| == 7 && |EncodeScalar(Int(ERR_LOST))| == 3 && Reserve(Int(ERR_LOST)) == 3
    ensures |EncodeKey(ERROR)| == 8 && Reserve(Str(NO_RESPONSE)) == 17
  {
    Pow256Values();
  }

  lemma LostWf(id: nat)
    ensures Lost(id).v == Node(Obj, [CODE_ITEM, ERROR_ITEM]) && Wf(Lost(id).v)
  {
    Pow256Values();
    var items := [CODE_ITEM, ERROR_ITEM];
    assert EncodeItems(items[1..]) == EncodeItem(ERROR_ITEM) by { assert items[1..][1..] == []; }
    assert |EncodeItem(CODE_ITEM)| < 100 && |EncodeItem(ERROR_ITEM)| < 100;
    assert WfItem(Obj, CODE_ITEM) && WfItem(Obj, ERROR_ITEM);
  }

  /** The three pushes, which the 1024 byte buffer holds. */
  method PushLost(lost: array<byte>) returns (b: Builder)
    requires lost.Length == 1024
    modifies lost
    ensures fresh(b) && fresh(b.stack) && b.Valid() && !b.own && b.buf == lost
    ensures b.z == Opened([CODE_ITEM, ERROR_ITEM])
  {
    LostSizes();
    hide Apply, Extent, CapAfter, Reserve, Encode, EncodeKey, EncodeScalar, Spread, Opened, Offsets, Gaps, Ok, CheckKey;
    assert FitsSigned(ERR_LOST, 8) by { Pow256Values(); }
    b := new Builder.Given(lost);
    Opens(1024);
    Pushes([], CODE, Int(ERR_LOST), 13, 1024);
    Pushes([CODE_ITEM], ERROR, Str(NO_RESPONSE), 23, 1024);
    EmptyOpen();
    assert [] + [CODE_ITEM] == [CODE_ITEM] && [CODE_ITEM] + [ERROR_ITEM] == [CODE_ITEM, ERROR_ITEM];
    EmptyCur(b);
    var _ := b.PushObject(None);
    var _ := b.PushInt(ERR_LOST, Some(CODE));
    var _ := b.PushString(NO_RESPONSE, Some(ERROR));
  }

  lemma EmptyCur(b: Builder)
    requires b.Valid() && b.z == Empty()
    ensures b.cur == 8
  {
  }

  /** The message process_msg puts into a skipped query's slot, with the id it is given. */
  method LostMessage(id: nat) returns (msg: array<byte>)
    requires id < Pow256(8)
    ensures fresh(msg) && msg[..] == F.PacketBytes(Lost(id))
  {
    LostWf(id);
    var lost := new byte[1024];
    var b := PushLost(lost);
    hide Encode, Spread, Finish, Finished, Wf, Opened, Offsets, Gaps, Ok, BE;
    Closes([CODE_ITEM, ERROR_ITEM]);
    b.FinishAll();
    Stamp(b, id, Lost(id).v);
    msg := b.TakeFinished(Lost(id).v);
  }

  /** opo_msg_set_id on a finished builder's buffer. */
  method Stamp(b: Builder, id: nat, ghost v: Val)
    requires id < Pow256(8) && HEAD <= b.cur <= b.buf.Length && b.buf[..b.cur] == Zeros(HEAD) + Encode(v)
    modifies b.buf
    ensures b.buf[..b.cur] == BE(id, 8) + Encode(v)
    ensures At(b.buf[..], HEAD, Encode(v))
  {
    hide Encode, BE, FromBE;
    ghost var was := b.buf[..];
    assert was[..b.cur][HEAD..] == Encode(v);
    R.MsgSetId(b.buf, id);
    BEInvertsFromBE(b.buf[..8]);
    assert b.buf[..][8..] == was[8..];
    assert b.buf[8..b.cur] == b.buf[8..][..b.cur - 8] == was[8..][..b.cur - 8] == Encode(v);
    assert b.buf[..b.cur] == b.buf[..8] + b.buf[8..b.cur];
  }

  lemma EmptyOpen()
    ensures Empty().open == [] && Zipper(None, []) == Empty()
  {
  }

  lemma LostInts()
    ensures EncodeScalar(Int(174)) == [50, 0, 174] && BE(4, 1) == [4] && BE(5, 1) == [5] && BE(11, 1) == [11]
    ensures BE(32, 4) == [0, 0, 0, 32]
  {
    Pow256Values();
    BE4(32);
    assert BE(174, 2) == BE(0, 1) + [174];
  }

  lemma LostParts()
    ensures EncodeItem(CODE_ITEM) == [107, 4] + [99, 111, 100, 101] + [0] + [50, 0, 174]
    ensures EncodeItem(ERROR_ITEM)
            == [107, 5] + [101, 114, 114, 111, 114] + [0]
               + ([115, 11] + [110, 111, 32, 114, 101, 115, 112, 111, 110, 115, 101] + [0])
  {
    LostInts();
    hide BE;
  }

  /** {"code":174,"error":"no response"} as it travels. */
  lemma LostBytes(id: nat)
    ensures Encode(Lost(id).v)
            == [123, 0, 0, 0, 32]
               + ([107, 4] + [99, 111, 100, 101] + [0] + [50, 0, 174]
                  + ([107, 5] + [101, 114, 114, 111, 114] + [0]
                     + ([115, 11] + [110, 111, 32, 114, 101, 115, 112, 111, 110, 115, 101] + [0])))
  {
    LostWf(id);
    LostInts();
    LostParts();
    var items := [CODE_ITEM, ERROR_ITEM];
    assert EncodeItems(items) == EncodeItem(CODE_ITEM) + EncodeItem(ERROR_ITEM) by { TwoMembers(); }
    assert Encode(Node(Obj, items)) == [123] + BE(|EncodeItems(items)|, 4) + EncodeItems(items);
    hide BE, Encode, EncodeItems, EncodeItem;
  }

  lemma TwoMembers()
    ensures EncodeItems([CODE_ITEM, ERROR_ITEM]) == EncodeItem(CODE_ITEM) + EncodeItem(ERROR_ITEM)
  {
    hide EncodeItem;
    var items := [CODE_ITEM, ERROR_ITEM];
    assert items[1..] == [ERROR_ITEM] && items[1..][1..] == [];
    assert EncodeItems(items[1..]) == EncodeItem(ERROR_ITEM) + EncodeItems(items[1..][1..]);
  }
}
