/** Callback iteration over a value: val_iterate (src/opo/val.c:182-403). */
module Iteration {
  import opened Bytes
  import opened Trees
  import opened Wire
  import opened Readers
  import Uuids

  // ---- callbacks ----

  datatype Slot =
    | OnNull | OnBoolean | OnFixnum | OnString | OnDecimal | OnUuid | OnUuidStr | OnTime | OnTimeStr
    | OnKey | OnBeginObject | OnEndObject | OnBeginArray | OnEndArray

  datatype Event = Event(slot: Slot, arg: Arg)

  datatype Arg = NoArg | Flag(b: bool) | Num(i: int) | Text(s: seq<byte>) | Pair(hi: nat, lo: nat)

  /** The installed callbacks and how they answer, as functions of the events so far, the current one last.
      `fails` gives the error code's state after a callback, from the state before it; `stamp` is the
      library's rendering of a time, None where gmtime_r fails. */
  datatype Callbacks = Callbacks(
    installed: set<Slot>,
    goesOn: seq<Event> -> bool,
    fails: (seq<Event>, bool) -> bool,
    stamp: int -> Option<seq<byte>>)

  /** The run so far: events delivered, the flag cont, and whether err holds a code. */
  datatype St = St(trace: seq<Event>, cont: bool, err: bool)

  /** The return values of these callbacks are dropped. */
  predicate Mute(slot: Slot) {
    slot in {OnUuid, OnUuidStr, OnTime, OnTimeStr}
  }

  function Fire(cb: Callbacks, st: St, e: Event): St {
    if e.slot !in cb.installed then st
    else
      var trace := st.trace + [e];
      St(trace, if Mute(e.slot) then st.cont else cb.goesOn(trace), cb.fails(trace, st.err))
  }

  /** Only tested after a whole token. */
  predicate Halted(st: St) { !st.cont || st.err }

  // ---- the reading, on trees ----

  function BeginEvent(kind: Kind): Event {
    Event(if kind.Obj? then OnBeginObject else OnBeginArray, NoArg)
  }

  function EndEvent(kind: Kind): Event {
    Event(if kind.Obj? then OnEndObject else OnEndArray, NoArg)
  }

  /** The event a scalar raises: the raw form of a UUID or time is preferred to the text form. */
  function ScalarEvent(cb: Callbacks, x: Scalar): Option<Event> {
    match x
    case Null => Some(Event(OnNull, NoArg))
    case Bool(b) => Some(Event(OnBoolean, Flag(b)))
    case Int(i) => Some(Event(OnFixnum, Num(i)))
    case Str(s) => Some(Event(OnString, Text(s)))
    case Dec(text) => Some(Event(OnDecimal, Text(text)))
    case Uuid(hi, lo) =>
      if OnUuid in cb.installed then Some(Event(OnUuid, Pair(hi, lo)))
      else Some(Event(OnUuidStr, Text(Uuids.PrintUuid(hi, lo))))
    case Time(ns) =>
      if OnTime in cb.installed then Some(Event(OnTime, Num(ns)))
      else
        match cb.stamp(ns)
        case Some(text) => Some(Event(OnTimeStr, Text(text)))
        case None => None
  }

  function IterScalar(cb: Callbacks, x: Scalar, st: St): St {
    match ScalarEvent(cb, x)
    case Some(e) => Fire(cb, st, e)
    case None => if OnTimeStr in cb.installed then st.(err := true) else st
  }

  function IterVal(cb: Callbacks, v: Val, st: St): St
    decreases v
  {
    match v
    case Leaf(x) => IterScalar(cb, x, st)
    case Node(kind, items) =>
      var begun := Fire(cb, st, BeginEvent(kind));
      if !begun.cont then begun
      else
        var inner := IterItems(cb, items, begun);
        if inner.cont then Fire(cb, inner, EndEvent(kind)) else inner
  }

  function IterItems(cb: Callbacks, items: seq<Member>, st: St): St
    decreases items
  {
    if items == [] then st
    else
      var next := IterItem(cb, items[0], st);
      if Halted(next) then next else IterItems(cb, items[1..], next)
  }

  function IterItem(cb: Callbacks, it: Member, st: St): St
    decreases it
  {
    match it.key
    case None => IterVal(cb, it.val, st)
    case Some(k) =>
      var named := Fire(cb, st, Event(OnKey, Text(k)));
      if Halted(named) then named else IterVal(cb, it.val, named)
  }

  // ---- the reading, on bytes ----

  /** What the loop meets: keys and values, in turn. */
  datatype Piece = Named(key: seq<byte>) | Valued(v: Val)

  function Pieces(items: seq<Member>): seq<Piece> {
    if items == [] then []
    else
      (match items[0].key case None => [] case Some(k) => [Named(k)]) + [Valued(items[0].val)] + Pieces(items[1..])
  }

  function EncodePiece(piece: Piece): seq<byte> {
    match piece
    case Named(k) => EncodeKey(k)
    case Valued(v) => Encode(v)
  }

  function EncodePieces(pieces: seq<Piece>): seq<byte> {
    if pieces == [] then [] else EncodePiece(pieces[0]) + EncodePieces(pieces[1..])
  }

  predicate WfPiece(piece: Piece) {
    match piece
    case Named(k) => |k| <= MAX_KEY
    case Valued(v) => Wf(v)
  }

  predicate WfPieces(pieces: seq<Piece>) {
    forall piece | piece in pieces :: WfPiece(piece)
  }

  function RunPiece(cb: Callbacks, piece: Piece, st: St): St {
    match piece
    case Named(k) => Fire(cb, st, Event(OnKey, Text(k)))
    case Valued(v) => IterVal(cb, v, st)
  }

  function RunPieces(cb: Callbacks, pieces: seq<Piece>, st: St): St {
    if pieces == [] then st
    else
      var next := RunPiece(cb, pieces[0], st);
      if Halted(next) then next else RunPieces(cb, pieces[1..], next)
  }

  function ItemPieces(it: Member): seq<Piece> {
    match it.key
    case None => [Valued(it.val)]
    case Some(k) => [Named(k), Valued(it.val)]
  }

  lemma PiecesCons(items: seq<Member>)
    requires items != []
    ensures Pieces(items) == ItemPieces(items[0]) + Pieces(items[1..])
  {
  }

  lemma EncodePiecesCons(a: seq<Piece>)
    requires a != []
    ensures EncodePieces(a) == EncodePiece(a[0]) + EncodePieces(a[1..])
  {
  }

  lemma {:induction false} EncodePiecesAppend(a: seq<Piece>, b: seq<Piece>)
    ensures EncodePieces(a + b) == EncodePieces(a) + EncodePieces(b)
  {
    hide EncodePiece;
    if a == [] {
      assert a + b == b;
    } else {
      assert a + b == [a[0]] + (a[1..] + b) && a == [a[0]] + a[1..];
      EncodePiecesAppend(a[1..], b);
      EncodePiecesCons(a + b);
      EncodePiecesCons(a);
      Associate(EncodePiece(a[0]), EncodePieces(a[1..]), EncodePieces(b));
      hide *;
    }
  }

  lemma Associate(x: seq<byte>, y: seq<byte>, z: seq<byte>)
    ensures x + (y + z) == x + y + z
  {
  }

  lemma ItemPiecesEncode(it: Member)
    ensures EncodePieces(ItemPieces(it)) == EncodeItem(it)
  {
    hide Encode, EncodeKey;
    assert EncodePieces([Valued(it.val)]) == Encode(it.val);
    if it.key.Some? {
      assert ItemPieces(it)[1..] == [Valued(it.val)];
    }
  }

  lemma {:induction false} PiecesEncode(items: seq<Member>)
    ensures EncodePieces(Pieces(items)) == EncodeItems(items)
  {
    if items != [] {
      PiecesCons(items);
      EncodePiecesAppend(ItemPieces(items[0]), Pieces(items[1..]));
      ItemPiecesEncode(items[0]);
      PiecesEncode(items[1..]);
    }
  }

  lemma {:induction false} PiecesWf(kind: Kind, items: seq<Member>)
    requires WfItems(kind, items)
    ensures WfPieces(Pieces(items))
  {
    if items != [] {
      assert WfItem(kind, items[0]);
      PiecesCons(items);
      PiecesWf(kind, items[1..]);
    }
  }

  lemma {:induction false} RunPiecesAppend(cb: Callbacks, a: seq<Piece>, b: seq<Piece>, st: St)
    requires !Halted(st)
    ensures RunPieces(cb, a + b, st)
            == var mid := RunPieces(cb, a, st); if Halted(mid) then mid else RunPieces(cb, b, mid)
  {
    if a == [] {
      assert a + b == b;
    } else {
      assert (a + b)[1..] == a[1..] + b;
      var next := RunPiece(cb, a[0], st);
      if !Halted(next) {
        RunPiecesAppend(cb, a[1..], b, next);
      }
    }
  }

  lemma ItemPiecesRun(cb: Callbacks, it: Member, st: St)
    ensures RunPieces(cb, ItemPieces(it), st) == IterItem(cb, it, st)
  {
    if it.key.Some? {
      assert ItemPieces(it)[1..] == [Valued(it.val)];
      OneRuns(cb, it.val, Fire(cb, st, Event(OnKey, Text(it.key.value))));
    } else {
      OneRuns(cb, it.val, st);
    }
  }

  lemma OneRuns(cb: Callbacks, v: Val, st: St)
    ensures RunPieces(cb, [Valued(v)], st) == IterVal(cb, v, st)
  {
    assert RunPiece(cb, Valued(v), st) == IterVal(cb, v, st);
  }

  /** The loop over keys and values is the recursion over members. */
  lemma {:induction false} PiecesRun(cb: Callbacks, items: seq<Member>, st: St)
    requires st.cont
    ensures RunPieces(cb, Pieces(items), st) == IterItems(cb, items, st)
  {
    if items != [] {
      var a, b := ItemPieces(items[0]), Pieces(items[1..]);
      PiecesCons(items);
      ItemPiecesRun(cb, items[0], st);
      RunFirst(cb, a, b, st);
      var next := IterItem(cb, items[0], st);
      if !Halted(next) {
        PiecesRun(cb, items[1..], next);
      }
    }
  }

  /** The first token is always met, even with an error already set. */
  lemma RunFirst(cb: Callbacks, a: seq<Piece>, b: seq<Piece>, st: St)
    requires a != []
    ensures RunPieces(cb, a + b, st)
            == var mid := RunPieces(cb, a, st); if Halted(mid) then mid else RunPieces(cb, b, mid)
  {
    assert (a + b)[1..] == a[1..] + b;
    var next := RunPiece(cb, a[0], st);
    if !Halted(next) {
      RunPiecesAppend(cb, a[1..], b, next);
    }
  }

  // what the bytes show at the head of the remaining pieces

  lemma PieceHere(s: seq<byte>, p: nat, pieces: seq<Piece>)
    requires pieces != [] && WfPieces(pieces) && At(s, p, EncodePieces(pieces))
    ensures WfPiece(pieces[0]) && WfPieces(pieces[1..])
    ensures At(s, p, EncodePiece(pieces[0])) && HeaderFits(s, p) && BSize(s, p) == |EncodePiece(pieces[0])|
    ensures At(s, p + BSize(s, p), EncodePieces(pieces[1..]))
    ensures |EncodePieces(pieces)| == BSize(s, p) + |EncodePieces(pieces[1..])|
    ensures 0 < BSize(s, p) <= |s| - p
    ensures pieces[0].Named? <==> IsKeyTag(s[p])
  {
    hide EncodeKey, Encode, BSize, Wf;
    assert WfPiece(pieces[0]);
    var e := EncodePiece(pieces[0]);
    AtSplit(s, p, e, EncodePieces(pieces[1..]));
    match pieces[0]
    case Named(k) =>
      KeyIsSeen(s, p, k);
      KeyHere(s, p, k);
    case Valued(v) =>
      ValueSeen(s, p, v);
      TagTells(s, p, v);
  }

  lemma KeyHere(s: seq<byte>, p: nat, k: seq<byte>)
    requires |k| <= MAX_KEY && At(s, p, EncodeKey(k))
    ensures HeaderFits(s, p) && p + BSize(s, p) <= |s| && ReadKey(s, p) == Some(k) && 0 < BSize(s, p)
  {
    ReadKeyInverts(s, p, k);
  }

  lemma ScalarHere(s: seq<byte>, p: nat, x: Scalar)
    requires Wf(Leaf(x)) && At(s, p, Encode(Leaf(x)))
    ensures HeaderFits(s, p) && p + BSize(s, p) <= |s| && ReadScalar(s, p) == Some(x)
  {
    ReadScalarInverts(s, p, x);
  }

  lemma ContainerHere(s: seq<byte>, p: nat, v: Val)
    requires v.Node? && Wf(v) && At(s, p, Encode(v))
    ensures p + 5 <= |s| && s[p] == KindTag(v.kind)
    ensures WfPieces(Pieces(v.items)) && At(s, p + 5, EncodePieces(Pieces(v.items)))
    ensures FromBE(s[p + 1..p + 5]) == |EncodePieces(Pieces(v.items))|
  {
    Header(s, p, v);
    ContentAt(s, p, v);
    PiecesWf(v.kind, v.items);
    PiecesEncode(v.items);
  }

  lemma NodeRun(cb: Callbacks, v: Val, st: St)
    requires v.Node? && st.cont
    ensures var begun := Fire(cb, st, BeginEvent(v.kind));
            RunPiece(cb, Valued(v), st)
            == if !begun.cont then begun
               else
                 var inner := RunPieces(cb, Pieces(v.items), begun);
                 if inner.cont then Fire(cb, inner, EndEvent(v.kind)) else inner
  {
    var begun := Fire(cb, st, BeginEvent(v.kind));
    if begun.cont {
      PiecesRun(cb, v.items, begun);
    }
  }

  /** The cursor against the end given by the caller: exact inside a container, one past the first byte on top. */
  predicate EndFits(at: nat, end: nat, rest: seq<Piece>) {
    || end == at + |EncodePieces(rest)|
    || (|rest| == 1 && end == at + 1)
    || (rest == [] && end <= at)
  }

  lemma Remain(at: nat, end: nat, rest: seq<Piece>)
    requires EndFits(at, end, rest)
    ensures at < end ==> rest != []
    ensures at >= end ==> rest == []
  {
    if rest != [] && at >= end {
      match rest[0]
      case Named(k) => 
      case Valued(v) =>
    }
  }

  lemma EndMoves(at: nat, end: nat, rest: seq<Piece>, size: nat)
    requires EndFits(at, end, rest) && rest != []
    requires |EncodePieces(rest)| == size + |EncodePieces(rest[1..])| && size > 0
    ensures EndFits(at + size, end, rest[1..])
  {
  }

  lemma PieceMeans(cb: Callbacks, piece: Piece, st: St)
    ensures piece.Named? ==> WfPiece(piece) == (|piece.key| <= MAX_KEY)
    ensures piece.Named? ==> EncodePiece(piece) == EncodeKey(piece.key)
    ensures piece.Named? ==> RunPiece(cb, piece, st) == Fire(cb, st, Event(OnKey, Text(piece.key)))
    ensures piece.Valued? ==> WfPiece(piece) == Wf(piece.v) && EncodePiece(piece) == Encode(piece.v)
    ensures piece.Valued? && piece.v.Leaf? ==> RunPiece(cb, piece, st) == IterScalar(cb, piece.v.leaf, st)
  {
  }

  lemma Inside(at: nat, pieces: seq<Piece>)
    ensures EndFits(at, at + |EncodePieces(pieces)|, pieces)
  {
  }

  /** The scalar cases of val_iterate, one tag at a time. */
  method VisitScalar(s: seq<byte>, val: nat, cb: Callbacks, st: St, ghost x: Scalar) returns (r: St)
    requires HeaderFits(s, val) && val + BSize(s, val) <= |s| && ReadScalar(s, val) == Some(x)
    ensures r == IterScalar(cb, x, st)
  {
    hide FromBE, Uuids.PrintUuid;
    var tag, num, lo := s[val], 0, 0;
    var end := val + BSize(s, val);
    r := st;
    if tag == VAL_NULL {
      r := Call(cb, st, OnNull, NoArg);
    } else if tag == VAL_TRUE {
      r := Call(cb, st, OnBoolean, Flag(true));
    } else if tag == VAL_FALSE {
      r := Call(cb, st, OnBoolean, Flag(false));
    } else if tag == VAL_INT1 {
      num := ReadUint(s, val + 1, 1);
      r := Call(cb, st, OnFixnum, Num(ToSigned(num, 1)));
    } else if tag == VAL_INT2 {
      num := ReadUint(s, val + 1, 2);
      r := Call(cb, st, OnFixnum, Num(ToSigned(num, 2)));
    } else if tag == VAL_INT4 {
      num := ReadUint(s, val + 1, 4);
      r := Call(cb, st, OnFixnum, Num(ToSigned(num, 4)));
    } else if tag == VAL_INT8 {
      num := ReadUint(s, val + 1, 8);
      r := Call(cb, st, OnFixnum, Num(ToSigned(num, 8)));
    } else if tag == VAL_STR1 {
      r := Call(cb, st, OnString, Text(s[val + 2..end - 1]));
    } else if tag == VAL_STR2 {
      r := Call(cb, st, OnString, Text(s[val + 3..end - 1]));
    } else if tag == VAL_STR4 {
      r := Call(cb, st, OnString, Text(s[val + 5..end - 1]));
    } else if tag == VAL_DEC {
      r := Call(cb, st, OnDecimal, Text(s[val + 2..end]));
    } else if tag == VAL_UUID {
      num := ReadUint(s, val + 1, 8);
      lo := ReadUint(s, val + 9, 8);
      if OnUuid in cb.installed {
        r := Call(cb, st, OnUuid, Pair(num, lo));
      } else if OnUuidStr in cb.installed {
        r := Call(cb, st, OnUuidStr, Text(Uuids.PrintUuid(num, lo)));
      }
    } else if tag == VAL_TIME {
      num := ReadUint(s, val + 1, 8);
      if OnTime in cb.installed {
        r := Call(cb, st, OnTime, Num(ToSigned(num, 8)));
      } else if OnTimeStr in cb.installed {
        var text := cb.stamp(ToSigned(num, 8));
        if text.None? {
          r := st.(err := true);
        } else {
          r := Call(cb, st, OnTimeStr, Text(text.value));
        }
      }
    }
  }

  /** Call a callback that is installed; the answers of four of them are dropped. */
  method Call(cb: Callbacks, st: St, slot: Slot, arg: Arg) returns (r: St)
    ensures r == Fire(cb, st, Event(slot, arg))
  {
    r := st;
    if slot in cb.installed {
      var trace := st.trace + [Event(slot, arg)];
      var goesOn := cb.goesOn(trace);
      if slot == OnUuid || slot == OnUuidStr || slot == OnTime || slot == OnTimeStr {
        goesOn := st.cont;
      }
      r := St(trace, goesOn, cb.fails(trace, st.err));
    }
  }

  /** val_iterate over the pieces at p. */
  method ValIterate(s: seq<byte>, p: nat, end: nat, cb: Callbacks, st: St, ghost pieces: seq<Piece>)
    returns (r: St)
    requires WfPieces(pieces) && At(s, p, EncodePieces(pieces)) && EndFits(p, end, pieces) && st.cont
    ensures r == RunPieces(cb, pieces, st)
    decreases |s| - p
  {
    hide BSize, EncodePiece, EncodePieces, Wf, IterVal, IterScalar, Fire, ReadScalar, ReadKey, WfPieces, EndFits, At,
      Pieces, RunPiece;
    var val := p;
    r := st;
    ghost var rest := pieces;
    while val < end
      invariant p <= val && WfPieces(rest) && At(s, val, EncodePieces(rest)) && EndFits(val, end, rest)
      invariant r.cont && RunPieces(cb, pieces, st) == RunPieces(cb, rest, r)
      decreases |rest|
    {
      Remain(val, end, rest);
      PieceHere(s, val, rest);
      EndMoves(val, end, rest, BSize(s, val));
      PieceMeans(cb, rest[0], r);
      ghost var before := r;
      if IsKeyTag(s[val]) {
        KeyHere(s, val, rest[0].key);
        r := Call(cb, r, OnKey, Text(ReadKey(s, val).value));
      } else if IsContainerTag(s[val]) {
        TagTells(s, val, rest[0].v);
        ContainerHere(s, val, rest[0].v);
        NodeRun(cb, rest[0].v, r);
        r := Call(cb, r, if s[val] == VAL_OBJ then OnBeginObject else OnBeginArray, NoArg);
        if r.cont {
          var size := ReadUint(s, val + 1, 4);
          Inside(val + 5, Pieces(rest[0].v.items));
          r := ValIterate(s, val + 5, val + 5 + size, cb, r, Pieces(rest[0].v.items));
        }
        if r.cont {
          r := Call(cb, r, if s[val] == VAL_OBJ then OnEndObject else OnEndArray, NoArg);
        }
      } else {
        TagTells(s, val, rest[0].v);
        ScalarHere(s, val, rest[0].v.leaf);
        r := VisitScalar(s, val, cb, r, rest[0].v.leaf);
      }
      assert r == RunPiece(cb, rest[0], before);
      if Halted(r) {
        return;
      }
      val := val + BSize(s, val);
      rest := rest[1..];
    }
    Remain(val, end, rest);
  }

  /** opo_val_iterate. */
  method OpoValIterate(s: seq<byte>, p: nat, cb: Callbacks, ghost v: Val) returns (r: St)
    requires Wf(v) && At(s, p, Encode(v))
    ensures r == IterVal(cb, v, St([], true, false))
  {
    ghost var pieces := [Valued(v)];
    assert EncodePieces(pieces) == Encode(v);
    r := ValIterate(s, p, p + 1, cb, St([], true, false), pieces);
  }
}
