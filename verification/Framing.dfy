/** Cutting the received byte stream into messages: recv_loop (src/opo/client.c:279-348). */
module Frames {
  import opened Bytes
  import opened Trees
  import opened Wire

  /** 8 bytes for the id, 1 for the type and 4 for the length of the value. */
  const HEADER: nat := 13

  /** opo_msg_bsize of the message at the head of s. */
  function MsgSize(s: seq<byte>): (n: nat)
    requires HEADER <= |s|
    ensures 8 <= n
  {
    BSize(s, 8) + 8
  }

  predicate Whole(s: seq<byte>) {
    HEADER <= |s| && MsgSize(s) <= |s|
  }

  /** Cut whole messages off the front while 13 bytes and a whole message remain. */
  function Cut(s: seq<byte>): (seq<seq<byte>>, seq<byte>) {
    if !Whole(s) then ([], s)
    else
      var n := MsgSize(s);
      var (msgs, rest) := Cut(s[n..]);
      ([s[..n]] + msgs, rest)
  }

  function Flat(msgs: seq<seq<byte>>): seq<byte> {
    if msgs == [] then [] else msgs[0] + Flat(msgs[1..])
  }

  /** The size of a message is settled by its first 13 bytes. */
  lemma SizeSettled(s: seq<byte>, more: seq<byte>)
    requires HEADER <= |s|
    ensures MsgSize(s + more) == MsgSize(s)
  {
    var k := LenBytes(s[8]);
    assert (s + more)[9..9 + k] == s[9..9 + k];
  }

  lemma CutStep(s: seq<byte>)
    requires Whole(s)
    ensures Cut(s).0 == [s[..MsgSize(s)]] + Cut(s[MsgSize(s)..]).0
    ensures Cut(s).1 == Cut(s[MsgSize(s)..]).1
  {
  }

  /** Cutting keeps every byte, and what is left holds no whole message. */
  lemma {:induction false} CutKeepsBytes(s: seq<byte>)
    ensures Flat(Cut(s).0) + Cut(s).1 == s
    ensures !Whole(Cut(s).1)
    ensures forall m | m in Cut(s).0 :: 8 <= |m|
    decreases |s|
  {
    if Whole(s) {
      hide Whole, Cut;
      var n := MsgSize(s);
      CutStep(s);
      CutKeepsBytes(s[n..]);
      assert s == s[..n] + s[n..];
      assert ([s[..n]] + Cut(s[n..]).0)[1..] == Cut(s[n..]).0;
      assert |s[..n]| == n;
    }
  }

  /** Cutting early loses nothing: more bytes continue from what was left. */
  lemma {:induction false} CutAppend(s: seq<byte>, more: seq<byte>)
    ensures Cut(s + more).0 == Cut(s).0 + Cut(Cut(s).1 + more).0
    ensures Cut(s + more).1 == Cut(Cut(s).1 + more).1
    decreases |s|
  {
    if Whole(s) {
      var n := MsgSize(s);
      SizeSettled(s, more);
      assert (s + more)[..n] == s[..n] && (s + more)[n..] == s[n..] + more;
      CutStep(s);
      CutStep(s + more);
      CutAppend(s[n..], more);
      assert Cut(s + more).0 == [s[..n]] + (Cut(s[n..]).0 + Cut(Cut(s[n..]).1 + more).0);
    }
  }

  /** Cutting bytes that are short of a message, or exactly one. */
  lemma CutShort(s: seq<byte>)
    ensures |s| < HEADER ==> Cut(s) == ([], s)
    ensures HEADER <= |s| < MsgSize(s) ==> Cut(s) == ([], s)
    ensures HEADER <= |s| == MsgSize(s) ==> Cut(s) == ([s], [])
  {
    if HEADER <= |s| == MsgSize(s) {
      CutStep(s);
      assert s[..|s|] == s && s[|s|..] == [];
      assert Cut([]) == ([], []);
      assert Cut(s).0 == [s];
    }
  }

  lemma Regroup(a: seq<seq<byte>>, x: seq<byte>, b: seq<seq<byte>>)
    ensures a + ([x] + b) == a + [x] + b
  {
  }

  lemma WroteTail(was: seq<byte>, now: seq<byte>, at: nat, e: seq<byte>)
    requires Wrote(was, now, at, e)
    ensures |now| == |was| && now[..at + |e|] == was[..at] + e
  {
  }

  // ---- streams of well-formed messages ----

  datatype Packet = Packet(id: nat, v: Val)

  function PacketBytes(m: Packet): (s: seq<byte>)
    ensures 8 < |s|
  {
    BE(m.id, 8) + Encode(m.v)
  }

  function Wires(ms: seq<Packet>): (w: seq<seq<byte>>)
    ensures |w| == |ms|
  {
    if ms == [] then [] else [PacketBytes(ms[0])] + Wires(ms[1..])
  }

  /** The stream starts with a message: its size and id are read off the front. */
  lemma PacketAtHead(m: Packet, more: seq<byte>)
    requires Wf(m.v) && HEADER <= |PacketBytes(m) + more|
    ensures MsgSize(PacketBytes(m) + more) == |PacketBytes(m)|
    ensures m.id < Pow256(8) ==> FromBE((PacketBytes(m) + more)[..8]) == m.id
  {
    hide Encode, BSize;
    var s := PacketBytes(m) + more;
    assert s == BE(m.id, 8) + (Encode(m.v) + more);
    assert s[8..8 + |Encode(m.v)|] == Encode(m.v);
    SelfDelimiting(s, 8, m.v);
    assert s[..8] == BE(m.id, 8);
    if m.id < Pow256(8) {
      FromBEInvertsBE(m.id, 8);
    }
  }

  /** Every message is delivered except a last one under 13 bytes, which stays in the buffer. */
  lemma {:induction false} StreamCut(ms: seq<Packet>)
    requires forall m | m in ms :: Wf(m.v)
    ensures Cut(Flat(Wires(ms)))
            == if ms == [] || 13 <= |PacketBytes(ms[|ms| - 1])| then (Wires(ms), [])
               else (Wires(ms[..|ms| - 1]), PacketBytes(ms[|ms| - 1]))
  {
    if ms != [] {
      hide PacketBytes, MsgSize, Cut;
      var m, rest := ms[0], ms[1..];
      var e, more := PacketBytes(m), Flat(Wires(rest));
      assert Wires(ms)[1..] == Wires(rest);
      assert Flat(Wires(ms)) == e + more;
      if rest == [] {
        assert more == [] && e + more == e;
        LastCut(m);
      } else {
        WiresNonempty(rest);
        PacketAtHead(m, more);
        CutStep(e + more);
        StreamCut(rest);
        assert (e + more)[..|e|] == e && (e + more)[|e|..] == more;
        WiresButLast(ms);
      }
    }
  }

  lemma WiresNonempty(ms: seq<Packet>)
    requires |ms| > 0
    ensures |Flat(Wires(ms))| > 8
  {
    hide PacketBytes;
    assert Wires(ms) == [PacketBytes(ms[0])] + Wires(ms[1..]);
  }

  lemma WiresButLast(ms: seq<Packet>)
    requires |ms| > 1
    ensures var rest := ms[1..];
            rest[|rest| - 1] == ms[|ms| - 1]
            && Wires(ms[..|ms| - 1]) == [PacketBytes(ms[0])] + Wires(rest[..|rest| - 1])
  {
    var rest := ms[1..];
    assert ms[..|ms| - 1] == [ms[0]] + rest[..|rest| - 1];
    assert ([ms[0]] + rest[..|rest| - 1])[1..] == rest[..|rest| - 1];
  }

  lemma LastCut(m: Packet)
    requires Wf(m.v)
    ensures Cut(PacketBytes(m))
            == if 13 <= |PacketBytes(m)| then ([PacketBytes(m)], []) else ([], PacketBytes(m))
    ensures Wires([m]) == [PacketBytes(m)]
  {
    var e := PacketBytes(m);
    hide PacketBytes, MsgSize;
    if HEADER <= |e| {
      assert e + [] == e;
      PacketAtHead(m, []);
      CutStep(e);
      assert e[..|e|] == e && e[|e|..] == [];
      assert Cut([]) == ([], []);
      assert Cut(e).0 == [e];
    }
    assert [m][1..] == [];
  }

  /** All messages of a finished stream are delivered iff the last one has 13 bytes or more. */
  lemma AllDelivered(ms: seq<Packet>)
    requires forall m | m in ms :: Wf(m.v)
    ensures Cut(Flat(Wires(ms))).0 == Wires(ms) <==> ms == [] || 13 <= |PacketBytes(ms[|ms| - 1])|
  {
    StreamCut(ms);
  }

  /** The last message of a stream is held iff its value takes at most four bytes. */
  lemma LastHeld(ms: seq<Packet>)
    requires ms != [] && forall m | m in ms :: Wf(m.v)
    ensures var last := ms[|ms| - 1];
            && (|Encode(last.v)| <= 4 ==> Cut(Flat(Wires(ms))) == (Wires(ms[..|ms| - 1]), PacketBytes(last)))
            && (|Encode(last.v)| >= 5 ==> Cut(Flat(Wires(ms))) == (Wires(ms), []))
  {
    StreamCut(ms);
  }

  /** A message on its own is delivered iff its value takes at least five bytes. */
  lemma LoneMessage(m: Packet)
    requires Wf(m.v)
    ensures Cut(PacketBytes(m)) == (if |Encode(m.v)| >= 5 then ([PacketBytes(m)], []) else ([], PacketBytes(m)))
  {
    LastCut(m);
  }

  /** Which values those are: every container, UUID, time and integer outside 16 bits, every string of two bytes or
      more and every decimal of three or more. */
  lemma ShortValues(v: Val)
    ensures |Encode(v)| >= 5
        <==> match v
             case Node(_, _) => true
             case Leaf(x) =>
               match x
               case Null => false
               case Bool(_) => false
               case Int(i) => i < -0x8000 || 0x8000 <= i
               case Str(s) => |s| >= 2
               case Dec(text) => |text| >= 3
               case Uuid(_, _) => true
               case Time(_) => true
  {
    Pow256Values();
  }

  /** The reply of an empty array, thirteen bytes, is delivered at once. */
  lemma EmptyArrayDelivered(id: nat)
    ensures var e := BE(id, 8) + [91, 0, 0, 0, 0]; Cut(e) == ([e], [])
  {
    var m := Packet(id, Node(Arr, []));
    assert BE(0, 4) == [0, 0, 0, 0];
    assert Encode(m.v) == [91, 0, 0, 0, 0];
    LoneMessage(m);
  }

  /** A lone null message never leaves the buffer. */
  lemma NullMessageHeld(id: nat)
    ensures Cut(PacketBytes(Packet(id, Leaf(Null)))) == ([], PacketBytes(Packet(id, Leaf(Null))))
  {
  }
}

module Framing {
  import opened Bytes
  import opened Trees
  import opened Wire
  import opened Frames

  class Receiver {
    const buf: array<byte>
    var bcnt: nat
    var msg: array?<byte>
    var msize: nat
    var mcnt: nat
    /** Messages handed to process_msg or queue_push, in order. */
    var delivered: seq<seq<byte>>
    ghost var received: seq<byte>

    /** Bytes received and not yet delivered. */
    function Held(): seq<byte>
      reads this, buf, msg
      requires bcnt <= buf.Length && (msg != null ==> mcnt <= msg.Length)
    {
      if msg == null then buf[..bcnt] else msg[..mcnt]
    }

    ghost predicate Shape()
      reads this, msg
    {
      && buf.Length == 4096
      && msg != buf
      && (msg == null ==> bcnt < HEADER)
      && (msg != null ==> bcnt == 0 && HEADER <= mcnt < msize == msg.Length && MsgSize(msg[..mcnt]) == msize)
    }

    /** Between reads: deliveries and held bytes are the cutting of everything received. */
    ghost predicate Valid()
      reads this, buf, msg
    {
      Shape() && (delivered, Held()) == Cut(received)
    }

    constructor ()
      ensures Valid() && received == [] && delivered == [] && fresh(buf) && msg == null
    {
      buf := new byte[4096];
      bcnt, msg, msize, mcnt := 0, null, 0, 0;
      delivered := [];
      received := [];
      new;
      assert Held() == [];
    }

    /** How many bytes the next recv asks for: never none. */
    function Capacity(): (n: nat)
      reads this, msg
      requires Shape()
      ensures n > 0 && (msg == null ==> bcnt + n == 4096) && (msg != null ==> mcnt + n == msg.Length)
    {
      if msg == null then buf.Length - bcnt else msize - mcnt
    }

    /** The message at the head of buf is whole: hand it on and move the rest down. */
    method DeliverHead(size: nat)
      requires buf.Length == 4096 && HEADER <= bcnt <= buf.Length && msg == null
      requires size == MsgSize(buf[..bcnt]) && size <= bcnt
      modifies this`bcnt, this`msg, this`msize, this`mcnt, this`delivered, buf
      ensures msg == null && bcnt == old(bcnt) - size
      ensures bcnt < old(bcnt) && buf[..bcnt] == old(buf[..bcnt])[size..]
      ensures delivered == old(delivered) + [old(buf[..bcnt])[..size]]
    {
      ghost var held := buf[..bcnt];
      var whole := new byte[size];
      var _ := Copy(whole, 0, buf[..size]);
      if size < bcnt {
        forall i | 0 <= i < bcnt - size {
          buf[i] := buf[i + size];
        }
      }
      assert whole[..] == held[..size];
      delivered := delivered + [whole[..]];
      msg := null;
      msize := 0;
      mcnt := 0;
      bcnt := bcnt - size;
      assert buf[..bcnt] == held[size..];
    }

    /** The message at the head of buf is not whole: move what there is into memory of its own. */
    method BeginMessage(size: nat)
      requires buf.Length == 4096 && HEADER <= bcnt <= buf.Length && msg == null
      requires size == MsgSize(buf[..bcnt]) && bcnt < size
      modifies this`bcnt, this`msg, this`msize, this`mcnt
      ensures Shape() && msg != null && fresh(msg) && Held() == old(buf[..bcnt])
    {
      ghost var held := buf[..bcnt];
      msg := new byte[size];
      var _ := Copy(msg, 0, buf[..bcnt]);
      msize := size;
      mcnt := bcnt;
      bcnt := 0;
      assert msg[..mcnt] == held;
    }

    /** recv with no message begun: append to buf and cut. */
    method ReadBuffer(chunk: seq<byte>)
      requires Valid() && msg == null && 0 < |chunk| <= Capacity()
      modifies this, buf
      ensures Valid() && received == old(received) + chunk
      ensures msg == null || fresh(msg)
    {
      hide Cut, MsgSize, BSize, Wrote;
      ghost var was, first, before := received, Held(), delivered;
      var _ := Copy(buf, bcnt, chunk);
      bcnt := bcnt + |chunk|;
      received := received + chunk;
      assert Held() == first + chunk by {
        WroteTail(old(buf[..]), buf[..], old(bcnt), chunk);
      }
      CutAppend(was, chunk);
      while HEADER <= bcnt
        invariant buf.Length == 4096 && bcnt <= buf.Length
        invariant msg != null ==> Shape() && fresh(msg)
        invariant received == was + chunk
        invariant Cut(received).0 == delivered + Cut(Held()).0 && Cut(received).1 == Cut(Held()).1
        decreases bcnt
      {
        ghost var held := Held();
        ghost var done := delivered;
        var size := MsgSize(buf[..bcnt]);
        if size <= bcnt {
          CutStep(held);
          DeliverHead(size);
          assert Held() == held[size..];
          Regroup(done, held[..size], Cut(Held()).0);
        } else {
          BeginMessage(size);
        }
      }
      CutShort(Held());
      assert delivered + [] == delivered;
      assert Cut(received) == (delivered, Held());
    }

    /** recv into a message begun earlier. */
    method ReadMessage(chunk: seq<byte>)
      requires Valid() && msg != null && |chunk| <= Capacity()
      modifies this, msg
      ensures Valid() && received == old(received) + chunk
      ensures msg == null || msg == old(msg)
    {
      hide Cut, MsgSize, BSize;
      ghost var was, held := received, Held();
      var _ := Copy(msg, mcnt, chunk);
      mcnt := mcnt + |chunk|;
      received := received + chunk;
      assert msg[..mcnt] == held + chunk;
      CutAppend(was, chunk);
      SizeSettled(held, chunk);
      CutShort(held + chunk);
      if msize == mcnt {
        assert msg[..] == held + chunk;
        delivered := delivered + [msg[..]];
        msg := null;
        msize := 0;
        mcnt := 0;
        assert Held() == [];
      }
      assert delivered + [] == delivered;
      assert Cut(received) == (delivered, Held());
    }

    /** recv_loop reading `stream` with recv calls that return up to cuts[0], cuts[1], ... bytes. */
    method RecvLoop(stream: seq<byte>, cuts: seq<nat>) returns (taken: nat)
      requires Valid() && received == []
      modifies this, buf, msg
      ensures Valid() && taken <= |stream|
      ensures received == stream[..taken] && (delivered, Held()) == Cut(stream[..taken])
      ensures |stream| <= |cuts| && (forall i :: 0 <= i < |cuts| ==> cuts[i] > 0) ==> taken == |stream|
    {
      taken := 0;
      var i := 0;
      while i < |cuts|
        invariant Valid() && taken <= |stream| && received == stream[..taken] && i <= |cuts|
        invariant msg == null || msg == old(msg) || fresh(msg)
        invariant (forall i :: 0 <= i < |cuts| ==> cuts[i] > 0) ==> taken >= i || taken == |stream|
      {
        var cnt := cuts[i];
        if cnt > |stream| - taken {
          cnt := |stream| - taken;
        }
        if cnt > Capacity() {
          cnt := Capacity();
        }
        var chunk := stream[taken..taken + cnt];
        assert stream[..taken + cnt] == stream[..taken] + chunk;
        if msg != null {
          ReadMessage(chunk);
        } else if cnt > 0 {
          ReadBuffer(chunk);
        }
        taken := taken + cnt;
        i := i + 1;
      }
    }
  }
}
