/** Writing scalars and keys through a moving pointer (src/opo/builder.c:45-78, src/opo/opo.c:235-268). */
module Fill {
  import opened Bytes
  import opened Wire
  import U = Uuids

  method FillStr(w: array<byte>, at: nat, str: seq<byte>) returns (end: nat)
    requires at + |EncodeStr(str)| <= w.Length
    modifies w
    ensures end == at + |EncodeStr(str)|
    ensures Wrote(old(w[..]), w[..], at, EncodeStr(str))
  {
    ghost var was := w[..];
    ghost var head;
    if |str| <= 0xff {
      head := [VAL_STR1] + BE(|str|, 1);
      end := PutByte(w, at, VAL_STR1);
      ghost var mid := w[..];
      end := PutByte(w, end, |str| as byte);
      WroteThen(was, mid, w[..], at, [VAL_STR1], BE(|str|, 1));
    } else if |str| <= 0xffff {
      head := [VAL_STR2] + BE(|str|, 2);
      end := PutByte(w, at, VAL_STR2);
      ghost var mid := w[..];
      end := FillUint16(w, end, |str|);
      WroteThen(was, mid, w[..], at, [VAL_STR2], BE(|str|, 2));
    } else {
      head := [VAL_STR4] + BE(|str|, 4);
      end := PutByte(w, at, VAL_STR4);
      ghost var mid := w[..];
      end := FillUint32(w, end, |str|);
      WroteThen(was, mid, w[..], at, [VAL_STR4], BE(|str|, 4));
    }
    end := FillText(w, was, at, head, end, str);
    assert EncodeStr(str) == head + str + [0];
  }

  method FillKey(w: array<byte>, at: nat, str: seq<byte>) returns (end: nat)
    requires at + |EncodeKey(str)| <= w.Length
    modifies w
    ensures end == at + |EncodeKey(str)|
    ensures Wrote(old(w[..]), w[..], at, EncodeKey(str))
  {
    ghost var was := w[..];
    ghost var head;
    if |str| <= 0xff {
      head := [VAL_KEY1] + BE(|str|, 1);
      end := PutByte(w, at, VAL_KEY1);
      ghost var mid := w[..];
      end := PutByte(w, end, |str| as byte);
      WroteThen(was, mid, w[..], at, [VAL_KEY1], BE(|str|, 1));
    } else {
      head := [VAL_KEY2] + BE(|str|, 2);
      end := PutByte(w, at, VAL_KEY2);
      ghost var mid := w[..];
      end := FillUint16(w, end, |str|);
      WroteThen(was, mid, w[..], at, [VAL_KEY2], BE(|str|, 2));
    }
    end := FillText(w, was, at, head, end, str);
    assert EncodeKey(str) == head + str + [0];
  }

  /** The text and its terminator, after a head that is already written. */
  method FillText(w: array<byte>, ghost was: seq<byte>, ghost at: nat, ghost head: seq<byte>, p: nat, str: seq<byte>)
    returns (end: nat)
    requires p + |str| + 1 <= w.Length && p == at + |head|
    requires Wrote(was, w[..], at, head)
    modifies w
    ensures end == p + |str| + 1
    ensures Wrote(was, w[..], at, head + str + [0])
  {
    ghost var m1 := w[..];
    end := Copy(w, p, str);
    ghost var m2 := w[..];
    WroteThen(was, m1, m2, at, head, str);
    end := PutByte(w, end, 0);
    WroteThen(was, m2, w[..], at, head + str, [0]);
  }

  method FillInt(w: array<byte>, at: nat, i: int) returns (end: nat)
    requires FitsSigned(i, 8) && at + 1 + IntWidth(i) <= w.Length
    modifies w
    ensures end == at + 1 + IntWidth(i)
    ensures Wrote(old(w[..]), w[..], at, EncodeScalar(Int(i)))
  {
    Pow256Values();
    ghost var was := w[..];
    ghost var mid;
    if -128 <= i <= 127 {
      end := PutByte(w, at, VAL_INT1);
      mid := w[..];
      end := PutByte(w, end, ToUnsigned(i, 1) as byte);
      assert BE(ToUnsigned(i, 1), 1) == [ToUnsigned(i, 1) as byte];
    } else if -32768 <= i <= 32767 {
      end := PutByte(w, at, VAL_INT2);
      mid := w[..];
      end := FillUint16(w, end, ToUnsigned(i, 2));
    } else if -2147483648 <= i <= 2147483647 {
      end := PutByte(w, at, VAL_INT4);
      mid := w[..];
      end := FillUint32(w, end, ToUnsigned(i, 4));
    } else {
      end := PutByte(w, at, VAL_INT8);
      mid := w[..];
      end := FillUint64(w, end, ToUnsigned(i, 8));
    }
    WroteThen(was, mid, w[..], at, [IntTag(IntWidth(i))], BE(ToUnsigned(i, IntWidth(i)), IntWidth(i)));
  }

  method FillTime(w: array<byte>, at: nat, t: int) returns (end: nat)
    requires at + 9 <= w.Length
    modifies w
    ensures end == at + 9
    ensures Wrote(old(w[..]), w[..], at, EncodeScalar(Time(t)))
  {
    ghost var was := w[..];
    end := PutByte(w, at, VAL_TIME);
    ghost var mid := w[..];
    end := FillUint64(w, end, ToUnsigned(t, 8));
    WroteThen(was, mid, w[..], at, [VAL_TIME], BE(ToUnsigned(t, 8), 8));
  }

  method FillDec(w: array<byte>, at: nat, text: seq<byte>) returns (end: nat)
    requires |text| < 256 && at + 2 + |text| <= w.Length
    modifies w
    ensures end == at + 2 + |text|
    ensures Wrote(old(w[..]), w[..], at, EncodeScalar(Dec(text)))
  {
    ghost var was := w[..];
    end := PutByte(w, at, VAL_DEC);
    ghost var m1 := w[..];
    end := PutByte(w, end, |text| as byte);
    ghost var m2 := w[..];
    assert BE(|text|, 1) == [|text| as byte];
    WroteThen(was, m1, m2, at, [VAL_DEC], BE(|text|, 1));
    end := Copy(w, end, text);
    WroteThen(was, m2, w[..], at, [VAL_DEC] + BE(|text|, 1), text);
  }

  /** The bytes filled from a text with 32 or 33 hex digits are those of its pair. */
  lemma UuidBytes(s: seq<byte>)
    requires 32 <= |U.Nibbles(s)| <= 33
    ensures EncodeScalar(Uuid(U.PairOf(s).0, U.PairOf(s).1)) == [VAL_UUID] + U.Pack(U.Nibbles(s))
    ensures U.IsUuid(s) ==> U.ParseUuid(s) == U.PairOf(s)
  {
    hide BE, FromBE;
    var bytes := U.Pack(U.Nibbles(s));
    assert |bytes| == 16;
    BEInvertsFromBE(bytes[..8]);
    BEInvertsFromBE(bytes[8..]);
    assert bytes == bytes[..8] + bytes[8..];
  }
}
