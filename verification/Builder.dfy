/** The incremental encoder opoBuilder (src/opo/builder.c), refining the zipper of Zippers. */
module Builders {
  import opened Bytes
  import opened Trees
  import opened Wire
  import opened Fill
  import opened Zippers
  import U = Uuids

  const MSG_INC := 4096
  const MIN_MSG_BUF := 1024

  // ---- storage ----

  /** The capacity after builder_assure (src/opo/builder.c:107-125). */
  function Grown(cap: nat, cur: nat, size: nat): nat {
    if cap <= cur + size then cap + MSG_INC + size else cap
  }

  function KeyNeed(key: Option<seq<byte>>): nat {
    if key.None? then 0 else |key.value| + 4
  }

  function CapAfterKey(cap: nat, cur: nat, key: Option<seq<byte>>): nat {
    if key.None? then cap else Grown(cap, cur, KeyNeed(key))
  }

  /** What builder_assure is asked for by the push of a scalar. */
  function Reserve(x: Scalar): nat {
    if x.Str? then |x.s| + 6 else |EncodeScalar(x)|
  }

  /** The bytes a call adds to the message. */
  function Extent(z: Zipper, op: Op): nat {
    if Apply(z, op).1 != OK then 0
    else
      match op
      case PushScalar(key, x) => |EncodeLabel(key)| + |EncodeScalar(x)|
      case PushEncoded(key, v) => |EncodeLabel(key)| + |Encode(v)|
      case PushContainer(key, _) => |EncodeLabel(key)| + 5
      case PopOp => 0
  }

  /** The capacity after a call at offset cur; `assured` gives push_array the builder_assure it lacks. */
  function CapAfter(z: Zipper, cur: nat, cap: nat, op: Op, assured: bool): nat {
    if Apply(z, op).1 != OK then cap
    else
      match op
      case PushScalar(key, x) => Grown(CapAfterKey(cap, cur, key), cur + |EncodeLabel(key)|, Reserve(x))
      case PushEncoded(key, v) => Grown(CapAfterKey(cap, cur, key), cur + |EncodeLabel(key)|, |Encode(v)|)
      case PushContainer(key, kind) =>
        var c := CapAfterKey(cap, cur, key);
        if kind.Obj? || assured then Grown(c, cur + |EncodeLabel(key)|, 5) else c
      case PopOp => cap
  }

  /** A buffer of 1024 bytes with 9 asked for at 1015 grows by 4096 and those 9, one with 9 to spare does not. */
  lemma GrowsBy()
    ensures Grown(1024, 1015, 9) == 5129 && Grown(1024, 1014, 9) == 1024
    ensures MIN_MSG_BUF == 1024
  {
  }

  lemma KeyFitsNeed(key: Option<seq<byte>>)
    ensures |EncodeLabel(key)| <= KeyNeed(key)
  {
  }

  lemma WrotePrefix(was: seq<byte>, now: seq<byte>, at: nat, e: seq<byte>)
    requires Wrote(was, now, at, e)
    ensures now[..at + |e|] == was[..at] + e
  {
  }

  lemma WrotePatch(was: seq<byte>, now: seq<byte>, cur: nat, s: nat)
    requires s + 5 <= cur <= |was| && Wrote(was, now, s + 1, BE(cur - s - 5, 4))
    ensures |now| == |was| && now[..cur] == Patched(was[..cur], s)
  {
    hide BE;
    var e := BE(cur - s - 5, 4);
    assert was[..cur][..s + 1] == was[..s + 1] && was[..cur][s + 5..] == was[s + 5..cur];
    assert now == was[..s + 1] + e + was[s + 5..];
    assert was[s + 5..] == was[s + 5..cur] + was[cur..];
  }

  lemma LeafBytes(x: Scalar)
    ensures Encode(Leaf(x)) == EncodeScalar(x)
    ensures x.Null? ==> EncodeScalar(x) == [VAL_NULL] && Reserve(x) == 1
    ensures x.Bool? ==> EncodeScalar(x) == [if x.b then VAL_TRUE else VAL_FALSE] && Reserve(x) == 1
    ensures x.Int? ==> |EncodeScalar(x)| == 1 + IntWidth(x.i) == Reserve(x)
    ensures x.Dec? ==> |EncodeScalar(x)| == |x.text| + 2 == Reserve(x)
    ensures x.Str? ==> EncodeScalar(x) == EncodeStr(x.s) && Reserve(x) == |x.s| + 6
    ensures x.Time? ==> |EncodeScalar(x)| == 9 == Reserve(x)
    ensures x.Uuid? ==> |EncodeScalar(x)| == 17 == Reserve(x)
  {
  }

  lemma OpenedOk(z: Zipper, key: Option<seq<byte>>, kind: Kind)
    requires Ok(z) && CheckKey(z, key) == OK
    ensures Ok(Zipper(None, z.open + [Hole(key, kind, [])]))
  {
  }

  lemma AddOk(z: Zipper, key: Option<seq<byte>>, v: Val)
    requires Ok(z) && CheckKey(z, key) == OK
    ensures Ok(Add(z, key, v)) && |Add(z, key, v).open| == |z.open|
  {
  }

  lemma AtBytes(s: seq<byte>, p: nat, e: seq<byte>)
    requires At(s, p, e)
    ensures p + |e| <= |s| && s[p..p + |e|] == e
  {
  }

  lemma ReserveFits(x: Scalar)
    ensures |EncodeScalar(x)| <= Reserve(x)
  {
  }

  /** What a call for a value comes to, once its key is checked. */
  lemma PushMeans(z: Zipper, op: Op, key: Option<seq<byte>>, v: Val, size: nat, cur: nat, cap: nat)
    requires || (op == PushEncoded(key, v) && size == |Encode(v)|)
             || (v.Leaf? && op == PushScalar(key, v.leaf) && size == Reserve(v.leaf))
    ensures Apply(z, op) == if CheckKey(z, key) == OK then (Add(z, key, v), OK) else (z, CheckKey(z, key))
    ensures |Encode(v)| <= size
    ensures CheckKey(z, key) == OK ==>
              && Extent(z, op) == |EncodeLabel(key)| + |Encode(v)|
              && CapAfter(z, cur, cap, op, false) == Grown(CapAfterKey(cap, cur, key), cur + |EncodeLabel(key)|, size)
    ensures CheckKey(z, key) != OK ==> Extent(z, op) == 0 && CapAfter(z, cur, cap, op, false) == cap
  {
    if v.Leaf? {
      ReserveFits(v.leaf);
      assert Encode(v) == EncodeScalar(v.leaf);
    }
    hide Encode, EncodeLabel, Grown, CapAfterKey, Reserve;
  }

  lemma PopApplies(z: Zipper)
    requires z.open != []
    ensures Apply(z, PopOp) == (CloseLast(z), OK) && |CloseLast(z).open| == |z.open| - 1
  {
  }

  /** What a call that opens a container comes to. */
  lemma OpenMeans(z: Zipper, key: Option<seq<byte>>, kind: Kind, cur: nat, cap: nat)
    requires |z.open| <= MAX_DEPTH
    ensures var op := PushContainer(key, kind);
            if CheckKey(z, key) == OK
            then
              && Apply(z, op) == (Zipper(None, z.open + [Hole(key, kind, [])]), OK)
              && Extent(z, op) == |EncodeLabel(key)| + 5
              && CapAfter(z, cur, cap, op, false)
                 == var c := CapAfterKey(cap, cur, key); if kind.Obj? then Grown(c, cur + |EncodeLabel(key)|, 5) else c
            else Apply(z, op) == (z, CheckKey(z, key)) && Extent(z, op) == 0 && CapAfter(z, cur, cap, op, false) == cap
    ensures KindTag(Obj) == VAL_OBJ && KindTag(Arr) == VAL_ARRAY
  {
    hide EncodeLabel, Grown, CapAfterKey;
  }

  class Builder {
    var buf: array<byte>  // head .. end
    var cur: nat
    var own: bool
    const stack: array<nat>
    var top: nat          // the entries of stack in use
    ghost var z: Zipper
    ghost var gaps: seq<seq<byte>>

    ghost predicate Valid()
      reads this, buf, stack
    {
      && HEAD <= cur <= buf.Length
      && Ok(z) && |z.open| <= MAX_DEPTH && Gaps(z, gaps)
      && buf[..cur] == Spread(z, gaps)
      && stack.Length == MAX_DEPTH && (stack as object) != buf
      && top == |z.open| && stack[..top] == Offsets(z.open)
    }

    /** The message survives the call: the buffer is owned, or large enough as it is. */
    ghost predicate Keeps(op: Op)
      reads this, buf
    {
      own || CapAfter(z, cur, buf.Length, op, false) == buf.Length
    }

    /** Where a call leaves cur and the storage, whether or not the message survived. */
    ghost predicate Stored(was: Zipper, at: nat, cap: nat, op: Op)
      reads this, buf
    {
      cur == at + Extent(was, op) <= buf.Length == CapAfter(was, at, cap, op, false)
    }

    /** opo_builder_init without a buffer. */
    constructor (size: nat)
      ensures Valid() && fresh(buf) && fresh(stack)
      ensures own && z == Empty() && buf.Length == if size < MIN_MSG_BUF then MIN_MSG_BUF else size
    {
      var b := new byte[if size < MIN_MSG_BUF then MIN_MSG_BUF else size](i => 0);
      buf := b;
      cur := HEAD;
      own := true;
      stack := new nat[MAX_DEPTH];
      top := 0;
      z := Empty();
      gaps := [];
      new;
      assert buf[..cur] == Zeros(HEAD);
    }

    /** opo_builder_init with the caller's buffer. */
    constructor Given(b: array<byte>)
      requires HEAD <= b.Length
      modifies b
      ensures Valid() && buf == b && fresh(stack) && !own && z == Empty()
      ensures b[HEAD..] == old(b[HEAD..])
    {
      buf := b;
      cur := HEAD;
      own := false;
      stack := new nat[MAX_DEPTH];
      top := 0;
      z := Empty();
      gaps := [];
      new;
      forall i | 0 <= i < HEAD {
        buf[i] := 0;
      }
      assert buf[..cur] == Zeros(HEAD);
    }

    /** builder_assure: realloc keeps the bytes of an owned buffer, malloc starts a lent one afresh. */
    method Assure(size: nat)
      requires cur <= buf.Length
      modifies `buf
      ensures cur + size < buf.Length == Grown(old(buf.Length), cur, size)
      ensures own || buf == old(buf) ==> buf[..cur] == old(buf[..cur])
      ensures if Grown(old(buf.Length), cur, size) == old(buf.Length) then buf == old(buf) else fresh(buf)
    {
      if buf.Length <= cur + size {
        var grown := new byte[buf.Length + MSG_INC + size];
        if own {
          forall i | 0 <= i < buf.Length {
            grown[i] := buf[i];
          }
        }
        buf := grown;
      }
    }

    method CheckAndPushKey(key: Option<seq<byte>>) returns (code: Code)
      requires Valid()
      modifies `buf, `cur, buf
      ensures code == CheckKey(z, key)
      ensures code != OK ==> unchanged(this) && buf[..] == old(buf[..])
      ensures code == OK ==>
                && cur == old(cur) + |EncodeLabel(key)| <= buf.Length == CapAfterKey(old(buf.Length), old(cur), key)
                && (own || buf.Length == old(buf.Length) ==> buf[..cur] == old(buf[..cur]) + EncodeLabel(key))
                && (if buf.Length == old(buf.Length) then buf == old(buf) else fresh(buf))
    {
      SpreadSize(z, gaps);
      if top > 0 {
        TagAtOffset(z, gaps);
        OffsetsUnfold(z.open);
        assert stack[top - 1] == stack[..top][top - 1];
        assert buf[stack[top - 1]] == buf[..cur][stack[top - 1]];
      }
      if top == 0 {
        if HEAD < cur {
          return OVERFLOW;
        }
        if key.Some? {
          return ARG;
        }
      } else if key.Some? {
        if buf[stack[top - 1]] != VAL_OBJ {
          return ARG;
        }
        PutKey(key.value);
        return OK;
      } else if buf[stack[top - 1]] != VAL_ARRAY {
        return ARG;
      }
      return OK;
    }

    /** builder_push_key. */
    method PutKey(k: seq<byte>)
      requires cur <= buf.Length
      modifies `buf, `cur, buf
      ensures cur == old(cur) + |EncodeKey(k)| <= buf.Length == Grown(old(buf.Length), old(cur), |k| + 4)
      ensures own || buf.Length == old(buf.Length) ==> buf[..cur] == old(buf[..cur]) + EncodeKey(k)
      ensures if buf.Length == old(buf.Length) then buf == old(buf) else fresh(buf)
    {
      KeyFitsNeed(Some(k));
      assert EncodeLabel(Some(k)) == EncodeKey(k);
      hide EncodeKey, Wrote;
      ghost var first := buf[..cur];
      Assure(|k| + 4);
      ghost var was := buf[..];
      ghost var at := cur;
      assert own || buf == old(buf) ==> was[..at] == first;
      cur := FillKey(buf, cur, k);
      WrotePrefix(was, buf[..], at, EncodeKey(k));
    }

    /** What every push starts with: check_key, then builder_assure for the value. */
    method KeyAndRoom(key: Option<seq<byte>>, size: nat) returns (code: Code)
      requires Valid()
      modifies `buf, `cur, buf
      ensures code == CheckKey(z, key)
      ensures code != OK ==> unchanged(this) && buf[..] == old(buf[..])
      ensures code == OK ==>
                && cur == old(cur) + |EncodeLabel(key)|
                && cur + size < buf.Length == Grown(CapAfterKey(old(buf.Length), old(cur), key), cur, size)
                && (own || buf.Length == old(buf.Length) ==> buf[..cur] == old(buf[..cur]) + EncodeLabel(key))
                && (if buf.Length == old(buf.Length) then buf == old(buf) else fresh(buf))
    {
      hide Spread, Offsets, Gaps, Ok, EncodeLabel, CheckKey;
      code := CheckAndPushKey(key);
      if code == OK {
        Assure(size);
      }
    }

    /** The value after an accepted key is in the buffer: one more item in the zipper. */
    ghost method Commit(was: seq<byte>, key: Option<seq<byte>>, v: Val)
      requires HEAD <= cur <= buf.Length && Stacked()
      requires was == Spread(z, gaps) && CheckKey(z, key) == OK
      requires buf[..cur] == was + EncodeLabel(key) + Encode(v)
      modifies `z
      ensures Valid() && z == Add(old(z), key, v)
    {
      SpreadAdd(z, gaps, key, v);
      AddOk(z, key, v);
      hide Spread, Offsets, Gaps, Ok, Add, CheckKey, EncodeLabel, Encode;
      z := Add(z, key, v);
    }

    /** The part of Valid that a write to the buffer leaves alone. */
    ghost predicate Stacked()
      reads this, buf, stack
    {
      && Ok(z) && |z.open| <= MAX_DEPTH && Gaps(z, gaps)
      && stack.Length == MAX_DEPTH && (stack as object) != buf
      && top == |z.open| && stack[..top] == Offsets(z.open)
    }

    /** As Commit, from the write itself. */
    ghost method CommitWrite(was: seq<byte>, key: Option<seq<byte>>, v: Val, before: seq<byte>, at: nat)
      requires HEAD <= at && cur == at + |Encode(v)| <= buf.Length && Stacked()
      requires was == Spread(z, gaps) && CheckKey(z, key) == OK
      requires at <= |before| && before[..at] == was + EncodeLabel(key)
      requires Wrote(before, buf[..], at, Encode(v))
      modifies `z
      ensures Valid() && z == Add(old(z), key, v)
    {
      hide Spread, Offsets, Gaps, Ok, Add, CheckKey, EncodeLabel, Encode;
      WrotePrefix(before, buf[..], at, Encode(v));
      Commit(was, key, v);
    }

    method PushNull(key: Option<seq<byte>>) returns (code: Code)
      requires Valid()
      modifies this, buf
      ensures own == old(own) && (if buf.Length == old(buf.Length) then buf == old(buf) else fresh(buf))
      ensures code == Apply(old(z), PushScalar(key, Null)).1
      ensures code != OK ==> unchanged(this) && buf[..] == old(buf[..])
      ensures Stored(old(z), old(cur), old(buf.Length), PushScalar(key, Null))
      ensures old(Keeps(PushScalar(key, Null))) ==> Valid() && z == Apply(old(z), PushScalar(key, Null)).0
    {
      hide Spread, Offsets, Gaps, Ok, Add, CheckKey, EncodeLabel, Encode, EncodeScalar, Apply, Wrote, BSize, At, Wf, Extent, CapAfter, Grown,
        CapAfterKey, Reserve;
      LeafBytes(Null);
      PushMeans(z, PushScalar(key, Null), key, Leaf(Null), Reserve(Null), cur, buf.Length);
      ghost var was, cap := buf[..cur], buf.Length;
      code := KeyAndRoom(key, Reserve(Null));
      if code != OK {
        return;
      }
      ghost var before, at := buf[..], cur;
      cur := PutByte(buf, cur, VAL_NULL);
      if own || buf.Length == cap {
        CommitWrite(was, key, Leaf(Null), before, at);
      }
    }

    method PushBool(value: bool, key: Option<seq<byte>>) returns (code: Code)
      requires Valid()
      modifies this, buf
      ensures own == old(own) && (if buf.Length == old(buf.Length) then buf == old(buf) else fresh(buf))
      ensures code == Apply(old(z), PushScalar(key, Bool(value))).1
      ensures code != OK ==> unchanged(this) && buf[..] == old(buf[..])
      ensures Stored(old(z), old(cur), old(buf.Length), PushScalar(key, Bool(value)))
      ensures old(Keeps(PushScalar(key, Bool(value)))) ==> Valid() && z == Apply(old(z), PushScalar(key, Bool(value))).0
    {
      hide Spread, Offsets, Gaps, Ok, Add, CheckKey, EncodeLabel, Encode, EncodeScalar, Apply, Wrote, BSize, At, Wf, Extent, CapAfter, Grown,
        CapAfterKey, Reserve;
      LeafBytes(Bool(value));
      PushMeans(z, PushScalar(key, Bool(value)), key, Leaf(Bool(value)), Reserve(Bool(value)), cur, buf.Length);
      ghost var was, cap := buf[..cur], buf.Length;
      code := KeyAndRoom(key, Reserve(Bool(value)));
      if code != OK {
        return;
      }
      ghost var before, at := buf[..], cur;
      cur := PutByte(buf, cur, if value then VAL_TRUE else VAL_FALSE);
      if own || buf.Length == cap {
        CommitWrite(was, key, Leaf(Bool(value)), before, at);
      }
    }

    method PushInt(value: int, key: Option<seq<byte>>) returns (code: Code)
      requires Valid() && FitsSigned(value, 8)
      modifies this, buf
      ensures own == old(own) && (if buf.Length == old(buf.Length) then buf == old(buf) else fresh(buf))
      ensures code == Apply(old(z), PushScalar(key, Int(value))).1
      ensures code != OK ==> unchanged(this) && buf[..] == old(buf[..])
      ensures Stored(old(z), old(cur), old(buf.Length), PushScalar(key, Int(value)))
      ensures old(Keeps(PushScalar(key, Int(value)))) ==> Valid() && z == Apply(old(z), PushScalar(key, Int(value))).0
    {
      hide Spread, Offsets, Gaps, Ok, Add, CheckKey, EncodeLabel, Encode, EncodeScalar, Apply, Wrote, BSize, At, Wf, Extent, CapAfter, Grown,
        CapAfterKey, Reserve;
      LeafBytes(Int(value));
      PushMeans(z, PushScalar(key, Int(value)), key, Leaf(Int(value)), 1 + IntWidth(value), cur, buf.Length);
      ghost var was, cap := buf[..cur], buf.Length;
      code := KeyAndRoom(key, 1 + IntWidth(value));
      if code != OK {
        return;
      }
      ghost var before, at := buf[..], cur;
      cur := FillInt(buf, cur, value);
      if own || buf.Length == cap {
        CommitWrite(was, key, Leaf(Int(value)), before, at);
      }
    }

    /** text is what snprintf printed, under 64 characters. */
    method PushDouble(text: seq<byte>, key: Option<seq<byte>>) returns (code: Code)
      requires Valid() && |text| < 64
      modifies this, buf
      ensures own == old(own) && (if buf.Length == old(buf.Length) then buf == old(buf) else fresh(buf))
      ensures code == Apply(old(z), PushScalar(key, Dec(text))).1
      ensures code != OK ==> unchanged(this) && buf[..] == old(buf[..])
      ensures Stored(old(z), old(cur), old(buf.Length), PushScalar(key, Dec(text)))
      ensures old(Keeps(PushScalar(key, Dec(text)))) ==> Valid() && z == Apply(old(z), PushScalar(key, Dec(text))).0
    {
      hide Spread, Offsets, Gaps, Ok, Add, CheckKey, EncodeLabel, Encode, EncodeScalar, Apply, Wrote, BSize, At, Wf, Extent, CapAfter, Grown,
        CapAfterKey, Reserve;
      LeafBytes(Dec(text));
      PushMeans(z, PushScalar(key, Dec(text)), key, Leaf(Dec(text)), |text| + 2, cur, buf.Length);
      ghost var was, cap := buf[..cur], buf.Length;
      code := KeyAndRoom(key, |text| + 2);
      if code != OK {
        return;
      }
      ghost var before, at := buf[..], cur;
      cur := FillDec(buf, cur, text);
      if own || buf.Length == cap {
        CommitWrite(was, key, Leaf(Dec(text)), before, at);
      }
    }

    method PushString(value: seq<byte>, key: Option<seq<byte>>) returns (code: Code)
      requires Valid()
      modifies this, buf
      ensures own == old(own) && (if buf.Length == old(buf.Length) then buf == old(buf) else fresh(buf))
      ensures code == Apply(old(z), PushScalar(key, Str(value))).1
      ensures code != OK ==> unchanged(this) && buf[..] == old(buf[..])
      ensures Stored(old(z), old(cur), old(buf.Length), PushScalar(key, Str(value)))
      ensures old(Keeps(PushScalar(key, Str(value)))) ==> Valid() && z == Apply(old(z), PushScalar(key, Str(value))).0
    {
      hide Spread, Offsets, Gaps, Ok, Add, CheckKey, EncodeLabel, Encode, EncodeScalar, Apply, Wrote, BSize, At, Wf, Extent, CapAfter, Grown,
        CapAfterKey, Reserve;
      LeafBytes(Str(value));
      PushMeans(z, PushScalar(key, Str(value)), key, Leaf(Str(value)), |value| + 6, cur, buf.Length);
      ghost var was, cap := buf[..cur], buf.Length;
      code := KeyAndRoom(key, |value| + 6);
      if code != OK {
        return;
      }
      ghost var before, at := buf[..], cur;
      cur := FillStr(buf, cur, value);
      if own || buf.Length == cap {
        CommitWrite(was, key, Leaf(Str(value)), before, at);
      }
    }

    method PushUuid(hi: nat, lo: nat, key: Option<seq<byte>>) returns (code: Code)
      requires Valid()
      modifies this, buf
      ensures own == old(own) && (if buf.Length == old(buf.Length) then buf == old(buf) else fresh(buf))
      ensures code == Apply(old(z), PushScalar(key, Uuid(hi, lo))).1
      ensures code != OK ==> unchanged(this) && buf[..] == old(buf[..])
      ensures Stored(old(z), old(cur), old(buf.Length), PushScalar(key, Uuid(hi, lo)))
      ensures old(Keeps(PushScalar(key, Uuid(hi, lo)))) ==> Valid() && z == Apply(old(z), PushScalar(key, Uuid(hi, lo))).0
    {
      hide Spread, Offsets, Gaps, Ok, Add, CheckKey, EncodeLabel, Encode, EncodeScalar, Apply, Wrote, BSize, At, Wf, Extent, CapAfter, Grown,
        CapAfterKey, Reserve;
      LeafBytes(Uuid(hi, lo));
      PushMeans(z, PushScalar(key, Uuid(hi, lo)), key, Leaf(Uuid(hi, lo)), 17, cur, buf.Length);
      ghost var was, cap := buf[..cur], buf.Length;
      code := KeyAndRoom(key, 17);
      if code != OK {
        return;
      }
      ghost var before, at := buf[..], cur;
      cur := PutUuid(hi, lo);
      if own || buf.Length == cap {
        CommitWrite(was, key, Leaf(Uuid(hi, lo)), before, at);
      }
    }

    /** The tag and the two halves. */
    method PutUuid(hi: nat, lo: nat) returns (end: nat)
      requires cur + 17 <= buf.Length
      modifies buf
      ensures end == cur + |EncodeScalar(Uuid(hi, lo))|
      ensures Wrote(old(buf[..]), buf[..], cur, EncodeScalar(Uuid(hi, lo)))
    {
      hide BE, Wrote;
      ghost var b := buf[..];
      end := PutByte(buf, cur, VAL_UUID);
      ghost var b1 := buf[..];
      end := FillUint64(buf, end, hi);
      ghost var b2 := buf[..];
      WroteThen(b, b1, b2, cur, [VAL_UUID], BE(hi, 8));
      end := FillUint64(buf, end, lo);
      WroteThen(b, b2, buf[..], cur, [VAL_UUID] + BE(hi, 8), BE(lo, 8));
    }

    method PushTime(value: int, key: Option<seq<byte>>) returns (code: Code)
      requires Valid() && FitsSigned(value, 8)
      modifies this, buf
      ensures own == old(own) && (if buf.Length == old(buf.Length) then buf == old(buf) else fresh(buf))
      ensures code == Apply(old(z), PushScalar(key, Time(value))).1
      ensures code != OK ==> unchanged(this) && buf[..] == old(buf[..])
      ensures Stored(old(z), old(cur), old(buf.Length), PushScalar(key, Time(value)))
      ensures old(Keeps(PushScalar(key, Time(value)))) ==> Valid() && z == Apply(old(z), PushScalar(key, Time(value))).0
    {
      hide Spread, Offsets, Gaps, Ok, Add, CheckKey, EncodeLabel, Encode, EncodeScalar, Apply, Wrote, BSize, At, Wf, Extent, CapAfter, Grown,
        CapAfterKey, Reserve;
      LeafBytes(Time(value));
      PushMeans(z, PushScalar(key, Time(value)), key, Leaf(Time(value)), 9, cur, buf.Length);
      ghost var was, cap := buf[..cur], buf.Length;
      code := KeyAndRoom(key, 9);
      if code != OK {
        return;
      }
      ghost var before, at := buf[..], cur;
      cur := FillTime(buf, cur, value);
      if own || buf.Length == cap {
        CommitWrite(was, key, Leaf(Time(value)), before, at);
      }
    }

    /** opo_builder_push_val: splice in the encoded value found at offset p of bytes. */
    method PushVal(bytes: seq<byte>, p: nat, ghost v: Val, key: Option<seq<byte>>) returns (code: Code)
      requires Valid() && Wf(v) && At(bytes, p, Encode(v))
      modifies this, buf
      ensures own == old(own) && (if buf.Length == old(buf.Length) then buf == old(buf) else fresh(buf))
      ensures code == Apply(old(z), PushEncoded(key, v)).1
      ensures code != OK ==> unchanged(this) && buf[..] == old(buf[..])
      ensures Stored(old(z), old(cur), old(buf.Length), PushEncoded(key, v))
      ensures old(Keeps(PushEncoded(key, v))) ==> Valid() && z == Apply(old(z), PushEncoded(key, v)).0
    {
      hide Spread, Offsets, Gaps, Ok, Add, CheckKey, EncodeLabel, Encode, EncodeScalar, Apply, Wrote, BSize, At, Wf, Extent, CapAfter, Grown,
        CapAfterKey, Reserve;
      SelfDelimiting(bytes, p, v);
      AtBytes(bytes, p, Encode(v));
      var size := BSize(bytes, p);
      PushMeans(z, PushEncoded(key, v), key, v, size, cur, buf.Length);
      ghost var was, cap := buf[..cur], buf.Length;
      code := KeyAndRoom(key, size);
      if code != OK {
        return;
      }
      ghost var before, at := buf[..], cur;
      cur := Copy(buf, cur, bytes[p..p + size]);
      if own || buf.Length == cap {
        CommitWrite(was, key, v, before, at);
      }
    }

    /** fill_uuid takes any 36 characters and skips what is no hex digit: it fills a UUID iff 32 or 33 are digits. */
    method PushUuidString(value: seq<byte>, key: Option<seq<byte>>) returns (code: Code)
      requires Valid() && |value| == U.UUID_STR_LEN && |U.Nibbles(value)| < U.UUID_STR_LEN
      modifies this, buf
      ensures own == old(own) && (if buf.Length == old(buf.Length) then buf == old(buf) else fresh(buf))
      ensures code == CheckKey(old(z), key)
      ensures code != OK ==> unchanged(this) && buf[..] == old(buf[..])
      ensures code == OK ==> old(cur) + |EncodeLabel(key)| + 1 + |U.Nibbles(value)| / 2 == cur <= buf.Length
      ensures 32 <= |U.Nibbles(value)| <= 33 ==>
                var op := PushScalar(key, Uuid(U.PairOf(value).0, U.PairOf(value).1));
                && code == Apply(old(z), op).1 && Stored(old(z), old(cur), old(buf.Length), op)
                && (old(Keeps(op)) ==> Valid() && z == Apply(old(z), op).0)
    {
      hide Spread, Offsets, Gaps, Ok, Add, CheckKey, EncodeLabel, Encode, EncodeScalar, Apply, Wrote, BSize, At, Wf,
        Extent, CapAfter, Grown, CapAfterKey, Reserve, FromBE;
      ghost var fits := 32 <= |U.Nibbles(value)| <= 33;
      ghost var x := if fits then Uuid(U.PairOf(value).0, U.PairOf(value).1) else Null;
      LeafBytes(x);
      PushMeans(z, PushScalar(key, x), key, Leaf(x), Reserve(x), cur, buf.Length);
      ghost var was, cap := buf[..cur], buf.Length;
      code := KeyAndRoom(key, 17);
      if code != OK {
        return;
      }
      ghost var before, at := buf[..], cur;
      cur := U.FillUuid(buf, cur, VAL_UUID, value);
      if fits {
        UuidBytes(value);
        if own || buf.Length == cap {
          CommitWrite(was, key, Leaf(x), before, at);
        }
      }
    }

    /** The container's offset, tag and four bytes for its length: one more open container. */
    method OpenHere(kind: Kind, key: Option<seq<byte>>, ghost was: seq<byte>, ghost kept: bool)
      requires HEAD <= cur && cur + 5 <= buf.Length && Stacked() && |z.open| < MAX_DEPTH
      requires kept ==> was == Spread(z, gaps) && CheckKey(z, key) == OK && buf[..cur] == was + EncodeLabel(key)
      modifies `cur, `top, `z, `gaps, buf, stack
      ensures cur == old(cur) + 5
      ensures kept ==> Valid() && z == Zipper(None, old(z).open + [Hole(key, kind, [])])
    {
      hide Spread, Offsets, Gaps, Ok, CheckKey, EncodeLabel;
      PutTag(KindTag(kind), buf[..cur]);
      if kept {
        ghost var gap := buf[cur - 4..cur];
        SpreadOpen(z, gaps, key, kind, gap);
        OffsetsOpen(z, gaps, key, kind);
        OpenedOk(z, key, kind);
        z := Zipper(None, z.open + [Hole(key, kind, [])]);
        gaps := gaps + [gap];
      }
    }

    /** The stack has an entry for the container a call opens; the code's own guard comes one too late. */
    ghost predicate StackRoom(key: Option<seq<byte>>)
      reads this
    {
      CheckKey(z, key) == OK ==> |z.open| < MAX_DEPTH
    }

    method PushObject(key: Option<seq<byte>>) returns (code: Code)
      requires Valid() && StackRoom(key)
      modifies this, buf, stack
      ensures own == old(own) && (if buf.Length == old(buf.Length) then buf == old(buf) else fresh(buf))
      ensures code == Apply(old(z), PushContainer(key, Obj)).1
      ensures code != OK ==> unchanged(this) && buf[..] == old(buf[..]) && stack[..] == old(stack[..])
      ensures Stored(old(z), old(cur), old(buf.Length), PushContainer(key, Obj))
      ensures old(Keeps(PushContainer(key, Obj))) ==> Valid() && z == Apply(old(z), PushContainer(key, Obj)).0
    {
      hide Spread, Offsets, Gaps, Ok, CheckKey, EncodeLabel, Apply, Extent, CapAfter, Grown, CapAfterKey;
      OpenMeans(z, key, Obj, cur, buf.Length);
      ghost var was, cap := buf[..cur], buf.Length;
      if MAX_DEPTH < top {
        code := OVERFLOW;
      } else {
        code := KeyAndRoom(key, 5);
      }
      if code == OK {
        OpenHere(Obj, key, was, own || buf.Length == cap);
      }
    }

    /** The offset on the stack, the tag, then a step over the length. */
    method PutTag(tag: byte, ghost done: seq<byte>)
      requires cur + 5 <= buf.Length && buf[..cur] == done && top < stack.Length && (stack as object) != buf
      modifies `cur, `top, buf, stack
      ensures cur == old(cur) + 5 && top == old(top) + 1
      ensures buf[..cur] == done + [tag] + buf[cur - 4..cur]
      ensures stack[..top] == old(stack[..top]) + [old(cur)]
    {
      stack[top] := cur;
      top := top + 1;
      ghost var b, at := buf[..], cur;
      cur := PutByte(buf, cur, tag);
      WrotePrefix(b, buf[..], at, [tag]);
      cur := cur + 4;
      assert buf[..cur] == buf[..at + 1] + buf[at + 1..cur];
    }

    /** What push_array, which never calls builder_assure itself, needs of the storage. */
    ghost predicate ArrayRoom(key: Option<seq<byte>>)
      reads this, buf
    {
      CheckKey(z, key) == OK ==> cur + |EncodeLabel(key)| + 5 <= CapAfterKey(buf.Length, cur, key)
    }

    method PushArray(key: Option<seq<byte>>) returns (code: Code)
      requires Valid() && StackRoom(key) && ArrayRoom(key)
      modifies this, buf, stack
      ensures own == old(own) && (if buf.Length == old(buf.Length) then buf == old(buf) else fresh(buf))
      ensures code == Apply(old(z), PushContainer(key, Arr)).1
      ensures code != OK ==> unchanged(this) && buf[..] == old(buf[..]) && stack[..] == old(stack[..])
      ensures Stored(old(z), old(cur), old(buf.Length), PushContainer(key, Arr))
      ensures old(Keeps(PushContainer(key, Arr))) ==> Valid() && z == Apply(old(z), PushContainer(key, Arr)).0
    {
      hide Spread, Offsets, Gaps, Ok, CheckKey, EncodeLabel, Apply, Extent, CapAfter, Grown, CapAfterKey;
      OpenMeans(z, key, Arr, cur, buf.Length);
      ghost var was, cap := buf[..cur], buf.Length;
      if MAX_DEPTH < top {
        code := OVERFLOW;
      } else {
        code := CheckAndPushKey(key);
      }
      if code == OK {
        OpenHere(Arr, key, was, own || buf.Length == cap);
      }
    }

    /** Fill in the innermost container's length and drop it from the stack. */
    method CloseTop()
      requires Valid() && z.open != []
      modifies `top, `z, `gaps, buf
      ensures Valid() && z == CloseLast(old(z))
    {
      hide Spread, Offsets, Gaps, Ok, OpenSize, CloseLast, TopOffset, Patched, Wrote, BE, Front;
      SpreadClose(z, gaps);
      SpreadUnfold(z, gaps);
      OffsetsUnfold(z.open);
      PopApplies(z);
      ApplyOk(z, PopOp);
      assert stack[top - 1] == stack[..top][top - 1];
      var start := stack[top - 1];
      ghost var was := buf[..];
      var _ := FillUint32(buf, start + 1, cur - start - 5);
      WrotePatch(was, buf[..], cur, start);
      assert stack[..top - 1] == stack[..top][..top - 1];
      top := top - 1;
      gaps := Front(gaps);
      z := CloseLast(z);
    }

    method Pop() returns (code: Code)
      requires Valid()
      modifies `top, `z, `gaps, buf
      ensures Valid()
      ensures (z, code) == Apply(old(z), PopOp)
      ensures code != OK ==> unchanged(this) && buf[..] == old(buf[..])
    {
      if top == 0 {
        return OVERFLOW;
      }
      CloseTop();
      return OK;
    }

    /** opo_builder_finish: the buffer is the encoding with every open container closed. */
    method FinishAll()
      requires Valid()
      modifies `top, `z, `gaps, buf
      ensures Valid() && z == Finish(old(z)) && z.open == []
      ensures buf[..cur] == Finished(old(z))
    {
      while top > 0
        invariant Valid() && Finish(z) == Finish(old(z))
        decreases top
      {
        CloseTop();
      }
      FinishedSpread(z);
    }

    /**
     * opo_builder_take: the finished message, handed over or copied. The copy is as long as
     * opo_msg_bsize says, so then there has to be a message and it has to be one the format can carry.
     */
    method Take() returns (msg: array<byte>)
      requires Valid() && (own || (Finish(z).root.Some? && Wf(Finish(z).root.value)))
      modifies this, buf
      ensures if old(own) then msg == old(buf) else fresh(msg) && msg.Length == |Finished(old(z))|
      ensures |Finished(old(z))| <= msg.Length && msg[..|Finished(old(z))|] == Finished(old(z))
    {
      ghost var tree := Finish(z).root;
      FinishAll();
      if !own {
        assert buf[..cur] == Zeros(HEAD) + Encode(tree.value);
        assert At(buf[..], HEAD, Encode(tree.value)) by {
          assert buf[..][HEAD..cur] == buf[..cur][HEAD..];
        }
      }
      msg := TakeFinished(if own then Leaf(Null) else tree.value);
    }

    /** The same with nothing left to close, whatever id the message carries by now. */
    method TakeFinished(ghost v: Val) returns (msg: array<byte>)
      requires top == 0 && cur <= buf.Length
      requires !own ==> Wf(v) && At(buf[..], HEAD, Encode(v)) && cur == HEAD + |Encode(v)|
      modifies `buf, `cur
      ensures if own then msg == old(buf) else fresh(msg) && msg.Length == old(cur)
      ensures old(cur) <= msg.Length && msg[..old(cur)] == old(buf[..cur])
    {
      if own {
        msg := buf;
      } else {
        SelfDelimiting(buf[..], HEAD, v);
        var size := BSize(buf[..], HEAD) + HEAD;
        msg := new byte[size];
        forall i | 0 <= i < size {
          msg[i] := buf[i];
        }
        assert msg[..] == buf[..cur];
      }
      buf := new byte[0];
      cur := 0;
    }
  }
}
