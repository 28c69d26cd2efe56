/** UUID text and its 16 byte form: lower case hex in groups of 8-4-4-4-12 (RFC 4122, section 3). */
module Uuids {
  import opened Bytes

  const UUID_STR_LEN := 36
  const DASH: byte := 45

  predicate IsLowHex(c: byte) { 97 <= c <= 102 } // 'a'..'f'
  predicate IsHex(c: byte) { IsDigit(c) || IsLowHex(c) }

  type nibble = n: int | 0 <= n < 16

  function HexValue(c: byte): nibble
    requires IsHex(c)
  {
    if IsDigit(c) then c - 48 else c - 97 + 10
  }

  function HexChar(n: nibble): (c: byte)
    ensures IsHex(c) && HexValue(c) == n
  {
    if n < 10 then (48 + n) as byte else (97 + n - 10) as byte
  }

  predicate DashPlace(i: nat) { i == 8 || i == 13 || i == 18 || i == 23 }

  /** The text form of a UUID. */
  predicate IsUuid(s: seq<byte>) {
    |s| == UUID_STR_LEN && forall i :: 0 <= i < UUID_STR_LEN ==> if DashPlace(i) then s[i] == DASH else IsHex(s[i])
  }

  /** uuid_char_map: 'h' for a hex digit, '-' for a dash, '.' for the rest. */
  function CharClass(c: byte): char {
    if IsHex(c) then 'h' else if c == DASH then '-' else '.'
  }

  const UUID_MAP := "hhhhhhhh-hhhh-hhhh-hhhh-hhhhhhhhhhhh"

  lemma MapPlaces(i: nat)
    requires i < UUID_STR_LEN
    ensures UUID_MAP[i] == if DashPlace(i) then '-' else 'h'
  {
  }

  method DetectUuid(str: seq<byte>) returns (found: bool)
    ensures found <==> IsUuid(str)
  {
    if |str| != UUID_STR_LEN {
      return false;
    }
    var i := 0;
    while i < UUID_STR_LEN
      invariant 0 <= i <= UUID_STR_LEN
      invariant forall j :: 0 <= j < i ==> if DashPlace(j) then str[j] == DASH else IsHex(str[j])
    {
      MapPlaces(i);
      if UUID_MAP[i] != CharClass(str[i]) {
        return false;
      }
      i := i + 1;
    }
    return true;
  }

  // ---- text to nibbles to bytes ----

  /** The hex digits of s in order; every other character is skipped. */
  function Nibbles(s: seq<byte>): seq<nibble> {
    if s == [] then []
    else (if IsHex(s[0]) then [HexValue(s[0])] else []) + Nibbles(s[1..])
  }

  lemma NibblesCons(s: seq<byte>)
    requires s != []
    ensures Nibbles(s) == Nibbles([s[0]]) + Nibbles(s[1..])
  {
    assert [s[0]][1..] == [];
    assert Nibbles([s[0]][1..]) == [];
  }

  lemma {:induction false} NibblesAppend(a: seq<byte>, b: seq<byte>)
    ensures Nibbles(a + b) == Nibbles(a) + Nibbles(b)
  {
    if a == [] {
      assert a + b == b;
    } else {
      assert (a + b)[1..] == a[1..] + b && (a + b)[0] == a[0];
      NibblesAppend(a[1..], b);
      NibblesCons(a + b);
      NibblesCons(a);
      hide *;
    }
  }

  function Byte(a: nibble, b: nibble): byte {
    var high: int := a;
    (16 * high + b) as byte
  }

  /** Two nibbles to a byte; an odd last nibble is dropped. */
  function Pack(ns: seq<nibble>): (s: seq<byte>)
    ensures |s| == |ns| / 2
  {
    if |ns| < 2 then [] else [Byte(ns[0], ns[1])] + Pack(ns[2..])
  }

  lemma PackCons(x: nibble, y: nibble, rest: seq<nibble>)
    ensures Pack([x, y] + rest) == [Byte(x, y)] + Pack(rest)
  {
    assert ([x, y] + rest)[2..] == rest;
  }

  lemma {:induction false} PackAppend(a: seq<nibble>, b: seq<nibble>)
    requires |a| % 2 == 0
    ensures Pack(a + b) == Pack(a) + Pack(b)
  {
    if a == [] {
      assert a + b == b;
    } else {
      var x, y, t := a[0], a[1], a[2..];
      assert a == [x, y] + t && a + b == [x, y] + (t + b);
      PackAppend(t, b);
      PackCons(x, y, t);
      PackCons(x, y, t + b);
    }
  }

  /** fill_uuid: write the tag, then a byte for every two hex digits. */
  method FillUuid(w: array<byte>, at: nat, tag: byte, str: seq<byte>) returns (end: nat)
    requires at + 1 + |Nibbles(str)| / 2 <= w.Length
    modifies w
    ensures end == at + 1 + |Nibbles(str)| / 2
    ensures Wrote(old(w[..]), w[..], at, [tag] + Pack(Nibbles(str)))
  {
    hide Nibbles, Pack;
    w[at] := tag;
    end := at + 1;
    var i := 0;
    var digits := 0;
    var b: nibble := 0;
    ghost var done: seq<nibble> := []; // the nibbles already written
    NibblesPrefix(str, 0);
    PackPending([], 0, 0);
    while i < |str|
      invariant 0 <= i <= |str| && 0 <= digits <= 1
      invariant Nibbles(str[..i]) == done + Pending(digits, b)
      invariant |done| % 2 == 0 && end == at + 1 + |done| / 2 <= w.Length
      invariant w[at] == tag && w[at + 1..end] == Pack(done)
      invariant forall j :: 0 <= j < at || end <= j < w.Length ==> w[j] == old(w[j])
    {
      NibblesPrefix(str, i + 1);
      NibblesSnoc(str, i);
      if IsHex(str[i]) {
        var h := HexValue(str[i]);
        if digits == 0 {
          digits := 1;
          b := h;
        } else {
          PackSnoc(done, b, h);
          w[end] := Byte(b, h);
          done := done + [b, h];
          end := end + 1;
          digits := 0;
          b := 0;
        }
      }
      i := i + 1;
    }
    assert str[..i] == str;
    PackPending(done, digits, b);
    Assemble(old(w[..]), w[..], at, tag, Pack(done), end);
  }

  lemma Assemble(was: seq<byte>, now: seq<byte>, at: nat, tag: byte, mid: seq<byte>, end: nat)
    requires |was| == |now| && at + 1 + |mid| == end <= |now|
    requires now[at] == tag && now[at + 1..end] == mid
    requires forall j :: 0 <= j < at || end <= j < |now| ==> now[j] == was[j]
    ensures Wrote(was, now, at, [tag] + mid)
  {
    assert now == now[..at] + [now[at]] + now[at + 1..end] + now[end..];
    assert now[..at] == was[..at] && now[end..] == was[end..];
  }

  lemma NibblesSnoc(s: seq<byte>, i: nat)
    requires i < |s|
    ensures Nibbles(s[..i + 1]) == Nibbles(s[..i]) + if IsHex(s[i]) then [HexValue(s[i])] else []
  {
    assert s[..i + 1] == s[..i] + [s[i]];
    NibblesAppend(s[..i], [s[i]]);
    assert [s[i]][1..] == [];
  }

  lemma NibblesPrefix(s: seq<byte>, i: nat)
    requires i <= |s|
    ensures |Nibbles(s[..i])| <= |Nibbles(s)|
    ensures i == 0 ==> Nibbles(s[..i]) == []
  {
    assert s == s[..i] + s[i..];
    NibblesAppend(s[..i], s[i..]);
  }

  ghost function Pending(digits: nat, b: nibble): seq<nibble> {
    if digits == 0 then [] else [b]
  }

  lemma PackSnoc(done: seq<nibble>, a: nibble, b: nibble)
    requires |done| % 2 == 0
    ensures Pack(done + [a, b]) == Pack(done) + [Byte(a, b)]
  {
    PackAppend(done, [a, b]);
  }

  lemma PackPending(done: seq<nibble>, digits: nat, b: nibble)
    requires |done| % 2 == 0
    ensures Pack(done + Pending(digits, b)) == Pack(done)
    ensures done == [] ==> Pack(done) == []
  {
    PackAppend(done, Pending(digits, b));
  }

  // ---- numbers as hex ----

  function Pow16(k: nat): (r: nat)
    ensures r > 0
  {
    if k == 0 then 1 else 16 * Pow16(k - 1)
  }

  /** The low k hex digits of n: "%0kx" for n below 16 to the k. */
  function Hex(n: nat, k: nat): (ns: seq<nibble>)
    ensures |ns| == k
  {
    if k == 0 then [] else Hex(n / 16, k - 1) + [n % 16]
  }

  /** Packing the hex digits of a number gives its big-endian bytes. */
  lemma {:induction false} PackHex(n: nat, k: nat)
    ensures Pack(Hex(n, 2 * k)) == BE(n, k)
  {
    if k > 0 {
      PackHex(n / 256, k - 1);
      assert n / 16 / 16 == n / 256;
      assert Hex(n, 2 * k) == Hex(n / 256, 2 * (k - 1)) + [n / 16 % 16, n % 16];
      PackAppend(Hex(n / 256, 2 * (k - 1)), [n / 16 % 16, n % 16]);
      assert 16 * (n / 16 % 16) + n % 16 == n % 256;
      assert Pack([n / 16 % 16, n % 16]) == [(n % 256) as byte];
    }
  }

  /** The hex digits of the number spelled by packed nibbles are those nibbles. */
  lemma HexSnoc(n: nat, a: nibble, b: nibble, k: nat)
    ensures Hex(n * 256 + Byte(a, b), k + 2) == Hex(n, k) + [a, b]
  {
    var m := n * 256 + Byte(a, b);
    assert m / 16 == n * 16 + a && m % 16 == b;
    assert m / 16 / 16 == n && m / 16 % 16 == a;
    assert Hex(m, k + 2) == Hex(m / 16, k + 1) + [b];
    assert Hex(m / 16, k + 1) == Hex(n, k) + [a];
  }

  lemma FromBESnoc(s: seq<byte>, c: byte)
    ensures FromBE(s + [c]) == FromBE(s) * 256 + c
  {
    assert (s + [c])[..|s|] == s;
  }

  lemma PackPair(a: nibble, b: nibble)
    ensures Pack([a, b]) == [Byte(a, b)]
  {
    assert [a, b][2..] == [];
  }

  lemma {:induction false} HexPack(ns: seq<nibble>)
    requires |ns| % 2 == 0
    ensures Hex(FromBE(Pack(ns)), |ns|) == ns
  {
    var k := |ns|;
    if k > 0 {
      hide Hex, FromBE, Pack, Byte;
      var p, a, b := ns[..k - 2], ns[k - 2], ns[k - 1];
      HexPack(p);
      assert ns == p + [a, b];
      PackAppend(p, [a, b]);
      PackPair(a, b);
      FromBESnoc(Pack(p), Byte(a, b));
      HexSnoc(FromBE(Pack(p)), a, b, k - 2);
    }
  }

  lemma {:induction false} HexSplit(n: nat, a: nat, b: nat)
    ensures Hex(n, a + b) == Hex(Quo(n, Pow16(b)), a) + Hex(Rem(n, Pow16(b)), b)
  {
    hide Quo, Rem;
    if b == 0 {
      QuoRem(n, 1, n, 0);
      assert Hex(n, a) + [] == Hex(n, a);
    } else {
      var p := Pow16(b - 1);
      HexSplit(n / 16, a, b - 1);
      DivMod16(n, p);
      var r := Rem(n, 16 * p);
      assert Hex(r, b) == Hex(r / 16, b - 1) + [r % 16];
      assert Hex(n, a + b) == Hex(n / 16, a + (b - 1)) + [n % 16];
    }
  }

  lemma DivMod16(n: nat, p: nat)
    requires p > 0
    ensures Quo(n / 16, p) == Quo(n, 16 * p)
    ensures Rem(n / 16, p) == Rem(n, 16 * p) / 16 && n % 16 == Rem(n, 16 * p) % 16
  {
    hide Quo, Rem;
    var h, l := n / 16, n % 16;
    var q, r := Quo(h, p), Rem(h, p);
    var s := 16 * r + l;
    Euclid(h, p);
    assert 16 * (p * q) == (16 * p) * q;
    QuoRem(n, 16 * p, q, s);
  }

  // ---- printing ----

  function Chars(ns: seq<nibble>): (s: seq<byte>)
    ensures |s| == |ns|
    ensures forall i :: 0 <= i < |ns| ==> s[i] == HexChar(ns[i])
  {
    if ns == [] then [] else [HexChar(ns[0])] + Chars(ns[1..])
  }

  lemma {:induction false} NibblesChars(ns: seq<nibble>)
    ensures Nibbles(Chars(ns)) == ns
  {
    if ns != [] {
      NibblesChars(ns[1..]);
      assert Chars(ns)[1..] == Chars(ns[1..]);
    }
  }

  /** A group of digits, a dash and the rest. */
  function Group(ns: seq<nibble>, rest: seq<byte>): seq<byte> {
    Chars(ns) + [DASH] + rest
  }

  lemma NibblesGroup(ns: seq<nibble>, rest: seq<byte>)
    ensures Nibbles(Group(ns, rest)) == ns + Nibbles(rest)
  {
    NibblesChars(ns);
    NibblesAppend(Chars(ns) + [DASH], rest);
    NibblesAppend(Chars(ns), [DASH]);
    assert Nibbles([DASH]) == [];
  }

  /** 32 nibbles in the 8-4-4-4-12 grouping. */
  function Dashed(ns: seq<nibble>): seq<byte>
    requires |ns| == 32
  {
    Group(ns[..8], Group(ns[8..12], Group(ns[12..16], Group(ns[16..20], Chars(ns[20..])))))
  }

  lemma DashedIsUuid(ns: seq<nibble>)
    requires |ns| == 32
    ensures IsUuid(Dashed(ns))
  {
  }

  lemma NibblesDashed(ns: seq<nibble>)
    requires |ns| == 32
    ensures Nibbles(Dashed(ns)) == ns
  {
    hide Group, Nibbles, Chars;
    var a, b, c, d, e := ns[..8], ns[8..12], ns[12..16], ns[16..20], ns[20..];
    var g4 := Group(d, Chars(e));
    var g3 := Group(c, g4);
    var g2 := Group(b, g3);
    NibblesChars(e);
    NibblesGroup(d, Chars(e));
    NibblesGroup(c, g4);
    NibblesGroup(b, g3);
    NibblesGroup(a, g2);
    assert ns == a + (b + (c + (d + e)));
  }

  lemma {:induction false} CharsNibbles(s: seq<byte>)
    requires forall i :: 0 <= i < |s| ==> IsHex(s[i])
    ensures Chars(Nibbles(s)) == s && |Nibbles(s)| == |s|
  {
    if s != [] {
      CharsNibbles(s[1..]);
      assert HexChar(HexValue(s[0])) == s[0];
      assert Nibbles(s)[1..] == Nibbles(s[1..]);
    }
  }

  lemma GroupSplit(t: seq<byte>, k: nat)
    requires k < |t| && t[k] == DASH && forall i :: 0 <= i < k ==> IsHex(t[i])
    ensures |Nibbles(t[..k])| == k && Group(Nibbles(t[..k]), t[k + 1..]) == t
  {
    CharsNibbles(t[..k]);
    assert t == t[..k] + [DASH] + t[k + 1..];
  }

  lemma Concat(a: seq<nibble>, b: seq<nibble>, c: seq<nibble>, d: seq<nibble>, e: seq<nibble>)
    requires |a| == 8 && |b| == 4 && |c| == 4 && |d| == 4 && |e| == 12
    ensures var ns := a + b + c + d + e;
            |ns| == 32 && ns[..8] == a && ns[8..12] == b && ns[12..16] == c && ns[16..20] == d && ns[20..] == e
  {
  }

  /** The five groups of a UUID's text. */
  lemma Groups(s: seq<byte>) returns (ns: seq<nibble>)
    requires IsUuid(s)
    ensures |ns| == 32 && Dashed(ns) == s
  {
    hide Nibbles, Group, Chars;
    var s1, s2, s3, s4 := s[9..], s[14..], s[19..], s[24..];
    assert s1[5..] == s2 && s2[5..] == s3 && s3[5..] == s4;
    GroupSplit(s, 8);
    GroupSplit(s1, 4);
    GroupSplit(s2, 4);
    GroupSplit(s3, 4);
    CharsNibbles(s4);
    var a, b, c, d, e := Nibbles(s[..8]), Nibbles(s1[..4]), Nibbles(s2[..4]), Nibbles(s3[..4]), Nibbles(s4);
    Concat(a, b, c, d, e);
    ns := a + b + c + d + e;
  }

  lemma DashedNibbles(s: seq<byte>)
    requires IsUuid(s)
    ensures |Nibbles(s)| == 32 && Dashed(Nibbles(s)) == s
  {
    var ns := Groups(s);
    NibblesDashed(ns);
  }

  // ---- the two directions ----

  /** The (hi, lo) pair that a text with 32 or 33 hex digits fills. */
  function PairOf(s: seq<byte>): (nat, nat)
    requires 32 <= |Nibbles(s)| <= 33
  {
    var bytes := Pack(Nibbles(s));
    (FromBE(bytes[..8]), FromBE(bytes[8..]))
  }

  /** The (hi, lo) pair in a UUID's text. */
  function ParseUuid(s: seq<byte>): (nat, nat)
    requires IsUuid(s)
  {
    DashedNibbles(s);
    PairOf(s)
  }

  /** sprintf("%08lx-%04lx-%04lx-%04lx-%012lx") of the pair (src/opo/opo.c:641-646). */
  function PrintUuid(hi: nat, lo: nat): seq<byte> {
    Group(Hex(hi / 0x1_0000_0000, 8),
          Group(Hex(hi / 0x1_0000 % 0x1_0000, 4),
                Group(Hex(hi % 0x1_0000, 4),
                      Group(Hex(lo / 0x1_0000_0000_0000, 4),
                            Chars(Hex(lo % 0x1_0000_0000_0000, 12))))))
  }

  lemma HexGroups(hi: nat, lo: nat)
    ensures Hex(hi, 16) == Hex(hi / 0x1_0000_0000, 8) + (Hex(hi / 0x1_0000 % 0x1_0000, 4) + Hex(hi % 0x1_0000, 4))
    ensures Hex(lo, 16) == Hex(lo / 0x1_0000_0000_0000, 4) + Hex(lo % 0x1_0000_0000_0000, 12)
  {
    hide Hex, Pow16, Quo, Rem;
    Pow16Values();
    HexSplit(hi, 8, 8);
    var low := Rem(hi, 0x1_0000_0000);
    HexSplit(low, 4, 4);
    HexSplit(lo, 4, 12);
    Literals(hi, lo);
  }

  lemma Pow16Values()
    ensures Pow16(4) == 0x1_0000 && Pow16(8) == 0x1_0000_0000 && Pow16(12) == 0x1_0000_0000_0000
  {
    assert Pow16(2) == 0x100;
    assert Pow16(6) == 0x100_0000;
    assert Pow16(10) == 0x100_0000_0000;
  }

  lemma Literals(hi: nat, lo: nat)
    ensures Quo(hi, 0x1_0000_0000) == hi / 0x1_0000_0000
    ensures Quo(Rem(hi, 0x1_0000_0000), 0x1_0000) == hi / 0x1_0000 % 0x1_0000
    ensures Rem(Rem(hi, 0x1_0000_0000), 0x1_0000) == hi % 0x1_0000
    ensures Quo(lo, 0x1_0000_0000_0000) == lo / 0x1_0000_0000_0000
    ensures Rem(lo, 0x1_0000_0000_0000) == lo % 0x1_0000_0000_0000
  {
  }

  lemma PrintIsDashed(hi: nat, lo: nat)
    ensures PrintUuid(hi, lo) == Dashed(Hex(hi, 16) + Hex(lo, 16))
  {
    hide Hex, Group, Chars;
    HexGroups(hi, lo);
    var ns := Hex(hi, 16) + Hex(lo, 16);
    assert ns[..8] == Hex(hi / 0x1_0000_0000, 8);
    assert ns[8..12] == Hex(hi / 0x1_0000 % 0x1_0000, 4);
    assert ns[12..16] == Hex(hi % 0x1_0000, 4);
    assert ns[16..20] == Hex(lo / 0x1_0000_0000_0000, 4);
    assert ns[20..] == Hex(lo % 0x1_0000_0000_0000, 12);
  }

  /** Every accepted text is encoded in 16 bytes and prints back to itself. */
  lemma TextRoundTrip(s: seq<byte>)
    requires IsUuid(s)
    ensures var (hi, lo) := ParseUuid(s);
            && PrintUuid(hi, lo) == s
            && hi < Pow256(8) && lo < Pow256(8)
            && Pack(Nibbles(s)) == BE(hi, 8) + BE(lo, 8)
  {
    DashedNibbles(s);
    var ns := Nibbles(s);
    var (hi, lo) := ParseUuid(s);
    assert ns == ns[..16] + ns[16..];
    PackAppend(ns[..16], ns[16..]);
    assert Pack(ns)[..8] == Pack(ns[..16]) && Pack(ns)[8..] == Pack(ns[16..]);
    HexPack(ns[..16]);
    HexPack(ns[16..]);
    PrintIsDashed(hi, lo);
    FromBEBound(Pack(ns[..16]));
    FromBEBound(Pack(ns[16..]));
    BEInvertsFromBE(Pack(ns[..16]));
    BEInvertsFromBE(Pack(ns[16..]));
  }

  /** Every pair prints to an accepted text that parses back to the pair. */
  lemma PairRoundTrip(hi: nat, lo: nat)
    requires hi < Pow256(8) && lo < Pow256(8)
    ensures IsUuid(PrintUuid(hi, lo)) && ParseUuid(PrintUuid(hi, lo)) == (hi, lo)
  {
    PrintIsDashed(hi, lo);
    var ns := Hex(hi, 16) + Hex(lo, 16);
    DashedIsUuid(ns);
    NibblesDashed(ns);
    PackAppend(Hex(hi, 16), Hex(lo, 16));
    PackHex(hi, 8);
    PackHex(lo, 8);
    assert Pack(ns)[..8] == BE(hi, 8) && Pack(ns)[8..] == BE(lo, 8);
    FromBEInvertsBE(hi, 8);
    FromBEInvertsBE(lo, 8);
  }

  /** fill_uuid writes its 16 bytes exactly when the text has 32 (or 33) lower case hex digits. */
  lemma FillLength(s: seq<byte>)
    ensures |Pack(Nibbles(s))| == 16 <==> 32 <= |Nibbles(s)| <= 33
    ensures IsUuid(s) ==> |Pack(Nibbles(s))| == 16
  {
    if IsUuid(s) {
      DashedNibbles(s);
    }
  }

  // ---- one text and its pair ----

  const SAMPLE_HI: seq<nibble> := [0, 1, 2, 3, 4, 5, 6, 7, 8, 9, 10, 11, 12, 13, 14, 15]
  const SAMPLE_LO: seq<nibble> := [15, 14, 13, 12, 11, 10, 9, 8, 7, 6, 5, 4, 3, 2, 1, 0]

  lemma HexDigit(n: nat, k: nat)
    requires k > 0
    ensures Hex(n, k) == Hex(n / 16, k - 1) + [n % 16] && Hex(n, 0) == []
  {
  }

  lemma SampleHigh()
    ensures Hex(0x0123_4567, 8) == SAMPLE_HI[..8] && Hex(0x89ab_cdef, 8) == SAMPLE_HI[8..]
  {
    hide Hex;
    HexDigit(0x0123_4567, 8);
    HexDigit(0x0123_456, 7);
    HexDigit(0x0123_45, 6);
    HexDigit(0x0123_4, 5);
    HexDigit(0x0123, 4);
    HexDigit(0x012, 3);
    HexDigit(0x01, 2);
    HexDigit(0x0, 1);
    HexDigit(0x89ab_cdef, 8);
    HexDigit(0x89ab_cde, 7);
    HexDigit(0x89ab_cd, 6);
    HexDigit(0x89ab_c, 5);
    HexDigit(0x89ab, 4);
    HexDigit(0x89a, 3);
    HexDigit(0x89, 2);
    HexDigit(0x8, 1);
  }

  lemma SampleLow()
    ensures Hex(0xfedc_ba98, 8) == SAMPLE_LO[..8] && Hex(0x7654_3210, 8) == SAMPLE_LO[8..]
  {
    hide Hex;
    HexDigit(0xfedc_ba98, 8);
    HexDigit(0xfedc_ba9, 7);
    HexDigit(0xfedc_ba, 6);
    HexDigit(0xfedc_b, 5);
    HexDigit(0xfedc, 4);
    HexDigit(0xfed, 3);
    HexDigit(0xfe, 2);
    HexDigit(0xf, 1);
    HexDigit(0x7654_3210, 8);
    HexDigit(0x7654_321, 7);
    HexDigit(0x7654_32, 6);
    HexDigit(0x7654_3, 5);
    HexDigit(0x7654, 4);
    HexDigit(0x765, 3);
    HexDigit(0x76, 2);
    HexDigit(0x7, 1);
  }

  lemma SamplePair()
    ensures Hex(0x0123_4567_89ab_cdef, 16) == SAMPLE_HI && Hex(0xfedc_ba98_7654_3210, 16) == SAMPLE_LO
  {
    hide Hex, Quo, Rem, Pow16;
    SampleHigh();
    SampleLow();
    Pow16Values();
    HexSplit(0x0123_4567_89ab_cdef, 8, 8);
    HexSplit(0xfedc_ba98_7654_3210, 8, 8);
    QuoRem(0x0123_4567_89ab_cdef, 0x1_0000_0000, 0x0123_4567, 0x89ab_cdef);
    QuoRem(0xfedc_ba98_7654_3210, 0x1_0000_0000, 0xfedc_ba98, 0x7654_3210);
    assert SAMPLE_HI == SAMPLE_HI[..8] + SAMPLE_HI[8..] && SAMPLE_LO == SAMPLE_LO[..8] + SAMPLE_LO[8..];
  }

  lemma SampleHighChars()
    ensures Chars(SAMPLE_HI[..8]) == [48, 49, 50, 51, 52, 53, 54, 55]
    ensures Chars(SAMPLE_HI[8..12]) == [56, 57, 97, 98] && Chars(SAMPLE_HI[12..]) == [99, 100, 101, 102]
  {
    hide Chars;
  }

  lemma SampleLowChars()
    ensures Chars(SAMPLE_LO[..4]) == [102, 101, 100, 99]
    ensures Chars(SAMPLE_LO[4..]) == [98, 97, 57, 56, 55, 54, 53, 52, 51, 50, 49, 48]
  {
    hide Chars;
  }

  lemma Halves(a: seq<nibble>, b: seq<nibble>)
    requires |a| == |b| == 16
    ensures var ns := a + b;
            ns[..8] == a[..8] && ns[8..12] == a[8..12] && ns[12..16] == a[12..] && ns[16..20] == b[..4] && ns[20..] == b[4..]
  {
  }

  /** "01234567-89ab-cdef-fedc-ba9876543210" and its pair. */
  lemma Sample()
    ensures PrintUuid(0x0123_4567_89ab_cdef, 0xfedc_ba98_7654_3210)
            == [48, 49, 50, 51, 52, 53, 54, 55] + [45]
               + ([56, 57, 97, 98] + [45]
                  + ([99, 100, 101, 102] + [45]
                     + ([102, 101, 100, 99] + [45] + [98, 97, 57, 56, 55, 54, 53, 52, 51, 50, 49, 48])))
  {
    hide PrintUuid, Hex, Chars;
    PrintIsDashed(0x0123_4567_89ab_cdef, 0xfedc_ba98_7654_3210);
    SamplePair();
    Halves(SAMPLE_HI, SAMPLE_LO);
    SampleHighChars();
    SampleLowChars();
    DashedIs(SAMPLE_HI + SAMPLE_LO);
    hide *;
  }

  lemma DashedIs(ns: seq<nibble>)
    requires |ns| == 32
    ensures Dashed(ns)
            == Chars(ns[..8]) + [45]
               + (Chars(ns[8..12]) + [45]
                  + (Chars(ns[12..16]) + [45] + (Chars(ns[16..20]) + [45] + Chars(ns[20..]))))
  {
    hide Chars;
  }
}
