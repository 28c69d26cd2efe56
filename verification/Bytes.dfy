/** Bytes, big-endian integers and two's complement, as src/opo writes and reads them. */
module Bytes {
  type byte = b: int | 0 <= b < 256

  function Zeros(n: nat): (s: seq<byte>)
    ensures |s| == n && forall i :: 0 <= i < n ==> s[i] == 0
  {
    seq(n, i => 0)
  }

  predicate IsDigit(c: byte) { 48 <= c <= 57 } // '0'..'9'

  /** 256 to the power k. */
  function Pow256(k: nat): (r: nat)
    ensures r > 0
  {
    if k == 0 then 1 else 256 * Pow256(k - 1)
  }

  /** The low k bytes of n, most significant first (the casts in the fill functions drop the rest). */
  function BE(n: nat, k: nat): (s: seq<byte>)
    ensures |s| == k
  {
    if k == 0 then [] else BE(n / 256, k - 1) + [(n % 256) as byte]
  }

  /** The number spelled by s, most significant byte first. */
  function FromBE(s: seq<byte>): nat {
    if s == [] then 0 else FromBE(s[..|s| - 1]) * 256 + s[|s| - 1]
  }

  lemma {:induction false} FromBEBound(s: seq<byte>)
    ensures FromBE(s) < Pow256(|s|)
  {
    if s != [] {
      FromBEBound(s[..|s| - 1]);
    }
  }

  lemma {:induction false} FromBEInvertsBE(n: nat, k: nat)
    requires n < Pow256(k)
    ensures FromBE(BE(n, k)) == n
  {
    if k > 0 {
      FromBEInvertsBE(n / 256, k - 1);
      assert BE(n, k)[..k - 1] == BE(n / 256, k - 1);
    }
  }

  lemma {:induction false} BEInvertsFromBE(s: seq<byte>)
    ensures BE(FromBE(s), |s|) == s
  {
    if s != [] {
      var p := s[..|s| - 1];
      BEInvertsFromBE(p);
      var l: int := s[|s| - 1];
      assert (FromBE(p) * 256 + l) / 256 == FromBE(p);
      assert s == p + [s[|s| - 1]];
    }
  }

  lemma Pow256Values()
    ensures Pow256(1) == 0x100 && Pow256(2) == 0x1_0000
    ensures Pow256(4) == 0x1_0000_0000 && Pow256(8) == 0x1_0000_0000_0000_0000
  {
    assert Pow256(3) == 0x100_0000;
    assert Pow256(5) == 0x100_0000_0000;
    assert Pow256(6) == 0x1_0000_0000_0000;
    assert Pow256(7) == 0x100_0000_0000_0000;
  }

  /** Two's complement image of i in k bytes, as a C cast to the unsigned type gives it. */
  function ToUnsigned(i: int, k: nat): nat {
    if i >= 0 then i else if i + Pow256(k) >= 0 then i + Pow256(k) else 0
  }

  /** The signed reading of an unsigned k-byte number, as a C cast to the signed type gives it. */
  function ToSigned(n: nat, k: nat): int {
    if 2 * n < Pow256(k) then n else n - Pow256(k)
  }

  /** i fits a signed integer of k bytes. */
  predicate FitsSigned(i: int, k: nat) {
    -(Pow256(k) as int) <= 2 * i < Pow256(k)
  }

  lemma SignedRoundTrip(i: int, k: nat)
    requires FitsSigned(i, k)
    ensures ToUnsigned(i, k) < Pow256(k)
    ensures ToSigned(ToUnsigned(i, k), k) == i
  {
  }

  /** s holds the bytes e at offset p. */
  predicate At(s: seq<byte>, p: nat, e: seq<byte>) {
    p + |e| <= |s| && s[p..p + |e|] == e
  }

  lemma AtSplit(s: seq<byte>, p: nat, a: seq<byte>, b: seq<byte>)
    requires At(s, p, a + b)
    ensures At(s, p, a) && At(s, p + |a|, b)
  {
    assert s[p..p + |a|] == s[p..p + |a + b|][..|a|];
    assert s[p + |a|..p + |a| + |b|] == s[p..p + |a + b|][|a|..];
  }

  lemma AtByte(s: seq<byte>, p: nat, e: seq<byte>, k: nat)
    requires At(s, p, e) && k < |e|
    ensures s[p + k] == e[k]
  {
    assert s[p..p + |e|][k] == s[p + k];
  }

  /** now is was with the bytes e written over offset at, and nothing else changed. */
  ghost predicate Wrote(was: seq<byte>, now: seq<byte>, at: nat, e: seq<byte>) {
    at + |e| <= |was| && now == was[..at] + e + was[at + |e|..]
  }

  lemma WroteThen(a: seq<byte>, b: seq<byte>, c: seq<byte>, at: nat, e: seq<byte>, f: seq<byte>)
    requires Wrote(a, b, at, e) && Wrote(b, c, at + |e|, f)
    ensures Wrote(a, c, at, e + f)
  {
    assert b[..at + |e|] == a[..at] + e;
    assert b[at + |e| + |f|..] == a[at + |e| + |f|..];
    assert a[..at] + e + f + a[at + |e| + |f|..] == a[..at] + (e + f) + a[at + |e + f|..];
  }

  lemma WroteAt(was: seq<byte>, now: seq<byte>, at: nat, e: seq<byte>)
    requires Wrote(was, now, at, e)
    ensures |now| == |was| && At(now, at, e)
    ensures now[..at] == was[..at] && now[at + |e|..] == was[at + |e|..]
  {
  }

  lemma WroteLength(was: seq<byte>, now: seq<byte>, at: nat, e: seq<byte>)
    requires Wrote(was, now, at, e)
    ensures |now| == |was| && at + |e| <= |was|
  {
  }

  // ---- the fill functions (src/opo/builder.c:16-43, src/opo/opo.c:206-233) ----

  lemma BEFromTop(n: nat, k: nat)
    requires k > 0
    ensures BE(n, k) == [(n / Pow256(k - 1) % 256) as byte] + BE(n, k - 1)
  {
    if k > 1 {
      BEFromTop(n / 256, k - 1);
      DivDiv(n, Pow256(k - 2));
    }
  }

  lemma DivDiv(n: nat, p: nat)
    requires p > 0
    ensures n / 256 / p == n / (256 * p)
  {
    var q := n / 256 / p;
    var m := n / 256;
    assert n == 256 * m + n % 256;
    assert m == p * q + m % p;
    assert 256 * (p * q) == (256 * p) * q;
    var r := 256 * (m % p) + n % 256;
    assert n == (256 * p) * q + r;
    assert 0 <= r < 256 * p;
    DivUnique(n, 256 * p, q, r);
  }

  lemma DivUnique(n: nat, d: nat, q: nat, r: nat)
    requires d > 0 && n == d * q + r && r < d
    ensures n / d == q
  {
    var q' := n / d;
    var r' := n % d;
    assert n == d * q' + r';
    if q' < q {
      MulGap(d, q', q);
    } else if q' > q {
      MulGap(d, q, q');
    }
  }

  lemma MulGap(d: nat, a: nat, b: nat)
    requires a < b
    ensures d * a + d <= d * b
  {
    assert d * b == d * a + d * (b - a);
    assert d * (b - a) == d + d * (b - a - 1);
  }

  function Quo(n: nat, d: nat): nat
    requires d > 0
  {
    n / d
  }

  function Rem(n: nat, d: nat): nat
    requires d > 0
  {
    n % d
  }

  lemma Euclid(n: nat, d: nat)
    requires d > 0
    ensures n == d * Quo(n, d) + Rem(n, d) && Rem(n, d) < d
  {
  }

  lemma QuoRem(n: nat, d: nat, q: nat, r: nat)
    requires d > 0 && n == d * q + r && r < d
    ensures Quo(n, d) == q && Rem(n, d) == r
  {
    DivUnique(n, d, q, r);
  }

  method FillUint16(b: array<byte>, w: nat, n: nat) returns (end: nat)
    requires w + 2 <= b.Length
    modifies b
    ensures end == w + 2
    ensures Wrote(old(b[..]), b[..], w, BE(n, 2))
  {
    b[w] := (n / 0x100 % 256) as byte;
    b[w + 1] := (n % 256) as byte;
    assert BE(n, 2) == [(n / 0x100 % 256) as byte, (n % 256) as byte];
    end := w + 2;
  }

  method FillUint32(b: array<byte>, w: nat, n: nat) returns (end: nat)
    requires w + 4 <= b.Length
    modifies b
    ensures end == w + 4
    ensures Wrote(old(b[..]), b[..], w, BE(n, 4))
  {
    b[w] := (n / 0x100_0000 % 256) as byte;
    b[w + 1] := (n / 0x1_0000 % 256) as byte;
    b[w + 2] := (n / 0x100 % 256) as byte;
    b[w + 3] := (n % 256) as byte;
    BE4(n);
    end := w + 4;
  }

  lemma BE4(n: nat)
    ensures BE(n, 4) == [(n / 0x100_0000 % 256) as byte, (n / 0x1_0000 % 256) as byte,
                         (n / 0x100 % 256) as byte, (n % 256) as byte]
  {
    Pow256Values();
    assert Pow256(3) == 0x100_0000;
    BEFromTop(n, 4);
    BEFromTop(n, 3);
    BEFromTop(n, 2);
    BEFromTop(n, 1);
  }

  lemma BE8(n: nat)
    ensures BE(n, 8) == [(n / 0x100_0000_0000_0000 % 256) as byte, (n / 0x1_0000_0000_0000 % 256) as byte,
                         (n / 0x100_0000_0000 % 256) as byte, (n / 0x1_0000_0000 % 256) as byte]
                        + BE(n, 4)
  {
    Pow256Values();
    assert Pow256(5) == 0x100_0000_0000;
    assert Pow256(6) == 0x1_0000_0000_0000;
    assert Pow256(7) == 0x100_0000_0000_0000;
    BEFromTop(n, 8);
    BEFromTop(n, 7);
    BEFromTop(n, 6);
    BEFromTop(n, 5);
  }

  method FillUint64(b: array<byte>, w: nat, n: nat) returns (end: nat)
    requires w + 8 <= b.Length
    modifies b
    ensures end == w + 8
    ensures Wrote(old(b[..]), b[..], w, BE(n, 8))
  {
    b[w] := (n / 0x100_0000_0000_0000 % 256) as byte;
    b[w + 1] := (n / 0x1_0000_0000_0000 % 256) as byte;
    b[w + 2] := (n / 0x100_0000_0000 % 256) as byte;
    b[w + 3] := (n / 0x1_0000_0000 % 256) as byte;
    b[w + 4] := (n / 0x100_0000 % 256) as byte;
    b[w + 5] := (n / 0x1_0000 % 256) as byte;
    b[w + 6] := (n / 0x100 % 256) as byte;
    b[w + 7] := (n % 256) as byte;
    BE8(n);
    BE4(n);
    end := w + 8;
  }

  method PutByte(b: array<byte>, w: nat, c: byte) returns (end: nat)
    requires w < b.Length
    modifies b
    ensures end == w + 1
    ensures Wrote(old(b[..]), b[..], w, [c])
  {
    b[w] := c;
    end := w + 1;
  }

  /** memcpy of s to offset w. */
  method Copy(b: array<byte>, w: nat, s: seq<byte>) returns (end: nat)
    requires w + |s| <= b.Length
    modifies b
    ensures end == w + |s|
    ensures Wrote(old(b[..]), b[..], w, s)
  {
    forall i | 0 <= i < |s| {
      b[w + i] := s[i];
    }
    end := w + |s|;
  }

  // ---- the read functions (src/opo/val.c:10-44) ----

  /** read_uint32 and read_uint64: fold `width` bytes into a number. */
  method ReadUint(s: seq<byte>, p: nat, width: nat) returns (num: nat)
    requires p + width <= |s|
    ensures num == FromBE(s[p..p + width])
  {
    var b := p;
    num := 0;
    while b < p + width
      invariant p <= b <= p + width
      invariant num == FromBE(s[p..b])
    {
      num := num * 256 + s[b];
      b := b + 1;
      assert s[p..b][..|s[p..b]| - 1] == s[p..b - 1];
    }
  }
}
