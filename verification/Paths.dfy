/** Path lookup: opo_val_get (src/opo/val.c:405-485). */
module Paths {
  import opened Bytes
  import opened Trees
  import opened Wire
  import opened Readers
  import T = Times

  const DOT: byte := 46
  const LONG_MAX := 0x7fff_ffff_ffff_ffff

  // ---- paths and segments ----

  /** The first dot, or the end. */
  function FirstDot(path: seq<byte>): (d: nat)
    ensures d <= |path|
    ensures forall j :: 0 <= j < d ==> path[j] != DOT
    ensures d < |path| ==> path[d] == DOT
  {
    if path == [] || path[0] == DOT then 0 else 1 + FirstDot(path[1..])
  }

  /** The segments between dots; a trailing dot adds none. */
  function Segments(path: seq<byte>): seq<seq<byte>> {
    if path == [] then []
    else
      var d := FirstDot(path);
      [path[..d]] + if d == |path| then [] else Segments(path[d + 1..])
  }

  // ---- array indices, as strtol reads them ----

  predicate IsSpace(c: byte) { c == 32 || 9 <= c <= 13 }

  function Spaces(s: seq<byte>): (n: nat)
    ensures n <= |s|
  {
    if s == [] || !IsSpace(s[0]) then 0 else 1 + Spaces(s[1..])
  }

  function Digits(s: seq<byte>): (n: nat)
    ensures n <= |s|
    ensures T.AllDigits(s[..n])
  {
    if s == [] || !IsDigit(s[0]) then 0 else 1 + Digits(s[1..])
  }

  function Clamp(n: int): int {
    if n > LONG_MAX then LONG_MAX else if n < -LONG_MAX - 1 then -LONG_MAX - 1 else n
  }

  /** strtol in base 10: the value and how many characters it used, none when there is no digit. */
  function Strtol(s: seq<byte>): (int, nat) {
    var w := Spaces(s);
    var neg := w < |s| && s[w] == 45;
    var b := if w < |s| && (s[w] == 45 || s[w] == 43) then w + 1 else w;
    var d := Digits(s[b..]);
    if d == 0 then (0, 0)
    else
      var n: int := T.Number(s[b..][..d]);
      (Clamp(if neg then -n else n), b + d)
  }

  /** A segment is an index when strtol uses all of it; the empty segment is index 0. */
  function Index(seg: seq<byte>): Option<int> {
    if Strtol(seg).1 == |seg| then Some(Strtol(seg).0) else None
  }

  // ---- the lookup on trees ----

  /** The first member with the key. */
  function FirstKey(items: seq<Member>, key: seq<byte>, from: nat): (r: Option<nat>)
    requires from <= |items|
    ensures r.Some? ==> from <= r.value < |items| && items[r.value].key == Some(key)
    ensures r.Some? ==> forall j :: from <= j < r.value ==> items[j].key != Some(key)
    ensures r.None? ==> forall j :: from <= j < |items| ==> items[j].key != Some(key)
    decreases |items| - from
  {
    if from == |items| then None
    else if items[from].key == Some(key) then Some(from)
    else FirstKey(items, key, from + 1)
  }

  function Step(v: Val, seg: seq<byte>): (r: Option<nat>)
    ensures r.Some? ==> v.Node? && r.value < |v.items|
  {
    if v.Leaf? then None
    else if v.kind.Obj? then FirstKey(v.items, seg, 0)
    else
      match Index(seg)
      case None => None
      case Some(i) => if 0 <= i < |v.items| then Some(i) else None
  }

  /** The member numbers the segments lead to: no segment is reconsidered. */
  function Lookup(v: Val, segs: seq<seq<byte>>): Option<seq<nat>>
    decreases |segs|
  {
    if segs == [] then Some([])
    else
      match Step(v, segs[0])
      case None => None
      case Some(i) =>
        match Lookup(v.items[i].val, segs[1..])
        case None => None
        case Some(ip) => Some([i] + ip)
  }

  predicate Leads(v: Val, ip: seq<nat>)
    decreases |ip|
  {
    ip == [] || (v.Node? && ip[0] < |v.items| && Leads(v.items[ip[0]].val, ip[1..]))
  }

  function Select(v: Val, ip: seq<nat>): Val
    requires Leads(v, ip)
    decreases |ip|
  {
    if ip == [] then v else Select(v.items[ip[0]].val, ip[1..])
  }

  /** Where the selected value starts, counted from v. */
  function Offset(v: Val, ip: seq<nat>): nat
    requires Leads(v, ip)
    decreases |ip|
  {
    if ip == [] then 0 else ValueStart(v.items, ip[0]) + Offset(v.items[ip[0]].val, ip[1..])
  }

  lemma {:induction false} LookupLeads(v: Val, segs: seq<seq<byte>>)
    ensures Lookup(v, segs).Some? ==> Leads(v, Lookup(v, segs).value)
    decreases |segs|
  {
    if segs != [] && Step(v, segs[0]).Some? {
      var i := Step(v, segs[0]).value;
      LookupLeads(v.items[i].val, segs[1..]);
      if Lookup(v, segs).Some? {
        assert Lookup(v, segs).value[1..] == Lookup(v.items[i].val, segs[1..]).value;
      }
    }
  }

  /** The selected value's encoding is at its offset. */
  lemma {:induction false} SelectedAt(s: seq<byte>, p: nat, v: Val, ip: seq<nat>)
    requires Wf(v) && At(s, p, Encode(v)) && Leads(v, ip)
    ensures At(s, p + Offset(v, ip), Encode(Select(v, ip))) && Wf(Select(v, ip))
    decreases |ip|
  {
    if ip != [] {
      MemberAt(s, p, v, ip[0]);
      SelectedAt(s, p + ValueStart(v.items, ip[0]), v.items[ip[0]].val, ip[1..]);
    }
  }

  /** What opo_val_get should return for v at p. */
  function Found(v: Val, segs: seq<seq<byte>>, p: nat): Option<nat> {
    match Lookup(v, segs)
    case None => None
    case Some(ip) => LookupLeads(v, segs); Some(p + Offset(v, ip))
  }

  lemma FoundStep(v: Val, segs: seq<seq<byte>>, p: nat)
    requires segs != []
    ensures Found(v, segs, p) == match Step(v, segs[0])
                                 case None => None
                                 case Some(i) => Found(v.items[i].val, segs[1..], p + ValueStart(v.items, i))
  {
    LookupLeads(v, segs);
    if Step(v, segs[0]).Some? {
      var i := Step(v, segs[0]).value;
      LookupLeads(v.items[i].val, segs[1..]);
      if Lookup(v, segs).Some? {
        assert Lookup(v, segs).value[1..] == Lookup(v.items[i].val, segs[1..]).value;
      }
    }
  }

  /** The member loop for objects: the value after the first matching key. */
  method GetMember(s: seq<byte>, p: nat, seg: seq<byte>, ghost v: Val) returns (r: Option<nat>)
    requires Wf(v) && v.Node? && v.kind.Obj? && At(s, p, Encode(v))
    ensures r == match FirstKey(v.items, seg, 0)
                 case None => None
                 case Some(i) => Some(p + ValueStart(v.items, i))
  {
    hide Encode, At, Wf, WfItem, BSize, MemberStart, ValueStart, ReadKey;
    Header(s, p, v);
    var size := ReadUint(s, p + 1, 4);
    var val := p + 5;
    var end := val + size;
    ghost var i := 0;
    while val < end
      invariant 0 <= i <= |v.items| && val == p + MemberStart(v.items, i)
      invariant FirstKey(v.items, seg, 0) == FirstKey(v.items, seg, i)
      decreases end - val
    {
      MemberStep(s, p, v, i);
      var key := ReadKey(s, val);
      val := val + BSize(s, val);
      if key == Some(seg) {
        return Some(val);
      }
      val := val + BSize(s, val);
      i := i + 1;
    }
    r := None;
  }

  /** The element loop for arrays: count down over whole values. */
  method GetElement(s: seq<byte>, p: nat, index: int, ghost v: Val) returns (r: Option<nat>)
    requires Wf(v) && v.Node? && v.kind.Arr? && At(s, p, Encode(v))
    ensures r == if 0 <= index < |v.items| then Some(p + ValueStart(v.items, index)) else None
  {
    hide Encode, At, Wf, WfItem, BSize, MemberStart, ValueStart;
    Header(s, p, v);
    var size := ReadUint(s, p + 1, 4);
    var val := p + 5;
    var end := val + size;
    var i := index;
    ghost var n := 0;
    while val < end
      invariant 0 <= n <= |v.items| && val == p + MemberStart(v.items, n)
      invariant i == index - n && (0 <= index ==> n <= index)
      decreases end - val
    {
      MemberStep(s, p, v, n);
      if i == 0 {
        return Some(val);
      }
      val := val + BSize(s, val);
      i := i - 1;
      n := n + 1;
    }
    r := None;
  }

  lemma SegmentsStep(path: seq<byte>)
    requires path != []
    ensures var d := FirstDot(path);
            Segments(path) != [] && Segments(path)[0] == path[..d]
            && Segments(path)[1..] == if d == |path| then [] else Segments(path[d + 1..])
  {
    hide FirstDot;
    var d := FirstDot(path);
    var rest := if d == |path| then [] else Segments(path[d + 1..]);
    SegmentsCons(path);
    ConsParts(path[..d], rest);
  }

  lemma SegmentsCons(path: seq<byte>)
    requires path != []
    ensures var d := FirstDot(path);
            Segments(path) == [path[..d]] + if d == |path| then [] else Segments(path[d + 1..])
  {
    hide FirstDot;
  }

  lemma ConsParts(a: seq<byte>, rest: seq<seq<byte>>)
    ensures ([a] + rest)[0] == a && ([a] + rest)[1..] == rest
  {
  }

  lemma FoundHere(v: Val, p: nat)
    ensures Found(v, [], p) == Some(p)
  {
  }

  /** opo_val_get: where the path's segments lead from v, or None for NULL. */
  method Get(s: seq<byte>, p: nat, path: seq<byte>, ghost v: Val) returns (r: Option<nat>)
    requires Wf(v) && At(s, p, Encode(v))
    ensures r == Found(v, Segments(path), p)
    decreases |path|
  {
    hide Encode, At, Wf, WfItem, BSize, HeaderFits, MemberStart, ValueStart, Found, Segments, Strtol, FirstKey;
    FoundHere(v, p);
    if path == [] {
      assert Segments(path) == [] by { hide *; SegmentsNone(); }
      return Some(p);
    }
    SelfDelimiting(s, p, v);
    HeaderIn(s, p);
    TagTells(s, p, v);
    SegmentsStep(path);
    var dot := FirstDot(path);
    ghost var segs := Segments(path);
    FoundStep(v, segs, p);
    var next: Option<nat> := None;
    if s[p] == VAL_OBJ {
      next := GetMember(s, p, path[..dot], v);
    } else if s[p] == VAL_ARRAY {
      var (i, used) := Strtol(path[..dot]);
      if used == dot {
        next := GetElement(s, p, i, v);
      }
    }
    if next.None? {
      return None;
    }
    ghost var i := Step(v, segs[0]).value;
    MemberAt(s, p, v, i);
    FoundHere(v.items[i].val, next.value);
    if dot == |path| {
      return next;
    }
    r := Get(s, next.value, path[dot + 1..], v.items[i].val);
  }

  lemma SegmentsNone()
    ensures Segments([]) == []
  {
  }

  lemma HeaderIn(s: seq<byte>, p: nat)
    requires HeaderFits(s, p)
    ensures p < |s|
  {
  }

  /** What Get returns holds the encoding of the value the path selects, and it returns one iff there is one. */
  lemma FoundIsThere(s: seq<byte>, p: nat, v: Val, segs: seq<seq<byte>>)
    requires Wf(v) && At(s, p, Encode(v))
    ensures Found(v, segs, p).Some? <==> Lookup(v, segs).Some?
    ensures Found(v, segs, p).Some? ==>
              Leads(v, Lookup(v, segs).value)
              && At(s, Found(v, segs, p).value, Encode(Select(v, Lookup(v, segs).value)))
  {
    LookupLeads(v, segs);
    if Found(v, segs, p).Some? {
      SelectedAt(s, p, v, Lookup(v, segs).value);
    }
  }

  // ---- which element a segment selects ----

  /** Space, tab, newline, vertical tab, form feed and carriage return. */
  predicate Blank(s: seq<byte>) {
    forall i :: 0 <= i < |s| ==> s[i] in {32, 9, 10, 11, 12, 13}
  }

  lemma {:induction false} SpacesRun(sp: seq<byte>, rest: seq<byte>)
    requires Blank(sp) && (rest == [] || rest[0] !in {32, 9, 10, 11, 12, 13})
    ensures Spaces(sp + rest) == |sp|
  {
    if sp == [] {
      assert sp + rest == rest;
    } else {
      assert (sp + rest)[0] == sp[0] && (sp + rest)[1..] == sp[1..] + rest;
      SpacesRun(sp[1..], rest);
    }
  }

  lemma {:induction false} DigitsRun(ds: seq<byte>)
    requires T.AllDigits(ds)
    ensures Digits(ds) == |ds|
  {
    if ds != [] {
      DigitsRun(ds[1..]);
    }
  }

  /** No sign, a plus or a minus. */
  predicate Sign(sign: seq<byte>) { sign == [] || sign == [43] || sign == [45] }

  /** The number with its sign. */
  function Signed(sign: seq<byte>, n: int): int { if sign == [45] then -n else n }

  lemma Parts(sp: seq<byte>, sign: seq<byte>, ds: seq<byte>)
    requires Sign(sign) && ds != [] && IsDigit(ds[0])
    ensures var s, b := sp + sign + ds, |sp| + |sign|;
            && s == sp + (sign + ds) && |sp| < |s| && s[|sp|] == (sign + ds)[0] && s[b..] == ds
            && (s[|sp|] == 45 <==> sign == [45]) && (s[|sp|] == 43 <==> sign == [43])
            && (sign + ds)[0] !in {32, 9, 10, 11, 12, 13}
  {
  }

  lemma StrtolIs(s: seq<byte>, w: nat, b: nat)
    requires w < |s| && Spaces(s) == w && b == (if s[w] == 45 || s[w] == 43 then w + 1 else w)
    requires b < |s| && Digits(s[b..]) == |s| - b && T.AllDigits(s[b..])
    ensures var n: int := T.Number(s[b..]); Strtol(s) == (Clamp(if s[w] == 45 then -n else n), |s|)
  {
    hide Spaces, Digits, T.Number, Clamp, T.AllDigits;
    assert s[b..][..|s| - b] == s[b..];
  }

  /** strtol on blanks, a sign and digits uses all of it. */
  lemma StrtolWhole(sp: seq<byte>, sign: seq<byte>, ds: seq<byte>)
    requires Blank(sp) && Sign(sign) && ds != [] && T.AllDigits(ds)
    ensures Strtol(sp + sign + ds) == (Clamp(Signed(sign, T.Number(ds))), |sp + sign + ds|)
  {
    assert IsDigit(ds[0]);
    hide Spaces, Digits, T.Number, Clamp, T.AllDigits, Blank, Strtol;
    Parts(sp, sign, ds);
    SpacesRun(sp, sign + ds);
    DigitsRun(ds);
    StrtolIs(sp + sign + ds, |sp|, |sp| + |sign|);
  }

  /** The segment that spells n selects element n, with leading blanks and a plus or without; a longer number than
      there are elements selects nothing. */
  lemma SelectsElement(v: Val, sp: seq<byte>, plus: bool, n: nat, k: nat)
    requires v.Node? && v.kind.Arr? && |v.items| <= 0x7fff_ffff_ffff_ffff
    requires Blank(sp) && k > 0 && n < T.Pow10(k)
    ensures Step(v, sp + (if plus then [43] else []) + T.Decimal(n, k)) == if n < |v.items| then Some(n) else None
  {
    hide Strtol, T.Number, T.Decimal, T.Pow10, Blank, T.AllDigits;
    T.NumberDecimal(n, k);
    StrtolWhole(sp, if plus then [43] else [], T.Decimal(n, k));
    ClampIs(n);
  }

  /** With a minus only zero selects anything. */
  lemma MinusSelectsNothing(v: Val, sp: seq<byte>, n: nat, k: nat)
    requires v.Node? && v.kind.Arr?
    requires Blank(sp) && k > 0 && n < T.Pow10(k)
    ensures Step(v, sp + [45] + T.Decimal(n, k)) == if n == 0 && v.items != [] then Some(0) else None
  {
    hide Strtol, T.Number, T.Decimal, T.Pow10, Blank, T.AllDigits, Clamp;
    T.NumberDecimal(n, k);
    StrtolWhole(sp, [45], T.Decimal(n, k));
    var m: int := n;
    ClampIs(-m);
  }

  lemma ClampIs(n: int)
    ensures n < 0 ==> Clamp(n) < 0
    ensures n >= 0 ==> Clamp(n) == if n > 0x7fff_ffff_ffff_ffff then 0x7fff_ffff_ffff_ffff else n
  {
  }

  /** Blanks, at most one sign, and digits. */
  ghost predicate Numeral(seg: seq<byte>) {
    exists sp: seq<byte>, sign: seq<byte>, ds: seq<byte> ::
      && seg == sp + sign + ds && Blank(sp) && Sign(sign)
      && ds != [] && forall i :: 0 <= i < |ds| ==> 48 <= ds[i] <= 57
  }

  lemma {:induction false} SpacesBlank(s: seq<byte>)
    ensures Blank(s[..Spaces(s)])
  {
    if s != [] && IsSpace(s[0]) {
      SpacesBlank(s[1..]);
      assert s[..Spaces(s)] == [s[0]] + s[1..][..Spaces(s[1..])];
    }
  }

  lemma DigitsAre(s: seq<byte>)
    requires Digits(s) == |s|
    ensures forall i :: 0 <= i < |s| ==> 48 <= s[i] <= 57
  {
    assert s[..|s|] == s;
    forall i | 0 <= i < |s|
      ensures 48 <= s[i] <= 57
    {
      assert IsDigit(s[..|s|][i]);
    }
  }

  lemma SignAt(s: seq<byte>, w: nat, b: nat)
    requires w <= b <= |s| && b <= w + 1 && (b == w + 1 ==> s[w] == 43 || s[w] == 45)
    ensures Sign(s[w..b])
  {
    assert b == w + 1 ==> s[w..b] == [s[w]];
  }

  /** Any other segment selects nothing of an array, but the empty one, which selects the first element. */
  lemma OthersSelectNothing(v: Val, seg: seq<byte>)
    requires v.Node? && v.kind.Arr?
    ensures seg != [] && Step(v, seg).Some? ==> Numeral(seg)
    ensures Step(v, []) == if v.items != [] then Some(0) else None
  {
    hide T.Number, T.AllDigits, Clamp;
    if seg != [] && Strtol(seg).1 == |seg| {
      hide Spaces, Digits;
      var w := Spaces(seg);
      SpacesBlank(seg);
      var b := if w < |seg| && (seg[w] == 45 || seg[w] == 43) then w + 1 else w;
      DigitsAre(seg[b..]);
      assert seg == seg[..w] + seg[w..b] + seg[b..];
      assert Sign(seg[w..b]) by { SignAt(seg, w, b); }
    }
  }

  /** At the level of whole paths: a single index leads to that element, and to nothing beyond the last one. */
  lemma ElementFound(v: Val, n: nat, k: nat, p: nat)
    requires v.Node? && v.kind.Arr? && |v.items| <= 0x7fff_ffff_ffff_ffff && k > 0 && n < T.Pow10(k)
    ensures Found(v, [T.Decimal(n, k)], p)
            == if n < |v.items| then Some(p + ValueStart(v.items, n)) else None
  {
    hide Found, Step, T.Decimal, T.Pow10, Blank, ValueStart;
    var seg := T.Decimal(n, k);
    assert [] + [] + seg == seg;
    assert Blank([]) by { NoBlanks(); }
    SelectsElement(v, [], false, n, k);
    var segs := [seg];
    FoundStep(v, segs, p);
    assert segs[1..] == [];
    if n < |v.items| {
      FoundHere(v.items[n].val, p + ValueStart(v.items, n));
    }
  }

  lemma NoBlanks()
    ensures Blank([])
  {
  }

  /** "10" leads to element 10. */
  lemma TenFound(v: Val, p: nat)
    requires v.Node? && v.kind.Arr? && 10 < |v.items| <= 0x7fff_ffff_ffff_ffff
    ensures Found(v, Segments([49, 48]), p) == Some(p + ValueStart(v.items, 10))
  {
    hide Found, Segments, T.Decimal, T.Pow10, ValueStart;
    T.Pairs(10);
    SegmentsAt([49, 48], []);
    Hundred();
    ElementFound(v, 10, 2, p);
  }

  lemma Hundred()
    ensures T.Pow10(2) == 100
  {
  }

  /** A path is cut at its dots. */
  lemma SegmentsAt(a: seq<byte>, rest: seq<byte>)
    requires forall i :: 0 <= i < |a| ==> a[i] != 46
    ensures Segments(a + [46] + rest) == [a] + Segments(rest)
    ensures Segments(a) == if a == [] then [] else [a]
  {
    var path := a + [46] + rest;
    assert path[|a|] == 46;
    FirstDotAt(path, |a|);
    SegmentsCons(path);
    assert path[..|a|] == a && path[|a| + 1..] == rest;
    if a != [] {
      FirstDotAt(a, |a|);
      SegmentsCons(a);
      assert a[..|a|] == a;
    }
  }

  lemma {:induction false} FirstDotAt(path: seq<byte>, d: nat)
    requires d <= |path| && (forall i :: 0 <= i < d ==> path[i] != 46) && (d < |path| ==> path[d] == 46)
    ensures FirstDot(path) == d
    decreases d
  {
    if d > 0 {
      assert path[0] != 46;
      FirstDotAt(path[1..], d - 1);
    }
  }
}
