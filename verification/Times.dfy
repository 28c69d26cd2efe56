/** Timestamps as text: "2017-03-14T15:09:26.123456789Z" (src/opo/opo.c:55-136, 651-669). */
module Times {
  import opened Bytes
  import opened Trees

  const TIME_STR_LEN := 30
  const NO_TIME := -1 // 0xffffffffffffffff as a signed number
  const NANOS := 1000000000

  /** The fields of struct tm that are filled in, in C's conventions. */
  datatype Tm = Tm(year: int, mon: int, mday: int, hour: int, min: int, sec: int)

  /** The C library's calendar: seconds since the epoch of a broken-down UTC time, and back. */
  datatype Calendar = Calendar(timegm: Tm -> int, gmtime: int -> Tm)

  predicate AllDigits(s: seq<byte>) { forall i :: 0 <= i < |s| ==> IsDigit(s[i]) }

  /** The number spelled by decimal digits. */
  function Number(s: seq<byte>): nat
    requires AllDigits(s)
  {
    if s == [] then 0 else Number(s[..|s| - 1]) * 10 + (s[|s| - 1] - 48)
  }

  /** The low k decimal digits of n: "%0kd" for n below 10 to the k. */
  function Decimal(n: nat, k: nat): (s: seq<byte>)
    ensures |s| == k && AllDigits(s)
    decreases k
  {
    if k == 0 then [] else Decimal(n / 10, k - 1) + [(48 + n % 10) as byte]
  }

  lemma {:induction false} DecimalNumber(s: seq<byte>)
    requires AllDigits(s)
    ensures Decimal(Number(s), |s|) == s
  {
    if s != [] {
      var p, d := s[..|s| - 1], s[|s| - 1] - 48;
      DecimalNumber(p);
      assert (Number(p) * 10 + d) / 10 == Number(p);
      assert s == p + [s[|s| - 1]];
    }
  }

  /** The separators of the format. */
  predicate SeparatorsFit(s: seq<byte>)
    requires |s| == TIME_STR_LEN
  {
    && s[4] == 45 && s[7] == 45 && s[10] == 84              // '-' '-' 'T'
    && s[13] == 58 && s[16] == 58 && s[19] == 46 && s[29] == 90 // ':' ':' '.' 'Z'
  }

  predicate IsTimeText(s: seq<byte>) {
    && |s| == TIME_STR_LEN && SeparatorsFit(s)
    && AllDigits(s[0..4]) && AllDigits(s[5..7]) && AllDigits(s[8..10]) && AllDigits(s[11..13])
    && AllDigits(s[14..16]) && AllDigits(s[17..19]) && AllDigits(s[20..29])
  }

  function TmOf(s: seq<byte>): Tm
    requires IsTimeText(s)
  {
    Tm(Number(s[0..4]) - 1900, Number(s[5..7]) - 1, Number(s[8..10]),
       Number(s[11..13]), Number(s[14..16]), Number(s[17..19]))
  }

  /** The arithmetic is unsigned 64 bit and the result is read as signed. */
  function Wrap64(x: int): int {
    ToSigned(x % 0x1_0000_0000_0000_0000, 8)
  }

  function NanosOf(cal: Calendar, s: seq<byte>): int
    requires IsTimeText(s)
  {
    Wrap64(cal.timegm(TmOf(s)) * NANOS + Number(s[20..29]))
  }

  /** The time in s, if it is one: the one instant that reads as NO_TIME is taken for plain text. */
  function TimeOf(cal: Calendar, s: seq<byte>): Option<int> {
    if IsTimeText(s) && NanosOf(cal, s) != NO_TIME then Some(NanosOf(cal, s)) else None
  }

  method ReadNum(s: seq<byte>, p: nat, len: nat) returns (ok: bool, v: nat)
    requires p + len <= |s|
    ensures ok <==> AllDigits(s[p..p + len])
    ensures ok ==> v == Number(s[p..p + len])
  {
    v := 0;
    var i := p;
    while i < p + len
      invariant p <= i <= p + len
      invariant AllDigits(s[p..i]) && v == Number(s[p..i])
    {
      if !IsDigit(s[i]) {
        assert s[p..p + len][i - p] == s[i];
        return false, 0;
      }
      v := v * 10 + (s[i] - 48);
      i := i + 1;
      assert s[p..i] == s[p..i - 1] + [s[i - 1]];
    }
    ok := true;
  }

  method TimeParse(cal: Calendar, s: seq<byte>) returns (t: int)
    requires |s| == TIME_STR_LEN
    ensures t == match TimeOf(cal, s) case None => NO_TIME case Some(ns) => ns
  {
    hide Number, AllDigits, Wrap64;
    var ok, year := ReadNum(s, 0, 4);
    if !ok || s[4] != 45 { return NO_TIME; }
    var mon, mday, hour, min, sec, nsecs;
    ok, mon := ReadNum(s, 5, 2);
    if !ok || s[7] != 45 { return NO_TIME; }
    ok, mday := ReadNum(s, 8, 2);
    if !ok || s[10] != 84 { return NO_TIME; }
    ok, hour := ReadNum(s, 11, 2);
    if !ok || s[13] != 58 { return NO_TIME; }
    ok, min := ReadNum(s, 14, 2);
    if !ok || s[16] != 58 { return NO_TIME; }
    ok, sec := ReadNum(s, 17, 2);
    if !ok || s[19] != 46 { return NO_TIME; }
    ok, nsecs := ReadNum(s, 20, 9);
    if !ok || s[29] != 90 { return NO_TIME; }
    var y: int, m: int := year, mon;
    var secs := cal.timegm(Tm(y - 1900, m - 1, mday, hour, min, sec));
    t := Wrap64(secs * NANOS + nsecs);
  }

  function Field(n: int, k: nat): seq<byte> {
    Decimal(if n < 0 then 0 else n, k)
  }

  function DateText(tm: Tm): (s: seq<byte>) {
    Field(1900 + tm.year, 4) + [45] + Field(1 + tm.mon, 2) + [45] + Field(tm.mday, 2) + [84]
  }

  function ClockText(tm: Tm): seq<byte> {
    Field(tm.hour, 2) + [58] + Field(tm.min, 2) + [58] + Field(tm.sec, 2) + [46]
  }

  /** sprintf("%04d-%02d-%02dT%02d:%02d:%02d.%09ldZ"). */
  function Text(tm: Tm, frac: nat): seq<byte> {
    DateText(tm) + ClockText(tm) + (Decimal(frac, 9) + [90])
  }

  /** The text of a stored time, which the decoder reads as unsigned. */
  function PrintTime(cal: Calendar, ns: int): seq<byte> {
    var nsec := ToUnsigned(ns, 8);
    Text(cal.gmtime(nsec / NANOS), nsec % NANOS)
  }

  lemma DateOfFields(s: seq<byte>)
    requires IsTimeText(s)
    ensures DateText(TmOf(s)) == s[..11]
  {
    DecimalNumber(s[0..4]);
    DecimalNumber(s[5..7]);
    DecimalNumber(s[8..10]);
    assert s[..11] == s[0..4] + [s[4]] + s[5..7] + [s[7]] + s[8..10] + [s[10]];
  }

  lemma ClockOfFields(s: seq<byte>)
    requires IsTimeText(s)
    ensures ClockText(TmOf(s)) == s[11..20]
  {
    DecimalNumber(s[11..13]);
    DecimalNumber(s[14..16]);
    DecimalNumber(s[17..19]);
    assert s[11..20] == s[11..13] + [s[13]] + s[14..16] + [s[16]] + s[17..19] + [s[19]];
  }

  lemma TextOfFields(s: seq<byte>)
    requires IsTimeText(s)
    ensures Text(TmOf(s), Number(s[20..29])) == s
    ensures Number(s[20..29]) < NANOS
  {
    hide DateText, ClockText, Decimal, Number, TmOf;
    DateOfFields(s);
    ClockOfFields(s);
    DecimalNumber(s[20..29]);
    NumberBound(s[20..29]);
    Pow10Nine();
    assert s == s[..11] + s[11..20] + (s[20..29] + [s[29]]);
  }

  function Pow10(k: nat): nat {
    if k == 0 then 1 else 10 * Pow10(k - 1)
  }

  lemma Pow10Nine()
    ensures Pow10(9) == NANOS
  {
  }

  lemma {:induction false} NumberBound(s: seq<byte>)
    requires AllDigits(s)
    ensures Number(s) < Pow10(|s|)
  {
    if s != [] {
      NumberBound(s[..|s| - 1]);
    }
  }

  /**
   * A canonical timestamp from 1970 up to the last instant 64 bits of nanoseconds can hold prints
   * back to itself: canonical means that the calendar's two directions agree on its fields.
   */
  lemma TimeRoundTrip(cal: Calendar, s: seq<byte>)
    requires IsTimeText(s) && cal.gmtime(cal.timegm(TmOf(s))) == TmOf(s)
    requires 0 <= cal.timegm(TmOf(s)) * NANOS + Number(s[20..29]) < 0xffff_ffff_ffff_ffff
    ensures TimeOf(cal, s).Some? && PrintTime(cal, TimeOf(cal, s).value) == s
  {
    hide Text, TmOf, SeparatorsFit, Number;
    Pow256Values();
    TextOfFields(s);
    var secs, frac := cal.timegm(TmOf(s)), Number(s[20..29]);
    var x := secs * NANOS + frac;
    assert x % 0x1_0000_0000_0000_0000 == x;
    assert ToUnsigned(NanosOf(cal, s), 8) == x;
    assert x / NANOS == secs && x % NANOS == frac;
  }

  // ---- every timestamp is accepted ----

  lemma {:induction false} NumberDecimal(n: nat, k: nat)
    requires n < Pow10(k)
    ensures Number(Decimal(n, k)) == n
  {
    if k > 0 {
      NumberDecimal(n / 10, k - 1);
      assert Decimal(n, k)[..k - 1] == Decimal(n / 10, k - 1);
    }
  }

  /** The fields a timestamp can show. */
  predicate Printable(tm: Tm) {
    && 0 <= 1900 + tm.year <= 9999 && 0 <= 1 + tm.mon <= 99
    && 0 <= tm.mday <= 99 && 0 <= tm.hour <= 99 && 0 <= tm.min <= 99 && 0 <= tm.sec <= 99
  }

  lemma DatePlaces(tm: Tm)
    requires Printable(tm)
    ensures var d := DateText(tm);
            && |d| == 11 && d[4] == 45 && d[7] == 45 && d[10] == 84
            && d[0..4] == Decimal(1900 + tm.year, 4) && d[5..7] == Decimal(1 + tm.mon, 2)
            && d[8..10] == Decimal(tm.mday, 2)
  {
    hide Decimal;
  }

  lemma ClockPlaces(tm: Tm)
    requires Printable(tm)
    ensures var c := ClockText(tm);
            && |c| == 9 && c[2] == 58 && c[5] == 58 && c[8] == 46
            && c[0..2] == Decimal(tm.hour, 2) && c[3..5] == Decimal(tm.min, 2) && c[6..8] == Decimal(tm.sec, 2)
  {
    hide Decimal;
  }

  lemma TextPlaces(tm: Tm, frac: nat)
    requires Printable(tm)
    ensures var s := Text(tm, frac);
            && |s| == TIME_STR_LEN && SeparatorsFit(s)
            && s[0..4] == Decimal(1900 + tm.year, 4) && s[5..7] == Decimal(1 + tm.mon, 2)
            && s[8..10] == Decimal(tm.mday, 2) && s[11..13] == Decimal(tm.hour, 2)
            && s[14..16] == Decimal(tm.min, 2) && s[17..19] == Decimal(tm.sec, 2) && s[20..29] == Decimal(frac, 9)
  {
    hide Decimal, DateText, ClockText;
    DatePlaces(tm);
    ClockPlaces(tm);
    var d, c, s := DateText(tm), ClockText(tm), Text(tm, frac);
    assert s[..11] == d && s[11..20] == c && s[20..] == Decimal(frac, 9) + [90];
    assert s[0..4] == d[0..4] && s[5..7] == d[5..7] && s[8..10] == d[8..10];
    assert s[11..13] == c[0..2] && s[14..16] == c[3..5] && s[17..19] == c[6..8];
    assert forall i :: 0 <= i < 11 ==> s[i] == d[i];
    assert forall i :: 0 <= i < 9 ==> s[11 + i] == c[i];
  }

  /** The printed fields are read back as they were. */
  lemma TextRead(tm: Tm, frac: nat)
    requires Printable(tm) && frac < 1000000000
    ensures IsTimeText(Text(tm, frac)) && TmOf(Text(tm, frac)) == tm && Number(Text(tm, frac)[20..29]) == frac
  {
    TextPlaces(tm, frac);
    Pow10Nine();
    assert Pow10(4) == 10000 && Pow10(2) == 100;
    hide Text, Decimal, Number, SeparatorsFit, Pow10;
    NumberDecimal(1900 + tm.year, 4);
    NumberDecimal(1 + tm.mon, 2);
    NumberDecimal(tm.mday, 2);
    NumberDecimal(tm.hour, 2);
    NumberDecimal(tm.min, 2);
    NumberDecimal(tm.sec, 2);
    NumberDecimal(frac, 9);
  }

  /** Every timestamp is taken for the instant it shows, before 1970 too, where 64 signed bits hold it; the one at -1
      is taken for plain text. */
  lemma TimestampMeans(cal: Calendar, tm: Tm, frac: nat)
    requires Printable(tm) && frac < 1000000000
    ensures var ns := cal.timegm(tm) * 1000000000 + frac;
            -0x8000_0000_0000_0000 <= ns < 0x8000_0000_0000_0000 ==>
              TimeOf(cal, Text(tm, frac)) == if ns == -1 then None else Some(ns)
  {
    hide *;
    var ns := cal.timegm(tm) * 1000000000 + frac;
    TimestampWraps(cal, tm, frac, ns);
    if -0x8000_0000_0000_0000 <= ns < 0x8000_0000_0000_0000 {
      Wraps(ns);
    }
  }

  lemma TimestampWraps(cal: Calendar, tm: Tm, frac: nat, ns: int)
    requires Printable(tm) && frac < 1000000000 && ns == cal.timegm(tm) * 1000000000 + frac
    ensures TimeOf(cal, Text(tm, frac)) == if Wrap64(ns) == -1 then None else Some(Wrap64(ns))
  {
    hide *;
    TextRead(tm, frac);
    TimeIs(cal, Text(tm, frac), tm, frac, ns);
  }

  lemma TimeIs(cal: Calendar, s: seq<byte>, tm: Tm, frac: nat, ns: int)
    requires IsTimeText(s) && TmOf(s) == tm && Number(s[20..29]) == frac
    requires ns == cal.timegm(tm) * 1000000000 + frac
    ensures TimeOf(cal, s) == if Wrap64(ns) == -1 then None else Some(Wrap64(ns))
  {
    hide Number, Wrap64, SeparatorsFit, TmOf;
  }

  lemma Wraps(ns: int)
    requires -0x8000_0000_0000_0000 <= ns < 0x8000_0000_0000_0000
    ensures Wrap64(ns) == ns
  {
    Pow256Values();
    if ns < 0 {
      assert ns % 0x1_0000_0000_0000_0000 == ns + 0x1_0000_0000_0000_0000;
    }
  }

  lemma Digits(n: nat, k: nat)
    requires k > 0
    ensures Decimal(n, k) == Decimal(n / 10, k - 1) + [(48 + n % 10) as byte]
    ensures n < 10 ==> Decimal(n, 1) == [(48 + n) as byte]
  {
  }

  lemma Pairs(n: nat)
    requires n < 100
    ensures Decimal(n, 2) == [(48 + n / 10) as byte, (48 + n % 10) as byte]
  {
    Digits(n, 2);
    Digits(n / 10, 1);
  }

  lemma SampleYear()
    ensures Decimal(2017, 4) == [50, 48, 49, 55]
  {
    Digits(2017, 4);
    Digits(201, 3);
    Pairs(20);
  }

  lemma SampleNanos()
    ensures Decimal(123456789, 9) == [49, 50, 51, 52, 53, 54, 55, 56, 57]
  {
    hide Decimal;
    Digits(123456789, 9);
    Digits(12345678, 8);
    Digits(1234567, 7);
    Digits(123456, 6);
    Digits(12345, 5);
    Digits(1234, 4);
    Digits(123, 3);
    Pairs(12);
  }

  lemma SampleDate()
    ensures DateText(Tm(117, 2, 14, 15, 9, 26)) == [50, 48, 49, 55, 45, 48, 51, 45, 49, 52, 84]
  {
    hide Decimal;
    SampleYear();
    Pairs(3);
    Pairs(14);
  }

  lemma SampleClock()
    ensures ClockText(Tm(117, 2, 14, 15, 9, 26)) == [49, 53, 58, 48, 57, 58, 50, 54, 46]
  {
    hide Decimal;
    Pairs(15);
    Pairs(9);
    Pairs(26);
  }

  /** "2017-03-14T15:09:26.123456789Z". */
  lemma Sample()
    ensures Text(Tm(117, 2, 14, 15, 9, 26), 123456789)
            == [50, 48, 49, 55, 45, 48, 51, 45, 49, 52, 84] + [49, 53, 58, 48, 57, 58, 50, 54, 46]
               + [49, 50, 51, 52, 53, 54, 55, 56, 57, 90]
  {
    hide Decimal, DateText, ClockText;
    SampleDate();
    SampleClock();
    SampleNanos();
    assert [49, 50, 51, 52, 53, 54, 55, 56, 57] + [90] == [49, 50, 51, 52, 53, 54, 55, 56, 57, 90];
  }

  /** An instant before 1970 is shown as the one 2 to the 64 nanoseconds later. */
  lemma BeforeEpoch(cal: Calendar, ns: int)
    requires -0x8000_0000_0000_0000 <= ns < 0
    ensures var later := ns + 0x1_0000_0000_0000_0000;
            PrintTime(cal, ns) == Text(cal.gmtime(later / 1000000000), later % 1000000000)
  {
    Pow256Values();
  }
}
