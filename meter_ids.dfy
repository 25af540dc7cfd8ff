/** Meter identifiers: the list `[f"{i:010d}" for i in range(1, meters + 1)]`
    that `load_data` builds before it generates any reading. */
module Meters {

  /** Minimum width of an identifier: the `010d` format pads with zeros to ten characters. */
  const IdWidth: nat := 10

  /** 10 to the power k. */
  function Pow10(k: nat): (p: nat)
    ensures p >= 1
    ensures k >= 1 ==> p >= 10
  {
    if k == 0 then 1 else 10 * Pow10(k - 1)
  }

  predicate IsDigit(c: char) {
    '0' <= c <= '9'
  }

  predicate AllDigits(s: string) {
    forall i :: 0 <= i < |s| ==> IsDigit(s[i])
  }

  function DigitValue(c: char): (d: nat)
    requires IsDigit(c)
    ensures d < 10
  {
    (c as int) - ('0' as int)
  }

  function DigitChar(d: nat): (c: char)
    requires d < 10
    ensures IsDigit(c) && DigitValue(c) == d
  {
    (('0' as int) + d) as char
  }

  /** The number a string of decimal digits denotes, most significant digit first
      (what `int(s)` gives back for such a string). */
  function Parse(s: string): nat
    requires AllDigits(s)
  {
    if s == [] then 0 else 10 * Parse(s[..|s| - 1]) + DigitValue(s[|s| - 1])
  }

  /** The shortest decimal numeral of n, as the `d` format writes a non-negative integer:
      it reads back as n and has no leading zero unless n is 0. */
  function Decimal(n: nat): (s: string)
    ensures 1 <= |s| && AllDigits(s)
    ensures Parse(s) == n
    ensures s[0] == '0' ==> n == 0
    decreases n
  {
    if n < 10 then
      [DigitChar(n)]
    else
      var s := Decimal(n / 10) + [DigitChar(n % 10)];
      assert s[..|s| - 1] == Decimal(n / 10);
      s
  }

  function Zeros(k: nat): (z: string)
    ensures |z| == k && AllDigits(z)
    ensures forall i :: 0 <= i < k ==> z[i] == '0'
  {
    seq(k, _ => '0')
  }

  /** Left-pads a numeral with '0' to `width` characters; a longer numeral is kept whole
      (the format's width is a minimum, not a truncation). */
  function ZeroPad(s: string, width: nat): (p: string)
    ensures |p| == if |s| < width then width else |s|
    ensures p[|p| - |s|..] == s
    ensures forall i :: 0 <= i < |p| - |s| ==> p[i] == '0'
  {
    if |s| < width then Zeros(width - |s|) + s else s
  }

  /** `f"{i:010d}"` for a non-negative i: an all-digit string that reads back as i, at
      least ten characters long, and exactly ten long precisely when i < 10^10. */
  function MeterId(i: nat): (id: string)
    ensures AllDigits(id) && Parse(id) == i
    ensures |id| >= IdWidth
    ensures |id| == IdWidth <==> i < Pow10(IdWidth)
  {
    var d := Decimal(i);
    DecimalLength(i, IdWidth);
    if |d| < IdWidth then
      ParseLeadingZeros(IdWidth - |d|, d);
      ZeroPad(d, IdWidth)
    else
      ZeroPad(d, IdWidth)
  }

  /** The meter list of `load_data`: for meters <= 0 the range is empty and so is the list;
      otherwise position k holds the identifier of meter k + 1 (which reads back as k + 1). */
  function MeterIds(meters: int): (ids: seq<string>)
    ensures |ids| == if meters > 0 then meters else 0
    ensures forall k :: 0 <= k < |ids| ==> ids[k] == MeterId(k + 1)
  {
    if meters <= 0 then [] else seq(meters, k requires 0 <= k < meters => MeterId(k + 1))
  }

  /** Strict lexicographic order on strings by code point, as Python's `<` on `str`
      (a proper prefix comes first). */
  predicate LexLess(a: string, b: string) {
    |b| > 0 && (|a| == 0 || a[0] < b[0] || (a[0] == b[0] && LexLess(a[1..], b[1..])))
  }

  lemma {:induction false} ParseZeros(k: nat)
    ensures Parse(Zeros(k)) == 0
  {
    if k > 0 {
      assert Zeros(k)[..k - 1] == Zeros(k - 1);
      ParseZeros(k - 1);
    }
  }

  /** Leading zeros do not change the number a numeral denotes. */
  lemma {:induction false} ParseLeadingZeros(k: nat, s: string)
    requires AllDigits(s)
    ensures AllDigits(Zeros(k) + s) && Parse(Zeros(k) + s) == Parse(s)
  {
    var z := Zeros(k) + s;
    if s == [] {
      assert z == Zeros(k);
      ParseZeros(k);
    } else {
      assert z[..|z| - 1] == Zeros(k) + s[..|s| - 1];
      ParseLeadingZeros(k, s[..|s| - 1]);
    }
  }

  /** The shortest numeral of n fits in k >= 1 characters exactly when n < 10^k. */
  lemma {:induction false} DecimalLength(n: nat, k: nat)
    requires k >= 1
    ensures |Decimal(n)| <= k <==> n < Pow10(k)
    decreases n
  {
    if n >= 10 {
      if k > 1 {
        DecimalLength(n / 10, k - 1);
      }
    }
  }

  /** Reading a numeral from its first digit: the leading digit weighs 10^(length - 1). */
  lemma {:induction false} ParseFront(s: string)
    requires AllDigits(s) && |s| >= 1
    ensures Parse(s) == DigitValue(s[0]) * Pow10(|s| - 1) + Parse(s[1..])
  {
    var n := |s|;
    if n == 1 {
      assert s[1..] == [];
    } else {
      var init := s[..n - 1];
      ParseFront(init);
      assert init[1..] == s[1..][..n - 2];
      assert init[0] == s[0];
      assert Parse(s[1..]) == 10 * Parse(init[1..]) + DigitValue(s[n - 1]);
      Shift(DigitValue(s[0]), Pow10(n - 2), Parse(init[1..]), DigitValue(s[n - 1]));
    }
  }

  /** Appending a digit to `d` followed by the digits of `r` multiplies both parts by ten. */
  lemma Shift(d: nat, p: nat, r: nat, last: nat)
    ensures 10 * (d * p + r) + last == d * (10 * p) + (10 * r + last)
  {
  }

  lemma {:induction false} ParseBound(s: string)
    requires AllDigits(s)
    ensures Parse(s) < Pow10(|s|)
  {
    if s != [] {
      ParseBound(s[..|s| - 1]);
    }
  }

  /** Two numerals of one length compare as their leading digits do, and by the remaining
      digits when those are equal. */
  lemma LeadingDigitDecides(da: nat, db: nat, ra: nat, rb: nat, p: nat)
    requires ra < p && rb < p
    ensures da * p + ra < db * p + rb <==> da < db || (da == db && ra < rb)
  {
    if da < db {
      assert (da + 1) * p <= db * p;
    } else if db < da {
      assert (db + 1) * p <= da * p;
    }
  }

  /** On numerals of equal length, string order and numeric order agree. */
  lemma {:induction false} LexLessIsNumericOrder(a: string, b: string)
    requires AllDigits(a) && AllDigits(b) && |a| == |b|
    ensures LexLess(a, b) <==> Parse(a) < Parse(b)
  {
    if |a| > 0 {
      ParseFront(a);
      ParseFront(b);
      ParseBound(a[1..]);
      ParseBound(b[1..]);
      LeadingDigitDecides(DigitValue(a[0]), DigitValue(b[0]), Parse(a[1..]), Parse(b[1..]), Pow10(|a| - 1));
      LexLessIsNumericOrder(a[1..], b[1..]);
    }
  }

  /** The meter list never repeats an identifier, and for fewer than 10^10 meters every
      identifier is exactly ten characters and the list is in ascending string order. */
  lemma MeterIdsAscending(meters: int)
    ensures forall i, j :: 0 <= i < j < |MeterIds(meters)| ==> MeterIds(meters)[i] != MeterIds(meters)[j]
    ensures meters < Pow10(IdWidth) ==>
      (forall k :: 0 <= k < |MeterIds(meters)| ==> |MeterIds(meters)[k]| == IdWidth) &&
      (forall i, j :: 0 <= i < j < |MeterIds(meters)| ==> LexLess(MeterIds(meters)[i], MeterIds(meters)[j]))
  {
    var ids := MeterIds(meters);
    if meters < Pow10(IdWidth) {
      forall i, j | 0 <= i < j < |ids|
        ensures LexLess(ids[i], ids[j])
      {
        LexLessIsNumericOrder(ids[i], ids[j]);
      }
    }
  }
}
