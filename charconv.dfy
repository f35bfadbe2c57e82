/**
 * Decimal text conversions shared by the programs: `std::from_chars` for a
 * base-10 `int` (the token parsers of day 1 and day 2) and `std::to_string`
 * for an `int` (the report printer of day 2).
 */
module CharConv {
  import opened Wrappers

  /** Bounds of the 32-bit `int` that `std::from_chars` parses into. */
  const IntMin: int := -0x8000_0000
  const IntMax: int := 0x7fff_ffff

  /** `std::isdigit` in the "C" locale. */
  predicate IsDigit(c: char) {
    '0' <= c <= '9'
  }

  predicate AllDigits(s: string) {
    forall i :: 0 <= i < |s| ==> IsDigit(s[i])
  }

  /** The characters of `s` in `[lo, hi)` are all digits. */
  predicate DigitsBetween(s: string, lo: nat, hi: nat)
    requires lo <= hi <= |s|
  {
    forall k :: lo <= k < hi ==> IsDigit(s[k])
  }

  function DigitValue(c: char): (d: nat)
    requires IsDigit(c)
    ensures d < 10
  {
    c as int - '0' as int
  }

  function DigitChar(d: nat): (c: char)
    requires d < 10
    ensures IsDigit(c) && DigitValue(c) == d
  {
    ('0' as int + d) as char
  }

  function Pow10(n: nat): (p: nat)
    ensures p >= 1
  {
    if n == 0 then 1 else 10 * Pow10(n - 1)
  }

  /** The value of the digits of `s` in `[lo, hi)`, most significant first. */
  function ValueBetween(s: string, lo: nat, hi: nat): nat
    requires lo <= hi <= |s| && DigitsBetween(s, lo, hi)
    decreases hi - lo
  {
    if hi == lo then 0 else ValueBetween(s, lo, hi - 1) * 10 + DigitValue(s[hi - 1])
  }

  /** A run of `n` digits is worth less than 10^n. */
  lemma {:induction false} ValueBetweenBound(s: string, lo: nat, hi: nat)
    requires lo <= hi <= |s| && DigitsBetween(s, lo, hi)
    ensures ValueBetween(s, lo, hi) < Pow10(hi - lo)
    decreases hi - lo
  {
    if hi > lo {
      var high := ValueBetween(s, lo, hi - 1);
      ValueBetweenBound(s, lo, hi - 1);
      assert high * 10 <= (Pow10(hi - 1 - lo) - 1) * 10;
    }
  }

  /** The characters of `s` in `[lo, hi)` are those of `t` moved by `shift`. */
  predicate Agree(s: string, lo: nat, hi: nat, t: string, shift: int)
    requires lo <= hi <= |s| && 0 <= lo + shift && hi + shift <= |t|
  {
    forall k :: lo <= k < hi ==> s[k] == t[k + shift]
  }

  /** The value of a run depends only on its characters, not on where it sits. */
  lemma {:induction false} ValueBetweenSame(s: string, lo: nat, hi: nat, t: string, shift: int)
    requires lo <= hi <= |s| && 0 <= lo + shift && hi + shift <= |t|
    requires Agree(s, lo, hi, t, shift) && DigitsBetween(s, lo, hi)
    ensures DigitsBetween(t, lo + shift, hi + shift)
    ensures ValueBetween(t, lo + shift, hi + shift) == ValueBetween(s, lo, hi)
    decreases hi - lo
  {
    assert forall k :: lo + shift <= k < hi + shift ==> t[k] == s[k - shift];
    if lo < hi {
      ValueBetweenSame(s, lo, hi - 1, t, shift);
    }
  }

  /** The end of the longest run of digits that starts at `i` and stops by `last`. */
  function DigitRunEnd(s: string, i: nat, last: nat): (j: nat)
    requires i <= last <= |s|
    ensures i <= j <= last
    ensures DigitsBetween(s, i, j)
    ensures j < last ==> !IsDigit(s[j])
    decreases last - i
  {
    if i < last && IsDigit(s[i]) then DigitRunEnd(s, i + 1, last) else i
  }

  /** Where the digits of a range start: after a leading '-', if any. */
  function DigitsStart(s: string, first: nat, last: nat): (start: nat)
    requires first <= last <= |s|
    ensures first <= start <= last && (start > first <==> first < last && s[first] == '-')
  {
    if first < last && s[first] == '-' then first + 1 else first
  }

  /**
   * `std::from_chars(first, last, value)` for an `int` in base 10 on the
   * characters of `s` in `[first, last)`: an optional '-' followed by the
   * longest run of digits; what follows that run is left unread. It fails
   * when no digit follows the sign, and when the value does not fit in 32 bits.
   */
  function FromChars(s: string, first: nat, last: nat): (r: Option<int>)
    requires first <= last <= |s|
    ensures r.Some? ==> IntMin <= r.value <= IntMax
    ensures r.Some? ==> first < last && (IsDigit(s[first]) || (s[first] == '-' && first + 1 < last && IsDigit(s[first + 1])))
  {
    var start := DigitsStart(s, first, last);
    var end := DigitRunEnd(s, start, last);
    if end == start then None
    else
      var magnitude: int := ValueBetween(s, start, end);
      var v := if start > first then -magnitude else magnitude;
      if IntMin <= v <= IntMax then Some(v) else None
  }

  /** `std::to_string` of a non-negative value: its digits with no leading zero. */
  function NatToString(n: nat): (s: string)
    ensures |s| >= 1 && AllDigits(s)
  {
    if n < 10 then [DigitChar(n)] else NatToString(n / 10) + [DigitChar(n % 10)]
  }

  /** The digits printed for `n` are worth `n`, and only 0 starts with a zero. */
  lemma {:induction false} NatToStringValue(n: nat)
    ensures ValueBetween(NatToString(n), 0, |NatToString(n)|) == n
    ensures |NatToString(n)| > 1 ==> NatToString(n)[0] != '0'
  {
    if n >= 10 {
      var high := NatToString(n / 10);
      var s := NatToString(n);
      NatToStringValue(n / 10);
      assert s == high + [DigitChar(n % 10)];
      assert Agree(high, 0, |high|, s, 0);
      ValueBetweenSame(high, 0, |high|, s, 0);
    }
  }

  /**
   * `std::to_string` of an `int`: a '-' exactly when the value is negative,
   * then the decimal digits of its magnitude, which start with a zero only
   * when the magnitude is 0.
   */
  function IntToString(n: int): (s: string)
    ensures |s| >= 1 && (s[0] == '-' <==> n < 0)
    ensures var d := if n < 0 then 1 else 0;
      d < |s| && DigitsBetween(s, d, |s|) && ValueBetween(s, d, |s|) == (if n < 0 then -n else n)
      && (s[d] == '0' ==> |s| == d + 1)
  {
    var digits := NatToString(if n < 0 then -n else n);
    NatToStringValue(if n < 0 then -n else n);
    if n < 0 then
      var s := "-" + digits;
      assert Agree(digits, 0, |digits|, s, 1);
      ValueBetweenSame(digits, 0, |digits|, s, 1);
      s
    else digits
  }

  /** `DigitRunEnd` stops exactly at the end of a run of digits. */
  lemma {:induction false} DigitRunEndIs(s: string, i: nat, j: nat, last: nat)
    requires i <= j <= last <= |s| && DigitsBetween(s, i, j)
    requires j < last ==> !IsDigit(s[j])
    ensures DigitRunEnd(s, i, last) == j
    decreases j - i
  {
    if i < j {
      DigitRunEndIs(s, i + 1, j, last);
    }
  }

  /** The digit run of a range depends only on the characters in it. */
  lemma {:induction false} DigitRunEndSame(s: string, i: nat, last: nat, t: string, shift: int)
    requires i <= last <= |s| && 0 <= i + shift && last + shift <= |t|
    requires Agree(s, i, last, t, shift)
    ensures DigitRunEnd(t, i + shift, last + shift) == DigitRunEnd(s, i, last) + shift
    decreases last - i
  {
    if i < last {
      DigitRunEndSame(s, i + 1, last, t, shift);
    }
  }

  /** `std::from_chars` sees only the characters of its range. */
  lemma FromCharsSame(s: string, first: nat, last: nat, t: string, shift: int)
    requires first <= last <= |s| && 0 <= first + shift && last + shift <= |t|
    requires Agree(s, first, last, t, shift)
    ensures FromChars(t, first + shift, last + shift) == FromChars(s, first, last)
  {
    var start := DigitsStart(s, first, last);
    assert DigitsStart(t, first + shift, last + shift) == start + shift;
    DigitRunEndSame(s, start, last, t, shift);
    var end := DigitRunEnd(s, start, last);
    ValueBetweenSame(s, start, end, t, shift);
  }

  /**
   * What `std::to_string` prints, `std::from_chars` reads back in full.
   */
  lemma FromCharsOfToString(n: int)
    requires IntMin <= n <= IntMax
    ensures FromChars(IntToString(n), 0, |IntToString(n)|) == Some(n)
  {
    var m := if n < 0 then -n else n;
    var text := IntToString(n);
    var digits := NatToString(m);
    var start := if n < 0 then 1 else 0;
    NatToStringValue(m);
    assert DigitsStart(text, 0, |text|) == start;
    assert Agree(digits, 0, |digits|, text, start);
    ValueBetweenSame(digits, 0, |digits|, text, start);
    DigitRunEndIs(text, start, |text|, |text|);
  }
}
