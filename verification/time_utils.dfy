/**
 * Time display and progress arithmetic. Times are exact reals (seconds);
 * JavaScript's `%` on numbers is the truncated remainder, whose sign follows
 * the dividend, and is written out as TruncRem.
 */
module TimeUtils {

  /** Truncation toward zero. */
  function Trunc(y: real): (t: int)
    ensures y >= 0.0 ==> 0 <= t && t as real <= y < t as real + 1.0
    ensures y < 0.0 ==> t <= 0 && t as real - 1.0 < y <= t as real
  {
    if y >= 0.0 then y.Floor else -((-y).Floor)
  }

  /** `x % m` on JavaScript numbers: x minus a whole multiple of m, with the sign of x. */
  function TruncRem(x: real, m: real): (r: real)
    requires m > 0.0
    ensures x >= 0.0 ==> 0.0 <= r < m
    ensures x < 0.0 ==> -m < r <= 0.0
    ensures IsWholeMultiple(x - r, m)
  {
    TruncQuotientBounds(x, m);
    x - (Trunc(x / m) as real) * m
  }

  /** m·trunc(x/m) lies between 0 and x, less than m away from x. */
  lemma TruncQuotientBounds(x: real, m: real)
    requires m > 0.0
    ensures var p := (Trunc(x / m) as real) * m;
      (x >= 0.0 ==> 0.0 <= x - p < m) && (x < 0.0 ==> -m < x - p <= 0.0) &&
      (x - (x - p)) / m == Trunc(x / m) as real
  {
    var y := x / m;
    var q := Trunc(y) as real;
    assert y * m == x;
    QuotientLink(x, y, q, m);
    assert x - (x - q * m) == q * m;
    ScaleCancels(q, m);
  }

  /** The bounds of ScaledTruncBounds, read with y·m = x. */
  lemma QuotientLink(x: real, y: real, q: real, m: real)
    requires m > 0.0 && y * m == x && q == Trunc(y) as real
    ensures x >= 0.0 ==> 0.0 <= x - q * m < m
    ensures x < 0.0 ==> -m < x - q * m <= 0.0
  {
    ScaledTruncBounds(y, q, m, x, q * m);
  }

  /** With q = trunc(y), a = y·m and b = q·m: a − b lies in [0, m) when a ≥ 0 and in (-m, 0] when a < 0. */
  lemma ScaledTruncBounds(y: real, q: real, m: real, a: real, b: real)
    requires m > 0.0 && q == Trunc(y) as real && a == y * m && b == q * m
    ensures a >= 0.0 ==> 0.0 <= a - b < m
    ensures a < 0.0 ==> -m < a - b <= 0.0
  {
    var h := y - q;
    var p := h * m;
    ScaleSign(y, m, a);
    SubScale(y, q, m, a, b, p);
    if y < 0.0 {
      assert -1.0 < h <= 0.0;
      NegFractionScale(h, m, p);
    } else {
      assert 0.0 <= h < 1.0;
      FractionScale(h, m, p);
    }
  }

  /** Scaling by a positive number keeps the sign: a = y·m is negative exactly when y is. */
  lemma ScaleSign(y: real, m: real, a: real)
    requires m > 0.0 && a == y * m
    ensures y < 0.0 <==> a < 0.0
  {
    if y < 0.0 {
      ScaleLe(y, 0.0, m);
    } else {
      ScaleLe(0.0, y, m);
    }
  }

  /** (q·m)/m = q. */
  lemma ScaleCancels(q: real, m: real)
    requires m > 0.0
    ensures (q * m) / m == q
  {
  }

  /** With a = y·m, b = q·m and p = (y − q)·m: p = a − b. */
  lemma SubScale(y: real, q: real, m: real, a: real, b: real, p: real)
    requires a == y * m && b == q * m && p == (y - q) * m
    ensures p == a - b
  {
  }

  /** A fraction f in [0, 1) of a positive m, p = f·m, lies in [0, m). */
  lemma FractionScale(f: real, m: real, p: real)
    requires 0.0 <= f < 1.0 && m > 0.0 && p == f * m
    ensures 0.0 <= p < m
  {
    ScaleLe(0.0, f, m);
    ScaleLe(f, 1.0, m);
  }

  /** A fraction f in (-1, 0] of a positive m, p = f·m, lies in (-m, 0]. */
  lemma NegFractionScale(f: real, m: real, p: real)
    requires -1.0 < f <= 0.0 && m > 0.0 && p == f * m
    ensures -m < p <= 0.0
  {
    ScaleLe(f, 0.0, m);
    ScaleLe(-1.0, f, m);
  }

  /** Multiplying both sides by a positive number keeps an inequality. */
  lemma ScaleLe(a: real, b: real, m: real)
    requires m > 0.0 && a <= b
    ensures a * m <= b * m
    ensures a < b ==> a * m < b * m
  {
  }

  /** x is k·m for some integer k. */
  predicate IsWholeMultiple(x: real, m: real)
    requires m > 0.0
  {
    (x / m).Floor as real == x / m
  }

  // ---------------------------------------------------------------------------
  // formatTime

  function DigitChar(d: nat): (c: char)
    requires d < 10
    ensures '0' <= c <= '9'
  {
    ('0' as int + d) as char
  }

  /** Every character of s is a decimal digit. */
  predicate IsDigits(s: string) {
    forall i :: 0 <= i < |s| ==> IsDigit(s[i])
  }

  predicate IsDigit(c: char) {
    '0' <= c <= '9'
  }

  /** Decimal digits of a natural number, most significant first, without leading zeros. */
  function NatToString(n: nat): (s: string)
    ensures |s| >= 1
    ensures IsDigits(s)
    ensures s[0] == '0' <==> n == 0
    ensures n < 10 ==> |s| == 1
    ensures n >= 10 ==> |s| >= 2
    decreases n
  {
    if n < 10 then [DigitChar(n)]
    else
      var prefix := NatToString(n / 10);
      assert (prefix + [DigitChar(n % 10)])[0] == prefix[0];
      prefix + [DigitChar(n % 10)]
  }

  /** `Number.prototype.toString()` on an integer value. */
  function IntToString(i: int): (r: string)
    ensures |r| >= 1 && (r[0] == '-' <==> i < 0)
    ensures i < 0 ==> IsDigits(r[1..]) && DigitsValue(r[1..]) == -i
    ensures i >= 0 ==> IsDigits(r) && DigitsValue(r) == i
    ensures var digits := if i < 0 then r[1..] else r;
      |digits| >= 1 && (digits[0] == '0' <==> i == 0)
  {
    if i < 0 then
      NatToStringReadsBack(-i);
      assert ("-" + NatToString(-i))[1..] == NatToString(-i);
      "-" + NatToString(-i)
    else
      NatToStringReadsBack(i);
      NatToString(i)
  }

  /** `s.padStart(2, '0')` */
  function PadStart2(s: string): (r: string)
    ensures |r| == if |s| < 2 then 2 else |s|
    ensures r[|r| - |s|..] == s
    ensures forall i :: 0 <= i < |r| - |s| ==> r[i] == '0'
  {
    if |s| == 0 then "00" else if |s| == 1 then "0" + s else s
  }

  /** `formatTime(seconds)`: whole minutes, ':', then the remaining whole seconds padded to two places. */
  function FormatTime(seconds: real): (r: string)
    ensures |r| >= 1 && (r[0] == '-' <==> seconds < 0.0)
  {
    var mins := (seconds / 60.0).Floor;
    var secs := TruncRem(seconds, 60.0).Floor;
    IntToString(mins) + ":" + PadStart2(IntToString(secs))
  }

  /** The number a string of decimal digits denotes (reading it back). */
  function DigitsValue(s: string): nat
    requires IsDigits(s)
  {
    if s == [] then 0
    else
      var last := s[|s| - 1];
      assert IsDigit(last);
      DigitsValue(s[..|s| - 1]) * 10 + (last as int - '0' as int)
  }

  /** Reading the decimal digits back gives the number. */
  lemma {:induction false} NatToStringReadsBack(n: nat)
    ensures DigitsValue(NatToString(n)) == n
    decreases n
  {
    var s := NatToString(n);
    if n >= 10 {
      NatToStringReadsBack(n / 10);
      assert s[..|s| - 1] == NatToString(n / 10);
    }
  }

  /** Whole minutes and whole seconds of a non-negative time: seconds in 0..59, and together they make ⌊seconds⌋. */
  lemma MinutesAndSeconds(seconds: real)
    requires seconds >= 0.0
    ensures var mins, secs := (seconds / 60.0).Floor, TruncRem(seconds, 60.0).Floor;
      mins >= 0 && 0 <= secs <= 59 && mins * 60 + secs == seconds.Floor
  {
    var mins := (seconds / 60.0).Floor;
    var r := TruncRem(seconds, 60.0);
    assert r == seconds - 60.0 * (mins as real);
    assert (r + 60.0 * (mins as real)).Floor == r.Floor + 60 * mins;
  }

  /** A seconds part in 0..59, padded, is exactly two digits that read back as itself. */
  lemma PaddedSecondsReadBack(secs: nat)
    requires secs <= 59
    ensures var t := PadStart2(NatToString(secs));
      |t| == 2 && IsDigits(t) && DigitsValue(t) == secs
  {
    var t := PadStart2(NatToString(secs));
    if secs < 10 {
      assert NatToString(secs) == [DigitChar(secs)];
      assert t == ['0', DigitChar(secs)];
      TwoDigits('0', DigitChar(secs));
    } else {
      assert NatToString(secs / 10) == [DigitChar(secs / 10)];
      assert NatToString(secs) == [DigitChar(secs / 10), DigitChar(secs % 10)];
      assert t == [DigitChar(secs / 10), DigitChar(secs % 10)];
      TwoDigits(DigitChar(secs / 10), DigitChar(secs % 10));
    }
  }

  /** Two decimal digits read back as tens and units. */
  lemma TwoDigits(a: char, b: char)
    requires IsDigit(a) && IsDigit(b)
    ensures IsDigits([a, b])
    ensures DigitsValue([a, b]) == (a as int - '0' as int) * 10 + (b as int - '0' as int)
  {
    assert [a, b][..1] == [a];
    assert [a][..0] == [];
    assert DigitsValue([a]) == DigitsValue([]) * 10 + (a as int - '0' as int);
  }

  /**
   * For a non-negative time, formatTime yields minutes, ':', then exactly two
   * digits; reading them back gives seconds below 60 and minutes·60 + seconds
   * equal to the whole seconds of the input.
   */
  lemma FormatTimeReadsBack(seconds: real)
    requires seconds >= 0.0
    ensures var r := FormatTime(seconds); var k := |r|;
      k >= 4 && r[k - 3] == ':' &&
      IsDigits(r[..k - 3]) && IsDigits(r[k - 2..]) &&
      DigitsValue(r[k - 2..]) < 60 &&
      DigitsValue(r[..k - 3]) * 60 + DigitsValue(r[k - 2..]) == seconds.Floor &&
      (r[0] == '0' ==> k == 4)
  {
    var mins, secs := FormatTimeIsClock(seconds);
    ClockReadsBack(mins, secs);
    ClockNoLeadingZero(mins, secs);
  }

  /** For seconds ≥ 0 the text is the clock text of the whole minutes and the whole seconds below 60. */
  lemma FormatTimeIsClock(seconds: real) returns (mins: nat, secs: nat)
    requires seconds >= 0.0
    ensures secs <= 59 && mins * 60 + secs == seconds.Floor
    ensures FormatTime(seconds) == Clock(mins, secs)
  {
    MinutesAndSeconds(seconds);
    mins, secs := (seconds / 60.0).Floor, TruncRem(seconds, 60.0).Floor;
    assert IntToString(mins) == NatToString(mins) && IntToString(secs) == NatToString(secs);
  }

  /** The text formatTime builds from whole minutes and whole seconds. */
  function Clock(mins: nat, secs: nat): string {
    NatToString(mins) + ":" + PadStart2(NatToString(secs))
  }

  /** The clock text of minutes and a seconds part in 0..59 is digits, ':', two digits, and reads back as both parts. */
  lemma ClockReadsBack(mins: nat, secs: nat)
    requires secs <= 59
    ensures var r := Clock(mins, secs); var k := |r|;
      k >= 4 && r[k - 3] == ':' &&
      IsDigits(r[..k - 3]) && IsDigits(r[k - 2..]) &&
      DigitsValue(r[..k - 3]) == mins && DigitsValue(r[k - 2..]) == secs
  {
    var m, t := NatToString(mins), PadStart2(NatToString(secs));
    assert Clock(mins, secs) == m + ":" + t;
    NatToStringReadsBack(mins);
    PaddedSecondsReadBack(secs);
    SplitAtColon(m, t);
  }

  /** The minutes part has no leading zero: the clock text starts with '0' only as "0:ss". */
  lemma ClockNoLeadingZero(mins: nat, secs: nat)
    requires secs <= 59
    ensures var r := Clock(mins, secs); var k := |r|;
      k >= 4 && (k == 4 <==> mins < 10) && (r[0] == '0' <==> mins == 0)
  {
    var m, t := NatToString(mins), PadStart2(NatToString(secs));
    assert Clock(mins, secs) == m + ":" + t;
    PaddedSecondsReadBack(secs);
    assert (m + ":" + t)[0] == m[0];
  }

  /** Digits, ':' and two digits: where the parts of `m + ":" + t` sit and what they read back as. */
  lemma SplitAtColon(m: string, t: string)
    requires IsDigits(m) && IsDigits(t) && |t| == 2
    ensures var r := m + ":" + t; var k := |r|;
      k == |m| + 3 && r[k - 3] == ':' &&
      IsDigits(r[..k - 3]) && IsDigits(r[k - 2..]) &&
      DigitsValue(r[..k - 3]) == DigitsValue(m) && DigitsValue(r[k - 2..]) == DigitsValue(t)
  {
    var r := m + ":" + t;
    assert r[..|r| - 3] == m;
    assert r[|r| - 2..] == t;
  }

  /** 65 seconds display as "1:05", zero as "0:00". */
  lemma FormatTimeExamples()
    ensures FormatTime(65.0) == "1:05"
    ensures FormatTime(0.0) == "0:00"
  {
    assert (65.0 / 60.0).Floor == 1;
    assert TruncRem(65.0, 60.0) == 5.0;
    assert (0.0 / 60.0).Floor == 0;
    assert TruncRem(0.0, 60.0) == 0.0;
  }

  /** A negative time keeps the dividend's sign in both parts: -5 s displays as "-1:-5". */
  lemma FormatTimeNegative()
    ensures FormatTime(-5.0) == "-1:-5"
  {
    assert (-5.0 / 60.0).Floor == -1;
    assert TruncRem(-5.0, 60.0) == -5.0;
    assert IntToString(-5) == "-5";
    assert IntToString(-1) == "-1";
  }

  // ---------------------------------------------------------------------------
  // calculateProgress

  /** `calculateProgress(current, total)`: percentage of `total` reached, capped at 100. */
  function CalculateProgress(current: real, total: real): (p: real)
    ensures total <= 0.0 ==> p == 0.0
    ensures total > 0.0 ==> p <= 100.0
    ensures total > 0.0 && current >= 0.0 ==> p >= 0.0
    ensures total > 0.0 && current >= total ==> p == 100.0
    ensures total > 0.0 && current < total ==> p * total == current * 100.0
  {
    if total <= 0.0 then 0.0
    else
      var pct := (current / total) * 100.0;
      if pct < 100.0 then pct else 100.0
  }

  /** For a fixed positive total, progress never decreases as `current` grows. */
  lemma ProgressMonotone(c1: real, c2: real, total: real)
    requires total > 0.0 && c1 <= c2
    ensures CalculateProgress(c1, total) <= CalculateProgress(c2, total)
  {
    assert c1 / total <= c2 / total by {
      assert c2 / total - c1 / total == (c2 - c1) / total;
    }
  }

  // ---------------------------------------------------------------------------
  // calculateLoopedProgress

  /**
   * `calculateLoopedProgress(startTime, currentTime, duration)`: elapsed time
   * wrapped at the track duration; 0 for a non-positive duration.
   */
  function CalculateLoopedProgress(startTime: real, currentTime: real, duration: real): (r: real)
    ensures duration <= 0.0 ==> r == 0.0
    ensures duration > 0.0 && currentTime - startTime >= 0.0 ==> 0.0 <= r < duration
    ensures duration > 0.0 && currentTime - startTime < 0.0 ==> -duration < r <= 0.0
    ensures duration > 0.0 ==> IsWholeMultiple(currentTime - startTime - r, duration)
  {
    if duration <= 0.0 then 0.0
    else
      var elapsed := currentTime - startTime;
      TruncRem(elapsed, duration)
  }

  /** The looped value depends on the two times only through their difference. */
  lemma LoopedDependsOnElapsed(startTime: real, currentTime: real, duration: real)
    ensures CalculateLoopedProgress(startTime, currentTime, duration)
         == CalculateLoopedProgress(0.0, currentTime - startTime, duration)
  {
  }

  /**
   * For a positive duration and non-negative elapsed time, the looped value
   * is the only number in [0, duration) that differs from the elapsed time by
   * a whole multiple of the duration.
   */
  lemma LoopedUnique(elapsed: real, duration: real, r: real)
    requires duration > 0.0 && elapsed >= 0.0
    requires 0.0 <= r < duration && IsWholeMultiple(elapsed - r, duration)
    ensures CalculateLoopedProgress(0.0, elapsed, duration) == r
  {
    var p := CalculateLoopedProgress(0.0, elapsed, duration);
    var k1 := ((elapsed - r) / duration).Floor;
    var k2 := ((elapsed - p) / duration).Floor;
    assert elapsed - r == (k1 as real) * duration;
    assert elapsed - p == (k2 as real) * duration;
    assert p - r == (k1 as real) * duration - (k2 as real) * duration;
    assert (k1 as real) * duration - (k2 as real) * duration == ((k1 - k2) as real) * duration;
    assert 0.0 <= p < duration;
    OnlyZeroMultipleIsSmall(p - r, k1 - k2, duration);
  }

  /** The only whole multiple of d strictly between -d and d is 0. */
  lemma OnlyZeroMultipleIsSmall(x: real, j: int, d: real)
    requires d > 0.0 && x == (j as real) * d && -d < x < d
    ensures j == 0
  {
    if j >= 1 {
      ScaleLe(1.0, j as real, d);
    } else if j <= -1 {
      ScaleLe(j as real, -1.0, d);
    }
  }

  /** One more lap of the track leaves the looped value unchanged. */
  lemma LoopedPeriodic(startTime: real, currentTime: real, duration: real)
    requires duration > 0.0 && currentTime - startTime >= 0.0
    ensures CalculateLoopedProgress(startTime, currentTime + duration, duration)
         == CalculateLoopedProgress(startTime, currentTime, duration)
  {
    var e := currentTime - startTime;
    var r := CalculateLoopedProgress(startTime, currentTime, duration);
    var x := e - r;
    var k := (x / duration).Floor;
    WholeMultipleIs(x, duration, k);
    NextMultiple(x, k, duration, x + duration);
    assert e + duration - r == x + duration;
    LoopedUnique(e + duration, duration, r);
  }

  /** A whole multiple x of m, with k = ⌊x/m⌋, is k·m. */
  lemma WholeMultipleIs(x: real, m: real, k: int)
    requires m > 0.0 && IsWholeMultiple(x, m) && k == (x / m).Floor
    ensures x == (k as real) * m
  {
    var y := x / m;
    assert y * m == x;
  }

  /** One more m on top of k·m is k + 1 whole multiples of m. */
  lemma NextMultiple(x: real, k: int, m: real, z: real)
    requires m > 0.0 && x == (k as real) * m && z == x + m
    ensures z / m == (k + 1) as real && IsWholeMultiple(z, m)
  {
    assert z == ((k + 1) as real) * m;
  }
}
