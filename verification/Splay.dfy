/** Spreading probes over their interval: the start offsets of the router
    targets and the pauses between the starts of the local pingers. */
module Splay {
  import opened Machine

  /** When the i-th of n targets fires first. */
  function Offset(interval: int, i: nat, n: nat): int
    requires i < n
  {
    Quotient(Wrapped(interval * i), n)
  }

  /** The loop of Start over the targets. */
  method Offsets(intervals: seq<int>) returns (offsets: seq<int>)
    ensures |offsets| == |intervals|
    ensures forall i :: 0 <= i < |offsets| ==> offsets[i] == Offset(intervals[i], i, |intervals|)
  {
    var n := |intervals|;
    offsets := [];
    for i := 0 to n
      invariant |offsets| == i
      invariant forall k :: 0 <= k < i ==> offsets[k] == Offset(intervals[k], k, n)
    {
      offsets := offsets + [Quotient(Wrapped(intervals[i] * i), n)];
    }
  }

  // ---- Arithmetic ---------------------------------------------------------------

  lemma DivisionBounds(a: int, b: int)
    requires b > 0
    ensures b * (a / b) <= a < b * (a / b) + b
  {}

  lemma TimesMonotone(n: int, x: int, y: int)
    requires n >= 0
    ensures x <= y ==> n * x <= n * y
  {}

  lemma QuotientIs(a: int, b: int, q: int)
    requires b > 0 && b * q <= a < b * q + b
    ensures a / b == q
  {
    DivisionBounds(a, b);
    TimesMonotone(b, a / b + 1, q);
    TimesMonotone(b, q + 1, a / b);
  }

  lemma DivisionMonotone(a: int, b: int, n: int)
    requires a <= b && n > 0
    ensures a / n <= b / n
  {
    DivisionBounds(a, n);
    DivisionBounds(b, n);
    TimesMonotone(n, b / n + 1, a / n);
  }

  /** What wraps around falls short by at least 2^64. */
  lemma WrappedFalls(p: int)
    requires p > MAX_INT64
    ensures Wrapped(p) <= p - TWO_TO_THE_64
  {}

  lemma WrappedQuotient(p: int, n: int)
    requires MAX_INT64 < p && 0 < n <= MAX_INT64
    ensures Quotient(Wrapped(p), n) < p / n
  {
    WrappedFalls(p);
    var w := Wrapped(p);
    DivisionMonotone(n, p, n);
    QuotientIs(n, n, 1);
    if w >= 0 {
      DivisionMonotone(w, p - n, n);
      DivisionBounds(p, n);
      QuotientIs(p - n, n, p / n - 1);
    } else {
      DivisionMonotone(0, -w, n);
    }
  }

  // ---- Start offsets ---------------------------------------------------------------

  lemma ProductPositive(a: int, b: int)
    requires a >= 0 && b >= 0
    ensures a * b >= 0
  {}

  /** The offset is the i-th of n equal parts of the interval, rounded down,
      exactly when the product does not overflow. */
  lemma OffsetExact(interval: int, i: nat, n: nat)
    requires 0 < interval <= MAX_INT64 && i < n <= MAX_INT64
    ensures Offset(interval, i, n) == interval * i / n <==> interval * i <= MAX_INT64
  {
    hide Wrapped, Quotient;
    ProductPositive(interval, i);
    if interval * i <= MAX_INT64 {
      ExactWithoutOverflow(interval * i, n);
    } else {
      WrappedQuotient(interval * i, n);
    }
  }

  /** With an hour's interval the product overflows at target 2,562,048: its offset is
      negative, so the target fires at once instead of last. */
  lemma OffsetOverflows()
    ensures var hour, i := 3_600_000_000_000, 2_562_048;
            Offset(hour, i, i + 1) == -3_599_997_999_144 && hour * i / (i + 1) == 3_599_998_594_874
  {}

  lemma ExactWithoutOverflow(p: int, n: int)
    requires 0 <= p <= MAX_INT64 && n > 0
    ensures Quotient(Wrapped(p), n) == p / n
  {}

  lemma SharesFill(interval: int, i: nat, n: nat)
    requires i < n && interval > 0
    ensures 0 <= interval * i < interval * n
  {
    TimesMonotone(interval, 0, i);
    TimesMonotone(interval, i + 1, n);
    assert interval * (i + 1) == interval * i + interval;
  }

  /** No target waits a whole interval before its first ping, and none fires early. */
  lemma OffsetInInterval(interval: int, i: nat, n: nat)
    requires 0 < interval && i < n <= MAX_INT64 && interval * i <= MAX_INT64
    ensures 0 <= Offset(interval, i, n) < interval
    ensures i == 0 ==> Offset(interval, i, n) == 0
  {
    hide Wrapped, Quotient;
    SharesFill(interval, i, n);
    ExactWithoutOverflow(interval * i, n);
    var q := interval * i / n;
    DivisionBounds(interval * i, n);
    TimesMonotone(n, q + 1, 0);
    TimesMonotone(n, interval, q);
    QuotientIs(0, n, 0);
  }

  /** Adding one share moves a rounded quotient by a rounded share. */
  lemma ShareStep(a: int, share: int, n: int)
    requires n > 0
    ensures share / n <= (a + share) / n - a / n <= share / n + 1
  {
    var q, s := a / n, share / n;
    DivisionBounds(a, n);
    DivisionBounds(share, n);
    assert n * (q + s) == n * q + n * s;
    var rest := a + share - n * (q + s);
    if rest < n {
      QuotientIs(a + share, n, q + s);
    } else {
      assert n * (q + s + 1) == n * (q + s) + n;
      QuotientIs(a + share, n, q + s + 1);
    }
  }

  /** Targets of equal interval fire in order and evenly spaced: neighbouring
      offsets differ by interval/n rounded down, or by one more. */
  lemma OffsetGap(interval: int, i: nat, n: nat)
    requires 0 < interval && i + 1 < n <= MAX_INT64 && interval * (i + 1) <= MAX_INT64
    ensures interval / n <= Offset(interval, i + 1, n) - Offset(interval, i, n) <= interval / n + 1
  {
    hide Wrapped, Quotient;
    ProductPositive(interval, i);
    assert interval * (i + 1) == interval * i + interval;
    ExactWithoutOverflow(interval * i, n);
    ExactWithoutOverflow(interval * (i + 1), n);
    ShareStep(interval * i, interval, n);
  }

  /** So does the way from the last offset to the first one of the next round. */
  lemma LastGap(interval: int, n: nat)
    requires 0 < interval && 0 < n <= MAX_INT64 && interval * (n - 1) <= MAX_INT64
    ensures interval / n <= interval - Offset(interval, n - 1, n) <= interval / n + 1
  {
    hide Wrapped, Quotient;
    ProductPositive(interval, n - 1);
    ExactWithoutOverflow(interval * (n - 1), n);
    ShareStep(interval * (n - 1), interval, n);
    assert interval * (n - 1) + interval == n * interval;
    QuotientIs(n * interval, n, interval);
  }

  // ---- The local start loop ----------------------------------------------------------

  /** What the loop of `start` sleeps while it starts `count` pingers: a negative
      pause is none. The total falls short of the interval by less than one
      nanosecond per pinger, so it never delays a round by an interval. */
  method StartPauses(maxInterval: int, count: nat) returns (slept: int)
    requires count > 0
    ensures maxInterval >= 0 ==> maxInterval - count < slept <= maxInterval
    ensures maxInterval < 0 ==> slept == 0
  {
    var splay := Quotient(maxInterval, count);
    slept := 0;
    for i := 0 to count
      invariant slept == i * if splay > 0 then splay else 0
    {
      slept := slept + if splay > 0 then splay else 0;
    }
    if maxInterval >= 0 {
      DivisionBounds(maxInterval, count);
      DivisionMonotone(0, maxInterval, count);
    } else {
      DivisionMonotone(0, -maxInterval, count);
    }
  }
}
