/**
 * `sum`, `min` and `max` over lists of floats (as reals), and the bounds an
 * average keeps.
 */
module Numbers {

  function Sum(xs: seq<real>): real {
    if |xs| == 0 then 0.0 else Sum(xs[..|xs| - 1]) + xs[|xs| - 1]
  }

  /** `min(xs)`. */
  function Min(xs: seq<real>): (m: real)
    requires |xs| > 0
    ensures m in xs && forall x :: x in xs ==> m <= x
  {
    if |xs| == 1 then xs[0]
    else
      var rest := Min(xs[1..]);
      assert forall x :: x in xs ==> x == xs[0] || x in xs[1..];
      if xs[0] <= rest then xs[0] else rest
  }

  /** `max(xs)`. */
  function Max(xs: seq<real>): (m: real)
    requires |xs| > 0
    ensures m in xs && forall x :: x in xs ==> x <= m
  {
    if |xs| == 1 then xs[0]
    else
      var rest := Max(xs[1..]);
      assert forall x :: x in xs ==> x == xs[0] || x in xs[1..];
      if xs[0] >= rest then xs[0] else rest
  }

  /** A sum of values between `lo` and `hi` lies between `lo` and `hi` times their number. */
  lemma {:induction false} SumBounds(xs: seq<real>, lo: real, hi: real)
    requires forall x :: x in xs ==> lo <= x <= hi
    ensures lo * |xs| as real <= Sum(xs) <= hi * |xs| as real
  {
    if |xs| > 0 {
      var init := xs[..|xs| - 1];
      forall x | x in init ensures lo <= x <= hi {
        assert x in xs;
      }
      SumBounds(init, lo, hi);
      assert xs[|xs| - 1] in xs;
    }
  }

  /** A quotient by a positive number keeps the bounds the dividend has in its multiples. */
  lemma QuotientBetween(total: real, n: real, lo: real, hi: real)
    requires n > 0.0 && lo * n <= total <= hi * n
    ensures lo <= total / n <= hi
  {
    var q := total / n;
    assert q * n == total;
    if q < lo {
      assert false;
    }
    if q > hi {
      assert false;
    }
  }

  /** The average of values between `lo` and `hi` lies between them too. */
  lemma AverageWithin(xs: seq<real>, lo: real, hi: real)
    requires |xs| > 0 && forall x :: x in xs ==> lo <= x <= hi
    ensures lo <= Sum(xs) / |xs| as real <= hi
  {
    SumBounds(xs, lo, hi);
    QuotientBetween(Sum(xs), |xs| as real, lo, hi);
  }

  /** The average lies between the minimum `lo` and the maximum `hi`. */
  lemma AverageBetween(xs: seq<real>, lo: real, hi: real)
    requires |xs| > 0 && lo == Min(xs) && hi == Max(xs)
    ensures lo <= Sum(xs) / |xs| as real <= hi
  {
    AverageWithin(xs, lo, hi);
  }
}
