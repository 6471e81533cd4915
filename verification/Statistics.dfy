/** Sums over exact reals, and the deviation from the mean in the form in which
    services/analytics-service/internal/controller/service.go computes it. */
module Statistics {
  function Sum(xs: seq<real>): real {
    if xs == [] then 0.0 else Sum(xs[..|xs| - 1]) + xs[|xs| - 1]
  }

  function Abs(x: real): real {
    if x < 0.0 then -x else x
  }

  function Square(x: real): real {
    x * x
  }

  function SumSq(xs: seq<real>): real {
    if xs == [] then 0.0 else SumSq(xs[..|xs| - 1]) + Square(xs[|xs| - 1])
  }

  lemma SumSnoc(xs: seq<real>, x: real)
    ensures Sum(xs + [x]) == Sum(xs) + x && SumSq(xs + [x]) == SumSq(xs) + Square(x)
  {
    assert (xs + [x])[..|xs|] == xs;
  }

  lemma SumNext(xs: seq<real>, i: nat)
    requires i < |xs|
    ensures Sum(xs[..i + 1]) == Sum(xs[..i]) + xs[i] && SumSq(xs[..i + 1]) == SumSq(xs[..i]) + Square(xs[i])
  {
    assert xs[..i + 1] == xs[..i] + [xs[i]];
    SumSnoc(xs[..i], xs[i]);
  }

  lemma {:induction false} SumSqNonNegative(xs: seq<real>)
    ensures SumSq(xs) >= 0.0
  {
    if xs != [] {
      SumSqNonNegative(xs[..|xs| - 1]);
      SquareNonNegative(xs[|xs| - 1]);
    }
  }

  lemma SquareNonNegative(x: real)
    ensures Square(x) >= 0.0
  {
  }

  function Less(xs: seq<real>, c: real): (ys: seq<real>)
    ensures |ys| == |xs| && forall i | 0 <= i < |xs| :: ys[i] == xs[i] - c
  {
    seq(|xs|, i requires 0 <= i < |xs| => xs[i] - c)
  }

  /** The sum of squares `q` of `n` numbers with sum `s`, after each was lessened by `c`. */
  function Lessened(q: real, s: real, n: real, c: real): real {
    q - 2.0 * c * s + n * Square(c)
  }

  lemma OneMoreLessened(q: real, s: real, n: real, x: real, c: real)
    ensures Lessened(q, s, n, c) + Square(x - c) == Lessened(q + Square(x), s + x, n + 1.0, c)
  {
  }

  lemma {:induction false} SumSqLess(xs: seq<real>, c: real)
    ensures SumSq(Less(xs, c)) == Lessened(SumSq(xs), Sum(xs), |xs| as real, c)
  {
    if xs != [] {
      var xs', x := xs[..|xs| - 1], xs[|xs| - 1];
      SumSqLess(xs', c);
      assert Less(xs, c)[..|xs| - 1] == Less(xs', c);
      OneMoreLessened(SumSq(xs'), Sum(xs'), |xs'| as real, x, c);
      hide Lessened;
    }
  }

  function Mean(xs: seq<real>): real
    requires xs != []
  {
    Sum(xs) / |xs| as real
  }

  /** The mean of the squares less the square of the mean. */
  function Variance(xs: seq<real>): real
    requires xs != []
  {
    SumSq(xs) / |xs| as real - Square(Mean(xs))
  }

  lemma TimesVariance(n: real, q: real, s: real, v: real)
    requires n > 0.0 && v == q / n - Square(s / n)
    ensures Times(n, v) == Lessened(q, s, n, s / n)
  {
    var m := s / n;
    assert n * m == s;
    assert n * (q / n) == q;
    assert n * (m * m) == m * s;
  }

  lemma SquareIs(x: real)
    ensures Square(x) == x * x
  {
  }

  /** What the service computes from its two sums. */
  lemma VarianceOf(xs: seq<real>, n: real, mean: real, variance: real)
    requires xs != [] && n == |xs| as real && mean == Mean(xs) && variance == SumSq(xs) / n - mean * mean
    ensures variance == Variance(xs)
  {
    SquareIs(mean);
    hide Square, Mean, SumSq;
  }

  /** The variance is the mean square distance to the mean, so no root is ever taken of a negative. */
  lemma VarianceIsSpread(xs: seq<real>)
    requires xs != []
    ensures Times(|xs| as real, Variance(xs)) == SumSq(Less(xs, Mean(xs)))
    ensures Variance(xs) >= 0.0
  {
    hide Sum, SumSq, Less, Lessened, Square;
    SumSqLess(xs, Mean(xs));
    TimesVariance(|xs| as real, SumSq(xs), Sum(xs), Variance(xs));
    SumSqNonNegative(Less(xs, Mean(xs)));
    hide Variance, Times;
    SignOfFactor(|xs| as real, Variance(xs));
  }

  lemma SignOfFactor(n: real, v: real)
    requires n > 0.0 && Times(n, v) >= 0.0
    ensures v >= 0.0
  {
  }

  /** What is known of `math.Sqrt` on the numbers it is called with. */
  ghost predicate IsRoot(sqrt: real -> real) {
    forall v | v >= 0.0 :: sqrt(v) >= 0.0 && Square(sqrt(v)) == v
  }

  lemma RootOfZero(sqrt: real -> real)
    requires IsRoot(sqrt)
    ensures sqrt(0.0) == 0.0
  {
    assert Square(sqrt(0.0)) == 0.0;
    ZeroSquare(sqrt(0.0));
  }

  lemma ZeroSquare(r: real)
    requires Square(r) == 0.0
    ensures r == 0.0
  {
    assert Times(r, r) == 0.0;
    hide Times;
    if r > 0.0 {
      TimesPositive(r, r);
    } else if r < 0.0 {
      TimesNegative(r, r);
    }
  }

  /** A product whose factors the solver does not look into. */
  function Times(a: real, b: real): real {
    a * b
  }

  lemma TimesPositive(a: real, b: real)
    requires a > 0.0 && b > 0.0
    ensures Times(a, b) > 0.0
  {
  }

  lemma TimesNegative(a: real, b: real)
    requires a < 0.0 && b < 0.0
    ensures Times(a, b) > 0.0
  {
  }

  lemma SquarePositive(x: real)
    requires x != 0.0
    ensures Square(x) > 0.0
  {
    SquareNonNegative(x);
    hide Square;
    if Square(x) == 0.0 {
      ZeroSquare(x);
    }
  }
}
