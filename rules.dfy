/** Scoring rules and the outcome blend of the prediction market.

    Forecasts and probabilities are exact reals. A score is either a finite
    real or negative infinity, which the logarithmic rule uses as its
    catastrophic penalty. Higher scores are better. The natural logarithm is
    not modelled: every operation that may reach the logarithmic rule takes it
    as a parameter `ln`. */
module Rules {

  /** A score: negative infinity or a finite real. */
  datatype Score = NegInf | Fin(value: real)

  /** Strict comparison of scores, as `>` on floats: nothing is greater than
      a finite score except a larger finite score, and negative infinity is
      greater than nothing (not even itself). */
  predicate Greater(a: Score, b: Score) {
    a.Fin? && (b.NegInf? || a.value > b.value)
  }

  /** `a` is at least as good as `b`. */
  predicate AtLeast(a: Score, b: Score) {
    !Greater(b, a)
  }

  lemma GreaterAtLeast(a: Score, b: Score, c: Score)
    requires Greater(a, b) && AtLeast(b, c)
    ensures Greater(a, c)
  {
  }

  /** Weight of the market aggregate in the outcome blend. */
  const C: real := 0.1

  /** Rounding to two decimals, half-up on exact reals. */
  function Round2(x: real): (r: real)
    ensures 100.0 * r - 0.5 <= 100.0 * x < 100.0 * r + 0.5
    ensures (100.0 * r).Floor as real == 100.0 * r
  {
    (100.0 * x + 0.5).Floor as real / 100.0
  }

  /** Rounding to four decimals, half-up on exact reals. */
  function Round4(x: real): (r: real)
    ensures 10000.0 * r - 0.5 <= 10000.0 * x < 10000.0 * r + 0.5
    ensures (10000.0 * r).Floor as real == 10000.0 * r
  {
    (10000.0 * x + 0.5).Floor as real / 10000.0
  }

  /** Logarithmic rule. A certain forecast contradicted by an uncertain
      outcome is infinitely bad; a certain forecast that matches a certain
      outcome scores exactly 0. A certain forecast against the opposite
      certain outcome takes the general formula, whose `ln(0)` term is
      negative infinity (and whose other term is `0 * ln(1) = 0`), so it is
      negative infinity too. */
  function LogRule(p: real, q: real, ln: real -> real): (r: Score)
    ensures (p == 0.0 || p == 1.0) && q != 0.0 && q != 1.0 ==> r == NegInf
    ensures q == p && (q == 0.0 || q == 1.0) ==> r == Fin(0.0)
    ensures p == 0.0 || p == 1.0 ==> (r == NegInf <==> p != q)
    ensures p != 0.0 && p != 1.0 ==> r.Fin?
  {
    if (p == 0.0 || p == 1.0) && q != 0.0 && q != 1.0 then NegInf
    else if q == p && (q == 0.0 || q == 1.0) then Fin(0.0)
    else if p == 0.0 || p == 1.0 then NegInf
    else Fin(Round4(q * ln(p) + (1.0 - q) * ln(1.0 - p)))
  }

  /** Quadratic (Brier) rule; it is the negated squared error shifted down
      by the variance `q (1 - q)` of the outcome. */
  function BrierRule(p: real, q: real): (r: real)
    ensures r == -Square(p - q) - Product(q, 1.0 - q)
  {
    -(q * Square(p - 1.0) + (1.0 - q) * Square(p))
  }

  /** Negated squared error. */
  function QuadraticError(p: real, q: real): real
  {
    -Square(p - q)
  }

  /** The realised probability: a 10%/90% blend of the market aggregate `p`
      and the true probability `q`, rounded to hundredths. */
  function F(p: real, q: real): (r: real)
    ensures 0.0 <= p <= 1.0 && 0.0 <= q <= 1.0 ==> 0.0 <= r <= 1.0
    ensures (100.0 * r).Floor as real == 100.0 * r
    ensures 100.0 * r - 0.5 <= 100.0 * (C * p + (1.0 - C) * q) < 100.0 * r + 0.5
  {
    Round2(C * p + (1.0 - C) * q)
  }

  /** Score of forecast `p` against realised probability `q` under the rule
      named `rule`; every name other than "log" and "brier" is the squared
      error rule. */
  function CalculateScore(p: real, q: real, rule: string, ln: real -> real): (r: Score)
    ensures rule == "log" ==> r == LogRule(p, q, ln)
    ensures rule == "brier" ==> r == Fin(BrierRule(p, q))
    ensures rule != "log" && rule != "brier" ==> r == Fin(QuadraticError(p, q))
    ensures rule != "log" ==> r.Fin?
  {
    if rule == "log" then LogRule(p, q, ln)
    else if rule == "brier" then Fin(BrierRule(p, q))
    else Fin(QuadraticError(p, q))
  }

  /* Squares and products of two variables are wrapped in functions so
     that the solver treats them as opaque terms unless a lemma says more;
     `Product(a, b)` is simply `a * b`. */
  function Square(x: real): real {
    x * x
  }

  function Product(a: real, b: real): real {
    a * b
  }

  lemma ProductPositive(a: real, b: real)
    requires (a > 0.0 && b > 0.0) || (a < 0.0 && b < 0.0)
    ensures Product(a, b) > 0.0
  {
  }

  lemma SquareSign(x: real)
    ensures Square(x) >= 0.0
    ensures x != 0.0 ==> Square(x) > 0.0
    ensures x == 0.0 ==> Square(x) == 0.0
  {
    if x != 0.0 {
      ProductPositive(x, x);
      assert Square(x) == Product(x, x);
    }
  }

  /** The Brier rule is strictly proper: on a probability `q`, the truthful
      forecast `q` scores at most 0 and strictly more than every other
      forecast. */
  lemma BrierStrictlyProper(p: real, q: real)
    requires 0.0 <= q <= 1.0
    ensures BrierRule(q, q) <= 0.0
    ensures BrierRule(p, q) <= BrierRule(q, q)
    ensures p != q ==> BrierRule(p, q) < BrierRule(q, q)
  {
    BrierGap(p, q);
    SquareSign(p - q);
    VarianceNonNegative(q);
  }

  /** The Brier loss of `p` beyond that of the truthful forecast is the
      squared error of `p`. */
  lemma BrierGap(p: real, q: real)
    ensures BrierRule(q, q) == -Product(q, 1.0 - q)
    ensures BrierRule(q, q) - BrierRule(p, q) == Square(p - q)
  {
    SquareSign(q - q);
  }

  lemma VarianceNonNegative(q: real)
    requires 0.0 <= q <= 1.0
    ensures Product(q, 1.0 - q) >= 0.0
  {
    if 0.0 < q < 1.0 {
      ProductPositive(q, 1.0 - q);
    } else if q == 0.0 {
      assert Product(q, 1.0 - q) == Product(0.0, 1.0);
    } else {
      assert Product(q, 1.0 - q) == Product(1.0, 0.0);
    }
  }

  /** The squared-error rule never rewards a forecast above 0, and it gives
      exactly 0 to the forecast that equals the realised probability and to
      no other. */
  lemma QuadraticErrorPeak(p: real, q: real)
    ensures QuadraticError(p, q) <= 0.0
    ensures QuadraticError(p, q) == 0.0 <==> p == q
  {
    SquareSign(p - q);
  }

  /** Under every rule other than the logarithmic one, the truthful forecast
      is strictly the best score. */
  lemma CalculateScoreProper(p: real, q: real, rule: string, ln: real -> real)
    requires 0.0 <= q <= 1.0
    requires rule != "log"
    ensures CalculateScore(q, q, rule, ln).value <= 0.0
    ensures AtLeast(CalculateScore(q, q, rule, ln), CalculateScore(p, q, rule, ln))
    ensures p != q ==> Greater(CalculateScore(q, q, rule, ln), CalculateScore(p, q, rule, ln))
  {
    if rule == "brier" {
      BrierStrictlyProper(p, q);
    } else {
      QuadraticErrorPeak(p, q);
      QuadraticErrorPeak(q, q);
    }
  }

  lemma Round2Monotone(x: real, y: real)
    requires x <= y
    ensures Round2(x) <= Round2(y)
  {
    assert (100.0 * x + 0.5).Floor <= (100.0 * y + 0.5).Floor;
  }

  /** The outcome blend is monotone non-decreasing in both arguments. */
  lemma FMonotone(p1: real, q1: real, p2: real, q2: real)
    requires p1 <= p2 && q1 <= q2
    ensures F(p1, q1) <= F(p2, q2)
  {
    Round2Monotone(C * p1 + (1.0 - C) * q1, C * p2 + (1.0 - C) * q2);
  }
}
