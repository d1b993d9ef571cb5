/** Configuration helpers: uniform rule and weight assignments. */
module Utils {

  /** `n` copies of `x`, as the list repetition `[x] * n`. */
  function Repeat<T>(x: T, n: nat): (r: seq<T>)
    ensures |r| == n
    ensures forall i :: 0 <= i < n ==> r[i] == x
  {
    if n == 0 then [] else Repeat(x, n - 1) + [x]
  }

  /** The same scoring rule for each of `n` players. */
  function EqualRules(n: nat, rule: string): (r: seq<string>)
    ensures |r| == n
    ensures forall i :: 0 <= i < n ==> r[i] == rule
  {
    Repeat(rule, n)
  }

  /** The same weight `1/n` for each of `n` players; `1/n` is a division
      by zero when there are no players. */
  function EqualWeights(n: nat): (r: seq<real>)
    requires n >= 1
    ensures |r| == n
    ensures forall i :: 0 <= i < n ==> r[i] == 1.0 / n as real && r[i] > 0.0
  {
    Repeat(1.0 / n as real, n)
  }

  /** Left-to-right sum of a sequence of reals. */
  function Sum(s: seq<real>): real {
    if s == [] then 0.0 else Sum(s[..|s| - 1]) + s[|s| - 1]
  }

  lemma {:induction false} SumRepeat(x: real, n: nat)
    ensures Sum(Repeat(x, n)) == n as real * x
  {
    if n > 0 {
      var s := Repeat(x, n);
      assert s[..|s| - 1] == Repeat(x, n - 1);
      SumRepeat(x, n - 1);
    }
  }

  /** Equal weights form a probability distribution: they sum to exactly 1. */
  lemma EqualWeightsSumToOne(n: nat)
    requires n >= 1
    ensures Sum(EqualWeights(n)) == 1.0
  {
    var w := 1.0 / n as real;
    SumRepeat(w, n);
    assert n as real * w == 1.0;
  }
}
