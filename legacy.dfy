/** The earlier free-function version of the engine.

    Players are not objects here: player `i` is described by `weights[i]`,
    `rules[i]` and a forecast grid shared by everybody. The logarithmic rule,
    the squared-error rule and the blend are the same definitions as in
    module Rules; the Brier rule is written with `(1 - p)^2` and is proved
    equal to the one there. The round driver keeps a running sum of the
    weighted answers and scores everybody with the Brier rule. */
module LegacyPredictions {
  import opened Rules
  import opened Players
  import opened Utils
  import Simulation

  /** Brier rule as written with `(1 - p)^2`. */
  function OldBrierRule(p: real, q: real): real {
    -(q * Square(1.0 - p) + (1.0 - q) * Square(p))
  }

  /** Both spellings of the Brier rule are the same function. */
  lemma OldBrierRuleAgrees(p: real, q: real)
    ensures OldBrierRule(p, q) == BrierRule(p, q)
  {
    assert Square(1.0 - p) == Square(p - 1.0);
  }

  /** Rule dispatch of the earlier version, with its own Brier rule. */
  function OldCalculateScore(p: real, q: real, rule: string, ln: real -> real): (r: Score)
    ensures r == CalculateScore(p, q, rule, ln)
  {
    OldBrierRuleAgrees(p, q);
    if rule == "log" then LogRule(p, q, ln)
    else if rule == "brier" then Fin(OldBrierRule(p, q))
    else Fin(QuadraticError(p, q))
  }

  /** The players that the parallel lists describe: player `k` has index
      `k`, weight `weights[k]`, rule `rules[k]` and the shared grid. */
  function Roster(weights: seq<real>, rules: seq<string>, n: nat, predictionValues: seq<real>): (r: seq<Player>)
    requires n <= |weights| && n <= |rules|
    ensures |r| == n
    ensures forall k :: 0 <= k < n ==> r[k] == Player(k, weights[k], rules[k], predictionValues)
    ensures IndicesAscend(r) && Simulation.WellIndexed(r)
  {
    seq(n, k requires 0 <= k < n => Player(k, weights[k], rules[k], predictionValues))
  }

  /** Left-to-right sum of `weights[k] * predictions[k]` for `k < i`. */
  function Weighted(weights: seq<real>, predictions: seq<real>, i: nat): real
    requires i <= |weights| && i <= |predictions|
  {
    if i == 0 then 0.0 else Weighted(weights, predictions, i - 1) + Product(weights[i - 1], predictions[i - 1])
  }

  /** Best response of player `i`, computed with the loops of the original;
      it is the same value as the best response of the corresponding player
      object, so it agrees with Players.Predict. */
  method CalculateBestPrediction(i: nat, currentPrediction: real, weights: seq<real>, rules: seq<string>, n: nat, q: real,
                                 predictionValues: seq<real>, ln: real -> real)
    returns (bestPrediction: real)
    requires i < n <= |weights| && n <= |rules|
    ensures bestPrediction == BestResponse(Roster(weights, rules, n, predictionValues)[i], currentPrediction,
                                           Roster(weights, rules, n, predictionValues), q, ln)
    decreases n - i, 2
  {
    ghost var players := Roster(weights, rules, n, predictionValues);
    ghost var player := players[i];
    ghost var bestIndex := -1;
    bestPrediction := 0.0;
    var maxScore := ScoreCandidate(i, 0.0, currentPrediction, weights, rules, n, q, predictionValues, ln);
    for k := 0 to |predictionValues|
      invariant -1 <= bestIndex < k
      invariant bestPrediction == Candidate(player, bestIndex)
      invariant maxScore == CandidateScore(player, bestPrediction, currentPrediction, players, q, ln)
      invariant FirstBestFrom(player, currentPrediction, players, q, ln, k, bestIndex)
             == FirstBestFrom(player, currentPrediction, players, q, ln, 0, -1)
    {
      var prediction := predictionValues[k];
      var currentScore := ScoreCandidate(i, prediction, currentPrediction, weights, rules, n, q, predictionValues, ln);
      if Greater(currentScore, maxScore) {
        maxScore := currentScore;
        bestPrediction := prediction;
        bestIndex := k;
      }
    }
  }

  /** Score of one candidate of player `i`: the last player adds only its
      own weighted forecast, every other player also runs the lookahead. */
  method ScoreCandidate(i: nat, prediction: real, currentPrediction: real, weights: seq<real>, rules: seq<string>, n: nat, q: real,
                        predictionValues: seq<real>, ln: real -> real)
    returns (score: Score)
    requires i < n <= |weights| && n <= |rules|
    ensures score == CandidateScore(Roster(weights, rules, n, predictionValues)[i], prediction, currentPrediction,
                                    Roster(weights, rules, n, predictionValues), q, ln)
    decreases n - i, 1
  {
    ghost var players := Roster(weights, rules, n, predictionValues);
    var start := currentPrediction + Product(weights[i], prediction);
    var finalPrediction := start;
    if i != n - 1 {
      finalPrediction := LookaheadFrom(i, start, weights, rules, n, q, predictionValues, ln);
    } else {
      LookaheadPastEnd(players, i + 1, start, q, ln);
    }
    CandidateScoreUnfold(players[i], prediction, currentPrediction, players, q, ln);
    score := OldCalculateScore(prediction, F(finalPrediction, q), rules[i], ln);
  }

  /** The lookahead of player `i`: players `i+1 .. n-1` answer in order, each
      against the running aggregate. */
  method LookaheadFrom(i: nat, start: real, weights: seq<real>, rules: seq<string>, n: nat, q: real,
                       predictionValues: seq<real>, ln: real -> real)
    returns (finalPrediction: real)
    requires i < n <= |weights| && n <= |rules|
    ensures finalPrediction == Lookahead(Roster(weights, rules, n, predictionValues), i + 1, start, q, ln)
    decreases n - i, 0
  {
    ghost var players := Roster(weights, rules, n, predictionValues);
    finalPrediction := start;
    for j := i + 1 to n
      invariant Lookahead(players, j, finalPrediction, q, ln) == Lookahead(players, i + 1, start, q, ln)
    {
      var response := CalculateBestPrediction(j, finalPrediction, weights, rules, n, q, predictionValues, ln);
      LookaheadStep(players, j, finalPrediction, q, ln);
      finalPrediction := finalPrediction + Product(response, weights[j]);
    }
  }

  /** One round with `n` players who all use the Brier rule. Player `i`
      answers against the running sum of the weighted answers before it;
      the market forecast is the weighted sum of all answers. */
  method Simulate(n: nat, weights: seq<real>, predictionValues: seq<real>, q: real, ln: real -> real)
    returns (scores: seq<Score>, predictions: seq<real>, finalPrediction: real, marketPrediction: real)
    requires n <= |weights|
    ensures |predictions| == n && |scores| == n
    ensures forall i :: 0 <= i < n ==>
      predictions[i] == BestResponse(Roster(weights, EqualRules(n, "brier"), n, predictionValues)[i],
                                     Weighted(weights, predictions, i),
                                     Roster(weights, EqualRules(n, "brier"), n, predictionValues), q, ln)
    ensures marketPrediction == Weighted(weights, predictions, n)
    ensures finalPrediction == F(marketPrediction, q)
    ensures forall i :: 0 <= i < n ==> scores[i] == Fin(BrierRule(predictions[i], finalPrediction))
  {
    var rules := EqualRules(n, "brier");
    ghost var players := Roster(weights, rules, n, predictionValues);
    scores := seq(n, _ => Fin(0.0));
    predictions := [];
    var currentPrediction := 0.0;
    for i := 0 to n
      invariant |predictions| == i
      invariant currentPrediction == Weighted(weights, predictions, i)
      invariant AnswersFollow(players, weights, predictions, q, ln)
    {
      var p := CalculateBestPrediction(i, currentPrediction, weights, rules, n, q, predictionValues, ln);
      AnswersFollowExtend(players, weights, predictions, p, q, ln);
      WeightedPrefix(weights, predictions, p, i);
      predictions := predictions + [p];
      assert Product(p, weights[i]) == Product(weights[i], p);
      currentPrediction := currentPrediction + Product(p, weights[i]);
    }
    marketPrediction := 0.0;
    for i := 0 to n
      invariant marketPrediction == Weighted(weights, predictions, i)
    {
      marketPrediction := marketPrediction + Product(weights[i], predictions[i]);
    }
    finalPrediction := F(marketPrediction, q);
    forall i | 0 <= i < n
      ensures predictions[i] == BestResponse(players[i], Weighted(weights, predictions, i), players, q, ln)
    {
      assert AnswerFollows(players, weights, predictions, i, q, ln);
    }
    for i := 0 to n
      invariant |scores| == n
      invariant forall k :: 0 <= k < i ==> scores[k] == Fin(BrierRule(predictions[k], finalPrediction))
    {
      scores := scores[i := OldCalculateScore(predictions[i], finalPrediction, rules[i], ln)];
    }
  }

  /** Every answer so far is the best response of its player against the
      weighted sum of the answers before it. */
  predicate AnswersFollow(players: seq<Player>, weights: seq<real>, predictions: seq<real>, q: real, ln: real -> real)
    requires IndicesAscend(players) && |predictions| <= |players| && |predictions| <= |weights|
  {
    forall k :: 0 <= k < |predictions| ==> AnswerFollows(players, weights, predictions, k, q, ln)
  }

  /** Answer `k` is the best response of player `k` against the weighted
      sum of the answers before it. */
  predicate AnswerFollows(players: seq<Player>, weights: seq<real>, predictions: seq<real>, k: nat, q: real, ln: real -> real)
    requires IndicesAscend(players) && k < |predictions| <= |players| && |predictions| <= |weights|
  {
    predictions[k] == BestResponse(players[k], Weighted(weights, predictions, k), players, q, ln)
  }

  lemma AnswersFollowExtend(players: seq<Player>, weights: seq<real>, predictions: seq<real>, p: real, q: real, ln: real -> real)
    requires IndicesAscend(players) && |predictions| < |players| && |predictions| < |weights|
    requires AnswersFollow(players, weights, predictions, q, ln)
    requires p == BestResponse(players[|predictions|], Weighted(weights, predictions, |predictions|), players, q, ln)
    ensures AnswersFollow(players, weights, predictions + [p], q, ln)
  {
    var i := |predictions|;
    var next := predictions + [p];
    WeightedPrefix(weights, predictions, p, i);
    forall k | 0 <= k < |next|
      ensures next[k] == BestResponse(players[k], Weighted(weights, next, k), players, q, ln)
    {
      if k < i {
        assert AnswerFollows(players, weights, predictions, k, q, ln);
        assert next[k] == predictions[k];
      }
    }
    assert forall k :: 0 <= k < |next| ==> AnswerFollows(players, weights, next, k, q, ln);
  }

  /** Appending an answer leaves the earlier partial sums unchanged and
      adds its weighted value to the full one. */
  lemma WeightedPrefix(weights: seq<real>, predictions: seq<real>, p: real, i: nat)
    requires |predictions| == i < |weights|
    ensures forall k :: 0 <= k <= i ==> Weighted(weights, predictions + [p], k) == Weighted(weights, predictions, k)
    ensures Weighted(weights, predictions + [p], i + 1) == Weighted(weights, predictions, i) + Product(weights[i], p)
  {
    forall k | 0 <= k <= i
      ensures Weighted(weights, predictions + [p], k) == Weighted(weights, predictions, k)
    {
      WeightedAgree(weights, predictions + [p], predictions, k);
    }
  }

  lemma {:induction false} WeightedAgree(weights: seq<real>, a: seq<real>, b: seq<real>, k: nat)
    requires k <= |weights| && k <= |a| && k <= |b|
    requires a[..k] == b[..k]
    ensures Weighted(weights, a, k) == Weighted(weights, b, k)
  {
    if k > 0 {
      assert a[k - 1] == a[..k][k - 1] && b[k - 1] == b[..k][k - 1];
      assert a[..k - 1] == a[..k][..k - 1] && b[..k - 1] == b[..k][..k - 1];
      WeightedAgree(weights, a, b, k - 1);
    }
  }

  /** The market sum over the player objects of a roster is the same
      weighted sum as the one over the parallel lists. */
  lemma {:induction false} MarketMatchesWeighted(weights: seq<real>, rules: seq<string>, n: nat, predictionValues: seq<real>, predictions: seq<real>)
    requires n <= |weights| && n <= |rules| && |predictions| == n
    ensures Simulation.Market(Roster(weights, rules, n, predictionValues), predictions) == Weighted(weights, predictions, n)
  {
    if n > 0 {
      var players := Roster(weights, rules, n, predictionValues);
      assert players[..n - 1] == Roster(weights, rules, n - 1, predictionValues);
      MarketMatchesWeighted(weights, rules, n - 1, predictionValues, predictions[..n - 1]);
      WeightedAgree(weights, predictions, predictions[..n - 1], n - 1);
    }
  }
}
