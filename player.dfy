/** The perfect-information player and its backward-induction best response.

    A player chooses its forecast by trying 0 and then every value of its
    forecast grid in order. For each candidate it asks every later player, in
    index order, for that player's own best response against the running
    weighted aggregate, blends the final aggregate with the true probability,
    and scores the candidate under its own rule. It keeps the earliest
    candidate with the highest score: a later candidate replaces the leader
    only when its score is strictly greater.

    The reference definition is the mutually recursive family BestResponse /
    FirstBestFrom / CandidateScore / Lookahead; the method Predict computes
    the same value with the loops of the original and is proved equal to it. */
module Players {
  import opened Rules

  /** A player: its position in the turn order, the weight of its forecast in
      the market aggregate, the name of its scoring rule and its forecast
      grid. Players are never updated while a round is played. */
  datatype Player = Player(index: nat, weight: real, rule: string, predictionValues: seq<real>)

  /** No player sits before its own index. The lookahead of a player only
      consults list positions after its index, so under this condition every
      nested call is made by a player with a strictly larger index and the
      recursion ends. */
  predicate IndicesAscend(players: seq<Player>) {
    forall j :: 0 <= j < |players| ==> players[j].index >= j
  }

  /** Number of list positions from the player's index to the end. */
  function Rank(player: Player, players: seq<Player>): nat {
    if player.index < |players| then |players| - player.index else 0
  }

  /** Termination measure of a lookahead that starts at position `j`. */
  function LookRank(players: seq<Player>, j: nat): nat {
    if j <= |players| then |players| - j + 1 else 0
  }

  /** The forecast tried as candidate `k`: -1 stands for the initial 0,
      `k >= 0` for the grid value at position `k`. */
  function Candidate(player: Player, k: int): real
    requires k < |player.predictionValues|
  {
    if k < 0 then 0.0 else player.predictionValues[k]
  }

  /** The aggregate after players `j .. n-1` have answered in index order:
      each later player gives its own best response against the aggregate
      that already includes the weighted answers of the players before it. */
  function Lookahead(players: seq<Player>, j: nat, acc: real, q: real, ln: real -> real): real
    requires IndicesAscend(players)
    decreases LookRank(players, j), 0, 0
  {
    if j >= |players| then acc
    else Lookahead(players, j + 1, acc + Product(BestResponse(players[j], acc, players, q, ln), players[j].weight), q, ln)
  }

  /** The score the player expects for forecast `v`: its own contribution is
      added to the aggregate `cur`, every later player answers, and the
      blended outcome is scored under the player's rule. */
  function CandidateScore(player: Player, v: real, cur: real, players: seq<Player>, q: real, ln: real -> real): Score
    requires IndicesAscend(players)
    decreases Rank(player, players), 1, 0
  {
    CalculateScore(v, F(Lookahead(players, player.index + 1, cur + Product(player.weight, v), q, ln), q), player.rule, ln)
  }

  /** Scan of the grid from position `i` on, with candidate `best` leading:
      a grid value takes the lead only when its score is strictly greater than
      the leader's. Returns the candidate leading at the end. */
  function FirstBestFrom(player: Player, cur: real, players: seq<Player>, q: real, ln: real -> real, i: nat, best: int): (r: int)
    requires IndicesAscend(players)
    requires i <= |player.predictionValues|
    requires -1 <= best < |player.predictionValues|
    ensures r == best || i <= r < |player.predictionValues|
    decreases Rank(player, players), 2, |player.predictionValues| - i
  {
    if i == |player.predictionValues| then best
    else if Greater(CandidateScore(player, player.predictionValues[i], cur, players, q, ln),
                    CandidateScore(player, Candidate(player, best), cur, players, q, ln))
    then FirstBestFrom(player, cur, players, q, ln, i + 1, i)
    else FirstBestFrom(player, cur, players, q, ln, i + 1, best)
  }

  /** The player's best response to the aggregate `cur` of the earlier
      players: 0 or one of its grid values. */
  function BestResponse(player: Player, cur: real, players: seq<Player>, q: real, ln: real -> real): (r: real)
    requires IndicesAscend(players)
    ensures r == 0.0 || r in player.predictionValues
    decreases Rank(player, players), 3, 0
  {
    Candidate(player, FirstBestFrom(player, cur, players, q, ln, 0, -1))
  }

  /** The best response, computed as the original does: the incumbent 0 is
      scored first, then every grid value in order, and the first grid value
      whose score is strictly greater than the best so far takes the lead. */
  method Predict(player: Player, currentPrediction: real, players: seq<Player>, q: real, ln: real -> real)
    returns (bestPrediction: real)
    requires IndicesAscend(players)
    ensures bestPrediction == BestResponse(player, currentPrediction, players, q, ln)
    decreases Rank(player, players), 2
  {
    var values := player.predictionValues;
    ghost var bestIndex := -1;
    bestPrediction := 0.0;
    var maxScore := ScoreCandidate(player, 0.0, currentPrediction, players, q, ln);
    for i := 0 to |values|
      invariant -1 <= bestIndex < i
      invariant bestPrediction == Candidate(player, bestIndex)
      invariant maxScore == CandidateScore(player, bestPrediction, currentPrediction, players, q, ln)
      invariant FirstBestFrom(player, currentPrediction, players, q, ln, i, bestIndex)
             == FirstBestFrom(player, currentPrediction, players, q, ln, 0, -1)
    {
      var prediction := values[i];
      var currentScore := ScoreCandidate(player, prediction, currentPrediction, players, q, ln);
      if Greater(currentScore, maxScore) {
        maxScore := currentScore;
        bestPrediction := prediction;
        bestIndex := i;
      }
    }
  }

  /** The score of one candidate as the original computes it: the last player
      adds its own weighted forecast to the aggregate, every other player also
      runs the lookahead; for the incumbent 0 the aggregate is left as it is. */
  method ScoreCandidate(player: Player, prediction: real, currentPrediction: real, players: seq<Player>, q: real, ln: real -> real)
    returns (score: Score)
    requires IndicesAscend(players)
    ensures score == CandidateScore(player, prediction, currentPrediction, players, q, ln)
    decreases Rank(player, players), 1
  {
    var start := currentPrediction + Product(player.weight, prediction);
    var finalPrediction := start;
    if player.index != |players| - 1 {
      finalPrediction := LookaheadFrom(player, start, players, q, ln);
    } else {
      LookaheadPastEnd(players, player.index + 1, start, q, ln);
    }
    CandidateScoreUnfold(player, prediction, currentPrediction, players, q, ln);
    score := CalculateScore(prediction, F(finalPrediction, q), player.rule, ln);
  }

  /** The lookahead loop of a non-last player: starting from the aggregate
      `start`, each later player in index order adds its weighted best
      response to the running aggregate. */
  method LookaheadFrom(player: Player, start: real, players: seq<Player>, q: real, ln: real -> real)
    returns (finalPrediction: real)
    requires IndicesAscend(players)
    ensures finalPrediction == Lookahead(players, player.index + 1, start, q, ln)
    decreases Rank(player, players), 0
  {
    var n := |players|;
    finalPrediction := start;
    var j := player.index + 1;
    while j < n
      invariant player.index + 1 <= j
      invariant Lookahead(players, j, finalPrediction, q, ln) == Lookahead(players, player.index + 1, start, q, ln)
    {
      var response := Predict(players[j], finalPrediction, players, q, ln);
      LookaheadStep(players, j, finalPrediction, q, ln);
      finalPrediction := finalPrediction + Product(response, players[j].weight);
      j := j + 1;
    }
  }

  /** For the last player (and any player whose index is past the end) there
      is nobody left to consult: a candidate is scored against the blend of
      the current aggregate plus the player's own weighted forecast. */
  lemma LastPlayerScore(player: Player, v: real, cur: real, players: seq<Player>, q: real, ln: real -> real)
    requires IndicesAscend(players)
    requires player.index + 1 >= |players|
    ensures CandidateScore(player, v, cur, players, q, ln)
         == CalculateScore(v, F(cur + Product(player.weight, v), q), player.rule, ln)
  {
    LookaheadPastEnd(players, player.index + 1, cur + Product(player.weight, v), q, ln);
  }

  /** The incumbent 0 is scored against the lookahead from the current
      aggregate itself: its own weighted contribution is 0. */
  lemma IncumbentScore(player: Player, cur: real, players: seq<Player>, q: real, ln: real -> real)
    requires IndicesAscend(players)
    ensures CandidateScore(player, 0.0, cur, players, q, ln)
         == CalculateScore(0.0, F(Lookahead(players, player.index + 1, cur, q, ln), q), player.rule, ln)
  {
    assert Product(player.weight, 0.0) == 0.0;
    CandidateScoreUnfold(player, 0.0, cur, players, q, ln);
  }

  lemma CandidateScoreUnfold(player: Player, v: real, cur: real, players: seq<Player>, q: real, ln: real -> real)
    requires IndicesAscend(players)
    ensures CandidateScore(player, v, cur, players, q, ln)
         == CalculateScore(v, F(Lookahead(players, player.index + 1, cur + Product(player.weight, v), q, ln), q), player.rule, ln)
  {
  }

  lemma LookaheadStep(players: seq<Player>, j: nat, acc: real, q: real, ln: real -> real)
    requires IndicesAscend(players)
    requires j < |players|
    ensures Lookahead(players, j, acc, q, ln)
         == Lookahead(players, j + 1, acc + Product(BestResponse(players[j], acc, players, q, ln), players[j].weight), q, ln)
  {
  }

  lemma LookaheadPastEnd(players: seq<Player>, j: nat, acc: real, q: real, ln: real -> real)
    requires IndicesAscend(players)
    requires j >= |players|
    ensures Lookahead(players, j, acc, q, ln) == acc
  {
  }

  /** Score of candidate `k` (-1 for the initial 0). */
  function ScoreOf(player: Player, cur: real, players: seq<Player>, q: real, ln: real -> real, k: int): Score
    requires IndicesAscend(players)
    requires k < |player.predictionValues|
  {
    CandidateScore(player, Candidate(player, k), cur, players, q, ln)
  }

  /** Candidate `best` is the first strict maximiser among 0 and the first
      `i` grid values: it scores at least as well as each of them, and
      strictly better than each one tried before it. */
  predicate LeadsUpTo(player: Player, cur: real, players: seq<Player>, q: real, ln: real -> real, i: nat, best: int)
    requires IndicesAscend(players)
    requires i <= |player.predictionValues| && -1 <= best < |player.predictionValues|
  {
    && (forall k :: -1 <= k < i ==> AtLeast(ScoreOf(player, cur, players, q, ln, best), ScoreOf(player, cur, players, q, ln, k)))
    && (forall k :: -1 <= k < best ==> Greater(ScoreOf(player, cur, players, q, ln, best), ScoreOf(player, cur, players, q, ln, k)))
  }

  /** Candidate `r` is the first strict maximiser of all candidates. */
  predicate FirstStrictMax(player: Player, cur: real, players: seq<Player>, q: real, ln: real -> real, r: int)
    requires IndicesAscend(players)
    requires -1 <= r < |player.predictionValues|
  {
    LeadsUpTo(player, cur, players, q, ln, |player.predictionValues|, r)
  }

  /** A grid value that beats the leader becomes the first strict maximiser
      of the candidates up to and including itself. */
  lemma NewLeader(player: Player, cur: real, players: seq<Player>, q: real, ln: real -> real, i: nat, best: int)
    requires IndicesAscend(players)
    requires i < |player.predictionValues| && -1 <= best < i
    requires LeadsUpTo(player, cur, players, q, ln, i, best)
    requires Greater(ScoreOf(player, cur, players, q, ln, i), ScoreOf(player, cur, players, q, ln, best))
    ensures LeadsUpTo(player, cur, players, q, ln, i + 1, i)
  {
    var next := ScoreOf(player, cur, players, q, ln, i);
    var lead := ScoreOf(player, cur, players, q, ln, best);
    forall k | -1 <= k < i
      ensures Greater(next, ScoreOf(player, cur, players, q, ln, k))
    {
      GreaterAtLeast(next, lead, ScoreOf(player, cur, players, q, ln, k));
    }
  }

  /** A grid value that does not beat the leader leaves it the first strict
      maximiser of the candidates up to and including that value. */
  lemma SameLeader(player: Player, cur: real, players: seq<Player>, q: real, ln: real -> real, i: nat, best: int)
    requires IndicesAscend(players)
    requires i < |player.predictionValues| && -1 <= best < i
    requires LeadsUpTo(player, cur, players, q, ln, i, best)
    requires !Greater(ScoreOf(player, cur, players, q, ln, i), ScoreOf(player, cur, players, q, ln, best))
    ensures LeadsUpTo(player, cur, players, q, ln, i + 1, best)
  {
  }

  /** The scan keeps its invariant: if the leader `best` is the first strict
      maximiser of the candidates before `i`, the scan's result is the first
      strict maximiser of all candidates. */
  lemma {:induction false} FirstBestFromIsFirstStrictMax(player: Player, cur: real, players: seq<Player>, q: real, ln: real -> real, i: nat, best: int)
    requires IndicesAscend(players)
    requires i <= |player.predictionValues| && -1 <= best < i
    requires LeadsUpTo(player, cur, players, q, ln, i, best)
    ensures FirstStrictMax(player, cur, players, q, ln, FirstBestFrom(player, cur, players, q, ln, i, best))
    decreases |player.predictionValues| - i
  {
    if i < |player.predictionValues| {
      assert Candidate(player, i) == player.predictionValues[i];
      if Greater(ScoreOf(player, cur, players, q, ln, i), ScoreOf(player, cur, players, q, ln, best)) {
        NewLeader(player, cur, players, q, ln, i, best);
        FirstBestFromIsFirstStrictMax(player, cur, players, q, ln, i + 1, i);
      } else {
        SameLeader(player, cur, players, q, ln, i, best);
        FirstBestFromIsFirstStrictMax(player, cur, players, q, ln, i + 1, best);
      }
    }
  }

  /** The best response is the first strict maximiser of the candidate
      scores, 0 first and then the grid in order. */
  lemma BestResponseIsFirstStrictMax(player: Player, cur: real, players: seq<Player>, q: real, ln: real -> real)
    requires IndicesAscend(players)
    ensures FirstStrictMax(player, cur, players, q, ln, FirstBestFrom(player, cur, players, q, ln, 0, -1))
    ensures BestResponse(player, cur, players, q, ln) == Candidate(player, FirstBestFrom(player, cur, players, q, ln, 0, -1))
  {
    FirstBestFromIsFirstStrictMax(player, cur, players, q, ln, 0, -1);
  }

  /** At most one candidate is a first strict maximiser, so the tie rule
      determines the best response. */
  lemma FirstStrictMaxUnique(player: Player, cur: real, players: seq<Player>, q: real, ln: real -> real, r1: int, r2: int)
    requires IndicesAscend(players)
    requires -1 <= r1 < |player.predictionValues| && -1 <= r2 < |player.predictionValues|
    requires FirstStrictMax(player, cur, players, q, ln, r1)
    requires FirstStrictMax(player, cur, players, q, ln, r2)
    ensures r1 == r2
  {
    LaterMaxBeatsEarlier(player, cur, players, q, ln, r1, r2);
    LaterMaxBeatsEarlier(player, cur, players, q, ln, r2, r1);
  }

  /** A first strict maximiser beats every earlier candidate, so no earlier
      candidate is one. */
  lemma LaterMaxBeatsEarlier(player: Player, cur: real, players: seq<Player>, q: real, ln: real -> real, r1: int, r2: int)
    requires IndicesAscend(players)
    requires -1 <= r1 < |player.predictionValues| && -1 <= r2 < |player.predictionValues|
    ensures r1 < r2 && FirstStrictMax(player, cur, players, q, ln, r2) ==> !FirstStrictMax(player, cur, players, q, ln, r1)
  {
    if r1 < r2 && FirstStrictMax(player, cur, players, q, ln, r2) {
      assert Greater(ScoreOf(player, cur, players, q, ln, r2), ScoreOf(player, cur, players, q, ln, r1));
      assert !AtLeast(ScoreOf(player, cur, players, q, ln, r1), ScoreOf(player, cur, players, q, ln, r2));
    }
  }

  /** The best response scores at least as well as 0 and as every grid
      value under the same lookahead. */
  lemma BestResponseOptimal(player: Player, cur: real, players: seq<Player>, q: real, ln: real -> real, v: real)
    requires IndicesAscend(players)
    requires v == 0.0 || v in player.predictionValues
    ensures AtLeast(CandidateScore(player, BestResponse(player, cur, players, q, ln), cur, players, q, ln),
                    CandidateScore(player, v, cur, players, q, ln))
  {
    BestResponseIsFirstStrictMax(player, cur, players, q, ln);
    var k := -1;
    if v != 0.0 {
      k :| 0 <= k < |player.predictionValues| && player.predictionValues[k] == v;
    }
    assert Candidate(player, k) == v;
    assert AtLeast(ScoreOf(player, cur, players, q, ln, FirstBestFrom(player, cur, players, q, ln, 0, -1)),
                   ScoreOf(player, cur, players, q, ln, k));
  }

  /** For the last player the best response maximises the score of
      `v` against the blend of `cur + weight * v`, over 0 and the grid. */
  lemma LastPlayerOptimal(player: Player, cur: real, players: seq<Player>, q: real, ln: real -> real, v: real)
    requires IndicesAscend(players)
    requires player.index == |players| - 1
    requires v == 0.0 || v in player.predictionValues
    ensures var r := BestResponse(player, cur, players, q, ln);
      AtLeast(CalculateScore(r, F(cur + Product(player.weight, r), q), player.rule, ln),
              CalculateScore(v, F(cur + Product(player.weight, v), q), player.rule, ln))
  {
    var r := BestResponse(player, cur, players, q, ln);
    BestResponseOptimal(player, cur, players, q, ln, v);
    LastPlayerScore(player, r, cur, players, q, ln);
    LastPlayerScore(player, v, cur, players, q, ln);
  }

  /** Two player lists of the same length that agree from position `j` on. */
  predicate SameFrom(players: seq<Player>, others: seq<Player>, j: int) {
    |players| == |others| && forall k :: 0 <= k < |players| && j <= k ==> players[k] == others[k]
  }

  /** A best response reads the player list only after the player's own
      index: earlier players influence it only through the aggregate `cur`. */
  lemma {:induction false} BestResponseFrame(player: Player, cur: real, players: seq<Player>, others: seq<Player>, q: real, ln: real -> real)
    requires IndicesAscend(players) && IndicesAscend(others)
    requires SameFrom(players, others, player.index + 1)
    ensures BestResponse(player, cur, players, q, ln) == BestResponse(player, cur, others, q, ln)
    decreases Rank(player, players), 3, 0
  {
    FirstBestFromFrame(player, cur, players, others, q, ln, 0, -1);
  }

  lemma {:induction false} FirstBestFromFrame(player: Player, cur: real, players: seq<Player>, others: seq<Player>, q: real, ln: real -> real, i: nat, best: int)
    requires IndicesAscend(players) && IndicesAscend(others)
    requires SameFrom(players, others, player.index + 1)
    requires i <= |player.predictionValues|
    requires -1 <= best < |player.predictionValues|
    ensures FirstBestFrom(player, cur, players, q, ln, i, best) == FirstBestFrom(player, cur, others, q, ln, i, best)
    decreases Rank(player, players), 2, |player.predictionValues| - i
  {
    if i < |player.predictionValues| {
      CandidateScoreFrame(player, player.predictionValues[i], cur, players, others, q, ln);
      CandidateScoreFrame(player, Candidate(player, best), cur, players, others, q, ln);
      FirstBestFromFrame(player, cur, players, others, q, ln, i + 1, i);
      FirstBestFromFrame(player, cur, players, others, q, ln, i + 1, best);
    }
  }

  lemma {:induction false} CandidateScoreFrame(player: Player, v: real, cur: real, players: seq<Player>, others: seq<Player>, q: real, ln: real -> real)
    requires IndicesAscend(players) && IndicesAscend(others)
    requires SameFrom(players, others, player.index + 1)
    ensures CandidateScore(player, v, cur, players, q, ln) == CandidateScore(player, v, cur, others, q, ln)
    decreases Rank(player, players), 1, 0
  {
    LookaheadFrame(players, others, player.index + 1, cur + Product(player.weight, v), q, ln);
    CandidateScoreUnfold(player, v, cur, players, q, ln);
    CandidateScoreUnfold(player, v, cur, others, q, ln);
  }

  lemma {:induction false} LookaheadFrame(players: seq<Player>, others: seq<Player>, j: nat, acc: real, q: real, ln: real -> real)
    requires IndicesAscend(players) && IndicesAscend(others)
    requires SameFrom(players, others, j)
    ensures Lookahead(players, j, acc, q, ln) == Lookahead(others, j, acc, q, ln)
    decreases LookRank(players, j), 0, 0
  {
    if j < |players| {
      var player := players[j];
      assert others[j] == player;
      BestResponseFrame(player, acc, players, others, q, ln);
      var next := acc + Product(BestResponse(player, acc, players, q, ln), player.weight);
      LookaheadFrame(players, others, j + 1, next, q, ln);
      LookaheadStep(players, j, acc, q, ln);
      LookaheadStep(others, j, acc, q, ln);
    } else {
      LookaheadPastEnd(players, j, acc, q, ln);
      LookaheadPastEnd(others, j, acc, q, ln);
    }
  }
}
