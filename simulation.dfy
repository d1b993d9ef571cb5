/** One round of the market with a prediction vector.

    Every player, in list order, is handed a copy of the current prediction
    vector and writes its answer into the slot at its own index. The market
    forecast is the weighted sum of the slots, the realised probability is
    its blend with the true probability, and every player is scored with its
    own rule against it. How a player answers is a parameter `predict`: the
    round only fixes the order of the calls and what each call is shown. */
module Simulation {
  import opened Rules
  import opened Players

  datatype Option<T> = None | Some(value: T)

  /** The four results of a round. */
  datatype Round = Round(scores: seq<Score>, predictions: seq<real>, finalPrediction: real, marketPrediction: real)

  /** The initial prediction vector: `n` zeros. */
  function Zeros(n: nat): (r: seq<real>)
    ensures |r| == n
    ensures forall k :: 0 <= k < n ==> r[k] == 0.0
  {
    seq(n, _ => 0.0)
  }

  /** Every player's index is a slot of the prediction vector. */
  predicate InRange(players: seq<Player>) {
    forall i :: 0 <= i < |players| ==> players[i].index < |players|
  }

  /** The player at position `i` has index `i`. */
  predicate WellIndexed(players: seq<Player>) {
    forall i :: 0 <= i < |players| ==> players[i].index == i
  }

  /** The prediction vector after the turns of players `i .. n-1`, starting
      from `predictions`: each player sees the vector as the earlier turns
      left it and overwrites the slot at its index. */
  function Turns(players: seq<Player>, predict: (Player, seq<Player>, seq<real>) -> real, i: nat, predictions: seq<real>): (r: seq<real>)
    requires InRange(players) && |predictions| == |players| && i <= |players|
    ensures |r| == |players|
    decreases |players| - i
  {
    if i == |players| then predictions
    else Turns(players, predict, i + 1, predictions[players[i].index := predict(players[i], players, predictions)])
  }

  /** Left-to-right sum of `players[i].weight * predictions[i]`. */
  function Market(players: seq<Player>, predictions: seq<real>): real
    requires |predictions| == |players|
  {
    if players == [] then 0.0
    else Market(players[..|players| - 1], predictions[..|players| - 1])
         + Product(players[|players| - 1].weight, predictions[|players| - 1])
  }

  /** Left-to-right sum of the players' weights. */
  function TotalWeight(players: seq<Player>): real {
    if players == [] then 0.0 else TotalWeight(players[..|players| - 1]) + players[|players| - 1].weight
  }

  /** Plays one round. A player whose index is not a slot of the vector
      makes the round fail, as the out-of-range write does. */
  method Simulate(players: seq<Player>, q: real, predict: (Player, seq<Player>, seq<real>) -> real, ln: real -> real)
    returns (result: Option<Round>)
    ensures result.None? <==> !InRange(players)
    ensures result.Some? ==>
      var r := result.value;
      && r.predictions == Turns(players, predict, 0, Zeros(|players|))
      && r.marketPrediction == Market(players, r.predictions)
      && r.finalPrediction == F(r.marketPrediction, q)
      && |r.scores| == |players|
      && forall i :: 0 <= i < |players| ==>
           r.scores[i] == CalculateScore(r.predictions[i], r.finalPrediction, players[i].rule, ln)
  {
    var n := |players|;
    var predictions := Zeros(n);
    for i := 0 to n
      invariant |predictions| == n
      invariant forall k :: 0 <= k < i ==> players[k].index < n
      invariant InRange(players) ==> Turns(players, predict, i, predictions) == Turns(players, predict, 0, Zeros(n))
    {
      var player := players[i];
      var p := predict(player, players, predictions);
      if player.index >= n {
        return None;
      }
      predictions := predictions[player.index := p];
    }
    var marketPrediction := Market(players, predictions);
    var finalPrediction := F(marketPrediction, q);
    var scores := seq(n, i requires 0 <= i < n => CalculateScore(predictions[i], finalPrediction, players[i].rule, ln));
    result := Some(Round(scores, predictions, finalPrediction, marketPrediction));
  }

  /** A turn writes only the slot of the player whose turn it is. */
  lemma TurnWritesOwnSlot(players: seq<Player>, predict: (Player, seq<Player>, seq<real>) -> real, i: nat, predictions: seq<real>)
    requires InRange(players) && |predictions| == |players| && i < |players|
    ensures var next := predictions[players[i].index := predict(players[i], players, predictions)];
      && next[players[i].index] == predict(players[i], players, predictions)
      && Turns(players, predict, i, predictions) == Turns(players, predict, i + 1, next)
      && forall k :: 0 <= k < |predictions| && k != players[i].index ==> next[k] == predictions[k]
  {
  }

  /** When the player at position `i` has index `i`, every slot is written
      exactly once, by its own player, and that player is shown the answers
      of all players before it and zeros for all players after it. */
  lemma TurnsSeeEarlierAnswers(players: seq<Player>, predict: (Player, seq<Player>, seq<real>) -> real)
    requires WellIndexed(players)
    ensures InRange(players)
    ensures var r := Turns(players, predict, 0, Zeros(|players|));
      forall k :: 0 <= k < |players| ==>
        r[k] == predict(players[k], players, r[..k] + Zeros(|players| - k))
  {
    assert Zeros(|players|) == Zeros(0) + Zeros(|players|);
    TurnsFrom(players, predict, 0, Zeros(|players|));
  }

  lemma {:induction false} TurnsFrom(players: seq<Player>, predict: (Player, seq<Player>, seq<real>) -> real, i: nat, predictions: seq<real>)
    requires WellIndexed(players) && i <= |players| && |predictions| == |players|
    requires predictions == predictions[..i] + Zeros(|players| - i)
    ensures InRange(players)
    ensures var r := Turns(players, predict, i, predictions);
      && r[..i] == predictions[..i]
      && forall k :: i <= k < |players| ==> r[k] == predict(players[k], players, r[..k] + Zeros(|players| - k))
    decreases |players| - i
  {
    var n := |players|;
    if i < n {
      var p := predict(players[i], players, predictions);
      var next := predictions[i := p];
      assert next == next[..i + 1] + Zeros(n - i - 1);
      TurnsFrom(players, predict, i + 1, next);
      var r := Turns(players, predict, i, predictions);
      assert r == Turns(players, predict, i + 1, next);
      assert r[..i + 1] == next[..i + 1];
      assert r[..i] == predictions[..i] by {
        assert r[..i] == r[..i + 1][..i];
      }
      assert r[i] == r[..i + 1][i];
      assert r[..i] + Zeros(n - i) == predictions;
    }
  }

  lemma ProductBetween(w: real, p: real)
    requires w >= 0.0 && 0.0 <= p <= 1.0
    ensures 0.0 <= Product(w, p) <= w
  {
    if w > 0.0 && p > 0.0 {
      ProductPositive(w, p);
    }
    if w > 0.0 && p < 1.0 {
      ProductPositive(w, 1.0 - p);
      assert Product(w, 1.0 - p) == w - Product(w, p);
    }
  }

  /** With non-negative weights and forecasts in [0, 1], the market forecast
      lies between 0 and the total weight; with weights summing to 1 it is a
      probability. */
  lemma {:induction false} MarketBounds(players: seq<Player>, predictions: seq<real>)
    requires |predictions| == |players|
    requires forall i :: 0 <= i < |players| ==> players[i].weight >= 0.0 && 0.0 <= predictions[i] <= 1.0
    ensures 0.0 <= Market(players, predictions) <= TotalWeight(players)
  {
    if players != [] {
      var m := |players| - 1;
      MarketBounds(players[..m], predictions[..m]);
      ProductBetween(players[m].weight, predictions[m]);
    }
  }

  /** With non-negative weights of total at most 1, forecasts in [0, 1] and
      a true probability `q` in [0, 1], the realised probability of the round
      is itself a probability. */
  lemma OutcomeIsProbability(players: seq<Player>, predictions: seq<real>, q: real)
    requires |predictions| == |players|
    requires forall i :: 0 <= i < |players| ==> players[i].weight >= 0.0 && 0.0 <= predictions[i] <= 1.0
    requires TotalWeight(players) <= 1.0 && 0.0 <= q <= 1.0
    ensures 0.0 <= F(Market(players, predictions), q) <= 1.0
  {
    MarketBounds(players, predictions);
  }
}
