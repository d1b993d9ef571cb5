# Sequential prediction market: scoring rules and backward-induction forecasts

This project models the decision engine of a sequential prediction-market simulation.

- A fixed, ordered list of players each submits a forecast of a binary event.
- The market forecast is the weighted sum of the forecasts.
- The realised probability is `f(market, q)`: a 10%/90% blend of the market forecast and the true probability `q`, rounded to hundredths.
- Every player is scored against the realised probability under its own scoring rule. The rules are logarithmic, Brier and squared error.
- A perfect-information player chooses its forecast by backward induction:
  - It tries 0 and then every value of its forecast grid.
  - For each candidate it asks every later player, in index order, for that player's own best response against the running weighted aggregate.
  - It scores the blended outcome and keeps the earliest candidate with the highest score: a later candidate replaces the leader only when its score is strictly greater.

Modules, following the program's files:

- `Rules` (`rules.dfy`) covers `src/rules.py`. The scores are a datatype `NegInf | Fin(real)`: the logarithmic rule's catastrophic penalty is negative infinity. `Greater` is the float comparison `>` extended to negative infinity.
- `Utils` (`utils.dfy`) covers `src/utils.py`.
- `Players` (`player.dfy`) covers `src/player.py`.
  - The reference definition of a best response is the mutually recursive family `BestResponse` / `FirstBestFrom` / `CandidateScore` / `Lookahead`.
  - The methods `Predict`, `ScoreCandidate` and `LookaheadFrom` compute it with the loops of the original and are proved equal to it.
- `Simulation` (`simulation.dfy`) covers `src/simulation.py`. A round is played against a `predict` function that the caller supplies.
- `LegacyPredictions` (`legacy.dfy`) covers `old/predictions.py`.
  - That file's logarithmic rule, squared-error rule, blend `f` and `equalRules` are the same definitions as in `src/`. `Rules.LogRule`, `Rules.QuadraticError`, `Rules.F` and `Utils.EqualRules` model those lines as well (old/predictions.py:13-18, 23-27, 33-34).
  - Its Brier rule, its rule dispatch, `calculateBestPrediction` and its running-sum `simulate` have their own members.

Numbers are exact reals. `round(x, 2)` and `round(x, 4)` are rounding half-up to hundredths and ten-thousandths. The natural logarithm is a parameter `ln` of every operation that can reach the logarithmic rule.

Where the files disagree with each other, the model follows `src/player.py` and `old/predictions.py`:

- `main.py:49-51` passes each player a belief (`get_noisy_q(...)`) that the constructor at `src/player.py:4-8` does not take. `predict` (`src/player.py:10-50`) scores its candidates against the true probability `q` itself, and so does the model.
- `src/simulation.py:10` calls `player.predict(players, predictions.copy())`. That does not match the signature `predict(currentPrediction, players, q)` of `src/player.py:10`. So `Simulation.Simulate` takes the per-player answer function as a parameter, and the running-sum round of `old/predictions.py:90-109` is modelled separately with the real best response.

## Model

| member | source | states |
|---|---|---|
| Rules.Round2 | src/rules.py:20 | the result is a whole number of hundredths and the nearest one to the input, a tie going up |
| Rules.Round4 | src/rules.py:11 | the result is a whole number of ten-thousandths and the nearest one to the input, a tie going up |
| Rules.LogRule | src/rules.py:6-11 | a certain forecast (0 or 1) against an uncertain outcome scores negative infinity; a certain forecast equal to a certain outcome scores exactly 0; a certain forecast scores negative infinity exactly when it differs from the outcome; an uncertain forecast always gets a finite score |
| Rules.BrierRule | src/rules.py:13-14 | the Brier score equals minus the squared error minus the outcome variance `q(1-q)` |
| Rules.BrierGap | src/rules.py:13-14 | the truthful forecast scores `-q(1-q)`, and any forecast `p` falls short of it by exactly `(p-q)^2` |
| Rules.BrierStrictlyProper | src/rules.py:13-14 | for `q` in [0,1] the truthful forecast scores at most 0, at least as well as every forecast, and strictly better than every other forecast |
| Rules.QuadraticErrorPeak | src/rules.py:16-17 | the squared-error score is at most 0, and it is 0 if and only if the forecast equals the outcome |
| Rules.F | src/rules.py:19-20 | for `p, q` in [0,1] the blend lies in [0,1]; it is a whole number of hundredths, within half a hundredth of `0.1 p + 0.9 q` |
| Rules.Round2Monotone | src/rules.py:20 | rounding to hundredths is monotone |
| Rules.FMonotone | src/rules.py:19-20 | the blend is monotone non-decreasing in both arguments |
| Rules.CalculateScore | src/rules.py:22-28 | "log" gives the logarithmic score, "brier" the Brier score, and every other name the squared-error score; only "log" can give negative infinity |
| Rules.CalculateScoreProper | src/rules.py:22-28 | under every rule but "log", for `q` in [0,1] the truthful forecast scores at most 0, at least as well as every forecast, and strictly better than every other one |
| Utils.EqualRules | src/utils.py:7-8 | `n` entries, each equal to the given rule |
| Utils.EqualWeights | src/utils.py:10-11 | `n` entries, each `1/n` and positive |
| Utils.EqualWeightsSumToOne | src/utils.py:10-11 | for `n >= 1` the equal weights sum to exactly 1 |
| Players.BestResponse | src/player.py:14-27 | a best response is 0 or a value of the player's grid |
| Players.FirstBestFrom | src/player.py:38-48 | the grid scan ends with the candidate it started with, or with a grid position it visited |
| Players.Predict | src/player.py:10-50 | the loops of `predict` return exactly the best response of the reference definition |
| Players.ScoreCandidate | src/player.py:18-44 | scoring a candidate as `predict` does, with the last player adding only its own weighted forecast and every other player also running the lookahead, gives the candidate's reference score |
| Players.LookaheadFrom | src/player.py:32-33 | the lookahead loop, where each later player in index order adds its weighted best response to the running aggregate, gives the reference lookahead |
| Players.LastPlayerScore | src/player.py:18-21 | for the last player a candidate `v` is scored against `f(current + weight * v, q)`, with nobody consulted |
| Players.IncumbentScore | src/player.py:29-35 | the incumbent 0 is scored against the lookahead that starts from the current aggregate itself |
| Players.FirstBestFromIsFirstStrictMax | src/player.py:38-48 | a scan whose leader is the first strict maximiser of the candidates seen so far ends with the first strict maximiser of all candidates |
| Players.BestResponseIsFirstStrictMax | src/player.py:23-25 | the best response is the first strict maximiser, with 0 first and then the grid in order: no candidate scores better, and it is strictly better than every candidate tried before it |
| Players.LaterMaxBeatsEarlier | src/player.py:46-48 | a candidate tried before a first strict maximiser is not itself one |
| Players.FirstStrictMaxUnique | src/player.py:46-48 | at most one candidate is a first strict maximiser, so the strict comparison fixes the answer among tied candidates |
| Players.BestResponseOptimal | src/player.py:38-50 | the best response scores at least as well as 0 and as every grid value under the same lookahead |
| Players.LastPlayerOptimal | src/player.py:13-27 | the last player's answer `r` maximises the score of `v` against `f(current + weight * v, q)` over 0 and the grid |
| Players.BestResponseFrame | src/player.py:32-33 | a best response reads the player list only after the player's own index; earlier players matter only through the current aggregate |
| Players.LookaheadFrame | src/player.py:41-42 | the lookahead from position `j` is the same for two player lists that agree from `j` on |
| Simulation.Zeros | src/simulation.py:4 | the initial vector has `n` entries, all 0 |
| Simulation.Simulate | src/simulation.py:3-19 | the round fails exactly when some index is not a slot; otherwise the predictions are those of the in-order turns starting from zeros, the market is the weighted sum of the slots, the outcome is its blend with `q`, and player `i` is scored on slot `i` with its own rule |
| Simulation.TurnWritesOwnSlot | src/simulation.py:9-11 | one turn writes the player's answer into its own slot and leaves every other slot unchanged |
| Simulation.TurnsSeeEarlierAnswers | src/simulation.py:4-11 | when each player sits at its own index, slot `k` holds player `k`'s answer to the earlier answers followed by zeros |
| Simulation.MarketBounds | src/simulation.py:15 | with non-negative weights and forecasts in [0,1], the market forecast lies between 0 and the total weight |
| Simulation.OutcomeIsProbability | src/simulation.py:15-16 | with weights of total at most 1, forecasts in [0,1] and `q` in [0,1], the realised probability is in [0,1] |
| LegacyPredictions.OldBrierRuleAgrees | old/predictions.py:20-21 | the Brier rule written with `(1-p)^2` equals the one written with `(p-1)^2` |
| LegacyPredictions.OldCalculateScore | old/predictions.py:36-42 | the earlier rule dispatch gives the same score as the current one for every rule name |
| LegacyPredictions.Roster | old/predictions.py:44 | the parallel lists describe players whose index is their position, so the lookahead terminates |
| LegacyPredictions.CalculateBestPrediction | old/predictions.py:44-84 | the free-function search returns the best response of the corresponding player object, the same value `Players.Predict` returns |
| LegacyPredictions.ScoreCandidate | old/predictions.py:49-78 | each candidate is scored as the reference defines it, with the earlier Brier spelling |
| LegacyPredictions.LookaheadFrom | old/predictions.py:66-67 | the inner loop over later players gives the reference lookahead |
| LegacyPredictions.Simulate | old/predictions.py:90-109 | `n` predictions and scores; player `i` answers with its best response against the weighted sum of the answers before it; the market is the weighted sum of all answers, the outcome is its blend, and every score is the Brier score |
| LegacyPredictions.AnswersFollowExtend | old/predictions.py:96-99 | appending a player's best response to the earlier answers keeps every answer a best response to its own prefix |
| LegacyPredictions.WeightedPrefix | old/predictions.py:99-103 | appending an answer keeps every earlier partial weighted sum and adds the new weighted answer to the full one, so the running sum equals the recomputed market sum |
| LegacyPredictions.MarketMatchesWeighted | old/predictions.py:101-103 | the weighted sum over the parallel lists is the market sum `src/simulation.py` computes over the corresponding player objects |

## Left out

- The natural logarithm and its floating-point value are a parameter `ln`. Only the special branches and the dispatch of the logarithmic rule are proved about.
- A forecast at 0 or 1 against the opposite certain outcome reaches `np.log(0)` in the general formula and gives negative infinity. `Rules.LogRule` states that value directly.
- Binary floating point is left out. Python's `round` works on binary approximations with ties to even; the model rounds exact reals with ties going up. Sums and products are exact.
- Players.Predict requires that no player sits before its own index (`players[j].index >= j`). Otherwise the lookahead can reach a player placed before its own index, which then consults its own position again and never returns. Every player list built in `main.py:49-51` puts player `i` at position `i`.
- Simulation.Simulate takes the answer of each player as a caller-supplied pure function. The call in `src/simulation.py:10` does not match any `predict` in the shown files.
- Simulation.Simulate does not model the reads of `player.p` in the print at `src/simulation.py:7`. No player class in the shown files has that field.
- Simulation.Simulate has player indices as natural numbers, so Python's wrap-around for negative list indices is not modelled.
- LegacyPredictions.CalculateBestPrediction requires `i < n` and at least `n` weights and rules. The original reads those list entries and fails on shorter lists.
- LegacyPredictions.Simulate requires at least `n` weights, for the same reason.
- Utils.EqualWeights requires `n >= 1`, because `1/n` is a division by zero for no players.
- The printing in `src/simulation.py:7,13` is left out.
- `randomRules` (`src/utils.py:3-5`, `old/predictions.py:29-31`) is left out: it draws random numbers.
- `execute` and the CSV output (`old/predictions.py:111-138`) are left out. So are `main.py` (argument parsing, grid set-up, timing), `src/results.py` (file output) and `src/noise.py` (random beliefs). These are not part of this model.
- Bounded- and relaxed-information players, naive players and belief substitution are not part of this model. No source for them is among the modelled files.
- Players are immutable values. That `predict` writes no field and no list entry holds by construction; it is not stated as a separate property.
