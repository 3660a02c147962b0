# Connect Four engine, search and training coordinator: a verified model

This project models the core of c4a0, a self-play trainer for Connect Four, and proves properties of it
with Dafny 4.11. `dafny verify dfyconfig.toml` checks all of it. There are five parts.

**Board and bitboard.** `Board.dfy` is a grid of seven stacks and the reference for everything else:
legal moves, four in a row, terminal states, mirroring. `Position.dfy` is the pair of bit words of
`cpp/src/position.cpp`, proved to be an injective encoding of grids that every operation respects.
Words are sets of bit numbers; `MachineBoard.dfy` proves that the same operations on 64-bit vectors, with their shifts and
masks, denote them (`Words.dfy` has the facts about single bits that it uses). `WinTests.dfy` builds
the 69 masks of the C++ code and the masks of the Python code in loops and proves both complete;
`Openings.dfy` does the same for the grid scan of the trainer and for the generator of arena openings.
`Reconstruction.dfy` is the backtracking search that turns a position back into moves.

**Search.** `SearchTree.dfy` states the operations of the search tree as functions on a map from paths to
nodes and proves what each keeps; `Game.dfy` composes them into the operations of a game and proves the
tree invariant over every sequence of operations. `MctsGame.dfy` is the game object with its fields and
loops, proved to compute those functions. `Eager.dfy` is a second search that creates all children at
once; the lazy search is proved to be indistinguishable from it. `Selection.dfy` says which move selection prefers, on the
fields of the nodes. `Policies.dfy` has softmax and temperature, and `PolicyShape.dfy` what they and root noise do to the
odds of two columns; `Rng.dfy` has sampling and shuffling, `Outcome.dfy` the training samples of a finished game, and
`OutcomeMeaning.dfy` what their scores and values say about the board.

**Self-play.** `Pipeline.dfy` is a step relation over the neural thread, the workers, the two queues
and the pending list, for any number of workers, any batches and any interleaving. `SelfPlayGame.dfy` proves that
one game always makes progress, and `SelfPlay.dfy` puts the two together: the results do not depend on scheduling.
`PlayerModels.dfy` proves which model is asked at which position, `SamplePolicies.dfy` that the policy of each training sample is
the search it was recorded from, and `RootNoise.dfy` where noise is mixed in.
`BoundedQueue.dfy` is the ring buffer and `Batching.dfy` one round of the neural thread. `Interactive.dfy` and
`InteractivePlay.dfy` are the shared game of the user interface with its background search and its revision
counter; `InteractiveCalls.dfy` says on board and visits what each call does.

**Training coordinator.** `Manifest.dfy` has the durable state and its transactions, `RunManifest.dfy` the object that
writes them. `Coordinator.dfy` is the state machine of coordinator, actor and trainer with their queues, in which
a crash may come between any two durable steps; `CoordinatorSafety.dfy` proves its safety over all runs, and `Promotion.dfy`
what an arena verdict changes and that the trainer learns of it. `ReplaySync.dfy`,
`ReplayWindow.dfy` and `ReplayOverflow.dfy` prove how the trainer's replay pool follows the manifest and exactly when it fits its
cache; `Replay.dfy` is the pool with its cache, and `ReplayDecoding.dfy` runs it along with the coordinator and proves
exactly when no shard file is decoded twice. `Arena.dfy` and `ArenaStatistics.dfy` are the paired arena and its
sequential test with the constrained likelihood found by bisection; `GateDirection.dfy` proves what the test is positive for, and
`MatchDirection.dfy` what that means in wins, draws and losses. `ArenaGames.dfy` lets the search engine play the arena's games.

**Fast forms.** `Minimax.dfy` is the cached early-exit search of the minimax ladder, `Solver.dfy` the
solver cache; both are proved equal to a plain definition. `MinimaxGame.dfy` says what the value means on the board.

Conventions: floating-point numbers are reals, and a logit is a real or minus infinity. Logarithm, square root,
exponential and power are parameters with the few facts that are used (`IsLog`, `IsExp`, `IsPow`, and in single lemmas
`LogRises`, `IsSqrt`, `IsExponential`, `IsPower`, `Squares`). The evaluator
is an arbitrary function of model and position, the external solver an arbitrary partial function of the position.
A stream of random draws, a noise vector and a uniform draw are parameters. "Forever" claims are stated for every finite run.

## What turned out false

- Removing a piece greedily does not always work: on the board after moves 0, 1, 1 the search's first choice
  leads nowhere (`Reconstruction.GreedyChoiceFails`). The backtracking search itself is complete.
- The bisection of the constrained likelihood does not bracket its root for all counts. It does if and only if the counts satisfy
  one linear inequality at each end (`ArenaStatistics.LowerBracketsExactly`, `UpperBracketsExactly`); ten million pairs without a win do not
  (`BracketFailsBeyondLimit`), fewer than a million pairs always do (`FewPairsBracketable`), so no arena of the trainer, with at most
  2000 games, is affected.
- Playing each opening with both colours does not make a pair symmetric in candidate and champion. Exchanging the two exchanges the
  ids of the games as well, and an id seeds the draws among equally visited moves. The bin of a pair is reflected if and only if
  both ids give the two colourings the same total (`Arenas.RolesReversed`); it always is when the draws do not depend on the id
  (`RolesReversedWithoutDraws`). With one search iteration, which the configuration allows, players have no influence and the id
  decides everything (`ArenaGames.OneIterationIgnoresPlayers`), and for some draws of games 1 and 2 the candidate wins both games
  of the first pair in both role orders (`ArenaGames.RolesNotReversed`).
- A mean score above `p1` does not alone make the log-likelihood ratio positive: without pairs the smoothed mean is 1/2 and the ratio
  is zero for all hypotheses (`GateDirection.NoPairsNoRatio`). It is positive, and on the other side negative, whenever pairs times the
  distance of the hypotheses times the lead of the mean exceed 14 millionths (`GateDirection.RatioFollowsMean`); for an arena with
  hypotheses at least 1% apart and from 0 and 1, a hundredth of a point above or below the share is enough
  (`MatchDirection.RatioFollowsPoints`).
- The trainer's shard cache can be too small. It holds the pool from one launch to the next if and only if the launch has fewer active
  shards than the cache holds (`ReplayOverflow.PoolFitsExactly`). A launch within the replay capacity does; but each crash
  between the two transactions of a registration leaves one more shard active, and launches with any number of active shards are
  reachable (`ReplayOverflow.EveryLaunchSize`). The same condition decides whether some shard file can be decoded twice before the
  next launch (`ReplayDecoding.DecodedOnceExactly`). What a load returns does not depend on it (`ReplayPools.ReplayPool.Load`).
- No candidate arrives after a requested stop, so it is never answered with an interrupted row: the branch of
  `src/c4a0/training_v2.py:2262-2268` cannot be reached (`CoordinationSafety.NoCandidateAfterStop`).

## Model

| member | source | states |
|---|---|---|
| `Words.SameBits` | cpp/src/position.cpp:359-363 | two words that agree in each of the 64 bits are equal |
| `MachineBoard.BitsOr` | cpp/src/position.cpp:305-318 | setting bits with `\|` is union of the sets of bit numbers, for all 64-bit words |
| `MachineBoard.BitsAnd` | cpp/src/position.cpp:179-188 | masking with `&` is intersection |
| `MachineBoard.BitsAndNot` | cpp/src/position.cpp:305-318 | clearing bits with `& ~` is difference |
| `MachineBoard.BitsNotAnd` | cpp/src/position.cpp:194-198 | complement under a mask, `~a & b`, is the difference the other way round |
| `MachineBoard.BitsOne` | cpp/src/position.cpp:24-26 | a shifted one is the singleton of its bit number |
| `MachineBoard.MakeMoveWords` | cpp/src/position.cpp:165-177 | the row scan, `set_piece` and `inverted` on 64-bit words, with shifts and masks, denote the move on sets of bits |
| `MachineBoard.SetPieceWords` | cpp/src/position.cpp:305-318 | `set_piece` on words denotes setting or clearing the cell in both sets |
| `MachineBoard.InvertWords` | cpp/src/position.cpp:194-198 | `(~value) & mask` denotes the inverted position |
| `MachineBoard.CoversDenotes` | cpp/src/position.cpp:320-325 | the test of a winning mask on words is inclusion of the sets of bit numbers |
| `MachineBoard.PopCountIsSize` | cpp/src/position.cpp:190-192 | `std::popcount` of a word is the size of its set of bits |
| `MachineBoard.BitsInjective` | cpp/src/position.cpp:359-363 | a word is determined by the numbers of its one bits |
| `Board.PlayAppend` | cpp/src/position.cpp:136-146 | playing two move lists one after the other is playing their concatenation, and fails in the same cases |
| `Board.MirrorPlay` | cpp/src/position.cpp:248-256 | playing the reflected moves on the mirrored board gives the mirror of the played board, and is illegal in the same cases |
| `Board.MirrorHasFour` | cpp/src/position.cpp:28-61 | mirroring keeps the presence of four in a row, both ways |
| `Board.MirrorTerminal` | cpp/src/position.cpp:200-211 | mirroring keeps the terminal state |
| `Board.NonTerminalHasMove` | cpp/src/position.cpp:200-211 | a position that is not terminal has a legal move |
| `Positions.MakeMoveRefinesDrop` | cpp/src/position.cpp:165-177 | `make_move` on the encoding of a grid succeeds exactly for legal columns and gives the encoding of the grid with the disc dropped, seen from the other player |
| `Positions.FromMovesRefinesPlay` | cpp/src/position.cpp:136-146 | `from_moves` succeeds exactly when gravity play does, with the encoded result |
| `Positions.LegalMoveRefinesLegal` | cpp/src/position.cpp:231-237 | the top-cell test is legality on the grid |
| `Positions.PlyRefinesPly` | cpp/src/position.cpp:190-192 | the population count of the mask is the number of discs |
| `Positions.EncodeInjective` | cpp/src/position.cpp:123-134 | two grids with the same bits are the same grid |
| `Positions.EncodePassesFromBits` | cpp/src/position.cpp:123-134 | `from_bits` accepts every encoded grid unchanged |
| `Positions.FlipRefinesMirror` | cpp/src/position.cpp:248-256 | `flip_horizontal` on bits is the mirror of the grid |
| `Positions.OtherDiscs` | cpp/src/position.cpp:194-198 | `inverted` shows the other player's discs |
| `Positions.GetSeen` | cpp/src/position.cpp:179-188 | `get` returns the cell from the viewer's side, and nothing outside the board |
| `WinTests.MakeWinMasks` | cpp/src/position.cpp:28-61 | the loops yield 69 masks: each is a line of four on the board, and every line is listed |
| `WinTests.PythonWinningMasks` | src/c4a0/minimax_harness.py:94-100 | the Python table lists the same lines and no others |
| `WinTests.AnyMaskIsHasLine` | cpp/src/position.cpp:320-325 | any complete table of masks decides whether a word contains a line |
| `WinTests.HasLineIsHasFour` | cpp/src/position.cpp:320-325 | a word contains a line exactly when the grid has four in a row geometrically |
| `WinTests.TerminalRefines` | cpp/src/position.cpp:200-211 | the terminal state computed on bits is the one of the grid |
| `WinTests.ComputeTerminalState` | cpp/src/position.cpp:200-211 | the code with its mask table computes that state for every pair of words, floating pieces included |
| `Reconstruction.ToMovesRecursive` | cpp/src/position.cpp:327-357 | success returns removals that empty the board under the search's own rules; failure means that no such sequence exists, and leaves the stack as it was |
| `Reconstruction.TryColumn` | cpp/src/position.cpp:334-356 | the same for one column: failure means that no sequence begins in that column |
| `Reconstruction.ToMoves` | cpp/src/position.cpp:258-265 | it fails exactly when the position cannot be emptied, and otherwise returns the reversed removals |
| `Reconstruction.RemovalReplays` | cpp/src/position.cpp:327-357 | any emptying sequence, reversed, replays to the same board |
| `Reconstruction.ReplayRemoves` | cpp/src/position.cpp:327-357 | any played sequence, reversed, empties the board |
| `Reconstruction.ReachableEmpties` | cpp/src/position.cpp:258-265 | every reachable position can be emptied, and every emptying sequence has length `ply` and replays to the position |
| `Reconstruction.ToMovesOfReachable` | cpp/src/position.cpp:258-265 | for every position reachable by moves, `to_moves` succeeds, with `ply` moves that replay to it |
| `Reconstruction.GreedyChoiceFails` | cpp/src/position.cpp:334-356 | a position whose first removable column must be undone, so that backtracking is needed |
| `Openings.Winning` | src/c4a0/training_v2.py:1841-1852 | the grid scan returns true exactly when some run of four exists |
| `Openings.RunIsHasFour` | src/c4a0/training_v2.py:1841-1852 | for a grid shown in the Python arrays, such a run is four in a row geometrically |
| `Openings.OpeningIsNonterminal` | src/c4a0/training_v2.py:1855-1867 | true exactly when the moves are legal and no player has four at any time |
| `Openings.DecidedPersists` | src/c4a0/training_v2.py:1855-1867 | once a player has four, later moves cannot take it away, so checking after each move misses nothing |
| `Openings.OpeningKey` | src/c4a0/training_v2.py:1870-1878 | the key loop computes the cells of the board reached |
| `Openings.KeyInjective` | src/c4a0/training_v2.py:1870-1878 | equal keys mean equal boards |
| `Openings.Consider` | src/c4a0/training_v2.py:1893-1909 | one drawn opening keeps the accepted set free of repeated and of mirrored boards, and adds at most that opening |
| `Openings.NewOpening` | src/c4a0/training_v2.py:1898-1909 | accepting an opening whose board and mirror are new keeps that property |
| `Openings.Expand` | src/c4a0/training_v2.py:1910-1913 | each accepted opening is followed by its mirror; all are legal, not terminal, and on distinct boards |
| `Openings.AppendGood` | src/c4a0/training_v2.py:1910-1913 | appending an accepted opening and its unchecked mirror keeps all openings good |
| `Openings.ArenaOpenings` | src/c4a0/training_v2.py:1881-1915 | the list has the requested length and is all but at most the last of a list that is closed under mirroring, without terminal openings or repeated boards |
| `Minimax.LegalMovesMeaning` | src/c4a0/minimax_harness.py:107-108 | the listed columns are exactly the playable ones |
| `Minimax.MovesAreDrops` | src/c4a0/minimax_harness.py:107-113 | on encoded grids, a playable column is a legal one and the move bit is the dropped disc |
| `Minimax.NegaMaxRange` | src/c4a0/minimax_harness.py:126-156 | plain depth-limited negamax is between -1 and 1, so stopping at 1 loses nothing |
| `Minimax.BestIsMaximum` | src/c4a0/minimax_harness.py:126-156 | the best score bounds every child score and is attained |
| `Minimax.OneMeansForcedWin` | src/c4a0/minimax_harness.py:126-156 | the value 1 holds exactly when some strategy wins within the depth against every reply |
| `Minimax.MinusOneMeansForcedLoss` | src/c4a0/minimax_harness.py:126-156 | the value -1 holds exactly when every move loses within the depth to some strategy |
| `MinimaxGame.ValueOnGrid` | src/c4a0/minimax_harness.py:126-156 | on gravity boards the value is 1 exactly when the player to move can force four in a row by legal drops within the depth, and -1 exactly when the other player can |
| `Minimax.Persists` | src/c4a0/minimax_harness.py:126-156 | a forced result stays at every greater depth |
| `Minimax.MinimaxEvaluator.constructor` | src/c4a0/minimax_harness.py:119-124 | a new evaluator has an empty and therefore correct cache |
| `Minimax.MinimaxEvaluator.Score` | src/c4a0/minimax_harness.py:126-156 | with any correct cache and any clearing, the cached search with early exit returns plain negamax and keeps the cache correct; it is interrupted only at a polled node |
| `Minimax.MinimaxEvaluator.ChildScore` | src/c4a0/minimax_harness.py:142-152 | the score of one column is the plain value of that child |
| `Minimax.MinimaxEvaluator.BestMoves` | src/c4a0/minimax_harness.py:176-194 | the collected columns are exactly the maximisers among the legal ones, with the plain value |
| `Minimax.MinimaxEvaluator.Evaluate` | src/c4a0/minimax_harness.py:170-197 | every row of the batch marks exactly the maximising columns and carries the plain value, 0 without a legal move |
| `Rng.ThresholdIsRemainder` | cpp/src/rng.cpp:18-29 | the wrapped threshold is 2^64 mod bound, and the accepted range is a multiple of the bound |
| `Rng.Unbiased` | cpp/src/rng.cpp:18-29 | every residue has equally many accepted draws, and more than half of all draws are accepted |
| `Rng.BoundedU64` | cpp/src/rng.cpp:18-29 | the result comes from the first draw at or above the threshold, reduced; without one nothing is returned |
| `Rng.ShuffledIsPermutation` | cpp/src/rng.cpp:87-97 | every choice sequence gives a permutation |
| `Rng.ShuffledInjective` | cpp/src/rng.cpp:87-97 | on distinct elements, different choices give different orders |
| `Rng.ShuffledSurjective` | cpp/src/rng.cpp:87-97 | every permutation comes from some choice sequence; with the previous row, choices and permutations are in bijection |
| `Rng.DeterministicShuffle` | cpp/src/rng.cpp:87-97 | the in-place loop keeps the elements and performs the shuffle of the choices it drew |
| `Rng.TotalWeight` | cpp/src/rng.cpp:55-73 | the policy is refused exactly when a weight is negative or none is positive; otherwise the sum and the last positive column |
| `Rng.Locate` | cpp/src/rng.cpp:75-85 | the cumulative loop finds the column of positive weight whose interval holds the target |
| `Rng.SamplePolicy` | cpp/src/rng.cpp:55-85 | a sampled column has positive weight and its cumulative interval contains the scaled draw |
| `Rng.SampledIs` | cpp/src/rng.cpp:55-85 | the column with that interval is the one sampled |
| `Rng.IntervalUnique` | cpp/src/rng.cpp:75-85 | the intervals do not overlap |
| `ArenaStatistics.Frequency` | src/c4a0/arena_statistics.py:16 | the smoothed frequencies are positive and sum to 1 |
| `ArenaStatistics.IntervalFeasible` | src/c4a0/arena_statistics.py:14-21 | every denominator is positive for every multiplier between the two initial ends |
| `ArenaStatistics.DerivativeStrictlyDecreasing` | src/c4a0/arena_statistics.py:21 | the derivative falls strictly in the multiplier |
| `ArenaStatistics.PositiveAtLower` | src/c4a0/arena_statistics.py:16-21 | for fewer than 10^6 pairs and a mean strictly between 0 and 1, the derivative is positive at the lower end |
| `ArenaStatistics.NegativeAtUpper` | src/c4a0/arena_statistics.py:16-21 | and negative at the upper end |
| `ArenaStatistics.LowerBracketsExactly` | src/c4a0/arena_statistics.py:16-21 | at the lower end the derivative is positive if and only if the weight of the top bin outweighs the pulls of the others there, an inequality linear in the counts |
| `ArenaStatistics.UpperBracketsExactly` | src/c4a0/arena_statistics.py:16-21 | at the upper end it is not positive if and only if the bottom bin outweighs the others |
| `ArenaStatistics.FewPairsBracketable` | src/c4a0/arena_statistics.py:16-21 | fewer than 10^6 pairs satisfy both inequalities, whatever the mean; an arena has at most 1000 pairs (src/c4a0/config.py:118) |
| `ArenaStatistics.RootNeedsBracketable` | src/c4a0/arena_statistics.py:19-25 | counts with a root strictly inside the search interval satisfy both |
| `ArenaStatistics.SearchNarrows` | src/c4a0/arena_statistics.py:19-25 | any number of halvings keeps a sign change in the interval, cannot create one, and divides the width by the power of two |
| `ArenaStatistics.Bisect` | src/c4a0/arena_statistics.py:17-25 | the loop computes the 48 halvings with every denominator positive; the result brackets the sign change if and only if the counts satisfy both inequalities |
| `ArenaStatistics.MultiplierNearRoot` | src/c4a0/arena_statistics.py:19-26 | counts satisfy both inequalities if and only if the derivative is positive half a final bracket below the multiplier and not positive half a bracket above it, and every root is that near; fewer than 10^6 pairs always do |
| `ArenaStatistics.BracketFailsBeyondLimit` | src/c4a0/arena_statistics.py:16-21 | ten million pairs without a win violate the first inequality at mean 1/2, so the condition is not empty |
| `ArenaStatistics.RootInBracket` | src/c4a0/arena_statistics.py:19-25 | every feasible zero of the derivative lies in the bracket |
| `ArenaStatistics.RootUnique` | src/c4a0/arena_statistics.py:21 | there is at most one |
| `ArenaStatistics.TiltedIsDistribution` | src/c4a0/arena_statistics.py:26 | at a zero the tilted frequencies are positive, sum to 1 and have the required mean |
| `ArenaStatistics.TiltedIsMaximumLikelihood` | src/c4a0/arena_statistics.py:26-27 | and no positive distribution with that mean has a larger log-likelihood |
| `ArenaStatistics.PairedLogLikelihood` | src/c4a0/arena_statistics.py:12-27 | the value is the log-likelihood of the counts at the multiplier of the bisection, which has the sign change within half the final bracket exactly when the counts are bracketable |
| `ArenaStatistics.HistogramIgnoresPairOrder` | src/c4a0/arena_statistics.py:51-59 | exchanging the two games of a pair changes no bin |
| `ArenaStatistics.BoundariesOrdered` | src/c4a0/arena_statistics.py:43-44 | the lower decision boundary is negative and the upper one positive |
| `ArenaStatistics.PairedSprtGate.constructor` | src/c4a0/arena_statistics.py:31-49 | the gate starts empty with these boundaries |
| `ArenaStatistics.PairedSprtGate.Update` | src/c4a0/arena_statistics.py:51-59 | a score other than 0, 1/2, 1 is refused without effect; any other is recorded, and the counts stay the histogram of the complete pairs |
| `ArenaStatistics.PairedSprtGate.Decide` | src/c4a0/arena_statistics.py:61-74 | on complete pairs the ratio is the difference of the two constrained log-likelihoods of the counts, each, below 2 * 10^6 games, at a multiplier with the sign change within half the final bracket; the verdict follows from it and the boundaries; at the maximum there is always one |
| `GateDirection.NearlySmallest` | src/c4a0/arena_statistics.py:12-27 | among all tilts about the required mean, the computed likelihood of the counts is within 6 millionths of the smallest, whatever the rounding of the bisection |
| `GateDirection.LikelihoodsApart` | src/c4a0/arena_statistics.py:64-66 | the likelihoods under two means differ at least by pairs times the first multiplier times the distance of the means, up to 6 millionths |
| `GateDirection.MultiplierFollowsLead` | src/c4a0/arena_statistics.py:19-26 | a smoothed mean above the required one pulls the multiplier up by at least half the lead, one below pulls it down |
| `GateDirection.RatioAbove` | src/c4a0/arena_statistics.py:64-66 | with the mean above `p1` the computed ratio is at least half of pairs * (p1 - p0) * lead, less 7 millionths |
| `GateDirection.RatioBelow` | src/c4a0/arena_statistics.py:64-66 | with the mean below `p0` it is at most half of that (negative) margin, plus 7 millionths |
| `GateDirection.RatioFollowsMean` | src/c4a0/arena_statistics.py:61-66 | so the ratio is positive when the mean is above `p1` by more than the smoothing, and negative when it is that far below `p0` |
| `GateDirection.ClearMatches` | src/c4a0/arena_statistics.py:61-66 | with all pairs won the ratio is positive, with all pairs lost negative, from the first pair to a thousand |
| `GateDirection.NoPairsNoRatio` | src/c4a0/arena_statistics.py:61-66 | without pairs the ratio is zero, although the smoothed mean is 1/2 |
| `GateDirection.ArenasArePrecise` | src/c4a0/config.py:118-120 | a thousand pairs and means between 1% and 99% are precise enough for all of this |
| `GateDirection.VerdictFollowsMean` | src/c4a0/arena_statistics.py:61-74 | before its maximum the gate does not reject a candidate that is ahead, and it never accepts one that is behind |
| `GateDirection.VerdictReached` | src/c4a0/arena_statistics.py:67-73 | once the margin has passed a boundary, it decides for the right side |
| `GateDirection.BoundariesLimited` | src/c4a0/arena_statistics.py:43-44 | the lower boundary is above ln(beta), the upper below ln(1 / alpha) |
| `Arenas.MakeRequests` | src/c4a0/training_v2.py:1508-1524 | each opening gives two consecutive games with the colours exchanged |
| `Arenas.PlayInOrder` | src/c4a0/training_v2.py:1541-1549 | whatever order the results arrive in, sorting by game id gives them in request order |
| `Arenas.SortedUnique` | src/c4a0/training_v2.py:1549 | a sorted permutation of results with increasing ids is those results |
| `Arenas.RolesReversed` | src/c4a0/training_v2.py:1511-1562 | exchanging candidate and champion reflects the bin of a pair if and only if both ids of the pair give the two colourings the same total |
| `Arenas.RolesReversedWithoutDraws` | src/c4a0/training_v2.py:1511-1562 | when games do not depend on their ids, every bin is reflected |
| `ArenaGames.EngineScores` | src/c4a0/training_v2.py:1541-1550 | solo games of the engine, with the id in their metadata, give the arena scores of 0, 1/2 and 1 |
| `ArenaGames.OneIterationDraws` | cpp/src/self_play.cpp:498-560 | with one iteration the result of a game is that of moves drawn from the uniform policy by id and ply alone |
| `ArenaGames.OneIterationIgnoresPlayers` | cpp/src/mcts.cpp:362-378 | with one iteration the score of a game depends on id and opening, not on who plays |
| `ArenaGames.OneIterationRoles` | src/c4a0/training_v2.py:1511-1524 | with one iteration the roles of a pair can be exchanged if and only if its two ids draw games of equal score |
| `ArenaGames.RolesNotReversed` | src/c4a0/training_v2.py:1511-1562 | with one iteration and such draws, candidate and champion each win both games of the first pair when they are the candidate: the top bin stays the top bin |
| `ArenaGames.DrawsExist` | src/c4a0/config.py:98 | a valid configuration with one iteration, at temperature 0, has these draws |
| `Arenas.RunBatch` | src/c4a0/training_v2.py:1508-1562 | a batch feeds the gate the candidate's score of both games of every opening, each played under its own id, in order, and the tallies count them |
| `Arenas.Judge` | src/c4a0/training_v2.py:1563 | the verdict is the one of the sequential test on the scores of exactly the openings played so far |
| `Arenas.BatchFits` | src/c4a0/training_v2.py:1502-1507 | a batch has at least one opening, at most the batch size, and fits the openings and the maximum; it is short only when one of these runs out |
| `Arenas.Round` | src/c4a0/training_v2.py:1501-1579 | a round plays the next batch, which has at least one opening and stays within the maximum, and its verdict is the one of the test on all scores so far |
| `Arenas.RunArena` | src/c4a0/training_v2.py:1466-1610 | the match ends at the first batch after which the test on the scores has a verdict, and with that verdict, or with a rejection when the openings are used up without one; no earlier batch had a verdict; wins, draws and losses add up to the games |
| `MatchDirection.TalliesMatch` | src/c4a0/training_v2.py:1550-1562 | twice the wins plus the draws is the sum of the bins of the pairs, over the same number of games |
| `MatchDirection.RatioFollowsPoints` | src/c4a0/arena_statistics.py:61-66 | the ratio is positive when wins plus half the draws exceed the share `p1` of the games by a hundredth of a point, negative when they miss the share `p0` by as much |
| `MatchDirection.MatchFollowsPoints` | src/c4a0/training_v2.py:1466-1610 | an accepted match has points above the share `p0` of its games, and a match rejected while openings and games were left has points below the share `p1`, up to a hundredth of a point |
| `Policies.ComputeSoftmax` | cpp/src/mcts.cpp:57-89 | the loops compute softmax with its refusal and its shortcut |
| `Policies.UniformShortcut` | cpp/src/mcts.cpp:70-76 | the shortcut for equal logits is what the general path gives |
| `Policies.SoftmaxSupport` | cpp/src/mcts.cpp:57-89 | softmax is refused exactly when all logits are minus infinity, and is positive exactly where the logit is finite |
| `Policies.SoftmaxIsDistribution` | cpp/src/mcts.cpp:57-89 | the result sums to 1 and orders columns as the logits do |
| `Policies.ComputeTemperature` | cpp/src/mcts.cpp:91-135 | the loops compute the temperature function with all its branches |
| `Policies.TemperatureSupport` | cpp/src/mcts.cpp:91-135 | a policy that can be sampled stays so, never gains a column, and at temperature 0 keeps exactly the largest ones |
| `PolicyShape.SoftmaxOdds` | cpp/src/mcts.cpp:57-89 | the odds of two columns are the exponential of the difference of their logits |
| `PolicyShape.TemperatureSharpens` | cpp/src/mcts.cpp:91-135 | a temperature below 1 sharpens the odds of two columns, one above 1 flattens them but keeps the order, 1 changes nothing |
| `PolicyShape.HalfTemperatureSquares` | cpp/src/mcts.cpp:91-135 | temperature 1/2 squares the odds |
| `SearchTree.BestColumn` | cpp/src/mcts.cpp:303-327 | selection takes a maximal legal column, the last one among equals, and none only without legal columns |
| `SearchTree.DescendEnds` | cpp/src/mcts.cpp:297-340 | selection ends at an unexpanded node of the tree, or at a missing child that can be created |
| `SearchTree.AncestorsPresent` | cpp/src/mcts.cpp:287-295 | every ancestor of a node is in the tree and expanded |
| `SearchTree.UnexpandedHasNoChild` | cpp/src/mcts.cpp:258-269 | an unexpanded node has no children |
| `SearchTree.MaterialiseShape` | cpp/src/mcts.cpp:271-285 | creating a child keeps the tree well formed; the child is unexpanded |
| `SearchTree.MaterialiseBooks` | cpp/src/mcts.cpp:271-285 | creating a child keeps all visit and value sums balanced |
| `SearchTree.BumpedSums` | cpp/src/mcts.cpp:287-295 | back-propagation adds one visit and the value with alternating sign to the sums over children along the path |
| `SearchTree.AncestorBalance` | cpp/src/mcts.cpp:287-295 | an ancestor on the path stays balanced |
| `SearchTree.BackpropagateBooks` | cpp/src/mcts.cpp:287-295 | if the leaf balances, back-propagation leaves every node balanced |
| `SearchTree.TerminalVisit` | cpp/src/mcts.cpp:218-229 | visiting a terminal leaf keeps shape and balance, without expanding it |
| `SearchTree.FirstVisit` | cpp/src/mcts.cpp:218-240 | expanding an evaluated leaf and back-propagating its value keeps shape and balance |
| `SearchTree.SubtreeShape` | cpp/src/mcts.cpp:342-360 | the promoted subtree is a well-formed tree |
| `SearchTree.SubtreeBooks` | cpp/src/mcts.cpp:342-360 | and its sums balance |
| `SearchTree.ReprioredShape` | cpp/src/mcts.cpp:242-256 | new root priors, in the node and its existing children, keep the tree well formed |
| `SearchTree.ReprioredBooks` | cpp/src/mcts.cpp:242-256 | and balanced |
| `SearchTree.TerminalInUnit` | cpp/src/position.cpp:213-229 | terminal values lie in [-1, 1] when 42 plies of penalty stay within 2 |
| `SearchTree.VisitShareOrder` | cpp/src/mcts.cpp:162-181 | the reported policy orders columns exactly by visits |
| `SearchTree.VisitSharesTotal` | cpp/src/mcts.cpp:162-181 | and sums to 1 once a child was visited |
| `LeafSelection.ValueDecides` | cpp/src/mcts.cpp:157-160 | of two children with equal visits and priors, the one with the smaller value sum, from the view of the player to move there, has the larger score, and conversely |
| `LeafSelection.ValueGap` | cpp/src/mcts.cpp:141-160 | exactly: the scores differ by the difference of the value sums over the visits and one more |
| `LeafSelection.PriorDecides` | cpp/src/mcts.cpp:149-160 | with equal visits and values, the more probable move scores higher |
| `LeafSelection.VisitsDecide` | cpp/src/mcts.cpp:149-160 | with equal mean values and priors, the less visited move scores higher |
| `LeafSelection.UnvisitedPrior` | cpp/src/mcts.cpp:303-327 | of two columns without a node, the more probable scores higher |
| `LeafSelection.AvoidsWorse` | cpp/src/mcts.cpp:297-340 | the walk from the root enters no column, of any node, while an equally visited and probable one is better for the player to move there |
| `SearchTree.ValuesBounded` | cpp/src/mcts.cpp:287-295 | with values in [-1, 1], every value sum is at most the visits in size |
| `Games.ReceiveInv` | cpp/src/mcts.cpp:218-240 | receiving the leaf's own evaluation keeps the game invariant |
| `Games.LeafKeepsPriors` | cpp/src/mcts.cpp:230-239 | away from the root, the new priors are the softmax of the logits masked to legal columns, without noise |
| `Games.MixKeepsTotal` | cpp/src/mcts.cpp:26-53 | mixing in a normalised noise keeps the total over legal columns at 1 |
| `PolicyShape.NoiseMovesPriors` | cpp/src/mcts.cpp:46-51 | noise moves each legal prior the fraction epsilon of the way to the draw, and leaves the others |
| `PolicyShape.RootTakesNoise` | cpp/src/mcts.cpp:219-240 | the first evaluation of a root gives softmax priors moved that way |
| `Games.AddRootNoiseInv` | cpp/src/mcts.cpp:242-256 | adding root noise keeps the invariant |
| `Games.MakeMoveInv` | cpp/src/mcts.cpp:342-360 | a move succeeds exactly at an expanded root and a legal column; the new root is that child with its visits, and the invariant holds |
| `Games.UndoInv` | cpp/src/mcts.cpp:385-394 | undo keeps the invariant and goes to the parent |
| `Games.ResetInv` | cpp/src/mcts.cpp:380-383 | reset returns to the start with an empty history |
| `Games.UndoAfterMove` | cpp/src/mcts.cpp:385-394 | undo after a move restores position and history, with a fresh root |
| `Games.BoardIsReplay` | cpp/src/mcts.cpp:404-411 | the board is always the replay of the move history |
| `Games.StepInv` | cpp/src/mcts.cpp:218-394 | every operation keeps the invariant |
| `Games.RunKeepsInvariant` | cpp/src/mcts.cpp:218-394 | every sequence of operations keeps it |
| `Games.RunBoundsValues` | cpp/src/mcts.cpp:287-295 | after every sequence of operations from a new game, all value sums are bounded by visits when evaluations lie in [-1, 1] |
| `EagerSearch.SameScore` | cpp/src/mcts.cpp:312-316 | a missing child scores, from its prior alone, what a created unvisited child scores |
| `EagerSearch.SameDescent` | cpp/src/mcts.cpp:297-340 | both trees select the same leaf, ties included |
| `EagerSearch.CompletionUnique` | cpp/src/mcts.cpp:258-285 | the eager tree is determined by the lazy one |
| `EagerSearch.StepSimulates` | cpp/src/mcts.cpp:218-394 | every operation succeeds in both searches or in neither, and keeps them related |
| `EagerSearch.RunSimulates` | cpp/src/mcts.cpp:218-394 | so does every sequence of operations |
| `EagerSearch.LazyRefinesEager` | cpp/src/mcts.cpp:143-394 | from a new game, every sequence of evaluations, noise, moves, random moves, undo and reset shows the same leaf, root, policy and visits in both searches |
| `MctsGames.MctsGame.BestChild` | cpp/src/mcts.cpp:303-327 | the loop over columns finds the best column of the specification |
| `MctsGames.MctsGame.SelectLeaf` | cpp/src/mcts.cpp:297-340 | the walk ends in the specified leaf, creating at most the last child |
| `MctsGames.MctsGame.MaterialiseChild` | cpp/src/mcts.cpp:271-285 | a missing child is created with its prior; an existing one is left alone |
| `MctsGames.MctsGame.Backpropagate` | cpp/src/mcts.cpp:287-295 | climbing to the root with a sign change at each step is the specified update of the whole path |
| `MctsGames.MctsGame.ReceiveEvaluation` | cpp/src/mcts.cpp:218-240 | the specified result, or no change when it is refused |
| `MctsGames.MctsGame.AddRootDirichletNoise` | cpp/src/mcts.cpp:242-256 | the specified result, or no change when it is refused |
| `MctsGames.MctsGame.MakeMove` | cpp/src/mcts.cpp:342-360 | the specified result, or no change when it is refused |
| `MctsGames.MctsGame.MakeRandomMove` | cpp/src/mcts.cpp:362-378 | the specified result, or no change when it is refused |
| `MctsGames.MctsGame.UndoMove` | cpp/src/mcts.cpp:385-394 | the specified game, and true exactly with a history |
| `MctsGames.MctsGame.Reset` | cpp/src/mcts.cpp:380-383 | repeated undo gives the specified reset |
| `MctsGames.MctsGame.MakeResult` | cpp/src/mcts.cpp:413-434 | the samples of the specification, each with the recorded position and policy of its move, and nothing before the end of the game |
| `SamplePolicies.SampleIsSearch` | cpp/src/mcts.cpp:413-434 | over every run that does not take the move back: the sample of a move has the position it was played in and a policy in proportion to the visits of the root's children at that moment, summing to 1 |
| `SamplePolicies.SelfPlaySamplesSearched` | cpp/src/self_play.cpp:498-560 | every self-play sample but the last has whole visits on legal columns that sum to one less than the iteration count, divided by that sum; the last is uniform |
| `Outcomes.SamplesReplay` | cpp/src/mcts.cpp:413-434 | the samples start at the first position, each leads to the next by its legal recorded move, only the last is terminal |
| `Outcomes.OutcomeConsistent` | cpp/src/mcts.cpp:413-434 | every sample's value without penalty, with the sign of its ply, is 2 * score - 1; the value with penalty alternates the same way |
| `Outcomes.FirstTerminal` | cpp/src/position.cpp:376-391 | the score search finds the last sample when only that one is terminal |
| `OutcomeMeaning.ScoreMeaning` | cpp/src/position.cpp:376-391 | for every game played to its end, player 0 scores 1 exactly when the first player has four in a row on the final board, 0 exactly when the second has, 1/2 exactly on a full board without |
| `OutcomeMeaning.TerminalMeaning` | cpp/src/position.cpp:213-229 | a terminal value is 1 with four of the player to move, -1 with four of the other, 0 in a draw |
| `OutcomeMeaning.SoonerWinsLaterLosses` | cpp/src/position.cpp:213-229 | the ply penalty prefers the sooner of two wins and the later of two losses |
| `SelfPlayGames.ReceiveAccepts` | cpp/src/self_play.cpp:504-543 | under valid options every usable evaluation is accepted, adds one root visit and leaves the root position |
| `SelfPlayGames.MaskedPolicyPositive` | cpp/src/mcts.cpp:362-378 | the visit policy of an expanded root keeps a positive legal column after masking |
| `SelfPlayGames.RandomColumnLegal` | cpp/src/mcts.cpp:362-378 | masking, temperature and sampling end in a legal column |
| `SelfPlayGames.RandomMoveSucceeds` | cpp/src/mcts.cpp:362-378 | a random move from an expanded root always succeeds with a legal column, and keeps the invariant |
| `SelfPlayGames.MoveProgress` | cpp/src/self_play.cpp:504-543 | at exactly the iteration count a legal move is played, and the new root has fewer visits than the count |
| `SelfPlayGames.TickProgress` | cpp/src/self_play.cpp:504-543 | every evaluation of a waiting game finishes it or decreases its measure |
| `SelfPlayGames.NewGameWaits` | cpp/src/self_play.cpp:374-386 | a new game waits for an evaluation, with measure iterations * (43 - ply) |
| `SelfPlay.SoloEvaluations` | cpp/src/self_play.cpp:504-557 | a game from ply p finishes within iterations * (43 - p) evaluations |
| `SelfPlay.ResultsIndependentOfScheduling` | cpp/src/self_play.cpp:388-562 | every maximal interleaving of the neural thread and the workers, with any batches, ends with each request answered once, by the result of playing that game alone |
| `PlayerModels.KeyIsMovers` | cpp/src/mcts.cpp:213-215 | a waiting game asks, for its leaf, the model of player 0 when the first player is to move there, else that of player 1 |
| `PlayerModels.SoloAsksMovers` | cpp/src/mcts.cpp:213-215 | two evaluators that agree for player 0's model where the first player is to move and for player 1's where the second is give the same result |
| `PlayerModels.ArenaAsksMovers` | src/c4a0/training_v2.py:1511-1524 | so an arena score depends on each model only where its player is to move |
| `PlayerModels.InteractiveAsksMovers` | cpp/src/interactive.cpp:80-144 | interactive search asks the model of the player to move at the leaf |
| `RootNoises.FirstTickTakesNoise` | cpp/src/self_play.cpp:504-510 | the first evaluation of a game mixes the draw for its root into the softmax priors |
| `RootNoises.MoveTakesNoise` | cpp/src/self_play.cpp:526-532 | after each move the draw for the new root is mixed into its priors |
| `PolicyShape.ColdPhases` | cpp/src/self_play.cpp:519-525 | before the midpoint, up to the cutoff and after it, a temperature of zero in that phase plays a most visited legal column |
| `PolicyShape.TemperatureFalls` | cpp/src/self_play.cpp:519-525 | falling options give falling temperatures over the game, strictly across a boundary where they differ |
| `SelfPlay.SpecSane` | cpp/src/self_play.cpp:504-543 | real games meet what the pipeline asks of a game |
| `Pipeline.EvaluationsBounded` | cpp/src/self_play.cpp:504-557 | a game played alone ends within its measure |
| `Pipeline.ExactlyOnePlace` | cpp/src/self_play.cpp:388-562 | after every run from the start, each game is in exactly one of queues, pending list, hands and results, and no other game is anywhere |
| `Pipeline.PushNeverBlocks` | cpp/src/self_play.cpp:343-346 | with capacity equal to the number of games, no push and no batch push finds its queue too full |
| `Pipeline.AllDone` | cpp/src/self_play.cpp:538-551 | when the counter reaches zero all games are results |
| `Pipeline.ClosingDropsNothing` | cpp/src/self_play.cpp:538-551 | when a queue is closed nothing is left in it |
| `Pipeline.StepKeepsPlaces` | cpp/src/self_play.cpp:388-562 | every step moves games without losing or doubling one |
| `Pipeline.StepKeepsFaithful` | cpp/src/self_play.cpp:449-468 | every job carries the evaluation of its own leaf, and every game is on its solo course |
| `Pipeline.StepKeepsAccounts` | cpp/src/self_play.cpp:388-562 | every step keeps the counter, the results and the closing flags consistent |
| `Pipeline.DeadlockFree` | cpp/src/self_play.cpp:388-562 | until all threads have left, some step is enabled |
| `Pipeline.WorkFalls` | cpp/src/self_play.cpp:388-562 | every step decreases one measure, so no run is infinite |
| `Pipeline.RunInvariant` | cpp/src/self_play.cpp:388-562 | all of this holds after every run, whose length is bounded by the measure |
| `Pipeline.SchedulingIndependence` | cpp/src/self_play.cpp:388-562 | every run is finite, and one that cannot go on has all threads gone and each request's own result exactly once |
| `BoundedQueues.BoundedQueue.constructor` | cpp/src/self_play.cpp:33-37 | a new ring buffer is an empty queue |
| `BoundedQueues.BoundedQueue.TryPush` | cpp/src/self_play.cpp:42-57 | push appends, waits when full, and is refused after closing or stopping |
| `BoundedQueues.BoundedQueue.TryPushBatch` | cpp/src/self_play.cpp:59-85 | a batch is appended in order and whole, or not at all; an empty batch always succeeds |
| `BoundedQueues.BoundedQueue.TryPop` | cpp/src/self_play.cpp:87-103 | pop takes the oldest element, waits when empty and open, and drains a closed queue |
| `BoundedQueues.BoundedQueue.DrainAvailable` | cpp/src/self_play.cpp:105-121 | everything queued is appended to the destination in order |
| `BoundedQueues.BoundedQueue.Close` | cpp/src/self_play.cpp:123-130 | closing keeps the contents |
| `Batching.GroupByModel` | cpp/src/self_play.cpp:407-415 | each model is mapped to the distinct leaves of its games, and to nothing else |
| `Batching.SelectModel` | cpp/src/self_play.cpp:417-430 | the chosen model has the most distinct positions, the largest id among equals |
| `Batching.SortPositions` | cpp/src/self_play.cpp:432-433 | sorting keeps the positions and orders them |
| `Batching.Partition` | cpp/src/self_play.cpp:455-468 | the games whose own model and leaf were evaluated become jobs with that evaluation, the others stay pending, both in order |
| `Batching.ChooseBatch` | cpp/src/self_play.cpp:407-436 | the batch is a nonempty prefix, up to the limit, of the sorted distinct leaves of the chosen model |
| `Batching.NeuralRound` | cpp/src/self_play.cpp:407-472 | a round answers at least one game, each with the evaluation of its own leaf, and takes the pipeline from its selection state to the state it may reach by selecting these games |
| `Batching.RoundIsSelectStep` | cpp/src/self_play.cpp:407-472 | whatever model and batch are chosen, a round that answers a game is an enabled selection step of the pipeline, which changes nothing but the neural thread and the pending list |
| `Batching.DistinctLeavesMeaning` | cpp/src/self_play.cpp:407-415 | the leaves of a model are listed once each, and all are listed |
| `Interactive.StepKeepsValid` | cpp/src/interactive.cpp:80-144 | every user call and every background step keeps the invariant that a request with the current revision is for the current leaf |
| `Interactive.FailedCallKeepsGame` | cpp/src/interactive.cpp:225-290 | a call that throws or returns false keeps game and limit; it keeps revision and error too, except undo, which fails exactly on an empty history and then clears the error and bumps the revision |
| `Interactive.GameChangesBumpRevision` | cpp/src/interactive.cpp:225-290 | every other change of the game bumps the revision |
| `Interactive.RunKeepsValid` | cpp/src/interactive.cpp:80-297 | the invariant holds after every interleaving |
| `Interactive.NoStaleEvaluation` | cpp/src/interactive.cpp:80-144 | in every interleaving, an evaluation that changes the game was computed for exactly the current leaf and model, and the board is the replay of the history |
| `InteractiveSessions.InteractivePlay.ShouldSearchLocked` | cpp/src/interactive.cpp:75-78 | search is wanted exactly when no error is set, the root is not over and the limit is not reached |
| `InteractiveSessions.InteractivePlay.StartEvaluation` | cpp/src/interactive.cpp:80-99 | the background loop's first half is the start step of the state machine |
| `InteractiveSessions.InteractivePlay.FinishEvaluation` | cpp/src/interactive.cpp:100-139 | its second half is the finish step: apply, discard or record an error |
| `InteractiveSessions.InteractivePlay.IncreaseIterations` | cpp/src/interactive.cpp:215-223 | the increase step |
| `InteractiveSessions.InteractivePlay.Begin` | cpp/src/interactive.cpp:225-257 | a move call plays at once, waits for the root, or throws, as the state machine does |
| `InteractiveSessions.InteractivePlay.Resume` | cpp/src/interactive.cpp:157-167 | a waiting call resumes only when its root is expanded or an error is set |
| `InteractiveSessions.InteractivePlay.MakeBestMoveIfReady` | cpp/src/interactive.cpp:259-271 | the best-move step |
| `InteractiveSessions.InteractivePlay.Reset` | cpp/src/interactive.cpp:273-279 | the reset step |
| `InteractiveSessions.InteractivePlay.Undo` | cpp/src/interactive.cpp:281-290 | the undo step; with an empty history it clears the error without starting a search |
| `InteractiveSessions.InteractivePlay.RetryEvaluation` | cpp/src/interactive.cpp:292-297 | the retry step |
| `InteractiveCalls.MoveCallPlays` | cpp/src/interactive.cpp:225-239 | a move call plays its column exactly with a visited open root, a legal column and no error; it waits exactly when the visit is missing, and throws exactly on an error |
| `InteractiveCalls.BestMovePlaysMostVisited` | cpp/src/interactive.cpp:259-271 | on a visited open root the best move is played exactly at the limit and without an error, and it is a most visited legal column |
| `InteractiveCalls.IncreaseRaisesLimit` | cpp/src/interactive.cpp:215-223 | the limit grows by the count unless there is an error, and the search runs exactly while the root has fewer visits |
| `InteractiveCalls.UndoGoesBack` | cpp/src/interactive.cpp:281-290 | undo returns to the position of the last move with a fresh root, clears the error, and returns true exactly with a history |
| `InteractiveCalls.ResetGoesHome` | cpp/src/interactive.cpp:273-279 | reset returns to the start and clears the error |
| `InteractiveCalls.EvaluationEnds` | cpp/src/interactive.cpp:80-144 | a failed or unusable evaluation sets the error and leaves the game, a usable one adds one visit to the root, a stale one changes nothing |
| `InteractiveCalls.NoNoise` | cpp/src/interactive.cpp:80-144 | interactive evaluations give every leaf, the root included, exactly its softmax priors |
| `Solver.DecodeEncode` | cpp/src/solver.cpp:116-142 | decoding an encoded solution returns it, negative scores included |
| `Solver.LowByteFirst` | cpp/src/solver.cpp:116-125 | bytes 2k and 2k + 1, low half first, are score k modulo 2^16 |
| `Solver.EncodeDecode` | cpp/src/solver.cpp:116-142 | encoding a decoded blob of 14 bytes returns the bytes |
| `Solver.EncodeSolution` | cpp/src/solver.cpp:116-125 | the byte loop computes the little-endian encoding |
| `Solver.DecodeSolution` | cpp/src/solver.cpp:127-142 | the decoding loop inverts it and refuses every other length |
| `Solver.ScoreMeaning` | cpp/src/solver.cpp:680-694 | 1 exactly when the policy's first maximum is an optimal column, 1/2 exactly when it still wins but not optimally |
| `Solver.MissingOnce` | cpp/src/solver.cpp:871-878 | the missing list holds each requested uncached position once, and no other |
| `Solver.SolvedExactlyOnce` | cpp/src/solver.cpp:871-893 | uncached positions are solved exactly once, cached ones never |
| `Solver.MissingFails` | cpp/src/solver.cpp:880-893 | solving fails exactly when some uncached request has no solution |
| `Solver.CachedScoreIsTrueScore` | cpp/src/solver.cpp:807-906 | with any initially correct cache, every score is the score of the true solution of its request |
| `Solver.CachingSolver.MissingPositions` | cpp/src/solver.cpp:871-878 | the loop computes the missing list, and reports an unreadable blob |
| `Solver.CachingSolver.SolveAll` | cpp/src/solver.cpp:880-893 | solving in chunks of 100 keeps solutions aligned with positions; on failure a prefix was solved |
| `Solver.CachingSolver.PutAll` | cpp/src/solver.cpp:824-862 | insert-if-absent adds exactly the new positions and changes no entry |
| `Solver.CachingSolver.Score` | cpp/src/solver.cpp:864-906 | fails exactly on an unreadable cached entry or an unsolvable uncached request, leaving the cache; otherwise solves the missing positions and scores every request from the cache |
| `Manifest.PendingAttempt` | src/c4a0/training_v2.py:545-549 | the smallest pending number, and none only when no row is pending |
| `Manifest.RootAddedValid` | src/c4a0/training_v2.py:486-495 | adding the root keeps the durable invariant and sets a champion |
| `Manifest.RowAddedValid` | src/c4a0/training_v2.py:503-543 | adding a pending or interrupted row for an existing file keeps it, and leaves no file without a row |
| `Manifest.DecidedValid` | src/c4a0/training_v2.py:571-595 | deciding the pending attempt keeps the invariant and leaves nothing pending; the row becomes accepted or rejected as decided, its result says so, champion and count change exactly on acceptance, and every other row, result, file and shard stays |
| `Manifest.RecoveredValid` | src/c4a0/training_v2.py:1937-1977 | registering an orphaned checkpoint keeps it |
| `Manifest.ShardInsertedValid` | src/c4a0/training_v2.py:598-616 | inserting the next shard keeps it |
| `Manifest.ShardsRetiredValid` | src/c4a0/training_v2.py:617-633 | retirement keeps it, brings the active games within capacity and only deactivates |
| `Manifest.RetiredWithinCapacity` | src/c4a0/training_v2.py:619-633 | after retirement the active games are within capacity |
| `Manifest.RetiredOldest` | src/c4a0/training_v2.py:619-633 | what stays active is a suffix: the oldest go first |
| `Manifest.RetiredMinimal` | src/c4a0/training_v2.py:619-633 | the last shard retired was needed: keeping it would exceed the capacity |
| `Manifest.ConsecutiveDisjoint` | src/c4a0/training_v2.py:597-618 | registered shards cover disjoint ids below the next id |
| `Manifest.ConsecutiveCover` | src/c4a0/training_v2.py:597-618 | and together all ids below it |
| `Manifest.ShardFilesDistinct` | src/c4a0/training_v2.py:1752-1758 | different shards have different files |
| `Manifest.NewestCount` | src/c4a0/training_v2.py:1918-1934 | exactly `retention` rejected rows count as newest, or all when there are fewer |
| `Manifest.PruningKeepsNewest` | src/c4a0/training_v2.py:1918-1934 | no pruned checkpoint is newer than one kept for being new |
| `Manifest.PrunedExactly` | src/c4a0/training_v2.py:1918-1934 | the pruned rows are exactly the rejected ones followed by at least the retained number of rejected rows, but for the preserved one |
| `RunManifests.RunManifest.constructor` | src/c4a0/training_v2.py:378-416 | the tables of an empty run |
| `RunManifests.RunManifest.AddRoot` | src/c4a0/training_v2.py:486-495 | the tables become those of the durable step; a second call does nothing |
| `CoordinationSafety.CandidateOverwritesNothing` | src/c4a0/training_v2.py:497-501 | the number from `next_attempt` is free whenever a candidate is filed, in the event loop, in recovery and on the way out: every row number is below it, and the rename overwrites no checkpoint |
| `RunManifests.RunManifest.PendingRow` | src/c4a0/training_v2.py:545-549 | the query finds the first pending row |
| `RunManifests.RunManifest.AddAttempt` | src/c4a0/training_v2.py:503-543 | one row is added with its status and parent, nothing else changes |
| `RunManifests.RunManifest.RegisterOrphan` | src/c4a0/training_v2.py:1941-1955 | pending when nothing is pending and the parent is the champion, interrupted otherwise |
| `RunManifests.RunManifest.DecideAttempt` | src/c4a0/training_v2.py:571-595 | the row becomes accepted exactly when decided so and rejected otherwise, the result says so, and champion and count change exactly on acceptance |
| `RunManifests.RunManifest.PruneRejected` | src/c4a0/training_v2.py:1918-1934 | the pruned rows are the rejected ones that are neither among the newest nor preserved |
| `RunManifests.RunManifest.RetireOldest` | src/c4a0/training_v2.py:619-633 | the loop computes the retirement and lists exactly the retired ids in order |
| `RunManifests.RunManifest.RegisterShard` | src/c4a0/training_v2.py:597-636 | insert and retirement; afterwards the active shards are a suffix within capacity |
| `Coordination.ChunksCover` | cpp/src/position.cpp:402-420 | a batch splits into shards without gap or overlap: all but the last of full size, starting and ending with the batch |
| `CoordinationSafety.BatchValid` | src/c4a0/training_v2.py:1747-1790 | the shards of a batch cover consecutive ids from its first one, each nonempty, only the last one final |
| `CoordinationSafety.ActorKeepsPipe` | src/c4a0/training_v2.py:1690-1790 | whatever the actor does, the sequence of shards and arena results still to be delivered stays the same |
| `CoordinationSafety.ShardMatchesChampion` | src/c4a0/training_v2.py:2161-2173 | a shard is registered while the champion that generated it is champion, continues the game ids and has its file |
| `CoordinationSafety.ArenaMatchesPending` | src/c4a0/training_v2.py:2346-2355 | an arena result is always for the pending attempt, so the mismatch error is unreachable; nothing else is then in the actor's pipeline |
| `CoordinationSafety.RecordedParent` | src/c4a0/training_v2.py:2252-2277 | the parent recorded for a candidate is the champion its trainer held |
| `CoordinationSafety.CandidateFileThere` | src/c4a0/training_v2.py:2252-2261 | when a candidate event is read its file is still there |
| `CoordinationSafety.NoCandidateAfterStop` | src/c4a0/training_v2.py:2262-2268 | no candidate arrives after a requested stop |
| `CoordinationSafety.HandleShardValid` | src/c4a0/training_v2.py:2161-2166 | inserting a shard keeps the invariant |
| `CoordinationSafety.RetireShardsValid` | src/c4a0/training_v2.py:2166-2173 | retiring shards and telling the trainer keeps it |
| `CoordinationSafety.HandleArenaValid` | src/c4a0/training_v2.py:2334-2377 | deciding the attempt keeps it |
| `Promotion.ChampionIsLastAccepted` | src/c4a0/training_v2.py:571-595 | in every reachable state, across crashes: the champion is the last accepted attempt, and every accepted attempt but the root was trained from the one accepted before it |
| `Promotion.ArenaPromotes` | src/c4a0/training_v2.py:2334-2377 | in every reachable state an arena result decides the pending attempt: it becomes champion exactly when accepted, and nothing else in the tables changes |
| `Promotion.VerdictIsSent` | src/c4a0/training_v2.py:2355-2377 | the next command to the trainer names the attempt if accepted, else the old champion |
| `Promotion.TrainerHoldsLastAccepted` | src/c4a0/training_v2.py:1096-1101 | in every reachable state but between a verdict and its command, the trainer, once its queue is handled, holds the last accepted attempt |
| `Promotion.RecoveredLineage` | src/c4a0/training_v2.py:1937-1977 | recovery makes an orphan pending exactly when nothing else is and its parent is the champion |
| `Promotion.ShardRowNamesChampion` | src/c4a0/training_v2.py:597-633 | in every reachable state a registered shard's row has the announced interval, starts at the next game and names the present champion |
| `CoordinationSafety.HandleRemovedValid` | src/c4a0/training_v2.py:2501-2507 | unlinking a replay file keeps it |
| `CoordinationSafety.TrainerTakeValid` | src/c4a0/training_v2.py:1084-1138 | every command the trainer handles keeps it |
| `CoordinationSafety.StepValid` | src/c4a0/training_v2.py:2113-2660 | every step of coordinator, actor and trainer, and every crash, keeps the invariant |
| `CoordinationSafety.RunValid` | src/c4a0/training_v2.py:2002-2660 | every run keeps it |
| `CoordinationSafety.CoordinatorSafe` | src/c4a0/training_v2.py:2113-2507 | in every reachable state, across any crashes: at most one candidate in flight or pending, every event at the head of a queue is what its handler relies on, every pooled shard is readable |
| `CoordinationSafety.RecoveryConsistent` | src/c4a0/training_v2.py:1937-1977 | from a crash at any point, recovery succeeds and leaves at most one pending attempt, an accepted champion, an exact count, and for every checkpoint file exactly its row; no row or checkpoint is lost, and a fully written candidate gets a row of its own |
| `CoordinationSafety.RegisteredGamesPartitioned` | src/c4a0/training_v2.py:597-618 | in every reachable state each registered game id lies in exactly one shard |
| `CoordinationSafety.RegistrationWithinCapacity` | src/c4a0/training_v2.py:619-633 | every completed registration leaves the active games within capacity, the newest shards active |
| `CoordinationSafety.UnlinkAfterDrop` | src/c4a0/training_v2.py:2501-2507 | a replay file is unlinked only when the pool has dropped its shard and will not be told to add it again |
| `ReplaySync.PoolFollowsManifest` | src/c4a0/training_v2.py:1084-1095 | in every reachable state the pool after the queued commands is the set of active shards, and every file waiting for deletion has exactly one removal or report in flight |
| `ReplaySync.RetireSynced` | src/c4a0/training_v2.py:2166-2173 | the commands of a registration turn the old active set into the new one |
| `ReplaySync.AfterRemovals` | src/c4a0/training_v2.py:2169-2173 | the removal commands take exactly the retired shards out |
| `ReplaySync.StepFollows` | src/c4a0/training_v2.py:2113-2507 | every step keeps pool, queues and manifest in step |
| `ReplayWindow.PoolFitsCache` | src/c4a0/training_v2.py:714-722 | after a launch with fewer active shards than the cache holds, the pool never exceeds the cache limit until the next launch |
| `ReplayWindow.CacheLimitIsCeiling` | src/c4a0/training_v2.py:718-720 | the cache limit is one more than the fewest shards that hold the capacity |
| `ReplayWindow.WithinCapacityFits` | src/c4a0/training_v2.py:718-720 | active games within capacity are fewer shards than the cache holds, because batches are whole shards |
| `ReplayOverflow.PoolFitsExactly` | src/c4a0/training_v2.py:714-722 | for every reachable launch: the pool stays inside the cache in every run until the next launch if and only if the launch has fewer active shards than the cache holds |
| `ReplayOverflow.OverfullLaunch` | src/c4a0/training_v2.py:714-722 | from any other launch, with or without a pending attempt, some run makes the pool exceed the cache |
| `ReplayOverflow.EveryLaunchBegins` | src/c4a0/training_v2.py:2113-2146 | every launch can get to its first batch with the pool unchanged, after an arena if one is to be resumed |
| `ReplayOverflow.EveryLaunchSize` | src/c4a0/training_v2.py:597-633 | for every number there is a reachable launch with that many active shards, so no fixed cache size is enough |
| `ReplayOverflow.CrashWhileRegistering` | src/c4a0/training_v2.py:597-633 | a crash between the two transactions of a registration leaves one active shard more |
| `ReplayWindow.ActiveGamesAre` | src/c4a0/config.py:153-156 | with shards of one size the active games are that size times the active shards |
| `ReplayPools.ReplayPool.constructor` | src/c4a0/training_v2.py:714-722 | a new pool has its shards and an empty cache |
| `ReplayPools.ReplayPool.Add` | src/c4a0/training_v2.py:724-726 | the shard is appended |
| `ReplayPools.ReplayPool.Remove` | src/c4a0/training_v2.py:728-737 | the shards with this id leave the list and their files leave the cache, nothing else does |
| `ReplayPools.ReplayPool.Load` | src/c4a0/training_v2.py:766-796 | the value is the content of the file, cached or not; it becomes the newest entry, and only the oldest entries are evicted |
| `ReplayPools.LoadValid` | src/c4a0/training_v2.py:766-796 | loading keeps the cache within its limit, without repeats and true to the files |
| `ReplayPools.DecodedOnce` | src/c4a0/training_v2.py:766-796 | while the pool fits the cache, a file is decoded at most once for each time its shard enters the pool |
| `ReplayDecoding.DecodedOnceExactly` | src/c4a0/training_v2.py:713-796 | for every reachable launch: no run of coordinator, actor and trainer, with files sampled in any order, decodes a shard file twice before the next launch, if and only if the launch has fewer active shards than the cache holds |
| `ReplayDecoding.DecodedOncePerLaunch` | src/c4a0/training_v2.py:766-796 | after such a launch each file is decoded at most once, readable or not, and the pool object holds exactly the shards of the trainer, with their files |
| `ReplayDecoding.OverfullDecodesTwice` | src/c4a0/training_v2.py:794-795 | from any other launch some run decodes a file twice |
| `ReplayDecoding.StepCoupled` | src/c4a0/training_v2.py:1084-1094 | every step keeps the pool object the list of the trainer's shards, once each, and no shard is added twice |
| `ReplayDecoding.NextValid` | src/c4a0/training_v2.py:724-796 | every step keeps decoded, due and still to be added at one in all for every file |

## Left out

- Floating point: no rounding, overflow or NaN; the checks for finite values are modelled only where a logit may be minus infinity. Logarithm, exponential, power and square root are parameters with stated facts, and nothing is claimed about how the libraries compute them.
- Random numbers: the generator itself, the quality of its output and gamma sampling; draws are parameters, and noise and uniform draws of a game are fixed functions of its seed data and ply.
- Machine integers: bit words and the 16-bit solver scores are exact; counters, sizes and the revision are unbounded.
- Tree nodes as objects: the tree is a map from paths to nodes, so ownership, parent pointers and destruction of abandoned subtrees are not captured.
- Waiting: a blocked thread is a step that is not enabled; wake-ups, fairness and lock order are not modelled. Deadlock freedom says that some thread can always act.
- Errors and cancellation in self-play: runs are free of them; a failing evaluator stops all threads in the code and is not part of this model.
- `InteractiveSessions.InteractivePlay.FinishEvaluation`: the evaluation made without the lock is a pure function value taken when the lock is held again; that the game may change in between is in the state machine.
- `Arenas.RunArena`: does not model the fields of the report beyond decision, tallies and gate, nor progress messages and cancellation.
- `GateDirection.RatioFollowsMean`: claims nothing inside a margin of 14 millionths, where the smoothing term of 10^-6 and the bisection decide the sign.
- `Openings.ArenaOpenings`: does not model the order in which the accepted openings are sorted, nor the file they are kept in; the claim holds for every order.
- Solver process: the subprocess with its pipes, deadlines and parsing is a partial function of the position; a chunk fails as a whole.
- Storage: SQLite transactions, atomic file writes and renames are single steps; file locks, fsync and migration are not part of this model.
- Coordinator: when the trainer emits a candidate, when a user stops, which arena decision falls and which rejected checkpoints are pruned after a decision are left open; learner incumbents, budgets, back-pressure, progress messages and retries after memory errors are not part of this model.
- Attempt rows are a list, because numbers are only given at one past the largest; the payload of a row is reduced to status and parent.
- `CoordinationSafety.RegistrationWithinCapacity`: is claimed for completed registrations only, because retirement commits after the insert.
- Trainer liveness: whether a candidate is ever emitted depends on the configuration.
- Sampling of training batches from the pool, validation split and prefetching: random choices over the modelled pool.
- Conversion to buffers and text, parsing of boards, hashing, sample flipping and splitting of train and test data: only easy members.
- Neural networks, optimisers and checkpoint tensors, the legacy trainer, unpaired gate, sweeps and tournaments, and all user interfaces.
