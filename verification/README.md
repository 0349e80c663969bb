# Verification of the arbitrage proof engine

These Dafny modules model the engine that turns priced selections into proven arbitrages, and the
stateful components around it, and prove what each of them is for. `dafny verify dfyconfig.toml`
checks all of it.

The main results:

- **A scan is `ARB` exactly when its stakes profit whatever the score** (`ScanTheorems.ScanForArbitrages`):
  in every scan of any priced selections, within the limits of the state model, `ARB` is given if and only
  if the planned stakes return more than the total at every finished match of any size. It rests on what
  every market means on the counts (`SettlementMeans`), on a finite grid that stands for all scores
  (`ScoreSpace.ModelIsExact`, an equivalence) and on the coverage check (`CoverageTheorems.CoveredMeans`, an
  equivalence), not on the solver's accuracy. With an exact solver no arbitrage is missed: whatever survives
  pruning, covers every match and has any profitable split is `ARB` (`ScanTheorems.ArbIsFound`).
- **No split is better** (`Optimizer.NoBetterPlan`), by way of a two-phase simplex with the lowest-index
  rule that provably never visits a basis twice (`SimplexBland.NoBasisTwice`) and whose three verdicts
  are characterised exactly (`SimplexDuality.ExactVerdicts`, by duality). The solver runs over arrays and
  is proved equal to its specification (`SimplexInPlace.SimplexMinimize`).
- **Candidate generation is exact** (`CandidateTheorems.GeneratesExactly`): one candidate for each set of
  priced selections that is worth one; and the price prefilter loses
  a real arbitrage if and only if it is a total on a negative line
  (`PriceFilter.PrefilterLosesOnlyNegativeTotals`).
- **Event reconciliation** folds each loser into the survivor that suits it best, in an order that is
  characterised by the bindings, creation times and ids alone (`EventPlanMeans.FoldsMean`), partitions its events, ignores their order and is idempotent through its own
  application (`EventPlanTheorems`); a plan never fails on the tables it was made from, and leaves them
  consistent and with nothing to fold (`EventReconcile.PlanApplies`, `EventMerge.FoldAllKeeps`).
- **Alerts** are sent exactly when they are due (`AlertTheorems.SnapshotSends`), over any run of snapshots.
- **The registry, the audit queue, the rate limiters, the scan worker and the pager**
  keep strong invariants over every run or interleaving of their steps.

## How it is laid out

| modules | what they model |
|---|---|
| Vectors, Counting, Iteration, SimplexTableau, SimplexRun, SimplexBland, Simplex, SimplexTheorems, SimplexPenalty, SimplexDuality, SimplexInPlace | the linear program solver: specification, theorems, and the solver over arrays |
| Lines, Settlement, SettlementMeans | canonical lines and their components, settlement of every market and what it means on the counts, payouts |
| Coordinates, Classes, ScoreGrid, StateModel, ScoreSpace | the reduction of all scores to a finite set of states |
| Sequences, Grouping, Tables, Coverage, CoverageTheorems, CoverageMeans | the coverage check, and sequences, groups and insertion-ordered tables |
| Maximin, MaximinTheorems, Optimizer | the stake optimiser |
| Combinations, Sorting, Candidates, CandidateTheorems, Scan, ScanTheorems, PriceFilter | candidates, pruning and the whole scan |
| Matching, EventPlan, EventPlanTheorems, EventPlanMeans, EventMerge, EventMergeMeans, EventReconcile | match confidence, the reconciliation planner, and its application to the tables |
| Registry, RegistryTheorems | the event normalizer and the source-id index |
| Alerts, AlertTheorems | health alerts |
| AuditQueue, AuditQueueMeans | the bounded audit queue |
| RateLimit, RateLimitTheorems, RateLimitMeans | the API limiter and the collector's token bucket |
| ScanWorker | the self-rescheduling worker |
| Keyset, KeysetTheorems, KeysetAudit | keyset pagination |

Objects whose methods change fields are classes; each method's contract equates the new state with a
function of the old one, and the theorems are about those functions. Money, odds, tolerances and
token counts are exact reals, and the solver's tolerances are parameters (`Simplex.SOURCE_SETTINGS`
holds the source's values). Asynchronous code is a state machine: what runs between two awaits is one
step, and theorems hold for every order of steps.

## Where the code says more or less than its comments

- `packages/arbitrage/src/simplex.ts:111` reports "optimal" when the iteration cap runs out, and the
  penalty of line 153 is finite. Optimality is therefore stated for exits without an entering column
  and with artificials at 0 (`SimplexTheorems.OptimalVerdict`); `SimplexPenalty.LargeEnough` and
  `SimplexPenalty.SmallEnoughPrices` say when the penalty suffices, and `SimplexPenalty.HugeCostIsNotSolved`
  gives the family on which it does not. For the same reason a bounded program can be called unbounded
  (`SimplexDuality.PinnedIsReportedUnbounded`).
- The tolerant ratio test keeps right-hand sides non-negative only for tolerance 0
  (`SimplexRun.TolerantPivotCanGoNegative`).
- The grid of `packages/outcome-engine/src/state-model.ts` stands for all scores on one period and one
  kind of market. A handicap beside a team total on a whole line above 1 escapes it
  (`ScoreSpace.MixedMarketsEscape`), and so do totals of both halves (`ScoreSpace.MixedPeriodsEscape`);
  candidate generation mixes neither (`Scan.CompatibleIsOneShape`). Caps and overrides cut it short exactly
  from the lines they do not reach on (`ScoreSpace.CapsAndOverridesCutShort`).
- The prefilter's complement test lets negative totals through, where one side always wins
  (`PriceFilter.PrefilterLosesOnlyNegativeTotals`).
- `componentPayouts` without components pays a half result differently from `payout`
  (`Settlement.PayoutWithoutComponents`).
- `participant` overrides `outcome` for handicaps (`packages/settlement/src/settle.ts:273`); it is modelled so.
- The audit queue is called bounded by construction (`packages/db/src/audit.ts:105-106`), but a row put back
  may outgrow it (`AuditQueue.OutgrowsWhen`), and a queue that is full while idle never drains again
  (`AuditQueue.StuckForever`, `AuditQueue.StuckIsReachable`).
- The registry's source-id keys are joined with a colon and collide exactly when a part contains one
  (`RegistryTheorems.KeyIsItsOwn`), and only the best-scoring candidate is judged, so a near match can go
  unnoticed (`RegistryTheorems.NearMatchMissed`); `RegistryTheorems.NearMatchNoticedExactlyWhen` says when.
- The API limiter forgets callers by age alone; that shows in an answer unless `pruneAfterMs` refills a
  whole bucket (`RateLimitTheorems.PruningNeverShowsExactlyWhen`).
- A capacity below one token makes the API limiter refuse everything and the collector's `acquire` wait
  for ever (`RateLimitTheorems.BelowOneAdmitsNothing`); a clock that steps back is credited twice
  (`RateLimitTheorems.SteppingBackCreditsExactlyWhen`).
- The list of audit logs sorts by time but continues by id (`packages/db/src/api/repo.ts:476-499`), so it loses
  rows exactly when ids do not grow with time (`KeysetAudit.AuditsSeenExactlyWhen`).

## Model

| member | source | states |
|---|---|---|
| SimplexTableau.PivotPreservesSolutions | packages/arbitrage/src/simplex.ts:61-77 | A pivot on a non-zero entry leaves the solution set of the augmented system exactly as it was |
| SimplexTableau.PivotKeepsCanonical | packages/arbitrage/src/simplex.ts:61-77 | A pivot keeps every basic column a unit vector |
| SimplexTableau.BasicSolves | packages/arbitrage/src/simplex.ts:164-167 | In canonical form the basic solution solves the system, holds the right-hand sides in the basic places and 0 elsewhere, and is non-negative when they are |
| SimplexTableau.ObjectiveIdentity | packages/arbitrage/src/simplex.ts:83-87 | On every solution the objective is the basic value plus what the reduced costs charge |
| SimplexTableau.NoEnteringColumnIsOptimal | packages/arbitrage/src/simplex.ts:80-92 | When no reduced cost is below -eps the basic solution is beaten by no non-negative solution by more than eps times the sum of its entries |
| SimplexRun.ExactRatioTest | packages/arbitrage/src/simplex.ts:94-106 | With tolerance 0 the ratio test picks the least ratio, ties going to the lowest basic column |
| SimplexRun.ExactMoveKeepsRhs | packages/arbitrage/src/simplex.ts:94-110 | With tolerance 0 every pivot the rules choose keeps all right-hand sides non-negative |
| SimplexRun.TolerantPivotCanGoNegative | packages/arbitrage/src/simplex.ts:100-102 | For every positive tolerance there is a canonical tableau with non-negative right-hand sides that the chosen pivot leaves with a negative one |
| SimplexRun.PivotValue | packages/arbitrage/src/simplex.ts:61-77 | A pivot moves the objective by the leaving row's ratio times the reduced cost of the entering column |
| SimplexRun.UnboundedRay | packages/arbitrage/src/simplex.ts:105-108 | A column with a negative reduced cost and no positive entry gives feasible points below any bound |
| SimplexBland.NoCycleCore | packages/arbitrage/src/simplex.ts:81-104 | The lowest-index choices cannot both have been made around a cycle: the entering column would have had no negative reduced cost |
| SimplexBland.NoBasisTwice | packages/arbitrage/src/simplex.ts:79-112 | With tolerance 0 no run of a phase visits a basis twice |
| SimplexBland.PhaseStops | packages/arbitrage/src/simplex.ts:79-112 | With tolerance 0 and at least as many iterations as there are bases, a phase never ends at its cap |
| SimplexBland.OptimalExit | packages/arbitrage/src/simplex.ts:80-92 | A phase that stops for want of an entering column is optimal over all non-negative solutions, up to eps times the sum of their entries |
| SimplexBland.UnboundedExit | packages/arbitrage/src/simplex.ts:105-108 | An exact unbounded exit is right: the objective falls below every bound |
| Simplex.StartSolves | packages/arbitrage/src/simplex.ts:43-59 | Solving the starting tableau is solving the constraints, rows with a negative right-hand side flipped, up to the artificials |
| Simplex.SolutionIffArtificialsZero | packages/arbitrage/src/simplex.ts:43-59 | A solution of the starting tableau solves the constraints if and only if its artificials are 0 |
| Simplex.DriveOutKeeps | packages/arbitrage/src/simplex.ts:135-150 | Driving artificials out changes neither the solution set nor the canonical form |
| SimplexTheorems.SolvesIffArtificialsZero | packages/arbitrage/src/simplex.ts:152-173 | A reported optimum solves the constraints if and only if every artificial ended at 0, whatever stopped phase two |
| SimplexTheorems.OptimalVerdict | packages/arbitrage/src/simplex.ts:114-173 | When phase two stopped for want of an entering column and the solution solves the constraints, no feasible point is cheaper by more than eps times the sum of its entries |
| SimplexTheorems.PhaseOneBound | packages/arbitrage/src/simplex.ts:114-133 | The artificial sum phase one ends at is at most eps times the entry sum of any feasible point |
| SimplexTheorems.ExactHandover | packages/arbitrage/src/simplex.ts:114-150 | With tolerance 0 the handover to phase two fails exactly when some artificial could not be brought to 0 |
| SimplexTheorems.ExactInfeasible | packages/arbitrage/src/simplex.ts:114-143 | With tolerance 0 and phase one not cut short, the infeasible verdict is given if and only if nothing is feasible |
| SimplexPenalty.LargeEnough | packages/arbitrage/src/simplex.ts:153 | The artificial cost is large enough as soon as some feasible point is worth its price under row prices all below it: the artificials then end at 0 |
| SimplexPenalty.SmallEnoughPrices | packages/arbitrage/src/simplex.ts:153 | Conversely, artificials at 0 come with row prices of at most the artificial cost under which some feasible point is worth its price |
| SimplexPenalty.HugeCostIsNotSolved | packages/arbitrage/src/simplex.ts:152-173 | On one variable fixed to 1 the solver is right exactly when the price is at most the artificial cost plus eps; above that it reports an infeasible point as optimal |
| SimplexDuality.ExactVerdicts | packages/arbitrage/src/simplex.ts:28-174 | With tolerance 0 and enough iterations: infeasible if and only if nothing is feasible; unbounded if and only if something is and no row prices of at most the artificial cost hold the objective above any value; otherwise a non-negative optimum, which solves the constraints whenever some feasible point is worth its cost under prices below the artificial cost, and then no feasible point is cheaper |
| SimplexDuality.RunsOffExactlyWhen | packages/arbitrage/src/simplex.ts:152-162 | A feasible program falls below every bound if and only if no row prices of any size hold its objective up (weak and strong duality) |
| SimplexDuality.NoBoundIsRightExactlyWhen | packages/arbitrage/src/simplex.ts:152-162 | A program that runs off is always reported; the verdict is wrong if and only if something is feasible and prices hold the objective up but none of them stays within the artificial cost |
| SimplexDuality.PinnedIsReportedUnbounded | packages/arbitrage/src/simplex.ts:135-162 | On one variable pinned to 0 by -x = 0, minimising -price x, the verdict is unbounded exactly when the price exceeds the artificial cost plus eps, although the optimum is 0 |
| SimplexInPlace.Solver.PivotAt | packages/arbitrage/src/simplex.ts:61-77 | The in-place pivot turns the arrays into the pivoted tableau |
| SimplexInPlace.Solver.Phase | packages/arbitrage/src/simplex.ts:79-112 | The in-place loop ends in the tableau and with the exit that the specified run of a phase ends with |
| SimplexInPlace.Solver.DriveArtificialsOut | packages/arbitrage/src/simplex.ts:135-150 | The in-place loop over basic artificials ends as the specified drive does, or is stuck when it is |
| SimplexInPlace.SimplexMinimize | packages/arbitrage/src/simplex.ts:28-174 | The solver over arrays returns exactly the specified verdict, solution and objective |
| Maximin.ProgramMeans | packages/arbitrage/src/optimizer.ts:63-101 | The points of the linear program are the non-negative vectors whose state rows and two sum rows hold |
| MaximinTheorems.ArtificialsVanish | packages/arbitrage/src/optimizer.ts:63-112 | For any positive penalty an exact optimal end of this program has every artificial at 0: its point, repaired, would otherwise be cheaper |
| MaximinTheorems.NeverUnbounded | packages/arbitrage/src/optimizer.ts:63-112 | Phase two of this program never ends unbounded |
| MaximinTheorems.ProgramSolved | packages/arbitrage/src/optimizer.ts:63-112 | The exact solver always reports a feasible, cheapest point of this program |
| MaximinTheorems.MaximinSplit | packages/arbitrage/src/optimizer.ts:63-112 | The split found is non-negative, sums to 1, and no other split of 1 has a larger smallest return |
| Optimizer.SolveMaximin | packages/arbitrage/src/optimizer.ts:63-112 | The rows filled in loops are the specified program, and the fractions returned are read off its solution |
| Optimizer.OptimizeStakes | packages/arbitrage/src/optimizer.ts:114-157 | The method returns the specified plan, or the error for empty, misaligned or non-positive input |
| Optimizer.StakesAddUp | packages/arbitrage/src/optimizer.ts:132-157 | Stakes are non-negative, never add up to more than the total, and add up to exactly the total unless the fractions vanish |
| Optimizer.MinimumIsLeast | packages/arbitrage/src/optimizer.ts:140-157 | The reported minimum is the return of some state and no state returns less |
| Optimizer.ProfitIsReported | packages/arbitrage/src/optimizer.ts:140-157 | The guaranteed profit is the minimum less the total, the return on investment times the total is that profit, and the plan is an arbitrage exactly when the minimum exceeds the total by more than 1e-9 |
| Optimizer.NoBetterPlan | packages/arbitrage/src/optimizer.ts:114-157 | With an exact solver the plan stakes the whole total, and every other non-negative split of the total has a state that returns no more than the plan's minimum |
| Lines.FormatRoundTrip | packages/settlement/src/line.ts:15-30 | Every amount of hundredths, printed, parses back to itself |
| Lines.SplitParsesBack | packages/settlement/src/line.ts:45-51 | The printed component lines of any parsed line parse back to the component values |
| Lines.QuarterSplit | packages/settlement/src/line.ts:32-51 | A quarter line of two decimals splits into the line minus and plus 0.25 |
| Lines.ComponentsShape | packages/settlement/src/line.ts:32-51 | No component lies beyond the ceiling of the line, and two components are a whole and a half line half a unit apart |
| Settlement.SettleNeverThrows | packages/settlement/src/settle.ts:91-150 | No selection on any line and integer counts mixes winning with losing components: settlement gives a reason, or components and the result they combine to |
| Settlement.TotalOnQuarterStep | packages/settlement/src/settle.ts:91-122 | A total on a quarter-step line settles by how far the count is clear of the line |
| Settlement.HandicapOnQuarterStep | packages/settlement/src/settle.ts:124-150 | A handicap on a quarter-step line settles by how far the adjusted margin is from level |
| Settlement.OverUnderMirror | packages/settlement/src/settle.ts:91-122 | OVER and UNDER of one line settle to mirrored results for every line and count |
| Settlement.HandicapMirror | packages/settlement/src/settle.ts:124-150 | The two sides of a handicap at opposite lines of two decimals settle to mirrored results |
| Settlement.MirrorCombines | packages/domain/src/settlement.ts:15-41 | Mirrored components combine to the mirrored result, and are refused together |
| Settlement.ComponentsPayTheResult | packages/settlement/src/payout.ts:16-44 | Component payouts of a settlement sum to the payout of its result |
| Settlement.PayoutWithoutComponents | packages/settlement/src/payout.ts:36-59 | Without components the breakdown sums to the payout if and only if the stake is 0, the result is no half result, or it is a half win at odds of 1 |
| SettlementMeans.StatusDecides | packages/settlement/src/settle.ts:222-240 | Cancelled, abandoned and postponed events void every selection, other unfinished ones leave it open as not finished, and a finished one leaves it open for want of a score exactly when its period, corners or cards have none |
| SettlementMeans.RealScores | packages/settlement/src/settle.ts:58-78 | A finished match has exactly one pair of natural counts in each period of normal time, the second half being what the first leaves when it is not given |
| SettlementMeans.ResultsMean | packages/settlement/src/settle.ts:152-190 | On counts h and a: HOME wins in full if and only if h is larger, AWAY if and only if a is, exactly one of HOME, DRAW and AWAY wins, each double chance wins if and only if one of its two results does, what does not win loses in full, and any other outcome is unsupported |
| SettlementMeans.BttsMeans | packages/settlement/src/settle.ts:192-207 | BTTS_YES wins if and only if both sides have scored, BTTS_NO if and only if it does not, and what does not win loses |
| SettlementMeans.ExactScoreMeans | packages/settlement/src/settle.ts:209-219 | An exact score wins if and only if its text spells the counts, leading zeros allowed, loses on any other scoreline, and is unsupported when it spells none |
| SettlementMeans.TotalMeans | packages/settlement/src/settle.ts:91-122 | A total over the counts of its family (both sides, one team, corners or cards), on any line that parses, settles by how far the count is beyond the line in the bet's direction: in full, except half of it within half a unit of a line whose nearest hundredths end in 25 or 75, and as a push on the line |
| SettlementMeans.TotalFaults | packages/settlement/src/settle.ts:91-103 | A total that cannot settle names the missing participant, the missing line, the invalid line or the outcome, in that order; every other total settles |
| SettlementMeans.HandicapMeans | packages/settlement/src/settle.ts:124-150 | A handicap settles in the same way by the lead of the side it backs with the line added; the participant says which side when there is one, and otherwise the outcome does |
| SettlementMeans.HandicapFaults | packages/settlement/src/settle.ts:260-275 | A handicap that cannot settle names the outcome, the missing line or the invalid line, in that order; every other handicap settles |
| Coordinates.ClampSettles | packages/outcome-engine/src/state-model.ts:112-139 | Clamping each coordinate past the boundary changes no coordinate market's settlement |
| Coordinates.MarginSettles | packages/outcome-engine/src/state-model.ts:112-139 | Clamping the margin past the boundary changes no margin market's settlement |
| Coordinates.SettlingIgnoresScore | packages/settlement/src/settle.ts:222-317 | Whether a selection settles at all does not depend on the score |
| StateModel.SettleVector | packages/outcome-engine/src/state-model.ts:146-173 | The loop returns the vector of results, null where a selection does not settle, and exactly those indices |
| StateModel.BoundaryMax | packages/outcome-engine/src/state-model.ts:112-134 | The loop returns the largest boundary of the selections |
| StateModel.BuildGoalClasses | packages/outcome-engine/src/state-model.ts:175-217 | One grid point per distinct vector of the goal selections, and every grid point's vector is represented |
| StateModel.BuildCountClasses | packages/outcome-engine/src/state-model.ts:219-253 | The same for corner and card counts |
| StateModel.BuildStateModel | packages/outcome-engine/src/state-model.ts:255-336 | The states are exactly the distinct settled vectors that the goal, corner and card grids reach together |
| ScoreGrid.EnumerateGoals | packages/outcome-engine/src/state-model.ts:188-216 | The nested loops visit exactly the square of scores, with every first half inside each when one is needed |
| ScoreSpace.SettlesByScore | packages/settlement/src/settle.ts:222-317 | A selection settles by the score of its period or its count alone, and alike past its boundary |
| ScoreSpace.ModelledSettles | packages/outcome-engine/src/state-model.ts:268-290 | A selection is modelled exactly when it is in scope and settles on every finished match |
| ScoreSpace.StatesAreReal | packages/outcome-engine/src/state-model.ts:255-336 | Every state is reached by a finished match, for any mixture of selections |
| ScoreSpace.RealIsState | packages/outcome-engine/src/state-model.ts:112-139 | On one period and one kind of market, below the caps, the vector of every finished match of any size is a state |
| ScoreSpace.ModelIsExact | packages/outcome-engine/src/state-model.ts:112-336 | There, the states are exactly the settlement vectors of all finished matches |
| ScoreSpace.MixedMarketsEscape | packages/outcome-engine/src/state-model.ts:112-139 | An Asian handicap beside a team total on one whole line n: a real score pushes both, and a grid holds that vector if and only if it reaches 2n, which the derived grid does for n at most 1 |
| ScoreSpace.MixedPeriodsEscape | packages/outcome-engine/src/state-model.ts:112-139 | Over n and a half in either half: a real match wins both, and a grid holds that vector if and only if it reaches 2n + 2 goals and n + 1 in the first half; one that ends a goal past the line does so for n = 0 only |
| ScoreSpace.CapsAndOverridesCutShort | packages/outcome-engine/src/state-model.ts:134-137 | A team total over n and a half is won by a real match, and by a state of the model if and only if the override exceeds n or, without one, n is below the cap of 12 |
| Coverage.PushAllTally | packages/arbitrage/src/coverage.ts:170-185 | Counting repeated verdicts on one entry loses none |
| Coverage.DetectFalseArb | packages/arbitrage/src/coverage.ts:187-348 | The report is the first structural fault, or the review of every state of the model |
| CoverageTheorems.ReviewMeans | packages/arbitrage/src/coverage.ts:246-348 | A review is exhaustive exactly when every state has a leg that wins at least half, exclusive exactly when no two legs on one metric both win in a state, and covered when both |
| CoverageTheorems.ReportCounts | packages/arbitrage/src/coverage.ts:246-336 | The counts of a report account for every overlap on one metric, for every state that all of two or more legs lose in full, and for every other state in which no leg wins; the gaps are exactly the states in which none does |
| CoverageMeans.OverlapsMean | packages/arbitrage/src/coverage.ts:249-283 | A same-metric overlap is reported for a state if and only if two legs or more of that family, period and participant win in it, and it names all of them in order |
| CoverageMeans.CrossOverlapsMean | packages/arbitrage/src/coverage.ts:280-287 | A cross-metric overlap is reported for a state if and only if two legs on different markets win in it, and it names all the legs that do, in order |
| CoverageMeans.RejectionsMean | packages/arbitrage/src/coverage.ts:170-185 | Merged rejections hold one entry for each reason that came up, and no other: the first verdict of the reason with the number of them |
| CoverageTheorems.CoveredMeans | packages/arbitrage/src/coverage.ts:187-348 | Below the caps, on one period and kind of market: COVERED if and only if legs are given, differ, settle, and at every finished score some leg wins at least half and no two on one metric both win |
| CoverageTheorems.DefaultLimits | packages/arbitrage/src/coverage.ts:130-140 | Without overrides the limits lie past every boundary as long as no boundary reaches 40 |
| CoverageTheorems.DerivedLimitsCutShort | packages/arbitrage/src/coverage.ts:130-140 | Under the limits the coverage check derives, that winning vector is a state if and only if n is below 40 |
| Combinations.CombosComplete | packages/arbitrage/src/candidates.ts:240-253 | Every strictly increasing choice of k places is yielded |
| Combinations.CombosAscend | packages/arbitrage/src/candidates.ts:240-253 | Combinations are yielded in strictly increasing lexicographic order, so none twice |
| Combinations.Advance | packages/arbitrage/src/candidates.ts:245-251 | The in-place step moves the indices to the next combination, or reports that there is none |
| Combinations.Enumerate | packages/arbitrage/src/candidates.ts:240-253 | The generator terminates and yields exactly the listed combinations in that order |
| Candidates.GenerateCandidates | packages/arbitrage/src/candidates.ts:312-348 | The list is a generation: one candidate a key, never more than the cap; with unique ids that is exactly what `CandidateTheorems.GeneratesExactly` says of sets of priced selections |
| CandidateTheorems.KeysIdentify | packages/arbitrage/src/candidates.ts:255-272 | With unique ids two candidates have one key if and only if they have the same legs |
| CandidateTheorems.GenerationMeans | packages/arbitrage/src/candidates.ts:312-348 | Below the cap (20000 by default), with unique ids, any set of priced selections has exactly one candidate if it is worth one - one event and one period, the requested event if any, a size from max(minLegs or 2, 2) to maxLegs or 3, any two different selections of families that may be mixed - and none otherwise |
| CandidateTheorems.CandidateIsWorth | packages/arbitrage/src/candidates.ts:255-348 | Capped or not, each candidate is made of a set of priced selections that is worth one, in the order of their ids, and its key holds their event, period and ids |
| CandidateTheorems.GeneratesExactly | packages/arbitrage/src/candidates.ts:312-348 | The whole list: each candidate is for such a set, no two are for the same one, there are never more than the cap, and below it none is left out |
| CandidateTheorems.GenerationIsExact | packages/arbitrage/src/candidates.ts:312-348 | Below the cap, with unique ids, every compatible, selection-distinct pick from an event and period group with a size in range has exactly one candidate |
| CandidateTheorems.DistinctLegs | packages/arbitrage/src/candidates.ts:312-348 | No two candidates have the same legs, whether or not the cap was reached |
| Scan.PruneMeans | packages/arbitrage/src/candidates.ts:351-456 | A candidate has no verdict if and only if it survives every check |
| Scan.PruneNames | packages/arbitrage/src/candidates.ts:351-456 | Besides repeated selections, a verdict is given if and only if its fault is there, and with the ids of the faulty leg or of all legs: size, event, period, odds of at most 1.0000001, suspension, confidence below 0.8 or the minimum, age, a shared bookmaker where that is refused, families that may not be mixed, and two sides whose reciprocals reach 1 |
| Scan.CompatibleIsOneShape | packages/arbitrage/src/candidates.ts:140-159 | Pairwise compatible legs of one period all settle on the margin, or all on coordinates |
| Scan.ScanCandidates | packages/arbitrage/src/candidates.ts:479-509 | Every generated candidate, in order, is pruned, rejected, or planned as specified; the first exception of the optimizer ends the whole scan |
| ScanTheorems.ArbIsTrue | packages/arbitrage/src/candidates.ts:479-509 | For an ARB scan, at every finished match of any size the planned stakes return more than the total, which is at least their sum, when the state model's limits are not reached |
| ScanTheorems.ArbIsTrueByDefault | packages/arbitrage/src/candidates.ts:479-509 | The same without overrides, whenever no boundary reaches 40 |
| ScanTheorems.PlanKeepsItsWord | packages/arbitrage/src/candidates.ts:497-509 | Within the limits, a plan's stakes are non-negative and add up to no more than the total, its minimum is the least they return at any finished match and is returned at one, its profit is what that leaves over the total, and the scan is ARB if and only if the minimum exceeds the total by more than the tolerance |
| ScanTheorems.ArbIsFound | packages/arbitrage/src/candidates.ts:479-509 | With an exact solver, a planned candidate for which some non-negative split of the total returns more than the total and the tolerance at every finished match is ARB |
| ScanTheorems.ScanIsTrue | packages/arbitrage/src/candidates.ts:479-509 | PRUNED if and only if a check fails; and within the state model's limits REJECTED if and only if the candidate survives and some finished match is not covered or a leg may not settle, ARB if and only if the stakes return more than the total and the tolerance at every finished match, NO_ARB for all other plans; with an exact solver, every survivor that covers all matches and has a split that profits at all of them is ARB |
| ScanTheorems.ScanForArbitrages | packages/arbitrage/src/candidates.ts:479-509 | The scan with the real settlement, for any priced selections and options: one scan per generated candidate, in order, each with its true status as in `ScanTheorems.ScanIsTrue`, and with unique ids the candidates are exactly the sets worth one; it throws only for a total that is not positive, or for a covered survivor on which the solver is not exact |
| ScanTheorems.ThrowsOnlyWhen | packages/arbitrage/src/candidates.ts:497-499 | A covered candidate makes the optimizer throw for a total that is not positive, and otherwise only when the solver is not exact on its program |
| PriceFilter.NothingBeatsTwoSided | packages/arbitrage/src/candidates.ts:447-453 | If some match favours each leg with the other mirrored, or some match loses both, and reciprocals reach 1, no split profits at every finished score |
| PriceFilter.PrefilterLosesOnlyNegativeTotals | packages/arbitrage/src/candidates.ts:172-195 | A complement the prefilter drops has a split that profits at every finished score if and only if it is a total on a negative line |
| Matching.ConfirmedMeans | packages/normalization/src/matching.ts:159-168 | Above 0.5 only events whose teams agree are confirmed, above 0.6 also competitions when both are named, above 0.7 also start times, except one provider's same event |
| Matching.ConfidenceMeans | packages/normalization/src/matching.ts:66-157 | The same source event is certain; otherwise the score in tenths is 5 for equal teams (or swapped ones where allowed), 3 for start times within the tolerance, and 2 for or against competitions that are both named, and each signal says which held |
| Matching.ConfidenceIsSymmetric | packages/normalization/src/matching.ts:66-157 | Which of two events is asked about does not matter |
| EventPlan.PlanEventReconcile | packages/normalization/src/event-reconcile.ts:149-241 | The loops over sorted events, groups and members give the specified plan, whose meaning `EventPlanMeans` proves |
| EventPlanTheorems.BeforeIsOrder | packages/normalization/src/event-reconcile.ts:111-126 | The winner order is a strict order |
| EventPlanMeans.PrecedesMeans | packages/normalization/src/event-reconcile.ts:81-126 | The planner's comparison puts a first if and only if, for every provider of the priority list b is bound to, a is bound to it or to an earlier one, and a is bound at all if b is; and, when that holds both ways, a was created earlier (character by character, a missing time first) or at the same time with the smaller id |
| EventPlanTheorems.PlanIgnoresOrder | packages/normalization/src/event-reconcile.ts:149-163 | Permuting a list of events with unique ids does not change the plan |
| EventPlanTheorems.PlanPartitions | packages/normalization/src/event-reconcile.ts:158-240 | Each event is listed once as a standalone, wins some fold, or loses exactly one; no loser wins; no other id is named |
| EventPlanTheorems.MergesAreConfirmed | packages/normalization/src/event-reconcile.ts:158-240 | Each fold pairs two given events of disjoint providers whose score reaches the confirm threshold, the winner before the loser in the winner order |
| EventPlanMeans.FoldsMean | packages/normalization/src/event-reconcile.ts:149-241 | Each fold takes a loser with exactly its bindings into a survivor that precedes it in that order, shares no provider with it and scores at least the threshold, the score and signals being those of the two events; no other survivor preceding the loser matches it with a higher score, nor with the same score if it precedes the winner |
| EventPlanMeans.SurvivorsDoNotMatch | packages/normalization/src/event-reconcile.ts:158-213 | Of two events that survive, without a shared provider, the later never reaches the threshold against the earlier |
| EventPlanMeans.FlagsMean | packages/normalization/src/event-reconcile.ts:183-212 | Each uncertain entry is a survivor and an earlier survivor without a shared provider whose teams agree below the threshold, and no such earlier survivor scores more |
| EventPlanMeans.ResemblingIsFlagged | packages/normalization/src/event-reconcile.ts:183-212 | Every survivor that so resembles an earlier survivor has an uncertain entry |
| EventPlanTheorems.ApplyAllHolds | packages/db/src/event-reconcile.ts:118-216 | After all folds exactly the events that lose none are left, each with its own bindings first and then all it gained (`EventReconcile.PlanApplies` ties this list to the tables) |
| EventPlanTheorems.PlanningIsIdempotent | packages/normalization/src/event-reconcile.ts:149-241 | Planning again after all planned folds are applied yields no folds |
| EventMerge.Store.MoveEpisodes | packages/db/src/event-reconcile.ts:139-169 | Episodes move to the winner; one whose structure and legs the winner already has is deleted and its opportunities move to that one |
| EventMerge.Store.ApplyEventMerge | packages/db/src/event-reconcile.ts:171-213 | A fold throws on an unknown event or a self-fold and changes nothing; otherwise all bindings, markets, opportunities and episodes are on the winner, the loser is gone and the counts are those moved |
| EventMerge.Store.ApplyReconcilePlan | packages/db/src/event-reconcile.ts:234-279 | Up to the maximum, each fold gets the status and the move counts of folding it into the tables the earlier ones left; a dry run counts and changes nothing; the two totals count those statuses |
| EventMerge.FoldAllKeeps | packages/db/src/event-reconcile.ts:245-276 | A run of folds keeps the tables consistent, removes one event for each applied fold, and leaves none of its folds applicable |
| EventMerge.AgainChangesNothing | packages/db/src/event-reconcile.ts:234-279 | Running the same plan again changes nothing and fails every fold without moving a row |
| EventReconcile.PlanApplies | packages/db/src/event-reconcile.ts:234-279 | On tables that list the planned events every fold of the plan applies; the tables then list the events after all folds, and planning again on them finds no fold |
| EventMerge.FoldKeepsTables | packages/db/src/event-reconcile.ts:139-213 | A fold leaves no dangling reference and keeps the unique index on episodes |
| EventMergeMeans.FoldMeans | packages/db/src/event-reconcile.ts:171-213 | A fold of two different events that are there moves exactly the loser's bindings, markets and opportunities to the winner and leaves every other row as it was, moves its episodes, drops those the winner has too and hands their opportunities to the winner's, removes the loser, and counts its rows; any other fold fails and changes nothing |
| EventMergeMeans.DryRunMeans | packages/db/src/event-reconcile.ts:216-232 | A dry run counts the loser's rows of each table whenever the loser is there, and fails otherwise |
| EventMerge.OpportunitiesStayBound | packages/db/src/event-reconcile.ts:139-213 | No opportunity is lost, none stays on the loser, and each stays on the event of its episode |
| Alerts.EvaluateHealthAlerts | packages/alerting/src/evaluate.ts:222-266 | The two loops give the specified events and rules |
| AlertTheorems.RunObeys | packages/alerting/src/evaluate.ts:126-220 | Over any inputs for one id, the state summarises the unbroken bad run and the events obey the protocol: a resolution closes an open firing, a firing opens an incident or worsens it or comes at least renotifyMs after the last |
| AlertTheorems.AtMostTwoFirings | packages/alerting/src/evaluate.ts:189-206 | Without re-notification no incident fires three times |
| AlertTheorems.OpenMeans | packages/alerting/src/evaluate.ts:126-266 | An incident is open only during a bad run as long as the hysteresis, and is open whenever such a run ends at or above the floor |
| AlertTheorems.EvaluateProjects | packages/alerting/src/evaluate.ts:222-266 | One evaluation moves each id exactly as its own observation, or its absence, says |
| AlertTheorems.RunProjects | packages/alerting/src/evaluate.ts:222-266 | A run of evaluations is, id by id, a run of that id alone |
| AlertTheorems.RunIsLegal | packages/alerting/src/evaluate.ts:126-266 | Over any run of snapshots without repeated sources the events of each id obey the protocol |
| AlertTheorems.RunFiresSince | packages/alerting/src/evaluate.ts:126-266 | Every firing names the first observation of its id's unbroken bad run, which is at least as long as the hysteresis |
| AlertTheorems.RunSends | packages/alerting/src/evaluate.ts:126-220 | Over any inputs of one id, an input sends a FIRING if and only if it ends a bad run at least max(1, hysteresis) long at or above the floor (critical keeps DEGRADED back) and no firing is open, or the level is above the last firing's severity, or renotifyMs > 0 and at least renotifyMs have passed since it; a RESOLVED if and only if a firing is open and the bad run ended; and otherwise nothing - with the severity, levels, time and first observation of the run each names |
| AlertTheorems.SnapshotSends | packages/alerting/src/evaluate.ts:222-266 | So does every snapshot of a run for every id, by what the snapshots say of the cycle and of the source of that key |
| AuditQueue.Stale | packages/db/src/audit.ts:117-128 | The rows shed are the longest run of too-old rows at the head |
| AuditQueue.CreateAuditQueue | packages/db/src/audit.ts:96-98 | Limits that are not positive are refused; otherwise the queue starts empty and idle |
| AuditQueue.Queue.ShedOld | packages/db/src/audit.ts:117-128 | The loop drops exactly the too-old rows at the head and counts them |
| AuditQueue.Queue.PersistRows | packages/db/src/audit.ts:130-134 | What persist does before its first await is the specified step |
| AuditQueue.Queue.SettleWrite | packages/db/src/audit.ts:136-161 | A settled write is counted, dropped, or put back at the front, as specified |
| AuditQueue.Queue.ResumeDrain | packages/db/src/audit.ts:176-189 | What the drain does after a persist, up to the next await, is the specified step |
| AuditQueue.Queue.EnqueueRow | packages/db/src/audit.ts:193-206 | A full queue counts the row as dropped and starts no drain; otherwise the row is queued and the drain starts or is flagged |
| AuditQueue.RunSound | packages/db/src/audit.ts:117-206 | Over every interleaving one drain runs at a time, batches never exceed their size, and queued plus batch is at most maxQueueSize plus batchSize |
| AuditQueue.RunConserves | packages/db/src/audit.ts:117-206 | Over every interleaving every additive measure of the accepted rows is that of the written, shed, lost, queued and batched rows |
| AuditQueue.EveryRowIsSomewhere | packages/db/src/audit.ts:117-206 | Every accepted row is in exactly one place as often as it was accepted: none is lost, doubled or written twice |
| AuditQueue.CountersAddUp | packages/db/src/audit.ts:117-206 | Accepted rows are drained, dropped as too old, refused by the writer, queued or in the batch, in numbers |
| AuditQueue.OutgrowsWhen | packages/db/src/audit.ts:103-106 | A step takes the queue above maxQueueSize if and only if it puts a row back into a full queue |
| AuditQueue.NothingLeftBehind | packages/db/src/audit.ts:164-191 | In any run without a retryable failure the idle queue is empty |
| AuditQueue.WakesWhen | packages/db/src/audit.ts:193-206 | An idle queue starts to drain on the next row if and only if it is not full |
| AuditQueue.StuckForever | packages/db/src/audit.ts:193-206 | Once idle and full the queue keeps its rows for ever, whatever happens, and drains none |
| AuditQueue.FailBatch | packages/db/src/audit.ts:130-206 | When every write of a batch fails, all its rows come back in front of the queue in reverse order |
| AuditQueue.StuckIsReachable | packages/db/src/audit.ts:130-206 | For every maxQueueSize, batchSize and age, any maxQueueSize + 1 rows that arrive before the first write settles reach that state when the writes fail, all of them still queued |
| AuditQueueMeans.ArrivalMeans | packages/db/src/audit.ts:193-206 | A row that finds maxQueueSize rows queued is counted as refused and changes nothing else; otherwise it is queued, and either flags the running drain or starts one that sheds exactly the rows at the head older than maxQueueAgeMs and takes the next ones, up to batchSize |
| AuditQueueMeans.WriteMeans | packages/db/src/audit.ts:136-161 | A write counts its row as drained, or as failed for good; on a retryable failure the row goes back to the front, unless it was older than maxQueueAgeMs when the batch was taken, and is then dropped and counted; the next row of the batch follows |
| AuditQueueMeans.ReturnMeans | packages/db/src/audit.ts:164-191 | After a persist the drain takes rows again if any are queued, none came back and the queue is not full; or if rows arrived meanwhile, once; otherwise it ends |
| AuditQueueMeans.EveryArrivalCounts | packages/db/src/audit.ts:193-206 | Over every interleaving the rows that arrived are those accepted and those counted as refused |
| AuditQueueMeans.OnlyOldRowsAreShed | packages/db/src/audit.ts:117-161 | Over every interleaving a row is dropped as too old only if it was older than maxQueueAgeMs at some time of the run |
| RateLimit.ApiRateLimiter.Consume | apps/web/lib/security/rate-limit.ts:56-80 | The answer and the new buckets are those specified for the caller's bucket and the clock |
| RateLimit.ApiRateLimiter.MaybePrune | apps/web/lib/security/rate-limit.ts:91-97 | Every 256th consult removes exactly the buckets untouched for longer than pruneAfterMs |
| RateLimit.NewLimiter | apps/web/lib/security/rate-limit.ts:47-54 | A capacity or rate that is not positive is refused |
| RateLimit.TokenBucketRateLimiter.Refill | workers/odds-collector/src/rate-limit.ts:51-57 | Refilling adds the elapsed tokens up to the capacity, and changes nothing unless time has passed |
| RateLimit.TokenBucketRateLimiter.QueuedMs | workers/odds-collector/src/rate-limit.ts:59-63 | The wait reported is 0 with a token and otherwise the time to the next one |
| RateLimit.TokenBucketRateLimiter.Acquire | workers/odds-collector/src/rate-limit.ts:65-73 | Alone, with a capacity of at least one, acquire sleeps at most once and takes one token |
| RateLimitMeans.ConsultMeans | apps/web/lib/security/rate-limit.ts:56-80 | A caller holds the capacity at first, and later what was left plus refillPerSecond / 1000 for each millisecond passed, up to the capacity; with a token it is let through with one less, and otherwise is told the first whole number of milliseconds after which it has one |
| RateLimitMeans.ConsumedMeans | apps/web/lib/security/rate-limit.ts:56-97 | A consult touches the bucket of its caller alone, except that every 256th one forgets exactly the buckets untouched for longer than pruneAfterMs |
| RateLimitMeans.CollectorMeans | workers/odds-collector/src/rate-limit.ts:51-73 | The collector's bucket holds what a caller's would, keeps its time unless time has passed, and gives away one token at a time |
| RateLimitTheorems.LevelIsLeastRoom | apps/web/lib/security/rate-limit.ts:56-80 | The level of a bucket is the least room that any window of its requests leaves |
| RateLimitTheorems.AdmittedExactlyWhen | apps/web/lib/security/rate-limit.ts:56-80 | A request is admitted if and only if every window of the caller's requests that ends with it stays within capacity plus refill |
| RateLimitTheorems.WindowBound | apps/web/lib/security/rate-limit.ts:56-80 | Any window of requests holds at most capacity plus refill grants |
| RateLimitTheorems.RetryAfterIsExact | apps/web/lib/security/rate-limit.ts:74-79 | In whole milliseconds and with no request in between, a refused caller is admitted if and only if it waits at least retryAfterMs |
| RateLimitTheorems.BelowOneAdmitsNothing | apps/web/lib/security/rate-limit.ts:63-65 | A capacity below one token admits nothing ever |
| RateLimitTheorems.CollectorSpends | workers/odds-collector/src/rate-limit.ts:51-73 | The collector's bucket grants and spends as that of one API caller, as long as its clock does not step back |
| RateLimitTheorems.CollectorRunIsKeyRun | workers/odds-collector/src/rate-limit.ts:51-73 | Over any run of tries and looks, the bucket grants its tries as that of one API caller does, whoever made them |
| RateLimitTheorems.CollectorWindowBound | workers/odds-collector/src/rate-limit.ts:51-73 | However many callers of acquire wait at once, the grants of any window of tries are at most capacity plus refill |
| RateLimitTheorems.AnsweredAlone | apps/web/lib/security/rate-limit.ts:56-97 | While the clock never drops by more than d and pruneAfterMs less d refills a whole bucket, each request is answered as if its caller were alone and never pruned |
| RateLimitTheorems.LimiterAdmitsExactlyWhen | apps/web/lib/security/rate-limit.ts:56-97 | With a clock that never steps back and pruneAfterMs long enough for a refill, the limiter over any run admits exactly the conforming requests |
| RateLimitTheorems.ForgettingIsInvisibleWhen | apps/web/lib/security/rate-limit.ts:91-97 | Forgetting a bucket never shows if and only if the bucket is full by then |
| RateLimitTheorems.PruningTooEarlyShows | apps/web/lib/security/rate-limit.ts:91-97 | For every config with room for a token and every d for which pruneAfterMs less d does not refill a bucket, a run with its 256th consult whose clock drops by at most d answers a request differently from the caller alone |
| RateLimitTheorems.PruningNeverShowsExactlyWhen | apps/web/lib/security/rate-limit.ts:56-97 | For every config and d, all runs whose clock drops by at most d answer all requests as if each caller were alone if and only if (pruneAfterMs - d) times the rate is at least the capacity or the capacity is below one token |
| RateLimitTheorems.SteppingBackCreditsExactlyWhen | apps/web/lib/security/rate-limit.ts:56-80 | For every config and d, all runs that come back to the time they started at, with a clock that drops by at most d, grant at most the capacity if and only if d is 0 or the capacity is below one token |
| RateLimitTheorems.ForwardBound | apps/web/lib/security/rate-limit.ts:56-80 | Whatever the clock does, what a caller was granted and has left is at most the capacity and a refill for every step forward |
| Registry.SourceIdIndex.ForCanonicalEvent | packages/normalization/src/source-ids.ts:41-53 | The loop lists exactly the bindings of the event, in order |
| Registry.SourceIdIndex.Snapshot | packages/normalization/src/source-ids.ts:55-66 | The loop lists all bindings in order |
| Tables.PutKeepsPlaces | packages/normalization/src/source-ids.ts:27-29 | Setting a key that is there keeps its place and every other entry |
| Tables.PutAtTheEnd | packages/normalization/src/source-ids.ts:27-29 | A new key goes to the end |
| Registry.EventNormalizer.FindBest | packages/normalization/src/registry.ts:104-123 | The loop finds the first stored event with the highest score |
| Registry.EventNormalizer.RegisterEvent | packages/normalization/src/registry.ts:79-139 | The result and the new events and index are those specified |
| Registry.EventNormalizer.constructor | packages/normalization/src/registry.ts:55-66 | The loops store the seeds and bind their sources |
| RegistryTheorems.KeySplitsBack | packages/normalization/src/source-ids.ts:16-18 | A key splits back into provider and id if and only if the provider has no colon |
| RegistryTheorems.KeysAreUnique | packages/normalization/src/source-ids.ts:16-18 | Providers without a colon never share a key between different source events |
| RegistryTheorems.KeyIsItsOwn | packages/normalization/src/source-ids.ts:16-18 | The key of a source is shared with no other source if and only if neither its provider nor its id has a colon |
| RegistryTheorems.BestMeans | packages/normalization/src/registry.ts:104-123 | The best candidate is stored and no stored event scores more |
| RegistryTheorems.RegisterKeeps | packages/normalization/src/registry.ts:79-196 | From a consistent state the index stays the union of the stored events' bindings, one event to a key |
| RegistryTheorems.RegisterExtends | packages/normalization/src/registry.ts:79-206 | A bound key keeps its event, a stored event keeps its sources, and an uncertain or failed registration changes nothing |
| RegistryTheorems.RegisterBinds | packages/normalization/src/registry.ts:141-196 | After a creation or a merge the key is bound to the event returned, and that event is stored |
| RegistryTheorems.RegisterAgain | packages/normalization/src/registry.ts:79-94 | Registering a provider event again finds the same event and changes nothing |
| RegistryTheorems.OnlyConfirmedMerge | packages/normalization/src/registry.ts:125-139 | An unseen provider event is merged only into a confirmed event with the highest score, and created only if no stored event is confirmed |
| RegistryTheorems.RunKeeps | packages/normalization/src/registry.ts:79-206 | Over every sequence of registrations each key belongs to one event for ever |
| RegistryTheorems.SeedsConsistent | packages/normalization/src/registry.ts:55-66 | Seeds with ids and keys of their own are consistent if and only if each id that looks like a key is one of their keys |
| RegistryTheorems.CreateOverwrites | packages/normalization/src/registry.ts:141-158 | A creation that replaces a stored event keeps the index the union of the bindings if and only if the event replaced had no sources |
| RegistryTheorems.NearMatchNoticedExactlyWhen | packages/normalization/src/registry.ts:104-139 | For every policy and state and an unseen key: a confirmed candidate is merged into the best; otherwise the event is held if and only if some stored event has its teams and either one of those shares the start time or the competition or no stored event shares both (or its own teams resolve to one name), and is created in all other cases |
| RegistryTheorems.NearMatchMissed | packages/normalization/src/registry.ts:104-139 | A run of three registrations from nothing in which an event with the same teams as a stored one is created, for all inputs, names and thresholds above one half in which the other stored event shares only the start time and the competition |
| ScanWorker.AlwaysOneAlive | workers/odds-collector/src/runtime.ts:429-500 | In every reachable state at most one live timer or cycle exists, exactly one between start and cancellation, and no timer can fire into a running cycle |
| ScanWorker.NoneAfterStop | workers/odds-collector/src/runtime.ts:451-465 | Once cancelled no cycle begins, and once none runs none runs again |
| ScanWorker.StopDisarms | workers/odds-collector/src/runtime.ts:493-498 | Stopping leaves no timer live in any reachable state |
| ScanWorker.RunsAtMost | workers/odds-collector/src/runtime.ts:429-500 | The cycles begun by a time are at most one per whole interval since the start, and one more when the first is immediate |
| ScanWorker.StartMeans | workers/odds-collector/src/runtime.ts:480-492 | Starting begins a cycle at once when immediate, and otherwise leaves one timer due exactly intervalMs later |
| ScanWorker.EndMeans | workers/odds-collector/src/runtime.ts:440-466 | A cycle that ends leaves one timer, due exactly intervalMs after the end, whether it failed or not, unless it failed under stopOnError, which cancels the worker |
| ScanWorker.TimerMeans | workers/odds-collector/src/runtime.ts:451-466 | The live timer begins a cycle as soon as it is due and not before |
| KeysetTheorems.TakenIsPage | packages/db/src/api/repo.ts:104-120 | A page is the first rows that meet the condition in order, and its cursor is there exactly when rows lie beyond its last row |
| KeysetTheorems.IdsPaginate | packages/db/src/api/repo.ts:130-137 | From any boundary the id lists give a page of the rows beyond it |
| KeysetTheorems.TimesPaginate | packages/db/src/api/repo.ts:165-202 | The same for events and opportunities, in either direction |
| KeysetTheorems.FollowOnTrack | packages/db/src/api/repo.ts:323-424 | While rows come and go between pages, the rows seen are in strict order and match, and every row that stays has been seen or lies beyond the cursor |
| KeysetTheorems.StayingRowsSeen | packages/db/src/api/repo.ts:323-424 | Once the last page is read every matching row that stayed throughout has been seen, and no place twice |
| KeysetTheorems.WalkVisitsAll | packages/db/src/api/repo.ts:104-120 | Over an unchanging table the walk ends and has visited exactly the matching rows, each once, in order |
| KeysetTheorems.EveryRowOnce | packages/db/src/api/repo.ts:323-424 | So do the API's lists of events, opportunities, markets and odds for any page size of at least 1 |
| KeysetAudit.AuditsSeenExactlyWhen | packages/db/src/api/repo.ts:476-499 | The list of audit logs, which sorts by time and continues by id: over an unchanging table every page size visits each matching row once, newest first, if and only if ids grow with time among them; otherwise some page size loses a row for good |

## Left out

- Floating point: numbers are exact reals and lines have the value they spell; rounding, overflow and infinities are not modelled.
- Candidate ids compare character by character where the source sorts legs with `localeCompare` (`packages/arbitrage/src/candidates.ts:256`), and `toLocaleLowerCase`, alias dictionaries and team resolution are functions about which nothing is assumed.
- Identifiers, notes, labels, titles, messages and console output that no decision reads; candidate keys are tuples instead of joined strings.
- `classifyStructure`, `bestPricePerSelection`, `reciprocalSum`, the classic two-way and three-way stakes, `payoffMatrix`, `settlementMatrix`, `validateCandidate`, the market planner, retention and retry schedules: single decisions or simple loops.
- Match statuses and market families that never settle keep their reason but not its text; sport-specific providers, HTTP, Prisma queries, webhooks, pages and scripts are not part of this model.
- ScoreSpace.ModelIsExact: is stated for one period and one kind of market with limits past every boundary, because outside that the grid need not be exact (`ScoreSpace.MixedMarketsEscape`, `ScoreSpace.MixedPeriodsEscape`, `ScoreSpace.CapsAndOverridesCutShort`).
- ScanTheorems.ScanForArbitrages: the meanings of REJECTED, ARB and NO_ARB are for limits of the state model that are not reached, since the caps and explicit overrides can cut the grid short (`ScoreSpace.CapsAndOverridesCutShort`, `CoverageTheorems.DerivedLimitsCutShort`); a missed arbitrage is excluded for an exact solver only.
- CandidateTheorems.GeneratesExactly: assumes unique ids of the priced selections, without which candidates with one key are merged by it.
- SimplexBland.NoBasisTwice: is stated for tolerance 0, because with a positive tolerance ratios that differ count as ties.
- Optimizer.NoBetterPlan: is stated for a solver without tolerance and with as many iterations as there are bases; at the source's tolerance `SimplexTheorems.OptimalVerdict` bounds the loss.
- EventMerge.Store.ApplyEventMerge: runs as one step, since the source runs it in one transaction; isolation between concurrent transactions and database errors other than missing events are left out.
- EventPlanTheorems.MergesAreConfirmed: is about each loser and its winner; the losers of one group are not compared with each other, as in the source.
- EventReconcile.PlanApplies: compares the bindings of an event as a set of keys, and does not model the order in which a query lists them; each fold carries the bindings its plan saw.
- AlertTheorems.RunIsLegal: assumes that no snapshot lists one source twice, as its keys are meant to be unique.
- AuditQueue.RunSound: no order of delivery and no eventual draining is claimed, because rows put back come back reversed (`AuditQueue.FailBatch`) and a full idle queue stays full (`AuditQueue.StuckForever`); the writer's untyped errors count as retryable, and log lines are left out.
- RateLimit.TokenBucketRateLimiter.Acquire: is one caller alone with a capacity of at least one token, below which it never returns (`RateLimitTheorems.BelowOneAdmitsNothing`); for callers that wait at once `RateLimitTheorems.CollectorRunIsKeyRun` and `RateLimitTheorems.CollectorWindowBound` hold over every order of their tries, and nothing is claimed about who is served first.
- RateLimitTheorems.AnsweredAlone: needs a bound on how far the clock drops that leaves pruning room; `RateLimitTheorems.PruningNeverShowsExactlyWhen` shows that it cannot do without it.
- Registry.Parses: takes any start time that is a number, where the schema wants an ISO date-time; sport and status keep their defaults, and a schema error is the result `Threw`.
- RegistryTheorems.RunKeeps: starts from a consistent state, which `RegistryTheorems.SeedsConsistent` characterises for seeds without a seeded index.
- ScanWorker.AlwaysOneAlive: the cycle itself and the promise returned by `stop` are left out; a scheduler that is not one-shot is not modelled.
- KeysetTheorems.EveryRowOnce: the filters are any condition on rows, times are whole milliseconds, and cursors are records; cursors a client made up or took from another list and `mode: "insensitive"` are left out.
