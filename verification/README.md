# Verified models of five FrankenEngine cores

A Dafny model, with proofs, of the five deterministic cores of FrankenEngine that keep state or loop:

* **Adversarial campaigns** (`Campaign`, `Minimizer`, `MinimizerOrder`, `Rng`, `Grammar`, `Mutation`, `Generator`, `Calibration`,
  `RedBlueLoop`): the delta-debugging minimizer, the xorshift64* generator and what is drawn from it, weighted grammars and
  their feedback, mutation operators, and the calibration loop with its receipts.
* **Activation lifecycle** (`Lifecycle`, `LifecycleCalls`, `LifecycleAudit`, `LifecycleRuns`, `LifecycleSafety`,
  `LifecycleController`): staged
  rollout, known-good pins, rollback, holdoff, checkpoints, crash-loop detection and the audit log.
* **EXP3 tournament** (`Exp3`, `Payoffs`, `Ledger`, `Tournament`): fixed-point mixed strategies, weight updates and the regret
  ledger.
* **Acquisition oracle** (`Oracle`, `Selection`, `Knapsack`, `Signals`, `Budget`): scoring, ranking, greedy selection within a
  budget, signal combination and budget allocation.
* **Array fast lanes** (`ArrayLane`, `ArrayLaneRuns`, `ArrayEngine`): element-kind transitions, deoptimization, receipts.

`Machine`, `Arithmetic` and `Sequences` hold machine integers (saturation, truncating division) and shared lemmas.

Each stateful core is given twice. A pure step function on values carries the theorems about one call and about whole runs.
A class with the source's fields, or a method with the source's loop, updates in place and is proved to compute that step.
`dafny verify dfyconfig.toml` checks everything.

## The main results

* The minimizer ends in a valid, still failing, 1-minimal subsequence of the original for every failure predicate, within a
  bound on its rounds; for monotone failures the result is globally minimal, and without monotonicity it hands back
  campaigns that are not.
* The lifecycle's audit log is complete: component states, holdoffs, retained crashes and rollouts in progress can be
  recomputed from it after every run that renames no component, and every finalized version went through the full rollout.
* Calibration without new evidence converges, from any parameters, within a known number of calls.
* The imperative tournament equals a pure one; its regret ledger equals the definition in hindsight exactly while 64 bits
  hold the sums.
* Greedy selection is within one proposal, and one millionth of gain per unit of budget, of every affordable choice.
* Array receipts replay to the lane history, and a lane that settled within its out-of-bounds limit stays there.

## Model

| member | source | states |
|---|---|---|
| `Minimizer.MinimizeWith` | crates/franken-engine/src/adversarial_campaign.rs:811-880 | For every campaign and every pure failure predicate: success exactly on valid, failing input; the result is valid, still failing, a subsequence of the original up to renumbering, 1-minimal when more than one step is left, differs from the original only in steps and `-min` suffixes; removed plus remaining steps is the original length; nothing is removed if and only if no aligned window of the widths tried can be deleted; rounds are at most removed steps + log2 of the first chunk + 1; result and rounds are those of the pure sequence of sweeps |
| `Minimizer.Sweep` | crates/franken-engine/src/adversarial_campaign.rs:834-869 | One round in place is the pure sweep and accounts for the removed steps; it reports a change exactly when some aligned window can be deleted, and then has shrunk the campaign; an unchanged round with window one proves 1-minimality |
| `Minimizer.TryWindow` | crates/franken-engine/src/adversarial_campaign.rs:840-858 | The campaign without the window, renumbered and suffixed, exactly when that leaves steps and still fails |
| `Minimizer.ShrunkIsMinimized` | crates/franken-engine/src/adversarial_campaign.rs:826-880 | What the pure sequence of sweeps ends in has every property promised of a minimized campaign |
| `Minimizer.UnsweptIffQuiet` | crates/franken-engine/src/adversarial_campaign.rs:834-869 | A round removes nothing exactly when no window it tries can be deleted |
| `MinimizerOrder.EveryWindowWasTried` | crates/franken-engine/src/adversarial_campaign.rs:826-871 | A minimizer that removes nothing has tried, at every multiple of each width, windows of half of the steps, a quarter, and so on down to single steps, and none of these deletions keeps the failure |
| `MinimizerOrder.FirstHalfIsTried` | crates/franken-engine/src/adversarial_campaign.rs:829-844 | The first window is the first half of the steps: if that deletion keeps the failure, something is removed |
| `MinimizerOrder.FirstRemovableGoesFirst` | crates/franken-engine/src/adversarial_campaign.rs:834-869 | Within a round the first window that can be deleted goes first, and the round goes on at its place |
| `MinimizerOrder.TheLastStepRemains` | crates/franken-engine/src/adversarial_campaign.rs:2689-2694 | An always-true predicate leaves exactly the last step of every campaign |
| `MinimizerOrder.FourStepsInFourRounds` | crates/franken-engine/src/adversarial_campaign.rs:826-880 | A probe under that predicate: two deletions in four rounds, of widths 2, 2, 1 and 1 |
| `Minimizer.ProgressOnAcceptance` | crates/franken-engine/src/adversarial_campaign.rs:844-869 | Deleting a window whose deletion still fails keeps validity and the embedding into the original and accounts for the removed steps and the id suffix |
| `Minimizer.GloballyMinimal` | crates/franken-engine/src/adversarial_campaign.rs:826-871 | If failure looks only at what the steps do and survives adding steps, no proper non-empty subsequence of the result fails |
| `Minimizer.MinimizingTwice` | crates/franken-engine/src/adversarial_campaign.rs:811-880 | For such failures minimization is idempotent on the steps |
| `Minimizer.UnchangedIff` | crates/franken-engine/src/adversarial_campaign.rs:826-871 | The minimizer hands a campaign back unchanged if and only if no window it tries can be deleted |
| `Minimizer.NotGloballyMinimal` | crates/franken-engine/src/adversarial_campaign.rs:826-871 | Without monotonicity only 1-minimality holds: for a failure absent at exactly two steps, every result of minimizing a three-step campaign is that campaign, although its first step alone fails |
| `Minimizer.AlwaysFailingLeavesOneStep` | crates/franken-engine/src/adversarial_campaign.rs:2689-2694 | An always-true predicate, as the one of a generator cycle, minimizes every campaign to exactly one step |
| `Minimizer.SubsequenceOfDeletion` | crates/franken-engine/src/adversarial_campaign.rs:840-852 | Every proper subsequence is still a subsequence after deleting one well-chosen element |
| `Campaign.Reindex` | crates/franken-engine/src/adversarial_campaign.rs:781-785 | Renumbers every step to its position, truncated to 32 bits, and changes nothing else |
| `Campaign.EveryFieldCounts` | crates/franken-engine/src/adversarial_campaign.rs:491-544 | A blank id, version or seed zero, no steps, one step misnumbered or one label blank makes any valid campaign invalid |
| `Campaign.TargetLengths` | crates/franken-engine/src/adversarial_campaign.rs:136-144 | Four, eight and twelve steps |
| `Rng.StepCanBeUndone` | crates/franken-engine/src/adversarial_campaign.rs:104-112 | The xorshift64* state step has an explicit inverse, so it is injective |
| `Rng.NeverZero` | crates/franken-engine/src/adversarial_campaign.rs:97-112 | A non-zero seed never leads to the zero state |
| `Rng.DrawnIsPositive` | crates/franken-engine/src/adversarial_campaign.rs:104-112 | The wrapping odd multiplication never outputs zero from a non-zero state |
| `Rng.Seeded` | crates/franken-engine/src/adversarial_campaign.rs:97-102 | Every seed but zero makes a generator in that state; zero is refused |
| `Rng.FirstDraws` | crates/franken-engine/src/adversarial_campaign.rs:104-112 | The first three states and numbers of the generator seeded with 2 |
| `Rng.DeterministicRng.NextU64` | crates/franken-engine/src/adversarial_campaign.rs:104-112 | Advances the state once, keeps it non-zero, returns the number of the new state |
| `Rng.DeterministicRng.ChooseIndex` | crates/franken-engine/src/adversarial_campaign.rs:114-119 | An index below the length from one draw; no draw for length zero |
| `Rng.DeterministicRng.RangeU64` | crates/franken-engine/src/adversarial_campaign.rs:121-127 | A number of the half-open range from one draw; the lower end and no draw for an empty range |
| `Grammar.SelectsOne` | crates/franken-engine/src/adversarial_campaign.rs:298-317 | No cursor position belongs to two productions |
| `Grammar.ResiduesOfProduction` | crates/franken-engine/src/adversarial_campaign.rs:298-317 | Exactly weight-many of the residues modulo the total select each production |
| `Grammar.LabelIsSelected` | crates/franken-engine/src/adversarial_campaign.rs:298-317 | The number drawn, modulo the sum of the weights, selects the production in whose stretch of the running sums it falls |
| `Grammar.LabelWithoutWeight` | crates/franken-engine/src/adversarial_campaign.rs:298-317 | A bucket without weight yields its last label, an empty one the placeholder |
| `Grammar.EveryBucketCounts` | crates/franken-engine/src/adversarial_campaign.rs:272-296 | Validity means version and all five buckets in order; emptying any of them loses it |
| `Grammar.WalkCursor` | crates/franken-engine/src/adversarial_campaign.rs:306-312 | The subtracting walk finds the production whose stretch contains the cursor, and runs out exactly for a cursor beyond the total |
| `Grammar.ChooseWeightedLabel` | crates/franken-engine/src/adversarial_campaign.rs:298-317 | For every bucket: the label selected by the drawn number modulo the total weight, from exactly one draw; the fallback only for a bucket without weight |
| `Grammar.RandomDimension` | crates/franken-engine/src/adversarial_campaign.rs:319-327 | The dimension numbered by one draw modulo five |
| `Grammar.DrawKind` | crates/franken-engine/src/adversarial_campaign.rs:337-397 | The step parameter of the dimension, in its own range, from one draw |
| `Grammar.StepIsGenerated` | crates/franken-engine/src/adversarial_campaign.rs:329-399 | Whatever three numbers are drawn, the step has a non-blank label of its dimension's bucket and parameters in range |
| `Grammar.StepIsDrawn` | crates/franken-engine/src/adversarial_campaign.rs:319-399 | Which residue draws which dimension, and from what range each dimension's parameter comes |
| `Grammar.StepFromStateTwo` | crates/franken-engine/src/adversarial_campaign.rs:329-399 | From state 2 the first draw gives the dimension, the second the label, the third the parameter |
| `Grammar.GenerateStep` | crates/franken-engine/src/adversarial_campaign.rs:329-399 | Succeeds exactly for a valid grammar; the step is the function of the generator state, which advances three times; failure draws nothing |
| `Grammar.CountHits` | crates/franken-engine/src/adversarial_campaign.rs:401-418 | How many steps carry each label, for exactly the labels that occur |
| `Grammar.AdjustBucket` | crates/franken-engine/src/adversarial_campaign.rs:436-444 | Only the first production of the name changes, by wrapping 32-bit addition floored at one |
| `Grammar.ApplyCampaignFeedback` | crates/franken-engine/src/adversarial_campaign.rs:401-434 | Every bucket gets exactly the tuned weights in place, and a valid grammar stays valid |
| `Grammar.TunedStaysValid` | crates/franken-engine/src/adversarial_campaign.rs:401-444 | No feedback of any strength makes a weight zero or a bucket invalid |
| `Grammar.OnlyFirstUsedIsTuned` | crates/franken-engine/src/adversarial_campaign.rs:401-444 | Only the first production of a label that some step carries is tuned; every other production keeps its weight |
| `Grammar.FeedbackLevels` | crates/franken-engine/src/adversarial_campaign.rs:413-428 | Twice the hits from 700_000 evasion on, the hits above 250_000, minus the hits otherwise |
| `Grammar.FeedbackIsExactIff` | crates/franken-engine/src/adversarial_campaign.rs:408-444 | A valid weight moves by exactly twice, once or minus the number of hits, floored at one, if and only if that sum fits 32 signed bits |
| `Grammar.SuccessCanCollapse` | crates/franken-engine/src/adversarial_campaign.rs:425-444 | Beyond it feedback inverts: a success of a production of weight 2^31 leaves it weight one |
| `Mutation.OperatedIsApplied` | crates/franken-engine/src/adversarial_campaign.rs:701-765 | Whatever the seed, each operator does only what its name says: one step replaced, a prefix joined to a non-empty donor suffix, one step inserted, one deleted, one temporal step shifted by 5 to 249 ms and not below one |
| `Mutation.ShiftStep` | crates/franken-engine/src/adversarial_campaign.rs:741-757 | Sampling with replacement, as many tries as steps, computes the pure search for a temporal step |
| `Mutation.ShiftFindsIff` | crates/franken-engine/src/adversarial_campaign.rs:741-757 | A shift finds a step if and only if one of the sampled positions holds a temporal one |
| `Mutation.ShiftCanMiss` | crates/franken-engine/src/adversarial_campaign.rs:741-763 | With seed 2 both samples from two steps take the first, and a temporal second step is missed |
| `Mutation.CoinDecidesDirection` | crates/franken-engine/src/adversarial_campaign.rs:741-757 | An even coin delays the step by 5 to 249 ms, an odd one hastens it by as much, not below one; the stage becomes the label |
| `Mutation.OperatorsOfSeedTwo` | crates/franken-engine/src/adversarial_campaign.rs:701-740 | What seed 2 replaces, inserts, deletes and crosses in every three-step campaign |
| `Mutation.FinishedIds` | crates/franken-engine/src/adversarial_campaign.rs:767-778 | A mutation keeps policy, version and complexity; campaign, trace and decision id are each derived from the one before |
| `Mutation.MutatePoint` | crates/franken-engine/src/adversarial_campaign.rs:701-704 | The replaced position and the new step are the function of the generator state |
| `Mutation.CrossSteps` | crates/franken-engine/src/adversarial_campaign.rs:705-726 | The two cuts are the function of the generator state; the result is never empty, so the generated fallback step is unreachable |
| `Mutation.InsertStep` | crates/franken-engine/src/adversarial_campaign.rs:727-731 | The inserted step and its position are the function of the generator state |
| `Mutation.DeleteStep` | crates/franken-engine/src/adversarial_campaign.rs:732-740 | The omitted position is the function of the generator state |
| `Mutation.ApplyOperator` | crates/franken-engine/src/adversarial_campaign.rs:701-765 | Success, result and error kind of every operator |
| `Mutation.FinishedIsValidIff` | crates/franken-engine/src/adversarial_campaign.rs:767-778 | A finished mutation is valid exactly when it has steps, they fit 32-bit numbering and are labelled |
| `Mutation.AppliedFits` | crates/franken-engine/src/adversarial_campaign.rs:701-778 | On inputs an operator can handle its result always meets those conditions |
| `Mutation.PossibleOperationFits` | crates/franken-engine/src/adversarial_campaign.rs:690-779 | Point mutation, crossover with a valid donor, insertion and deletion from at least two steps never fail on valid inputs whose length fits 32 bits |
| `Mutation.Mutate` | crates/franken-engine/src/adversarial_campaign.rs:690-779 | Succeeds if and only if the inputs are valid and the operator leaves acceptable steps; then the campaign is valid, carries the request's seed and exactly those steps renumbered; otherwise the error is that of the first bad input, of the operator that cannot act, or of the unacceptable result |
| `Generator.StepsAreGenerated` | crates/franken-engine/src/adversarial_campaign.rs:2550-2554 | Any number of steps from any generator state are the grammar's own, in order |
| `Generator.StepsFromStateTwo` | crates/franken-engine/src/adversarial_campaign.rs:2550-2554 | From state 2 the second step is drawn three numbers after the first |
| `Generator.AssembledIds` | crates/franken-engine/src/adversarial_campaign.rs:2556-2576 | Ids are derived from policy, version, seed and sequence number, each from the one before |
| `Generator.OneStepLeft` | crates/franken-engine/src/adversarial_campaign.rs:2689-2694 | The fixture a cycle promotes consists of exactly the campaign's last step |
| `Generator.GenerateSteps` | crates/franken-engine/src/adversarial_campaign.rs:2550-2554 | The loop computes exactly the steps of the pure definition |
| `Generator.Fork` | crates/franken-engine/src/adversarial_campaign.rs:2547-2548 | One draw seeds a fresh generator; the guard against a zero seed never acts |
| `Generator.NewGenerator` | crates/franken-engine/src/adversarial_campaign.rs:2506-2532 | A generator is made exactly from a valid grammar, a named policy, a positive hourly rate and a non-zero seed; the error of every other input |
| `Generator.CampaignGenerator.PlanCampaignCount` | crates/franken-engine/src/adversarial_campaign.rs:2534-2540 | The largest number that neither the hourly rate nor the room in the queue forbids |
| `Generator.CampaignGenerator.GenerateCampaign` | crates/franken-engine/src/adversarial_campaign.rs:2542-2578 | From every valid generator a valid campaign of the target length comes out and the generator stays valid, so generation succeeds forever; seed and steps are a function of grammar and generator state |
| `Generator.CampaignGenerator.RecordCampaignOutcome` | crates/franken-engine/src/adversarial_campaign.rs:2589-2617 | Exactly for valid campaigns: the grammar is tuned by the evasion score, the score is filed under the campaign id and the event is logged; the generator stays valid |
| `Generator.CampaignGenerator.PromoteFailureFixture` | crates/franken-engine/src/adversarial_campaign.rs:2619-2669 | For every failure predicate: promotes exactly the valid failing campaigns, as the fixture of a minimization, and logs the promotion or the failure |
| `Generator.CampaignGenerator.RunOne` | crates/franken-engine/src/adversarial_campaign.rs:2684-2697 | One campaign generated under the grammar in force before it, with the score of its execution: filed, logged, learned from by tuning, and promoted, as a logged one-step fixture, exactly when the score reaches the threshold; fails only on an invalid result of a generated campaign, and then records nothing |
| `Generator.CampaignGenerator.RunCycle` | crates/franken-engine/src/adversarial_campaign.rs:2671-2700 | Runs the whole plan, each campaign paired with its score, unless an execution result is invalid; grammar, scorebook and number of events are those of learning from all campaigns in turn; every fixture it adds has one step and no older fixture is dropped |
| `Calibration.ThresholdIsBounded` | crates/franken-engine/src/adversarial_campaign.rs:1392-1407 | The threshold stays in [1, 1_000_000] and moves at most the configured step |
| `Calibration.ThresholdMovesAgainstTheExcess` | crates/franken-engine/src/adversarial_campaign.rs:1392-1407 | It goes down exactly when misses exceed their target, up exactly when only false alarms do, by the whole allowed step unless it meets the end of its range |
| `Calibration.WeightFollowsEvidence` | crates/franken-engine/src/adversarial_campaign.rs:1409-1444 | Escapes in a dimension raise its weight by the configured step each, false alarms lower it by as much each, five of either at most, within 50_000 and the maximum |
| `Calibration.EvidenceIsPerDimension` | crates/franken-engine/src/adversarial_campaign.rs:1334-1374 | The evidence of a dimension is the outcomes that use it: achieved ones count for it, false alarms against it |
| `Calibration.WorstIsTheLargest` | crates/franken-engine/src/adversarial_campaign.rs:1446-1466 | The damage that counts for a category is that of one of its escaped, critical or blocking campaigns, and no less than that of any other |
| `Calibration.CompositeIsWeighted` | crates/franken-engine/src/adversarial_campaign.rs:609-656 | The composite weighs evasion by 35, escape by 25, damage by 20, difficulty by 15 and novelty by 5 parts in a hundred, rounded down; evasion is the undetected fraction of the steps |
| `Calibration.DifficultyLevels` | crates/franken-engine/src/adversarial_campaign.rs:637-645 | Moderate, hard and critical start at 400_000, 650_000 and 850_000 |
| `Calibration.NearMissIff` | crates/franken-engine/src/adversarial_campaign.rs:1721-1729 | A near miss is contained with every step but one undetected |
| `Calibration.OutcomeIsValidIff` | crates/franken-engine/src/adversarial_campaign.rs:557-576 | Exactly which results, scores and flags make an outcome of a valid campaign unacceptable |
| `Calibration.UsesIff` | crates/franken-engine/src/adversarial_campaign.rs:1704-1719 | A campaign uses exactly the dimensions that have steps in it |
| `Calibration.DominantIsMostFrequent` | crates/franken-engine/src/adversarial_campaign.rs:1743-1765 | No dimension has more steps than the one that decides the threat category |
| `Calibration.CategoryOfUniform` | crates/franken-engine/src/adversarial_campaign.rs:1743-1765 | The category of a campaign of one dimension |
| `Calibration.RateIsTheFraction` | crates/franken-engine/src/adversarial_campaign.rs:1686-1693 | A rate is the fraction in millionths, rounded down |
| `Calibration.RatesAreOfTheirOwnKind` | crates/franken-engine/src/adversarial_campaign.rs:1661-1702 | Misses are escapes among the attacks; false alarms are counted among the benign controls only |
| `Calibration.NextIsBounded` | crates/franken-engine/src/adversarial_campaign.rs:1376-1466 | One calibration keeps all parameters complete and in range and never lowers a loss |
| `Calibration.OrbitIsMonotone` | crates/franken-engine/src/adversarial_campaign.rs:1392-1444 | Iterating a monotone map of an interval moves in one direction by at least one until it stands still |
| `Calibration.WeightStops` | crates/franken-engine/src/adversarial_campaign.rs:1409-1444 | Every evidence weight, also one that starts outside its range, is constant after max weight + 2 calibrations |
| `Calibration.ThresholdStops` | crates/franken-engine/src/adversarial_campaign.rs:1392-1407 | The threshold is constant after a million calibrations |
| `Calibration.CalibrationConverges` | crates/franken-engine/src/adversarial_campaign.rs:1376-1531 | Calibrating over and over without new outcomes reaches a fixed point within a known number of calls and stays there |
| `RedBlueLoop.ComputeMetrics` | crates/franken-engine/src/adversarial_campaign.rs:1661-1702 | The one-pass counters are the counts of attacks, escapes, controls, false alarms and near misses, and the rates are theirs |
| `RedBlueLoop.AddDimensions` | crates/franken-engine/src/adversarial_campaign.rs:1704-1719 | Counts a campaign once for every dimension it uses, however many steps use it |
| `RedBlueLoop.CountByDimension` | crates/franken-engine/src/adversarial_campaign.rs:1334-1374 | For every dimension the number of qualifying outcomes that use it |
| `RedBlueLoop.AdjustThreshold` | crates/franken-engine/src/adversarial_campaign.rs:1392-1407 | Stays in range, moves at most the configured step, goes down if and only if misses exceed their target and up if and only if only false alarms do, while there is room |
| `RedBlueLoop.AdjustWeights` | crates/franken-engine/src/adversarial_campaign.rs:1409-1444 | Every weight is moved by its own dimension's escapes and false alarms, in whatever order they are visited: up by the configured step per escape, down by it per false alarm, five of either at most, within 50_000 and the maximum |
| `RedBlueLoop.AdjustWeight` | crates/franken-engine/src/adversarial_campaign.rs:1415-1443 | One weight moves with the excess of escapes or of false alarms as the pure rule says |
| `RedBlueLoop.DefaultsFillGaps` | crates/franken-engine/src/adversarial_campaign.rs:1065-1091 | Given parameters are kept; missing weights are 500_000 and missing losses 200_000; the threshold is clamped |
| `RedBlueLoop.MetricsAreCounts` | crates/franken-engine/src/adversarial_campaign.rs:1661-1702 | The justification counts campaigns, escapes and near misses |
| `RedBlueLoop.CampaignIdsAreAll` | crates/franken-engine/src/adversarial_campaign.rs:1471-1531 | A receipt names the campaigns of exactly the ingested outcomes |
| `RedBlueLoop.RaiseLosses` | crates/franken-engine/src/adversarial_campaign.rs:1446-1466 | Every category's loss becomes the maximum of itself and the damage of the outcomes that count for it |
| `RedBlueLoop.RedBlueLoopIntegrator.constructor` | crates/franken-engine/src/adversarial_campaign.rs:1267-1280 | Missing parameters get defaults, the threshold is clamped, the snapshot is published |
| `RedBlueLoop.RedBlueLoopIntegrator.Snapshot` | crates/franken-engine/src/adversarial_campaign.rs:1101-1113 | Equals the live parameters whenever it is taken between calls |
| `RedBlueLoop.RedBlueLoopIntegrator.IngestOutcome` | crates/franken-engine/src/adversarial_campaign.rs:1290-1307 | Stores, classifies and logs exactly the valid outcomes |
| `RedBlueLoop.RedBlueLoopIntegrator.Calibrate` | crates/franken-engine/src/adversarial_campaign.rs:1376-1531 | A receipt exists, and an event is logged, exactly when the parameters changed; it documents the change and the campaigns behind it; receipts chain from the first parameters to the live ones and the epoch counts them; without outcomes nothing happens |
| `RedBlueLoop.RedBlueLoopIntegrator.CalibrateRepeatedly` | crates/franken-engine/src/adversarial_campaign.rs:1376-1531 | n calibrations without new outcomes iterate the pure step, and every one after the settling time returns no receipt |
| `RedBlueLoop.RedBlueLoopIntegrator.Recalibrate` | crates/franken-engine/src/adversarial_campaign.rs:1392-1470 | Threshold, weights and losses move to the pure next value and are published |
| `LifecycleAudit.ReactionIsSound` | crates/franken-engine/src/activation_lifecycle.rs:576-979 | Every call, except exactly an update that nothing forbids under another id, keeps: RollingBack never visible, Active or Updating implies a pin, a pin implies a checkpoint, outside Updating the pin is the descriptor's version and hash, Inactive implies no injected keys |
| `LifecycleAudit.ReactionIsLogged` | crates/franken-engine/src/activation_lifecycle.rs:576-979 | Every call keeps the log a complete record: states, last rollback, retained crashes and the update trail can be recomputed from it |
| `LifecycleRuns.StepKeepsInvIff` | crates/franken-engine/src/activation_lifecycle.rs:547-979 | A controller call, failed ones included, keeps the invariant of all components, the log and the transition counter if and only if it is not an update that nothing forbids under another id |
| `LifecycleRuns.RunKeepsInvIff` | crates/franken-engine/src/activation_lifecycle.rs:497-979 | The invariant holds after every prefix of a run if and only if no update in it renames its component |
| `LifecycleRuns.AuditLogIsComplete` | crates/franken-engine/src/activation_lifecycle.rs:576-979 | In every run without renaming, drained events included: a component's state is the fold of its events, each event starts where the earlier ones ended, and the counter counts transitions until 64-bit saturation |
| `LifecycleRuns.RenamingLosesTrack` | crates/franken-engine/src/activation_lifecycle.rs:728-740 | An update under another id either duplicates an id or separates a component from its log |
| `LifecycleRuns.RenamingHappens` | crates/franken-engine/src/activation_lifecycle.rs:688-742 | Registering, activating and updating a component under another id reaches such a state, under every configuration |
| `LifecycleSafety.OnlyTheTargetChanges` | crates/franken-engine/src/activation_lifecycle.rs:547-979 | A call changes the component it names and leaves every other exactly as it was |
| `LifecycleSafety.FailedCallsChangeNothing` | crates/franken-engine/src/activation_lifecycle.rs:576-979 | A failed call leaves the whole controller unchanged, except that a crash report whose rollback finds no pin keeps the recorded crash and its event |
| `LifecycleSafety.RollbackSucceedsIff` | crates/franken-engine/src/activation_lifecycle.rs:925-979 | Rollback succeeds exactly for components that are not inactive and have a pin, always for active and updating ones; it restores version and hash, keeps the pin, and leaves the required capabilities |
| `LifecycleCalls.RegistrationSucceedsIff` | crates/franken-engine/src/activation_lifecycle.rs:547-572 | A component is registered exactly when its id is new; it starts inactive, without pin, crashes, checkpoint or keys |
| `LifecycleCalls.UnknownComponentFails` | crates/franken-engine/src/activation_lifecycle.rs:907-923 | A call that names no registered component fails and changes nothing |
| `LifecycleCalls.ActivationBeginsIff` | crates/franken-engine/src/activation_lifecycle.rs:576-613 | An activation begins exactly for an inactive component whose validation passed; entry, reply and logged event of every case |
| `LifecycleCalls.SecretsInjectedIff` | crates/franken-engine/src/activation_lifecycle.rs:616-643 | Secrets are injected exactly while an activation is pending, and replace earlier ones; entry, reply and event of every case |
| `LifecycleCalls.ActivationCompletesIff` | crates/franken-engine/src/activation_lifecycle.rs:647-682 | An activation completes exactly while pending; it records the checkpoint and pins the running version |
| `LifecycleCalls.UpdateBeginsIff` | crates/franken-engine/src/activation_lifecycle.rs:688-742 | An update begins exactly on an active component whose holdoff is over, with a checkpoint not older than the recorded one; the pin stays on the old version |
| `LifecycleCalls.RolloutAdvancesIff` | crates/franken-engine/src/activation_lifecycle.rs:745-796 | A rollout advances exactly while updating: Shadow, Canary, Ramp, Default, then active with the new version pinned |
| `LifecycleCalls.RollbackYields` | crates/franken-engine/src/activation_lifecycle.rs:925-979 | A component with a pin that is not inactive goes back to the pinned version in two logged hops, forgets its crashes and starts the holdoff; every other rollback fails |
| `LifecycleCalls.CrashReportYields` | crates/franken-engine/src/activation_lifecycle.rs:811-842 | A crash of a component that is not inactive is logged and counted; at the threshold the component is rolled back, and without a pin the report fails |
| `LifecycleCalls.DeactivatesIff` | crates/franken-engine/src/activation_lifecycle.rs:845-867 | A component is deactivated exactly while active, and loses its keys |
| `LifecycleSafety.TrailIsFullRollout` | crates/franken-engine/src/activation_lifecycle.rs:745-796 | A completed trail is exactly Active, Shadow, Canary, Ramp, Default with nothing in between, under the recorded versions |
| `LifecycleSafety.PinsChangeOnlyByPromotion` | crates/franken-engine/src/activation_lifecycle.rs:647-796 | A pin changes only by completing a pending activation or finalizing a rollout; a finalization follows the full trail in the log and pins the version that update began |
| `LifecycleSafety.UpdatesRespectHoldoff` | crates/franken-engine/src/activation_lifecycle.rs:706-715 | With a positive holdoff every update starts at least that long after the last logged rollback, whatever the clock did |
| `LifecycleSafety.CheckpointLoweredIff` | crates/franken-engine/src/activation_lifecycle.rs:647-742 | The recorded checkpoint goes back if and only if an activation is completed with an older number |
| `LifecycleSafety.CheckpointCanGoBack` | crates/franken-engine/src/activation_lifecycle.rs:647-867 | Activating with number 5, deactivating and activating with number 3 does so, under every configuration |
| `LifecycleSafety.CheckpointsNeverRegress` | crates/franken-engine/src/activation_lifecycle.rs:647-742 | Over every run in which no call completes an activation of the component with an older number, its checkpoint never decreases |
| `LifecycleSafety.CrashReportsEndBelowThreshold` | crates/franken-engine/src/activation_lifecycle.rs:811-842 | A crash report on a component with a pin always ends with fewer retained crashes than the threshold |
| `LifecycleSafety.DetectorKeepsSurvivors` | crates/franken-engine/src/activation_lifecycle.rs:262-297 | For any clock, the pruned list is exactly the crashes that no later report pushed out of the window |
| `LifecycleSafety.SurvivorsAreInWindow` | crates/franken-engine/src/activation_lifecycle.rs:273-291 | With a clock that never goes back those are exactly the crashes within the window of the last one |
| `LifecycleSafety.CrashLoopFiresIff` | crates/franken-engine/src/activation_lifecycle.rs:811-842 | A crash report triggers recovery exactly when at least threshold of the logged crashes since the last recovery survive, this one included |
| `LifecycleController.RecordCrash` | crates/franken-engine/src/activation_lifecycle.rs:273-296 | Pushing and pruning in place computes the pure detector, and reports a loop exactly at the threshold |
| `LifecycleController.ActivationLifecycleController.constructor` | crates/franken-engine/src/activation_lifecycle.rs:497-506 | The empty controller is the start of every run |
| `LifecycleController.ActivationLifecycleController.SetTick` | crates/franken-engine/src/activation_lifecycle.rs:509-511 | Performs the model's clock step |
| `LifecycleController.ActivationLifecycleController.DrainEvents` | crates/franken-engine/src/activation_lifecycle.rs:872-874 | Hands out all events; nothing is lost from the drained log |
| `LifecycleController.ActivationLifecycleController.FindComponent` | crates/franken-engine/src/activation_lifecycle.rs:907-923 | The first component with the id |
| `LifecycleController.ActivationLifecycleController.PushTransition` | crates/franken-engine/src/activation_lifecycle.rs:1005-1027 | Appends the event and counts it, saturating |
| `LifecycleController.ActivationLifecycleController.Register` | crates/franken-engine/src/activation_lifecycle.rs:547-572 | New state and result are those of the model's step; `LifecycleCalls.RegistrationSucceedsIff` says what that is; validity is kept |
| `LifecycleController.ActivationLifecycleController.BeginActivation` | crates/franken-engine/src/activation_lifecycle.rs:576-613 | New state and result are those of the model's step; an activation begins exactly for an inactive component whose validation passed (`LifecycleCalls.ActivationBeginsIff`); validity is kept |
| `LifecycleController.ActivationLifecycleController.InjectSecrets` | crates/franken-engine/src/activation_lifecycle.rs:616-643 | New state and result are those of the model's step; `LifecycleCalls.SecretsInjectedIff` says what that is; validity is kept |
| `LifecycleController.ActivationLifecycleController.CompleteActivation` | crates/franken-engine/src/activation_lifecycle.rs:647-682 | New state and result are those of the model's step; `LifecycleCalls.ActivationCompletesIff` says what that is; validity is kept |
| `LifecycleController.ActivationLifecycleController.CheckUpdate` | crates/franken-engine/src/activation_lifecycle.rs:699-724 | An update may start if and only if the component is active, the holdoff since its last rollback is over and the number is not older; the reported remaining ticks end exactly with the holdoff |
| `LifecycleController.ActivationLifecycleController.BeginUpdate` | crates/franken-engine/src/activation_lifecycle.rs:688-742 | New state and result are those of the model's step; a valid controller stays valid unless, and exactly unless, an update that nothing forbids names another id |
| `LifecycleController.ActivationLifecycleController.AdvanceRollout` | crates/franken-engine/src/activation_lifecycle.rs:745-796 | New state and result are those of the model's step; `LifecycleCalls.RolloutAdvancesIff` says what that is; validity is kept |
| `LifecycleController.ActivationLifecycleController.DoRollback` | crates/franken-engine/src/activation_lifecycle.rs:925-979 | Passing through RollingBack in place amounts to one atomic rollback with two logged transitions |
| `LifecycleController.ActivationLifecycleController.Rollback` | crates/franken-engine/src/activation_lifecycle.rs:801-807 | New state and result are those of the model's step; `LifecycleCalls.RollbackYields` says what that is; validity is kept |
| `LifecycleController.ActivationLifecycleController.DoReportCrash` | crates/franken-engine/src/activation_lifecycle.rs:811-842 | Recording the crash in place and rolling back in place amount to the model's reaction, also when the rollback fails |
| `LifecycleController.ActivationLifecycleController.ReportCrash` | crates/franken-engine/src/activation_lifecycle.rs:811-842 | New state and result are those of the model's step; `LifecycleCalls.CrashReportYields` says what that is; validity is kept |
| `LifecycleController.ActivationLifecycleController.Deactivate` | crates/franken-engine/src/activation_lifecycle.rs:845-867 | New state and result are those of the model's step; `LifecycleCalls.DeactivatesIff` says what that is; validity is kept |
| `Exp3.DistributionCovers` | crates/franken-engine/src/adversarial_coevolution_harness.rs:203-238 | The probabilities sum to at least one million, and to exactly one million if and only if the other arms' floored probabilities do not exceed it |
| `Exp3.FirstArmDrawableIff` | crates/franken-engine/src/adversarial_coevolution_harness.rs:221-235 | The first arm has a positive probability if and only if the raw probabilities of the others sum to less than one million |
| `Exp3.FirstArmCanVanish` | crates/franken-engine/src/adversarial_coevolution_harness.rs:203-277 | From equal weights and gamma 1, three updates, each with the probability of its draw, reach weights at which the first arm has probability zero and the total exceeds one million |
| `Exp3.FirstArmCanVanishExactly` | crates/franken-engine/src/adversarial_coevolution_harness.rs:221-235 | Weights at which it has probability zero in a total of exactly one million |
| `Exp3.DistributionExact` | crates/franken-engine/src/adversarial_coevolution_harness.rs:203-238 | When gamma/n is at least the floor no arm is floored, the sum is exactly one million and every arm keeps a positive probability |
| `Exp3.EveryArmExplores` | crates/franken-engine/src/adversarial_coevolution_harness.rs:203-238 | With enough exploration every arm but the first gets gamma / n and, of the rest, a part in proportion to its weight, rounded down |
| `Exp3.EqualArmsAreEquallyLikely` | crates/franken-engine/src/adversarial_coevolution_harness.rs:203-238 | Two arms of equal weight get half each at the default gamma |
| `Exp3.PickIsUnique` | crates/franken-engine/src/adversarial_coevolution_harness.rs:241-252 | No two arms share a point of the unit interval |
| `Exp3.ArmAt` | crates/franken-engine/src/adversarial_coevolution_harness.rs:241-252 | The cumulative walk finds the arm of the interval and never reaches its fallback |
| `Exp3.OverflowFreeIff` | crates/franken-engine/src/adversarial_coevolution_harness.rs:255-270 | No probability makes the 64-bit products of an update overflow if and only if the payoff is at most 92_233_720 in absolute value |
| `Exp3.UpdateIsExact` | crates/franken-engine/src/adversarial_coevolution_harness.rs:255-270 | Without overflow the estimate is reward / probability and the factor 1 + gamma * estimate / n, in truncated millionths |
| `Exp3.WeightFollowsReward` | crates/franken-engine/src/adversarial_coevolution_harness.rs:255-277 | Without overflow a gain never lowers the weight of its arm, and a loss never raises it |
| `Exp3.LessonsByExample` | crates/franken-engine/src/adversarial_coevolution_harness.rs:255-277 | A payoff of one at even odds among two arms raises a weight by a tenth; weights stop at 100 and 100_000_000 |
| `Exp3.LessonsAreAccounted` | crates/franken-engine/src/adversarial_coevolution_harness.rs:255-277 | A lesson touches one arm: its estimated reward is added to its account, saturating, and its draw is counted |
| `Arithmetic.TruncatesTowardZero` | crates/franken-engine/src/adversarial_coevolution_harness.rs:255-270 | Signed division gives the quotient of the magnitudes with the sign of the dividend |
| `Exp3.Exp3Weights.constructor` | crates/franken-engine/src/adversarial_coevolution_harness.rs:194-200 | Uniform weights, nothing counted; usable for exactly 1 to 64 arms |
| `Exp3.Exp3Weights.Probabilities` | crates/franken-engine/src/adversarial_coevolution_harness.rs:203-238 | Computes the distribution without 64-bit overflow: gamma / n of exploration and the rest in proportion to the weights (`Exp3.EveryArmExplores`); the uniform fallback is unreachable |
| `Exp3.Exp3Weights.Select` | crates/franken-engine/src/adversarial_coevolution_harness.rs:241-252 | Draws the arm whose interval contains the hash value, an arm of positive probability |
| `Exp3.Exp3Weights.Update` | crates/franken-engine/src/adversarial_coevolution_harness.rs:255-277 | For every payoff: the arm's weight stays within [100, 100_000_000] and the draw is counted; a missing arm or zero probability changes nothing |
| `Tournament.Validate` | crates/franken-engine/src/adversarial_coevolution_harness.rs:523-568 | Accepts exactly the playable configurations; a reported error is true of the game and everything checked before it is in order |
| `Tournament.OneError` | crates/franken-engine/src/adversarial_coevolution_harness.rs:523-568 | A game is valid or has exactly one error |
| `Payoffs.FindPayoff` | crates/franken-engine/src/adversarial_coevolution_harness.rs:123-127 | The first entry of the pair, if any |
| `Payoffs.FirstEntryPays` | crates/franken-engine/src/adversarial_coevolution_harness.rs:123-127 | The first entry of a pair pays both players, each its own part; a pair without an entry pays nothing |
| `Tournament.GameLimits` | crates/franken-engine/src/adversarial_coevolution_harness.rs:523-568 | The limits of a valid game |
| `Tournament.EachLearnsFromItsOwnPayoff` | crates/franken-engine/src/adversarial_coevolution_harness.rs:597-648 | In a round the attacker draws with the first hash and the defender with the second, and each is taught its own payoff at the probability of its own draw |
| `Tournament.NextExtends` | crates/franken-engine/src/adversarial_coevolution_harness.rs:597-670 | Every round appends one truthful outcome under its own number and counts one draw of each player |
| `Tournament.RoundsAreTruthful` | crates/franken-engine/src/adversarial_coevolution_harness.rs:597-670 | In every tournament, every recorded round pays both players what the matrix says |
| `Tournament.CountsAddUp` | crates/franken-engine/src/adversarial_coevolution_harness.rs:597-648 | After any number of rounds each player's counts add up to it |
| `Tournament.RecordIsAppended` | crates/franken-engine/src/adversarial_coevolution_harness.rs:597-670 | More rounds only extend the record |
| `Tournament.StopIsUnique` | crates/franken-engine/src/adversarial_coevolution_harness.rs:597-601 | Configuration, matrix and draws leave exactly one number of rounds |
| `Payoffs.RegretMovesBySpread` | crates/franken-engine/src/adversarial_coevolution_harness.rs:650-669 | One round moves a player's regret by at most the spread of what it could have earned against that opponent |
| `Ledger.LedgerMovesBySpread` | crates/franken-engine/src/adversarial_coevolution_harness.rs:650-669 | Consecutive entries of an exact ledger differ by at most the spread of the player's payoffs |
| `Payoffs.TotalsAreBounded` | crates/franken-engine/src/adversarial_coevolution_harness.rs:617-641 | Every total of n rounds is at most n times the largest payoff of the matrix |
| `Ledger.EntryIsRegretIff` | crates/franken-engine/src/adversarial_coevolution_harness.rs:661-668 | While the totals fit 64 bits, a ledger entry is max(0, best fixed strategy in hindsight - realized total) if and only if that difference fits too |
| `Ledger.RegretCanOverflow` | crates/franken-engine/src/adversarial_coevolution_harness.rs:661-668 | One round of extreme payoffs overflows the subtraction: the regret is nearly 2^64 and the ledger records zero |
| `Ledger.SaturationFreeIff` | crates/franken-engine/src/adversarial_coevolution_harness.rs:617-641 | A saturating running total is the true sum at every point if and only if no true running sum leaves 64 bits |
| `Ledger.TotalCanSaturate` | crates/franken-engine/src/adversarial_coevolution_harness.rs:617-618 | Two rounds of the largest payoff saturate a total |
| `Ledger.BooksAreExact` | crates/franken-engine/src/adversarial_coevolution_harness.rs:617-687 | When twice the rounds times the largest payoff fits 64 bits, totals, ledger entries and final regrets are exact |
| `Ledger.LedgerIsExact` | crates/franken-engine/src/adversarial_coevolution_harness.rs:650-669 | Then every entry of the ledger is the regret of the rounds up to it |
| `Ledger.SpentIsTheMagnitudes` | crates/franken-engine/src/adversarial_coevolution_harness.rs:598-618 | While payoffs and their sums fit, the budget is spent on the magnitudes of the attacker's payoffs |
| `Ledger.AddFixed` | crates/franken-engine/src/adversarial_coevolution_harness.rs:628-641 | For every matrix: the hindsight vector holds the saturating total of each fixed strategy against the recorded opponents |
| `Tournament.Learn` | crates/franken-engine/src/adversarial_coevolution_harness.rs:643-648 | Updates with the probability the arm was drawn with |
| `Tournament.PlayRound` | crates/franken-engine/src/adversarial_coevolution_harness.rs:603-648 | One in-place round is the pure round: own draws, the matrix's payoffs, both players taught |
| `Ledger.Record` | crates/franken-engine/src/adversarial_coevolution_harness.rs:617-669 | For every matrix: totals, hindsight vectors, spending and ledger of one more round, in saturating and wrapping 64-bit arithmetic |
| `Tournament.PlayAndRecord` | crates/franken-engine/src/adversarial_coevolution_harness.rs:598-669 | One round in place continues the pure game and its books |
| `Tournament.PlayOn` | crates/franken-engine/src/adversarial_coevolution_harness.rs:597-670 | The loop follows the pure game and stops exactly where the configured number or the budget is used up |
| `Tournament.Assemble` | crates/franken-engine/src/adversarial_coevolution_harness.rs:672-783 | The reported totals, average regrets, and counts and mix by strategy name |
| `Tournament.AverageIsShared` | crates/franken-engine/src/adversarial_coevolution_harness.rs:688-697 | An average is the total shared among the rounds, rounded toward zero; no rounds have the average zero |
| `Tournament.NamedIsFaithful` | crates/franken-engine/src/adversarial_coevolution_harness.rs:705-730 | With distinct strategy names the reported maps hold every strategy's own count and probability |
| `Tournament.UnderreportsIff` | crates/franken-engine/src/adversarial_coevolution_harness.rs:672-681 | The reported number of rounds is wrong if and only if the tournament is untracked and used up its budget by playing |
| `Tournament.UnderreportingHappens` | crates/franken-engine/src/adversarial_coevolution_harness.rs:672-681 | One strategy each, a payoff of one and a budget of one: one round is played and none reported, whatever is drawn |
| `Tournament.Run` | crates/franken-engine/src/adversarial_coevolution_harness.rs:573-783 | For every validated game: the tournament equals the pure one, the rounds are truthful, the counts add up to them, and totals, regrets and ledger are those of its recorded rounds |
| `Tournament.ReportIsExact` | crates/franken-engine/src/adversarial_coevolution_harness.rs:573-783 | When the sums of payoffs over the configured rounds fit 64 bits, every ledger entry is max(0, best fixed strategy in hindsight - realized total) of the rounds up to it, and totals and average regrets are exact |
| `Signals.CombineSignalStrengths` | crates/franken-engine/src/acquisition_experiment_oracle.rs:808-825 | The sorted, halving, saturating loop is the saturated sum of the halved signals |
| `Signals.DivisorIsAPower` | crates/franken-engine/src/acquisition_experiment_oracle.rs:808-825 | The divisor doubles from position to position until it saturates |
| `Signals.SignalsCountByHalves` | crates/franken-engine/src/acquisition_experiment_oracle.rs:808-825 | The strongest signal counts in full, the next by half, the next by a quarter and so on, each rounded down |
| `Signals.CombineIgnoresOrder` | crates/franken-engine/src/acquisition_experiment_oracle.rs:808-825 | Independent of input order |
| `Signals.CombineBounds` | crates/franken-engine/src/acquisition_experiment_oracle.rs:808-825 | Between the strongest signal and twice the strongest, despite flooring and saturation |
| `Signals.CombineMonotone` | crates/franken-engine/src/acquisition_experiment_oracle.rs:808-825 | Adding any further signals never lowers the composite |
| `Oracle.ScoreProposal` | crates/franken-engine/src/acquisition_experiment_oracle.rs:515-562 | Raw gain is the sum of the contributions, each strength times its weight computed in the loop and saturated, and the own gain, saturated once; density divides by the cost, or by one; the weights used are listed |
| `Oracle.ContributionIsWeighted` | crates/franken-engine/src/acquisition_experiment_oracle.rs:520-534 | A signal contributes its strength times its weight in millionths, one million without a weight, rounded down; a product beyond 64 bits counts as the largest |
| `Oracle.GainAndDensity` | crates/franken-engine/src/acquisition_experiment_oracle.rs:541-553 | The raw gain adds the proposal's own gain to what its signals contribute; the density is gain per cost in millionths, a free proposal counting as cost one |
| `Oracle.WeightsUsedAreTheWeights` | crates/franken-engine/src/acquisition_experiment_oracle.rs:520-534 | The listed weights are those of exactly the signals that occur |
| `Oracle.DominantIsLargest` | crates/franken-engine/src/acquisition_experiment_oracle.rs:520-539 | The dominant signal is the first of the largest contributors, the default when nothing contributes |
| `Oracle.RankIsRanked` | crates/franken-engine/src/acquisition_experiment_oracle.rs:567-588 | Densest first, ties by id |
| `Oracle.DensityThenId` | crates/franken-engine/src/acquisition_experiment_oracle.rs:579-585 | A denser proposal comes first, whatever its id; among equally dense ones the id decides |
| `Oracle.LexIsFirstDifference` | crates/franken-engine/src/acquisition_experiment_oracle.rs:584-584 | Ids compare by their first difference, and a prefix comes first |
| `Oracle.RankedUnique` | crates/franken-engine/src/acquisition_experiment_oracle.rs:579-585 | Distinct ids leave exactly one ranked order |
| `Selection.RankProposals` | crates/franken-engine/src/acquisition_experiment_oracle.rs:567-588 | Scores every proposal and ranks the list |
| `Selection.FillBudget` | crates/franken-engine/src/acquisition_experiment_oracle.rs:607-619 | Remaining budget + selected costs = budget; total gain saturates; the selection is the greedy one |
| `Selection.SelectExperiments` | crates/franken-engine/src/acquisition_experiment_oracle.rs:596-640 | No candidates, exhausted budget, or the greedy plan of the ranked proposals, with its scores, remaining budget and total gain |
| `Selection.PlanExistsIff` | crates/franken-engine/src/acquisition_experiment_oracle.rs:596-640 | There is a plan exactly when some candidate fits the budget; otherwise the budget is reported as exhausted |
| `Selection.PlanAccounts` | crates/franken-engine/src/acquisition_experiment_oracle.rs:607-640 | Remaining budget plus the costs of the planned proposals is the budget; each proposal stands with its own score |
| `Selection.ExhaustedIff` | crates/franken-engine/src/acquisition_experiment_oracle.rs:621-623 | The budget counts as exhausted exactly when every candidate costs more than all of it |
| `Selection.UnselectedDoNotFit` | crates/franken-engine/src/acquisition_experiment_oracle.rs:607-619 | Every unselected proposal costs more than what finally remains |
| `Selection.SelectionIgnoresOrder` | crates/franken-engine/src/acquisition_experiment_oracle.rs:567-640 | With distinct ids the plan is the same for every order of the input |
| `Selection.ValidatePlan` | crates/franken-engine/src/acquisition_experiment_oracle.rs:998-1036 | Reports nothing exactly for consistent plans |
| `Selection.CorruptPlansAreInconsistent` | crates/franken-engine/src/acquisition_experiment_oracle.rs:998-1036 | A missing score, a score of another proposal or another total makes a consistent plan inconsistent |
| `Selection.SelectedPlansAreConsistent` | crates/franken-engine/src/acquisition_experiment_oracle.rs:596-640 | Every plan the selection builds is consistent |
| `Knapsack.GreedyGuarantee` | crates/franken-engine/src/acquisition_experiment_oracle.rs:515-619 | Every affordable choice of proposals gains at most the plan's gain, plus the first rejected proposal, plus one millionth per unit of budget, as long as no priced proposal from the first rejected one on saturates; if nothing is rejected the plan holds every proposal |
| `Knapsack.GuaranteeNeedsRange` | crates/franken-engine/src/acquisition_experiment_oracle.rs:550-553 | Beyond 64 bits saturation hides a proposal and the bound fails, on concrete proposals |
| `Budget.AllocateBudgetByKind` | crates/franken-engine/src/acquisition_experiment_oracle.rs:925-956 | The shares of exactly the kinds that occur add up to the whole budget; all but the last are the rounded proportional shares, also when the product saturates |
| `Budget.HandOut` | crates/franken-engine/src/acquisition_experiment_oracle.rs:936-954 | The remainder goes to the last kind and is never negative |
| `Budget.ShareIsProportional` | crates/franken-engine/src/acquisition_experiment_oracle.rs:936-954 | A kind's share is its part of the proposals, rounded down; a product beyond 64 bits saturates first |
| `Budget.PresentKindsInOrder` | crates/franken-engine/src/acquisition_experiment_oracle.rs:928-937 | Exactly the kinds that are proposed take part, in declaration order |
| `ArrayLane.WideningClimbs` | crates/franken-engine/src/array_fast_lane.rs:649-671 | Every pair of the lattice goes strictly up in rank |
| `ArrayLane.WideningIff` | crates/franken-engine/src/array_fast_lane.rs:649-671 | The lattice fills an empty array, makes elements more general within packed or within holey arrays, punches holes without touching the generality, and freezes or seals |
| `ArrayLane.RankLevels` | crates/franken-engine/src/array_fast_lane.rs:154-177 | Ranks climb from empty over packed and holey to frozen and sealed arrays; typed arrays stand above all |
| `ArrayLane.TransitionMadeIff` | crates/franken-engine/src/array_fast_lane.rs:715-760 | A transition is made exactly when the lattice has it, or nothing changes, and the lane has transitions left; it is recorded with its circumstances |
| `ArrayLane.CountersCount` | crates/franken-engine/src/array_fast_lane.rs:763-780 | Accesses and stores are counted, each on its own counter, and do nothing else |
| `ArrayLane.OobDeoptimizesIff` | crates/franken-engine/src/array_fast_lane.rs:783-809 | An out-of-bounds access counts as an access and as out of bounds; it deoptimizes exactly an active lane with enough accesses whose rate is over the limit |
| `ArrayLane.RateIsTheFraction` | crates/franken-engine/src/array_fast_lane.rs:359-367 | The rate is the fraction of accesses that were out of bounds, in millionths rounded down, and zero without accesses |
| `ArrayLane.RegistersIff` | crates/franken-engine/src/array_fast_lane.rs:679-694 | An array is registered exactly once, within the length limit, as an active lane without history |
| `ArrayLane.ReplayClimbs` | crates/franken-engine/src/array_fast_lane.rs:649-671 | Along the lattice a lane only generalizes and changes kind at most five times |
| `ArrayLaneRuns.StepKeepsInv` | crates/franken-engine/src/array_fast_lane.rs:679-809 | Every engine call keeps: history replays to the current kind, transitions widen and stay within the policy, at most one deopt per lane, out-of-bounds count within access count, deopt log as long as the deoptimized arrays are many |
| `ArrayLaneRuns.StepKeepsReceipts` | crates/franken-engine/src/array_fast_lane.rs:715-760 | With receipts enabled every call keeps each array's receipts equal to its transitions and their total equal |
| `ArrayLaneRuns.RunKeepsInv` | crates/franken-engine/src/array_fast_lane.rs:635-809 | Every run from a fresh engine satisfies both invariants |
| `ArrayLaneRuns.ReceiptsReplay` | crates/franken-engine/src/array_fast_lane.rs:715-760 | In every run replaying an array's receipts from its first kind gives its transitions and current kind, with at most five changes |
| `ArrayLaneRuns.RankNeverDecreases` | crates/franken-engine/src/array_fast_lane.rs:715-760 | Between any two points of a run the rank of an array never decreases |
| `ArrayLaneRuns.RateIsAFraction` | crates/franken-engine/src/array_fast_lane.rs:359-367 | A rate never exceeds one million |
| `ArrayLaneRuns.OverLimitIff` | crates/franken-engine/src/array_fast_lane.rs:763-809 | An active lane comes to stand over its limit only by the plain access that reaches the minimum count, exactly when its rate is then too high |
| `ArrayLaneRuns.OverLimitHappens` | crates/franken-engine/src/array_fast_lane.rs:763-809 | An out-of-bounds access followed by a plain one leaves an active lane over a zero limit |
| `ArrayLaneRuns.SettledForever` | crates/franken-engine/src/array_fast_lane.rs:763-809 | A lane with enough accesses and a rate within the limit stays within it or is deoptimized, over every later run |
| `ArrayEngine.ArrayFastLaneEngine.WithPolicy` | crates/franken-engine/src/array_fast_lane.rs:635-647 | The empty engine is the start of every run |
| `ArrayEngine.ArrayFastLaneEngine.RegisterArray` | crates/franken-engine/src/array_fast_lane.rs:679-694 | New arrays within the length limit, once |
| `ArrayEngine.ArrayFastLaneEngine.DeoptLane` | crates/franken-engine/src/array_fast_lane.rs:327-341 | Deoptimizes and logs an active lane, ignores an inactive one |
| `ArrayEngine.ArrayFastLaneEngine.DoTransition` | crates/franken-engine/src/array_fast_lane.rs:715-760 | Lattice, limit, history, receipt and deopt of a registered array |
| `ArrayEngine.ArrayFastLaneEngine.TransitionElementKind` | crates/franken-engine/src/array_fast_lane.rs:715-760 | Performs the model's step and returns the receipt it added; validity is kept |
| `ArrayEngine.ArrayFastLaneEngine.RecordAccess` | crates/franken-engine/src/array_fast_lane.rs:763-770 | Performs the model's step; validity is kept |
| `ArrayEngine.ArrayFastLaneEngine.RecordStore` | crates/franken-engine/src/array_fast_lane.rs:773-780 | Performs the model's step; validity is kept |
| `ArrayEngine.ArrayFastLaneEngine.RecordOob` | crates/franken-engine/src/array_fast_lane.rs:783-809 | Performs the model's step, deoptimizing over the limit |
| `ArrayEngine.ArrayFastLaneEngine.Diagnose` | crates/franken-engine/src/array_fast_lane.rs:892-921 | Counts by iteration; total deopts = deoptimized arrays, out-of-bounds accesses are at most accesses, and total transitions = total receipts when receipts are emitted |

## Left out

- Hashes, signatures, seals and formatted ids: `short_hash` and the tournament's draw hash are arbitrary function parameters;
  plan ids, content hashes, policy hashes and receipt ids are not modelled.
- Error detail texts, `Display` and serde implementations, and summary strings.
- The suppression gate statistics: floating-point approximations without an exact integer specification.
- `calibrate_oracle`, `record_outcome`, `compute_regret` and the other small oracle helpers: easy members beside the ones kept.
- `PayoffMatrix::minimax_defender`, exploit classification, expected improvement, convergence flags and tournament counts.
- Typed-array descriptors, `reopt` (no engine method calls it) and the kind index of the fast lane.
- The retry protocol of the snapshot fast path: its source is not part of this model; it is a cell that returns the last
  published value.
- Zeroing of ephemeral secrets on drop, and secret values: only the key names are modelled.
- The individual checks of an activation validation: they are one flag saying that all passed.
- Counters that the source keeps in 32 or 64 bits and that only count calls (accesses, stores, draws, rounds, sequence and
  epoch numbers) are unbounded here; ticks are natural numbers.
- Failure predicates and campaign execution are pure functions.
- Overflowing signed arithmetic wraps, as in a release build; a debug build would panic there instead.
- Minimizer.MinimizeWith: the round counter and removed-step counter are unbounded, so 32-bit overflow is not modelled.
- Mutation.PossibleOperationFits: says nothing about temporal shifts, which sample with replacement and can miss every
  temporal step or copy a blank stage as label; `Mutation.ShiftFindsIff` and `Mutation.Mutate` say exactly when they succeed.
- RedBlueLoop.RedBlueLoopIntegrator.Calibrate: does not model the receipt's id and signature; its campaign ids are a set,
  which the source lists in order.
- LifecycleRuns.AuditLogIsComplete: speaks of runs in which no update renames its component, because the code replaces the
  descriptor without comparing ids; `LifecycleRuns.RunKeepsInvIff` shows the condition exact and
  `LifecycleRuns.RenamingHappens` a run that breaks it.
- LifecycleSafety.RollbackSucceedsIff: rollback restores version and hash only, as the code does, not the whole descriptor.
- Tournament.Assemble: does not model exploit classes, boundedness flags, expected improvement, the policy delta's id or any
  hash.
- Knapsack.GreedyGuarantee: requires that from the first rejected proposal on no priced proposal's raw gain times one million
  exceeds 64 bits; `Knapsack.GuaranteeNeedsRange` shows why.
- ArrayEngine.ArrayFastLaneEngine.Diagnose: does not report typed arrays or the policy hash.
