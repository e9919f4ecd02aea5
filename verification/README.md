# A verified model of the traffic-signal controller

This project models the decision, evaluation, hand-off and tracking layers of a controller for one four-approach
junction, and proves what those layers promise over whole runs. To verify it all: `dafny verify dfyconfig.toml`.

The system in its own terms: cameras on four approaches send frames to a server. The server keeps at most one waiting
frame per approach (`FrameHandoff`), runs a detector on the frames its time gate lets through, in chunks
(`FrameBatching`), follows vehicles from frame to frame (`VehicleTracking`, `VehicleRuns`), exports lane statistics
(`LaneAnalytics`) and smooths the counts (`CountSmoothing`). A ranking of the approaches (`PriorityCalculation`,
`EmergencyRanking`, `Fairness`) feeds a scheduler with a clockwise cursor (`Scheduling`). Two clocks turn its choices
into colours: the live phase timer of the pipeline (`PhaseTimer`, `PhaseTimerRuns`) and the countdown of the simulated
junction (`Intersection`, `IntersectionRuns`, `SimulatorService`, `SignalPhases`); `LiveService` is about service in the
live one. Sessions decide which camera may speak for an approach (`Sessions`). Offline, an evaluator scores the detector
(`Matching`, `AveragePrecision`, `Evaluation`, `EvaluatorPasses`, `ConfusionMatrix`). `Rounding`, `StableSort` and
`Signals` hold what they share: Python's half-to-even rounding, its stable sort, and the value types.

How the model is built. Each class of the source that updates its fields is a class here, with methods that assign those
fields; every method's contract equates the new state with a function of the old one, and the theorems are about that
function and about runs of it. Time is a parameter. Floating-point numbers are `real`. The detector is a function from
an image to what it finds. Session tokens are numbers from a counter, so that a new one equals none issued before.
A dictionary whose order matters is a sequence that keeps the dictionary's order.

Main results, hardest first:

* Starvation: in the closed loop "rank with the waiting bonus, serve the first, count" no lane waits more rounds than
  it takes the bonus to reach its cap, five with the shipped numbers, while base scores are spread by strictly less than
  `cap - 2 * bonus`. Five is attained, and with any larger spread allowed waiting has no bound at all.
* Bounded service: a lane that is always fresh and occupied is served within `3k + 4` scheduler calls if at most `k` of
  them see an emergency. `3k + 3` is not enough. Without an emergency nobody is served twice before it. At any point
  of any run of the live junction that is the next `3k + 4` turns; in the simulated one the next `3k + 4` greens, and a
  bound on the time to its own.
* The evaluator's two matchers, one per image over mixed classes and one per class across images, make the same
  decisions; matching commutes with restriction because the stable sort does. Precision-recall integration through the
  in-place envelope equals its reference, and is 1 exactly when the first predictions are all hits.
* The countdown stepper and the elapsed-time classifier are the same machine, tick by tick, exactly when green, yellow
  and all-red are all at least one second.
* Clearance and spacing of greens over every run of both clocks, with the exceptions named and shown to be real; when
  the live timer asks the scheduler, when it cuts a green, and that an emergency's own green is never pre-empted.
* What the simulated junction knows is what was reported last, and the green it gives follows from that, to the second.
* The hand-off loses no wake-up and counts no frame twice under every interleaving of arrivals and coordinator steps,
  and a frame ends where it does exactly when a step had the reason to put it there; detection in chunks treats every
  frame as it would be treated alone, and no cadence within the rate detects more often.
* A vehicle's state is the life of exactly its own observations, and it is queued exactly when in some stretch of them,
  in its lane and up to now, slow ones outnumber fast ones by ten, by the positions and times of its sightings alone;
  predictions leave no trace in any exported figure.
* A token that stopped being valid never becomes valid again; registration displaces another camera only when it was
  paused half-way.

Where the code and what is written about it disagree, the model follows the code:

* `config/signal.py:11-12` says an early-ended green still passes through yellow and all-red. It does, but the fraction
  of a second by which the cut green had already run is taken off the clearance: `PhaseTimerRuns.CutClearance`.
* An emergency elsewhere ends a running green with no clearance at all (`ai/pipeline/traffic_pipeline.py:438`):
  `PhaseTimerRuns.PreEmptionHasNoClearance`. Over a run every turn that the timer ends has its clearance exactly when no
  step sees an emergency during a turn that is not an emergency's and has not run out:
  `PhaseTimerRuns.ClearanceExactly`. A stall with its release skips clearance in the simulator
  (`IntersectionRuns.StallSkipsClearance`); yellow is cut short exactly by a stall or all-offline hold that begins while
  green or yellow is showing (`IntersectionRuns.YellowExactly`).
* `ai/signal/signal_scheduler.py:142-144` gives the green time as the winner's share of all scores. The code uses that
  only for a score without a measured load, and exactly then can more load shorten the green:
  `Scheduling.NeverShortenedExactly`.
* `server/message_handler.py:640` calls the displayed scores fairness-adjusted. The pipeline does not use the fairness
  manager; the starvation bound is a property of that manager's own loop.
* `server/message_handler.py:201-203` refuses a registration for an occupied approach, but the check is made before an
  `await`: `Sessions.PausedRegistrationDisplaces`.
* The detector numbers frames from the start of each chunk, the pipeline numbers the frames that reach it
  (`server/frame_coordinator.py:58`, `ai/pipeline/traffic_pipeline.py:165-171`); they agree on every due frame exactly
  when one chunk holds the due frames and no fresh frame that is not due stands ahead of one:
  `FrameBatching.NumbersAgreeExactly`.
* A time stamp of 0.0 counts as missing in the pipeline but not in the coordinator
  (`ai/pipeline/traffic_pipeline.py:160`): `FrameBatching.GatesAgreeExactly`. Only then can a result be computed twice
  or thrown away: `FrameBatching.NeverWastesExactly`.

## Model

| member | source | states |
|---|---|---|
| Fairness.FairnessManager.constructor | ai/signal/fairness_manager.py:27-42 | a manager starts with all four wait counters at zero |
| Fairness.FairnessManager.ApplyFairness | ai/signal/fairness_manager.py:44-108 | an empty result is returned as it is; otherwise the scores plus capped bonuses, stably sorted, ranked from 1, with the first as highest |
| Fairness.AdjustedFigures | ai/signal/fairness_manager.py:62-90 | a published score is the base score plus the bonus, and the breakdown shows that bonus and is otherwise unchanged, each to two decimals |
| Fairness.FairnessManager.UpdateServed | ai/signal/fairness_manager.py:110-123 | the served lane's counter becomes 0 and every other one goes up by one, also when the lane was unknown before |
| Fairness.RankingHead | ai/signal/fairness_manager.py:59-102 | with two-decimal scores and bonuses the published first lane is the first with the largest base score plus bonus: rounding decides nothing |
| Fairness.ServeRound | ai/signal/fairness_manager.py:44-123 | one round run through the class is one round of the closed loop |
| Fairness.WinnerHasWaited | ai/signal/fairness_manager.py:63-66 | a lane about to reach the cap loses only to a lane that has itself waited a matching number of rounds |
| Fairness.RoundKeepsFair | ai/signal/fairness_manager.py:59-123 | every round keeps the invariant: nobody above the limit, and a lane near it sees rivals at exactly 0, 1 and 2 |
| Fairness.BoundedWait | ai/signal/fairness_manager.py:59-123 | over every run no wait counter exceeds the number of rounds the bonus needs to reach its cap, for any bonus and cap |
| Fairness.ShippedBound | config/signal.py:24-26 | with the shipped 5.0 and 25.0 and a spread below 15 that number is five |
| Fairness.BoundAttained | ai/signal/fairness_manager.py:59-123 | some run reaches the bound, so it cannot be lowered |
| Fairness.StarvationAtTheBoundary | ai/signal/fairness_manager.py:59-123 | one four-lane round with a spread of cap - 2 * bonus or more, repeated, never serves West: after n rounds it has waited n |
| Fairness.SpreadExactly | ai/signal/fairness_manager.py:59-123 | waiting is bounded, by the cap's rounds or by any larger number, if and only if the spread allowed is at most cap - 2 * bonus |
| Scheduling.SignalScheduler.constructor | ai/signal/signal_scheduler.py:34-50 | the cursor starts at North |
| Scheduling.SignalScheduler.AdvanceAfter | ai/signal/signal_scheduler.py:122-127 | the cursor moves to the position after a known lane and stays for an unknown one |
| Scheduling.SignalScheduler.SelectEligible | ai/signal/signal_scheduler.py:89-120 | the chosen score, the new highest and the new cursor, or nothing when no fresh occupied lane is listed |
| Scheduling.SignalScheduler.Schedule | ai/signal/signal_scheduler.py:52-87 | an error for an empty result; otherwise a decision for the highest, or the first score, with its green time and the other lanes red in ranking order |
| Scheduling.RedLanes | ai/signal/signal_scheduler.py:52-87 | the red lanes of a decision are those of all other entries of the ranking, in its order |
| Scheduling.EmergencyWins | ai/signal/signal_scheduler.py:101-106 | with an emergency in demand the choice is the first emergency lane of largest score |
| Scheduling.NormalProgress | ai/signal/signal_scheduler.py:108-120 | without one, a waiting lane is chosen or the cursor comes strictly closer to it, and the choice lies between |
| Scheduling.ChosenIsLast | ai/signal/signal_scheduler.py:108-120 | of several scores listed for the chosen lane the last one is taken |
| Scheduling.ServedWithin | ai/signal/signal_scheduler.py:89-127 | a lane that always wants a turn is among the winners of any run longer than 3 * emergencies + its distance from the cursor |
| Scheduling.BoundedService | ai/signal/signal_scheduler.py:89-127 | with at most k emergency calls it is served within the first 3k + 4 |
| Scheduling.NoSecondTurnFirst | ai/signal/signal_scheduler.py:89-127 | without emergencies no lane wins twice while an occupied fresh lane has not won |
| Scheduling.ServiceBoundAttained | ai/signal/signal_scheduler.py:89-127 | for every lane and k some run of 3k + 3 calls with k emergencies passes it over |
| Scheduling.ClampIsRedundant | ai/signal/signal_scheduler.py:164-170 | for min <= max the half-even rounding never leaves the bounds, so the clamp changes nothing |
| Scheduling.GreenOfLoad | ai/signal/signal_scheduler.py:155-170 | with a measured load the green is the nearest second to min plus a share of the range: 0.0375 for each PCE unit up to 20 and 1/480 for each queued second up to 120 |
| Scheduling.GreenOfScore | ai/signal/signal_scheduler.py:149-170 | without one it is the share of the positive scores, and the minimum for a score that is not positive |
| Scheduling.CrossedBounds | ai/signal/signal_scheduler.py:164-170 | for max < min the answer is always min |
| Scheduling.ConfiguredGreen | server/runtime.py:142-152 | under the checks of CONFIGURE every green is within 5..120 |
| Scheduling.GreenMonotone | ai/signal/signal_scheduler.py:149-170 | once there is a measured load, more load or a longer queue never shortens the green |
| Scheduling.NeverShortenedExactly | ai/signal/signal_scheduler.py:146-170 | for min < max no further load, whatever else is ranked, shortens a lane's green if and only if some load is measured for it already |
| Scheduling.FirstVehicleShortensGreen | ai/signal/signal_scheduler.py:155-162 | an instance of the other case: 60 seconds become 12 with the first vehicle |
| Scheduling.FullLoad | ai/signal/signal_scheduler.py:155-170 | full load and full queue give the maximum |
| PriorityCalculation.PriorityCalculator.constructor | ai/signal/priority_calculator.py:23-37 | weights are normalised on construction |
| PriorityCalculation.PriorityCalculator.Calculate | ai/signal/priority_calculator.py:39-113 | one score per entry, stably sorted, ranked from 1, the first as highest, none for no entries |
| PriorityCalculation.NormalizedSum | ai/signal/priority_calculator.py:28-37 | normalised weights sum to one within the rounding of three fourth decimals |
| PriorityCalculation.NormalizedShares | ai/signal/priority_calculator.py:28-37 | each weight keeps its own share of the total to four decimals; without a positive total the defaults are taken |
| PriorityCalculation.CalculatedRanking | ai/signal/priority_calculator.py:91-107 | the published ranking is descending, its scores have two decimals, and it holds each entry's base score once |
| PriorityCalculation.RankedMeasures | ai/signal/priority_calculator.py:66-107 | every ranked score carries its own approach's measures and is within half a hundredth of them weighted each with its own weight |
| PriorityCalculation.DemandMonotone | ai/signal/priority_calculator.py:66-89 | with weights that are not negative, at least as much of everything never scores less, rounding included |
| EmergencyRanking.EmergencyOverride.CheckAndOverride | ai/signal/emergency_override.py:33-111 | without scores or flagged lanes the result is unchanged; otherwise the boosted scores, stably re-sorted and re-ranked |
| EmergencyRanking.OverrideOrder | ai/signal/emergency_override.py:68-105 | when the boost suffices the output is the flagged lanes in their old order followed by the others, untouched, in theirs |
| EmergencyRanking.EmergencyLeads | ai/signal/emergency_override.py:46-105 | then no lane without an emergency vehicle in the statistics stands ahead of one with one |
| EmergencyRanking.OverrideExact | ai/signal/emergency_override.py:68-105 | for a descending ranking and a boost above half a hundredth every flagged lane comes first if and only if every boosted score exceeds every ordinary one |
| EmergencyRanking.OrdinaryScoresSuffice | config/signal.py:28-29 | scores in [0, boost) always meet that condition |
| EmergencyRanking.SchedulerTakesFirst | ai/signal/signal_scheduler.py:98-106 | of a descending ranking the scheduler takes the first emergency lane that is fresh and occupied |
| Intersection.DigitalIntersection.constructor | ai/pipeline/digital_intersection.py:72-108 | the simulator starts at all-red with zero remaining |
| Intersection.DigitalIntersection.TriggerCameraDropout | ai/pipeline/digital_intersection.py:116-125 | the camera's status, and a forced yellow when it is the green lane's; nothing for an unknown lane |
| Intersection.DigitalIntersection.TriggerAiStall | ai/pipeline/digital_intersection.py:127-134 | a stall forces all-red with nothing active and nothing remaining |
| Intersection.DigitalIntersection.StepSimulation | ai/pipeline/digital_intersection.py:136-232 | the next state of the countdown machine, demands, holds, clearance, selection and cycle book included |
| Intersection.DigitalIntersection.SelectNext | ai/pipeline/digital_intersection.py:206-230 | the grant at the end of clearance, or all-red when nobody is eligible |
| Intersection.DigitalIntersection.BuildSignals | ai/pipeline/digital_intersection.py:234-275 | only the active lane shows the phase; all others, and all lanes at all-red, are red |
| IntersectionRuns.GreenEntry | ai/pipeline/digital_intersection.py:202-216 | every green is entered on a tick, from all-red with no time left, for a lane with demand whose camera is not offline |
| IntersectionRuns.RoadIsReported | ai/pipeline/digital_intersection.py:116-180 | after every run each approach has the vehicle count, PCE score and priority of the latest tick that reported one for it, its camera the status set last, and the stall flag its last value |
| IntersectionRuns.HoldExactly | ai/pipeline/digital_intersection.py:169-175 | a tick while the detector is stalled or all four cameras are offline by the latest reports leaves everything red; a green with time left goes on if and only if there is no such hold |
| IntersectionRuns.DropExactly | ai/pipeline/digital_intersection.py:116-125 | over every run a dropout starts the yellow of the approach that is green, and changes no light otherwise |
| IntersectionRuns.SignalsMatchSnapshot | ai/pipeline/digital_intersection.py:234-275 | the approaches' signals and the snapshot's phase, lane and time agree |
| IntersectionRuns.GrantIsTimed | ai/pipeline/digital_intersection.py:206-216 | every grant starts the scheduler's choice on the green computed for it from the current ranking |
| IntersectionRuns.GreenOfReport | ai/pipeline/digital_intersection.py:147-216 | in every run that green is, to the nearest second, min plus 0.0375 of the range for each PCE unit last reported for the approach, up to twenty |
| IntersectionRuns.CycleLedger | ai/pipeline/digital_intersection.py:218-225 | over every run the grants split into one nonempty duplicate-free segment per counted cycle and a current one equal to the lanes served |
| IntersectionRuns.CycleBounds | ai/pipeline/digital_intersection.py:218-225 | so at most three lanes are open and cycles + served <= grants <= 4 * cycles + served |
| IntersectionRuns.FullDemandRotation | ai/pipeline/digital_intersection.py:205-225 | with four fresh occupied lanes and no emergency grants go round clockwise and grants = 4 * cycles + served |
| IntersectionRuns.CalculatorRanksAll | ai/pipeline/digital_intersection.py:182-185 | the priority calculator's ranking leaves no approach out, as that theorem asks |
| SimulatorService.NextGreens | ai/pipeline/digital_intersection.py:202-216 | from any point of any run, an approach that stays online and occupied is among the next 3k + 4 greens if at most k scheduler calls see an emergency, stalls and dropouts included |
| SimulatorService.FirstGreens | ai/pipeline/digital_intersection.py:202-216 | the same from any state |
| SimulatorService.TimeBound | ai/pipeline/digital_intersection.py:187-216 | with an approach in service and no stall, the time passed is at most what is left of the present turn and one longest turn, overruns included, for every green given |
| SimulatorService.GreenWithin | ai/pipeline/digital_intersection.py:187-216 | so from any such state an approach that stays in service has its green within the present turn and 3k + 3 longest turns, if at most k scheduler calls see an emergency |
| SimulatorService.GreenInTime | ai/pipeline/digital_intersection.py:187-216 | and at every point of every run |
| SimulatorService.GreenBounded | ai/signal/signal_scheduler.py:138-170 | the simulator's own greens are between its bounds, as that theorem asks |
| IntersectionRuns.ClockInvariant | ai/pipeline/digital_intersection.py:187-230 | at every point the time shown of yellow and all-red since the last green adds up with the time remaining |
| IntersectionRuns.TimedClearance | ai/pipeline/digital_intersection.py:116-230 | between two greens of any run without a hold, yellow lasts at least yellow_sec and all-red at least all_red_sec, forced yellows included |
| IntersectionRuns.YellowExactly | ai/pipeline/digital_intersection.py:116-230 | for a positive yellow_sec, at every grant after a first green, yellow was shown for yellow_sec since that green if and only if no stall and no all-offline hold began while green or yellow was showing |
| IntersectionRuns.StallSkipsClearance | ai/pipeline/digital_intersection.py:127-134 | a stall and its release turn one green into the next with no clearance |
| IntersectionRuns.Refinement | ai/pipeline/digital_intersection.py:336-352 | for positive durations unit steps show, k ticks after a grant, the colour, lane and seconds of the classifier at elapsed k, and select exactly when its phase expires |
| IntersectionRuns.RefinementExact | ai/pipeline/traffic_pipeline.py:427-434 | and they agree throughout if and only if green, yellow and all-red are all at least 1 |
| PhaseTimer.TrafficPipeline.ReleaseEmptyLane | ai/pipeline/traffic_pipeline.py:403-425 | the empty-lane rule: when it starts to watch, cuts, and stops watching |
| PhaseTimer.TrafficPipeline.ChangePhase | ai/pipeline/traffic_pipeline.py:440-475 | ranking, override, selection and decision as the new phase, or no phase when nobody is eligible |
| PhaseTimer.TrafficPipeline.ProcessStep | ai/pipeline/traffic_pipeline.py:398-475 | the whole timer step, and the colour reported with it |
| PhaseTimer.TrafficPipeline.ResetPhase | server/runtime.py:171 | STOP and RESTART drop the running phase and nothing else |
| PhaseTimerRuns.LogInvariant | ai/pipeline/traffic_pipeline.py:398-475 | over every run on a clock that does not go back the log of turns is in order and every turn keeps the timing rules |
| PhaseTimerRuns.GreenSpacing | ai/pipeline/traffic_pipeline.py:415-434 | after a turn that ran out the next green starts at least green + yellow + all-red later; at most one cut, to at least 1 and below what was granted, more than yellow + all-red - 1 before the next green |
| PhaseTimerRuns.OnlyInterruptions | ai/pipeline/traffic_pipeline.py:438 | without an emergency, STOP or RESTART every finished turn ran out |
| PhaseTimerRuns.CutClearance | ai/pipeline/traffic_pipeline.py:418-422 | what clearance a cut leaves: all of it if and only if a whole number of seconds had passed |
| PhaseTimerRuns.CutHappens | ai/pipeline/traffic_pipeline.py:415-434 | a run in which a green cut after three and a half seconds leaves four and a half seconds of clearance instead of five |
| PhaseTimerRuns.ClearanceByEnding | ai/pipeline/traffic_pipeline.py:427-438 | of the turns the timer itself ended, those with green, yellow and all-red in full are exactly those that ran out; pre-empted ones ended sooner |
| PhaseTimerRuns.EmergencyGuard | ai/pipeline/traffic_pipeline.py:438 | before the step: with given statistics a running turn can change only by running out if and only if it is an emergency's already or no approach reports one |
| PhaseTimerRuns.ProtectedExactly | ai/pipeline/traffic_pipeline.py:438-475 | a turn just granted cannot be ended before its time by any later emergency if and only if the granting step found one at the approach it granted |
| PhaseTimerRuns.GrantOf | ai/pipeline/traffic_pipeline.py:438-475 | every turn of a run's log was granted by a step of the run: its approach, green, yellow, start and emergency mark are the scheduler's choice and that step's statistics |
| PhaseTimerRuns.GrantIsLogged | ai/pipeline/traffic_pipeline.py:438-475 | and every such step has its turn in the log, in order |
| PhaseTimerRuns.EmergencyKeepsItsTurn | ai/pipeline/traffic_pipeline.py:438-475 | a green granted to an approach that reports an emergency is never pre-empted: only STOP ends it early |
| PhaseTimerRuns.AsksExactly | ai/pipeline/traffic_pipeline.py:427-438 | over every run a step asks the scheduler if and only if it has a frame and nothing runs, or the running turn is over, or some approach reports an emergency during a turn that is not one |
| PhaseTimerRuns.CounterIsAsked | ai/pipeline/traffic_pipeline.py:441 | the phase counter is the number of steps that asked |
| PhaseTimerRuns.PreEmptedMeansCutOff | ai/pipeline/traffic_pipeline.py:438 | some turn of a run was pre-empted if and only if some step saw an emergency during a turn that was not an emergency's and had not run out |
| PhaseTimerRuns.ClearanceExactly | ai/pipeline/traffic_pipeline.py:427-438 | over a whole run, bounds reconfigured or not, every turn the timer ended had its time in full if and only if no step saw an emergency during a turn that was not an emergency's and had not run out |
| PhaseTimerRuns.PreEmptionHasNoClearance | ai/pipeline/traffic_pipeline.py:438-475 | a pre-emption in an unexpired turn that shows green, in favour of another lane, makes that lane green in the same instant |
| PhaseTimerRuns.PreEmptionHappens | ai/pipeline/traffic_pipeline.py:438-475 | a run in which East takes a green of ten seconds from North after two, with nothing in between |
| PhaseTimerRuns.CutEvidence | ai/pipeline/traffic_pipeline.py:409-425 | a cut rests on two empty sightings at least a second apart with no occupied one from the first on |
| PhaseTimerRuns.CutsExactly | ai/pipeline/traffic_pipeline.py:406-425 | over every run a step cuts the green if and only if it finds the approach empty before the green is over and the same turn was found empty a second or more before, with no occupied sighting between |
| LiveService.NextTurns | ai/pipeline/traffic_pipeline.py:438-475 | at any point of any run, an approach that is fresh, occupied and ranked whenever a turn is given has one of the next 3k + 4 turns if at most k calls see an emergency |
| LiveService.LanesAreWinners | ai/pipeline/traffic_pipeline.py:451-465 | the turns of a run are the scheduler's choices, each with the cursor the last one left |
| LiveService.GrantIsOccupied | ai/pipeline/traffic_pipeline.py:451-453 | every turn goes to an approach with a fresh frame and vehicles in it |
| LiveService.OverrideLists | ai/pipeline/traffic_pipeline.py:444-449 | calculator and override together leave no approach out of the ranking |
| LiveService.OverrideLeads | ai/pipeline/traffic_pipeline.py:444-449 | with a boost above every base score no approach without an emergency vehicle is ranked ahead of one with one |
| Matching.IouFacts | ai/evaluation/model_evaluator.py:16-32 | overlap is symmetric, within [0, 1], and 1 exactly for a box with area and itself |
| Matching.IouIsCells | ai/evaluation/model_evaluator.py:16-32 | the overlap of two boxes is the number of grid cells both cover over the number either covers, and 0 when neither covers any |
| Matching.BestIndex | ai/evaluation/model_evaluator.py:269-278 | the greedy scan finds the first free ground truth of the class with the largest positive overlap |
| Matching.HitExactly | ai/evaluation/model_evaluator.py:268-288 | a prediction is a hit if and only if some free ground truth of its image and class overlaps it, by at least the threshold; it then takes the first of largest overlap |
| Matching.GreedyMatching | ai/evaluation/model_evaluator.py:262-291 | in the whole matching each prediction in turn is a hit if and only if those before it left such a ground truth, and takes that one and no other |
| Matching.OrderedIs | ai/evaluation/model_evaluator.py:264 | predictions are matched in order of falling confidence, equally confident ones as given, each once |
| Matching.Projection | ai/evaluation/model_evaluator.py:262-405 | the matching of everything, restricted to one image or class, is the matching within it alone |
| Matching.PassIsRestriction | ai/evaluation/model_evaluator.py:264-405 | each pass, with its own stable sort, is the reference matching seen from its scope |
| Matching.PassesAgree | ai/evaluation/model_evaluator.py:268-405 | for every image, class and threshold both passes give the same predictions the same outcomes, in the same order |
| AveragePrecision.Curves | ai/evaluation/model_evaluator.py:407-414 | the padded recall and precision curves |
| AveragePrecision.PrecisionAndRecall | ai/evaluation/model_evaluator.py:407-414 | precision and recall after a prediction are the number of hits up to it over the predictions up to it and over the ground truths |
| AveragePrecision.Envelope | ai/evaluation/model_evaluator.py:415-416 | the in-place right-to-left loop leaves the suffix maxima |
| AveragePrecision.Area | ai/evaluation/model_evaluator.py:418-420 | the sum over the points where recall changes is the sum over all hits: skipping equal recalls loses nothing |
| AveragePrecision.Integrate | ai/evaluation/model_evaluator.py:380-421 | together they compute the reference: the mean over ground truths of the best precision from each hit on |
| AveragePrecision.BestFromIsMax | ai/evaluation/model_evaluator.py:415-416 | that best precision is the maximum of the suffix, attained, and within [0, 1] |
| AveragePrecision.AreaIsBestSum | ai/evaluation/model_evaluator.py:418-420 | the rectangles at the hits add up to the averaged best precision |
| AveragePrecision.ApBounds | ai/evaluation/model_evaluator.py:407-421 | 0 <= AP <= final recall <= 1 |
| AveragePrecision.ApIsOne | ai/evaluation/model_evaluator.py:407-421 | AP is 1 if and only if the first predictions, as many as ground truths, all hit |
| Evaluation.HitsAreUsed | ai/evaluation/model_evaluator.py:268-291 | every hit takes one ground truth of its class, only hits do, and none is lost |
| Evaluation.Conservation | ai/evaluation/model_evaluator.py:280-291 | per class TP + FP = predictions and TP + FN = ground truths |
| Evaluation.CountsAgree | ai/evaluation/model_evaluator.py:262-405 | the true positives of the per-image passes equal the hits of the class's AP pass at the same threshold |
| Evaluation.ClassApBounds | ai/evaluation/model_evaluator.py:293-304 | a class's AP lies between 0 and its recall |
| ConfusionMatrix.MatrixConservesExactly | ai/evaluation/model_evaluator.py:250-291 | over all labels, a class's column sums to its predictions and its row to its ground truths; the background's column does if and only if nothing was missed, its row if and only if nothing was invented |
| ConfusionMatrix.BackgroundSums | ai/evaluation/model_evaluator.py:250-291 | what the background's column and row sum to in every case |
| EvaluatorPasses.Tally.Hit | ai/evaluation/model_evaluator.py:280-283 | a hit counts once in the totals and once in the matrix |
| EvaluatorPasses.Tally.Miss | ai/evaluation/model_evaluator.py:284-286 | so does a false positive |
| EvaluatorPasses.Tally.Missed | ai/evaluation/model_evaluator.py:288-291 | and a ground truth left over |
| EvaluatorPasses.BestInImage | ai/evaluation/model_evaluator.py:269-278 | the scan over an image's mixed-class list is the reference choice |
| EvaluatorPasses.EvaluateImage | ai/evaluation/model_evaluator.py:262-291 | one image adds exactly its reference counts for every class |
| EvaluatorPasses.BestInClass | ai/evaluation/model_evaluator.py:391-399 | the scan over an image's list of one class is the reference choice too |
| EvaluatorPasses.ClassPass | ai/evaluation/model_evaluator.py:383-405 | the pass with one matched set per image flags exactly the reference hits over all ground truths of the class |
| EvaluatorPasses.ClassAp | ai/evaluation/model_evaluator.py:371-421 | and its average precision is the reference |
| EvaluatorPasses.ModelEvaluator.Evaluate | ai/evaluation/model_evaluator.py:228-304 | for any predictions and ground truths the three counts per class, the matrix and the AP at every threshold are the reference ones |
| FrameHandoff.MessageHandler.HandleVideoFrame | server/message_handler.py:416-444 | a paused system refuses; otherwise the frame takes its approach's slot, the old one is counted as dropped, and the wake-up flag is set |
| FrameHandoff.MessageHandler.TakeBatch | server/frame_coordinator.py:85-87 | the slots become the batch, and slots and flag are cleared together |
| FrameHandoff.MessageHandler.Prepare | server/frame_coordinator.py:26-42 | the freshness and decoding loop, exceptions included, as a run of judging steps |
| FrameHandoff.MessageHandler.Complete | server/frame_coordinator.py:63-76 | the pipeline loop, with the uncounted exit for a frame that grew too old without a detection |
| FrameHandoff.MessageHandler.DeliverAll | server/frame_coordinator.py:90-118 | the publishing loop, with gone sessions, failed acknowledgements and exceptions |
| FrameHandoff.MessageHandler.RunRound | server/frame_coordinator.py:79-118 | one round of the coordinator is a run of steps and ends waiting with the slots emptied; without exceptions each frame of the batch joins, in order, the log its verdict, reading and reply call for, and when all goes well the whole batch is processed and nothing set aside |
| FrameHandoff.HandoffInvariant | server/frame_coordinator.py:82-118 | the invariant over every interleaving of arrivals and coordinator steps before shutdown |
| FrameHandoff.EveryFrameOnce | server/message_handler.py:424-444 | every received frame is in exactly one place: a slot, the batch, or one of the logs |
| FrameHandoff.CountersAddUp | server/frame_coordinator.py:24-44 | received = waiting + in flight + dropped + decode_failed + processed + lost |
| FrameHandoff.LostIsExplained | server/message_handler.py:538-539 | every lost frame has a cause: a batch error, or too old when its turn came with no detection for its approach; without an error only the latter |
| FrameHandoff.OutcomeExactly | server/frame_coordinator.py:24-106 | after every interleaving a frame is received, overwritten, refused, undecodable, processed or lost if and only if some step did that to it for its reason: refused when paused or older than 2500 ms as it is judged, or with its session gone; lost when too late without a detection, or held by a failing batch |
| FrameHandoff.ClearRound | server/frame_coordinator.py:26-106 | a round in which every frame is judged running and in time, decodes, is detected or still in time, and is acknowledged processes its batch in order |
| FrameHandoff.ProcessedInOrder | server/frame_coordinator.py:90-106 | the processed frames of an approach are received ones, in the order they came in |
| FrameHandoff.NextBatchIsNewest | server/frame_coordinator.py:83-87 | a waiting frame always wakes an idle coordinator, and the batch is the newest frame of every approach that has one |
| FrameHandoff.OverwrittenByNewer | server/message_handler.py:427-431 | a frame is overwritten only by a later one of the same approach |
| FrameBatching.GatesAgreeExactly | ai/pipeline/traffic_pipeline.py:46-49 | the coordinator's gate and the pipeline's agree after every history if and only if the time stamp is not zero, or the wall clock is |
| FrameBatching.DetectorRate | ai/pipeline/traffic_pipeline.py:46-49 | on non-decreasing time stamps n detector runs take at least (n - 1) / fps seconds |
| FrameBatching.RunsExactly | ai/pipeline/traffic_pipeline.py:46-49 | for any time stamps, running backwards or not, a frame is passed over if and only if it comes less than a period after the latest run before it |
| FrameBatching.NoBetterCadence | ai/pipeline/traffic_pipeline.py:46-49 | and no other choice of frames that keeps to the rate runs the detector more often |
| FrameBatching.NumbersAgreeExactly | server/frame_coordinator.py:54-72 | detector and pipeline give every due frame the same number if and only if one chunk holds all the due frames and no frame ahead of a due one is both not due and fresh |
| FrameBatching.TrafficPipeline.constructor | ai/models/model_manager.py:52 | the batch size: one for ncnn models, otherwise the configured one, or the nearer of 1 and 4 |
| FrameBatching.TrafficPipeline.ProcessSingleFrame | ai/pipeline/traffic_pipeline.py:160-272 | the gate, the precomputed result or an inference of its own, and the remembered run time |
| FrameBatching.TrafficPipeline.DetectBatch | ai/detection/detector.py:62-71 | one result per image, in order |
| FrameBatching.TrafficPipeline.DetectDue | server/frame_coordinator.py:51-62 | for any chunk size exactly the due frames have a result, each that of its own image |
| FrameBatching.TrafficPipeline.SelectDue | server/frame_coordinator.py:48-50 | the due frames in order |
| FrameBatching.TrafficPipeline.ProcessReady | server/message_handler.py:538-539 | a frame's turn in the pipeline, or its exit when it is not due and too old |
| FrameBatching.TrafficPipeline.ProcessBatch | server/frame_coordinator.py:48-76 | every frame has the fate it would have alone, the two numbers apart; those, the run times and the counts of second and discarded inferences are given for any input |
| FrameBatching.FateOffZero | server/frame_coordinator.py:48-62 | off the zero time stamp that fate is: due, its own image's detection from the batch; otherwise skipped if too old, else predicted |
| FrameBatching.NothingWasted | ai/pipeline/traffic_pipeline.py:243-258 | nothing is inferred twice or thrown away if and only if both gates agree on every frame that reaches the pipeline, as they do off the zero time stamp |
| FrameBatching.NeverWastesExactly | ai/pipeline/traffic_pipeline.py:243-258 | for a batch, whatever ran before and whichever frames are too old, nothing is inferred twice or thrown away if and only if no frame has a zero time stamp, unless the wall clock reads zero too |
| FrameBatching.ReachedDue | server/message_handler.py:538-539 | the pipeline has seen just the due frames exactly when all others so far were too old |
| VehicleTracking.VehicleStateManager.ObserveAgain | ai/state/vehicle_state_manager.py:119-169 | one more observation of a known track: lane change, dwell, speed, queueing and confirmation |
| VehicleTracking.VehicleStateManager.Accept | ai/state/vehicle_state_manager.py:78-172 | one detection: ignored without an id, display-only when predicted, otherwise stored and recorded |
| VehicleTracking.VehicleStateManager.PurgeStaleTracks | ai/state/vehicle_state_manager.py:181-201 | unseen tracks go dead, and out after the grace period; the others stay in place |
| VehicleTracking.VehicleStateManager.Update | ai/state/vehicle_state_manager.py:67-179 | the whole update |
| VehicleTracking.VehicleStateManager.GetConfirmedVehiclesByLane | ai/state/vehicle_state_manager.py:216-228 | the live confirmed vehicles of every lane, in order, and no list for other lanes |
| VehicleTracking.NextKeeps | ai/state/vehicle_state_manager.py:67-201 | every update keeps the invariant and leaves alive exactly the tracks it observed |
| VehicleTracking.VehicleInvariant | ai/state/vehicle_state_manager.py:96-201 | after every update of every run: alive iff observed, within the grace period, 0 <= queue time <= time in lane, queued iff ten slow frames, confirmed iff seen twice, confirmed ones in their lane's history |
| VehicleRuns.PredictionsAreInert | ai/state/vehicle_state_manager.py:83-94 | adding or deleting predictions anywhere in a run changes only the two display fields |
| VehicleRuns.PredictionMarks | ai/state/vehicle_state_manager.py:83-94 | a prediction marks its track as predicted in that frame and touches nothing else |
| VehicleRuns.StateIsLife | ai/state/vehicle_state_manager.py:101-169 | every retained state is what its own observations since it was created lead to, whatever other tracks did |
| VehicleRuns.LifeFacts | ai/state/vehicle_state_manager.py:123-156 | what a sequence of observations amounts to: dwell, frames seen, and the most the slow count can be |
| VehicleRuns.LifeKeeps | ai/state/vehicle_state_manager.py:101-117 | class, priority and first sighting stay those of the observation that created the track |
| VehicleRuns.DwellAndQueue | ai/state/vehicle_state_manager.py:123-156 | in every run in time order, time in lane runs from the observation that entered the lane, and a queued vehicle has ten in that lane |
| VehicleRuns.SlowIsSighted | ai/state/vehicle_state_manager.py:133-141 | the speed held is below the threshold if and only if the last two observations at different times lie less than fifteen pixels per second apart, both axes counted; a new track is at rest |
| VehicleRuns.SlowCountIsBestNet | ai/state/vehicle_state_manager.py:129-151 | the slow-frame count is the best that slow observations have done against fast ones in any stretch of the present lane up to now |
| VehicleRuns.QueuedExactly | ai/state/vehicle_state_manager.py:138-151 | in every run a vehicle is queued if and only if, by the positions and times of its sightings, slow observations outnumber fast ones by ten in such a stretch |
| VehicleRuns.QueueTimeExactly | ai/state/vehicle_state_manager.py:123-151 | in every run in time order queue time is exactly the time passed up to each observation in the lane that found it queued |
| VehicleRuns.RetainedExactly | ai/state/vehicle_state_manager.py:181-201 | in every run in time order a track is held if and only if some update within the grace period observed it |
| VehicleRuns.LiveExactly | ai/state/vehicle_state_manager.py:216-228 | the vehicles counted for a lane are exactly the tracks seen in the latest frame, there in that lane, and at least twice since they were created |
| VehicleRuns.HistoryExactly | ai/state/vehicle_state_manager.py:153-168 | a lane's history holds exactly the tracks ever observed in it while already known |
| LaneAnalytics.AnalyticsExporter.Analyze | ai/analytics/congestion_analyzer.py:43-59 | PCE, stopped vehicles, queue times and priority in one pass |
| LaneAnalytics.AnalyticsExporter.GenerateStats | ai/analytics/analytics_exporter.py:68-108 | a record for each of the four lanes, from its confirmed vehicles alone |
| LaneAnalytics.TotalsAre | ai/analytics/congestion_analyzer.py:39-59 | the pass adds the weights of all vehicles and the queue times of the stopped ones, counts those, and finds the longest wait and any priority vehicle |
| LaneAnalytics.ExportFigures | ai/analytics/analytics_exporter.py:76-106 | every exported figure of a lane is, to its decimals, that sum over its live vehicles, and the density class is that of the congestion index made of them |
| LaneAnalytics.StoppedExactly | ai/analytics/congestion_analyzer.py:51-55 | a vehicle counts as stopped if and only if it is queued or has been in this lane |
| LaneAnalytics.LiveCountExactly | ai/analytics/analytics_exporter.py:88-101 | after every run the count exported for a lane is the number of tracks seen in it in the latest frame and at least twice in all |
| LaneAnalytics.PriorityExactly | ai/analytics/congestion_analyzer.py:45-49 | a lane reports an emergency if and only if one of those was a priority vehicle when its track was created |
| LaneAnalytics.PredictionsDoNotCount | ai/analytics/analytics_exporter.py:72-106 | nothing exported for any lane depends on predictions |
| LaneAnalytics.LiveWithinHistory | ai/analytics/analytics_exporter.py:88-101 | live_count <= historical_count for every lane after every run |
| Sessions.SessionManager.GetSessionByDirection | server/session_manager.py:74-81 | an unexpired holder of the approach, or none exactly when there is none |
| Sessions.SessionManager.CreateSession | server/session_manager.py:44-72 | a new token for the node, the approach's other holder removed, everything else as it was |
| Sessions.SessionManager.ValidateSession | server/session_manager.py:83-88 | valid iff known, unexpired and the token matches |
| Sessions.SessionManager.UpdateHeartbeat | server/session_manager.py:90-95 | refreshes a valid session and nothing else |
| Sessions.SessionManager.CleanupExpiredSessions | server/session_manager.py:108-118 | exactly the expired sessions go |
| Sessions.SessionManager.GetPairingSession | server/session_manager.py:130-140 | the pairing of the approach, or none, an expired one being forgotten |
| Sessions.SessionManager.ValidatePairingSession | server/session_manager.py:148-153 | node, token and expiry must all match |
| Sessions.MessageHandler.AdmitRegistration | server/message_handler.py:186-203 | who is let in: paired or reconnecting, and the approach not held by another node |
| Sessions.MessageHandler.CompleteRegistration | server/message_handler.py:214-219 | the session is created and a used pairing cleared |
| Sessions.OneSessionPerDirection | server/session_manager.py:51-55 | in every reachable state, at every later moment, an approach has at most one unexpired session |
| Sessions.ValidityOnlyEnds | server/message_handler.py:103-118 | a token issued before and valid now was valid all along, whatever refreshes, registrations and cleanups came between |
| Sessions.CompletionEvicts | server/session_manager.py:51-69 | completing a registration ends another node's session if and only if it is for the same approach |
| Sessions.AdmittedExactly | server/message_handler.py:186-203 | a registration passes its checks if and only if it shows the token of an unexpired pairing of this node and approach, or of its own unexpired session there, and no other node of the approach was heard in ten seconds |
| Sessions.CompletionGrants | server/session_manager.py:60-72 | completing a registration gives the node a token never issued before, good for exactly ten seconds unless refreshed, and uses the pairing up |
| Sessions.HeartbeatExtends | server/session_manager.py:90-95 | a heartbeat makes a valid session good for exactly ten more seconds |
| Sessions.CleanupExactly | server/session_manager.py:108-118 | a cleanup leaves exactly the valid sessions, unchanged |
| Sessions.LookUpForgets | server/session_manager.py:130-140 | looking a pairing up forgets it if and only if it has expired |
| Sessions.RemovalEnds | server/session_manager.py:97-102 | a removed node's session is gone and no other |
| Sessions.RegistrationDisplacesNobody | server/message_handler.py:201-215 | checked and completed without a pause, a registration ends no other session |
| Sessions.PausedRegistrationDisplaces | server/message_handler.py:201-215 | with a pause between check and completion one run does |
| CountSmoothing.CountStabilizer.constructor | ai/state/count_stabilizer.py:74-102 | every lane starts unseen |
| CountSmoothing.CountStabilizer.Average | ai/state/count_stabilizer.py:136-150 | history and moving average of one lane |
| CountSmoothing.CountStabilizer.StabilizeLane | ai/state/count_stabilizer.py:134-165 | and the counts handed on |
| CountSmoothing.CountStabilizer.Stabilize | ai/state/count_stabilizer.py:109-174 | each reported lane as by itself, the others untouched |
| CountSmoothing.CountStabilizer.UpdateDecisionStability | ai/state/count_stabilizer.py:176-202 | one decision in the stability counters |
| CountSmoothing.HistoryIsLast | ai/state/count_stabilizer.py:136-141 | the history is the last min(n, size) readings |
| CountSmoothing.InRangeExactly | ai/state/count_stabilizer.py:143-150 | the average stays within the readings' range for every run if and only if the history has room for one, or alpha is 1 |
| CountSmoothing.PublishedInRange | ai/state/count_stabilizer.py:152-158 | so do the two-decimal count and the whole count given to the scheduler |
| CountSmoothing.PublishedCounts | ai/state/count_stabilizer.py:152-158 | the counts handed on are the average to the nearest whole and to two decimals |
| CountSmoothing.PceInProportion | ai/state/count_stabilizer.py:160-163 | the PCE score handed on is to the raw one as the smoothed count is to the raw count, to two decimals |
| CountSmoothing.Convergence | ai/state/count_stabilizer.py:143-150 | n equal readings shrink the error by exactly (1 - alpha)^n, for any history size but one |
| CountSmoothing.HistoryOfOne | ai/state/count_stabilizer.py:143-150 | with a history of one there is no smoothing |
| CountSmoothing.FlipsAreChanges | ai/state/count_stabilizer.py:188-202 | total = stable + flipped, and flipped counts the lane changes, the first decision included |
| CountSmoothing.StableSinceFlip | ai/state/count_stabilizer.py:188-202 | consecutive stable frames are exactly those since the last flip |

## Left out

- Floating-point error, NaN and infinities: numbers are `real`; rounding to integers and decimals is modelled exactly.
- Objects shared between containers: a score object whose rank is rewritten by the override, and a vehicle state handed out in a list, are values here, so changes seen through another reference are not modelled.
- Lane labels other than the four approaches in the dictionaries of the decision layer (the fairness counters and the sort take any label), and upper and lower case of names and directions.
- The order in which the live pipeline lists lanes is that of a Python set; the class fixes it as north, east, south, west, and the timer theorems hold for any ranking.
- Weights given with keys missing, and the priority calculator's fallback to default keys.
- Reason texts, timestamps of decisions, score history and snapshot formatting.
- The 3-second decay of statistics of unseen lanes (its comment says 15): the statistics a step ends up with are an input.
- Precision, recall, F1, means over classes and thresholds, and count errors of the evaluator: ratios of the counts proved here.
- Loading of annotations; the crowd flag, which the evaluator ignores.
- The hand-off after shutdown, JPEG size checks, decoding and rotation of images, and the choice of a frame's direction from its payload: an accepted frame with its direction is an input. Increments are atomic.
- Latency figures, telemetry and the frame buffer written while publishing.
- Detector, tracker and drawing: the detector is a function of one image; track ids and predictions are inputs.
- Copies of a vehicle's figures written back onto the detections of a frame, the average motion (which needs a square root; speeds are kept squared), and the count per vehicle class.
- Two clock readings within one session operation are one reading; case folding and default names of nodes and directions; the streaming flag and socket ownership.
- The largest raw-to-smoothed difference, the stability ratio and the report of the stabilizer.
- Transports, Redis, serial line, files, logs, configuration loading, web interface.
