# Netaheuristics core, modelled in Dafny

Netaheuristics is a Rust library of improving metaheuristics. Three algorithms plug into one control loop:

- variable neighbourhood search (VNS): move to the best neighbour under the chosen operator, but only when it strictly improves;
- simulated annealing (SA): take a random neighbour, and accept a worse one with a temperature-dependent probability;
- large neighbourhood search (LNS): destroy the incumbent with one operator and repair it with another.

Each round runs through the same steps:

1. An operator selector picks which operator the round uses. There are three policies: sequential, uniform random and adaptive roulette.
2. The algorithm proposes a candidate.
3. The best solution is updated when the candidate is strictly better.
4. The algorithm decides whether the candidate becomes the incumbent.
5. A termination criterion decides whether to stop. Criteria are iteration caps, deadlines, and any/all aggregates of them.

This project models the following, as pure functions over immutable records:

- the selectors;
- the termination criteria and their builder;
- the current algorithms (`src/algorithms/`) and their earlier versions (`src/vns.rs`, `src/sa.rs`, `src/lns.rs`);
- the test fixture of `src/test.rs`: a row of numbers, an operator whose neighbourhood is the positions `n` away, and a random adjacent move;
- the control loop.

On that model it proves:

- the test suite's four VNS scenarios, each from the built heuristic to the final solution;
- the adaptive selector's own test;
- what each operation guarantees, with its error paths.

## Modelling choices

- A panic becomes `None`. The panicking cases are an empty selector pool, an out-of-range index, an empty neighbourhood and a shake with no option. A builder's `expect` becomes `Err` naming the first missing field, in the order the source checks them.
- Objectives, weights and temperatures are `real`. The sequential selector's initial best, f32 `INFINITY`, becomes `Extended.PosInf`.
- The exponential function is a parameter `exp: real -> real`. `SA.ExpLike` states the three facts about it that the proofs use.
- The random generator is an infinite stream of unit draws plus a draw counter (`Random.Rng`). `gen::<f32>()` is the next draw. `gen_range(0..m)` is `floor(u * m)`.
- The wall clock is injected: one reading `now` per round (`Driver.Optimize`), and the reading at build time for `time_max`. A run that uses up its readings ends with `Exhausted`.
- The interior mutability of the source (`RefCell` cursors, counters and weights) becomes a new state returned with each result.
- The control loop (`optimize`) and the trait's `find_best_neighbor` are not part of this model. Both are reconstructed from how the algorithms' hooks are used:
  - a round proposes, updates the best, accepts or rejects, then checks termination;
  - the best neighbour is the first minimum of the enumeration.
  
  With this reconstruction, the four VNS scenarios end exactly where the source's tests expect.
- Simulated annealing runs in the loop with its acceptance rule as written (`Driver.Acceptance.AsWritten`). The corrected Metropolis rule is a separate variant (`Driver.Acceptance.Metropolis`); see Findings.
- Where the source's short-circuit evaluation matters, it is kept. The AND aggregate fires only when every criterion fires on the same check, as the doc comment at src/termination.rs:96 says. Because `all` stops at the first criterion that does not fire, later iteration counters advance only on checks where every earlier criterion fires. An AND of two iteration caps a and b therefore fires only when b is 1, on check a (`Termination.AndOfIterationsRarelyFires`).
- `src/test.rs` has its own adaptive-selector test (lines 128-147). It expects weights 4 and 2, which the decay rule in `src/selectors.rs` cannot produce. That test is written against an earlier interface and is not modelled. The selector's own test in `src/selectors.rs` is modelled (`Scenarios.AdaptiveFeedbackScenario`).

## Model

| member | source | states |
|---|---|---|
| Random.NextIndex | src/selectors.rs:141 | a ranged draw is always a valid index below the bound and consumes exactly one draw of the generator |
| Selectors.NewSequentialIsFresh | src/selectors.rs:146-153 | a new sequential selector has an empty pool, cursor 0, and a best of +infinity that every objective lies below |
| Selectors.AddSequentialOption | src/selectors.rs:155-158 | `option` appends the operator at the end of the pool and leaves the cursor and the best objective as they were |
| Selectors.SelectSequential | src/selectors.rs:162-174 | select panics exactly when the pool is empty; an objective strictly below the best seen so far becomes the new best and restarts at operator 0; any other objective keeps the best and moves the cursor one place on, wrapping round the pool; the pool never changes and the chosen index is in range |
| Selectors.SelectRun | src/selectors.rs:162-174 | a sequence of select calls panics only when there is at least one call and the pool is empty; otherwise every call gets an in-range index and the pool is kept |
| Selectors.FreshSequentialFirstCallImproves | src/selectors.rs:147-153 | a new selector starts with best +infinity, so its first select always counts as an improvement: it records that objective and picks operator 0 |
| Selectors.DecreasingKeepsCursorAtZero | src/selectors.rs:162-174 | while every objective shown improves strictly on the last, the selector keeps picking the first operator |
| Selectors.ConstantAdvancesCursor | src/selectors.rs:162-174 | while the objective does not improve, call t picks operator (cursor + t + 1) mod n, cycling through the pool |
| Selectors.FreshConstantVisitsEveryOperator | src/selectors.rs:147-174 | from a new selector, a constant objective makes call t pick operator t mod n, so every operator gets its turn |
| Selectors.NewRandom | src/selectors.rs:126-131 | a new uniform selector has an empty pool and owns the given generator |
| Selectors.AddRandomOption | src/selectors.rs:133-136 | `option` appends the operator and leaves the generator alone |
| Selectors.SelectRandom | src/selectors.rs:140-143 | uniform select panics exactly on an empty pool; otherwise it returns an index in range after one draw, and nothing else changes |
| Selectors.DefaultWeights | src/selectors.rs:53-64 | the default adaptive selector has no options, no last selection, and rewards 3 for an improved best, 1 for an acceptance and 0 for a rejection |
| Selectors.CustomWeights | src/selectors.rs:67-84 | the custom constructor is the default one with the three rewards replaced by the caller's |
| Selectors.AddOperator | src/selectors.rs:100-104 | a new option enters with weight 1; the existing weights, the last selection and the generator are untouched; one weight per option is kept |
| Selectors.Feedback | src/selectors.rs:87-97 | with no last selection, feedback changes nothing; otherwise only the last selected option's weight moves, to (1 - decay) * old + decay * the reward for the outcome; all other weights and all other fields stay as they were |
| Selectors.FeedbackBetweenOldAndReward | src/selectors.rs:95 | with a decay in [0, 1], the updated weight lies between the old weight and the reward |
| Selectors.FeedbackKeepsWeightsNonNegative | src/selectors.rs:87-97 | with non-negative rewards and a decay in [0, 1], feedback never makes a weight negative |
| Selectors.RouletteFrom | src/selectors.rs:113-121 | the roulette loop returns the first position whose running weight sum reaches the target; when it returns none (the panic), every running sum is below the target |
| Selectors.SelectAdaptive | src/selectors.rs:108-122 | adaptive select scales one draw by the total weight and returns the first option whose running sum reaches it; it records that option as the last selection and consumes one draw |
| Selectors.AdaptiveSelectNeverPanics | src/selectors.rs:108-122 | with at least one option and no negative weight, the draw is always reached by some running sum, so adaptive select never panics |
| Selectors.Select | src/selectors.rs:10-16 | select through the selector interface keeps the pool and the policy, returns an in-range index, and never panics on a non-empty pool whose weights are non-negative; it also keeps the weights non-negative |
| Termination.Builder | src/termination.rs:50-55 | a new builder has no criteria and the OR aggregate |
| Termination.Criterium | src/termination.rs:74-78 | `criterium` appends the given criterion at the end and keeps the aggregate |
| Termination.Iterations | src/termination.rs:80-87 | `iterations` appends a counter at 0 with the given limit and keeps the aggregate |
| Termination.TimeMax | src/termination.rs:89-94 | `time_max` appends a deadline `seconds` after the clock reading and keeps the aggregate |
| Termination.RequireAll | src/termination.rs:96-100 | `all` switches the aggregate to AND and keeps the criteria |
| Termination.RequireAny | src/termination.rs:102-106 | `any` switches the aggregate to OR and keeps the criteria |
| Termination.Terminate | src/termination.rs:109-136 | an iteration counter increments and then fires exactly when the count equals its limit; a deadline fires exactly when the clock is at or past it and never changes; the OR and AND aggregates keep their number of criteria |
| Termination.AnyOf | src/termination.rs:109-112 | OR fires exactly when some criterion fires; criteria are checked left to right, and only those up to the first one that fires are advanced |
| Termination.AllOf | src/termination.rs:115-118 | AND fires exactly when every criterion fires; criteria are checked left to right, and only those up to the first one that does not fire are advanced |
| Termination.IterationFiresOnlyOnCallN | src/termination.rs:121-129 | a counter at c with limit n fires on exactly one call, the (n - c)-th, and never again after it |
| Termination.OrOfIterationsFiresAtMin | src/termination.rs:109-129 | OR over two iteration caps a and b first fires on round min(a, b) and not before |
| Termination.AndOfIterationsRarelyFires | src/termination.rs:115-129 | an AND of caps a and b fires on round a exactly when b is 1, because short-circuiting stops the second counter advancing until the first fires |
| Termination.Build | src/termination.rs:60-72 | build gives an AND of the collected criteria when the aggregate is "all" and an OR otherwise, keeping the criteria in order |
| Termination.TimeMaxFiresAfterDeadline | src/termination.rs:89-94 | a `time_max` deadline added at time `now` for `seconds` fires exactly when the clock reaches now + seconds |
| Termination.ApplyMatchesReference | src/termination.rs:50-106 | any chain of builder calls collects exactly the criteria the calls add, in order, and ends with the aggregate of the last `all`/`any` call |
| Termination.BuildReflectsCalls | src/termination.rs:50-106 | from a new builder, any configuration chain builds an aggregate over exactly the criteria added, which is AND only when the last aggregate call was `all`; with no aggregate call it is OR |
| Heuristic.ArgMinFrom | src/algorithms/vns.rs:86 | the left-to-right scan ends at the first position of minimal objective |
| Heuristic.FindBestNeighbor | src/algorithms/vns.rs:86 | the best neighbour is missing exactly when the neighbourhood is empty; otherwise it is the first neighbour of minimal objective |
| Heuristic.BestNeighborIsMinimal | src/algorithms/vns.rs:86 | the best neighbour belongs to the neighbourhood and no neighbour scores lower |
| VNS.BuilderIsEmpty | src/algorithms/vns.rs:53-59 | a new builder has nothing set, so building it straight away reports the missing selector |
| VNS.Build | src/algorithms/vns.rs:39-46 | build succeeds exactly when both selector and terminator are set; a missing selector is reported before a missing terminator |
| VNS.BuildIgnoresRng | src/algorithms/vns.rs:13-17 | whether a generator is given makes no difference to what is built |
| VNS.AcceptCandidate | src/algorithms/vns.rs:68-73 | only a strictly better candidate is accepted; an equal objective is rejected |
| VNS.ProposeCandidate | src/algorithms/vns.rs:81-87 | the selector sees the incumbent first; the proposal fails exactly when the selector panics or the chosen neighbourhood is empty; otherwise it is a neighbour that no neighbour beats, and only the selector's state changes |
| VNS.ShouldTerminate | src/algorithms/vns.rs:76-78 | the verdict is the terminator's, and only the terminator's state changes |
| SA.BuilderIsEmpty | src/algorithms/sa.rs:29-37 | a new builder has no operators and nothing set, so building it straight away reports the missing generator |
| SA.AddOperator | src/algorithms/sa.rs:29-37 | `operator` appends to the builder's operator list and changes nothing else |
| SA.Build | src/algorithms/sa.rs:41-50 | build succeeds exactly when generator, selector, terminator and temperature are all set, and reports the first missing one in that order |
| SA.BuildIgnoresOperators | src/algorithms/sa.rs:41-50 | the operators added to the builder make no difference to what is built |
| SA.ComputeProbability | src/algorithms/sa.rs:113-124 | as written: a candidate that is not worse gets 1; a worse one gets exp((candidate - incumbent) / temperature), which is at least 1 for any positive temperature; a zero temperature gives +infinity |
| SA.AcceptCandidate | src/algorithms/sa.rs:82-96 | as written: one draw is consumed whatever the outcome; a strictly better candidate is accepted; any other is accepted exactly when the draw is at most the computed probability |
| SA.WorseCandidateAlwaysAccepted | src/algorithms/sa.rs:82-124 | as written, with a non-negative temperature every candidate is accepted, however much worse and whatever the draw |
| SA.SignErrorWitness | src/algorithms/sa.rs:113-124 | with incumbent 1, candidate 2 and temperature 1, the source's probability is e > 1 and the worse candidate is accepted; the Metropolis rule gives 1/e < 1 |
| SA.MetropolisProbability | src/algorithms/sa.rs:80-81 | corrected: a candidate that is not worse gets 1; a worse one gets a probability strictly between 0 and 1 at a positive temperature, and 0 at temperature 0 |
| SA.AcceptCandidateMetropolis | src/algorithms/sa.rs:82-96 | corrected: one draw is consumed; a candidate that is not worse is accepted; a worse one is accepted exactly when the draw is at most exp((incumbent - candidate) / temperature), and at temperature 0 only when the draw is 0 |
| SA.MetropolisCanReject | src/algorithms/sa.rs:80-96 | corrected: at a positive temperature every worse candidate is rejected by some draw |
| SA.ProposeCandidate | src/algorithms/sa.rs:99-105 | the selector sees the incumbent first; the chosen operator shakes the incumbent with the annealer's generator; the proposal fails exactly when either panics; only the selector state and the generator change |
| SA.ShouldTerminate | src/algorithms/sa.rs:108-110 | the verdict is the terminator's, and only the terminator's state changes |
| LNS.BuilderIsEmpty | src/algorithms/lns.rs:25-32 | a new builder has nothing set, so building it straight away reports the missing destroyer selector |
| LNS.Build | src/algorithms/lns.rs:36-47 | build succeeds exactly when destroyer selector, repairer selector, terminator and generator are all set, and reports the first missing one in that order |
| LNS.AcceptCandidate | src/algorithms/lns.rs:78-87 | only a strictly better candidate is accepted |
| LNS.ProposeCandidate | src/algorithms/lns.rs:90-101 | both selectors see the incumbent, destroyer first; the destroyer's shake runs on the incumbent and the repairer's on its result, the generator passing from one to the other; the proposal fails exactly when one of the four steps panics; the pools and the terminator are kept |
| LNS.ShouldTerminate | src/algorithms/lns.rs:104-106 | the verdict is the terminator's, and only the terminator's state changes |
| LegacyVNS.BuilderIsEmpty | src/vns.rs:61-68 | a new builder has no operators and nothing set, so building it straight away reports the missing selector |
| LegacyVNS.AddOperator | src/vns.rs:22-26 | `operator` appends to the builder's operator list and changes nothing else |
| LegacyVNS.Build | src/vns.rs:47-54 | build succeeds exactly when selector and terminator are set, selector reported first; the operator list is dropped |
| LegacyVNS.BuildMatchesCurrent | src/vns.rs:47-54 | whatever operators were added, the earlier builder builds what the current one builds from the same selector and terminator |
| LegacyVNS.AcceptCandidateIfBetter | src/vns.rs:99-101 | only a strictly better candidate is accepted |
| LegacyVNS.AcceptMatchesCurrent | src/vns.rs:77-82 | the earlier acceptance rule decides every pair of objectives as the current one does |
| LegacySA.Build | src/sa.rs:42-52 | build carries the operator list over and requires generator, selector, terminator and temperature, reporting the first missing one in that order |
| LegacySA.BuildMatchesCurrent | src/sa.rs:42-52 | the earlier and current builders fail alike and otherwise build the same annealer apart from the kept operator list |
| LegacySA.AcceptCandidate | src/sa.rs:87-101 | one draw is consumed; a strictly better candidate is accepted; any other is accepted exactly when the draw is at most the probability the current version computes; with a non-negative temperature, as written, every candidate is accepted, because of the same sign error as the current version (src/sa.rs:118-129) |
| LegacySA.ProposeCandidate | src/sa.rs:104-110 | proposes exactly what the current version proposes, and keeps the operator list |
| LegacySA.ShouldTerminate | src/sa.rs:113-115 | the verdict is the terminator's and the same as the current version's, and only the terminator's state changes |
| LegacyLNS.BuilderIsEmpty | src/lns.rs:39-48 | a new builder has empty method lists and nothing set, so building it straight away reports the missing destroyer selector |
| LegacyLNS.AddDestroyer | src/lns.rs:72-75 | `destroyer` appends a destroy method and changes nothing else |
| LegacyLNS.AddRepairer | src/lns.rs:77-80 | `repairer` appends a repair method and changes nothing else |
| LegacyLNS.AddOrderIsKept | src/lns.rs:72-80 | for any interleaving of `destroyer` and `repairer` calls, the destroy list grows by exactly the destroyers among the calls and the repair list by exactly the repairers, each in call order; no other field changes |
| LegacyLNS.Build | src/lns.rs:52-65 | build carries both method lists over unchecked and requires destroyer selector, repairer selector, terminator and generator, reporting the first missing one in that order |
| LegacyLNS.AcceptCandidate | src/lns.rs:100-109 | only a strictly better candidate is accepted |
| LegacyLNS.AcceptMatchesCurrent | src/lns.rs:100-109 | the earlier acceptance rule decides every pair of objectives as the current one does |
| LegacyLNS.ProposeCandidate | src/lns.rs:112-125 | a proposal is made exactly when both selectors answer with positions inside their method lists and destroy then repair succeed, the generator passing between them; empty method lists always panic |
| LegacyLNS.DestroyerOutOfRangePanics | src/lns.rs:112-125 | a destroyer selector position past the end of the destroy list makes the proposal panic whatever the repair side does |
| LegacyLNS.ProposalMadeWhenCovered | src/lns.rs:112-125 | when the method lists cover every position the selectors can pick and the methods never panic, a proposal is always made |
| LegacyLNS.ShouldTerminate | src/lns.rs:128-130 | the verdict is the terminator's, and only the terminator's state changes |
| Fixture.Evaluate | src/test.rs:216-220 | a number scores its value |
| Fixture.Numbers | src/test.rs:198-214 | the row is numbered: element i carries value i and position i |
| Fixture.NewNeighborsUpUntilN | src/test.rs:198-214 | a new distance operator has the numbered row, no cursor, no step taken, and its distance |
| Fixture.ConstructNeighborhood | src/test.rs:222-233 | the neighbourhood iterator starts at the solution's position with no step taken, over the same row and distance |
| Fixture.Next | src/test.rs:235-265 | an iterator with no cursor, or past its two steps, yields nothing; every item it yields is an element of the row and advances the step |
| Fixture.Elements | src/test.rs:235-265 | an iterator yields at most as many items as it has steps left |
| Fixture.RightSide | src/test.rs:235-265 | after the left step, the iterator yields the element n to the right when inside the row, and then stops |
| Fixture.IteratorYieldsNeighborhood | src/test.rs:222-265 | building the neighbourhood and iterating it yields exactly the element n to the left (if inside the row) and then the one n to the right (if inside the row) |
| Fixture.NeighborhoodAtDistance | src/test.rs:222-265 | a neighbourhood has at most two neighbours, each exactly n positions from the solution, carrying its row value |
| Fixture.UnanchoredYieldsNothing | src/test.rs:262 | the operator itself, before a neighbourhood is built, yields nothing |
| Fixture.NewNeighborSwap | src/test.rs:166-176 | the adjacent-move operator holds the numbered row |
| Fixture.Shake | src/test.rs:178-196 | the shake panics exactly when the left neighbour lies past the end of the row or there is no option at all; otherwise it moves to the left or the right neighbour; it consumes a draw exactly when both exist |
| Fixture.ShakeMovesByOne | src/test.rs:178-196 | inside a row of at least two, a shake always moves one position and keeps the value that belongs there |
| Fixture.NeighborsProblem | src/test.rs:216-233 | under the distance operator a number scores its value and its neighbourhood is the one the iterator yields |
| Fixture.SwapProblem | src/test.rs:178-220 | under the adjacent-move operator a number scores its value and a shake is the fixture's shake |
| Driver.Propose | src/algorithms/vns.rs:81-87 | the proposal step of any of the three algorithms keeps the pools and the terminator; for VNS the candidate is a best neighbour under some operator of the pool, and, for a non-empty pool with non-negative weights, a proposal is always made when every operator of the pool has a neighbour |
| Driver.Accept | src/algorithms/sa.rs:82-96 | a strictly better candidate is always accepted; VNS and LNS accept exactly the strictly better ones without changing state; SA consumes one draw; with the rule as written it accepts a worse candidate exactly when the draw is at most the computed probability, so every candidate at a non-negative temperature; the Metropolis variant accepts a worse one exactly when the draw is at most exp((incumbent - candidate) / temperature) |
| Driver.AsWrittenAnnealingFollowsEveryProposal | src/algorithms/sa.rs:82-124 | with the rule as written and a non-negative temperature, every round that does not panic moves the incumbent to the round's proposal |
| Driver.Stop | src/algorithms/vns.rs:76-78 | the verdict is the terminator's; only the terminator's state changes |
| Driver.Step | src/lib.rs:14-16 | one round never makes the best worse and preserves "the best is no worse than the incumbent"; for VNS and LNS it preserves "the incumbent is as good as the best"; the stop verdict is the terminator's |
| Driver.Optimize | src/lib.rs:14-16 | a run that does not panic ends with a best no worse than the starting best and no worse than the final incumbent; for VNS and LNS the final incumbent is the best |
| Driver.Run | src/lib.rs:14-16 | from one starting solution, the returned best is no worse than the start or the final incumbent; for VNS and LNS it equals the incumbent |
| Driver.LocalOptimumIsFixedPoint | src/algorithms/vns.rs:68-87 | VNS started at a local optimum of every operator in its pool stays there until its iteration cap fires |
| Scenarios.SingleOperatorRadiusOne | src/algorithms/vns.rs:98-112 | on the row 9, 8, 7, 8, 9, 7, 5, 0 from position 0 with a cap of 10, VNS with the radius-1 operator ends at position 2 |
| Scenarios.SingleOperatorRadiusThree | src/algorithms/vns.rs:115-129 | the same run with the radius-3 operator ends at position 6 |
| Scenarios.MultipleOperatorsOneThree | src/algorithms/vns.rs:132-151 | the same run with operators of radius 1 and 3 ends at position 2 |
| Scenarios.MultipleOperatorsOneFour | src/algorithms/vns.rs:154-173 | the same run with operators of radius 1 and 4 ends at position 7, the global optimum |
| Scenarios.AdaptiveFeedbackScenario | src/selectors.rs:185-210 | three options start at weight 1; with decay 1, an improved best on option 0 sets its weight to 3, and an acceptance on option 2 leaves it at 1 |

## Left out

- Random.NextIndex: abstracts `gen_range` to `floor(u * m)` of one unit draw. The generator library's integer sampling is not modelled; only the range and the single draw are stated.
- Heuristic.FindBestNeighbor: `find_best_neighbor` is not part of this model. The first minimum of the enumeration is its reconstruction, and ties or the treatment of NaN in the original may differ.
- Driver.Optimize: the control loop (`optimize`) is not part of this model. It is reconstructed as propose, update best, accept, check termination. Running out of injected clock readings (`Exhausted`) bounds the run; in the source an unbounded loop would run until the terminator fires.
- Floating point: f32 rounding, NaN and overflow are not modelled. Objectives, weights and temperatures are exact reals. A division by a zero temperature is modelled as the IEEE infinity it yields.
- The exponential function is a parameter, constrained only by positivity and its position relative to 1.
- Integer widths (`usize`, `isize`) are unbounded here. Overflow of the iteration counter or the cursor arithmetic is not modelled.
- The wall clock is injected, as the clock readings described under Modelling choices.
- The seeded `StdRng` stream is a parameter. The simulated-annealing test (src/algorithms/sa.rs:139-156, src/test.rs:104-126) depends on that stream's concrete values and is not modelled.
- The test in src/test.rs:128-147 expects weights 4 and 2. It targets an earlier selector interface, and its expectations contradict src/selectors.rs, so it is not modelled.
- The selector trait's `feedback` is a no-op by default (src/selectors.rs:15). The adaptive selector's `feedback` is an inherent method that the algorithms never call, so the loop never feeds outcomes back.
- The distance operator does not implement `shake` and the adjacent-move operator does not implement `construct_neighborhood`. Both fall back to trait defaults, modelled as a panic and an empty neighbourhood.
- The `examples/` programs (line search, travelling salesman) are applications of the library, not part of its core.
- `IterationTerminator::new` is not modelled. A counter starts at 0, as `iterations` builds it.

## Findings

| source | as written | input that shows it | evidently intended | confidence | as-written member | corrected member |
|---|---|---|---|---|---|---|
| src/algorithms/sa.rs:113-124 (and src/sa.rs:118-129) | `delta = incumbent - candidate`; a worse candidate gets `exp(-delta / T)`, which exceeds 1, so `r <= p` always holds and every worse candidate is accepted | incumbent 1, candidate 2, temperature 1: probability e ≈ 2.72, accepted on every draw | the Metropolis rule: a worse candidate is accepted with probability exp(-(candidate - incumbent) / T), strictly between 0 and 1 | high; not executed | SA.WorseCandidateAlwaysAccepted | SA.AcceptCandidateMetropolis |
