# Bluechip contracts: a verified model

This project models the stateful cores of the Bluechip CosmWasm contracts in Dafny and proves
properties of them that hold over whole runs. `dafny verify dfyconfig.toml` checks everything.

Each core is a state machine: a datatype for the storage slots, a function `Step` that says what
every entry point does to them (result and error alike), and `Run`, any sequence of calls in which
a failed call changes nothing, as the platform rolls it back. The classes beside it are the
handlers themselves, over mutable slots and with the source's loops; each is proved to do what
`Step` says, and each class has an `ExecuteAll` that takes any sequence of calls and states what the
run theorems promise of its slots. The theorems are about `Run`.

| core | files |
|---|---|
| Price oracle of the factory: cooldown, four-way circuit breaker, warm-up, reset, bootstrap | `OracleModel`, `OracleRuns`, `OracleGuarantees`, `OracleAverages`, `OracleSampling`, `OracleContract`, `ZeroPrice`, `Conversion`; under it `Drift`, `TwapWindow`, `WeightedPrice`, `Sampler` |
| Expand-economy reservoir: 24-hour cap, timelocks, custody, migration | `SlidingWindow`, `ReservoirModel`, `ReservoirRuns`, `ReservoirCustody`, `ReservoirMigration`, `ReservoirContract` |
| Router: a route as a transaction of self-calls, and its preview | `Assets`, `RouterModel`, `RouterRuns`, `RouterFailures`, `Simulation`; the pools' own swap: `PoolSwap`, `OwnPools`, `RouterExamples` |
| Factory registry, creation rate limits, mint decay | `Registry`, `RateLimits`, `MintDecay`, `Ordering` |
| Creator pool: funding, threshold split, distribution, isolated mints | `CommitSplit`, `Distribution`, `CommitLedger`, `DistributionRuns`, `DistributionPlan`, `TinyStakes`, `MintIsolation`, `CreatorPoolContract` |

`Base` holds integer widths, block time and the arithmetic lemmas.

What comes from outside is a parameter of the call: block time, message sender, the answers of
pools, of the price feed and of the factory, address validity, the digest that seeds the sampler
and the outcome of every sub-message. Every theorem holds for all of their values. The build
modelled is the production one (no `mock`, no `integration_short_timing`); the basket switch
`ORACLE_BASKET_ENABLED` is a parameter, so both settings are covered.

Where it matters the theorems say what a run does in terms of the calls made and plain arithmetic on
their arguments, not in terms of the functions the model computes with, so that a wrong function
breaks a theorem.

As on the platform, a call is a transaction: a handler runs with the messages it sends and their
replies, and all of it is kept or, when the handler or a reply errs, all of it undone.

## Findings

Where the code and its own comments or promises part, the model follows the code.

- A second reset before any publication stores a zero previous price, so the next averaged round
  queues for the admin again (`SecondResetForgets`, `FirstRoundAfterReset`), and two timelocks suffice
  to get there from any state (`TwoResetsForget`); the comment at
  `factory/src/internal_bluechip_price_oracle.rs:1225-1230` says such rounds always go through the
  candidate path. The comment at 1267-1270 has a forced acceptance skip the shared tail; the code
  runs it.
- The 30 % drift limit rounds down and lets through anything below 30.01 %; a difference whose
  scaled value leaves 128 bits also trips the breaker (`DriftWithinLimit`).
- The average can be zero by rounding down. A live price can never become zero, but the midpoint of a
  candidate and an average can, and so can a confirmed price (`ZeroPublished`). A confirmation does not
  drop old observations, so after a confirmed zero a second, later one can leave a window of more than
  an hour; that is the only way to such a window, and the next averaged round ends it
  (`WindowHoldsPrice`, `StepSpans`, with a run from deployment in `WindowStretches`).
- A reset zeroes the stored update time, so rounds that publish nothing are not spaced by the
  cooldown (`CooldownAfterReset`). Publications are (`RateBound`).
- Carrying snapshots over a change of the sample has no effect: every round that goes through replaces
  all of them, and one that fails changes nothing (`RoundMeasures`).
- The comment on `ORACLE_POOL_COUNT` promises 75 pools plus the anchor; the code draws 74 plus the
  anchor (`SelectionShape`). The seed is cut to 32 bits on the target platform, as modelled.
- The migration books all earlier spending at the second the old bucket opened, so payouts made
  later in that bucket leave the window early. `MigrationExact` says exactly when the cap
  survives the migration, and `UnsettledBreaks` builds the calls that exceed it when it does not.
- An entry stamped second 0 never counts against the cap (`SecondZeroForgotten`). The reservoir's
  run theorems take block times of at least one second that never go back.
- A later crossing raises the bonus mint, although the comment at
  `factory/src/mint_bluechips_pool_creation.rs:114-115` says it shrinks it; the cut-off for large
  pool counts differs from the polynomial for very late crossings (`CutOffAgreesExactly`).
- A route whose last pool pays another asset than the route declares still succeeds when the
  minimum is zero; the recipient then gains nothing of the declared asset (`RouteSettles`,
  `OtherAssetPaid`).
- The comment at `router/src/msg.rs:39-40` tells clients to size the minimum from the preview. A pool
  answers a simulation from what it holds and swaps on its stored reserves, and fees stay in the pool
  outside the reserves, so the two part with the first swap that pays a fee (`FeesPart`,
  `FeesMislead`). The preview is right where the pools hold exactly their reserves (`OwnPreview`), and
  in general exactly where each pool shows what it pays (`PreviewAgrees`). It can also be wrong for a
  route that visits a pool twice (`ReusedPoolDiffers`), which goes through only where the pool's
  interval between swaps is switched off (`NoPoolTwice`), and it can fail by overflow for a foreign
  pool (`PreviewFails`), not for one of the repository's own (`AcceptedFits`).
- The product of a pool's reserves, which a swap is meant to keep, can fall by rounding once the offer
  reserve exceeds 10^18 units (`ProductKept`, `ProductFalls`).
- The reply id reserved for deposit verification lies inside the range of mint reply ids, and its arm
  errs on every mint, delivered or not. A mint that gets this id therefore undoes the transaction
  that sent it, and with it the counter's step: the counter stops there, and from then on every claim
  and every batch with a share to pay fails (`CommittedExactly`, `SpentIdsBlock`). All mints of a pool's
  life have to fit the ids below.
- The back-fill trusts what it finds: a wrong entry in a map that is already filled stays
  (`MigrationConsistent`).
- A distribution in which every share rounds to nothing mints nothing at all, dust included
  (`SupplyExact`). That takes more than 500000000000 committers, whatever the target, and can happen
  with one more (`PayoutNeverMinted`). The branch for a batch that is empty while entries remain cannot
  be taken (`EmptyBatchEnds`), so the failure counter of a distribution stays zero.

## Model

| member | source | states |
|---|---|---|
| `OracleGuarantees.RateBound` | factory/src/internal_bluechip_price_oracle.rs:1025-1043 | In every run from deployment, any two publications with no reset between them, `k` apart, the first positive: at least `k` cooldowns lie between them, the later price is positive, and the price moved by less than a factor 1.3001^k up or down |
| `OracleGuarantees.ChainedBounds` | factory/src/internal_bluechip_price_oracle.rs:1372-1393 | The multiplicative form of the per-publication limit: strict bounds compose over any number of publications |
| `OracleGuarantees.ChainedSpacing` | factory/src/internal_bluechip_price_oracle.rs:1031-1043 | `k` publications are `k` cooldowns apart, although a reset zeroes the stored update time |
| `OracleGuarantees.LiveRound` | factory/src/internal_bluechip_price_oracle.rs:1171-1187 | With a live price, a round whose pools yield a price succeeds if and only if the cooldown is over, neighbouring prices in the window fit 128 bits when added, and the new average is within the drift limit of the live price; it publishes exactly that average |
| `OracleGuarantees.ModesExclusive` | factory/src/internal_bluechip_price_oracle.rs:1231-1257 | In every reachable state at most one of live price, held candidate and waiting bootstrap price exists, the stored price is the last publication since the last reset, and the admin's confirmation never replaces a live price |
| `OracleGuarantees.WindowHoldsPrice` | factory/src/internal_bluechip_price_oracle.rs:1171-1187 | In every reachable state the observations are in time order and a live price lies between the smallest and the largest of them; they span more than an hour if and only if the last call that touched the window was a confirmation more than an hour after its oldest observation, and then some price published since the last reset was zero |
| `OracleGuarantees.StepSpans` | factory/src/internal_bluechip_price_oracle.rs:2692-2702 | From every reachable state: a confirmation leaves at most an hour if and only if the window was empty or its oldest observation at most an hour old; an averaged round or a reset always does; every other call leaves the window as it was |
| `OracleGuarantees.LateAfterZero` | factory/src/internal_bluechip_price_oracle.rs:2647-2724 | A confirmation can be that late only if the last price published since the reset is zero and no price was live before the reset |
| `OracleGuarantees.ZeroPublished` | factory/src/internal_bluechip_price_oracle.rs:1437-1519 | A published price is zero if and only if a round publishes the midpoint of a candidate and an average that add up to at most one, or the admin confirms a queued zero; the average itself is never published as zero |
| `ZeroPrice.WindowStretches` | factory/src/internal_bluechip_price_oracle.rs:2647-2724 | A run from deployment, for every admin, anchor and digest, that publishes zero at 4200 and at 8100 seconds and leaves a window of 3900 seconds |
| `OracleGuarantees.CooldownAfterReset` | factory/src/internal_bluechip_price_oracle.rs:1025-1043 | In every run, as long as nothing was published since deployment or the last reset, the cooldown refuses a round if and only if the block time is below 300 seconds |
| `OracleGuarantees.CandidateRound` | factory/src/internal_bluechip_price_oracle.rs:1428-1519 | With a candidate held, a round publishes if and only if the new average agrees with the candidate or this is the twelfth disagreement in a row, and then publishes their midpoint; otherwise the new average replaces the candidate and the counter goes up by one |
| `OracleGuarantees.PublishesInTime` | factory/src/internal_bluechip_price_oracle.rs:454 | From any state that holds a candidate after `f` failures, whatever else is called short of a reset, a price is published by the time `12 - f` rounds have produced an average |
| `OracleGuarantees.CandidateRoundSucceeds` | factory/src/internal_bluechip_price_oracle.rs:1437-1440 | Before the first publication after a reset a priced round fails if and only if candidate plus price leave 128 bits |
| `OracleGuarantees.FirstRoundAfterReset` | factory/src/internal_bluechip_price_oracle.rs:1249-1257 | Whatever is called after a reset, the average of the first averaged round is held as the candidate if a price was live at the reset, and is queued for the admin if none was |
| `OracleGuarantees.SecondResetForgets` | factory/src/internal_bluechip_price_oracle.rs:2590-2592 | A second reset before any publication leaves an oracle that has forgotten every trusted price, contrary to the comment at 1225-1230 |
| `OracleGuarantees.TwoResetsForget` | factory/src/internal_bluechip_price_oracle.rs:2514-2614 | Such a run exists from every state with no rotation pending, live price or not: propose, reset after the timelock, propose, reset after the next; all four calls go through, none publishes, and every price is forgotten |
| `OracleGuarantees.OnlyTheAdminResumes` | factory/src/internal_bluechip_price_oracle.rs:1524-1570 | From such a state no sequence of calls publishes anything until the admin confirms |
| `OracleGuarantees.ConfirmedOnEvidence` | factory/src/internal_bluechip_price_oracle.rs:2647-2760 | In every run only the admin drops or confirms a bootstrap price: dropping goes through if and only if a round fed it since the last confirmation, cancellation or reset, confirming if and only if six or more did, the first of them an hour or more before; what is then published is the average of the last of these rounds, and its observation carries the anchor's price of that round |
| `OracleGuarantees.BootstrapCounted` | factory/src/internal_bluechip_price_oracle.rs:1524-1570 | In every run a price is queued if and only if some round was averaged while none was trusted, since the last confirmation, cancellation or reset; it carries the number of these rounds, the time of the first, and the average and anchor price of the last |
| `OracleGuarantees.PublicationsTracked` | factory/src/internal_bluechip_price_oracle.rs:2720-2723 | In every run the stored price, its time, the warm-up counter and the queued price's age agree with the list of publications since the last reset |
| `OracleAverages.AverageExact` | factory/src/internal_bluechip_price_oracle.rs:1171-1187 | In every run, with T the sum of (p[i] + p[i-1]) * (t[i] - t[i-1]) over the observations of the last hour and the round's own, E the seconds between the first and the last of them and a the average of an averaged round: 2*E*a <= T < (2*a + 3)*E, and a is the round's own price where E is zero |
| `OracleAverages.FirstAverages` | factory/src/internal_bluechip_price_oracle.rs:1398-1405 | As long as nothing was published since deployment or the last reset, the average of a round is its own weighted price |
| `OracleAverages.WindowAfterRound` | factory/src/internal_bluechip_price_oracle.rs:1171-1519 | In every run an averaged round leaves the last hour's observations and, if it published, its own, at its own price while a price was live and otherwise at the price it published |
| `OracleAverages.HeldIsLastAverage` | factory/src/internal_bluechip_price_oracle.rs:1398-1417 | In every run from deployment a held candidate is the average of the last averaged round since the reset |
| `OracleAverages.FirstPriceAfterReset` | factory/src/internal_bluechip_price_oracle.rs:1398-1519 | Whatever is called after the reset of a live oracle, the first price published is half the sum of the averages of the last two averaged rounds, rounded down; it comes with the first average that agrees with the one before it, or with the thirteenth |
| `OracleAverages.NoPriceOverdue` | factory/src/internal_bluechip_price_oracle.rs:1428-1519 | Until then no two successive averages agree, and there are twelve at most |
| `OracleAverages.RetainIsSuffix` | factory/src/internal_bluechip_price_oracle.rs:1179-1183 | Pruning an ordered window keeps exactly its suffix from the first observation that is young enough |
| `OracleSampling.SampleDrawn` | factory/src/internal_bluechip_price_oracle.rs:1118-1133 | In every run the sample in force is the selection of 75 pools from the basket switch, the eligible pools and the digest of the call that drew it last: the deployment, a reset, or the first round that went through an hour or more after the draw before it |
| `OracleSampling.RoundMeasures` | factory/src/internal_bluechip_price_oracle.rs:1118-1145 | In every run a round reads the answers of its own block against the last published price, and a readable pool has a price if and only if the last round that went through since the reset read it too and its clock and accumulator have advanced since; the price is that growth per second, rounded down |
| `OracleSampling.ResetProtocol` | factory/src/internal_bluechip_price_oracle.rs:2514-2570 | In every run only the admin proposes, cancels and carries out a reset; with the standing proposal computed from the calls alone, a proposal goes through if and only if none stands, a cancellation if and only if one does, and a reset if and only if one has stood for 48 hours |
| `OracleRuns.RunKeeps` | factory/src/internal_bluechip_price_oracle.rs:1231-1282 | The four-part invariant (modes, tracked publications, spacing and drift of successive publications, sound window) holds after any sequence of calls |
| `OracleRuns.StepKeeps` | factory/src/internal_bluechip_price_oracle.rs:1025-1282 | Every single entry point keeps that invariant, a failed call included |
| `Conversion.StrictConversionGate` | factory/src/internal_bluechip_price_oracle.rs:2165-2246 | In every run a strict conversion succeeds only after five publications since the last reset, the last at least four cooldowns after the first; it is priced from and stamped with the last of them, and the amount is exact at that rate up to rounding down |
| `Conversion.ConversionExact` | factory/src/internal_bluechip_price_oracle.rs:2165-2411 | In every run, strict and best-effort: with five publications since the last reset a conversion is priced from and stamped with the last of them, before that only a best-effort one is, from the price live at the last reset and stamped with the block time; it fails if and only if there is no such price, no ATOM price, their ratio rounds to zero or a product leaves 128 bits; to USD r * 10^6 <= amount * rate < (r + 1) * 10^6, from USD r * rate <= amount * 10^6 < (r + 1) * rate; the ATOM price is the live one or the quote of the last publication at which the feed answered, if at most 300 seconds old and narrow enough |
| `Conversion.AtomUsdExact` | factory/src/internal_bluechip_price_oracle.rs:2251-2290 | The cached quote is served if and only if it is positive, at most 300 seconds old, of known confidence, and its confidence within the limit in basis points |
| `Conversion.WarmUpExact` | factory/src/internal_bluechip_price_oracle.rs:1279-1280 | In every run the warm-up counter is five less the publications since the last reset, never below zero |
| `Conversion.BestEffortDiffersOnlyInWarmUp` | factory/src/internal_bluechip_price_oracle.rs:2165-2246 | Best-effort and strict reads agree outside the warm-up; inside it the strict one is refused always and the best-effort one if and only if no price was live at the reset |
| `Conversion.RoundTrip` | factory/src/internal_bluechip_price_oracle.rs:2369-2411 | Bluechip to USD and back at one rate succeeds whenever the way there did, never gains, and loses less than 1000000/rate + 1 units |
| `Drift.DriftWithinLimit` | factory/src/internal_bluechip_price_oracle.rs:289-299 | The drift check passes if and only if both prices are positive, the scaled difference fits 128 bits and the difference is below 30.01 % of the smaller price |
| `Drift.DriftBoundsRatio` | factory/src/internal_bluechip_price_oracle.rs:274-299 | A passed check bounds the two prices by a factor 1.3001 both ways |
| `Drift.Midpoint` | factory/src/internal_bluechip_price_oracle.rs:1437-1440 | The published midpoint lies between candidate and observation, at most half a unit below their mean |
| `TwapWindow.CalculateTwap` | factory/src/internal_bluechip_price_oracle.rs:1827-1876 | The loop computes the average that `TwapExact` characterises, with the source's overflow exits, its empty and single-entry cases and its zero-time case |
| `TwapWindow.TwapWithin` | factory/src/internal_bluechip_price_oracle.rs:1827-1876 | On an ordered window the average lies in every range that holds all observations, though it rounds down twice |
| `TwapWindow.TwapExact` | factory/src/internal_bluechip_price_oracle.rs:1827-1876 | On an ordered window, with T the sum of (p[i] + p[i-1]) * (t[i] - t[i-1]) and E the time between first and last observation: 2*E*average <= T < (2*average + 3)*E if E is positive, and the last price otherwise |
| `TwapWindow.TwapOfTwo` | factory/src/internal_bluechip_price_oracle.rs:1843-1847 | Two observations at different times average to half their sum, rounded down |
| `TwapWindow.TwapDefined` | factory/src/internal_bluechip_price_oracle.rs:1844-1848 | On an ordered window the average fails if and only if the window is empty or two neighbours overflow when added: the 256-bit accumulator and the narrowing cannot fail |
| `TwapWindow.ElapsedTelescopes` | factory/src/internal_bluechip_price_oracle.rs:1840-1857 | The accumulated gaps are the time between first and last observation |
| `Sampler.NextFree` | factory/src/internal_bluechip_price_oracle.rs:634-645 | Linear probing ends, with the distance to the next free index as its measure, on an index that is in range and unused |
| `Sampler.FreeAhead` | factory/src/internal_bluechip_price_oracle.rs:634-645 | Some index within one turn of any start is free while fewer are used than exist |
| `Sampler.SampleDistinct` | factory/src/internal_bluechip_price_oracle.rs:620-645 | For every digest the chosen indices are in range and pairwise distinct |
| `Sampler.ChoiceIsFirstFree` | factory/src/internal_bluechip_price_oracle.rs:620-645 | For every digest the k-th choice is the first index not chosen before, counting cyclically from the seed of byte k, cut to 32 bits, modulo the number of pools |
| `Sampler.SeedDigits` | factory/src/internal_bluechip_price_oracle.rs:620-633 | The digits of a seed to the base 256 are the eight digest bytes from its position on, wrapping around, the first most significant, and it has no others |
| `Sampler.SelectRandomPoolsWithAtom` | factory/src/internal_bluechip_price_oracle.rs:526-645 | The nested loops compute the selection the model uses, for any digest and either setting of the basket switch |
| `Sampler.SelectionShape` | factory/src/internal_bluechip_price_oracle.rs:567-645 | For every digest the selection holds the anchor once and otherwise eligible pools only, each at most once: exactly `num_pools - 1` of them if more than that are eligible, otherwise all |
| `Sampler.SelectionFollows` | factory/src/internal_bluechip_price_oracle.rs:526-645 | If `num_pools` or more are eligible the anchor is followed by the `num_pools - 1` pools the sample chooses, in its order; with the basket switch off the anchor is alone |
| `WeightedPrice.ReadPool` | factory/src/internal_bluechip_price_oracle.rs:1650-1740 | Reads one pool: side, liquidity floor, accumulator and the previous snapshot decide between a price, a mere snapshot and silence |
| `WeightedPrice.CalculateWeightedPriceWithAtom` | factory/src/internal_bluechip_price_oracle.rs:1631-1825 | The loop over the sample yields the weighted mean, the anchor's own price and the new snapshots, or the first overflow |
| `WeightedPrice.PriceFromContributions` | factory/src/internal_bluechip_price_oracle.rs:1814-1824 | A price results if and only if the anchor contributed and some contribution has weight, and it then lies between the smallest and the largest contributing pool price |
| `WeightedPrice.MeanOfReserves` | factory/src/internal_bluechip_price_oracle.rs:1741-1824 | A round's price is the mean of the pools' prices weighted by their own bluechip reserves, with the anchor listed twice, rounded down: price * W <= S < (price + 1) * W |
| `WeightedPrice.WeighRefuses` | factory/src/internal_bluechip_price_oracle.rs:1741-1824 | A round fails if and only if the anchor is not in the sample, or its doubled reserve leaves 128 bits, or a sum 256 |
| `WeightedPrice.ReadableExact` | factory/src/internal_bluechip_price_oracle.rs:1650-1720 | A pool is read if and only if it answers, its bluechip side is known, and twice its reserve on that side is worth 5000 USD at the published price to within a unit; with no price published, if it holds 5000 bluechip there |
| `WeightedPrice.AnchorAloneIsExact` | factory/src/internal_bluechip_price_oracle.rs:1774-1781 | With the anchor alone in the sample the mean is the anchor's own price, exactly |
| `WeightedPrice.SnapshotsExact` | factory/src/internal_bluechip_price_oracle.rs:1715-1720 | The snapshots left by a round are exactly those of the readable pools of the sample, whether or not a price results |
| `WeightedPrice.NextRoundFinds` | factory/src/internal_bluechip_price_oracle.rs:1720-1723 | The next round finds for every pool exactly what this round read from it |
| `WeightedPrice.PriceBetweenRounds` | factory/src/internal_bluechip_price_oracle.rs:1720-1740 | Over two successive rounds a pool is priced if and only if both read it and its clock and the accumulator opposite its bluechip side advanced, and its price is that growth per second rounded down |
| `OracleContract.Factory.Instantiate` | factory/src/internal_bluechip_price_oracle.rs:648-727 | Deployment stores the initial oracle |
| `OracleContract.Factory.UpdateInternalOraclePrice` | factory/src/internal_bluechip_price_oracle.rs:1025-1370 | The handler reaches the state and the publication of the model's step, or fails with its error and changes nothing |
| `OracleContract.InternalOracle.BreakerBranchA` | factory/src/internal_bluechip_price_oracle.rs:1372-1393 | Publishes within the drift limit, refuses beyond it |
| `OracleContract.InternalOracle.BreakerBranchB` | factory/src/internal_bluechip_price_oracle.rs:1398-1417 | Takes the observation back and holds the round's average, and nothing else, as the candidate |
| `OracleContract.InternalOracle.BreakerBranchC` | factory/src/internal_bluechip_price_oracle.rs:1428-1519 | Publishes half the sum of candidate and average on agreement or on the twelfth failure, overwriting the last observation; otherwise replaces the candidate by the average |
| `OracleContract.Factory.ExecuteForceRotatePools` | factory/src/internal_bluechip_price_oracle.rs:2554-2614 | The reset, as the model states it |
| `OracleContract.Factory.ExecuteProposeForceRotate` | factory/src/internal_bluechip_price_oracle.rs:2514-2534 | Stages a rotation behind the admin timelock |
| `OracleContract.Factory.ExecuteCancelForceRotate` | factory/src/internal_bluechip_price_oracle.rs:2536-2552 | Withdraws a staged rotation |
| `OracleContract.Factory.ExecuteConfirmBootstrapPrice` | factory/src/internal_bluechip_price_oracle.rs:2647-2724 | Publishes the queued price once time and count are reached |
| `OracleContract.Factory.ExecuteCancelBootstrapPrice` | factory/src/internal_bluechip_price_oracle.rs:2747-2760 | Drops the queued price |
| `OracleContract.Factory.ExecuteAll` | factory/src/internal_bluechip_price_oracle.rs:1025-1282 | Any sequence of handler calls on the stored slots: from deployment the invariant holds and any two publications since the last reset, the first positive, are as far apart in time and as close in price as `RateBound` says |
| `ReservoirRuns.SlidingCap` | expand-economy/src/expand.rs:104-130 | Whatever is called, in any order, the payouts of the whole history in any 24 hours, starting at any second, never exceed the cap, also from a log seeded by migration |
| `ReservoirRuns.ExpansionExact` | expand-economy/src/expand.rs:31-191 | In every run, for a request past the checks on sender, denomination, amount and recipient, with `spent` what the history paid out in the 24 hours up to it: it is refused for the cap if and only if `spent` plus the amount exceeds it and fits 128 bits, for overflow if and only if it does not fit; otherwise it pays exactly the amount to its recipient if the balance covers it, and nothing if not; any other request changes nothing and goes through only for a zero amount |
| `ReservoirRuns.PruningInvisible` | expand-economy/src/expand.rs:109-119 | After any run every further call gives the same result and sends the same coins as on a reservoir that never pruned its log |
| `ReservoirRuns.LogDecides` | expand-economy/src/expand.rs:104-130 | The decision on the pruned log is the decision on the full history |
| `ReservoirRuns.UnprunedKeepsHistory` | expand-economy/src/expand.rs:179-191 | An unpruned log is the payout history, and the two executions differ in nothing else |
| `SlidingWindow.CheckAndComputeWindow` | expand-economy/src/expand.rs:104-130 | Prunes, sums with overflow checks and decides; the pruned log is what is younger than a day |
| `SlidingWindow.DecidesOnDay` | expand-economy/src/expand.rs:104-130 | With `total` the payouts of the 24 hours up to the request plus its amount: refused for overflow if `total` leaves 128 bits, otherwise for the cap if `total` exceeds 100000000000, and otherwise allowed with `total` reported |
| `SlidingWindow.AllowedKeepsCap` | expand-economy/src/expand.rs:121-130 | A payout the window allows keeps every day of the history under the cap |
| `SlidingWindow.SecondZeroForgotten` | expand-economy/src/expand.rs:109-119 | Payouts stamped second 0 never count: there every request within the cap is allowed |
| `ReservoirMigration.MigrationExact` | expand-economy/src/migrate.rs:90-124 | After a migration, all later runs keep the true payouts of every day under the cap if and only if every payout booked in the old bucket was made in the second the bucket opened or at least a day before the migration |
| `ReservoirMigration.UnsettledBreaks` | expand-economy/src/migrate.rs:112-118 | Otherwise, for every recipient but the contract itself, a deposit and a request are exhibited that pay a full cap out of the contract and leave some day's true payouts above it |
| `ReservoirMigration.MigratesOnce` | expand-economy/src/migrate.rs:90-124 | The migration books what the bucket recorded where no log exists yet, removes the bucket and changes nothing else; running it again changes nothing |
| `ReservoirCustody.WithdrawalProvenance` | expand-economy/src/timelock.rs:217-274 | In every run an executed withdrawal was proposed unchanged 48 hours earlier or more by the address that owns the contract now and owned it all the while, nothing cancelled or replaced it, and it pays the smaller of the amount and the balance in the denomination asked for, to the recipient named or else the proposer |
| `ReservoirCustody.WithdrawalReady` | expand-economy/src/timelock.rs:217-274 | Conversely a withdrawal that stood that long can be executed by that owner |
| `ReservoirCustody.WithdrawalsProposed` | expand-economy/src/timelock.rs:170-215 | In every run a withdrawal can be proposed if and only if the sender owns the contract, none is staged, the amount is positive, the address well-formed and the denomination a letter followed by two to 127 letters, digits or marks; it then stands under its proposer |
| `ReservoirCustody.ConfigProvenance` | expand-economy/src/timelock.rs:80-151 | In every run the configuration changes only by a proposal that stood unchanged for 48 hours under the same owner; each field is what was proposed or what it was; a change of owner leaves no withdrawal staged |
| `ReservoirCustody.ConfigReady` | expand-economy/src/timelock.rs:80-151 | Conversely a proposal that stood that long can be applied by that owner, and sets every field proposed; a withdrawal stays staged if the owner stays |
| `ReservoirCustody.ConfigsProposed` | expand-economy/src/timelock.rs:30-78 | In every run a configuration can be proposed if and only if the sender owns the contract, none is pending, the addresses are well-formed and so is the denomination, if one is given; it then stands under its proposer |
| `ReservoirCustody.CancelsExact` | expand-economy/src/timelock.rs:153-168 | Only the owner cancels, only what is there, and nothing else changes |
| `ReservoirCustody.StagedOrigin` | expand-economy/src/timelock.rs:170-215 | A staged withdrawal has one proposing call, after which neither it nor the owner changed |
| `ReservoirCustody.ProposedOrigin` | expand-economy/src/timelock.rs:30-78 | A pending configuration has one proposing call, after which neither it nor the owner changed |
| `ReservoirCustody.CoinsConserved` | expand-economy/src/expand.rs:147-191 | For every denomination, balance plus everything that left equals what was there plus every deposit, over every run |
| `ReservoirContract.ExpandEconomy.ExecuteExpandEconomy` | expand-economy/src/expand.rs:31-61 | The expansion handler in its ordered phases: state, coins and error as the model says |
| `ReservoirContract.ExpandEconomy.ExecuteProposeConfigUpdate` | expand-economy/src/timelock.rs:30-78 | Stages a configuration |
| `ReservoirContract.ExpandEconomy.ExecuteApplyConfigUpdate` | expand-economy/src/timelock.rs:80-151 | Applies it after the timelock and clears a withdrawal staged by a former owner |
| `ReservoirContract.ExpandEconomy.ExecuteCancelConfigUpdate` | expand-economy/src/timelock.rs:153-168 | Withdraws it |
| `ReservoirContract.ExpandEconomy.ExecuteProposeWithdrawal` | expand-economy/src/timelock.rs:170-215 | Stages a withdrawal |
| `ReservoirContract.ExpandEconomy.ExecuteStagedWithdrawal` | expand-economy/src/timelock.rs:217-274 | Executes it after the timelock, clamped to the balance |
| `ReservoirContract.ExpandEconomy.ExecuteCancelWithdrawal` | expand-economy/src/timelock.rs:276-287 | Withdraws it |
| `ReservoirContract.ExpandEconomy.MigrateExpansionWindowToLog` | expand-economy/src/migrate.rs:90-124 | Seeds the log from the old bucket once, and removes the bucket |
| `ReservoirContract.ExpandEconomy.ExecuteAll` | expand-economy/src/expand.rs:31-191 | Any sequence of handler calls on the stored slots: from a seeded start the payouts it really made keep every day within the cap, and no coin of any denomination is lost |
| `RouterRuns.RouteSettles` | router/src/execution.rs:148-330 | A successful route, from a router holding none of its tokens to a recipient that is neither the router nor one of its pools: every router balance is what it was, every token's supply is unchanged, each pool was fed exactly the previous pool's output, and the recipient gained at least the minimum |
| `RouterFailures.RouteOutcome` | router/src/execution.rs:148-330 | The outcome of any request: refused without its funds or with a fault; otherwise the hops run in order, the first that the router or its pool cannot serve fails the whole under its own number, and when all go through the request succeeds if and only if the recipient's balance of the last asset has grown by the minimum |
| `RouterFailures.HopServed` | router/src/execution.rs:255-293 | A hop goes through if and only if the router holds some of the offer and the pool is known, has left its commit phase, trades the offer, prices and accepts it and holds what it pays; otherwise the error carries the hop's own number |
| `RouterFailures.StartsExactly` | router/src/execution.rs:148-242 | A request is started if and only if its route is valid and begins with the token that came in, its amount is positive and its deadline, if any, has not passed |
| `RouterFailures.FaultsInOrder` | router/src/execution.rs:148-186 | Of several faults the source's first is reported |
| `RouterRuns.HopEffect` | router/src/execution.rs:255-293 | One hop that the pool accepts moves the router's whole offer balance into the pool and the pool's answer to the target; nothing is created or lost |
| `RouterRuns.DeliverRoute` | router/src/execution.rs:189-232 | The queued self-calls, run in order from any hop on, thread the router's own balance to the end |
| `RouterModel.RouteFaultExact` | router/src/execution.rs:373-411 | The validation loops accept exactly the routes of one to three hops that change the token at each hop, chain, and do not return to the start |
| `RouterModel.ValidateRoute` | router/src/execution.rs:373-411 | Reports the first offending hop in the order the source checks |
| `RouterModel.StartMultiHop` | router/src/execution.rs:148-242 | Refuses for the first reason that applies, or queues one self-call per hop, the last paying the recipient, and the final check against the balance before the route |
| `Simulation.SimulateMultiHop` | router/src/simulation.rs:38-103 | Returns the outputs in order, the last of them as final amount, and as price impact what the product of the hops' survivals, rounded down hop by hop, lacks to one: between nothing and everything, nothing when no hop reported spread; or the first error in the source's order |
| `Simulation.ImpactExact` | router/src/simulation.rs:70-97 | The price impact shown is that of exact arithmetic over the whole route, one less the product of paid over ideal, too high by two units of the eighteenth decimal a hop at most |
| `Simulation.OutputsExact` | router/src/simulation.rs:52-92 | The outputs shown are the pools' answers, each asked for the one before, or the preview fails with the fault of the first hop that has one: a pool still in its commit phase, one that does not answer, an answer that leaves 128 bits |
| `Simulation.SurvivalExact` | router/src/simulation.rs:76-90 | A hop's survival is what is paid over what is paid and spread together, to eighteen decimals rounded down, and one where both are zero |
| `Simulation.PreviewAgrees` | router/src/simulation.rs:38-103 | For a successful route over pairwise distinct pools, each hop was accepted and paid as its pool would have before the route, and the preview taken then shows exactly the delivered amounts if and only if every pool, asked for its hop's true input, shows what it pays, output and spread together fitting 128 bits |
| `Simulation.ChainServed` | router/src/execution.rs:189-214 | Hop by hop: pools not yet visited serve the execution as they would have served it before the route |
| `RouterExamples.ReusedPoolDiffers` | router/src/execution.rs:189-214 | Over constant-product pools without a swap interval that hold exactly their reserves, a request that visits one of them twice goes through and delivers 3973, 3946 and 3888 where its preview showed 3973, 3946 and 3919 |
| `RouterExamples.FeesMislead` | packages/pool-core/src/query.rs:45-80 | Two equal requests through a pool that held exactly its reserves go through; the preview taken between them shows 3559, the second delivers 3557 |
| `RouterExamples.PreviewFails` | router/src/simulation.rs:75-79 | A request over a foreign pool that goes through though its preview overflows |
| `RouterExamples.OtherAssetPaid` | router/src/execution.rs:300-330 | A request without minimum that goes through and pays the recipient nothing of the asset its route declares |
| `Simulation.SurvivalAtMostOne` | router/src/simulation.rs:70-90 | A hop's survival ratio never exceeds one |
| `OwnPools.NoPoolTwice` | packages/pool-core/src/generic.rs:88-108 | Over the repository's own pools, unless one has its interval switched off, a route that goes through visits no pool twice: the interval counts for the router like for any sender |
| `OwnPools.OwnPreview` | router/src/simulation.rs:38-103 | Over own pools with an interval that hold exactly their reserves, the preview of a route that goes through shows exactly the delivered amounts |
| `OwnPools.FeesPart` | packages/pool-core/src/swap.rs:514-560 | A hop raises what its pool holds beyond its reserve by exactly the fee, on the side it pays, and not at all on the other |
| `PoolSwap.AcceptedFits` | packages/pool-core/src/swap.rs:213-274 | A swap that passes the default spread limit pays something, and its output and spread fit 128 bits together |
| `PoolSwap.AcceptedExactly` | packages/pool-core/src/swap.rs:213-274 | A pool takes a swap if and only if it is not waiting or paused, both reserves hold 1000 units and the asked one still does after paying, fee included, something is paid, and the spread is within half a percent of the ideal to the eighteenth decimal |
| `PoolSwap.SwapFrom` | packages/pool-core/src/swap.rs:37-91 | A swap is determined by five quotients rounded down, and fails if and only if the offer at the pool's price leaves 256 bits, the fee exceeds what leaves the pool, or the spread leaves 128 bits |
| `PoolSwap.GrossIs` | packages/pool-core/src/swap.rs:37-61 | Through both decimal roundings: what leaves the ask side is the ask reserve less the quotient of product and new offer reserve, less one more unit if and only if eighteen decimals show the rest of that division |
| `PoolSwap.ProductKept` | packages/pool-core/src/swap.rs:48-60 | A swap never lowers the product of the reserves, the fee left aside, if and only if the new offer reserve divides it or leaves a rest that eighteen decimals show |
| `PoolSwap.ProductKeptBelow` | packages/pool-core/src/swap.rs:641-664 | So it never does while the offer reserve stays within 10^18 |
| `PoolSwap.ProductFalls` | packages/pool-core/src/swap.rs:641-664 | With both reserves at 10^18 a swap of one unit does |
| `Assets.MoveEffect` | router/src/execution.rs:284-286 | A transfer changes two balances by the amount and no supply |
| `Registry.PairKeyExact` | factory/src/state.rs:780-789 | Two pools share the canonical key if and only if they trade the same unordered pair |
| `Registry.FingerprintInjective` | factory/src/state.rs:764-769 | The kind tag keeps denominations and contract addresses apart |
| `Registry.MigrationConsistent` | factory/src/migrate.rs:63-92 | From any registry, whatever is filled of it and whatever duplicate pairs it holds, the back-fill leaves each pair with its smallest pool id and an exact inverse of the addresses if and only if no two pools share an address and what was filled before is correct |
| `Registry.MigrationIdempotent` | factory/src/migrate.rs:63-92 | Migrating again changes nothing |
| `Registry.RefusesExactlyDuplicates` | factory/src/state.rs:797-844 | A consistent registry refuses a pool if and only if one for the same unordered pair exists |
| `Registry.RegistrationsStayUnique` | factory/src/state.rs:797-844 | In every run of registrations and migrations, two pools trade the same pair only if both predate the first migration |
| `Registry.RegistrationsExact` | factory/src/state.rs:797-844 | From an empty registry, over any registrations and migrations: a registration goes through if and only if no earlier one that did trades the same unordered pair, and from then on the lookups by id, by address and by pair all find it |
| `Registry.RunConsistent` | factory/src/state.rs:797-844 | In every such run the maps stay consistent |
| `Registry.PoolRegistry.RegisterPool` | factory/src/state.rs:797-844 | Writes the four maps, or none |
| `Registry.PoolRegistry.BackFill` | factory/src/migrate.rs:63-92 | The loop fills only empty slots, in id order, and its counters are the map growths |
| `RateLimits.PruneAgreesWithScan` | factory/src/execute.rs:330-362 | Stopping at the first fresh index entry removes what a full scan would: exactly min(batch, number stale) addresses, all stale, the oldest first |
| `RateLimits.PruningChangesNoDecision` | factory/src/execute.rs:280-306 | After any interleaving of creations and prunings a creation is allowed if and only if it would be had nothing been pruned, and map and index still correspond |
| `RateLimits.CreationsExact` | factory/src/execute/pool_lifecycle/create.rs:172-199 | From empty maps, with prunings anywhere between: a creation is allowed if and only if no earlier allowed creation of the same address lies less than 3600 seconds before it, the history taken from the calls |
| `RateLimits.HourApart` | factory/src/execute/pool_lifecycle/create.rs:172-199 | So two pools of one address are created at least an hour apart |
| `RateLimits.PruneCallExact` | factory/src/execute.rs:280-306 | A prune call removes exactly the smaller of what it asks for, 100 if it does not say and 500 at most, and the number of addresses idle for ten hours, the oldest first |
| `RateLimits.PruneKeepsCoupling` | factory/src/execute.rs:330-362 | Pruning keeps map and time index in one-to-one correspondence |
| `RateLimits.CreateKeepsCoupling` | factory/src/execute/pool_lifecycle/create.rs:172-199 | So does a creation, which moves the sender's index entry |
| `RateLimits.RateLimitMap.PruneRateLimitMap` | factory/src/execute.rs:330-362 | The collect-then-delete loops prune the model's head of the index and return its size |
| `RateLimits.RateLimitMap.StampCreate` | factory/src/execute/pool_lifecycle/create.rs:172-199 | Allows a creation if and only if the sender has none on record or an hour has passed since, and stamps both maps |
| `MintDecay.MintAmountExact` | factory/src/mint_bluechips_pool_creation.rs:27-74 | No pair of 64-bit inputs overflows, and the result is the base amount less the rounded-down reduction, never above the base amount |
| `MintDecay.NonIncreasingInPools` | factory/src/mint_bluechips_pool_creation.rs:27-74 | Later pools never get more, through the rounding and across the cut-off alike |
| `MintDecay.NonDecreasingInTime` | factory/src/mint_bluechips_pool_creation.rs:27-74 | More elapsed time never lowers the amount, contrary to the comment at 114-115 |
| `MintDecay.ZeroExactly` | factory/src/mint_bluechips_pool_creation.rs:56-74 | Within the cut-off the amount is zero if and only if 5x^2 + x >= 500 (s/6 + 333x) |
| `MintDecay.CutOffAgreesExactly` | factory/src/mint_bluechips_pool_creation.rs:25-30 | Past the cut-off the constant zero is the polynomial's value if and only if that inequality holds |
| `MintDecay.CutOffCanBite` | factory/src/mint_bluechips_pool_creation.rs:25-30 | An input where it does not |
| `DistributionPlan.EachPaidExactly` | creator-pool/src/commit/distribution_batch.rs:115-314 | In every run from instantiation, whatever the batch sizes, stalls and restarts, with stakes counted from the calls alone: batches send a committer nothing while their entry waits and from then on exactly stake * 500000000000 / target, rounded down; nobody else gets anything, except that the creator gets the dust with the last batch |
| `DistributionPlan.EveryAccountBalances` | creator-pool/src/state.rs:107-149 | After any run, what a user is due so far equals what was minted for them plus what failed and they can claim |
| `DistributionPlan.SupplyExact` | creator-pool/src/commit/distribution_batch.rs:199-238 | In every run batches send at most the payout; a drained pool has sent none of it if every committer's share rounds to nothing, and otherwise all of it; the former takes more committers than the payout has units, so a finished pool with at most 500000000000 committers has minted exactly 1200000000000 units |
| `TinyStakes.PayoutNeverMinted` | creator-pool/src/commit/distribution_batch.rs:199-238 | The bound is tight: for every stake there is a run from instantiation that is finished with 500000000001 committers and has minted the 700000000000 units of the crossing only |
| `DistributionPlan.StakesRecorded` | creator-pool/src/commit/threshold_crossing.rs:94-98 | The ledger the distribution serves holds for every user exactly what their commits staked, the overshoot of the crossing commit excluded |
| `DistributionPlan.FundingExact` | creator-pool/src/commit.rs:255-378 | In every run the USD raised is what the accepted commits come to, the target at most, the threshold is hit if and only if that is the target, and a commit goes through if and only if it is accepted, worth something and, before the threshold, within 128 bits |
| `DistributionPlan.BatchesProgress` | creator-pool/src/commit/distribution_batch.rs:126-160 | In every run, while entries wait, a batch is kept if and only if the distribution was last started, advanced or restarted at most 24 hours before and its mints find reply ids below that of deposit verification; it then serves the next 40 committers; one that comes too late is refused, and then the factory can restart the distribution |
| `DistributionPlan.FortyPerBatch` | creator-pool/src/commit/distribution_batch.rs:316-329 | In every reachable state a batch takes 40 entries: the gas it may use is 40 times what a mint is allowed, which is also the most it takes |
| `DistributionPlan.RecoveryExact` | creator-pool/src/admin.rs:220-272 | In every run the factory can restart a distribution if and only if nothing has moved it for an hour, and anybody if and only if nothing has for a week; the cursor and the clock are reset and nothing else changes |
| `DistributionPlan.FailuresRecover` | creator-pool/src/admin.rs:220-272 | In any state the factory's restart goes through if and only if a distribution is in progress and an hour has passed since it last moved or five failures are counted; no run counts one |
| `DistributionPlan.LedgerDrains` | creator-pool/src/commit/distribution_batch.rs:126-314 | In every run, timely batch calls drain the ledger: after `j` of them `40 j` of the entries are served, so `n` committers take `n / 40` calls, rounded up, whatever becomes of the mints, provided ids for `n + 1` mints are left |
| `DistributionPlan.CommittedExactly` | creator-pool/src/contract.rs:819-825 | In every run a batch or claim whose handler goes through is kept if and only if the stored counter plus the mints it sends is at most the number of ids below that of deposit verification, whatever became of the mints; otherwise the whole transaction is undone |
| `DistributionPlan.ClaimsExactly` | creator-pool/src/admin.rs:409-469 | In every run a claim is kept if and only if the sender has a failed amount, the recipient is valid and an id is left; it mints exactly the whole failed amount under the next id, to the recipient named or else the sender |
| `DistributionPlan.NoFailureOverflows` | creator-pool/src/contract.rs:859-878 | In no reachable state can the failed amounts of a call's mints leave 128 bits, so that error of the reply never undoes a batch |
| `DistributionPlan.EmptyBatchEnds` | creator-pool/src/commit/distribution_batch.rs:262-283 | A batch takes no entry if and only if none lies beyond the cursor, so the anomalous branch and its failure count are never reached |
| `DistributionPlan.CrossesOnce` | creator-pool/src/commit/threshold_payout.rs:140-142 | A pool crosses its threshold at most once, so the fixed mints of a crossing happen at most once |
| `DistributionPlan.NoticeExact` | creator-pool/src/contract.rs:770-816 | In every run, with what is due computed from the calls alone, the notice of the crossing can be retried if and only if it failed and no retry was delivered since; a deposit goes through if and only if it is transferred and its balances agree, and leaves nothing behind |
| `DistributionPlan.RunKeeps` | creator-pool/src/commit/distribution_batch.rs:115-314 | The invariant behind these: before the crossing the ledger adds up to the USD raised, below the target; after it, the ledger is a suffix of the committers, whose stakes add up to the target, and exactly the others are paid |
| `DistributionRuns.MintsConserved` | creator-pool/src/contract.rs:770-891 | Over every run, whichever mints fail and to whichever recipients claims go, what batches sent for a user plus what had failed before is what was minted for them plus what can still be claimed |
| `DistributionRuns.IdsNeverReused` | creator-pool/src/commit/distribution_batch.rs:63-82 | Over every run the kept mints have consecutive reply ids, none used twice and none that of deposit verification, and between transactions no stash is left |
| `DistributionRuns.IdsFromBase` | creator-pool/src/commit/distribution_batch.rs:63-82 | The mints of a pool's life are numbered from 1000000 in the order they were sent, all below 0xD5500000 |
| `DistributionRuns.KeptExactly` | creator-pool/src/contract.rs:818-891 | A batch or claim with its mints and their replies is kept if and only if its handler goes through and all its ids lie below that of deposit verification; nothing but the mint slots then differs from what the handler wrote |
| `DistributionRuns.SpentIdsBlock` | creator-pool/src/contract.rs:819-825 | Once those ids are used up, no later transaction of any run sends a mint: every claim fails, and every amount that failed before stays unclaimed |
| `CommitLedger.SharesWithin` | creator-pool/src/commit/distribution_batch.rs:331-347 | Floor shares never add up to more than the ledger's part of the total |
| `CommitLedger.NothingTakesMany` | creator-pool/src/commit/distribution_batch.rs:331-347 | For every share to round to nothing it takes more committers than there are units to share |
| `CommitLedger.ShareOf` | creator-pool/src/commit/distribution_batch.rs:331-347 | The payments to one committer come to the floor share of what the ledger holds for them |
| `CommitLedger.CreditAdds` | creator-pool/src/commit/threshold_crossing.rs:94-97 | A credit adds to exactly one committer |
| `CommitLedger.CreditRaises` | creator-pool/src/commit/threshold_crossing.rs:94-97 | A credit adds its amount to the ledger's total |
| `CommitLedger.CreditFits` | creator-pool/src/commit/threshold_crossing.rs:94-97 | A credit cannot overflow while the total fits 128 bits |
| `CommitLedger.RemoveLeading` | creator-pool/src/commit/distribution_batch.rs:179 | Removing a leading batch entry by entry leaves the rest of the ledger |
| `CommitLedger.RemoveExact` | creator-pool/src/commit/distribution_batch.rs:179 | Removing a committer takes exactly their entry out of the ledger and keeps its order |
| `CommitLedger.BeyondExact` | creator-pool/src/commit/distribution_batch.rs:149-157 | The scan from the cursor finds exactly the entries whose key sorts after it |
| `CommitLedger.BatchSizeExact` | creator-pool/src/commit/distribution_batch.rs:316-329 | A batch takes as many entries as the gas allows, at most 40 and at least one |
| `MintIsolation.DispatchOwes` | creator-pool/src/commit/distribution_batch.rs:56-102 | A dispatch goes out under a fresh id and adds its amount to what its user is owed, nobody else's |
| `MintIsolation.ReplySettles` | creator-pool/src/contract.rs:826-883 | A mint reply takes its amount off what the user is owed on success and moves it to the claimable failures otherwise |
| `MintIsolation.ClaimKeepsOwed` | creator-pool/src/admin.rs:409-469 | A claim puts the whole failed amount back in flight under the claimant's name, to any recipient; nobody's total changes |
| `MintIsolation.MintReplyOutcome` | packages/pool-core/src/balance_verify.rs:44-74 | Outside a deposit, a mint's reply errs if and only if the mint has the deposit-verification id, successful or not, or it failed and the failed sum overflows; otherwise it clears that stash and no other |
| `MintIsolation.RepliesExact` | creator-pool/src/contract.rs:770-891 | The replies to a call's mints, run in order, all go through if and only if every id lies below that of deposit verification |
| `MintIsolation.RepliesQuiet` | creator-pool/src/contract.rs:818-891 | They then settle every mint of the call: each amount is delivered or booked as failed, and no stash is left |
| `CommitSplit.CrossingSplits` | creator-pool/src/commit/threshold_crossing.rs:78-92 | A commit worth more than the USD left to the threshold always splits at the rate it was valued at: the bluechip worth of the remainder is less than the commit, and gross, net and USD are each divided without loss |
| `CommitSplit.SplitOnlyOnOvershoot` | creator-pool/src/commit.rs:260-301 | The split handler is reached exactly by the first commit that overshoots, the pre-threshold handler exactly below the target |
| `CommitSplit.FeesWithin` | creator-pool/src/commit.rs:400-414 | The fees can be taken if and only if commit times rate fits 128 bits for both; each is rounded down from its rate, and together they never exceed the commit |
| `CreatorPoolContract.CreatorPool.ExecuteCommit` | creator-pool/src/commit.rs:255-378 | Routes a commit to its phase: ledger, USD raised, threshold flag and distribution as the model says, or its error and no change |
| `CreatorPoolContract.CreatorPool.TriggerThresholdPayout` | creator-pool/src/commit/threshold_payout.rs:108-254 | Sets the flag, mints the fixed part and starts the distribution |
| `CreatorPoolContract.CreatorPool.ProcessDistributionBatch` | creator-pool/src/commit/distribution_batch.rs:115-314 | Pays and removes one batch, moves the cursor or settles the dust and ends; an error rolls everything back |
| `CreatorPoolContract.CreatorPool.PayCommitters` | creator-pool/src/commit/distribution_batch.rs:161-182 | The loop over the batch pays each entry its share under fresh ids and removes it, failing with the first failure |
| `CreatorPoolContract.CreatorPool.TakeAfter` | creator-pool/src/commit/distribution_batch.rs:149-157 | The range scan delivers the first entries after the cursor |
| `CreatorPoolContract.CreatorPool.BuildDistributionMintSubmsg` | creator-pool/src/commit/distribution_batch.rs:56-102 | Takes the next id and leaves its stash |
| `CreatorPoolContract.CreatorPool.HandleReply` | creator-pool/src/contract.rs:770-891 | Dispatches a reply by id in the source's order of arms, deposit verification included, and settles a mint's stash; an error changes nothing |
| `CreatorPoolContract.CreatorPool.RunReplies` | creator-pool/src/contract.rs:770-891 | The replies to a call's mints, one after the other, up to the first that errs |
| `CreatorPoolContract.CreatorPool.ExecuteTransaction` | creator-pool/src/contract.rs:728-891 | A handler with its messages and their replies: all its writes, or its error and none of them |
| `CreatorPoolContract.CreatorPool.ExecuteAll` | creator-pool/src/commit/threshold_payout.rs:108-254 | Any sequence of transactions on the stored slots: what it minted and sent is the model run's; from instantiation a drained pool with at most 500000000000 committers has minted exactly 1200000000000 units, and no mint had the deposit-verification id |
| `CreatorPoolContract.CreatorPool.ExecuteClaimFailedDistribution` | creator-pool/src/admin.rs:409-469 | Re-sends the claimant's whole failed amount |
| `CreatorPoolContract.CreatorPool.RecoverDistribution` | creator-pool/src/admin.rs:220-272 | The factory's restart after an hour |
| `CreatorPoolContract.CreatorPool.ExecuteSelfRecoverDistribution` | creator-pool/src/admin.rs:330-390 | Anyone's restart after a week |

## Left out

- OracleContract.Factory.UpdateInternalOraclePrice: the keeper bounty paid after a publication and the refresh of the eligible-pool snapshot are not modelled; eligible pools and their bluechip sides are inputs.
- Conversion.StrictConversionGate: the validation of a live price-feed answer is not modelled, only its outcome; the cached fallback with its age and confidence limits is.
- TwapWindow.CalculateTwap: the source's several overflow messages are one error.
- RouterModel.StartMultiHop: hops, pools and balances are values (maps) rather than objects; funds of the wrong shape are one error, and address validation is left out.
- RouterRuns.RouteSettles: pools are functions of their own numbers and the offer, for any such functions.
- PoolSwap.AcceptedFits: the swap of the repository's own pools is modelled on values; a pause, the cooldown after a crossing and an interval that has not passed are one number, and price accumulators, fee growth and analytics are left out with the errors they can raise.
- OwnPools.FeesPart: donations, the creator's fee pot and uncollected fees of liquidity positions are not told apart; all of them are what a pool holds beyond its reserves.
- RateLimits.PruningChangesNoDecision: stated for one of the two identical map pairs (creator pools and standard pools), and for block times that never go back.
- DistributionPlan.EachPaidExactly: a commit enters with its USD value and whether its other checks and swaps go through; the minimum commit, the fee transfers and the swap of the excess with its 3 % limit are not part of this run.
- DistributionPlan.BatchesProgress: the pause and drain gates, the per-caller limit of five seconds and the keeper bounty are not modelled; a batch these refuse is not among the calls of a run.
- CreatorPoolContract.CreatorPool.ExecuteCommit: the minimum commit, the two fees, the funds and the swaps with the pool are one input that says whether they go through.
- CreatorPoolContract.CreatorPool.TriggerThresholdPayout: the seeding of the pool, the creator's excess position and the contents of the factory notice are left out; whether the notice is taken is an input of the transaction.
- CreatorPoolContract.CreatorPool.ExecuteTransaction: the keeper's bounty message and the pause and drain gates are not modelled; a token contract that calls back into the pool while it is minting is not modelled; a deposit is reduced to the context its verification reads and whether its balances agree.
- Block times within a timelock of the end of the 64-bit nanosecond range (the year 2554) are not wrapped.
- The other handlers that change the anchor pool: their reset is not part of this model beyond the force-rotation they share it with.
- The router's configuration timelock: the same proposal scheme as the reservoir's, without its owner rotation.
- The factory's packing of pool id and step into a reply id, and the pool-creation chain that uses it.
- Retried factory notifications beyond the flag that the reply sets and clears, the recovery of a stuck crossing or lock, and emergency withdrawal.
- Liquidity positions and their fees, and the reverse swap quote; bank, CW20 and CW721 contracts.
- Message formats, attributes, contract versions and read-only queries.
