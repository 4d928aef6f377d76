# Verified model of the gateway's configuration, pricing and ledger logic

This project models the parts of the LiteLLM gateway (Rust) and of its maintenance
scripts (Python) in which a mistake would be hardest to see, and proves what they promise. To check
it: `dafny verify dfyconfig.toml` (Dafny 4.11).

**Configuration revisions** (`config_*.dfy` without the two text files). Any number of gateway
nodes share one database row `(revision, sealed payload)`, advanced only by compare-and-swap.
`ConfigProtocol` is that system as a state machine: a step boundary stands at every await, and
between the two stores of a publication. A call can be abandoned before or after its swap took
effect, a swap in flight can take effect long after its caller is gone, a node can crash and
restart on its own file at generation 0, and revision messages can be lost, repeated, reordered or
made up. The proofs use a ghost history of commits that no step reads.
`ConfigNode` holds the source's own sequential code as methods of `Database` and `AppState`; at
each await the rest of the system may run. Every public method is proved to be a path of the
protocol and to do what its callers rely on.

**Off-peak calendars and prices** (`off_peak*.dfy`, `time_of_use.dfy`, `pricing.dfy`,
`tier_keys.dfy`, `price_end_to_end.dfy`, `price_exactness.dfy`, `service_pricing.dfy`,
`reserved_prices.dfy`). The catalog script turns off-peak windows on a vendor's calendar into
peak windows in UTC. The loops are proved against the meaning of the declaration, hour by hour.
The gateway's parser and lookup are modelled as well, and both calculators behind them: the
price database (`src/core/pricing.rs`) and PricingService (`src/core/pricing_service`), by which
requests are settled. The two ends are composed: PricingService settles every accepted row at
what upstream declares, without a condition (`SettledRatesFollowSchedule`); the price database
does so under an exact condition (`PriceFollowsIffTiersAreHarmless`). What PricingService reserves
beforehand is compared with what it settles.

**Catalog authority and decision ledger** (`catalog*.dfy`, `ledger.dfy`, `sorting.dfy`,
`orders.dfy`). One order-dependent pass with two dictionaries decides an order-free condition on
names, and the output document is canonical. Pruning and importing settle the ledger and repeat
without effect.

**Configuration text** (`config_text.dfy`, `config_text_laws.dfy`). Line splitter, quote-aware
comment splitter and placeholder scanner, against a parse that prints back to its input.

**Delimiters** (`delimiters.dfy`, `lexer.dfy`). The stack loop of the log scanner against a
grammar of nested groups, and its tokenizer with nested comments and line numbers.

**Settlement** (`settlement.dfy`, `settlement_runs.dfy`, `settlement_basis.dfy`,
`settlement_review.dfy`). The accounting facts of one request, or of one Realtime session with its
responses, after any run of updates.

## Where the code and its comments disagree

The model follows the code.

- `src/server/state.rs:205` calls a publication atomic. It is two stores, and a reader between
  them sees the new runtime with the old config cell. `PublicationIsNotAtomic` is a run that gets
  there, `CellsBetweenTheStores` says exactly when the cells differ, and `ReachableStates` that
  they agree in every other state.
- `scripts/sync_litellm_pricing.py:733` says that scheduled rows with token tiers are refused. The
  script looks for keys ending in `_tokens`, as PricingService does, while the price database reads
  a threshold from any key with the prefix, on the input and on the output side.
  `OverlookedTierOverridesSchedule` covers every such key, `PriceFollowsIffTiersAreHarmless` is the
  exact condition on an accepted row under which every price of the database follows its schedule,
  and under the same condition the two calculators agree (`CalculatorsAgreeIffTiersAreHarmless`).
- `src/core/pricing/time_of_use.rs:68` returns "the highest configured rates" for a reservation. Its
  rate for cache reads does not look at tiers: `MaximumRatesCover` says exactly when a request is
  settled above it, and `MissedRow` is an instance; no accepted row is (`AcceptedRowsAreNotMissed`).
  `ReservationCoversIff` is the exact condition under which a reservation suffices.
- The tier fold of `src/core/pricing.rs:530` depends on map order when two keys spell one
  threshold with different rates: `OrderIndependentIff` and `CollidingKeysSplitTheRate` are exact.
  The keys of `config/model_prices_extended.json:6002-6004` are such a pair: the text behind
  `_tokens` is ignored there, so `input_cost_per_token_above_272k_tokens` and
  `input_cost_per_token_above_272k_tokens_priority` are both tiers at 272000, with rates 1e-05 and
  2e-05 (`PriorityKeySplitsTheRate`). Over all prompts, `AlwaysOrderIndependentIff` is the condition
  on the row. PricingService takes no priority key for a tier (`OnlySuffixedThresholdsCount`).
- A threshold in thousands is multiplied in 32 bits (`src/core/pricing.rs:559`) and wraps there, as
  unchecked release arithmetic does; `ThousandsWrapBeyond32Bits` is exact.
- `src/config/mod.rs:40` promises substitution of a bare `$NAME`. It stays literal text behind a
  name character or a dollar sign, hence also directly behind another bare placeholder (the second
  one of `$A$B`), and directly behind a braced one (`${A}$B`); `BareIsTakenIff` is exact.
- The comment reader of `src/config/mod.rs:110` takes every apostrophe for a quote. In YAML it quotes
  nothing inside a plain scalar, so that `it's # ${X}` ends in a comment there; here it has none,
  and the substitution fails without X (`LastApostropheHidesComments`, `ApostropheHidesComment`).
- `src/core/request_ledger.rs:32` lists three charge bases. The code writes two more.
  `provider_reported`, documented at `docs/gateway/request-ledger-billing.md:18-21`, is shown exactly
  while a mark on a billing stands (`ReportedIffMarkStands`, with `SettledThenMarked`). A Realtime
  session shows `realtime_known_and_unknown` (`src/server/routes/ai/realtime_billing.rs:446`), which
  no document lists, exactly while the end of a response stands that left some response unknown
  or pending (`MixedIffPartlyKnown`, with `EndedUnknown`). `UnlistedIff` puts the two together.
- A request can wait without a reason: after a key hold alone, and in a Realtime session behind a
  response whose cost stayed unknown. `WaitsWithoutReasonIffUnexplained` is exact.
- Line breaks inside a skipped character literal are not counted by the tokenizer:
  `EscapedBreakIsHidden` is an instance and `LinesAreTrue` exact.

## Model

| member | source | states |
|---|---|---|
| ConfigData.CandidateCharacterized | src/server/config_sync.rs:84-104 | a snapshot yields a candidate exactly for the sealing key, a decodable payload and a matching revision; the candidate takes the five shared sections and keeps the rest; each failure has its own error |
| ConfigData.SnapshotRoundTrip | src/server/config_sync.rs:70-104 | sealing on one node and opening on another transfers exactly the shared sections, and only under the same key and revision |
| ConfigSafety.InitEstablishesInv | src/server/state.rs:107-148 | freshly started nodes and an empty row satisfy the invariant |
| ConfigSafety.RowOpens | src/server/config_sync.rs:136-140 | a consistent row opens for exactly the holders of its key, and then carries the committed payload |
| ConfigSafety.StepKeepsInv | src/server/state.rs:219-299 | every step of every node keeps the invariant and only appends to the history |
| ConfigSafety.PathKeepsInv | src/server/config_sync.rs:119-166 | the invariant holds all along every path, and earlier histories are prefixes of later ones |
| ConfigSafety.Agreement | src/server/config_sync.rs:119-166 | over every run, nodes serving one generation at whatever times serve the one payload ever committed under that revision |
| ConfigSafety.ReachableStates | src/server/config_sync.rs:129-135 | generation <= observed <= row revision in every reachable state; the row holds the last payload; the two cells agree except between the two stores of a publication |
| ConfigSafety.CellsBetweenTheStores | src/server/state.rs:296-298 | after the first store the cells differ exactly if the published configuration is another one |
| ConfigSafety.PublicationIsNotAtomic | src/server/state.rs:284-299 | a run to a state whose two cells differ, for any two configurations |
| ConfigSafety.OnlyCurrentRevisionsCommit | src/server/state.rs:219-254 | the history grows only by a successful swap, awaited or abandoned, of the revision it expected; a node that awaits its swap still serves that revision |
| ConfigSafety.CommittersServedThePrecedingRevision | src/server/state.rs:219-254 | every revision of every run was checked and built by its author while serving the preceding one, even if the swap landed after the call was dropped or the node crashed |
| ConfigSafety.CommitsAreOrdered | src/storage/database/seaorm_db/runtime_config_ops.rs:14-33 | a later commit of a run expected a strictly later revision |
| ConfigSafety.NoLostUpdate | src/server/state.rs:219-254 | of all swaps that expect one revision, awaited or abandoned, at most one commits |
| ConfigSafety.PublishedApplyIsCommitted | src/server/state.rs:242-258 | a node publishes its own candidate only if that is, and stays, the committed payload of the next revision |
| ConfigSafety.StepIsMonotone | src/server/config_sync.rs:129-135 | no step short of a crash lowers a generation, an observed revision or the row's revision |
| ConfigSafety.Monotone | src/server/config_sync.rs:129-135 | the same over any stretch of a run, within one incarnation |
| ConfigSafety.FailuresChangeNothing | src/server/state.rs:219-259 | only the two stores and a restart touch what a node serves, and only a swap touches the row |
| ConfigSafety.ReconcileKeepsLocalSettings | src/server/config_sync.rs:97-104 | a reconcile publishes the observed revision's shared sections over unchanged local settings |
| ConfigSafety.OnlyKeysCanDiffer | src/server/config_sync.rs:132-165 | in a reachable state the only snapshot error a reconcile can meet is a foreign key |
| ConfigConvergence.ZeroLagIsAgreement | src/server/config_sync.rs:133-135 | the total lag is never negative, and zero exactly when all nodes serve the row's revision and payload |
| ConfigConvergence.PublicationsReduceLag | src/server/config_sync.rs:133-153 | with the row fixed, a publication lowers the lag and every other step leaves it |
| ConfigConvergence.BoundedCatchUp | src/server/config_sync.rs:187-218 | between commits and crashes, under any interleaving and any messages, at most lag-many publications happen |
| ConfigConvergence.MessagesCarryNoInformation | src/server/config_sync.rs:168-176 | whatever a run reaches with any revision messages is reached without one |
| ConfigConvergence.ReconcileProgresses | src/server/config_sync.rs:119-166 | the five steps of a reconcile of a lagging node, one after another |
| ConfigConvergence.OneReconcileCatchesUp | src/server/config_sync.rs:119-166 | one reconcile with the committing key brings a lagging node to the row, and changes nothing else |
| ConfigConvergence.ReleaseLock | src/server/config_sync.rs:119-166 | any pending operation can be finished or dropped without losing the chance to catch up |
| ConfigConvergence.StuckAlongPath | src/server/config_sync.rs:136-140 | a node that lags without the key stays behind on every path without commits and crashes |
| ConfigConvergence.ConvergenceIsReachableIff | src/server/config_sync.rs:197-209 | from any state of any run, all nodes can reach the row without commits, crashes and messages exactly if each lagging one holds the committing key or has already opened or committed that revision |
| ConfigNode.OthersEffect | src/server/state.rs:219-259 | what may have happened while a call awaited: other nodes' commits, this node's abandoned swaps taking effect, and its sync diagnostics |
| ConfigNode.Database.constructor | src/storage/database/seaorm_db/runtime_config_ops.rs:7-12 | a migrated table holds revision 0 without payload |
| ConfigNode.Database.RuntimeConfig | src/storage/database/seaorm_db/runtime_config_ops.rs:7-12 | the row as it is, or a storage error |
| ConfigNode.Database.CommitRuntimeConfig | src/storage/database/seaorm_db/runtime_config_ops.rs:14-33 | the conditional update: what success, conflict, overflow and a lost reply say about the row |
| ConfigNode.BuildRuntimeRevision | src/server/runtime.rs:36-61 | a built revision has the requested generation and configuration; the build may fail |
| ConfigNode.AppState.constructor | src/server/state.rs:107-148 | a node starts at generation 0 on its own file, as a restart step of the protocol |
| ConfigNode.AppState.PublishRuntime | src/server/state.rs:284-299 | two stores, with the old config cell visible in between |
| ConfigNode.AppState.Finish | src/server/state.rs:254-257 | publication and cleared apply error, back to a free lock |
| ConfigNode.AppState.ApplyRuntimeAt | src/server/state.rs:219-259 | acknowledged: the next revision is new, this node's, carries the candidate and is served; refused or abandoned: nothing served changes; beyond swaps abandoned before the call, at most this revision is committed or can ever be, and none after a conflict; stale generation and overflow change nothing at all |
| ConfigNode.AppState.BuildAndCommit | src/server/state.rs:229-258 | the same from the build on |
| ConfigNode.AppState.CommitAndPublish | src/server/state.rs:242-258 | the same from the built revision on |
| ConfigNode.AppState.AwaitReply | src/server/state.rs:247-258 | success only after the swap took effect; a failure or an abandoned reply leaves the node serving what it served, with the swap in flight if nobody knows its fate |
| ConfigNode.AppState.TakeReply | src/server/state.rs:248-258 | the same from the reply on; only a lost reply leaves the swap in flight |
| ConfigNode.AppState.Swap | src/server/state.rs:244-247 | the commit call is the protocol's swap step exactly when the row moved |
| ConfigNode.AppState.ReconcileRuntimeConfig | src/server/config_sync.rs:119-166 | success: at least every revision committed before the call is served, under the node's own local settings; otherwise nothing served changes |
| ConfigNode.AppState.AwaitRow | src/server/config_sync.rs:124-131 | the same from the row read on, even if the row moves on meanwhile |
| ConfigNode.AppState.ApplyRow | src/server/config_sync.rs:132-165 | the same from the row on: the observed revision is the row's |
| ConfigNode.AppState.RejectRow | src/server/config_sync.rs:161-164 | an unusable row is only reported |
| ConfigNode.AppState.Rebuild | src/server/config_sync.rs:141-160 | the candidate is built and published, or the node serves what it served |
| ConfigNode.AppState.NotifyRuntimeRevision | src/server/state.rs:262-282 | the outcome of the announcement is what the sync diagnostics say; nothing else is promised |
| ConfigNode.AppState.ApplyRuntime | src/server/state.rs:211-217 | applied, announced or not, means: this node's commit of the candidate right behind the pinned generation, served or superseded |
| ConfigNode.AppState.ObserveRevision | src/server/config_sync.rs:168-176 | malformed, stale and repeated messages leave the whole system untouched; a newer one waits for the lock, and behind a success the node serves all that was committed before the call |
| OffPeakCompiler.LocalDayIsVendorDay | scripts/sync_litellm_pricing.py:780-783 | the day arithmetic is the weekday of the vendor's calendar at that hour of the UTC week |
| OffPeakCompiler.MarkSpan | scripts/sync_litellm_pricing.py:778-784 | the inner loops add exactly the hours of the span on allowed vendor days |
| OffPeakCompiler.MarkOffHours | scripts/sync_litellm_pricing.py:752-784 | the marked set is exactly the hours some window covers |
| OffPeakCompiler.GroupRuns | scripts/sync_litellm_pricing.py:785-795 | the groups hold exactly the maximal peak runs, each with its days in ascending order |
| OffPeakCompiler.RunsAreApart | scripts/sync_litellm_pricing.py:787-795 | two maximal runs of a day are equal or separated by an off-peak hour |
| OffPeakCompiler.SortedGroupsCompile | scripts/sync_litellm_pricing.py:802-805 | the sorted groups are the compiled form of the off-peak hours |
| OffPeakParsing.SpanIsSpelled | scripts/sync_litellm_pricing.py:771-777 | a span is accepted exactly in its spelling, HH:00-HH:00 with 00 for the end of the day |
| OffPeakParsing.DayIsNamed | scripts/sync_litellm_pricing.py:761-767 | a day is accepted exactly as its ISO number or its English name |
| OffPeakParsing.WindowIsDescribed | scripts/sync_litellm_pricing.py:753-777 | a window is accepted exactly with its two fields, non-empty days and non-empty spans, and yields those |
| OffPeakParsing.ParseIffDeclares | scripts/sync_litellm_pricing.py:716-777 | the validation accepts exactly the rows that declare a schedule, and returns it |
| OffPeakCompiler.ParsedWindowsFit | scripts/sync_litellm_pricing.py:753-777 | accepted windows stay within the day |
| OffPeakCompiler.NormalizeOffPeakPricing | scripts/sync_litellm_pricing.py:714-808 | rejects exactly the declarations that declare no schedule, with the first failing check; otherwise off-peak rates become base rates, with peak rates under the windows that compile the covered hours; other rows are untouched |
| OffPeakMeaning.ListedIffPeak | scripts/sync_litellm_pricing.py:785-808 | an hour of the week is listed exactly when no upstream window covers it |
| OffPeakMeaning.WindowsAreApart | scripts/sync_litellm_pricing.py:787-805 | the windows of one day are disjoint and not adjacent |
| OffPeakMeaning.NoWindowIffAllOffPeak | scripts/sync_litellm_pricing.py:799-808 | no window is emitted exactly when all 168 hours are off-peak |
| OffPeakMeaning.CompiledFormIsUnique | scripts/sync_litellm_pricing.py:785-805 | one set of off-peak hours has one compiled form |
| OffPeakMeaning.HoursAreConserved | scripts/sync_litellm_pricing.py:785-805 | listed hours and off-peak hours add up to 168, each peak hour listed once |
| TimeOfUse.EncodingReadsBack | src/core/pricing/time_of_use.rs:88-127 | emitted declarations pass the script's validator and the gateway's parser, which reads the same windows and rates |
| Pricing.BestTierIsGreatest | src/core/pricing.rs:530-554 | the fold picks a live tier of greatest threshold below the prompt size, and none only if none is live |
| Pricing.BestTierOfMap | src/core/pricing.rs:536-553 | the same as a property of the map, for every iteration order |
| Pricing.AgreeingTiersFixTheRate | src/core/pricing.rs:536-553 | if the greatest live tiers agree, all iteration orders give one rate |
| Pricing.LastTopTierWins | src/core/pricing.rs:551-552 | among equal greatest thresholds the last one iterated wins |
| Pricing.DisagreeingTiersSplitTheRate | src/core/pricing.rs:536-553 | if they disagree, two iteration orders give two rates |
| Pricing.OrderIndependentIff | src/core/pricing.rs:530-563 | the rate is independent of map order exactly when the greatest live tiers agree |
| Pricing.AlwaysOrderIndependentIff | src/core/pricing.rs:530-563 | over all 32-bit prompts the rate is independent of map order exactly when no two reachable tier keys of the row share a threshold and differ in their rates |
| Pricing.RateIsMonotone | src/core/pricing.rs:530-554 | with rising tiers the rate does not fall as the prompt grows |
| Pricing.TokenCostIsMonotone | src/core/pricing.rs:308-322 | with rising tiers a larger prompt never costs less |
| TierKeys.ThresholdReadsBack | src/core/pricing.rs:556-563 | a spelled threshold is read as the number it spells, in units or thousands, whatever follows `_tokens` or a second `_above_`; beyond 32 bits it is none |
| TierKeys.ThousandsWrapBeyond32Bits | src/core/pricing.rs:558-559 | a threshold in thousands is the number spelled exactly while that fits 32 bits |
| TierKeys.ThousandsAndUnitsCollide | src/core/pricing.rs:556-563 | thousands and units spell one threshold in two keys |
| TierKeys.CollidingKeysSplitTheRate | src/core/pricing.rs:530-554 | over two keys with one threshold the rate depends on map order exactly if the tier is live and the rates differ |
| TierKeys.PriorityKeySplitsTheRate | src/core/pricing.rs:536-563 | so it is for a threshold and its priority variant, the pair that catalog rows carry |
| PriceEndToEnd.ConvertedRowParses | src/core/pricing/time_of_use.rs:88-99 | the gateway reads back exactly the windows and peak rates the script wrote |
| PriceEndToEnd.LookupFollowsSchedule | src/core/pricing/time_of_use.rs:44-61 | peak rates are found exactly at the hours that no upstream window covers |
| PriceEndToEnd.BaseRatesFollowSchedule | src/core/pricing.rs:288-307 | before tiers the price database's rates are the upstream rates in force |
| PriceEndToEnd.NoTierNoChange | src/core/pricing.rs:308-319 | without a live tier in the row the tier fold keeps the base rate |
| PriceEndToEnd.ConvertedRowChargesUpstreamRates | src/core/pricing.rs:270-329 | at any hour and in any map order the charge is token counts times upstream rates in force, plus the reasoning charge |
| PriceExactness.LiveTierWins | src/core/pricing.rs:536-553 | on either side, the rate of some live tier of the row is selected if there is one |
| PriceExactness.ChargedRate | src/core/pricing.rs:300-319 | on either side, the charged rate is the scheduled one without a live tier, and the rate of a live tier with one |
| PriceExactness.ScheduleDecidesIffNoLiveTier | src/core/pricing.rs:300-319 | for one request, with tiers that differ from the schedule, each side is charged its scheduled rate exactly when the row has no live tier on that side |
| PriceExactness.TierIsReached | src/core/pricing.rs:551-552 | every tier is charged to some prompt in some map order |
| PriceExactness.ScheduleDecidesIffTiersAreHarmless | src/core/pricing.rs:300-319 | for all requests, hours and map orders: the schedule decides exactly if every key of the row that reads as a reachable tier has the scheduled rate at every hour |
| PriceExactness.PriceFollowsIffTiersAreHarmless | src/core/pricing.rs:270-329 | for all requests, hours and map orders: the price is the one by the upstream rates in force exactly under that condition |
| PriceExactness.OverlookedKeyIsATier | src/core/pricing.rs:556-563 | a threshold without the suffix, or with something behind it, is a tier to the price database and none to the script |
| PriceExactness.OverlookedTails | scripts/sync_litellm_pricing.py:733-738 | such are all thresholds without a suffix and all priority thresholds |
| PriceExactness.OverlookedKeyKeepsSchedule | scripts/sync_litellm_pricing.py:733-738 | an overlooked key changes nothing for the script |
| PriceExactness.OverlookedTierOverridesSchedule | scripts/sync_litellm_pricing.py:733-738 | with any overlooked key, on either side, accepted rows charge its rate at every hour |
| PriceExactness.ExampleRowIsAccepted | scripts/sync_litellm_pricing.py:714-784 | a concrete row of that family, on either side |
| ServicePricing.ServiceBestIsGreatest | src/core/pricing_service/usage_cost.rs:370-394 | the fold of PricingService picks a live tier that no live tier exceeds, and none only if none is live |
| ServicePricing.ServiceTiersAreTierKeys | src/core/pricing_service/usage_cost.rs:370-403 | every key that PricingService takes for a tier of a scheduled rate is one that the script refuses |
| ServicePricing.OnlySuffixedThresholdsCount | src/core/pricing_service/usage_cost.rs:396-403 | of all spelled thresholds PricingService reads exactly those that end with `_tokens` right behind a 32-bit number |
| ServicePricing.ServiceTiersAreDatabaseTiers | src/core/pricing_service/usage_cost.rs:370-403 | each of its tiers is one of the price database, with threshold and rate, unless the text behind the prefix completes another `_above_` |
| ServicePricing.SettledRatesFollowSchedule | src/core/pricing_service/usage_cost.rs:230-274 | every accepted row, at every hour, for every prompt and in every map order, settles input, output and cache reads at the upstream rates in force |
| ServicePricing.SettledChargeFollowsSchedule | src/core/pricing_service/usage_cost.rs:98-126 | the charge for the tokens of a request by these rates |
| ServicePricing.PromptIsChargedOnceIff | src/core/pricing_service/types.rs:148-153 | each prompt token is charged once exactly if the cached parts fit into the prompt; none is ever left out |
| ServicePricing.CalculatorsAgreeIffTiersAreHarmless | src/core/pricing.rs:300-319 | on an accepted row the two calculators charge the same rates exactly if every key that the price database takes for a tier is harmless |
| ReservedPrices.MaximumRatesCover | src/core/pricing/time_of_use.rs:68-86 | the maximum rates are never below those of any hour, cache reads aside; those are exactly without a price of their own, off peak, in a tier of an input rate above the maximum |
| ReservedPrices.MissedRow | src/core/pricing/time_of_use.rs:77-84 | a row whose cache reads are settled above the maximum at every hour but those of Monday |
| ReservedPrices.AcceptedRowsAreNotMissed | scripts/sync_litellm_pricing.py:739-743 | rows that the script accepts always have a price for cache reads |
| ReservedPrices.ReservationCoversIff | src/core/pricing_service/authority.rs:338-389 | a reservation for the actual numbers of prompt and completion tokens covers every split of the prompt into cached parts exactly if the rates for cached parts do not exceed the reserved rate per prompt token |
| Catalog.UnambiguousIsPairwise | scripts/model_catalog_authority.py:309-356 | names are unambiguous exactly when every entry fits the ledger and every two entries fit each other |
| Catalog.AliasesAvoidLedger | scripts/model_catalog_authority.py:325-335 | accepts exactly aliases that are no pricing key of the provider |
| Catalog.RecordAliases | scripts/model_catalog_authority.py:347-356 | claims all aliases, or fails exactly on a canonical ID or another owner's alias |
| Catalog.DictionariesDecide | scripts/model_catalog_authority.py:336-356 | what the two dictionaries say of an entry is what the earlier entries say of it |
| Catalog.ClaimNames | scripts/model_catalog_authority.py:314-356 | the body of the pass: its verdict, and the dictionaries afterwards |
| Catalog.CheckEntry | scripts/model_catalog_authority.py:314-356 | an entry passes exactly when it fits all entries up to it |
| Catalog.CheckNext | scripts/model_catalog_authority.py:311-356 | one turn of the pass, entries that are not callable included |
| Catalog.CheckNames | scripts/model_catalog_authority.py:309-356 | the single pass accepts exactly the unambiguous ledgers |
| CatalogAuthority.ClaimAliases | scripts/model_catalog_authority.py:141-150 | one provider's aliases are claimed exactly if none is canonical or owned |
| CatalogAuthority.ValidateProvider | scripts/model_catalog_authority.py:138-151 | one turn of the alias check |
| CatalogAuthority.ValidateProviderAliases | scripts/model_catalog_authority.py:129-152 | accepts exactly tables whose aliases are unique and never canonical, in whatever order; sorts each list |
| CatalogAuthority.CountCoverage | scripts/model_catalog_authority.py:359-365 | the counters are the numbers of entries per provider and decision |
| CatalogAuthority.ValidateEntries | scripts/model_catalog_authority.py:269-279 | accepts exactly valid entries with unique identities, and makes each canonical |
| CatalogAuthority.BuildCatalogAuthority | scripts/model_catalog_authority.py:243-390 | the builder accepts exactly the acceptable ledgers and returns their document, digests included |
| CatalogAuthority.CanonicalKeepsNames | scripts/model_catalog_authority.py:187-235 | sorting the lists of the entries changes no verdict |
| CatalogCanonical.OrderDoesNotMatter | scripts/model_catalog_authority.py:309-390 | acceptance and the whole document, digests included, are the same for every order of the input |
| CatalogCanonical.OutputIsCanonical | scripts/model_catalog_authority.py:358-390 | the output is strictly sorted, canonical, and has one entry for every pricing row |
| CatalogCanonical.RebuildChangesNothing | scripts/model_catalog_authority.py:243-390 | building from the output's own entries gives the same document |
| CatalogCanonical.CountsCoverEveryRow | scripts/model_catalog_authority.py:297-307 | the counts of an accepted ledger add up to the number of pricing rows |
| Ledger.PruneRetiredUnreviewed | scripts/sync_litellm_pricing.py:849-869 | drops exactly the pending entries without a row, in order, and leaves malformed documents alone |
| Ledger.InKeep | scripts/sync_litellm_pricing.py:857-866 | what stays is what is not retired |
| Ledger.PruneKeepsReviewed | scripts/sync_litellm_pricing.py:849-869 | reviewed entries survive pruning unchanged and in order |
| Ledger.InMissing | scripts/sync_litellm_pricing.py:900-905 | the additions are exactly the rows without a decision |
| Ledger.PendingAddsNoReview | scripts/sync_litellm_pricing.py:928-936 | additions change no reviewed entry |
| Ledger.ImportSettlesTheLedger | scripts/sync_litellm_pricing.py:849-937 | prune, then add: every row classified, only reviewed entries stale, reviewed entries unchanged in order, and a repetition or later import without effect |
| Ledger.ImportKeepsIdentitiesUnique | scripts/sync_litellm_pricing.py:849-937 | unique identities stay unique |
| ConfigText.SplitLineEnding | src/config/mod.rs:100-108 | body and ending are the line, and the ending is all of its line break |
| ConfigText.SplitYamlComment | src/config/mod.rs:110-153 | the flag loop finds the comment start of the quote-state specification |
| ConfigText.SubstituteLine | src/config/mod.rs:49-58 | one line rendered, and its unset braced names added in order |
| ConfigText.SubstituteLines | src/config/mod.rs:46-59 | the accumulators hold the rendered document and the sorted set of unset braced names |
| ConfigText.SubstituteEnvVars | src/config/mod.rs:42-70 | succeeds exactly when every braced name outside comments is set; fails with exactly the unset ones, each once, sorted |
| ConfigText.TakePrints | src/config/mod.rs:77-97 | each piece prints as the text it was taken from |
| ConfigTextLaws.ParsePrintsBack | src/config/mod.rs:42-108 | pieces, comments and endings print back to the input |
| ConfigTextLaws.NothingSetNothingChanged | src/config/mod.rs:72-98 | without a set name the text is unchanged |
| ConfigTextLaws.ValuesAreNeverRescanned | src/config/mod.rs:72-98 | text and set names fix the form of the output, and values only fill its holes |
| ConfigTextLaws.LinesAreIndependent | src/config/mod.rs:49-59 | no quote, comment or placeholder crosses a line break |
| ConfigTextLaws.EveryWrittenNameIsFound | src/config/mod.rs:43-45 | the braced names of a segment are exactly those written in it |
| ConfigTextLaws.BracedIsABoundary | src/config/mod.rs:43-45 | the scan never runs over the start of a braced placeholder |
| ConfigTextLaws.BareIsTakenIff | src/config/mod.rs:43-45 | a written bare name is taken exactly at the start or behind a character that may precede it, and not right behind a braced placeholder; otherwise its dollar sign is literal |
| ConfigTextLaws.BareBehindAPlaceholder | src/config/mod.rs:36-45 | the shortest texts of the two shapes that stay literal |
| ConfigTextLaws.CommentIsFirstOutsideQuotes | src/config/mod.rs:110-153 | the comment starts at the first hash outside quotes at the line start or behind white space |
| ConfigTextLaws.LastApostropheHidesComments | src/config/mod.rs:129-141 | an apostrophe outside quotes with no other behind it leaves the line without a comment |
| ConfigTextLaws.ApostropheHidesComment | src/config/mod.rs:129-141 | a line that is a comment from column 5 on in YAML, and whose placeholder is substituted nevertheless |
| Delimiters.AcceptedIffGroup | scripts/guards/check_log_session_identifiers.py:253-266 | the stack accepts exactly the well-nested groups of the grammar |
| Delimiters.ReadingIffUnfinished | scripts/guards/check_log_session_identifiers.py:253-266 | it keeps reading exactly while some continuation completes a group |
| Delimiters.GroupIsShortest | scripts/guards/check_log_session_identifiers.py:265-266 | no group is a proper prefix of another |
| Delimiters.OpenerStartsItsGroup | scripts/guards/check_log_session_identifiers.py:253-266 | from an opening token the span is one group of that bracket |
| Delimiters.MatchingDelimiter | scripts/guards/check_log_session_identifiers.py:253-268 | returns the end of the group exactly if there is one; otherwise names the first token no group can hold, or the opener if only more tokens could complete it |
| Lexer.CommentEndsWhereItCloses | scripts/guards/check_log_session_identifiers.py:167-184 | the depth counter finds the end of a nested comment exactly when the marks form a group |
| Lexer.SkipBlockComment | scripts/guards/check_log_session_identifiers.py:167-184 | the inner loop finds that end and counts the lines |
| Lexer.ItemAt | scripts/guards/check_log_session_identifiers.py:155-226 | every rule advances and stays inside the text |
| Lexer.ReadItem | scripts/guards/check_log_session_identifiers.py:155-226 | one turn of the main loop, with the lines it counts |
| Lexer.Tokenize | scripts/guards/check_log_session_identifiers.py:151-228 | ends on every text; on success the items cover it without gaps and the tokens are theirs |
| Lexer.LinesAreTrue | scripts/guards/check_log_session_identifiers.py:151-228 | reported lines never run ahead, and are true exactly while no character literal has hidden a break |
| Lexer.EscapedBreakIsHidden | scripts/guards/check_log_session_identifiers.py:203-208 | a text in which the token on line 2 is reported on line 1 |
| Settlement.RequestLedgerFacts.constructor | src/core/request_ledger.rs:100-119 | default facts are those of the empty run |
| Settlement.RequestLedgerFacts.RecordSettlement | src/core/request_ledger.rs:121-167 | the whole new state after one call, which continues every run that explains the state before |
| Settlement.RequestLedgerFacts.UpdateBilling | src/core/request_ledger.rs:87-99 | a closure that edits the billing as an entry of a run does continues the run by that entry, so that all run theorems apply to the object |
| Settlement.RequestLedgerFacts.MarkProviderReportedCharge | src/core/request_ledger.rs:275-287 | no billing is created; an existing one shows the reported basis; the call continues the run by a mark |
| Settlement.RequestLedgerFacts.RecordReservation | src/core/budget/async_reservations.rs:99-128 | a reservation continues the run by two entries, naming and holding |
| Settlement.RequestLedgerFacts.StartResponse | src/server/routes/ai/realtime_billing.rs:341-388 | the start of a response continues the session's run by that entry |
| Settlement.RequestLedgerFacts.FinishResponse | src/server/routes/ai/realtime_billing.rs:390-449 | the end of a response continues the session's run by that entry |
| Settlement.StartedBilling | src/server/routes/ai/realtime_billing.rs:348-386 | the updates of the billing at the start of a response, one after another, come to one step |
| Settlement.FinishedBilling | src/server/routes/ai/realtime_billing.rs:397-447 | the updates of the billing at the end of a response, one after another, come to one step |
| SettlementRuns.CountsAfterRun | src/server/routes/ai/realtime_billing.rs:349-410 | after any run the counters are the unknown and the outstanding responses, and the subtotal is the sum of the known costs |
| SettlementRuns.OutstandingIsTheDifference | src/server/routes/ai/realtime_billing.rs:398-399 | if no response ends that has not started, those outstanding are the started less the finished ones |
| SettlementRuns.SessionCost | src/server/routes/ai/realtime_billing.rs:438-448 | a session that has just ended a response has a cost exactly if all its responses have ended with known costs, and then it is their sum |
| SettlementRuns.ValuesAfterRun | src/core/request_ledger.rs:121-147 | after any run: last known tokens of prompt and completion; cost, provider and model last set, where the start of a response opens the cost; first deployment since the current response began |
| SettlementRuns.TokensAddUp | src/server/routes/ai/realtime_billing.rs:394-396 | token totals of the responses add up on top of the last settled total, exactly up to the greatest 64-bit integer |
| SettlementRuns.WaitingAfterRun | src/core/request_ledger.rs:148-166 | after any run the request waits since the first entry that opened a charge behind the one that last ended the waiting; a reason is given exactly while an entry that says why stands |
| SettlementRuns.WaitsIffOpen | src/server/routes/ai/realtime_billing.rs:352-355 | it waits exactly while an entry that opened a charge stands |
| SettlementRuns.WaitsWithoutReasonIffUnexplained | src/server/routes/ai/spend/key_budget.rs:30-38 | a reason implies waiting; waiting without a reason happens exactly when an entry that opened a charge stands and none that says why |
| SettlementRuns.UnexplainedRuns | src/server/routes/ai/realtime_billing.rs:352-355 | two such runs: a key hold alone, and a response behind one whose cost stayed unknown |
| SettlementRuns.SettlementsAlone | src/core/request_ledger.rs:121-167 | after settlements alone: waiting, reason and estimate all exactly when the last cost was unknown, since the first of the trailing unknown calls |
| SettlementRuns.OutOfStepIffUnexplainedFallback | src/core/request_ledger.rs:152-165 | the one state in which a settlement leaves waiting and reason out of step |
| SettlementBasis.BasisAfterRun | src/core/request_ledger.rs:147-163 | after any run the basis is the one last set, an unknown cost leaving a standing fallback charge alone, a mark counting only with a billing, and the end of a response setting one of two |
| SettlementBasis.FallbackAfterRun | src/core/request_ledger.rs:152-153 | the fallback basis is shown exactly while a fallback charge stands |
| SettlementBasis.ReportedIffMarkStands | src/core/request_ledger.rs:272-287 | the reported basis is shown exactly while a mark on a billing stands |
| SettlementBasis.MixedIffPartlyKnown | src/server/routes/ai/realtime_billing.rs:438-447 | the mixed basis is shown exactly while the end of a response stands that left some response unknown or pending |
| SettlementBasis.UnlistedIff | src/core/request_ledger.rs:32 | a basis outside the listed three is shown exactly in these two cases |
| SettlementBasis.SettledThenMarked | src/server/routes/ai/spend.rs:379-388 | the first case: any settlement whose cost the provider reported |
| SettlementBasis.EndedUnknown | src/server/routes/ai/realtime_billing.rs:402-447 | the second case: any response that ends without a known cost, also behind a further response that ends with one |
| SettlementReview.RequiresBudgetReview | src/core/request_ledger.rs:48-74 | true exactly if one of the three scopes needs review |
| SettlementReview.HeldAfterRun | src/core/budget/async_reservations.rs:116-128 | after any run a scope is held if some entry reserved for it |
| SettlementReview.UnconfirmedIffSpoiled | src/server/routes/ai/realtime_billing.rs:463-472 | a scope is unconfirmed exactly while a failed settlement, or a response that ended without one, stands; later responses that settle do not take that back |
| SettlementReview.SettledAfterRun | src/core/request_ledger.rs:38 | a scope is settled exactly while an acknowledged outcome stands, or a response that ended settled in a scope that was not spoiled |
| SettlementReview.ChargeAfterRun | src/server/routes/ai/realtime_billing.rs:415-423 | after any run the charge of a scope is the one last set, plus the charges of the responses that ended since |
| SettlementReview.ReviewAfterRun | src/core/request_ledger.rs:48-74 | a request needs no review for a cost exactly when each held scope is settled and its charges add up to that cost |
| SettlementReview.EndedUnsettledNeedsReview | src/server/routes/ai/realtime_billing.rs:463-472 | once a response ended without a settlement in a held scope, the session needs review for every cost |

## Left out

- Nodes without configuration sync: every node of the model has a key; the source's branches for a missing one skip the row.
- The Redis channel, the SQL engine, the tokio runtime, timeouts and sleeps: messages carry arbitrary numbers at arbitrary times, the row is a compare-and-swap cell, and a build fails or succeeds at will.
- The row's missing-row error and a negative stored revision: both are storage errors without effect, and the revision of the model is a natural number.
- Encryption: a sealed snapshot opens under its own key and under no other.
- ConfigNode.BuildRuntimeRevision: router, guardrail engine and response cache are functions of the published configuration, as the build makes them; inherited router state and the shutdown of an old cache are not modelled.
- Liveness: convergence is shown as a bound on publications and as an exact reachability condition, not as eventual progress under a scheduler.
- ConfigNode.AppState.Interleave: its body does nothing; its contract lets the rest of the system run, and only the contract is used.
- ConfigNode.AppState.WaitForLock: its body does nothing; its contract lets other tasks of the node hold the lock, and only the contract is used.
- Floating point: rates, costs and amounts are reals, so finiteness checks hold trivially.
- Provider and model matching before a price is found, and the charges of PricingService for batches, one-hour cache writes, inference regions, tools, images, audio and embeddings, and its separate schedule for Google models (`src/core/pricing_service/google.rs`): each is a lookup or a formula of its own.
- Pricing.TokenCostIsMonotone: token counts are unbounded here, while the source counts prompt tokens in 32 bits.
- The typed decoding of a pricing row beyond the fields that the price needs.
- Hand-maintained override tables, contract constants and the rendering of the catalog file: data, not logic.
- CatalogAuthority.BuildCatalogAuthority: a digest stands for the value that is hashed; provider tables are maps, without an order; the schema version is no part of the document.
- The decoding of catalog documents: entries and evidence sources arrive typed, and the endpoint and capability vocabularies are parameters.
- Which of several faults the authority builder reports first: the model answers whether it accepts.
- The sort of the pricing keys before an import: the sorted keys are a parameter.
- Values of environment variables that are not valid Unicode read as unset.
- Lexer.Tokenize: does not model the line and path in error messages; character classes and the decoding of string escapes are parameters.
- Lexer.ItemAt: states progress only; the rules for strings, raw strings, character literals, names and signs are modelled branch by branch, without a second specification.
- The search for log macros and format captures around the matched delimiters.
- SettlementReview.ReviewAfterRun: an update of two scopes under one lock appears as two entries in a row, so the runs of the model include all of the source's and more.
- Budget lease identities, and the task-local handle of the facts and its mutex: each update happens under the lock.
- The clock: every time stamp is a parameter.
