# Verification of the billing engine

A Dafny model of the in-memory billing engine of an API-key billing plugin, with proofs about it.
Seven connected pieces are modelled:

* **Round-robin scheduling** (`RoundRobin`, `Fairness`, `Scheduler`). A pool keeps one running
  score per credential. Each pick adds every offered credential's weight to its score, takes the
  highest score (ties by identifier) and subtracts the total from the winner.
* **Quota cycles** (`Quota`, `Cycles`, `Counters`, `Recovery`, `Plans`, `PlanMeaning`, `CounterRuns`,
  `PlanChanges`). A plan has quota windows; an
  admission opens a cycle per window, usage is charged to the cycles it started in, and plan edits,
  resets and key synchronisation replace or drop cycles.
* **Grouped billing** (`GroupTexts`, `GroupBindings`, `GroupModels`, `GroupLedger`, `GroupStates`, `GroupDays`,
  `GroupGate`, `GroupMeaning`, `GroupStore`). Keys have binding periods, published groups own models, and every key,
  group and business day has a ledger of what was spent and what a reset forgave.
* **Slots and admission** (`Slots`, `Admission`). Requests hold concurrency slots; a completion may
  race the admission calls of the same request.
* **Write-behind persistence** (`Pending`, `Persistence`, `Engine`). Usage changes memory at once and is
  written when a save succeeds; configuration edits take effect only with their save. `Engine` runs
  quota cycles and grouped billing on top of it.
* **Reference prices** (`PriceMatching`, `PriceCache`, `ReferencePrices`). Cached lookups beside a
  single refresh, with two locks.
* **Tokens and money** (`Usage`, `UsageReadings`, `Money`). Token records are normalised in int64 arithmetic, priced
  per token class, and amounts are read and printed as exact decimals.

`Numbers`, `Sequences`, `Options` and `Text` hold the shared vocabulary: int64 bounds and sums over maps,
elements of sequences, missing values, and Go's string order.

## How to read it

Code that works by changing things step by step is a class or a method with loops, proved against a
specification function or relation (`PickStep`, `Apply`, `Committed`, `Merged`, `MatchKeys`, ...);
the properties are lemmas about that specification and about runs of it. A lock region is one step.
What an operation answers and does is stated once more in plain terms, by fields, positions and counts and without
its specification function (`UsageReadings`, `PlanMeaning`, `GroupMeaning`, and the lemmas named `...Means`
and `...Iff` elsewhere), so a wrong specification would not pass either.
Times are integer nanoseconds since 1970, business days are those of UTC+8, names and models are
normalised identifiers, and amounts in windows are reals. The removal of the host's request-option
suffix from a model name is a function the grouped-billing theorems quantify over.

## What turned out not to hold in general

* A credential with the empty identifier is never kept as the best so far and starves. A full cycle
  is fair exactly when no credential has it (`Fairness.FullCycle`; `Fairness.EmptyIdStarves` is an instance).
* If one identifier is listed twice with different weights, the order of the candidates matters. It is
  irrelevant for winner and pool exactly when equal identifiers have equal weights
  (`Scheduler.PickOrderIrrelevantIff`); `Scheduler.OrderChangesWinner` is an instance with another winner.
* `TokenBreakdown.Valid` adds with wrap-around and so accepts some breakdowns whose true sums do not
  add up; `usageBreakdown` never produces one (`Usage.ValidIsNotAlwaysExact`, `Usage.AlwaysExact`).
* Reference-price cache keys are model keys joined with a NUL character. Lookups are exact in every
  interleaving exactly when no two of the key lists asked for have the same join
  (`ReferencePrices.AlwaysExactIff`); keys without NUL characters are enough
  (`ReferencePrices.NulFreeIsAlwaysExact`), and `ReferencePrices.NulCharactersCollide` gives an instance.
* The target of a usage record is frozen against every later instant, but not against a publication at
  exactly its own start instant: from that instant on it moves exactly by such a publication
  (`GroupStates.TargetMovesIff`; `GroupStates.PublicationMovesTarget` is an instance).
* Amounts below zero, which the parser never returns, are printed in a form that it does not read back
  (`Money.ReadsBackIff`).

## Model

| member | source | states |
|---|---|---|
| Scheduler.SubsetScheduler.Pick | internal/plugin/scheduler.go:52-124 | one pick on the pool map: nothing or the only usable candidate without touching the pools, else the pick in int64 arithmetic, wrap-around included, which is a `PickStep` whenever its sums fit; other pools stay, except when a new pool overflows the per-key bound |
| Scheduler.SubsetScheduler.PickFrom | internal/plugin/scheduler.go:68-123 | sorting, refreshing, trimming, scoring and paying together are the wrapping pick over the sorted identifiers |
| Scheduler.SubsetScheduler.Usable | internal/plugin/scheduler.go:53-61 | the positive-weight candidates and the last weight of each identifier |
| Scheduler.SubsetScheduler.Refresh | internal/plugin/scheduler.go:88-108 | the stored weights take the offered ones, a changed weight zeroes the scores, and an overlong score map is cut to the offered set |
| Scheduler.SubsetScheduler.Keep | internal/plugin/scheduler.go:99-108 | the cut keeps exactly the offered scores and weights |
| Scheduler.SubsetScheduler.Score | internal/plugin/scheduler.go:109-123 | the scoring loop is the fold of its iterations over the identifiers, and the winner then pays the total, in wrapping int64 arithmetic |
| Scheduler.ExactPrefix | internal/plugin/scheduler.go:112-121 | while the sums of the pick fit int64, every prefix of the fold has the exact scores and total, and its best so far beats the rest |
| Scheduler.FoldIsAward | internal/plugin/scheduler.go:109-123 | then the finished fold is the award of a pick step |
| Scheduler.SortedIsUnique | internal/plugin/scheduler.go:68 | the identifiers have one sorted order |
| Scheduler.PickedIsDeterministic | internal/plugin/scheduler.go:52-124 | winner and next pool are functions of pool and candidates, wrap-around included |
| Scheduler.PickedIsPromised | internal/plugin/scheduler.go:52-124 | a pick chooses an offered candidate, and takes the pick step when its sums fit |
| Scheduler.PickMeans | internal/plugin/scheduler.go:52-124 | a pick whose sums fit int64, credential by credential: offered ones gain their weight per listing on top of their score, or of zero when a remembered weight changed; the highest wins, ties by identifier, and pays the total; the others stay, or are forgotten in a pool of more than 1024 |
| Scheduler.OneMorePool | internal/plugin/scheduler.go:77-87 | pools are dropped only by opening a new one beside 256 others of the scope, and a scope never has more |
| Scheduler.PickOrderIrrelevantIff | internal/plugin/scheduler.go:52-124 | every reordering of the candidates leads to the same winner and the same pool, whatever the pool was, exactly when equal identifiers carry equal weights |
| Scheduler.OrderChangesWinner | internal/plugin/scheduler.go:53-61 | an instance: one credential listed with weights 1 and 5 beside one of weight 3 wins or loses by which weight is listed last |
| Scheduler.ChoiceExists | internal/plugin/scheduler.go:52-124 | every pool and list of candidates has an outcome |
| Scheduler.SubsetScheduler.Prune | internal/plugin/scheduler.go:126-134 | exactly the listed scopes keep their pools, unchanged |
| Scheduler.SortById | internal/plugin/scheduler.go:68 | sorting is a permutation in identifier order |
| RoundRobin.PickIsDeterministic | internal/plugin/scheduler.go:109-123 | a pick step determines its winner and the next pool |
| RoundRobin.PickConserves | internal/plugin/scheduler.go:88-123 | a pick keeps the sum of scores, or starts it again at zero when a weight changed; only the trim of an overlong pool is excluded |
| RoundRobin.PickLeavesAbsentAlone | internal/plugin/scheduler.go:88-123 | a credential that is not offered keeps its score, unless a changed weight zeroes the pool or an overlong pool is trimmed |
| RoundRobin.ScoresSumToZero | internal/plugin/scheduler.go:52-124 | over any sequence of changing subsets the scores sum to zero |
| RoundRobin.GainsByCount | internal/plugin/scheduler.go:112-115 | a round's gain of an identifier is its weight times how often it is listed |
| RoundRobin.WeightInForceIff | internal/plugin/scheduler.go:30-40 | the weight in force is that of the last listing that counts: one for a blank attribute, else a decimal from 1 to the largest int64 |
| RoundRobin.ListingsCounted | internal/plugin/scheduler.go:53-61 | an identifier takes part once for every listing that counts |
| RoundRobin.OrderIrrelevantIff | internal/plugin/scheduler.go:53-68 | the weights in force and the gains of a round are the same for every reordering exactly when equal identifiers carry equal weights |
| Fairness.ClosedForm | internal/plugin/scheduler.go:112-122 | from zero, the score is rounds times weight minus total times wins |
| Fairness.TraceBalance | internal/plugin/scheduler.go:112-122 | the scores of a fixed set sum to zero throughout |
| Fairness.TraceFloor | internal/plugin/scheduler.go:112-122 | every score stays strictly above minus the total |
| Fairness.FullCycle | internal/plugin/scheduler.go:109-123 | T picks from zero choose everybody exactly as often as its weight and return every score to zero, exactly when nobody has the empty identifier |
| Fairness.Periodic | internal/plugin/scheduler.go:109-123 | the scores of a run repeat after T picks |
| Fairness.AnyWindowIsFair | internal/plugin/scheduler.go:109-123 | any T consecutive picks of a run choose everybody exactly as often as its weight, so nobody starves |
| Fairness.ScoresStayInRange | internal/plugin/scheduler.go:112-122 | scores lie in (-T, (n-1)(T-1)], and n*T within int64 makes every sum of every pick of the run exact |
| Fairness.TraceExists | internal/plugin/scheduler.go:109-123 | a set can be offered any number of times: histories of every length exist |
| Fairness.EmptyIdStarves | internal/plugin/scheduler.go:117 | two credentials of weight one, of which the one without an identifier is not chosen in a full cycle |
| Fairness.RealListsAreFair | internal/plugin/scheduler.go:52-124 | while lists of the same distinct credentials are offered, in whatever order and beside unusable ones, and n*T fits int64, any T consecutive picks are exactly fair |
| Fairness.RealCycleReturnsToZero | internal/plugin/scheduler.go:52-124 | and the first T of them return every score to zero |
| Usage.ExactIffValidAndFits | internal/billing/pricing.go:37-54 | the check equals exact consistency when the true sums fit int64 |
| Usage.ValidIsNotAlwaysExact | internal/billing/pricing.go:37-54 | a breakdown that passes the wrapping check although its true sums do not add up |
| Usage.CheckedTokenSum | internal/plugin/usage.go:246-255 | accepts exactly natural summands whose true sum fits int64, and returns that sum |
| Usage.SumsAreTotals | internal/plugin/usage.go:246-255 | the two- and three-term sums used in expressions are that loop's result |
| Usage.SubsetBreakdownIsExact | internal/plugin/usage.go:123-142 | the breakdown is exact for every input |
| Usage.SubsetBreakdownMeaning | internal/plugin/usage.go:123-142 | complete exactly when caches fit the input, reasoning fits the output and the reported total is absent or matches; then every part is the reported one |
| Usage.ProviderIndependentBreakdownIsExact | internal/plugin/usage.go:144-157 | the breakdown is exact for every input |
| Usage.ProviderIndependentBreakdownMeaning | internal/plugin/usage.go:144-157 | which of the two readings is taken, and what it keeps |
| Usage.SeparateReasoningBreakdownIsExact | internal/plugin/usage.go:173-188 | the breakdown is exact for every input |
| Usage.SeparateReasoningBreakdownMeaning | internal/plugin/usage.go:173-188 | complete exactly when caches fit the input and the reported total is absent or input plus output plus reasoning |
| UsageReadings.SubsetReading | internal/plugin/usage.go:33-142 | an OpenAI record, by its fields: exactly when it is complete and when unclassified, and what every bucket then holds |
| UsageReadings.IndependentReading | internal/plugin/usage.go:33-157 | the same of an Anthropic record, where the total decides whether reasoning is on top of the output or inside it |
| UsageReadings.SeparateReading | internal/plugin/usage.go:33-188 | the same of a Gemini record |
| UsageReadings.UnknownReading | internal/plugin/usage.go:33-91 | the same of a record of an unknown provider, of which only a number of tokens is ever known |
| UsageReadings.OtherReading | internal/plugin/usage.go:33-91 | a record without tokens is none; what fits no reading keeps its positive total and nothing else |
| UsageReadings.BilledIffComplete | internal/billing/pricing.go:56-58 | exactly the complete records are billed |
| Usage.AlwaysExact | internal/plugin/usage.go:33-91 | every record with some non-zero field gets an exact breakdown, and a positive reported total is never altered |
| Usage.AlwaysValid | internal/plugin/usage.go:33-91 | so it passes the engine's own check with no overflow |
| Usage.EveryTokenPricedOnce | internal/billing/pricing.go:160-199 | a billable breakdown's tokens fall in exactly one of four priced buckets whose sum is the total |
| Usage.CostOfTokens | internal/billing/pricing.go:98-206 | a record that is not billable costs nothing; else each bucket costs its tokens at its own rate, absent cache rates being the input rate, with the long-input rates for all of a request above their threshold |
| Money.RoundTrip | internal/billing/group_types.go:63-69 | what is printed for a natural amount spells that amount and is canonical |
| Money.ReadsBackIff | internal/billing/group_types.go:28-69 | what is printed for any int64 amount is read back as that amount, and exactly when it is not negative |
| Money.SpellsIsUnique | internal/billing/group_types.go:28-61 | a string spells at most one amount |
| Money.CanonicalIsPrinted | internal/billing/group_types.go:63-69 | a canonical string is what its amount prints as |
| Money.PrintCanonicalizes | internal/billing/group_types.go:28-69 | printing an accepted string yields its unique canonical form with the same value |
| Money.Split | internal/billing/group_types.go:32 | splitting at points |
| Money.ParseUSD | internal/billing/group_types.go:28-61 | accepts exactly the strings of the grammar whose value fits int64 nano-dollars, and returns that value |
| Quota.CorrectedRemainder | internal/billing/quota.go:99-112 | Go's remainder, corrected, is the Euclidean one |
| Quota.IntervalContainsNow | internal/billing/quota.go:99-112 | the interval contains the time and starts congruent to the anchor, also before the anchor |
| Quota.IntervalsPartition | internal/billing/quota.go:99-112 | two times share an interval exactly when one lies in the other's; otherwise their intervals are disjoint |
| Quota.SameScheduleIff | internal/billing/plan.go:113-120 | two valid anchored windows have the same schedule exactly when they produce the same interval at every time |
| Cycles.NewCycleIsValid | internal/billing/quota.go:99-112 | a new cycle passes the check that loading applies |
| Cycles.SameScheduleKeepsValid | internal/billing/plan.go:113-120 | a continued schedule keeps running cycles valid |
| Cycles.RetryAtIsLatest | internal/billing/quota.go:80-97 | the retry time is the latest end of the exhausted windows |
| Cycles.OpenedIs | internal/billing/quota.go:147-159 | activation opens a cycle exactly for windows without one and keeps the others |
| Cycles.KeyState.SettleExpired | internal/billing/quota.go:136-145 | exactly the expired cycles are dropped |
| Cycles.KeyState.View | internal/billing/quota.go:80-97 | blocked exactly when a window is exhausted, with the specified retry time |
| Cycles.KeyState.ActivateCycles | internal/billing/quota.go:147-159 | the cycles become those of `Activated`, reported as a change exactly when some were opened |
| Cycles.KeyState.ChargeCycles | internal/billing/quota.go:183-198 | the usage is added, saturating, to exactly the cycles it started in |
| Cycles.KeyState.Authorize | internal/billing/enforce.go:24-44 | settle, decide, open cycles only when admitted; for a loaded key in the terms of `AuthorizeMeans` |
| Cycles.AuthorizedKeepsValid | internal/billing/enforce.go:24-44 | authorisation keeps the load-time check |
| Cycles.ChargedKeepsValid | internal/billing/quota.go:183-205 | charging keeps the load-time check |
| Cycles.AuthorizeMeans | internal/billing/enforce.go:24-44 | exactly the running cycles that have used up a limit of their window deny an admission; the denial names the latest of their ends; only an admission opens cycles, empty ones, for the windows without a running one |
| Recovery.RefusedBeforeRetryAt | internal/billing/enforce.go:24-44 | after a denial, authorisation is denied at every time before the retry time, whatever usage arrives |
| Recovery.AdmittedFromRetryAt | internal/billing/enforce.go:24-44 | from the retry time on it is allowed at every time, if no usage arrives |
| Counters.TrackConsistent | internal/billing/quota.go:183-205 | one event keeps each cycle's counters the saturated sums of its life's reports |
| Counters.CountersAreExact | internal/billing/account.go:112-126 | over any run each live cycle counts exactly, saturating, the reports of its life that started in [max(start, since), end) |
| Counters.CountersFromFresh | internal/billing/account.go:112-126 | a key that starts without cycles counts exactly ever after |
| CounterRuns.StepIsEvent | internal/billing/account.go:112-126 | an operation of the plan state machine changes a key by the one event it means to it, and by nothing else |
| CounterRuns.EveryKeyCountsExactly | internal/billing/account.go:112-126 | so in every state it reaches each cycle has counted exactly the reports of its life that started inside it |
| Counters.ReplacementIgnoresOldUsage | internal/billing/quota.go:183-198 | usage that started before a reset, rebind or reschedule never reaches the replacement cycle |
| CounterRuns.ReplacementIgnoresOldUsage | internal/billing/quota.go:183-198 | the same over every run of the plan state machine: a report that started before the admissions since leaves the replacement cycle as it was |
| Plans.PreparedIsOrdered | internal/billing/plan.go:107-109 | prepared windows are ordered by period |
| Plans.OrderIsUnique | internal/billing/plan.go:107-109 | with distinct periods, as validation demands, there is one order, so how windows are sorted does not matter |
| Plans.PreparedAreGiven | internal/billing/plan.go:82-111 | the prepared windows are exactly the given ones, each prepared |
| Plans.PreparedKeepsAnchors | internal/billing/plan.go:99-101 | a prepared window that continues an existing schedule carries its anchor |
| Plans.PlanStore.PrepareWindows | internal/billing/plan.go:82-111 | new windows get identifiers, continued schedules keep their anchor, moved ones must start within a period, and the result is ordered by period |
| Plans.PreparedFails | internal/billing/plan.go:82-111 | one window that cannot be prepared makes the whole list fail |
| Plans.Validate | internal/billing/plan.go:35-80 | the loop with its seen maps accepts exactly the plans that fit, with every bound spelled out |
| Plans.PlanStore.CreatePlan | internal/billing/plan.go:149-190 | the new plan, under a free identifier when it has none, and its bindings take effect together or not at all |
| Plans.PlanStore.UpdatePlan | internal/billing/plan.go:201-280 | the edit and the new key set take effect together or not at all |
| Plans.PlanStore.MovedWindows | internal/billing/plan.go:242-251 | exactly the old windows whose schedule is not continued |
| Plans.PlanStore.TrimKeys | internal/billing/plan.go:253-265 | keys that are deselected lose the plan, the others lose the moved cycles |
| Plans.PlanStore.DeletePlan | internal/billing/plan.go:282-306 | the plan is removed and its keys are released |
| Plans.PlanStore.ResetQuota | internal/billing/keys.go:166-208 | exactly the chosen bound keys lose their cycles, or nothing changes |
| Plans.PlanStore.SyncKeys | internal/billing/keys.go:270-322 | a list in which no key has a scope is refused unless meant; else listed keys become live, vanished ones deleted, bindings and cycles stay |
| Plans.ApplyInv | internal/billing/quota.go:161-180 | every operation keeps every key valid for loading |
| Plans.Run | internal/billing/quota.go:161-180 | in every state reachable by authorise, usage, bind, unbind, reset, sync and plan create, update or delete, every key passes the load-time check |
| Plans.UpdateReplacesKeySet | internal/billing/plan.go:198-280 | an edit with a key list makes that list the plan's complete key set |
| Plans.UpdateKeepsContinuedCycles | internal/billing/plan.go:242-265 | a window with a continued schedule keeps its running cycle and counters, a moved one loses it |
| Plans.DeleteReleasesKeys | internal/billing/plan.go:282-306 | after a delete no key has the plan, and the other keys are untouched |
| PlanMeaning.SameResetsIff | internal/billing/plan.go:113-120 | a schedule is continued exactly when the periods are equal and the anchors whole periods apart |
| PlanMeaning.PreparedMeans | internal/billing/plan.go:82-106 | when one window of an edit is refused, and which of its fields are filled in otherwise |
| PlanMeaning.CreateMeans | internal/billing/plan.go:149-190 | exactly when a plan is created, and every key afterwards |
| PlanMeaning.UpdateMeans | internal/billing/plan.go:201-280 | exactly when an edit is accepted; then the plan alone is replaced, and each key keeps exactly the cycles of windows with the same resets, is released, is bound afresh or stays |
| PlanMeaning.NothingToUpdate | internal/billing/plan.go:201-280 | without the plan nothing is edited |
| PlanMeaning.DeleteMeans | internal/billing/plan.go:282-306 | exactly the plan goes and exactly its keys are released |
| PlanMeaning.ResetMeans | internal/billing/keys.go:166-208 | exactly when a reset is accepted, and which keys lose their cycles |
| PlanMeaning.SyncMeans | internal/billing/keys.go:283-320 | what a synchronisation makes of each key |
| PlanMeaning.BindMeans | internal/billing/keys.go:114-137 | exactly when a binding is accepted; it starts without cycles unless the key had the plan already |
| PlanMeaning.UnbindMeans | internal/billing/keys.go:139-164 | exactly live bound keys are released |
| PlanChanges.AnnouncementsCover | internal/billing/plan.go:188 | plan and key operations announce for saving at least what they change, and drop no key |
| GroupBindings.NextGroupDay | internal/billing/group_types.go:304-307 | the first instant of the next business day, strictly later |
| GroupBindings.DayIs | internal/billing/group_types.go:304-307 | a business day is the 24 hours from its midnight in UTC+8 |
| GroupBindings.FindBinding | internal/billing/group_types.go:320-327 | the first period that covers the instant, and whether it is grouped |
| GroupBindings.CoverIsUnique | internal/billing/group_types.go:320-327 | in a chain at most one period covers an instant, so the first is the only one |
| GroupBindings.Reschedule | internal/billing/group_config.go:282-295 | the loop keeps started periods, cuts the running one at the next midnight and appends the new one |
| GroupBindings.RescheduledChain | internal/billing/group_config.go:282-295 | the periods stay an ascending contiguous chain of day-aligned intervals, only the last open and at most one pending |
| GroupBindings.RescheduleIsExact | internal/billing/group_config.go:282-295 | the binding of every instant before the next midnight stays, and the new one holds at every instant from it on |
| GroupBindings.ChainBindingIsDaily | internal/billing/group_types.go:320-327 | a binding changes at business midnights only |
| GroupBindings.BindingStays | internal/billing/group_types.go:320-327 | without a pending period the binding in force stays in force |
| GroupBindings.BindingView | internal/billing/group_config.go:240-251 | the active period is the binding now, the pending one the last of the chain, starting at the next midnight |
| GroupModels.ModelOwner | internal/billing/group_types.go:328-344 | a search in arbitrary order finds an owner when there is one, and the only one when groups share no model |
| GroupModels.RequestModelOwner | internal/billing/group_types.go:348-353 | the exact model is preferred to the one without the request-option suffix |
| GroupModels.OwnerIsUnique | internal/billing/group_types.go:328-344 | the owner does not depend on map order |
| GroupModels.AnyOwned | internal/billing/group_config.go:149-153 | whether some model is owned already |
| GroupModels.CatalogueKept | internal/billing/group_config.go:65-163 | create, update, publish and archive keep published and archived groups free of shared models |
| GroupModels.OwnerIsFrozen | internal/billing/group_config.go:82-163 | the owner of any model at any instant before an operation never changes |
| GroupModels.OwnerNowChangesIff | internal/billing/group_config.go:149-156 | at the very instant it changes exactly by a publication of that model |
| GroupLedger.AddGroupCount | internal/billing/group_types.go:92-97 | natural summands whose sum fits int64 give that sum, everything else nothing |
| GroupLedger.ChargeMeans | internal/billing/group_account.go:169-213 | what one record adds to every field of a ledger, and when it is incomplete or in error |
| GroupLedger.CreditNeverOverflowsAlone | internal/billing/group_account.go:175-192 | the credit fits whenever the total does, so a cost is attributed exactly when the total fits |
| GroupLedger.RawIsAttributed | internal/billing/group_account.go:164-213 | in every run 0 <= credit <= raw <= MaxInt64 and raw is the sum of the attributed costs |
| GroupLedger.UsedSinceReset | internal/billing/group_account.go:179-185 | raw minus credit is the cost of the records that arrived since the last reset and started at its cutoff or later |
| GroupLedger.UsedWithoutReset | internal/billing/group_account.go:179-185 | in a ledger never reset everything attributed counts, and nothing is forgiven |
| GroupLedger.ErrorIffLost | internal/billing/group_account.go:169-192 | the accounting error is set exactly when a record's cost was lost |
| GroupLedger.ErrorIsSticky | internal/billing/group_account.go:169-192 | once set it stays |
| GroupLedger.CompleteIff | internal/billing/group_account.go:193-213 | a ledger shows no incomplete record exactly when every record had a price and all totals fit int64; then cost, tokens and requests are the true totals |
| GroupLedger.DenialLasts | internal/billing/group_account.go:63-70 | once the day denies, no usage makes it admit again |
| GroupLedger.ResetAdmits | internal/billing/group_config.go:333-337 | after a reset the day admits under every positive limit exactly when it has no accounting error |
| GroupStates.ApplyInv | internal/billing/group_config.go:65-341 | chains, exclusive ownership, sound plans and bounded ledgers survive every operation |
| GroupStates.RunInv | internal/billing/group_config.go:65-341 | so they hold in every state reached under a clock that never goes back |
| GroupStates.TargetIsFrozen | internal/billing/group_account.go:136-164 | an operation later than a start time does not move the record's target |
| GroupStates.DelayedUsageLandsTheSame | internal/billing/group_account.go:136-164 | the target is a function of scope, model and start time only, over any operations later than the start |
| GroupStates.TargetNowChangesIff | internal/billing/group_config.go:149-156 | exactly which publication at the very start instant moves the target |
| GroupStates.TargetMovesIff | internal/billing/group_account.go:136-164 | over whole runs and for every instant, past or to come: from the state in which the clock reaches it the target moves exactly when an operation made at that very instant publishes an owner or a better one |
| GroupStates.PublicationMovesTarget | internal/billing/group_config.go:149-156 | an instance: a sound state, a grouped key and a publication that moves the target from unclassified to a ledger |
| GroupDays.StepIsEvent | internal/billing/group_account.go:164-213 | a step changes a ledger by the one event it means to it, and by nothing else |
| GroupDays.LedgersAreExact | internal/billing/group_account.go:164-213 | every ledger of every run of the whole state machine is exact for the events of its scope, group and day |
| GroupDays.AnnouncementsCover | internal/billing/group_account.go:151-214 | grouped operations announce for saving all they change |
| GroupGate.ErrorDeniesForGood | internal/billing/group_account.go:63-66 | an accounting error denies admission to that day's ledger, however the run continues |
| GroupGate.RefusedBeforeMidnight | internal/billing/group_account.go:67-70 | before the hinted instant the request is refused, whatever usage arrives |
| GroupGate.AdmittedFromMidnight | internal/billing/group_account.go:67-70 | from it on, unless another binding is pending, and whatever usage and resets came in between, it is admitted exactly when the ledger of the day it comes in does not refuse it, so always when nothing was charged there |
| GroupMeaning.RequestOwnerIff | internal/billing/group_types.go:328-353 | the group of a request is the published one that has its model, or without one the one that has the model without its suffix |
| GroupMeaning.AccountMeans | internal/billing/group_account.go:136-216 | a record of a key that no grouped period covers does nothing; else it is charged to the ledger of its key, its model's group and its day, or counted as unclassified |
| GroupMeaning.GateMeans | internal/billing/group_account.go:25-70 | the answer to a request, by covering periods, owning groups and first policies: each refusal with its code, and who is let through under which limit |
| GroupMeaning.ResetMeans | internal/billing/group_config.go:312-331 | exactly who can be reset |
| GroupMeaning.CreateGroupMeans | internal/billing/group_config.go:65-81 | exactly when a group is created, and all its fields |
| GroupMeaning.UpdateGroupMeans | internal/billing/group_config.go:82-123 | exactly when a patch is accepted, and which field takes which value |
| GroupMeaning.PublishGroupMeans | internal/billing/group_config.go:124-163 | exactly when a group is published or archived, and what changes |
| GroupMeaning.StaleEditsFail | internal/billing/group_config.go:82-163 | an edit made for another revision changes nothing |
| GroupMeaning.SavePlanMeans | internal/billing/group_config.go:181-239 | exactly when a plan is saved, with the bounds of its policies, and what is stored |
| GroupMeaning.ScheduleAccepted | internal/billing/group_config.go:261-281 | exactly when a schedule is accepted; other keys and everything else stay |
| GroupMeaning.ScheduleMeans | internal/billing/group_config.go:282-300 | mode and plan of the key stay at every instant before the next business midnight and are the scheduled ones at every instant from it on |
| GroupTexts.CheckText | internal/billing/group_types.go:309-319 | accepts exactly the texts that are not blank unless they may be, not too long and without control characters |
| GroupTexts.TrimmedTwice | internal/billing/group_config.go:21-25 | trimming is idempotent, so a stored name passes again unchanged, and leaves nothing exactly of blank texts |
| GroupStore.CheckPolicies | internal/billing/group_config.go:181-203 | accepts exactly non-empty lists of distinct published groups with limits in range |
| GroupStore.FindPolicy | internal/billing/group_types.go:354-361 | the first policy of the group |
| GroupStore.ChargeDay | internal/billing/group_account.go:169-210 | the branches of charging, in order, are the specified charge |
| GroupStore.Normalize | internal/billing/group_config.go:21-25 | the trimmed name and the description, unless the texts or the pool are refused |
| GroupStore.EditGroup | internal/billing/group_config.go:94-118 | the patched group, unless the patch is refused |
| GroupStore.GroupedBilling.CreateResourceGroup | internal/billing/group_config.go:65-81 | a draft with a valid name, description, pool and models is added |
| GroupStore.GroupedBilling.UpdateResourceGroup | internal/billing/group_config.go:82-123 | with a reason and the expected revision the given parts change, models in drafts only, when the result is valid |
| GroupStore.GroupedBilling.PublishResourceGroup | internal/billing/group_config.go:124-163 | with a reason and the expected revision a draft is published when none of its models is owned, a published group archived |
| GroupStore.GroupedBilling.SaveGroupPlan | internal/billing/group_config.go:204-239 | a plan with a valid name and policies is created, or with a reason replaced under the expected revision |
| GroupStore.GroupedBilling.ScheduleGroupBinding | internal/billing/group_config.go:261-300 | with a reason and under the expected revision the periods become the rescheduled ones |
| GroupStore.GroupedBilling.ResetGroupDay | internal/billing/group_config.go:307-341 | with a reason today's credit becomes its total and the cutoff now |
| GroupStore.GroupedBilling.AccountGroupUsage | internal/billing/group_account.go:136-216 | grouped exactly when a grouped period covers the record, with the effect of `AccountMeans` |
| GroupStore.GroupedBilling.Admit | internal/billing/group_account.go:25-70 | the decision before the slot, with its refusal code and retry time, in the terms of `GateMeans` |
| Slots.AcquiredCounted | internal/billing/concurrency.go:58-59 | an acquisition keeps counters equal to holders |
| Slots.ReleasedCounted | internal/billing/concurrency.go:74-84 | a release keeps them equal, and absent at zero |
| Slots.ReleaseUndoesAcquire | internal/billing/concurrency.go:67-85 | giving a slot back restores the table exactly |
| Slots.CountersAddUp | internal/billing/concurrency.go:21-85 | the counters of a table sum to the number of slots held |
| Slots.AfterOk | internal/billing/concurrency.go:21-85 | every operation keeps both tables counted and disjoint |
| Slots.RunOk | internal/billing/concurrency.go:21-85 | in every reachable state counters equal holders and no request is in both tables |
| Slots.AcquisitionRespectsLimit | internal/billing/concurrency.go:53-62 | a new acquisition leaves the count within the limit in force, however limits changed |
| Slots.RefusedExactlyWhenFull | internal/billing/group_account.go:86-90 | a request without a slot is refused by concurrency exactly when the limit is reached |
| Slots.KeyAnswerIff | internal/billing/concurrency.go:21-63 | exactly who passes a key's concurrency and who takes a slot, by counting holders, and who holds what afterwards |
| Slots.GroupAnswerIff | internal/billing/group_account.go:71-96 | the same of a group's concurrency |
| Slots.CountersAreUnique | internal/billing/concurrency.go:21-85 | who holds what determines the counters |
| Slots.DuplicatesAreHarmless | internal/billing/concurrency.go:46-52 | repeating an admission or a release changes nothing and is answered accordingly |
| Slots.SlotStore.AcquireSlot | internal/billing/concurrency.go:21-63 | the reservation and its answer, with every refusal, by counting holders |
| Slots.SlotStore.AcquireGroupSlot | internal/billing/group_account.go:71-96 | the group's reservation and its answer, by counting holders |
| Slots.SlotStore.ReleaseSlot | internal/billing/concurrency.go:67-85 | afterwards the request holds nothing; true exactly when it held a slot |
| Slots.SlotStore.ReleaseGroupSlot | internal/billing/group_account.go:98-111 | the group slot is given back |
| Admission.BeganOk | internal/plugin/intercept.go:25-39 | beginning a call keeps records counting the calls that share them |
| Admission.EndedOk | internal/plugin/intercept.go:41-51 | ending one does too, and the last one removes the record |
| Admission.CommitMeans | internal/plugin/intercept.go:106-146 | a call is admitted exactly when its request is not over, the gate does not refuse, an old-mode call is authorized by its quota, and a generation has its slot or finds room; then exactly it holds its slot, else nothing changes |
| Admission.RefusalLeavesNoTrace | internal/plugin/intercept.go:108-146 | a refused admission leaves the slots exactly as they were, rollback included |
| Admission.AdmissionHoldsSlot | internal/plugin/intercept.go:108-146 | an admitted generation holds a slot |
| Admission.StepKeepsOver | internal/plugin/intercept.go:106-146 | only a new admission that finds no call in flight can undo a completion |
| Admission.RunInv | internal/plugin/intercept.go:25-51 | in every interleaving a record's `calls` equals the in-flight calls sharing it |
| Admission.CompletedRequestHoldsNothing | internal/plugin/intercept.go:163-180 | after a completion with no later begin the request holds no slot, in every interleaving with its calls still in flight |
| Admission.NothingLeaks | internal/plugin/intercept.go:41-51 | without calls in flight no record is registered |
| Admission.App.BeginAdmission | internal/plugin/intercept.go:25-39 | the call shares the registered record or a new one |
| Admission.App.EndAdmission | internal/plugin/intercept.go:41-51 | the record loses the call and is removed at zero |
| Admission.App.CommitAdmission | internal/plugin/intercept.go:106-146 | the answer and the slots of the final section, as `CommitMeans` says |
| Admission.App.CommitOldMode | internal/plugin/intercept.go:119-145 | keys in the old mode: admitted exactly with the quota's authorization and, for a generation, its slot; a refusal gives the slot back |
| Admission.App.CompleteRequest | internal/plugin/intercept.go:163-180 | the request is over: no slot, and calls in flight will be refused |
| Pending.DistinctKeepsMembers | internal/billing/repository.go:91-103 | removing duplicates keeps the members, once each, in the order of their first appearance |
| Pending.MergeNames | internal/billing/repository.go:80-103 | the loop with a seen map removes duplicates |
| Pending.Merge | internal/billing/repository.go:54-89 | the merge is the specified one |
| Pending.MergedIsUnion | internal/billing/repository.go:54-113 | the merge announces a part exactly when one side did, and queues exactly the newest thousand events of both |
| Pending.MergedEmptyIff | internal/billing/repository.go:49-52 | it is empty exactly when both sides are |
| Persistence.CoveredSaveEquals | internal/billing/store.go:190-195 | saving a covering change set makes disk equal memory |
| Persistence.MergeCovers | internal/billing/store.go:190 | merged changes cover the difference to disk when each side covered its own |
| Persistence.StepInv | internal/billing/store.go:176-273 | every step keeps coverage, queues and disk order |
| Persistence.MemoryAfter | internal/billing/store.go:174-273 | an update is in memory at once, saved or not; an edit exactly when it is accepted and needs no failing save |
| Persistence.DiskAfter | internal/billing/store.go:174-273 | a successful save writes all of memory and the newest thousand pending events; otherwise the disk stays |
| Persistence.MemoryIsReplay | internal/billing/store.go:174-273 | over any run memory is the fold of every update and of exactly the edits that took effect |
| Persistence.EveryEventIsStored | internal/billing/store.go:174-209 | while at most a thousand events are pending at a time, every event up to the last save is on disk, in order |
| Persistence.DiskIsAnEarlierMemory | internal/billing/store.go:174-273 | what a crash finds is memory as it was at some earlier moment of the run |
| Persistence.OneSaveIsEnough | internal/billing/store.go:176-273 | a step whose save succeeds leaves memory and disk equal |
| Persistence.DiskIsOldOrNew | internal/billing/store.go:176-273 | after a step the disk holds what it held, or what memory holds: never a mixture |
| Persistence.FailedEditChangesNothing | internal/billing/store.go:211-273 | a failed edit changes memory, disk and pending changes not at all |
| Persistence.NothingIsForgotten | internal/billing/store.go:174-273 | over any run of steps that announce what they change, with failing saves, differences are pending, queues are the newest thousand unsaved events, no event is on disk twice and no audit is lost |
| Persistence.Store.UpdateResult | internal/billing/store.go:176-209 | memory is the updated one whether or not the save succeeds; the save clears or grows the pending changes |
| Persistence.Store.EditConfiguration | internal/billing/store.go:213-273 | the edit takes effect exactly when it is accepted and saved, or has nothing to save; else everything is as it was |
| Persistence.Store.RetryPending | internal/billing/group_account.go:40-47 | pending changes reach the disk before new spending, or spending is refused |
| Engine.NextIsCovered | internal/billing/account.go:109-135 | every operation of the engine announces all it changes, and drops no key and no ledger |
| Engine.NextIsSound | internal/billing/quota.go:161-180 | every operation keeps keys valid for loading and grouped billing well formed |
| Engine.RecordGoesOneWay | internal/billing/account.go:109-126 | a usage record goes to the grouped ledgers when its key was grouped, else to the key's quota, and never to both |
| Engine.NextDoes | internal/billing/store.go:176-273 | every other operation does its own part of the work and leaves the other parts as they are |
| Engine.SettingsDo | internal/billing/store.go:213-273 | an edit of an opaque part sets exactly that part |
| Engine.CallIsLegal | internal/billing/store.go:176-273 | so every call is a step whose announcement need not be supposed |
| Engine.DiskStaysSound | internal/billing/store.go:98-107 | whatever saves fail, memory and disk both pass the cycle, window and grouped checks after every call |
| Engine.NothingIsLost | internal/billing/store.go:174-273 | over any run of the engine with failing saves: memory and disk are sound, differences are pending, queues are the newest thousand unsaved events, no event is on disk twice and no audit is lost |
| Engine.MemoryIsReplay | internal/billing/store.go:174-273 | memory is the fold of every call that took effect, whatever saves failed |
| Engine.FreshEngine | internal/billing/store.go:50-65 | a new database satisfies all of it |
| PriceMatching.KeyIsLastSegment | internal/billing/reference_prices.go:439-445 | a model key is what follows the last slash |
| PriceMatching.MatchIff | internal/billing/reference_prices.go:454-483 | a key is priced exactly when it has entries and the deciding ones have one common rate |
| PriceMatching.KeyPriceIff | internal/billing/reference_prices.go:454-483 | a key has the price of the first entry that has a say, exactly when all entries that have a say have one rate |
| PriceMatching.LookupIff | internal/billing/reference_prices.go:135-161 | a lookup finds a price exactly when the first of its keys that any entry is of has it; later keys never make up for a conflict |
| PriceMatching.MatchReferencePriceKey | internal/billing/reference_prices.go:454-483 | the two loops compute that match |
| PriceMatching.MatchReferencePriceKeys | internal/billing/reference_prices.go:152-161 | the first key with any entry decides, in the terms of `LookupIff` |
| PriceMatching.PriceKeys | internal/billing/reference_prices.go:137-150 | exactly the non-empty keys of the upstream model and of the requested one unless that is "auto", once each, the upstream one first |
| PriceMatching.ReferencePriceKeys | internal/billing/reference_prices.go:137-150 | the loop over the two models computes them |
| PriceMatching.CandidatesSufficeForAll | internal/billing/reference_prices.go:194-198 | matching among the queried candidates is matching in the whole catalogue |
| PriceMatching.LookupModels | internal/billing/reference_prices.go:392-435 | every model gets the price its key has in the whole catalogue, or none, in batches |
| PriceCache.TouchedOk | internal/billing/reference_prices.go:170-171 | a hit keeps map and recency list in bijection |
| PriceCache.InsertedOk | internal/billing/reference_prices.go:201-209 | an insertion keeps the bijection and at most 1024 entries |
| PriceCache.InsertedEntries | internal/billing/reference_prices.go:201-209 | the new entry is found, the others stay, and only the least recently used one may go |
| PriceCache.NulFreeJoinsDiffer | internal/billing/reference_prices.go:167-168 | key lists without NUL characters never share an entry |
| PriceCache.SharedEntriesDifferFirst | internal/billing/reference_prices.go:167-168 | lists that share an entry differ in their first key |
| ReferencePrices.BackoffGrows | internal/billing/reference_prices.go:265-266 | the retry delay grows with failures, from a minute to an hour |
| ReferencePrices.BackoffDoubles | internal/billing/reference_prices.go:265-266 | it is a minute, doubled with every further failure, up to an hour |
| ReferencePrices.SuccessPaces | internal/billing/reference_prices.go:218-257 | after a success nobody refreshes on their own for a day, or an hour when a price is missing |
| ReferencePrices.FailurePaces | internal/billing/reference_prices.go:261-285 | after a failure the catalogue stays and nobody tries on their own before the delay is over |
| ReferencePrices.ExactIffTells | internal/billing/reference_prices.go:163-216 | an exact answer is the one `LookupIff` describes, in the catalogue of its version |
| ReferencePrices.StepInv | internal/billing/reference_prices.go:163-351 | every step keeps cache, versions, readers and download numbers consistent |
| ReferencePrices.RunInv | internal/billing/reference_prices.go:163-351 | in every interleaving, with no sequence number starting two downloads |
| ReferencePrices.HistoryIsStable | internal/billing/reference_prices.go:323-328 | a version names one catalogue for good |
| ReferencePrices.AnswerIsExact | internal/billing/reference_prices.go:163-216 | an answer is the match in the catalogue of the version it names |
| ReferencePrices.LookupsAreExact | internal/billing/reference_prices.go:163-216 | so are all answers of every interleaving, when key lists have distinct joins |
| ReferencePrices.AlwaysExactIff | internal/billing/reference_prices.go:167-168 | and exactly then |
| ReferencePrices.NulFreeIsAlwaysExact | internal/billing/reference_prices.go:167-168 | keys without NUL characters are enough |
| ReferencePrices.NulFreeModelsAreAlwaysExact | internal/billing/reference_prices.go:163-216 | lookups for model names without NUL characters are exact in every interleaving with refreshes |
| ReferencePrices.NulCharactersCollide | internal/billing/reference_prices.go:167-168 | two lists, one with a NUL character, for which they are not |
| ReferencePrices.ReferencePriceManager.TryHit | internal/billing/reference_prices.go:169-182 | a hit is the step that answers and moves its element to the front; a miss changes nothing |
| ReferencePrices.ReferencePriceManager.CheckUsable | internal/billing/reference_prices.go:188-193 | without a usable catalogue the lookup ends with no match |
| ReferencePrices.ReferencePriceManager.LeaveRead | internal/billing/reference_prices.go:194-197 | a failed query releases the storage lock and changes nothing else |
| ReferencePrices.ReferencePriceManager.QueryCandidates | internal/billing/reference_prices.go:194-198 | the match among the queried candidates |
| ReferencePrices.ReferencePriceManager.CacheMatch | internal/billing/reference_prices.go:199-215 | the match is inserted, evicting at most the least recently used, and answers |
| ReferencePrices.ReferencePriceManager.BeginRefresh | internal/billing/reference_prices.go:232-257 | exactly one caller per sequence number starts a download, when it is forced or due and no delay is running |
| ReferencePrices.ReferencePriceManager.WriteCatalogue | internal/billing/reference_prices.go:313-342 | new content is written under the next version, the same content keeps its version |
| ReferencePrices.ReferencePriceManager.PublishCatalogue | internal/billing/reference_prices.go:343-349 | new content empties the cache together with publishing its version |
| ReferencePrices.ReferencePriceManager.FinishRefresh | internal/billing/reference_prices.go:279-285 | the next sequence number begins |
| ReferencePrices.ReferencePriceManager.FailRefresh | internal/billing/reference_prices.go:261-285 | the previous metadata with one more failure and its retry time |
| ReferencePrices.ReferencePriceManager.Lookup | internal/billing/reference_prices.go:163-216 | an uninterrupted lookup in any reachable state tells the price the version's catalogue has for the first key with an entry, or none; one whose query fails leaves no trace |

## Left out

- Usage.AlwaysExact: the classification of provider and executor names into token semantics is an input; the statement holds for each of the four.
- Persistence.NothingIsForgotten: supposes that each step announces what it changes; `Engine.NextIsCovered` proves that of every operation, and `Engine.NothingIsLost` needs no such supposition.
- Plans.PlanStore.SyncKeys: the hash from keys to scopes is a function it takes as given, and what a key shows of itself is an opaque setting of `Engine`.
- Engine.DiskStaysSound: loading also refuses keys without a preview and unusable route bindings; previews and bindings are opaque here.
- The SQL of the repository; a save is one step that succeeds or fails. The deletion of events older than the retention cutoff is not modelled.
- Switching and closing databases, which drop pending changes and slots by design; all claims are for one open database.
- The attribution and cost breakdown written into usage events, and how a record's cost and token count become the usage a quota counts; that usage is an input.
- Floating-point rounding: window amounts, prices and costs are reals, and a record's nano-dollar amount is an input of the ledger.
- The counter of incomplete records, group and plan revisions, catalogue versions and failure counts are unbounded integers.
- Time zones: the business day is a fixed UTC+8 day, which is what the configured zone has been since 1991; times before 1970 are outside the cycle theorems.
- The name of a quota plan, which is not checked and defaults to the identifier. The lower-case form of a window's name is given with it, and normalising a credential pool is an input of the group operations.
- Audits' texts, labels, route rules and the blocked-key log memory; the engine stores those that are persisted as opaque settings.
- Plan edits are modelled on values: the engine edits a clone that becomes the state only when saved, and the cloning and aliasing are not modelled. Admission records are modelled by explicit references.
- The ledger's string keys are triples, and the slot counters' string keys pairs.
- Downloading, parsing and hashing the price catalogue; a download is an arbitrary result. Waiting for a running refresh, timeouts and the closed flag of the price manager.
- HTTP handlers, refusal bodies, request parsing, routing allow and deny lists, and price resolution order.
