# Catalyst decision-context engine in Dafny

This project models the core of Catalyst's decision-context engine and proves properties of the model.

**The layered context record.** A Context v1 record holds:
- a version in `meta`;
- an immutable `baseline`;
- an ordered list of `overrides`;
- a cached `effective` view;
- an append-only `history`.

`apply_override` and `remove_override` work on a copy of the record. Each one bumps the version, logs one history entry, and recomputes `effective`. The recomputation folds a recursive dict merge over the overrides in list order: a dict merged into a dict recurses key by key, and anything else replaces the old value.

There are two variants of the record:
- `catalyst/context_manager_v1.py`, modules `ContextStore` and `Overrides`;
- `catalyst_experimental/context_manager_v1.py`, module `SelfHealingContext`. This variant first repairs a record that lacks keys.

**The scenario layer** sits on the store:
- a read-only registry of three scenarios (`ScenarioRegistry`);
- the application boundary, which keeps at most one scenario override active by clearing before applying (`ScenarioBoundary`). It drives a stateful context-manager object, modelled as the class `ScenarioBoundary.ContextManager`;
- a payload-to-override adapter (`ScenarioAdapter`);
- a non-mutating what-if simulator that uses the same merge (`ScenarioSimulation`);
- a reader that reports the active scenario (`ScenarioStateReader`).

**The decision rules** built on top:
- the KPI delta engine (`KpiDelta`);
- the greedy action-portfolio optimiser (`ActionPortfolio`);
- the wizard's profile validator (`ProfileValidation`);
- threshold precedence (`KpiThresholds`);
- narrative template selection (`DriverInterpreter`);
- the traffic-light classifier (`KpiStatus`);
- two classifiers of the TypeScript UI: motion state (`MotionState`) and ROI band (`RoiBand`).

**Shared definitions.**
- Values are JSON-like: module `Values`, where a dict is a `map<string, Value>`.
- The merge is module `DictMerge`.
- Python's runtime errors on the paths the source does not guard are modelled as `Err(KeyError(..))`, `Err(TypeError)` and `Err(ZeroDivisionError)`.

**The aliasing defect.** `AliasingFinding` models the store with Python's object sharing made visible. It exhibits the defect described under Findings.

**How the code is modelled.**
- Loops of the source are methods with loop invariants, each proved equal to a specification function:
  - `DictMerge.ApplyChanges`, `Overrides.FoldOverrides`, `KpiDelta.ComputeKpiDeltas`;
  - `ActionPortfolio.EnrichActions` and `ActionPortfolio.SelectActions`;
  - `ProfileValidation.ValidateClientProfile`;
  - the boundary's `ClearScenario` and `ApplyScenario`.
- The context managers deep-copy, then mutate the copy and return it. They are modelled as functions from the old record to the new one, with no sharing between overrides and the effective view. This is the intended behaviour; the source's merge does share nested dicts, which `AliasingFinding` models (see Findings and Left out).
- Generated ids and timestamps are parameters.

## Model

| member | source | states |
|---|---|---|
| DictMerge.ApplyChanges | catalyst/context_manager_v1.py:154-163 | the result's keys are the union of the target's and the patch's; keys the patch does not name keep the target's value; a dict merged into a dict recurses; anything else replaces; the loop computes `Merge` |
| DictMerge.MergeSelf | catalyst/context_manager_v1.py:154-163 | merging a dict into itself changes nothing |
| DictMerge.MergeIdempotent | catalyst/context_manager_v1.py:154-163 | merging the same patch twice equals merging it once |
| DictMerge.MergeLeafWins | catalyst/context_manager_v1.py:161-163 | a non-dict value that the patch puts at a path is what the merged dict holds there |
| DictMerge.MergeKeepsUntouched | catalyst/context_manager_v1.py:159-163 | a place the patch does not reach keeps the target's value |
| DictMerge.UntouchedLookupNone | catalyst/context_manager_v1.py:159-163 | a patch that stops short of a path holds nothing there |
| Overrides.FoldOverrides | catalyst/context_manager_v1.py:137-147 | the loop starts from the baseline and merges each override's changes in list order; with no overrides the result is the baseline |
| Overrides.ResolveAppend | catalyst/context_manager_v1.py:144-145 | resolving one more override merges its changes into the previous view |
| Overrides.LaterOverrideWins | catalyst/context_manager_v1.py:142-147 | a leaf set by override i is what the view shows when no later override touches that place |
| Overrides.ResolveKeepsBaseline | catalyst/context_manager_v1.py:142-147 | a place no override touches shows the baseline's value |
| Overrides.RepeatedOverrideIsHarmless | catalyst/context_manager_v1.py:142-147 | applying the same override twice in a row resolves like applying it once |
| Overrides.WithoutId | catalyst/context_manager_v1.py:115-117 | keeps exactly the overrides with another id, in order (a subsequence); with no match the list is unchanged |
| Overrides.WithoutIdAppend | catalyst/context_manager_v1.py:115-117 | filtering an id drops an appended override with that id and filters the earlier ones alike |
| ContextStore.CreateContext | catalyst/context_manager_v1.py:14-47 | version 1, the given client and source, empty overrides, effective equal to the baseline, and one `create_context` history entry by the source |
| ContextStore.OverrideEntry | catalyst/context_manager_v1.py:75-82 | the id defaults to a fresh one, the label to "" and expires to true; a missing `type`, `applies_to` or `changes` is a KeyError, and `type` is checked first |
| ContextStore.ApplyOverride | catalyst/context_manager_v1.py:63-98 | fails exactly when the entry does; otherwise the entry is appended, only the version changes in meta (+1), the baseline is unchanged, one history entry is logged, and effective is the resolution of the new list |
| ContextStore.RemoveOverride | catalyst/context_manager_v1.py:103-132 | drops every override with the id and keeps the others in order; the version goes up by 1 even when nothing matched; one history entry; the baseline is unchanged; effective is resolved again |
| ContextStore.ResolveEffectiveContext | catalyst/context_manager_v1.py:137-147 | the view equals `Resolve(baseline, overrides)`; with no overrides it is the baseline |
| ContextStore.ApplyThenRemoveRestores | catalyst/context_manager_v1.py:84-130 | applying an override with a new id and then removing it gives back the overrides and the effective view; the version is up by 2 and the history by 2 |
| SelfHealingContext.EnsureContextInvariants | catalyst_experimental/context_manager_v1.py:19-45 | fills in the missing meta, `meta.version` = 1, overrides = [] and history = []; never alters fields already present; seeds effective from the baseline only when effective is absent and the baseline present |
| SelfHealingContext.EnsureContextInvariantsIdempotent | catalyst_experimental/context_manager_v1.py:19-45 | repairing twice is repairing once; a complete record is left unchanged |
| SelfHealingContext.CreateContext | catalyst_experimental/context_manager_v1.py:52-85 | a complete record at version 1 whose meta holds exactly the given `context_id`, `client_id`, `created_at` and `source`, with no overrides, the baseline as effective view and one `create_context` history entry by the source; the repair leaves it unchanged |
| SelfHealingContext.Resolved | catalyst_experimental/context_manager_v1.py:187-199 | a KeyError exactly when the baseline is missing; otherwise the resolution of the repaired overrides |
| SelfHealingContext.ResolveEffectiveContext | catalyst_experimental/context_manager_v1.py:187-199 | repairs the record it is given and folds the overrides over the baseline |
| SelfHealingContext.OverrideEntry | catalyst_experimental/context_manager_v1.py:120-128 | `id`, `type`, `applies_to` and `changes` are required, checked in that order, each missing one a KeyError naming it; on success the entry carries the request's id, type, `applies_to` and changes, the label or "" when absent, the actor and the instant |
| SelfHealingContext.ApplyOverride | catalyst_experimental/context_manager_v1.py:108-144 | errors exactly as the entry or a missing baseline dictate; otherwise the entry is appended to the repaired list, version +1, other meta kept, one history entry naming the id, effective resolved |
| SelfHealingContext.RemoveOverride | catalyst_experimental/context_manager_v1.py:151-180 | a KeyError exactly when the baseline is missing; otherwise every override with the id is filtered out, version +1, one history entry, effective resolved from the baseline, and the other meta fields kept |
| SelfHealingContext.ApplyThenRemoveRestores | catalyst_experimental/context_manager_v1.py:130-178 | applying a new id and removing it gives back the repaired overrides and their resolution, with the version up by 2 |
| ScenarioRegistry.RegistryWellFormed | catalyst/scenario_v09.py:25-70 | every entry's id equals its key and its override payload is non-empty |
| ScenarioRegistry.ListScenarios | catalyst/scenario_v09.py:77-81 | the whole registry, with exactly its three ids, well formed |
| ScenarioRegistry.GetScenarioDefinition | catalyst/scenario_v09.py:84-89 | an entry exactly for a registered id, and then it is that id's registry entry (carrying the id and a non-empty payload); None otherwise |
| ScenarioRegistry.GetScenarioOverrides | catalyst/scenario_v09.py:92-100 | `{}` for an unknown id; for a registered one exactly that entry's payload, which is non-empty |
| ScenarioRegistry.OverridesAgreeWithDefinition | catalyst/scenario_v09.py:84-100 | the payload accessor returns the definition's overrides, or `{}` when there is no definition |
| ScenarioBoundary.OfKind | catalyst/scenario_application_boundary_v1.py:64 | exactly the overrides of the kind, as a subsequence of the list |
| ScenarioBoundary.NotOfKind | catalyst/scenario_application_boundary_v1.py:64-70 | exactly the overrides of every other kind, as a subsequence of the list |
| ScenarioBoundary.WithoutIds | catalyst/scenario_application_boundary_v1.py:66-70 | exactly the overrides whose id is none of the ids, in order |
| ScenarioBoundary.WithoutIdThenIds | catalyst/scenario_application_boundary_v1.py:66-70 | removing one id and then a list of ids removes all of them |
| ScenarioBoundary.WithoutIdsIsNotOfKind | catalyst/scenario_application_boundary_v1.py:64-70 | removing exactly the ids of one kind leaves the overrides of the other kinds |
| ScenarioBoundary.RemoveEachOverrides | catalyst/scenario_application_boundary_v1.py:66-70 | one `remove_override` per id, in order, removes every override carrying one of the ids |
| ScenarioBoundary.RemoveEachLog | catalyst/scenario_application_boundary_v1.py:66-70 | each removal is its own mutation: version +1 and one history entry per call, in call order |
| ScenarioBoundary.RemoveEachConsistent | catalyst/scenario_application_boundary_v1.py:66-70 | after at least one removal the effective view is the resolution of the overrides |
| ScenarioBoundary.ContextManager.constructor | catalyst/scenario_application_boundary_v1.py:24-28 | the manager holds the given record |
| ScenarioBoundary.ContextManager.ListOverrides | catalyst/scenario_application_boundary_v1.py:64 | exactly the overrides of the requested type, in order |
| ScenarioBoundary.ContextManager.ApplyOverride | catalyst/scenario_application_boundary_v1.py:48-53 | the held record becomes the one `apply_override` of the store returns |
| ScenarioBoundary.ContextManager.RemoveOverride | catalyst/scenario_application_boundary_v1.py:67-70 | the held record becomes the one `remove_override` of the store returns |
| ScenarioBoundary.ClearScenario | catalyst/scenario_application_boundary_v1.py:56-70 | lists the scenario overrides once, then removes each by id; the record becomes `AfterClear` |
| ScenarioBoundary.ApplyScenario | catalyst/scenario_application_boundary_v1.py:24-53 | clears first, then applies a registered payload as one override under `scenario_<id>`; the record becomes `AfterApplyScenario` |
| ScenarioBoundary.ClearScenarioRemovesAll | catalyst/scenario_application_boundary_v1.py:64-70 | no scenario override is left; each removal bumps the version and logs one entry; the baseline stays; with none active the record is unchanged |
| ScenarioBoundary.ClearKeepsOtherOverrides | catalyst/scenario_application_boundary_v1.py:64-70 | overrides of other kinds are kept in order, unless one shares its id with a scenario override |
| ScenarioBoundary.AppliedScenarioRecord | catalyst/scenario_application_boundary_v1.py:41-53 | for a registered id: the cleared record plus the scenario's override, version +1, one history entry, consistent |
| ScenarioBoundary.ApplyScenarioLeavesOneActive | catalyst/scenario_application_boundary_v1.py:37-53 | afterwards the only scenario override is `scenario_<id>` at the end for a registered id; none for an unknown id (the clear still happens) |
| ScenarioBoundary.ApplyScenarioConsistent | catalyst/scenario_application_boundary_v1.py:37-53 | the resulting effective view is the resolution of the resulting overrides |
| ScenarioBoundary.ApplyScenarioKeepsOtherOverrides | catalyst/scenario_application_boundary_v1.py:37-53 | overrides of other kinds survive in order |
| ScenarioBoundary.ClearSingleScenario | catalyst/scenario_application_boundary_v1.py:64-70 | clearing a record whose only scenario override is the last one removes it and anything else with its id |
| ScenarioBoundary.ApplyRegisteredScenarioTwice | catalyst/scenario_application_boundary_v1.py:30-53 | a second application removes the first scenario override and appends the same one again |
| ScenarioBoundary.ClearedLacksId | catalyst/scenario_application_boundary_v1.py:64-70 | an id carried only by scenario overrides is gone after a clear |
| ScenarioBoundary.ApplyRegisteredScenarioTwiceUnchanged | catalyst/scenario_application_boundary_v1.py:30-53 | when no override of another kind carries `scenario_<id>`, applying twice gives the overrides and effective view of applying once |
| ScenarioBoundary.ApplyScenarioIdempotent | catalyst/scenario_application_boundary_v1.py:30-34 | applying twice leaves the same scenario overrides as applying once, and the same list and view under the condition above |
| ScenarioAdapter.ScenarioToOverride | catalyst/scenario_override_adapter.py:13-30 | type `scenario`, expires true, the given id and label; the changes hold exactly the payload's `strategy` and `kpis` entries that are present, copied; `applies_to` is exactly the keys of the changes |
| ScenarioAdapter.EmptyPayloadChangesNothing | catalyst/scenario_override_adapter.py:13-28 | a payload without `strategy` and `kpis` gives empty changes and empty `applies_to` |
| ScenarioAdapter.AdaptedOverrideApplies | catalyst/scenario_override_adapter.py:23-30 | the store always accepts the adapted override and appends it under the scenario's id with type `scenario` |
| ScenarioSimulation.SimulateScenario | catalyst/scenario_simulation_engine.py:13-41 | an unknown id returns the base unchanged; otherwise the payload is merged into a copy |
| ScenarioSimulation.SimulationMatchesResolve | catalyst/scenario_simulation_engine.py:32-41 | the simulation equals resolving the base with one override carrying the payload |
| ScenarioSimulation.PreviewMatchesCommit | catalyst/scenario_simulation_engine.py:13-29 | with no scenario active, previewing on the effective view gives the view that `apply_scenario` commits |
| ScenarioSimulation.SimulationKeepsUntouched | catalyst/scenario_simulation_engine.py:37-41 | a place the payload does not touch keeps the base's value |
| ScenarioStateReader.FirstOfKind | catalyst_experimental/scenario_state_reader.py:19-20 | the index of the first override of the kind; None exactly when there is none |
| ScenarioStateReader.GetActiveScenario | catalyst_experimental/scenario_state_reader.py:11-32 | the id, label (defaulting to the id) and actor of the first scenario override; otherwise the `meta.active_scenario` marker exactly when it is truthy; a missing overrides list reads as empty |
| ScenarioStateReader.ReportsFirstScenarioOverride | catalyst_experimental/scenario_state_reader.py:18-25 | an override is reported exactly when the record holds a scenario override |
| ScenarioStateReader.NothingActive | catalyst_experimental/scenario_state_reader.py:27-32 | no scenario override and no truthy marker gives None |
| KpiDelta.DirectionOf | catalyst_experimental/kpi_delta_engine.py:43-48 | up iff delta > 0, down iff delta < 0, flat iff delta = 0 |
| KpiDelta.SignalOf | catalyst_experimental/kpi_delta_engine.py:51-59 | strong iff the magnitude is at least 10, moderate iff in [3, 10), weak iff in (0, 3), none iff delta = 0 |
| KpiDelta.FlatIffNoSignal | catalyst_experimental/kpi_delta_engine.py:43-59 | the direction is flat exactly when the signal is none |
| KpiDelta.Subtract | catalyst_experimental/kpi_delta_engine.py:29 | defined exactly when both values are numbers (bools count as 0 or 1), and then it is scenario minus baseline |
| KpiDelta.ComputeKpiDeltas | catalyst_experimental/kpi_delta_engine.py:10-40 | a missing baseline `kpis` is a KeyError; otherwise the loop returns `Deltas`, stopping at the first error |
| KpiDelta.ErrorPersists | catalyst_experimental/kpi_delta_engine.py:21-38 | once a KPI raises, the later KPIs do not change the outcome |
| KpiDelta.Compared | catalyst_experimental/kpi_delta_engine.py:22-25 | the positions of the compared KPIs are increasing baseline positions, and a baseline position is among them exactly when the scenario carries that KPI with a non-empty state |
| KpiDelta.DeltasDescribeComparedKpis | catalyst_experimental/kpi_delta_engine.py:21-38 | one record per baseline KPI whose scenario state is non-empty, in baseline order (so at most as many records as baseline KPIs); each record names that KPI, holds the baseline entry's `value` and the scenario entry's `value` (both numbers), delta = scenario − baseline, and the direction and signal of that delta |
| KpiDelta.StepDescribesKpi | catalyst_experimental/kpi_delta_engine.py:22-38 | one iteration yields a record exactly when the scenario carries the KPI with a non-empty state, and then the record is built from the two entries' `value`s |
| KpiDelta.RecordsAreComparedKpis | catalyst_experimental/kpi_delta_engine.py:21-25 | every record names a baseline KPI that the scenario carries with a non-empty state |
| KpiDelta.NoBaselineKpisNoRecords | catalyst_experimental/kpi_delta_engine.py:21 | with no baseline KPIs there are no records, and the scenario is not consulted |
| ActionPortfolio.EnrichAllFacts | catalyst_experimental/intelligence/action_portfolio.py:18-24 | enrichment fails with ZeroDivisionError exactly when some action costs 0; otherwise each action keeps its place, cost_avoided = exposure × impact_pct, and roi × cost = cost_avoided |
| ActionPortfolio.InsertPermutes | catalyst_experimental/intelligence/action_portfolio.py:27 | inserting into the ranking adds exactly that entry |
| ActionPortfolio.InsertSorted | catalyst_experimental/intelligence/action_portfolio.py:27 | inserting keeps the ranking in descending ROI order |
| ActionPortfolio.InsertStable | catalyst_experimental/intelligence/action_portfolio.py:27 | inserting places the entry after the entries of equal ROI |
| ActionPortfolio.SortByRoiFacts | catalyst_experimental/intelligence/action_portfolio.py:27 | the ranking is a permutation of the input, ROI-descending, and stable (entries with equal ROI keep their order) |
| ActionPortfolio.SelectTotals | catalyst_experimental/intelligence/action_portfolio.py:33-41 | spent and avoided are the sums over the selected actions; the spend of a non-empty selection is within the budget; every selected action meets the time limit |
| ActionPortfolio.SelectTakesFromRanking | catalyst_experimental/intelligence/action_portfolio.py:33-39 | the selection takes each ranked action at most once |
| ActionPortfolio.TakenPositions | catalyst_experimental/intelligence/action_portfolio.py:33-39 | the positions the scan takes are in range and strictly increasing |
| ActionPortfolio.SelectIsSubsequence | catalyst_experimental/intelligence/action_portfolio.py:26-39 | the t-th selected action is the ranked action at the t-th taken position, so the selection is a subsequence of the ranking |
| ActionPortfolio.SelectKeepsRanking | catalyst_experimental/intelligence/action_portfolio.py:33-39 | a ranked input gives a selection in descending ROI order |
| ActionPortfolio.WithinBudget | catalyst_experimental/intelligence/action_portfolio.py:29-41 | with a non-negative budget the spend never exceeds it |
| ActionPortfolio.UnaffordableDoesNotStopScan | catalyst_experimental/intelligence/action_portfolio.py:34-35 | an unaffordable action is skipped, and a later affordable one is still taken |
| ActionPortfolio.EnrichActions | catalyst_experimental/intelligence/action_portfolio.py:18-24 | the enrichment loop computes `EnrichAll` |
| ActionPortfolio.EnrichErrorPersists | catalyst_experimental/intelligence/action_portfolio.py:18-24 | once an action raises, the later ones do not change the outcome |
| ActionPortfolio.SelectActions | catalyst_experimental/intelligence/action_portfolio.py:33-41 | the greedy loop computes `Select` |
| ActionPortfolio.TakenActionsWereGiven | catalyst_experimental/intelligence/action_portfolio.py:29-41 | every selected action is one of the given actions |
| ActionPortfolio.OptimiseActionPortfolio | catalyst_experimental/intelligence/action_portfolio.py:4-51 | fails exactly when some action costs 0; otherwise: budget_used and total_cost_avoided are the selected sums; budget_remaining = budget − used; used ≤ budget when budget ≥ 0; portfolio_roi is present iff used > 0 and then equals avoided / used; the time limit holds; selected actions are given ones, in ROI order; and the selection is a subsequence of the ROI-sorted actions (strictly increasing positions, so ties keep their ranking order and no entry is taken twice) |
| ProfileValidation.EnabledKpis | catalyst/wizard/validators.py:9-12 | a key is listed exactly when some entry under it is a dict with a truthy `enabled` |
| ProfileValidation.EntryOf | catalyst/wizard/validators.py:17 | the value under `primary`; None exactly when the key is absent |
| ProfileValidation.FailuresFacts | catalyst/wizard/validators.py:3-26 | no more messages than checks; no message exactly when every check passes |
| ProfileValidation.ValidateClientProfile | catalyst/wizard/validators.py:3-26 | a missing `primary` is a KeyError; a non-number horizon or multiplier is a TypeError; otherwise exactly the failed checks' messages, spelled as in the source file, in check order |
| ProfileValidation.MessageIffFailed | catalyst/wizard/validators.py:6-24 | each check's message is in the result exactly when that check fails |
| ProfileValidation.ValidIff | catalyst/wizard/validators.py:3-26 | the result is empty iff the client is named, some KPI is enabled, the primary KPI is enabled, the horizon is at least 90 and the multiplier at least 1.0 |
| ProfileValidation.NoEnabledFailsPrimary | catalyst/wizard/validators.py:14-18 | with no enabled KPI, both the "at least one KPI" and the "primary" messages are reported |
| KpiThresholds.ResolveKpiThresholds | catalyst/kpi_thresholds.py:6-23 | the client's own `kpis[kpi].thresholds` win; with no client or no `kpis` the defaults entry is returned; the only error is a TypeError, raised when `kpis` or `kpis[kpi]` is not a dict on the path the short-circuit takes |
| KpiThresholds.DictClientResolves | catalyst/kpi_thresholds.py:15-23 | with nested dicts: the client's thresholds when present, the defaults entry otherwise |
| KpiThresholds.EntryWithoutThresholdsFallsBack | catalyst/kpi_thresholds.py:19-23 | a client KPI entry without `thresholds` falls back to the defaults |
| KpiThresholds.UnknownKpiIsEmpty | catalyst/kpi_thresholds.py:23 | a KPI neither side knows yields `{}` |
| KpiThresholds.ListOfKpisRaises | catalyst/kpi_thresholds.py:18-19 | a list under `kpis` naming the KPI raises a TypeError at the subscript |
| DriverInterpreter.FirstMatch | catalyst/intelligence/driver_interpreter.py:26-38 | the index of the first template whose rule admits the strength; None exactly when none does |
| DriverInterpreter.SelectTemplate | catalyst/intelligence/driver_interpreter.py:21-40 | the text of the first matching template; a KeyError when it lacks `text`; None when nothing matches |
| DriverInterpreter.BetweenIsHalfOpen | catalyst/intelligence/driver_interpreter.py:32-35 | `strength_between [low, high]` admits exactly low ≤ strength < high |
| DriverInterpreter.NoRuleNeverMatches | catalyst/intelligence/driver_interpreter.py:27 | a template without `when` never matches |
| DriverInterpreter.ContiguousBandsAlwaysSelect | catalyst/intelligence/driver_interpreter.py:26-38 | three bands meeting at their bounds select exactly the band the strength lies in |
| DriverInterpreter.GenerateDriverNarrative | catalyst/intelligence/driver_interpreter.py:57-68 | None for an unknown driver; with the strength defaulting to 0: an error from selection passes through, and a text is returned exactly when one is selected and it is non-empty |
| DriverInterpreter.NoMatchNoNarrative | catalyst/intelligence/driver_interpreter.py:65-68 | no matching template gives no narrative |
| KpiStatus.ClassifyStatus | catalyst_experimental/analytics/kpi_derivation_v1.py:7-18 | green iff the value (or 100 − value with invert) is ≤ green; amber iff it lies in (green, amber]; red iff it is above both |
| KpiStatus.StatusMonotone | catalyst_experimental/analytics/kpi_derivation_v1.py:14-18 | a larger value is never classified better |
| KpiStatus.InvertedStatusMonotone | catalyst_experimental/analytics/kpi_derivation_v1.py:11-18 | with invert, a smaller value is never classified better |
| KpiStatus.NoAmberBand | catalyst_experimental/analytics/kpi_derivation_v1.py:14-17 | when amber ≤ green, nothing is amber |
| MotionState.HighCount | catalyst_v1/catalyst-api/catalyst-ui/src/components/visuals/motion.ts:26-28 | at most the number of readings; 0 exactly when all are below 0.65 |
| MotionState.MaxOf | catalyst_v1/catalyst-api/catalyst-ui/src/components/visuals/motion.ts:30 | one of the readings, and at least every reading |
| MotionState.ComputeMotionState | catalyst_v1/catalyst-api/catalyst-ui/src/components/visuals/motion.ts:21-44 | overload iff at least two readings are ≥ 0.65 or one is ≥ 0.8; tension iff exactly one is ≥ 0.65 and none is ≥ 0.8; stable iff none is ≥ 0.65 |
| MotionState.HighCountMonotone | catalyst_v1/catalyst-api/catalyst-ui/src/components/visuals/motion.ts:26-28 | raising readings never lowers the high count |
| MotionState.MotionMonotone | catalyst_v1/catalyst-api/catalyst-ui/src/components/visuals/motion.ts:21-44 | raising any reading never calms the state |
| MotionState.ExtremeReadingOverloads | catalyst_v1/catalyst-api/catalyst-ui/src/components/visuals/motion.ts:30-35 | one reading ≥ 0.8 alone means overload |
| RoiBand.GetRoiMultiple | catalyst_v1/catalyst-api/catalyst-ui/src/pages/simulate.tsx:26-29 | 0 for a zero cost; otherwise the multiple times the cost is the benefit |
| RoiBand.GetRoiBand | catalyst_v1/catalyst-api/catalyst-ui/src/pages/simulate.tsx:31-37 | Value-Creating iff ≥ 3, Accretive iff in [2, 3), Marginal iff in [1.2, 2), Value-Eroding iff in [1, 1.2), Capital Destructive iff < 1 |
| RoiBand.BandMonotone | catalyst_v1/catalyst-api/catalyst-ui/src/pages/simulate.tsx:31-37 | a larger multiple never falls in a worse band |
| RoiBand.GetBandColor | catalyst_v1/catalyst-api/catalyst-ui/src/pages/simulate.tsx:39-47 | total over the bands, each colour a `#` and six hex digits |
| RoiBand.ColoursDistinct | catalyst_v1/catalyst-api/catalyst-ui/src/pages/simulate.tsx:39-47 | no two bands share a colour |
| AliasingFinding.ApplyChangesAsWritten | catalyst/context_manager_v1.py:154-163 | `_apply_changes` over dicts as shared heap objects, storing a change by reference where the source does; its contract says only that no object is added or lost (the sharing it creates is exhibited by `RemovedOverrideLeaksIntoEffective`) |
| AliasingFinding.RemoveOverrideAsWritten | catalyst/context_manager_v1.py:103-132 | removal keeps exactly the stored overrides with another id |
| AliasingFinding.RemovedOverrideLeaksIntoEffective | catalyst/context_manager_v1.py:159-163 | on the Findings input the overrides list is restored, but o1's stored changes and the effective view hold o2's key, unlike `Resolve(map[], [o1])` |

## Left out

- The Streamlit session-state accessors (`get_effective_context` in both context managers) are not modelled. They read global framework state; the record is passed explicitly instead.
- YAML and JSON loading (the driver definitions, the defaults table) is not modelled. The driver definitions and `DEFAULT_KPI_THRESHOLDS` are parameters.
- `uuid4()` ids and `datetime.utcnow()` instants are parameters.
- Default arguments are not modelled; the caller always supplies them. These are `actor="scenario_engine_v1"` in `clear_scenario` and `apply_scenario` (catalyst/scenario_application_boundary_v1.py:27,58) and `source="wizard"` in `create_context` (catalyst/context_manager_v1.py:18 and catalyst_experimental/context_manager_v1.py:56).
- Each context-manager call takes a single instant, used for both its stored fields and its history entry.
- Floating point is modelled as exact reals. `round(delta, 2)` in the delta engine only affects presentation, because direction and signal use the unrounded delta, so records carry the unrounded delta. NaN in the TypeScript classifiers is not modelled.
- Dict-shaped inputs are typed records:
  - an action, with its four numeric fields;
  - a profile, with its four read places;
  - a template rule, with numeric bounds.

  KeyErrors for their missing top-level keys are therefore not modelled. The exceptions are `kpis` in the delta engine, `primary` in the validator and `text` in template selection, which are modelled.
- An action's extra keys, copied by `{**action, ...}`, are not modelled.
- The `label` field is named `title` in Dafny, because `label` is a keyword.
- `applies_to` is a set, because the core never reads its order.
- `ContextManagerV1`, which the boundary calls, is not part of this model. Its interface is taken from the boundary's call sites and modelled on the `catalyst` context manager:
  - `apply_override(override_id, override_type, payload)` builds the request `{id, type, changes: payload, applies_to: keys}`;
  - `list_overrides` filters by type.
- The sort in the portfolio optimiser is Python's stable `list.sort`. It is modelled as a function (a stable insertion sort) with its permutation, order and stability properties, not as an in-place array algorithm.
- ContextStore.ApplyOverride, ContextStore.RemoveOverride, SelfHealingContext.ApplyOverride, SelfHealingContext.RemoveOverride and the ScenarioBoundary clear and apply lemmas model the intended, copy-free behaviour. They do not capture that the source's merge stores an override's own nested dicts in the effective view and later edits them in place, changing earlier overrides' stored `changes` (catalyst/context_manager_v1.py:159-163); `AliasingFinding` exhibits that behaviour.
- KpiDelta: the baseline's `kpis` dict is an ordered list of pairs, since the output follows its iteration order.
- AliasingFinding models only overrides, baseline and effective, not meta or history. The copy step of `deepcopy` is the identity, because it preserves sharing. Recursion is bounded by a fuel parameter, and fuel 3 suffices for the example, whose nesting depth is 2.
- The KPI derivation bodies (pandas), narrative formatting, and all UI rendering are outside the core.

## Findings

| source | as written | input that shows it | evidently intended | confidence | as-written member | corrected member |
|---|---|---|---|---|---|---|
| catalyst/context_manager_v1.py:159-163 | `target[key] = value` stores an override's own nested dict in the effective view. A later override merges into that dict in place, which edits the earlier override's stored `changes`. `deepcopy` in `apply_override` / `remove_override` preserves the sharing. The same code is in catalyst_experimental/context_manager_v1.py:211-215. | empty baseline; apply o1 with changes `{"a": {"x": 1}}`; apply o2 with changes `{"a": {"y": 2}}`; remove o2. The effective view and o1's stored changes are then `{"a": {"x": 1, "y": 2}}` | removing o2 restores the effective view `{"a": {"x": 1}}` that o1 alone gives | not executed | AliasingFinding.RemovedOverrideLeaksIntoEffective | ContextStore.ApplyThenRemoveRestores |
