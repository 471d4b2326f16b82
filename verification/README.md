# A verified model of the two-path attribution pipeline

The pipeline credits conversions to TV exposures by last touch. A streaming engine decides
within seven days and a few hours of lateness and throws old exposures away; a batch pass
recovers, from an append-only lake and over ninety days, what the engine missed or would
not guess. Serving tables and an hourly rollup are derived from the lake, day by day and
key by key, and can be dropped and replayed. This project models those parts in Dafny and
proves how they fit together.

| file | what it models |
|---|---|
| `Rows.dfy`, `Orders.dfy` | the rows and their invariant; sorted sets and stable sorts |
| `Leaf.dfy` | the last-touch decision |
| `Collapse.dfy` | dedup, one row per conversion, candidate sets |
| `Engine.dfy` | the watermark-gated, evicting join of one household |
| `Lateness.dfy` | which exposures a conversion gets to see, and how large the state grows |
| `Dataflow.dfy` | the engine over all households, and the non-evicting oracle |
| `Parity.dfy` | engine against oracle; determinism; dedup |
| `Resolve.dfy` | the device graph index and the fan-out |
| `Reconcile.dfy` | explode, score every candidate household, pick |
| `Lake.dfy` | current rows and exposure reads of the append-only lake |
| `Recover.dfy` | the bucketed, day-pruned pass against one in-memory pass |
| `Protocol.dfy` | the two passes together |
| `Rollup.dfy` | `FINAL`, the aggregation query, dirty keys |
| `Serving.dfy` | the serving tables as a state machine, with crashes |
| `Pipeline.dfy` | what a reconciliation computes from any state; the stamp hypothesis, and where it fails |
| `Restatement.dfy` | the report snapshots |
| `Warehouse.dfy` | the lake and the tables as a class, method by method |
| `Jobs.dfy` | whole jobs, end to end |
| `Books.dfy` | the rollup's bookkeeping while the rows are gone; truncations that crash |
| `Partitions.dfy` | a reconciliation partition by partition |
| `Increments.dfy` | loads of chosen days, each with its own refresh |
| `History.dfy` | histories of jobs, each completed or crashed anywhere |
| `Migration.dfy` | the report table's version column |

Loops that update variables are methods with loops, tables that are updated in place are
fields of the class `Warehouse`, and everything that is an expression in the source is a
function. A method is proved against a function or a step of the state machine, and the
results below are about those.

Main results, in the order of the data: `Parity.EngineRefinesOracle` and
`Parity.EngineEqualsOracleIff`; `Protocol.TwoPathCompleteness`;
`Recover.BucketedEqualsSinglePass`; `Protocol.LakeIsConsistent`;
`Serving.ServingIsAProjection`; `Serving.RollupIsExactOverRuns` and `Serving.RefreshExactIff`;
`Pipeline.CorrectionIsCurrentIff`; `Restatement.RestatementIsAccountedFor`; `Jobs.EndToEnd`
and `Jobs.ReplayRepairs`; `Books.CrashedTruncationIff`; `Partitions.PartitionsExactIff`;
`Increments.LoadsExactIff`; `History.OrderlyHistoriesServeTheLake`;
`Migration.NeverLosesAKeyIff`.

What the small definitions mean that those results are stated with (eligibility, arrival
order, being seen in time, the last write of a household, the current row, the hour and the
measures of a rollup row or a report, versions, sort keys) is proved beside them on the
fields of the rows alone, with windows, hours and days in milliseconds: the lemmas whose
names end in `Meaning`, `Mean` or `Means`, and a few that say what they are called. Two of
them put the whole together: `Protocol.TwoPathMeaning` for the lake and
`Jobs.EndToEndMeaning` for what is served.

## Where the code and its own description disagree

- "The output is byte-identical to the non-evicting form" (streaming/attribute.py:276-279)
  needs one of the two lateness bounds to be strict: `Parity.OutputsNeedStrictness` is a run
  where it fails. `Parity.EngineEqualsOracleIff` is the exact condition. The producer
  delays every event by at least a second (producer/generate.py:41), which is enough.
- A correction's version is "strictly above every hot version" (reconcile/reconcile.py:83-87,
  also 15-17) while serving holds every day of the lake, not always: it is read from whatever
  serving holds. A reconciliation that starts over a hot pass that was landed but not loaded
  stamps its credits below the hot rows (`History.ReconciliationOverUnloadedExample`).
  `Pipeline.CorrectionIsCurrentIff` and `Pipeline.CorrectionIsServedIff` say exactly when a
  correction takes effect in the lake and under `FINAL`.
- Nor do all orders of jobs end exact, and the code checks none of this.
  `History.OrderlyHistoriesServeTheLake` has an order that is enough (`History.InOrder`,
  `History.PhaseAfter`): no reconciliation over a hot pass that was landed and is not loaded,
  no replay over a half-landed one, and after a replay that crashed between the truncations
  of `campaign_hourly` and `rollup_refreshed` (orchestration/replay.py:38-45, 83-84) another
  replay before a hot job counts. It is one-way, since it goes by how far each job came and
  not by what is in the lake. Exact conditions, case by case: for a reconciliation,
  `Pipeline.CorrectionIsCurrentIff`, and over a loaded pass whose refresh crashed
  `Jobs.LoadedReconcileIff`; for the half-landed pass `History.HalfLandedReplayIff`; for the
  crashed truncation `Books.CrashedTruncationIff`. After that crash the hot job leaves an
  empty rollup that its own bookkeeping calls computed (`Books.CutTruncationIsLost`).
- "A key whose data moved gets a strictly higher stamp" (reconcile/rollup.py:58-60) holds
  for such jobs (`Pipeline.LoadsRaiseStamps`), not for every use of the same entry points.
  Running `run_reconcile` one partition at a time stamps all partitions alike
  (`Pipeline.ReconciledAtIsFixed`), so the "byte-identical guarantee" of
  orchestration/assets.py:114-141 holds exactly when no campaign hour is credited by two of
  the partitions (`Partitions.PartitionsExactIff`, `Partitions.PartitionExample`). Loads of
  chosen days end exact if and only if, in every hour, the last load that changed it brought a
  stamp above all that were there (`Increments.LoadsExactIff`); `Pipeline.PartialLoadExample`
  is an exposure and a credit of which the credit is lost.
- A reconciliation that crashes after landing and before loading is not finished by running
  it again (`Jobs.LandedButUnloadedStaysUnloaded`): the second run finds no candidates, so
  it loads no day. A replay does, and the hot job does unless a truncation was cut as above
  (`Jobs.ReplayRepairs`, `Books.HotJobRepairs`). One that crashes between two partitions and
  is replayed in part cannot always be completed: `Partitions.PartLandedReplayIff` is the
  exact condition.
- The post snapshot's version is "strictly greater" than the pre snapshot's
  (reconcile/rollup.py:131-137) unless the hot pass credited nothing; then both are equal
  (`Restatement.SnapshotVersions`, `Partitions.SnapshotExample`).
- The migration's count check (clickhouse/apply.py:98-109) tells every copy that lost a key
  exactly where no two legacy rows share a sort key or all of them do
  (`Migration.NeverLosesAKeyIff`); `Migration.CountCanMissAShortCopy` is a table on which it
  misses one. If every copy writes every row, no key is ever lost
  (`Migration.LiveNeverLosesAKey`).


## Model

| member | source | states |
|---|---|---|
| `Leaf.Latest` | streaming/attribute.py:168 | the winner is the greatest touch by `(event_time, exposure_id)` |
| `Leaf.LastTouchMeaning` | streaming/attribute.py:147-179 | on the fields of the rows: credited iff some exposure aired at most the window before the conversion and not after it; the credit is the latest such exposure, ties going to the greater id; the other fields, the reason among them, are given too |
| `Leaf.AssistsMeaning` | streaming/attribute.py:172-177 | the assists of a credited row are exactly the ids of the other exposures of the window, ascending |
| `Leaf.HotRuleMeaning` | streaming/attribute.py:182-210 | a conversion with several candidates is deferred with reason `ambiguous_ip`, its candidate set and no credit, whatever the exposures; a certain one gets the leaf's row |
| `Leaf.ValidMeaning` | producer/models.py:94-119 | the row validator said with sets: a sorted set of `candidate_count` households that has the row's own; on a certain row none |
| `Leaf.HotRaisesIff` | streaming/attribute.py:130-144 | the hot rule raises exactly on a conversion with several candidates for which no such set was captured |
| `Leaf.LatestIgnoresOlder` | reconcile/reconcile.py:13-15 | adding only strictly older touches to a non-empty set never changes the winner |
| `Leaf.WideningKeepsTheWinner` | reconcile/reconcile.py:13-15 | a larger window never changes the credit of an already credited conversion |
| `Leaf.HotResultIs` | streaming/attribute.py:130-144 | whether the hot rule raises depends on the candidate set only, never on the exposures at hand |
| `Leaf.AttributeMany` | streaming/attribute.py:182-210 | a household call raises iff one of its conversions raises, and else decides each conversion independently, in order |
| `Collapse.DedupById` | streaming/attribute.py:40-64 | the loop keeps the first row of every key, in order, and its count is exactly the length difference |
| `Collapse.KeptExactly` | streaming/attribute.py:40-64 | a kept row is a row with no earlier row of its key, and conversely |
| `Collapse.KeyIsKept` | streaming/attribute.py:40-64 | no key is lost |
| `Collapse.KeptKeysDiffer` | streaming/attribute.py:40-64 | no key is kept twice |
| `Collapse.KeptInOrder` | streaming/attribute.py:40-64 | what is kept stays in order |
| `Collapse.DedupMeaning` | streaming/attribute.py:67-79 | an exposure is known by its id, a resolved conversion by its id and its household; the first of each survives, and nothing else |
| `Collapse.DedupCounts` | streaming/attribute.py:67-79 | as many rows survive as there are such ids, and pairs |
| `Collapse.KeepFirstLosesNothing` | streaming/attribute.py:52-53 | when equal keys carry equal rows, dedup loses no row |
| `Collapse.DedupStreams` | streaming/attribute.py:67-79 | both streams by their own keys; suppressed plus kept is everything |
| `Collapse.OneRowPerConversion` | streaming/attribute.py:93-111 | the dict loop yields, per conversion in first-arrival order, its first row of lowest household |
| `Collapse.InOneRow` | streaming/attribute.py:93-111 | a row survives the collapse iff it is its conversion's representative |
| `Collapse.OneRowOrder` | streaming/attribute.py:93-96 | exactly one row per conversion id, in first-arrival order |
| `Collapse.OneRowExactly` | streaming/attribute.py:107-110 | with one row per household, exactly the lowest-household rows survive |
| `Collapse.SurvivorIsLowest` | streaming/attribute.py:98-111 | a survivor is the first row of the lowest household among the rows of its conversion id |
| `Collapse.EveryIdSurvives` | streaming/attribute.py:98-111 | no conversion id is lost |
| `Collapse.SurvivorsInOrder` | streaming/attribute.py:93-96 | of two survivors the one whose id came in first comes first |
| `Collapse.CandidateSetMeaning` | streaming/attribute.py:114-127 | a conversion has a candidate set iff some row of it has several candidates: the households of those rows, ascending |
| `Collapse.CandidateHouseholdsByConversion` | streaming/attribute.py:114-127 | the loop collects, per ambiguous conversion only, the sorted set of its fanned-out households |
| `Collapse.CollapseDependsOnTheSet` | streaming/attribute.py:93-127 | order and re-sends do not change which rows survive or the candidate sets |
| `Engine.ArrivalSorts` | streaming/attribute.py:213-222 | the arrival order is a total preorder and the sort is sorted by it, of the same rows |
| `Engine.ArrivalMeaning` | streaming/attribute.py:213-222 | on the fields of the rows: by ingest time; at one time exposures before conversions; and either by id |
| `Orders.SortIsStable` | streaming/attribute.py:286 | the sort keeps the order of events that tie |
| `Engine.WatermarkMeaning` | streaming/attribute.py:225-232 | the watermark after `k` events is the latest event time among them less the allowed lateness |
| `Engine.PeakIs` | streaming/attribute.py:235-244 | the peak is the largest size that the state had after any event |
| `Engine.WatermarkRises` | streaming/attribute.py:225-232 | the watermark never falls |
| `Engine.HeldIs` | streaming/attribute.py:306-308 | the retained state is exactly the buffered exposures that the watermark has not passed by more than the window |
| `Engine.EvictionStep` | streaming/attribute.py:292-308 | buffering one event and filtering the previous state gives the closed form of the next state |
| `Engine.ReleaseDue` | streaming/attribute.py:298-305 | release scores exactly the pending conversions at or below the watermark, in order, and keeps the rest, in order |
| `Engine.Advance` | streaming/attribute.py:292-309 | one turn of the loop keeps the closed form of all its variables at once, unless a released conversion raises |
| `Engine.Flush` | streaming/attribute.py:310-314 | at end of input every conversion has been scored once, in release order, and evicted plus final is everything consumed |
| `Engine.AttributeHouseholdStreaming` | streaming/attribute.py:253-314 | the loop raises iff some conversion event raises; else every conversion is scored exactly once, against exactly the state the watermark protocol says it probes, and peak, evicted and final have their closed forms |
| `Lateness.HeldWhilePending` | streaming/attribute.py:271-279 | nothing eligible for a conversion is evicted between its arrival and its release: the boundary argument |
| `Lateness.RetainedMeaning` | streaming/attribute.py:306-308 | on the fields of the rows: an exposure is held after `k` events iff it was among them and none of them is more than window plus lateness later than it |
| `Lateness.ProbedIffSeen` | streaming/attribute.py:292-308 | an eligible exposure is probed iff it arrives before the release and was not expired when the conversion arrived |
| `Lateness.InToleranceArrivesInTime` | streaming/attribute.py:31-36 | an in-tolerance exposure arrives before the watermark reaches any conversion it is eligible for |
| `Lateness.InToleranceProbesEverything` | streaming/attribute.py:276-279 | in tolerance the probed state holds every eligible exposure of the household |
| `Lateness.InToleranceIsExact` | streaming/attribute.py:276-279 | in tolerance the decision is the one over the whole household |
| `Lateness.EvictedAreOlder` | streaming/attribute.py:306-308 | whatever eviction took from a late conversion is strictly older than everything it is scored against |
| `Lateness.EvictionOnlyRemovesCredit` | streaming/attribute.py:253-314 | a conversion arbitrarily late gets the full household's credit or is a state miss; its assists are among the full ones |
| `Lateness.ProbedAreSeen` | streaming/attribute.py:213-222 | the probed touches are a function of arrival times alone, not of positions |
| `Lateness.ExactIffSeen` | streaming/attribute.py:253-314 | with no lateness assumption: exact iff every eligible exposure is seen in time |
| `Lateness.StrictnessIsNeeded` | streaming/attribute.py:266-285 | a household stream in non-strict tolerance on which the engine misses a credit that the household would give; `Parity.OutputsNeedStrictness` lifts it to whole runs |
| `Lateness.HeldCount` | streaming/attribute.py:292-309 | the number of retained exposures is the number aired in an interval |
| `Lateness.StateBound` | streaming/attribute.py:292-309 | with no lateness assumption: after each event, retained exposures lie in `[W - window, W + L]` and pending conversions in `(W, W + L]` |
| `Lateness.PeakBound` | streaming/attribute.py:235-244 | the high-water mark is at most the most exposures that air in any interval of length `window + L` |
| `Lateness.ExposuresCounted` | streaming/attribute.py:235-244 | what `evicted` and `final` add up to is the number of exposures consumed |
| `Dataflow.GroupEvents` | streaming/dataflow.py:109-118 | the `events` dict holds, per household, its exposures then its collapsed conversions, in input order |
| `Dataflow.RunAttribution` | streaming/dataflow.py:98-129 | the driver raises iff some collapsed conversion raises; else its output is the specified table of per-conversion decisions, sorted by conversion id |
| `Dataflow.Attribute` | streaming/attribute.py:317-342 | the non-evicting oracle, likewise |
| `Dataflow.TabulateIs` | streaming/dataflow.py:120-129 | the table holds one decided row per collapsed conversion and nothing else |
| `Dataflow.TabulateSorted` | streaming/dataflow.py:129 | and is strictly sorted by conversion id |
| `Dataflow.RunRaisesIff` | streaming/attribute.py:130-144 | on the fields of the rows: the run raises iff some collapsed conversion claims a number of candidates that is not the number of households its rows fanned out to |
| `Parity.EngineRefinesOracle` | streaming/attribute.py:276-279 | with everything in tolerance (one of the two bounds strict), the evicting engine equals the oracle row for row |
| `Parity.EngineIsOracle` | streaming/attribute.py:276-279 | the same per conversion: other conversions may be late |
| `Parity.LateConversionsOnlyLoseCredit` | streaming/attribute.py:298-311 | exposures in tolerance, conversions arbitrarily late: the oracle's credit or a state miss |
| `Parity.RowExactIff` | streaming/attribute.py:253-314 | a row equals the oracle's iff the conversion is deferred or every touch of it is seen in time |
| `Parity.SeenMeaning` | streaming/attribute.py:286-309 | what "seen in time" is, on ingest times, event times and ids alone: the conversion is still pending when the exposure arrives, or the exposure still held when the conversion does |
| `Parity.EngineMeaning` | streaming/attribute.py:253-314 | what the engine decides for a certain conversion, however late: credited iff it has seen an exposure of its household that aired in the 604 800 000 ms up to it, and then to the latest that it has seen, ties going to the greater id |
| `Parity.EngineAssists` | streaming/attribute.py:172-177 | its assists are the ids of the other exposures that it has seen in those seven days, ascending; uncredited it is a state miss |
| `Parity.EngineDefers` | streaming/attribute.py:182-210 | what the engine emits for a conversion with several candidates: no credit, `ambiguous_ip`, and the households of its rows, ascending |
| `Parity.OracleMeaning` | streaming/attribute.py:317-342 | what the oracle decides: the same over everything that the household was shown |
| `Parity.EngineEqualsOracleIff` | streaming/attribute.py:253-314 | unique exposure ids, no lateness assumption: the whole outputs are equal iff every touch is seen in time |
| `Parity.OutputsNeedStrictness` | streaming/attribute.py:266-285 | a run, every event of it late by at most the allowed lateness, on which the two whole outputs differ |
| `Parity.OutputDependsOnSets` | streaming/dataflow.py:98-108 | both outputs, and whether the run raises, depend on the sets of input rows only |
| `Parity.DedupIsTransparent` | streaming/dataflow.py:167-176 | same rows with and without dedup, with no lateness assumption |
| `Parity.RunIsDeterministic` | streaming/attribute.py:213-222 | invariant under every permutation of both inputs |
| `Resolve.LatestRecords` | resolve/index.py:25-26 | a household maps to the record of it that no later record replaces; ids stand in the order in which they came in |
| `Resolve.CurrentIsLastWrite` | resolve/index.py:26 | the current record of a household is the one with no later record of it; there is none iff the household has no record |
| `Resolve.AddDevices` | resolve/index.py:30-31 | one household takes over exactly its own devices |
| `Resolve.AddIps` | resolve/index.py:32-33 | one household joins the owners of exactly its own IPs |
| `Resolve.FromHouseholds` | resolve/index.py:23-36 | by the records alone: of the households whose last record lists a device, it maps to the one that came in last; an IP maps to every household whose last record lists it, ascending |
| `Resolve.ResolvesByGraph` | resolve/resolver.py:16-29 | a listed device decides alone, whatever the IP; otherwise one row per household that lists the IP, ascending, each marked with their number |
| `Resolve.ResolveMeaning` | resolve/resolver.py:16-29 | by the records alone: the owner of the conversion's device takes it alone; without an owner, one row per household whose last record lists the IP, strictly ascending |
| `Resolve.ResolveAllAppends` | resolve/resolver.py:32-40 | a stream is resolved conversion by conversion, in order |
| `Resolve.ResolveStream` | resolve/resolver.py:32-40 | the loop emits each conversion's resolution, in order |
| `Resolve.FanOutIs` | resolve/resolver.py:16-29 | over a stream of exact re-sends, a conversion's rows are one resolution of it, each carrying the number of rows |
| `Resolve.CandidateSetIsFanOut` | resolve/resolver.py:22-29 | the candidate set captured before the collapse is the list of households that resolution emitted |
| `Resolve.ResolvedOncePerHousehold` | resolve/resolver.py:16-40 | no two different rows share a conversion and a household |
| `Resolve.NothingRaises` | producer/models.py:94-119 | on resolved input the hot run never raises |
| `Resolve.HotPassConserves` | streaming/attribute.py:298-311 | one row per resolvable conversion id, none for any other, sorted, each satisfying the row invariant |
| `Reconcile.PickIsMax` | reconcile/reconcile.py:90-104 | nothing is picked iff nothing is credited; the pick is greatest by recency, exposure id, household id |
| `Reconcile.PickMeaning` | reconcile/reconcile.py:90-104 | on the fields of the candidates: the first of those with the latest touch, then the greatest exposure id, then the greatest household id |
| `Reconcile.ExpandCandidates` | reconcile/reconcile.py:107-128 | the loop emits the expansion of each row, in order |
| `Reconcile.ExpandAppends` | reconcile/reconcile.py:107-128 | rows are expanded one by one, in order |
| `Reconcile.ExplodeUndoesCollapse` | reconcile/reconcile.py:107-128 | expanding the deferred hot row gives back exactly the rows that resolution fanned out, in the same order |
| `Reconcile.TwoLevelsAreFlat` | reconcile/reconcile.py:151-172 | per-household leaf then pick equals one arg max over all candidate households, or nothing if nothing is eligible |
| `Reconcile.BestIsUnique` | reconcile/reconcile.py:90-104 | with unique exposure ids the flat arg max is unique |
| `Reconcile.RecoveredIgnoresOrder` | reconcile/reconcile.py:90-104 | the recovered row does not depend on the order or number of the group's rows |
| `Reconcile.RecoveredFrom` | reconcile/reconcile.py:166-172 | a recovered row is the leaf's row for one row of the group, re-pathed and re-stamped, with the group's candidate set |
| `Reconcile.RecoveredIs` | reconcile/reconcile.py:150-173 | the pass emits a row iff some conversion of the input recovers it |
| `Reconcile.RecoveredOnce` | reconcile/reconcile.py:150-173 | at most one recovered row per conversion |
| `Reconcile.ScoreRows` | reconcile/reconcile.py:157-165 | scoring a group raises iff the candidate set is invalid for one of its rows |
| `Reconcile.GroupByConversion` | reconcile/reconcile.py:145-147 | the grouping loop: ids in first-seen order, each with its rows in order |
| `Reconcile.RecoverRows` | reconcile/reconcile.py:151-172 | one group: raises on an unexploded ambiguous row or an invalid set, else the specified recovery |
| `Reconcile.GroupRaisesIff` | reconcile/reconcile.py:151-165 | when a group raises, said with sets: it is one unexploded row of several candidates, or the candidate set is not a set of as many households as some row claims, with that row's own |
| `Reconcile.Match` | reconcile/reconcile.py:131-173 | the whole matcher: raises iff some group raises, else the recovered rows in first-seen order |
| `Lake.CurrentIs` | lake/read_attributed.py:85-100 | the current row exists iff the conversion has a row, is one of its rows, and is greatest by `(processed_at, path)` |
| `Lake.CurrentMeaning` | lake/read_attributed.py:85-100 | on the fields of the rows: of the rows of the conversion id the one with the latest `processed_at`, at one instant a reconciled one before a hot one, and of full ties the first |
| `Lake.CurrentExactly` | lake/read_attributed.py:85-100 | with one row per version and path, being current is exactly being the greatest version |
| `Lake.ReadCurrentIs` | lake/read_attributed.py:73-100 | the read returns exactly the current row of every conversion, by conversion id |
| `Lake.DayPruneIsInvariant` | lake/read_attributed.py:60-70 | pruning to a day before taking the current row returns exactly the day's current rows |
| `Lake.CurrentDependsOnSet` | lake/read_attributed.py:3-12 | re-landing and compaction do not change the current row |
| `Lake.CandidatesAre` | reconcile/reconcile.py:189-205 | the candidates are exactly the conversions whose current row is hot and uncredited |
| `Lake.ExposureQueryIs` | lake/read_exposures.py:78-120 | the query returns exactly the wanted households' exposures in the half-open range, each once, by exposure id |
| `Lake.DayQueryIs` | lake/read_exposures.py:42-59 | the loader's read returns each exposure of the day, once, by campaign, event time and exposure id |
| `Lake.DayQueryInOrder` | lake/read_exposures.py:42-59 | that order, and the day, on the fields of the rows |
| `Lake.ReadExposuresByHousehold` | lake/read_exposures.py:78-120 | the grouping loop lists, per wanted household, exactly its exposures in `[lo, hi)`, each once and by exposure id, and nothing for an empty request |
| `Recover.HouseholdsByBucket` | reconcile/reconcile.py:226-228 | the loop assigns every household to its own bucket, whatever the bucket function |
| `Recover.ReadBuckets` | reconcile/reconcile.py:229-235 | reading bucket by bucket and merging holds exactly every wanted household's exposures in range: buckets partition households |
| `Recover.PruneKeepsTouches` | lake/read_exposures.py:78-120 | the `[day - window, day + 1)` prune drops no eligible exposure |
| `Recover.GroupIsExpansion` | reconcile/reconcile.py:145-147 | after expanding a whole lake's candidates, a conversion's group is exactly its own expansion |
| `Recover.RecoveredRows` | reconcile/reconcile.py:213-236 | a pass recovers exactly what each candidate row recovers by itself |
| `Recover.ValidGroup` | reconcile/reconcile.py:107-116 | a row that satisfies the row invariant is exploded and scored without raising |
| `Recover.PassRaisesIff` | reconcile/reconcile.py:107-165 | when a pass raises, on the fields of its candidate rows: a reason that contradicts the candidate count, or a non-empty set of households whose size is not that count |
| `Recover.RecoverDay` | reconcile/reconcile.py:213-236 | one day, pruned and bucket by bucket, returns exactly one in-memory pass over that day's candidates and every exposure |
| `Recover.BucketedEqualsSinglePass` | reconcile/reconcile.py:208-236 | the candidate days together recover exactly the rows of one in-memory pass over every candidate and every exposure |
| `Recover.RecoveredByDayOnce` | reconcile/reconcile.py:208-236 | over different days no row is recovered twice, so what is landed can be counted |
| `Recover.LandedElsewhere` | reconcile/reconcile.py:291-310 | landing the corrections of other days leaves a day's partition as it was |
| `Protocol.HotIs` | streaming/dataflow.py:98-129 | the hot pass lands one row per collapsed conversion, path hot, stamped with the conversion's ingest time |
| `Protocol.Corrects` | reconcile/reconcile.py:83-87 | a reconciled row of a pass over fully loaded serving tables corrects a hot miss of the same conversion and is stamped strictly above it; for any other serving state see `Pipeline.CorrectionIsCurrentIff` |
| `Protocol.RecoveredIff` | reconcile/reconcile.py:131-173 | a hot miss is recovered exactly when an exposure of a household that it leaves open aired in the 7 776 000 000 ms up to the conversion |
| `Protocol.RecoveredMeaning` | reconcile/reconcile.py:151-172 | the recovered row credits the latest such exposure over all those households, ties going to the greater id, and carries its household |
| `Protocol.RecoveredAssists` | reconcile/reconcile.py:151-172 | its assists are the ids of the other exposures of that household in the window, ascending |
| `Protocol.RecoveredVersion` | reconcile/reconcile.py:83-87 | its version is 1000 ms past the latest arrival of any exposure or conversion |
| `Protocol.VersionsOf` | lake/read_attributed.py:3-12 | two rows of one conversion are the same row, or a hot miss and its credited correction |
| `Protocol.LakeIsConsistent` | lake/read_attributed.py:3-12 | however the two passes are landed, a conversion has one hot and at most one reconciled row, and no two rows share a version |
| `Protocol.CreditIsFinal` | reconcile/reconcile.py:13-17 | a credited row is current in every such lake |
| `Protocol.ReconciledNeverReverts` | lake/read_attributed.py:3-12 | a reconciled current row stays current however often hot rows are landed again |
| `Protocol.CurrentAfterBoth` | lake/read_attributed.py:85-100 | once both passes are landed, the current row is the hot credit, else the recovery, else the hot miss |
| `Protocol.HotRowIsValid` | producer/models.py:94-119 | a hot run that did not raise lands only rows that satisfy the row invariant and the reason check |
| `Protocol.ReconRowIsValid` | producer/models.py:94-119 | and so does every recovered row |
| `Protocol.ReconciliationNeverRaises` | reconcile/reconcile.py:176-205 | over such a lake no day of a reconciliation raises |
| `Protocol.FirstPassLandsRecon` | reconcile/reconcile.py:213-236 | over the hot pass, landed in any order and number, the day passes recover exactly the reconciled rows |
| `Protocol.SecondPassLandsNothing` | reconcile/reconcile.py:142-144 | over both passes every further pass recovers nothing, whatever version it would use |
| `Protocol.HotCreditIsBest` | reconcile/reconcile.py:13-15 | a hot credit is already the best exposure of the long window |
| `Protocol.ExplodesOverChoices` | reconcile/reconcile.py:107-128 | an uncredited hot row explodes over exactly the households the conversion may belong to |
| `Protocol.TwoPathCompleteness` | reconcile/reconcile.py:1-17 | exposures in tolerance, conversions arbitrarily late: after both passes a conversion is credited iff some exposure of some candidate household is eligible in 90 days, and then to a best one and its household |
| `Protocol.ChoicesAre` | streaming/attribute.py:114-127 | the households a conversion may belong to, by the resolved rows |
| `Protocol.TwoPathMeaning` | reconcile/reconcile.py:1-17 | the same on the fields of the rows and of any lake that holds both passes: the newest row of a conversion is credited iff such a household was shown something in the 7 776 000 000 ms up to it, to the latest such exposure, ties going to the greater id |
| `Protocol.DirectDecisionIsUnique` | reconcile/reconcile.py:90-104 | with unique exposure ids that best one is the only one, so the two paths equal one direct decision |
| `Rollup.MergesAreInvisible` | clickhouse/ddl.sql:3-6 | a background merge that drops superseded rows leaves `FINAL` as it was |
| `Rollup.SumOf` | reconcile/rollup.py:15-20 | an exact sum does not depend on the order in which rows are visited |
| `Rollup.RebuildIs` | reconcile/rollup.py:71-124 | the aggregation has one row per key with anything to aggregate, built from exactly that key's exposures and credits; `Rollup.RebuildMeaning` says what that is |
| `Rollup.ItemMeaning` | reconcile/rollup.py:87-100 | which campaign hour an exposure or a credit falls in, in milliseconds of the exposure's event time, and what stamp it carries |
| `Rollup.RebuildMeaning` | reconcile/rollup.py:71-124 | on the two tables alone: exactly one row for every campaign hour in which something aired; spend and exposures of what aired in it, conversions, purchases, site visits and revenue of the credits to that, `reported_at` the latest arrival or version among them |
| `Rollup.FilterIsRestriction` | reconcile/rollup.py:267-270 | the dirty-filtered statement computes exactly the rows that a whole-table rebuild computes for those keys |
| `Rollup.Aggregate` | reconcile/rollup.py:71-124 | aggregating a group row by row, in any order, gives each of the six columns as a count or a sum over the exposures and credits of the group, and their latest stamp |
| `Rollup.SumsMean` | reconcile/rollup.py:101-107 | purchases and site visits count the credits of their conversion type, conversions all credits, revenue and spend add up those of the conversions and of the exposures |
| `Rollup.RecordedIs` | lake/load_serving.py:149-215 | a recording query stores, per key, the stamp of some row of the group, no earlier than any |
| `Rollup.RecordedMeaning` | lake/load_serving.py:149-215 | on the fields of the rows: exactly the latest arrival, or version, among the items of each campaign hour |
| `Rollup.DirtyKeysAre` | reconcile/rollup.py:226-261 | the left join with its two conditions selects exactly the `FINAL` dirty versions that no refresh has stamped |
| `Rollup.DirtyMeaning` | reconcile/rollup.py:244-261 | a key is dirty at its newest recorded version unless that is the newest version that a refresh has stamped |
| `Serving.DayRowsAre` | lake/load_serving.py:246-252 | a day load inserts exactly the current rows of that day |
| `Serving.DayStampsMean` | lake/load_serving.py:149-233 | what a day's two loads record, on the two tables alone: the latest arrival among the day's exposures of an hour, the latest version among the credits to them, and the latest version among the credits of the day's conversions |
| `Serving.ServedMaxIngestMeaning` | reconcile/reconcile.py:239-256 | the maximum that versions and reports start from: the latest arrival of any served exposure or current row, the epoch where there is none |
| `Serving.LoadKeepsBacked` | lake/load_serving.py:149-215 | no load, finished or crashed, records a version above what its key aggregates |
| `Serving.LoadKeepsCovered` | lake/load_serving.py:218-233 | after a finished load everything aggregated on that day is recorded, whichever side was loaded first; a crashed load exempts only its own day |
| `Serving.RefreshCleans` | reconcile/rollup.py:302-305 | a completed refresh leaves no dirty key |
| `Serving.DirtyIsLatest` | lake/load_serving.py:149-233 | with no load unfinished, the `FINAL` dirty version of a key is the latest stamp of what it aggregates, and exists iff anything is aggregated |
| `Serving.DirtySetIsExact` | lake/load_serving.py:149-233 | so the dirty set is exactly the index that a rebuild would record |
| `Serving.RefreshKeepsStamped` | reconcile/rollup.py:272-287 | a refreshed version always has a rollup row at least as new, also across crashes before the stamp |
| `Serving.RefreshIsExact` | reconcile/rollup.py:324-343 | in a consistent state with no load unfinished, a completed refresh serves the whole-table rebuild |
| `Serving.ExactMeaning` | reconcile/rollup.py:51-62 | an exact rollup, on the tables alone: the newest row of each key is the campaign hour that the two tables give, for every campaign hour in which something aired |
| `Serving.StepKeepsInv` | reconcile/rollup.py:51-62 | every step keeps the invariant, a load provided that it raises the stamps of the published keys it changes; of a truncation, all six tables (a part of one: `Books.CrashedTruncationIff`) |
| `Serving.RunKeepsInv` | reconcile/rollup.py:51-62 | and so does every run |
| `Serving.RollupIsExactOverRuns` | reconcile/rollup.py:51-62 | after any run of landings, loads, refreshes, crashes in them, compactions and completed truncations under that proviso, a completed refresh serves the whole-table rebuild |
| `Serving.RefreshExactIff` | reconcile/rollup.py:226-261 | over a clean rollup, any further loads are followed by an exact refresh if and only if every key they changed got a later stamp |
| `Serving.LoadedBy` | orchestration/run.py:103-105 | what a list of day loads leaves in the tables: its days' rows and nothing else |
| `Serving.LoadOrderDoesNotMatter` | lake/load_serving.py:218-227 | the same day loads in any order, repeated any number of times, leave the same rows and the same dirty versions |
| `Serving.TruncatedIs` | orchestration/replay.py:38-45 | what the first `n` truncations leave, table by table; `Serving.AllTruncated`: all six are the truncation of the state machine |
| `Serving.FinalIsCurrent` | lake/read_attributed.py:3-12 | on a day loaded since it was landed into, `FINAL` of serving holds exactly the lake's current row |
| `Serving.ServingIsAProjection` | orchestration/replay.py:74-90 | the same over every run from empty tables |
| `Serving.RollupIsAFunctionOfTheLake` | reconcile/rollup.py:58-62 | so a refreshed rollup is the rebuild computed straight from the lake: replay and incremental history agree |
| `Pipeline.TwoPassesAreVersioned` | lake/read_attributed.py:3-12 | every lake of the two passes meets what the serving invariant asks of a lake |
| `Pipeline.ReconIsNewest` | reconcile/rollup.py:58-60 | a recovered credit is stamped later than anything the hot pass aggregates |
| `Pipeline.ItemsLieBetween` | reconcile/rollup.py:145-149 | what is aggregated lies between the hot pass and both passes |
| `Pipeline.ReconciledAtIsFixed` | reconcile/reconcile.py:239-256 | a loaded warehouse gives every pass and every partition of a pass the same version, whatever recoveries it holds |
| `Pipeline.LoadedServesLatest` | reconcile/reconcile.py:239-256 | with every day loaded, serving holds the latest arrival of the lake |
| `Pipeline.CorrectionMeans` | reconcile/reconcile.py:291-322 | what a reconciliation computes from any state: each correction corrects the current row of its conversion, a hot miss, and carries the version that serving gives |
| `Pipeline.CorrectionIsCurrentIff` | reconcile/reconcile.py:13-17 | a landed correction is the current row iff the hot row's `processed_at` is at most the version that serving gives |
| `Pipeline.CorrectionIsServedIff` | reconcile/reconcile.py:15-17 | once both are loaded, `FINAL` serves the correction alone iff that version is strictly above the hot row's |
| `Pipeline.CorrectionIsOfThePassIff` | reconcile/reconcile.py:239-256 | over the hot pass a correction is a row of the two-pass specification iff serving holds the latest arrival |
| `Pipeline.CorrectionsAllowed` | reconcile/reconcile.py:291-310 | from every loaded state, whatever partitions are reconciled, the rows landed are rows of the two passes |
| `Pipeline.LoadsRaiseStamps` | reconcile/rollup.py:51-62 | the stamp hypothesis: while the lake holds rows of the two passes and each published row is the rebuilt row of the hot pass or of both, every load that changes a published key raises its stamp |
| `Pipeline.AllowedKeepsInv` | orchestration/run.py:71-111 | landings of the hot pass, corrections computed from a state that serves the latest arrival, loads, crashes, compactions, truncations, and refreshes of settled warehouses keep each published row equal to a rebuild of the hot pass or of both passes; `History` shows which jobs take only such steps |
| `Pipeline.PipelineRollupIsExact` | orchestration/run.py:71-111 | after any run of such steps from an empty warehouse, a refresh with every day loaded serves the rebuild from the lake |
| `Pipeline.LowStampIsLost` | reconcile/rollup.py:226-261 | a row added to a clean key without a later stamp is not served by the next refresh |
| `Pipeline.SecondPartitionIsLost` | orchestration/run.py:114-135 | a second partition that credits an hour the first has published is such a row |
| `Pipeline.PartialLoadExactIff` | orchestration/run.py:71-111 | over a lake of exactly one exposure and one row credited to it, two one-day loads with a refresh after each, the exposure's day first: exact iff the two days are one or the credit is stamped later than its exposure; any other lake: `Increments.LoadsExactIff` |
| `Pipeline.PartialLoadExample` | orchestration/run.py:71-111 | a concrete valid exposure and hot row on which the second of these refreshes is stale |
| `Restatement.SnapshotMeaning` | reconcile/rollup.py:145-223 | on the two tables alone: exactly one report per campaign that has an exposure, its columns counts and sums over the campaign's exposures and the credits to them, hot ones only if asked, with the version that the credits of all campaigns give |
| `Restatement.SnapshotReportsAll` | reconcile/rollup.py:145-223 | over all campaigns a snapshot reports every credit that it may show, once |
| `Restatement.HotReportIsInvariant` | reconcile/rollup.py:145-149 | the hot-only aggregate of every campaign is the hot pass's own in every state of the pipeline |
| `Restatement.PreSnapshotIsInvariant` | reconcile/rollup.py:145-149 | the whole hot-only snapshot is rewritten identically by every later pass, provided the hot pass credited anything |
| `Restatement.SnapshotVersions` | reconcile/rollup.py:131-143 | after recoveries the post report is versioned above the hot one, exactly unless the hot pass credited nothing |
| `Restatement.RestatementNeverLowers` | reconcile/rollup.py:145-149 | the hot report written in any state of the pipeline against the restated report written in any other: no measure of any campaign falls, and spend and exposures stay equal |
| `Restatement.RecoveryHasExposure` | reconcile/reconcile.py:166-172 | a recovered row credits an exposure that exists |
| `Restatement.RestatementIsAccountedFor` | reconcile/reconcile.py:274-283 | total credited conversions rise by exactly the number of rows recovered |
| `Restatement.HoursAddUp` | reconcile/rollup.py:68-70 | summing a rollup over all its rows gives the totals of what it aggregates |
| `Restatement.RollupAgreesWithReport` | reconcile/rollup.py:68-70 | the served rollup of a campaign summed over hours is its post report, for every measure |
| `Jobs.EngineJobIsGood` | streaming/dataflow.py:193-200 | over a lake that holds all or none of a reconciliation, the hot job, first or repeated, leaves a consistent warehouse with an exact rollup and nothing stale |
| `Jobs.CorrectionsAre` | reconcile/reconcile.py:291-310 | over the hot pass a reconciliation lands exactly the recoveries, over both passes nothing |
| `Jobs.LoadedReconcileIff` | reconcile/reconcile.py:291-322 | from any warehouse that has loaded the hot pass, refreshed or not: the reconciliation ends exact iff it recovers something or the rollup was exact already |
| `Jobs.ReconcileJobIsGood` | reconcile/reconcile.py:291-322 | the reconciliation job leaves the same, over a lake that holds exactly both passes |
| `Jobs.ReconciliationRestates` | reconcile/reconcile.py:291-322 | from before a reconciliation to after it no measure of any campaign falls, spend and exposures stay, and credited conversions rise by exactly the number of corrections landed |
| `Jobs.ReportsDifferByCorrections` | reconcile/reconcile.py:274-283 | of the two reports that end the job, the one 1000 ms later has, over all campaigns, exactly as many more conversions as corrections were landed |
| `Jobs.LandedButUnloadedStaysUnloaded` | reconcile/reconcile.py:307-310 | a reconciliation that landed but was not loaded is not repaired by running it again |
| `Jobs.EndToEnd` | reconcile/reconcile.py:291-322 | from empty: the hot job serves the hot rollup, the reconciliation serves the rollup of both and every conversion's final row, and another reconciliation changes nothing |
| `Jobs.EndToEndMeaning` | reconcile/reconcile.py:291-322 | on the fields of the rows, exposures in tolerance and conversions as late as they like: serving then holds of every conversion one newest row, credited iff a household that it may belong to was shown something in the 7 776 000 000 ms up to it, to the latest such exposure; and the newest rows of the rollup are exactly the campaign hours that the served tables give |
| `Jobs.ReplayDaysAre` | orchestration/replay.py:48-64 | the days that a replay reloads are those whose load inserts a row |
| `Jobs.ReplayRepairs` | orchestration/replay.py:74-90 | from any state of the serving tables, truncate and reload serves exactly the lake's exposures and current rows, and the rollup rebuilt from them |
| `Jobs.ReplayReproduces` | orchestration/replay.py:74-90 | so it reproduces what a good incremental history served |
| `Jobs.ReplayIsGood` | orchestration/replay.py:74-90 | over a lake that holds the whole hot pass and all or none of a reconciliation, a replay leaves a warehouse from which every job goes on as usual (part of one: `Partitions.PartLandedReplayIff`) |
| `Books.LoadedBook` | reconcile/rollup.py:51-62 | once every day is loaded again, rollup rows and versions that were kept while the rows were gone are consistent with the rows |
| `Books.AllowedKeepsBook` | lake/load_serving.py:149-252 | loads, refreshes, crashes in them, landings and compactions keep what the bookkeeping says true of what a full load would aggregate |
| `Books.HotJobRepairs` | streaming/dataflow.py:193-200 | over a lake that holds all or none of a reconciliation, the hot job repairs whatever crashes left unfinished: loads, refreshes, a reconciliation landed and never loaded, a replay that crashed before it emptied the rollup |
| `Books.CrashedTruncationIff` | orchestration/replay.py:38-45 | after a replay that crashed behind its first `n` truncations, the next hot job ends exact iff `n` is before `campaign_hourly`, or behind `rollup_refreshed`, or no key of the rebuild is marked refreshed at its latest version |
| `Books.RefreshedMarksAll` | reconcile/rollup.py:302-305 | once a refresh has completed all keys are so marked, and the last case says that there is nothing to aggregate |
| `Books.RefreshedTruncationIff` | orchestration/replay.py:83-84 | so after a completed refresh: exact iff the crash fell before `campaign_hourly` or behind `rollup_refreshed`, or there are no exposures |
| `Books.CutTruncationIsLost` | orchestration/replay.py:83-84 | on every input with an exposure: hot job, replay crashed between those two tables, hot job again: the rollup is empty |
| `Partitions.PartitionIsPart` | reconcile/reconcile.py:213-236 | what one partition recovers is recovered by the whole pass, on its own day |
| `Partitions.PartitionsExactIff` | orchestration/assets.py:114-141 | reconciling any list of different partitions one after another, each loaded and refreshed, ends exact iff no campaign hour is credited by two of them |
| `Partitions.NextReconciliationIff` | orchestration/run.py:114-135 | over an exact rollup, whatever part of a reconciliation the lake holds: reconciling any days ends exact iff it credits no hour that a recovery has credited before |
| `Partitions.PartLandedReplayIff` | orchestration/run.py:114-135 | so after a crash between two partitions and a replay, which serves the part exactly, landing the rest ends exact iff the two share no hour |
| `Partitions.PartitionByPartitionIsLost` | orchestration/run.py:114-135 | so two partitions end stale whenever they credit the same hour |
| `Partitions.PartitionExample` | orchestration/run.py:114-135 | a concrete input on which it does, and on which one whole reconciliation does not |
| `Partitions.SnapshotExample` | reconcile/rollup.py:131-137 | on that input, after the reconciliation, the pre and the post snapshot carry the same version |
| `History.OrderlyHistoriesServeTheLake` | orchestration/run.py:71-111 | from empty, hot jobs, reconciliations, replays and compactions in any order that is in good order, each completed or crashed after any statement, the six truncations included, or within a load or a refresh: whenever the last job completed (a reconciliation over an unrefreshed rollup: and recovered something) and no truncation is left cut between the rollup and its bookkeeping, the rollup is the rebuild from the lake and serving holds exactly its exposures and current rows |
| `History.JobStepsAreTheJobs` | orchestration/run.py:71-111 | a job that executes all of its statements is the job that the warehouse's method is proved to run |
| `History.ReconciliationOverUnloadedExample` | reconcile/reconcile.py:83-87 | an order that is not: a reconciliation over a landed but unloaded hot pass stamps its credit below the hot row, the lake keeps the miss, and the lake is no longer one of the two passes |
| `History.HalfLandedReplayIff` | orchestration/replay.py:74-90 | another: after a replay over half a landing, the next hot job serves an exact rollup iff in every hour that it credits some credit is stamped later than every exposure |
| `History.HalfLandedReplayExample` | orchestration/replay.py:74-90 | a concrete input on which it does not |
| `Increments.LoadsExactIff` | orchestration/run.py:71-111 | over any lake, the tables emptied, any list of loads of any days, each with its refresh: exact in the end iff in every hour the last load that changed it brought a stamp above all that were there |
| `Warehouse.Warehouse.LandExposures` | lake/land_exposures.py:73-87 | appends, and reports exactly the days touched |
| `Warehouse.Warehouse.LandAttributed` | lake/land_attributed.py:72-78 | appends, and reports exactly the days touched |
| `Warehouse.Warehouse.InsertExposures` | lake/load_serving.py:135-146 | the batched loop inserts every row |
| `Warehouse.Warehouse.InsertAttributed` | lake/load_serving.py:118-132 | the batched loop inserts every row |
| `Warehouse.Warehouse.RecordDirtyExposureKeys` | lake/load_serving.py:218-227 | the two recordings: the day's exposures, and what is already credited to them |
| `Warehouse.Warehouse.RecordDirtyAttributedKeys` | lake/load_serving.py:230-233 | the hours of the exposures that the day's rows are credited to |
| `Warehouse.Warehouse.LoadExposuresDay` | lake/load_serving.py:236-243 | is the load step: insert, then record from the rows now stored |
| `Warehouse.Warehouse.LoadAttributedDay` | lake/load_serving.py:246-252 | is the load step, from the current rows of the day |
| `Warehouse.Warehouse.RefreshCampaignHourly` | reconcile/rollup.py:324-343 | is the refresh step, group by group: what it inserts are the rows of campaign hours as the two tables give them (`Rollup.RebuildMeaning`), one for every dirty hour in which something aired; returns the number of dirty keys |
| `Warehouse.RecomputedMeans` | reconcile/rollup.py:267-287 | the same of the refresh step of the state machine |
| `Warehouse.Warehouse.WriteReportSnapshot` | reconcile/rollup.py:354-362 | adds exactly the specified snapshot: a report for every campaign with an exposure, each as the two tables give it (`Restatement.SnapshotMeaning`) |
| `Warehouse.Warehouse.Finalize` | reconcile/reconcile.py:274-283 | for every campaign with an exposure: at the latest arrival the report of the hot credits alone, 1000 ms later the report of both paths, and nothing else |
| `Warehouse.BothReportsMean` | reconcile/reconcile.py:274-283 | the same of the two snapshots |
| `Warehouse.Warehouse.LoadDays` | orchestration/run.py:103-105 | the day loop is the run of its load steps; the totals count what was read |
| `Warehouse.ExposuresReadIs` | orchestration/run.py:103-105 | the total of exposures is the number of different exposures of the days |
| `Warehouse.RowsReadIs` | orchestration/run.py:103-105 | the total of rows is the number of current rows of the days |
| `Warehouse.Warehouse.MaterializeLoad` | orchestration/run.py:71-111 | no days: nothing happens; unknown days: refused, nothing happens; else load every day, then refresh once |
| `Warehouse.Warehouse.LakeDays` | orchestration/replay.py:48-64 | exactly the days whose load would insert a row; none without a catalog; none iff both tables are empty |
| `Warehouse.Warehouse.EmptyTable` | orchestration/replay.py:83-84 | one truncation is its step |
| `Warehouse.Warehouse.TruncateAndReload` | orchestration/replay.py:74-90 | refuses no days; else empties table after table and loads; out-of-calendar days leave the tables empty |
| `Warehouse.Warehouse.RunEngine` | streaming/dataflow.py:151-200 | resolves, drops re-sends, runs: raises and changes nothing iff the run raises; else lands both streams and loads the days touched, with the counts of the run |
| `Warehouse.Warehouse.RecoverAndLoad` | reconcile/reconcile.py:303-310 | raises and changes nothing iff some candidate day raises; else lands every day's corrections at one version and loads the days touched |
| `Warehouse.Warehouse.RunReconcile` | reconcile/reconcile.py:291-322 | recovers, lands and loads with its counts, then writes both reports, if it got so far: hot credits at the latest arrival, both paths 1000 ms later |
| `Warehouse.Warehouse.ReconcilePartition` | orchestration/assets.py:114-141 | one partition lands its own corrections, at the version read then |
| `Warehouse.Warehouse.RecoverByDay` | orchestration/run.py:114-135 | partition after partition lands exactly what one append would, then loads once; the counts add up |
| `Warehouse.CandidatesOnIs` | orchestration/run.py:114-135 | the total of candidates is the number of candidates of the days |
| `Warehouse.Warehouse.CompactDays` | lake/maintenance.py:54-67 | rewriting day partitions of the attributed table is the compaction step: the bag of rows and every other table stay |
| `Warehouse.Warehouse.CompactExposureDays` | lake/maintenance.py:54-67 | the same for the exposures |
| `Migration.OnlyLegacyRows` | clickhouse/apply.py:51-113 | over every run from a legacy stack, short copies, crashes, retries and merges included: the live table is there and holds only legacy rows, once versioned each by its own `reported_at` |
| `Migration.StepKeepsKeys` | clickhouse/apply.py:51-113 | every statement, crash and merge keeps what is known of the keys, and an exchange always swaps tables with the same sort keys |
| `Migration.LiveNeverLosesAKey` | clickhouse/apply.py:51-113 | over every such run the live table keeps every sort key, if every copy was whole, or, whatever was copied, if the count check suffices |
| `Migration.KeysSurviveMeaning` | clickhouse/apply.py:88-93 | what that means on the columns: every legacy row has a live row of the same `reported_at`, campaign and period, and conversely |
| `Migration.CountSufficesMeaning` | clickhouse/apply.py:98-109 | and where the count check suffices, on the same columns |
| `Migration.MergeKeepsNewest` | clickhouse/apply.py:88-93 | a merge in the versioned table never removes the newest row of a key |
| `Migration.NeverLosesAKeyIff` | clickhouse/apply.py:98-109 | the count check suffices exactly where no two legacy rows share a sort key or all of them do: otherwise some short copy and some merges lose a key behind equal counts |
| `Migration.CountCatchesShortCopies` | clickhouse/apply.py:98-109 | what it tells: a copy has as many rows as the table has keys iff it has every key |
| `Migration.CountCanMissAShortCopy` | clickhouse/apply.py:98-109 | a concrete table on which it does not suffice |
| `Migration.AnAttemptCompletes` | clickhouse/apply.py:51-113 | whatever an earlier attempt left behind, an undisturbed attempt ends with exactly the backfilled rows, versioned, and no scratch table |
| `Migration.SnapshotStore.CopyAndCount` | clickhouse/apply.py:80-109 | the statements up to the count check, with merges between any two, are the run of the machine's steps; the counts match iff the machine goes on |
| `Migration.SnapshotStore.ExchangeAndDrop` | clickhouse/apply.py:111-112 | so are the last two |
| `Migration.SnapshotStore.MigrateReportSnapshots` | clickhouse/apply.py:51-113 | the whole attempt is such a run: when it does nothing, when it refuses and that it can then be tried again, what it leaves; the keys survive if the copy was whole or the count check suffices |

## Left out

- Kafka, DuckDB, Iceberg, ClickHouse, Dagster and Prometheus: only what they mean here is modelled, namely a bag of appended rows, a scan, an arg max, an inner join, a grouped sum, and `FINAL` as the rows of the highest version per sort key. Which files a scan opens, and the schema checks of the Arrow writers, are not part of this model.
- Ids are integers. Only their order and equality are used, so any finite set of id strings can be renumbered in order without changing a result.
- Times are integer milliseconds, so the timezone and formatting concerns of the source do not arise. Days and hours are UTC.
- Money is integer cents, and the sums are exact. Floating point, Decimal scales, and the four report ratios are left as their numerators and denominators.
- Exceptions carry no message, and the several `ValueError`s are one. The empty-candidate-set error of the lake read (lake/read_attributed.py:37-57) is not separate from the row invariant.
- `bucket_of` is an arbitrary function of the household id.
- The serving tables are sets: a second copy of an identical row has the same key and version and never changes what `FINAL` keeps, and no modelled query counts rows without `FINAL`. The migration, which does count, uses lists.
- `exposures_landed` has no version column. Its `FINAL` is modelled under the hypothesis, part of every theorem about the rollup, that equal exposure ids carry equal rows.
- Concurrent jobs: two processes that load or refresh at the same time are not modelled; a crash is, at any point.
- A key that was never refreshed joins no row of `rollup_refreshed`; under `join_use_nulls = 0` (reconcile/rollup.py:243-247) it is compared with the epoch there, so that a key whose latest stamp is the epoch itself counts as clean. In the model it is dirty. No event of the pipeline arrives at the epoch.
- Rows of one conversion with the same version and path but different contents, which lake/read_attributed.py:9-12 excludes as well.
- Warehouse.Warehouse.RunEngine: draining the two topics and loading the device graph from its topic; the run starts from their contents.
- History.OrderlyHistoriesServeTheLake: a reconciliation of chosen partitions and a load of chosen days are not jobs of these histories, so the lake holds all or none of a reconciliation; `Partitions.PartitionsExactIff`, `Partitions.PartLandedReplayIff` and `Increments.LoadsExactIff` are about those. A whole reconciliation crashes anywhere except between the landings of two partitions of the orchestrated form. Good order is sufficient, not necessary.
- Jobs.EngineJobIsGood: a lake that holds only a part of a reconciliation is excluded.
- Jobs.ReplayIsGood: the same; `Partitions.PartLandedReplayIff` says what follows a replay of such a lake.
- Books.HotJobRepairs: the same.
- Snapshot expiry, the seeded generator, the agent loop, scoring, webhooks, benchmarks, cost reports and metrics: randomness, measurement or easy control flow.
- `eval_meta` and the calendar's own range: the calendar is a parameter.
