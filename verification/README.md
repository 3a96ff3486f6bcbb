# Verification of the context-graph core

A Dafny 4.11 project that models the core of the context-graph service - a property graph split into
groups, in which an edge of one group may point by name at an entity of another - and proves what its
merges, re-binding passes, caches and concurrent stores keep. `dafny verify dfyconfig.toml` checks it.

## What is modelled

**The graph and its primitives.** `PropertyGraph` has the graph as a value: entities with their
`merged_into` reference, edge rows with their cached pointers, the two hops of a row, the entity-to-entity
compatibility rel, and each group's applied position. `Store` is the mutable database whose value that is,
with the statements the graph code issues and the log of what they addressed. Identifiers and timestamps are
only compared; names, groups and kinds are strings; a NULL or empty column is an absent value; a fresh uuid is
one above all issued before.

**Names and forwarding.** `NameLookup` and `NameQueries` have the `lookup_key` index, the scan it must
agree with, and self-healing. `Forwarding` has the `merged_into` walk on arbitrary forwarding graphs and
the forest that merges keep. `PointerResolution` and `Assertions` are the two clients that put them together;
`ResolutionAnswers` says what they answer in terms of the stored rows alone.
Trim, case folding and the database's own lower-casing are abstract functions.

**Merging.** `MergeEdges` is the rewrite of one alias, `Corrections` the whole call, `MergeCounts` the
arithmetic of one alias and its dry run, `MergeInvariants` what calls and runs of calls keep. `MergeCalls` says
what a call refuses, merges and reports in terms of its parameters. `MergeSets` and `MergePlans` take whole calls:
what they conserve, and when a dry run's plan is what a real run does;
`MergeWitnesses` has two calls whose plan is wrong. `LeafTypes` has the type labels next to the kind,
`AliasCycles` the cycle search over correction files.

**Cross-group pointers.** `CrossGroupEdges` creates an edge, and `EdgeCreation` says which edge a request gets.
`Rebind` says what a pass does to one edge, `RebindPass` is the loop with its counters and per-group mutation
buckets, `RebindTurns` what one turn leaves and what each counter counts, `RebindInvariants` what a pass
guarantees and which edges it invalidates, `RebindFacts` which facts and edges it keeps as seen from its start,
`RebindSilence` when it changes nothing, `RebindGate` and `RebindRuns` why the staleness gate changes nothing, and
`RebindGateExact` exactly when it does not. `RebindWitnesses` has literal graphs for the properties that fail.

**Concurrent protocols.** `Checkpoint`, `CheckpointRuns`, `CheckpointSolo` and `CheckpointStore`: the lock-free
checkpoint store, each call cut into its atomic file-system steps, over every interleaving and crash, and what a
call then does that nobody interferes with. `OntologyCache` and `OntologyRaces`: the group-ontology slot with racing resolutions and remediations.

**Fast forms and algorithms.** `EmbeddingCache`, `EmbedBatch`, `DedupJudge`, `Canonicalize` with
`RelationClasses`, `Dump` with `DumpLines`, and `WikiMarkup`. The embedder, the judge, the noise pattern, the
relation-type normalizer, the embedding fallback and the file-link pattern are parameters. `Common` and `UuidOrder`
hold what several modules share.

Operations are proved equal to specification functions, and what such a function computes is said again without
it, over the inputs and the stored rows: `ResolutionAnswers`, `MergeCalls`, `EdgeCreation`, `RebindTurns`,
`RelationClasses` and `DumpLines` hold nothing else, and the other modules have such lemmas in place.

Group and kind strings that contain the key separator, and keys that have gone stale, are allowed
everywhere except where a lemma says otherwise. `NoForeignKeys` asks for one group that no other group's row
carries one of its keys, `KeyedIn` also that its own rows carry their own; `Clean` asks only that the lookups a pass
makes heal nothing, and `CleanRow` the same of one edge; `SeparatorFree` and `Apart` are about the key format.

## Results that are negative, and their exact conditions

- A pass can invalidate an edge as a duplicate of itself: when every re-checked side resolves to the hop that is
  already there, the edge is lost if and only if some re-checked side has another uuid cached
  (`RebindInvariants.MismatchedCacheInvalidatesTheEdge`; literal graph `RebindWitnesses.MismatchedEdgeIsLost`).
  In general a candidate is invalidated if and only if it is condemned (`RebindInvariants.StepInvalidatesIff`).
- A second pass with no change in between is not always silent, because the first one's lookups may heal stale
  keys and so change what a name resolves to (`RebindWitnesses.SecondPassBinds`). It is silent if and only if,
  on the table that the first pass left, every pointer it re-checks resolves without healing to what is recorded
  (`RebindSilence.SecondPassIsSilentIff`); a first pass that heals nothing is enough
  (`RebindGate.SecondPassChangesNothing`).
- A pass can lose a fact: of two edges whose targets have swapped names, one is dropped as a duplicate of the
  other, which then moves away (`RebindWitnesses.SwapLosesAFact`). By the graph at the start, for a pass whose
  lookups heal nothing and whose caches match: a fact is stated at the end if and only if a row states it that is
  not a candidate about to move away, or a candidate moves to it whose turn comes after that of every candidate
  that moves away (`RebindFacts.FactIsKeptIff`); and an edge is invalidated if and only if it moves to a self-loop
  or to a fact that is stated in this sense at its turn (`RebindFacts.EdgeIsLostIff`).
- The gate can hide a change: a purge that deletes a target without moving the position is seen by a forced pass
  only (`RebindWitnesses.PurgeIsNotNoticed`). For one edge, on any table, the gated and the forced step agree if and
  only if they leave the same table, and every side agrees or both condemn the edge
  (`RebindGateExact.StepGateIsExact`); if the edge's lookups heal nothing, if and only if each skipped pointer is
  current and was checked at the present position, or both condemn the edge (`RebindRuns.GateIsExact`). For a whole
  pass the same holds of every candidate at its turn (`RebindGateExact.PassGateIsExact`), and with matching caches
  it is a condition on the graph at the start (`RebindGateExact.GateIsHarmlessIff`).
- A row healed by a lookup is found by the index next time if and only if it comes first among the rows that
  carry the key, stale ones included (`NameLookup.HealedRowIsIndexed`; literal table
  `RebindWitnesses.HealedRowStaysHidden`).
- The dry-run counts of one alias are exact if and only if no two affected edges restate the same fact
  (`MergeCounts.DryRunIsExactIffTwinFree`; literal graph `MergeWitnesses.TwinsAreMiscounted`). For a whole call, on
  any graph, the plan is what a real run does if and only if no active edge of the group joins two of the aliases,
  no edges of two aliases become one fact that the canonical does not state yet, and no alias has such twins
  (`MergePlans.PlanIsExactIff`). The first two parts fail on literal graphs as well
  (`MergeWitnesses.EdgeBetweenAliasesIsMiscounted`, `MergeWitnesses.SharedNeighbourIsMiscounted`); a plan never
  promises too few moves (`MergePlans.PlanNeverUnderstates`).
- After a clear whose identity check cannot run, drift can be cached again if and only if a stale resolution is
  in flight (`OntologyRaces.UncheckedClearLosesTheRace`), and so it is for an invalidation after a clear
  (`OntologyRaces.InvalidationIsSafeIff`). Literal runs from a fresh start reach both states
  (`OntologyRaces.UncheckedClearLetsDriftBack`, `OntologyRaces.InvalidationBringsDriftBack`).
- A second canonicalization pass is silent if and only if the unclassified marker is not itself remapped, or
  nothing was left residual (`Canonicalize.SecondPassIsSilentIff`; literal ontology
  `Canonicalize.SecondPassRetypes`).
- A dump of one group loses exactly the links with an end outside it (`Dump.ReplayRestores`; literal database
  `Dump.CrossGroupLinkIsLost`).
- Stamping a type and recovering it from the labels are inverse exactly when the type is not an ancestor of
  the entity's kind (`LeafTypes.StampThenRecover`; literal hierarchy `LeafTypes.AncestorOfTheKindIsLost`).

## Model

| member | source | states |
|---|---|---|
| `PropertyGraph.UniqueMeansNoDuplicates` | crates/core/src/db.rs:3384-3394 | uniqueness of active (src, dst, name, group) is the absence of two rows stating one fact |
| `Store.Db.InvalidateEdge` | crates/core/src/db.rs:3533-3551 | the new state is the old with that row invalidated, and the write is logged |
| `Store.Db.InsertRelatesToEdge` | crates/core/src/db.rs:820-877 | a fresh row; rel and hops only when both entities exist |
| `Store.Db.CreateHop` | crates/core/src/db.rs:970-988 | the hop on one side, when row and entity exist |
| `Store.Db.DeleteHop` | crates/core/src/db.rs:995-1006 | the hop on one side is gone, nothing else changes |
| `Store.Db.CreateDirect` | crates/core/src/db.rs:934-952 | the compatibility rel, when both entities exist |
| `Store.Db.DeleteDirect` | crates/core/src/db.rs:960-965 | the rel of that row is gone |
| `Store.Db.UpdatePointers` | crates/core/src/db.rs:1011-1016 | the row's pointers are replaced, nothing else changes |
| `Store.Db.EdgesOn` | crates/core/src/db.rs:3329-3348 | exactly the complete rows with that hop, each once |
| `Store.Db.GetFullEdgesForEntity` | crates/core/src/db.rs:3329-3348 | outgoing rows then incoming ones, so a self-loop is listed twice |
| `NameLookup.LookupKeyInjective` | crates/core/src/db.rs:4346-4352 | for separator-free group and kind, keys agree iff group, kind and folded name do |
| `NameLookup.FreshKeysAreKeyed` | crates/core/src/db.rs:4346-4352 | once all keys are fresh and nothing holds the separator, every group's index is in order |
| `NameLookup.LookupAgreesOnExistence` | crates/core/src/db.rs:2680-2706 | the lookup answers iff a live row matches, and only with such a row |
| `NameLookup.IndexIsTheScan` | crates/core/src/db.rs:2478-2507 | with the group's index in order it holds exactly the rows the scan finds |
| `NameLookup.LookupIsScanWhenKeyed` | crates/core/src/db.rs:2680-2706 | with the group's index in order the answer is the scan's own winner and nothing is written, for any kind |
| `NameLookup.HealedRowIsIndexed` | crates/core/src/db.rs:2680-2733 | a healed row is found by the index alone next time iff it is first among the rows with the key |
| `NameLookup.AnyKindAgreesOnExistence` | crates/core/src/db.rs:2559-2594 | a kind wins only for a live row of that kind; none wins iff no row has the name |
| `NameLookup.AnyKindIsScanWhenKeyed` | crates/core/src/db.rs:2559-2594 | with the group's index in order every matching kind wins and nothing is healed |
| `NameQueries.GetEntityByNameCiWithScanFallback` | crates/core/src/db.rs:2680-2706 | verified probe, then scan with healing, against the lookup specification |
| `NameQueries.ScanKinds` | crates/core/src/db.rs:2559-2594 | the ordered scan: first row per kind is that kind's scan winner, every row met is healed |
| `NameQueries.ResolveEntitiesByNameAnyKind` | crates/core/src/db.rs:2559-2594 | probes per kind, scan only on a total miss, one lookup winner per winning kind |
| `Forwarding.FollowMergedIntoChain` | crates/core/src/cross_group.rs:149-175 | the cycle-guarded loop terminates and answers exactly the live row the chain reaches |
| `Forwarding.WalkIsReach` | crates/core/src/cross_group.rs:149-175 | on any forwarding graph the walk answers c iff the in-group chain reaches the live row c |
| `Forwarding.TombstoneRedirects` | crates/core/src/corrections.rs:1232-1291 | a merge extends the chains that ended at the alias and moves no other |
| `Forwarding.TombstoneKeepsForest` | crates/core/src/corrections.rs:1232-1291 | tombstoning keeps merged_into a same-group, same-kind forest with live roots |
| `Forwarding.ForestHasNoDeadEnds` | crates/core/src/cross_group.rs:149-175 | in a forest the walk from any tombstone returns a live row of its group and kind |
| `PointerResolution.ResolveEndpointKind` | crates/core/src/cross_group.rs:102-138 | lookup with healing, ambiguity check and walk compute the resolution of the table before healing |
| `PointerResolution.ResolveWinner` | crates/core/src/cross_group.rs:102-138 | more than one live namesake is ambiguous; a tombstone is forwarded or unbound |
| `PointerResolution.LookupKeepsKeyed` | crates/core/src/db.rs:2715-2733 | a lookup into any group keeps foreign keys out of every group and leaves its index in order if it was, if the key format tells the groups apart |
| `PointerResolution.ResolutionReadsOneGroup` | crates/core/src/cross_group.rs:102-138 | with no foreign keys in two tables, resolution into a group depends on that group's rows only, stale keys included |
| `ResolutionAnswers.LookupFinds` | crates/core/src/db.rs:2680-2706 | the row of one kind found: the oldest with the key if it carries the name, else the oldest that carries the name |
| `ResolutionAnswers.KindsThatWin` | crates/core/src/db.rs:2559-2594 | across kinds a kind wins iff the index gives a row of it, or gives none of any kind and some row carries the name under it |
| `ResolutionAnswers.LookupHealsExactly` | crates/core/src/db.rs:2680-2733 | row by row: a lookup rewrites kind and key of the scanned row, or of all namesakes across kinds, when the index gives none; nothing else |
| `ResolutionAnswers.EndpointAnswer` | crates/core/src/cross_group.rs:102-138 | ambiguous iff several kinds win, or two live rows share the name under the kind of the row found; bound to c iff neither and c is that row, live, or ends its chain; else unbound |
| `ResolutionAnswers.KindedEndpointAnswer` | crates/core/src/cross_group.rs:102-138 | for a pointer with a kind: ambiguous iff a row carries the name and two live rows share it |
| `Assertions.ResolveEntityByName` | crates/core/src/assert.rs:69-106 | nothing, one canonical, a dead end or all candidates, as the winners and their chains say |
| `Assertions.ResolveEntityByUuid` | crates/core/src/assert.rs:133-156 | unknown iff not in the group; no canonical iff no live row is reached |
| `ResolutionAnswers.NameAnswer` | crates/core/src/assert.rs:69-106 | each answer of an assert call by the rows found under the kinds that win and the live rows standing for them |
| `Assertions.NamesNeverDeadEnd` | crates/core/src/assert.rs:69-106 | in a forest: never a dead end; not found iff nothing carries the name; ambiguity is between different live rows |
| `Assertions.MergesLeaveNoDeadEnds` | crates/core/src/assert.rs:69-106 | after any run of merges from no tombstones, name resolution never meets a dead end |
| `MergeEdges.VisitEdge` | crates/core/src/corrections.rs:920-984 | the branch for one row and, unless dry, its writes |
| `MergeEdges.MergeEntitiesInner` | crates/core/src/corrections.rs:907-984 | the loop over the listing, real or dry, against the rewrite and count specifications |
| `MergeEdges.MergeMovesExactlyTheAffected` | crates/core/src/corrections.rs:907-984 | foreign and other rows untouched, no own-group edge touches the alias, every other fact still stated, new rows restate old ones |
| `MergeCounts.MergeAddsNoDuplicate` | crates/core/src/corrections.rs:944-958 | a merge creates no second active edge with the same ends, name and group |
| `MergeCounts.MergeKeepsUniqueness` | crates/core/src/corrections.rs:944-958 | uniqueness of active edges is preserved |
| `MergeCounts.MergeConservesEdges` | crates/core/src/corrections.rs:907-984 | active edges lost = deduplicated + collapsed self-loops; rewritten + deduplicated = the rest of the affected |
| `MergeCounts.DryRunIsExactIffTwinFree` | crates/core/src/corrections.rs:920-984 | dry and real counts of one alias agree iff no two affected edges restate the same fact |
| `MergeCounts.DryRunIsExactWhenUnique` | crates/core/src/corrections.rs:920-984 | in a graph with unique active edges the dry run predicts the real run |
| `Corrections.MergeAliases` | crates/core/src/corrections.rs:1224-1291 | aliases in uuid order, tombstones skipped, graph, counts and earliest time as the run over the live ones |
| `Corrections.MergeEntities` | crates/core/src/corrections.rs:991-1320 | refusals change nothing; a dry run changes nothing and reports per alias and in total what it counts in the unchanged graph; otherwise the run over the live aliases, then the backdated canonical |
| `MergeCalls.CanonicalAnswer` | crates/core/src/corrections.rs:991-1110 | each refusal of the canonical, and its acceptance, iff: given, found by uuid or as the oldest live row of the exact name in one kind, not merged, in the group |
| `MergeCalls.AliasesAre` | crates/core/src/corrections.rs:1114-1190 | a row is an alias iff it is another row of the group that the call names by uuid, by exact name (and kind), or as a namesake of the canonical in its kind |
| `MergeCalls.ProceedsIff` | crates/core/src/corrections.rs:1192-1222 | the call proceeds iff its canonical is accepted and every alias is of the canonical's kind |
| `MergeCalls.ComplaintsAre` | crates/core/src/corrections.rs:1120-1180 | each complaint about the alias list iff: uuid not found, uuid of another group, name that matches nothing |
| `MergeCalls.SucceedsIff` | crates/core/src/corrections.rs:1313-1320 | a call that proceeds succeeds iff no alias uuid is a row of another group |
| `MergeCalls.TurnsAre` | crates/core/src/corrections.rs:1232-1241 | the live rows named take their turns, each once, in uuid order |
| `MergeCalls.ReportedNumbers` | crates/core/src/corrections.rs:1224-1241 | merged counts the live rows named, merged and skipped together all rows named |
| `MergeCalls.MergedExactlyTheNamed` | crates/core/src/corrections.rs:1232-1300 | over parameters and tables: exactly the live rows named became tombstones of the canonical, which takes the earliest creation time; nothing else changed |
| `MergeCalls.PlannedTotalsAreSets` | crates/core/src/corrections.rs:1224-1310 | the planned totals count pairs of an alias and an edge: moving, already stated, and foreign at each end |
| `MergeInvariants.MergeCallKeeps` | crates/core/src/corrections.rs:991-1320 | every call keeps the structure, the forest, other groups' rows, and adds no duplicate |
| `MergeInvariants.MergedTombstonesTheAliases` | crates/core/src/corrections.rs:1232-1300 | exactly the live aliases became tombstones of the canonical; no other row changed but the canonical's time |
| `MergeInvariants.MergedClearsTheAliases` | crates/core/src/corrections.rs:907-984 | afterwards no active edge of the group with both hops touches an alias |
| `MergeInvariants.RunsKeepForest` | crates/core/src/corrections.rs:1080-1110 | in every run from no tombstones merged_into stays a forest and every walk reaches a live row |
| `MergeSets.DryCountsAreSets` | crates/core/src/corrections.rs:907-984 | the dry counts of one alias are the sizes of three sets of edges, in whatever order they are listed |
| `MergePlans.PlanIsExactIff` | crates/core/src/corrections.rs:907-1291 | on any graph, the totals planned over the aliases are those of the run iff no edge joins two aliases, no edges of two aliases become one new fact, and no alias has twins |
| `MergePlans.PlanIsExactIffUnique` | crates/core/src/corrections.rs:907-1291 | with unique active edges the first two conditions decide |
| `MergePlans.CallPlanIsExactIff` | crates/core/src/corrections.rs:1224-1310 | the same for a dry and a real call with the same parameters, over their live aliases |
| `MergePlans.PlanNeverUnderstates` | crates/core/src/corrections.rs:907-1291 | a plan counts foreign edges exactly and never promises too few moves |
| `MergePlans.RunConservesEdges` | crates/core/src/corrections.rs:907-1291 | active edges lost over all visits = deduplicated + dropped self-loops, for any graph |
| `MergePlans.CallConservesEdges` | crates/core/src/corrections.rs:1224-1320 | the same for a whole call |
| `MergeWitnesses.SharedNeighbourIsMiscounted` | crates/core/src/corrections.rs:907-984 | literal: two aliases with an edge to one neighbour, planned (2,0,0), run (1,1,0) |
| `MergeWitnesses.EdgeBetweenAliasesIsMiscounted` | crates/core/src/corrections.rs:907-984 | literal: an edge between the two aliases, planned (2,0,0), run (1,0,0) |
| `MergeWitnesses.TwinsAreMiscounted` | crates/core/src/corrections.rs:920-984 | literal: one alias with the same edge twice, planned (2,0,0), run (1,1,0) |
| `CrossGroupEdges.CreateCrossGroupEdge` | crates/core/src/cross_group.rs:247-284 | both sides resolved before anything is inserted; result and state as specified; every row written, healed ones included, is logged |
| `CrossGroupEdges.ResolveSideOf` | crates/core/src/cross_group.rs:181-239 | refusals, local endpoints, and foreign ones with their pointer |
| `CrossGroupEdges.InsertCrossGroupEdge` | crates/core/src/db.rs:892-924 | the row always, the rel when both ends resolve, each hop on its own |
| `CrossGroupEdges.CreatedEdgeIsInStep` | crates/core/src/cross_group.rs:241-284 | a refusal leaves no edge; a created edge has each hop equal to its cached resolution, and no other row changed |
| `EdgeCreation.CreationRefusals` | crates/core/src/cross_group.rs:181-284 | refused for exactly what is wrong with the source, else with the target: no such row, foreign row, blank, invalid kind; created iff neither; a refusal leaves no edge |
| `EdgeCreation.CreatedEdgeIs` | crates/core/src/cross_group.rs:181-284 | the row has the name, group and body asked for; a local side is the given row without a pointer; a foreign one records assertion, resolution and position and ends at it; the rel joins both ends |
| `Rebind.SurvivorSettled` | crates/core/src/cross_group.rs:503-573 | a survivor ends with the prospective hops, rewritten pointers and a rel that matches them |
| `Rebind.StepKeeps` | crates/core/src/cross_group.rs:401-573 | one candidate changes only its own row, hops and rel, and keeps the structure |
| `RebindTurns.TurnIs` | crates/core/src/cross_group.rs:401-573 | one turn exactly: which sides are looked at, invalidated iff it becomes a loop or a twin, else looked-up sides rewritten, hops moved, rel synced; nothing else |
| `RebindInvariants.PassRebindsEveryCandidate` | crates/core/src/cross_group.rs:382-576 | each re-checked side of a surviving candidate records what resolution answered at its turn and has a hop to exactly that uuid; everything else as before; rel iff both hops |
| `RebindInvariants.StepInvalidatesIff` | crates/core/src/cross_group.rs:473-501 | a candidate is invalidated iff a checked answer differs from its cache, both ends would be bound, and the edge would be a self-loop or an active row joins the pair |
| `RebindInvariants.CondemnedByAnother` | crates/core/src/cross_group.rs:480-501 | with matching caches that active row is another one |
| `RebindInvariants.PassInvalidatesExactly` | crates/core/src/cross_group.rs:401-501 | a pass invalidates exactly the candidates condemned at their turn, and no other row |
| `RebindInvariants.SurvivorIsNew` | crates/core/src/cross_group.rs:473-501 | a survivor keeps both hops or moves to a pair no other edge has, not a self-loop |
| `RebindInvariants.PassAddsNothing` | crates/core/src/cross_group.rs:473-501 | with matching caches a pass adds no self-loop and no duplicate, and caches still match |
| `RebindInvariants.PassKeepsUniqueness` | crates/core/src/cross_group.rs:473-501 | uniqueness of active edges is preserved |
| `RebindInvariants.MismatchedCacheInvalidatesTheEdge` | crates/core/src/cross_group.rs:473-501 | where every answer is the hop already there, the edge is lost iff some checked side has another uuid cached |
| `RebindFacts.FactIsKeptIff` | crates/core/src/cross_group.rs:401-576 | by the graph at the start: a fact is stated at the end iff a row states it that does not move away, or a candidate moves to it after the last that moves away |
| `RebindFacts.EdgeIsLostIff` | crates/core/src/cross_group.rs:473-501 | by the graph at the start: a candidate is invalidated iff it moves to a self-loop or to a fact stated in that sense at its turn |
| `RebindSilence.StepIsSilentIff` | crates/core/src/cross_group.rs:401-573 | a step changes nothing iff each checked side heals nothing, finds what is recorded and hopped, and was checked at this position |
| `RebindSilence.PassIsSilentIff` | crates/core/src/cross_group.rs:382-576 | a pass changes nothing iff every side of every candidate is silent |
| `RebindSilence.SecondPassIsSilentIff` | crates/core/src/cross_group.rs:352-443 | a second pass is silent iff each pointer it re-checks resolves, on the table the first left, without healing to what is recorded |
| `RebindWitnesses.MismatchedEdgeIsLost` | crates/core/src/cross_group.rs:480-501 | literal: a wrong cache over a right hop loses the edge |
| `RebindWitnesses.SecondPassBinds` | crates/core/src/db.rs:2666-2733 | literal: a stale key makes the first pass ambiguous and lets the second one bind |
| `RebindWitnesses.SwapLosesAFact` | crates/core/src/cross_group.rs:473-501 | literal: two targets that swap names cost one of two facts |
| `RebindWitnesses.HealedRowStaysHidden` | crates/core/src/db.rs:2666-2733 | literal: the row a lookup heals is not what the index finds next time |
| `RebindWitnesses.PurgeIsNotNoticed` | crates/core/src/cross_group.rs:416-428 | literal: a deleted target at an unmoved position, silent when gated and not when forced |
| `RebindGate.StepOnDone` | crates/core/src/cross_group.rs:401-573 | a candidate whose lookups heal nothing and whose checked sides are current is left exactly as it is |
| `RebindGate.GateSkipsNothingNew` | crates/core/src/cross_group.rs:416-428 | in a fresh graph the gated and the forced step of such a candidate agree |
| `RebindGate.GatedEqualsForced` | crates/core/src/cross_group.rs:352-380 | in a fresh graph whose lookups heal nothing the gated and the forced pass end in the same graph |
| `RebindGate.SecondPassChangesNothing` | crates/core/src/cross_group.rs:352-443 | if the first pass's lookups heal nothing, a second pass with no change in between changes nothing |
| `RebindRuns.GateIsPureOverRuns` | crates/core/src/cross_group.rs:352-443 | over every run whose positions never go back and move with the group's rows and hops, gated equals forced where both heal nothing; healing moves rows without moving the position, so a run that heals in the group lies outside the hypothesis |
| `RebindRuns.AdvanceIsHonest` | crates/core/src/cross_group.rs:391-393 | any change of entities, hops and edge rows that carries its pointers along and strictly advances the position is such a step |
| `RebindRuns.MergeCarriesPointers` | crates/core/src/corrections.rs:959-984 | the edge rewrite of a merge carries every pointer along |
| `RebindRuns.PassIsHonest` | crates/core/src/cross_group.rs:382-576 | a pass into any group, gated or forced, is such a step for every group in which it heals nothing |
| `RebindRuns.CreateIsHonest` | crates/core/src/cross_group.rs:247-284 | creating an edge is such a step for every group in which it heals nothing, even if it heals other groups |
| `RebindRuns.PassKeepsKeyed` | crates/core/src/cross_group.rs:382-576 | a pass keeps foreign keys out of a group, and its index in order if it was, if the key format tells the two groups apart |
| `RebindRuns.CreateKeepsKeyed` | crates/core/src/cross_group.rs:247-284 | so does creating an edge |
| `RebindRuns.GateIsExact` | crates/core/src/cross_group.rs:416-428 | for pointers on one side or both, gated and forced agree iff each skipped one is current and checked at the present position, or both condemn the edge |
| `RebindGateExact.StepGateIsExact` | crates/core/src/cross_group.rs:401-573 | on any table, healed or not: gated and forced step agree iff they leave the same table, and every side agrees or both condemn the edge |
| `RebindGateExact.PassGateIsExact` | crates/core/src/cross_group.rs:352-576 | gated and forced pass agree iff each candidate's skips are harmless or both condemn it at its turn |
| `RebindGateExact.GateIsHarmlessIff` | crates/core/src/cross_group.rs:352-576 | with matching caches: iff, by the graph at the start, each candidate's skips are harmless or it is doomed both ways |
| `RebindPass.CountsAddUp` | crates/core/src/cross_group.rs:286-302 | every checked pointer ends bound, unbound, ambiguous or on an invalidated edge; a forced pass skips none |
| `RebindTurns.TurnCounted` | crates/core/src/cross_group.rs:409-573 | what one turn adds to each of the seven counters, by the sides looked at or skipped and the fate of the row |
| `RebindTurns.PassCounted` | crates/core/src/cross_group.rs:286-302 | each counter of a pass is the number of turns and sides that its name says |
| `RebindPass.CheckSide` | crates/core/src/cross_group.rs:409-445 | gate, resolution and counters of one side |
| `RebindPass.ApplyResolutions` | crates/core/src/cross_group.rs:503-573 | hops against the actual graph, pointers, and the rel re-synced when a hop moved |
| `RebindPass.RebindCandidate` | crates/core/src/cross_group.rs:401-573 | one candidate equals one specified step, its writes logged |
| `RebindPass.RebindPointersImpl` | crates/core/src/cross_group.rs:382-576 | the pass equals the specified steps and counts; buckets hold own-group rows, every changed row, every healed entity and what was pending before |
| `RebindPass.RebindPointers` | crates/core/src/cross_group.rs:352-358 | the gated pass |
| `RebindPass.RebindPointersForced` | crates/core/src/cross_group.rs:374-380 | the forced pass skips nothing |
| `LeafTypes.LabelTable.ApplyEntityTypeLabels` | crates/core/src/corrections.rs:716-740 | empty types skipped, the last effective update of an entity wins, the kind survives |
| `LeafTypes.StampedIs` | crates/core/src/corrections.rs:721-735 | the labels written: root, ancestors, type, and the kind unless it is among them |
| `LeafTypes.LastUpdateDecides` | crates/core/src/corrections.rs:716-740 | the last update that gives an entity a type decides its labels |
| `LeafTypes.EffectiveCount` | crates/core/src/corrections.rs:716-740 | the count is the number of updates that give a type |
| `LeafTypes.LeafIsTheOne` | crates/core/src/corrections.rs:780-806 | a leaf is found iff exactly one specific label is no other's ancestor and the list has it once |
| `LeafTypes.RecoveredIs` | crates/core/src/corrections.rs:780-844 | from any labels: the only leaf outside the root, else, for a kind below the root, the only leaf outside root, kind and the kind's ancestors |
| `LeafTypes.StampThenRecover` | crates/core/src/corrections.rs:815-844 | recovering a stamped type gives it back, or the kind when the type is the kind's ancestor |
| `LeafTypes.AncestorOfTheKindIsLost` | crates/core/src/corrections.rs:815-844 | literal: a type above the kind comes back as the kind |
| `AliasCycles.BuildAliasMap` | crates/core/src/corrections.rs:247-264 | each alias maps to the canonical of the last same_as entry listing it |
| `AliasCycles.AliasMapIs` | crates/core/src/corrections.rs:247-264 | by the columns of the entries: mapped iff a same_as entry lists it; to the last one's canonical name, else its canonical uuid, else the empty string |
| `AliasCycles.DfsDetect` | crates/core/src/corrections.rs:287-317 | marks the rest of its trail done and reports the cycle the trail closes |
| `AliasCycles.OffTheFoundCycle` | crates/core/src/corrections.rs:287-317 | a trail node off the reported cycle is on no cycle at all |
| `AliasCycles.DetectCycles` | crates/core/src/corrections.rs:247-285 | for any node order, every cycle of the last-wins map is reported exactly once with exactly its nodes |
| `AliasCycles.SearchAll` | crates/core/src/corrections.rs:266-285 | searching from every unvisited alias reports each cycle of the map exactly once |
| `AliasCycles.NoneIffAcyclic` | crates/core/src/corrections.rs:247-285 | nothing is reported iff the map is acyclic |
| `Checkpoint.LaterGenerationWasActive` | crates/core/src/checkpoint.rs:153-199 | a generation that appears later was active when it appeared |
| `Checkpoint.TombstonedWasInactive` | crates/core/src/checkpoint.rs:204-239 | a generation seen as highest and later tombstoned was inactive in between |
| `CheckpointRuns.StepKeepsInv` | crates/core/src/checkpoint.rs:125-239 | every atomic step of every call, and every crash, keeps the protocol invariant |
| `CheckpointRuns.GenerationsAreConsecutive` | crates/core/src/checkpoint.rs:125-199 | at every instant creates are exactly 1..n and 1..n-1 are tombstoned |
| `CheckpointRuns.CallsLinearize` | crates/core/src/checkpoint.rs:125-239 | each finished call matches the flag at an instant inside it; two successes never share one |
| `CheckpointRuns.EffectsAlternate` | crates/core/src/checkpoint.rs:125-239 | effects strictly alternate starting with a create, each turning the flag; nothing else changes the directory |
| `CheckpointSolo.AloneIsAnswered` | crates/core/src/checkpoint.rs:153-239 | after any interleaving and crashes, a call that then runs alone returns within four steps, with the outcome and files the state of the name calls for |
| `CheckpointStore.Directories.ReadHighest` | crates/core/src/checkpoint.rs:125-135 | the maximum over the entries of any directory, zero without any |
| `CheckpointStore.ValidNamesAre` | crates/core/src/checkpoint.rs:94-106 | exactly the names of 1 to 200 ASCII letters, digits, hyphens and underscores |
| `CheckpointStore.Directories.CreateCheckpoint` | crates/core/src/checkpoint.rs:153-199 | succeeds iff the name is valid and free; adds only the next generation |
| `CheckpointStore.Directories.DeleteCheckpoint` | crates/core/src/checkpoint.rs:204-239 | succeeds iff the name is valid and in use; adds only its tombstone |
| `CheckpointStore.Directories.ListCheckpoints` | crates/core/src/checkpoint.rs:275-336 | reports exactly the names in use |
| `OntologyCache.ClearRoundClears` | crates/core/src/app_state.rs:700-730 | a round never fills an absent slot, never leaves drift, never drops a verdict, and asks for the check only of a slot still resolving |
| `OntologyCache.GroupOntologies.MarkGroupResolving` | crates/core/src/app_state.rs:387-393 | only an absent slot is marked |
| `OntologyCache.GroupOntologies.InsertIfNotResolved` | crates/core/src/app_state.rs:578-605 | wins iff the slot is not resolved; a resolved slot stays |
| `OntologyCache.GroupOntologies.ClearGroupDrift` | crates/core/src/app_state.rs:700-730 | at most two rounds under any interference; absent stays absent; no drift afterwards |
| `OntologyCache.GroupOntologies.ResolveAndCache` | crates/core/src/app_state.rs:350-381 | drifted iff the recorded hash is another one, or none is recorded while there is data and an ontology; caches unless the identity check cannot run or the slot is resolved; other groups untouched |
| `OntologyCache.GroupOntologies.ReloadGroupOntology` | crates/core/src/app_state.rs:762-829 | an unchanged or unchecked reload leaves the cache as it was; any other replaces the entry, drift by the same two cases |
| `OntologyRaces.BenignStepKeepsInv` | crates/core/src/app_state.rs:350-393 | every step of resolvers and remediators keeps the invariant |
| `OntologyRaces.FirstResolutionCaches` | crates/core/src/ontology_sidecar.rs:275-308 | a first resolution on its own caches drift iff the recorded hash is another one, or nothing is recorded while there is data and an ontology |
| `OntologyRaces.DriftStaysCleared` | crates/core/src/app_state.rs:700-730 | once a remediation has returned, no later state caches drift, and entries carry the group's ontology and verdict |
| `OntologyRaces.RemediationsAloneCacheNothing` | crates/core/src/app_state.rs:700-730 | remediations alone never fill the slot |
| `OntologyRaces.InvalidationIsSafeIff` | crates/core/src/app_state.rs:742-746 | after a clear, invalidation can bring drift back iff a stale resolution is in flight |
| `OntologyRaces.UncheckedClearLosesTheRace` | crates/core/src/app_state.rs:700-730 | after a clear whose check cannot run, drift can be cached iff a stale resolution is in flight |
| `OntologyRaces.InvalidationBringsDriftBack` | crates/core/src/app_state.rs:742-746 | literal: a benign run from a fresh start after whose clear an invalidation lets drift back in |
| `OntologyRaces.UncheckedClearLetsDriftBack` | crates/core/src/app_state.rs:700-730 | literal: the same run up to a check that cannot run |
| `EmbeddingCache.MissesAreTheUncached` | crates/core/src/embedding_cache.rs:175-187 | the request holds exactly the uncached texts, once each, in first-occurrence order |
| `EmbeddingCache.KeysTellApart` | crates/core/src/embedding_cache.rs:222-234 | entries of different models, dimensions or texts are kept apart |
| `EmbeddingCache.Cache.GetOrCompute` | crates/core/src/embedding_cache.rs:114-138 | a hit asks nothing; a miss asks once; an error caches nothing |
| `EmbeddingCache.Cache.GetOrComputeBatch` | crates/core/src/embedding_cache.rs:149-218 | at most one request, for the misses; on failure the cache is untouched; each answer is its text's entry |
| `EmbeddingCache.Assemble` | crates/core/src/embedding_cache.rs:206-218 | every slot is filled from the cache or from its own text's computed vector |
| `EmbeddingCache.BatchIsTheMap` | crates/core/src/embedding_cache.rs:149-218 | with an honest service the batch succeeds, stays sound, and caches every text |
| `EmbeddingCache.BatchIsOneByOne` | crates/core/src/embedding_cache.rs:114-218 | the batch leaves the cache that the texts one at a time would leave |
| `EmbedBatch.EveryIndexOccurs` | crates/core/src/embedder.rs:793-799 | n distinct indices below n leave none out |
| `EmbedBatch.FaultIs` | crates/core/src/embedder.rs:772-794 | the fault of an entry: index too large, else repeated, else an empty vector |
| `EmbedBatch.ExtractEmbeddingsOrdered` | crates/core/src/embedder.rs:764-800 | succeeds iff a permutation of non-empty vectors; result by index; first fault reported; never a missing index |
| `EmbedBatch.Collect` | crates/core/src/embedder.rs:795-799 | fails iff a slot is empty, naming an empty one |
| `EmbedBatch.DoEmbedBatch` | crates/core/src/embedder.rs:484-506 | fails iff some chunk has no usable answer, with that chunk's own error; else the chunk answers joined in order |
| `EmbedBatch.ChunksAreFull` | crates/core/src/embedder.rs:484-506 | every chunk but the last is full |
| `EmbedBatch.MapIs` | crates/core/src/embedder.rs:484-506 | position by position and number by number, the result of a batch is the narrowed embedding |
| `EmbedBatch.BatchIsTheMap` | crates/core/src/embedder.rs:484-506 | one vector per input in input order, for any chunk size and any entry order |
| `DedupJudge.ParseVerdicts` | crates/core/src/dedup_judge.rs:85-117 | definite iff exactly one entry has the id and its duplicate is boolean |
| `DedupJudge.OrderDoesNotMatter` | crates/core/src/dedup_judge.rs:85-117 | verdicts do not depend on the order of entries |
| `DedupJudge.DedupAdapter.CachePut` | crates/core/src/dedup_adapter.rs:255-265 | unknown is dropped, a full cache is emptied first, the bound holds |
| `DedupJudge.KeysTellApart` | crates/core/src/dedup_adapter.rs:238-249 | pairs share a key iff they agree in all but the spelling of the names |
| `DedupJudge.DedupAdapter.JudgeGroup` | crates/core/src/dedup_adapter.rs:267-316 | an error or a reply of the wrong length is unknown for the whole group |
| `DedupJudge.DedupAdapter.JudgeBatch` | crates/core/src/dedup_adapter.rs:320-342 | each verdict is the cached one or its own position in a group of at most 16; the definite verdicts are put into the cache in order, within its cap |
| `DedupJudge.NothingElseIsCached` | crates/core/src/dedup_adapter.rs:333-340 | a cached verdict was cached before or is that of a pair judged in the batch |
| `DedupJudge.LastVerdictStays` | crates/core/src/dedup_adapter.rs:333-340 | with room for the batch, the last definite verdict of a key is cached |
| `DedupJudge.OldVerdictStays` | crates/core/src/dedup_adapter.rs:255-265 | with room for the batch, a verdict whose key got no definite one stays |
| `Canonicalize.BuildAliasMap` | crates/core/src/canonicalize.rs:108-119 | keys are exactly the names and aliases of extractable types, the last type that claims a key winning |
| `Canonicalize.BuildLexicalIndex` | crates/core/src/canonicalize.rs:121-147 | keywords of extractable types in order, all declared names, and the assert-only ones |
| `Canonicalize.NeverRetypedToAssertOnly` | crates/core/src/canonicalize.rs:176-234 | an edge is retyped only to an extractable type; an assert-only one is kept unless it is noise |
| `RelationClasses.MatchIs` | crates/core/src/canonicalize.rs:108-210 | the index answers for a text the last extractable type that claims it, else the first with a keyword that occurs in it |
| `RelationClasses.LexicalAnswer` | crates/core/src/canonicalize.rs:176-234 | noise, residual and each mapped class iff, over the ontology and the edge |
| `RelationClasses.FinalAnswer` | crates/core/src/canonicalize.rs:242-412 | the same after the embedding fallback, which only a silent edge with a fact gets |
| `Canonicalize.CountClasses` | crates/core/src/canonicalize.rs:400-412 | the three class counts sum to the total |
| `Canonicalize.EdgeTable.CanonicalizeRelations` | crates/core/src/canonicalize.rs:242-504 | the counts are the sizes of the classes among the edges of the group; a dry run writes nothing; else each edge is settled and nothing else |
| `RelationClasses.PassLeaves` | crates/core/src/canonicalize.rs:400-504 | each edge is left with the type it becomes, the marker, or what it had; other groups and other columns stay |
| `RelationClasses.PassLogs` | crates/core/src/canonicalize.rs:400-504 | one write for exactly each edge that is rewritten, in uuid order |
| `Canonicalize.SecondWriteIff` | crates/core/src/canonicalize.rs:400-504 | an edge is written again iff it ended residual and the marker is remapped |
| `Canonicalize.SecondPassIsSilentIff` | crates/core/src/canonicalize.rs:400-504 | a second pass issues no mutation iff the marker is not remapped or nothing was residual |
| `Canonicalize.SecondPassRetypes` | crates/core/src/canonicalize.rs:400-504 | literal: an ontology whose type claims the marker, and an edge that two passes type differently |
| `Dump.DumpPages` | crates/core/src/dump.rs:143-211 | for any table size the paged loop visits every row once, in order |
| `Dump.TableIsVisitedOnce` | crates/core/src/dump.rs:143-211 | every node of the scope has its line, no other line is there, lines in strict uuid order |
| `DumpLines.LineSays` | crates/core/src/dump.rs:155-211 | what a node's line says: its columns, finite floats as stored and others zero, the default kind, zeros for a missing summary vector, the creation time for a missing ingest time |
| `DumpLines.DumpHoldsExactly` | crates/core/src/dump.rs:113-456 | a line is in the dump iff it is that of a node of the scope, or of an edge node of the scope whose hops reach entities |
| `DumpLines.DumpIsOrdered` | crates/core/src/dump.rs:113-141 | lines come in one strict order: nodes by table and uuid, then links by uuid |
| `Dump.RunDump` | crates/core/src/dump.rs:113-127 | the node phase, then the edge phase, the two counts being the numbers of node and link lines |
| `Dump.NodesBeforeEdges` | crates/core/src/dump.rs:113-127 | no edge line precedes a node line |
| `Dump.ReplayRestores` | crates/core/src/dump.rs:58-63 | replay of any scope restores its nodes and exactly the complete links with both ends inside |
| `DumpLines.ReplayRestoresRows` | crates/core/src/dump.rs:58-63 | replay brings back the nodes of the scope, a row exactly as stored, but for its derived key, iff its floats are finite and its optional columns present |
| `DumpLines.ReplayRestoresLinks` | crates/core/src/dump.rs:58-63 | and exactly the links whose edge node and ends are in the scope |
| `Dump.CrossGroupLinkIsLost` | crates/core/src/dump.rs:58-63 | literal: a link whose line is in the group's dump and whose replay is not |
| `Dump.DumpRoundTrips` | crates/core/src/dump.rs:113-456 | dump, replay into an empty database, dump again: the same lines |
| `WikiMarkup.PairsAreLaminar` | crates/core/scripts/capture_real_corpus.py:264-277 | two matched pairs are nested or disjoint |
| `WikiMarkup.TokensAre` | crates/core/scripts/capture_real_corpus.py:264-277 | the brackets of a text without the scan: in place, apart, closers only with something open, and none overlooked |
| `WikiMarkup.Popped` | crates/core/scripts/capture_real_corpus.py:272-276 | a closer pops exactly the opener it pairs with |
| `WikiMarkup.Scan` | crates/core/scripts/capture_real_corpus.py:264-277 | the spans recorded are exactly those of the marked matched pairs |
| `WikiMarkup.Merge` | crates/core/scripts/capture_real_corpus.py:279-286 | the merged spans cover the same characters, apart from one another; the extension branch never fires |
| `WikiMarkup.Splice` | crates/core/scripts/capture_real_corpus.py:288-294 | exactly the uncovered characters, in order |
| `WikiMarkup.StripTemplates` | crates/core/scripts/capture_real_corpus.py:249-294 | the text without the characters inside matched pairs |
| `WikiMarkup.StripFileLinks` | crates/core/scripts/capture_real_corpus.py:297-349 | the text without the characters inside matched file-link pairs |
| `WikiMarkup.SurvivorsAre` | crates/core/scripts/capture_real_corpus.py:288-294 | what is left are the characters at exactly the positions in no marked pair, in order |
| `WikiMarkup.UnmatchedSurvives` | crates/core/scripts/capture_real_corpus.py:249-294 | text without a matched pair survives whole, unmatched openers included |

## Left out

- Database failures: every statement succeeds; the error paths that only pass an engine error on are absent.
- Corrections.MergeEntities: errors are constructors. `merge_entities` decides success by searching the texts, so
  a group id that itself contains "not found" would soften a hard error there; the model goes by kind of error.
- The known-kinds registry: probes run over the kinds that occur, plus the default.
- `count_active_entities_by_name_ci` folds stored names with the database's lower-casing, which does not trim,
  and the query with the host's folding; both are kept as two abstract functions.
- Concurrent writers during a lookup, a merge, a re-binding pass, a dump or a canonicalization pass: the callers
  hold the write lock, except between the phases of a canonicalization, which the model takes as one.
- RebindPass.RebindPointersImpl: attributes edge-row writes to buckets; self-heal writes to entities of the source
  group, and what was pending before, end in some bucket, without saying in which candidate's.
- Store.Db.InvalidateEdge: does not stamp the compatibility rel, which is kept without its own `invalid_at`.
- Store.Db.CreateHop: a row has at most one hop per side; the statement would add a second one to another entity,
  and every caller here clears the side first.
- Store.Db.CreateDirect: a row has at most one compatibility rel; the statement would leave an existing one alone.
- NameQueries.ResolveEntitiesByNameAnyKind: returns the winners by kind and drops their order in the list, which
  resolution does not read.
- RebindRuns.GateIsPureOverRuns: leaves out runs that heal rows of the group pointed into, because healing moves
  rows without moving the position (`RebindWitnesses.SecondPassBinds`), and runs in which another group's row
  carries one of its keys, which makes its lookups depend on that row.
- CrossGroupEdges.CreatedEdgeIsInStep: does not claim uniqueness, because creation checks for no duplicate.
- MergeInvariants.RunsKeepForest: covers merges and changes that leave tombstones alone; corrections-file
  `same_as` entries, which do not check their canonical, and deletions are not steps of these runs.
- Checkpoint: a directory listing is one atomic read, names are separate directories, generation numbers do not
  overflow, and the spelling and parsing of generation file names is not modelled.
- CheckpointStore.Directories.ListCheckpoints: takes every record to be readable, and leaves out the sequence
  bounds and the reachability annotation; a record not yet written is the `Unreadable` outcome of
  `CheckpointRuns`, which a listing passes over.
- OntologyCache.GroupOntologies.ResolveAndCache: is stated with no other thread between its locked accesses; the
  interleavings of those accesses are the steps of `OntologyRaces`.
- OntologyCache.GroupOntologies.ReloadGroupOntology: is stated with no other thread, so it does not say whose entry
  stays when a remediation inserts one meanwhile.
- OntologyRaces.DriftStaysCleared: assumes that the group's ontology, its data and its identity verdict do not
  change while the threads run.
- Drift summaries, warnings and the identity stamp file itself.
- EmbeddingCache: two callers racing on one key, and key collisions of the hash.
- EmbedBatch.DoEmbedBatch: chunks are requested one after another instead of concurrently, so which chunk's error
  is returned when several fail is not modelled; narrowing to 32 bits is an abstract function on reals.
- DedupJudge: extraction of the JSON block from a reply, prompts, timeouts as such, and a poisoned lock.
- Canonicalize.EdgeTable.CanonicalizeRelations: is one uninterrupted pass, without the lock release between its
  phases; the write batches and their log flushes are one loop, progress events and percentages are absent, and
  the fallback is one deterministic function of the fact that never fails.
- Dump.RunDump: the edge phase has the links of edge rows only; MENTIONS and the other secondary edge kinds, and
  the compatibility rel, are not dumped here.
- Dump: timestamps and their formats are carried through. Every node has a creation time.
- WikiMarkup: the other clean-up patterns of the corpus script, and the regular expression for file links.
- Corrections files: YAML patching, `apply_same_as`, `apply_retract` and validation, apart from cycle detection.
- HTTP and socket transports, the connection pool, LLM calls, prompt rendering, benches and configuration.
