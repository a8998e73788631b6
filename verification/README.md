# The PowerMax metrics exporter's collection engine, modelled and proved

The exporter lists the persistent volumes of a Kubernetes cluster, asks the PowerMax arrays they
live on for capacity and performance, and records the answers as metrics. This project models the
engine that does so and proves what it guarantees, over every input, every interleaving and every
run. One module models one component:

| module | component |
|---|---|
| `VolumeHandles` | splitting a volume handle into array and volume; the composite string keys |
| `WorkerPool` | the semaphore-bounded pool the capacity and both performance collectors share, as a state machine over the steps of producer, workers and consumer |
| `CapacityGather` | grouping by array; one array's records from the bulk answer or from per-volume answers |
| `CapacityTotals` | the fold into five group-by maps and the published percentage |
| `CapacityPipeline` | grouping, pool and fold put together, for any schedule |
| `TopologyPipeline` | the three fork-join stages of the topology collector, as a state machine |
| `StorageGroupCounts` | the cache of storage group counts with its time to live |
| `CollectorRuns` | whole runs of the performance collector with that cache: its workers' calls interleaved, collection after collection |
| `StorageGroupPerformance` | bulk or per-group collection, and the fallback between them |
| `VolumePerformance` | the indexes over the volumes and the join through the composite key |
| `TopologyLabels` | the in-place label update and the pair of maps around it |
| `PerformancePipeline` | the performance collector's two pools in any schedule |
| `Connections` | building and filtering the connection table, choosing a connection |
| `ConnectionRuns` | that table over time: loads, probes, snapshots and the singleton collector |
| `RunLoop` | the main loop as a timed state machine over leader polls, tickers, errors, cancellation and reloads |
| `Collections`, `MetricTypes` | sums and images of sequences, sums over key sets; the records |

Code that changes things step by step is a method or a class with fields, proved against a function
of its inputs or of the old state, and what that function gives is said once more apart from its
body: field by field, position by position, or by what two inputs have in common. Concurrent code is a
step relation with a runs function, so that "every run" means every finite sequence of enabled steps;
and which runs there are is proved too. float64 readings are `real`.

## What the proofs found

The code was kept as it is where it departs from what its surroundings suggest. Each point names the
lemma that says exactly when the code does meet the expectation.

- A performance tick collects nothing: the arm is empty. Performance metrics are only exported in
  the burst after leadership is gained. One export per tick holds for performance exactly when there
  was no tick while leading and enabled (`RunLoop.EachLeadingTickExportsIff`).
- The liveness probe writes its verdict to a copy, and the singleton collectors work for ever with
  the connection table and limit of their first export. So a client that is used is the right one
  exactly as long as no load has succeeded since and the last probe, if any, authenticated it; and an
  array that no connection had authenticated for at that export never gets a client, which is right
  exactly as long as no load has succeeded since or the last one's connections were all refused
  (`ConnectionRuns.ChosenIsIntendedIff`, `ConnectionRuns.KeptIsCurrentIff`). A probe that wrote to the
  rows, with the service's own table, would always give the right one
  (`ConnectionRuns.WrittenProbeChoosesTheIntended`).
- Reloaded intervals are not checked against the range the start-up check enforces. They stay in it
  exactly when the ones read are in it, and the loop panics exactly when it reads an interval that is
  not positive; a reload to one second is accepted, and one to zero seconds panics
  (`RunLoop.RangeHoldsExactlyWhenRead`, `RunLoop.PanicsExactlyOnNonPositiveInterval`).
- A volume result is joined when the volume's group occurs anywhere in the comma-joined text of the
  result's groups: a volume in group `sg1` is joined to a result that lists only `sg10`. The test is
  membership exactly when the group itself is listed or no listed group merely contains it, and the
  records sent are those membership would send exactly when no result joins such a near miss
  (`VolumePerformance.ContainsIsMembershipIff`, `VolumePerformance.RecordsAreListedIff`).
- The look-up through the key `volume=array` finds the last volume named by the pair, or nothing when
  there is none, exactly when every volume that an `=` in an ID gives the same key is followed by one
  that the pair does name (`VolumePerformance.LookUpIsRightIff`).
- The empty record, published with the percentage 0/0, is delivered exactly when no handle can be
  parsed (`CapacityPipeline.PlaceholderIff`). It is meant for every collection that exports no volume;
  but when there are arrays and no worker has a record, nothing at all is delivered
  (`CapacityPipeline.NothingDeliveredIff`).
- For a volume without positive capacity that reports a nonzero percentage, and only then, the bulk
  path and the per-volume path write different records (`CapacityGather.BulkMatchesLegacy`).
- Only the bulk answers are tested for nil. A worker panics, and the process ends, exactly when it
  reads another answer that is nil without an error
  (`StorageGroupPerformance.CollectStorageGroups`, `CapacityGather.CollectArrayCapacityMetrics`,
  `VolumePerformance.CollectVolumes`).
- A bulk answer with a reading for one requested storage group is final for all: a requested group
  gets no record exactly when no instance of it has a reading
  (`StorageGroupPerformance.OmittedIffNoReadings`).
- A label list in which one key carries two values makes the cached labels change at every recording;
  an update agrees with the new labels exactly when they are consistent. The exporter's own list
  repeats a key, but not with two values (`TopologyLabels.UpdateAgreesIffConsistent`,
  `TopologyLabels.TopologyLabelsConsistent`).
- The storage pool of a volume is gathered and never published: volumes that differ only in their SRP
  have the same topology labels (`TopologyLabels.PoolIsNotPublished`).
- A connection limit of zero would block the pool for ever if there is an array; the export guard
  excludes it (`WorkerPool.StuckMeansComplete`, `ConnectionRuns.BaseMetrics.CheckExport`).

The cache of storage group counts has no protection of its own against two overlapping calls for one
array refreshing it twice (`StorageGroupCounts.OverlappingCallsRefreshTwice`). The collector never
makes such calls: this is derived from the steps of the pool's workers, whatever their interleaving
(`CollectorRuns.CollectorRunsAreSequential`, `CollectorRuns.CollectorRefreshesAreApart`).

## Model

| member | source | states |
|---|---|---|
| VolumeHandles.ParseHandleExact | internal/service/metric/capacity_metrics.go:84-91 | a handle yields (array, volume) exactly when both are dash-free and the handle is `array-volume` or `prefix-array-volume`, whatever dashes the prefix holds |
| VolumeHandles.VolumeIdIsParsed | internal/service/metric/capacity_metrics.go:169-170 | the volume ID taken from a handle is the parsed one |
| VolumeHandles.SplitJoin | internal/service/metric/capacity_metrics.go:85 | splitting is the inverse of joining separator-free parts |
| VolumeHandles.DashKeyInjective | internal/service/metric/capacity_metrics.go:252-257 | two `array-name` keys with dash-free arrays are equal only for equal pairs |
| VolumeHandles.VolumeKeyInjective | internal/service/metric/performance_metrics.go:173-174 | two `volume=array` keys with `=`-free volume IDs are equal only for equal pairs |
| VolumeHandles.PrefixKeyCollidesIff | internal/service/metric/performance_metrics.go:173-174 | for any IDs, two different pairs share a key if and only if a separator inside one half makes one pair overlap the other |
| WorkerPool.RunKeepsInv | internal/service/metric/capacity_metrics.go:94-142 | every reachable state keeps the counts of wg and sem, the phase of the channels, one place per array, and received plus unsent records equal to each array's output |
| WorkerPool.PoolSafety | internal/service/metric/capacity_metrics.go:94-142 | in every interleaving running workers <= tokens in sem <= limit; ch is open while a worker runs, and each channel while the producer has still to send on or close it; the WaitGroup is positive while a worker runs; so no step panics, although tokens are given back after wg.Done |
| WorkerPool.AnyWorkersTogether | internal/service/metric/capacity_metrics.go:97-116 | for any disjoint sets of arrays, together up to the limit, some run has the workers of the one running and those of the other ended with their tokens not given back |
| WorkerPool.TokensHeldAfterClose | internal/service/metric/capacity_metrics.go:102-105 | any arrays, up to the limit, can be the ones whose workers still hold a token when sem has been closed |
| WorkerPool.EveryInterleavingIsDelivered | internal/service/metric/capacity_metrics.go:94-142 | with a limit of at least the number of arrays, every interleaving of their records is what some completed run delivers |
| WorkerPool.ReceivedInOrder | internal/service/metric/capacity_metrics.go:101-116 | at every moment the records received from an array are a prefix of what its worker has to send |
| WorkerPool.StepLowersMeasure | internal/service/metric/performance_metrics.go:230-316 | every step of the pool lowers a measure |
| WorkerPool.RunsAreBounded | internal/service/metric/performance_metrics.go:230-316 | no run is longer than a bound known at the start |
| WorkerPool.CanStep | internal/service/metric/performance_metrics.go:356-426 | with a limit of at least one, every state that is not final has an enabled step |
| WorkerPool.LimitZeroStartsNothing | internal/service/metric/capacity_metrics.go:77-100 | with a limit of zero no worker is ever started and ch is never closed |
| WorkerPool.StuckMeansComplete | internal/service/metric/capacity_metrics.go:94-142 | a run that cannot go on has completed, nothing blocked, if and only if the limit is at least one or there is no array |
| WorkerPool.EveryRunCompletes | internal/service/metric/capacity_metrics.go:94-142 | with a limit of at least one, or no array, every run can be continued to a completed one |
| WorkerPool.CompleteRunDelivers | internal/service/metric/capacity_metrics.go:94-142 | a completed run has delivered each array's records exactly once and in order, and the placeholder exactly when there was no array |
| WorkerPool.NothingDeliveredIff | internal/service/metric/capacity_metrics.go:94-142 | a completed run delivers nothing, not even the placeholder, if and only if there is an array and no worker has a record |
| WorkerPool.StreamOfArray | internal/service/metric/capacity_metrics.go:94-142 | when records name their array, the records of an array in a completed run's stream are its worker's output, in order |
| WorkerPool.ScheduleIndependent | internal/service/metric/capacity_metrics.go:94-142 | any two completed runs deliver the same multiset of records |
| TopologyPipeline.RunKeepsInv | internal/service/metric/topology_metrics.go:80-98 | every reachable state keeps both WaitGroup counts, the order of closing, and each volume in one place |
| TopologyPipeline.PipelineSafety | internal/service/metric/topology_metrics.go:111-146 | in every schedule each stage closes its channel after its last send, and no WaitGroup goes below zero |
| TopologyPipeline.StepLowersMeasure | internal/service/metric/topology_metrics.go:80-98 | every step of the three stages lowers a measure |
| TopologyPipeline.RunsAreBounded | internal/service/metric/topology_metrics.go:67-69 | no run has more than nine steps per volume and six more |
| TopologyPipeline.StuckMeansComplete | internal/service/metric/topology_metrics.go:67-69 | a run that cannot go on has completed: all channels closed and drained, no goroutine left |
| TopologyPipeline.EveryRunCompletes | internal/service/metric/topology_metrics.go:67-69 | every run can be continued to a completed one |
| TopologyPipeline.CompleteRunRecordsAll | internal/service/metric/topology_metrics.go:111-160 | in every completed schedule the multiset of recorded metas is the image of the input volumes |
| TopologyPipeline.RecordedMetasCarryTheirVolumes | internal/service/metric/topology_metrics.go:117-131 | in every completed schedule there are as many recordings as volumes, each carries field by field what its volume has, and each volume has one |
| TopologyPipeline.CompleteRunOutputsSuccesses | internal/service/metric/topology_metrics.go:80-98 | the output of a completed schedule is exactly the successful recordings, each once |
| TopologyPipeline.AllRecordAtOnce | internal/service/metric/topology_metrics.go:80-98 | all volumes can be in their recorder calls at once |
| TopologyPipeline.EveryOrderIsPossible | internal/service/metric/topology_metrics.go:67-69 | for every order of recordings and every order of successes some completed schedule has them |
| CapacityGather.GroupByArray | internal/service/metric/capacity_metrics.go:83-92 | the map holds exactly the dash-free arrays that some handle names, each with its volumes in list order |
| CapacityGather.OnArrayAre | internal/service/metric/capacity_metrics.go:83-92 | the volumes of an array are those whose handles name it, each at its occurrence, in list order |
| CapacityGather.CollectArrayCapacityMetrics | internal/service/metric/capacity_metrics.go:149-199 | panics if and only if the bulk answer cannot be used and a per-volume answer is nil; otherwise the records are all from the bulk answer, the last duplicate of an ID winning, or all from per-volume answers when bulk failed or was nil |
| CapacityGather.CollectArrayCapacityMetricsLegacy | internal/service/metric/capacity_metrics.go:203-231 | panics if and only if an answer is nil without an error; otherwise one record for each volume whose call succeeded, in order |
| CapacityGather.ArrayRecordsAre | internal/service/metric/capacity_metrics.go:149-231 | on a bulk answer there is one record for each volume whose ID it lists, from the last entry with it; on an error or nil one for each volume whose own call gave data; in the volumes' order, each with its volume's labels and that entry's or answer's readings |
| CapacityGather.PercentAndShare | internal/service/metric/capacity_metrics.go:178-228 | the percentage of the one path and the share of the other are inverse: a hundred times the used capacity is the percentage times the capacity |
| CapacityGather.RecordsNameTheirArray | internal/service/metric/capacity_metrics.go:182-196 | every record on either path carries the array asked, the volume ID of a handle and that volume's own labels, field by field |
| CapacityGather.RecordsOfSameVolume | internal/service/metric/capacity_metrics.go:178-228 | for one volume both paths agree but for the percentage, and entirely if and only if its capacity is positive or its percentage is zero |
| CapacityGather.BulkMatchesLegacy | internal/service/metric/capacity_metrics.go:149-231 | for answers that describe the same array both paths give the same sequence, Total and Used, and UsedPercent where capacity is positive; they are equal if and only if no volume without positive capacity reports a nonzero percentage |
| CapacityGather.PathsDifferWithoutCapacity | internal/service/metric/capacity_metrics.go:178-228 | a volume of no capacity with a percentage of five, for which the paths give different records |
| CapacityTotals.GroupTable.Cumulate | internal/service/metric/capacity_metrics.go:389-397 | the map update of one record: a new key stores it, a known one adds Total and Used and keeps its labels |
| CapacityTotals.FoldStream | internal/service/metric/capacity_metrics.go:240-258 | the loop leaves in each of the five maps the fold of the stream by that map's key |
| CapacityTotals.FoldedEntry | internal/service/metric/capacity_metrics.go:247-258 | a map has exactly the keys seen, and per key the sum of Total and of Used over the records with that key, with labels of one of them |
| CapacityTotals.LabelsAreTheFirst | internal/service/metric/capacity_metrics.go:389-397 | the labels of an entry are those of the record with its key that arrived first |
| CapacityTotals.SharesEntryIff | internal/service/metric/capacity_metrics.go:247-258 | with dash-free arrays two records share an entry if and only if they agree on the array; on the storage class; on array and volume; on array and storage group; on array and SRP |
| CapacityTotals.EntryIsSumOfGroup | internal/service/metric/capacity_metrics.go:247-258 | an SRP's entry is the sum over the records with its array and SRP, and likewise for the other groupings |
| CapacityTotals.FoldIsOrderIndependent | internal/service/metric/capacity_metrics.go:247-258 | keys and sums depend only on the multiset of records |
| CapacityTotals.GrandTotals | internal/service/metric/capacity_metrics.go:247-258 | every map sums to the grand total of the stream |
| CapacityTotals.KeysDetermineArray | internal/service/metric/capacity_metrics.go:252-257 | with dash-free array IDs, equal volume, storage group or SRP keys are of one array |
| CapacityTotals.ArrayIsSumOfParts | internal/service/metric/capacity_metrics.go:247-258 | each array's Total and Used are the sums over its volume entries, over its storage group entries and over its SRP entries |
| CapacityTotals.DashBreaksTheSum | internal/service/metric/capacity_metrics.go:252-257 | two records that show the sums parting where an array ID holds a dash |
| CapacityTotals.GroupPercentIsWeightedMean | internal/service/metric/metrics_recorder_wrapper.go:91-93 | the published percentage of a group with positive capacities is the capacity-weighted mean of its members' percentages |
| CapacityTotals.GroupPercentWithinMembers | internal/service/metric/metrics_recorder_wrapper.go:91-93 | it lies within any bounds that hold for all members, so between their minimum and maximum |
| CapacityTotals.GroupPercentInRange | internal/service/metric/metrics_recorder_wrapper.go:91-93 | it lies in [0, 100] when every member uses between nothing and its total |
| CapacityPipeline.CapacityHierarchy | internal/service/metric/capacity_metrics.go:58-70 | for any handles, client answers and schedule, arrays are the sums of their volumes, storage groups and SRPs, and all five maps agree on the grand total |
| CapacityPipeline.CapacitiesAreScheduleIndependent | internal/service/metric/capacity_metrics.go:94-258 | keys and sums of all five maps do not depend on worker scheduling |
| CapacityPipeline.ArrayCapacityIsItsOwn | internal/service/metric/capacity_metrics.go:101-116 | an array's published Total and Used are the sums over the records of its own worker |
| CapacityPipeline.CapacityStreamOfArray | internal/service/metric/capacity_metrics.go:101-116 | in every completed run an array's records in the stream are, in order, one for each of its volumes with an answer, as listed for CapacityGather.ArrayRecordsAre, and none without a live client |
| CapacityPipeline.StreamIsDashFree | internal/service/metric/capacity_metrics.go:84-92 | every record of a completed run has a dash-free array ID |
| CapacityPipeline.PlaceholderIff | internal/service/metric/capacity_metrics.go:119-137 | a completed run delivers the empty record, once, if and only if no handle can be parsed |
| CapacityPipeline.NothingToCollect | internal/service/metric/capacity_metrics.go:119-137 | the empty record, all of whose labels are empty and readings zero, is then all that is delivered, and the percentage published for it under every grouping divides zero by zero |
| CapacityPipeline.NothingDeliveredIff | internal/service/metric/capacity_metrics.go:94-142 | the stream is empty if and only if some handle can be parsed and no worker has a record |
| CapacityPipeline.NoClientDeliversNothing | internal/service/metric/capacity_metrics.go:107-111 | a completed run of one array without a live client, which delivers nothing |
| CapacityPipeline.SingleLegacyPercent | internal/service/metric/capacity_metrics.go:225-227 | the percentage of a one-record group is the record's UsedPercent if and only if the capacity is not zero |
| CapacityPipeline.SingleBulkPercent | internal/service/metric/capacity_metrics.go:178-195 | on the bulk path if and only if the capacity is positive, or negative with nothing used |
| StorageGroupCounts.CacheIsLastStore | internal/service/metric/performance_metrics.go:126-135 | an entry of the cache is the last store of its array |
| StorageGroupCounts.FreshForFiveMinutes | internal/service/metric/performance_metrics.go:33 | an entry may be served for less than five minutes from when it was stored |
| StorageGroupCounts.ServedCountsAreFresh | internal/service/metric/performance_metrics.go:105-138 | in every interleaving, also when the age is checked after other calls have stored, a served count is one the API returned for that array less than the TTL ago, the last one stored before the look-up, whatever refreshes failed |
| StorageGroupCounts.RefreshesAreApartUnlessOverlapping | internal/service/metric/performance_metrics.go:105-138 | two refreshes of an array are at least the TTL apart unless the second call looked the entry up before the first refresh was stored |
| StorageGroupCounts.RefreshesAreApart | internal/service/metric/performance_metrics.go:105-138 | without overlapping calls for an array its refreshes are at least the TTL apart |
| CollectorRuns.RunKeepsInv | internal/service/metric/performance_metrics.go:356-406 | at every step of a collection its events are at most one whole call per array, begun in this collection, and the log is a run of the cache |
| CollectorRuns.AnyCallsTogether | internal/service/metric/performance_metrics.go:356-406 | the workers of any arrays, up to the limit, can be waiting for the API at once |
| CollectorRuns.CollectorRunsAreSequential | internal/service/metric/performance_metrics.go:356-427 | in every run of the collector, whatever the interleaving of its workers' steps, calls for one array do not overlap |
| CollectorRuns.CollectorRefreshesAreApart | internal/service/metric/performance_metrics.go:105-138 | so in every run of the collector the refreshes of an array are at least the TTL apart |
| StorageGroupCounts.OverlappingCallsRefreshTwice | internal/service/metric/performance_metrics.go:105-138 | the cache alone would let two overlapping calls for one array both refresh it |
| StorageGroupCounts.CountCache.GetTotalSGCount | internal/service/metric/performance_metrics.go:105-138 | a call serves the cached count when fresh and else comes to the API's answer, a panic for nil; it stores only a success, and keeps the log a run whose cache is the field |
| StorageGroupPerformance.CollectSGMetricsBulk | internal/service/metric/performance_metrics.go:431-471 | returns true exactly when the answer has a record for a requested group or nothing is requested; what was sent is the filtered answer, and nothing when it returns false |
| StorageGroupPerformance.CollectSGMetricsLegacy | internal/service/metric/performance_metrics.go:475-520 | panics if and only if the perf keys, or the readings of a group that is asked for, are nil; otherwise appends to the channel, for each requested group, exactly its per-group readings in order, and nothing else; a panic leaves some groups sent in full |
| StorageGroupPerformance.LastAvailTimes | internal/service/metric/performance_metrics.go:488-494 | the times of the requested groups listed, the last listing winning |
| StorageGroupPerformance.LastTimeIsLast | internal/service/metric/performance_metrics.go:488-494 | a group's time is that of its last listing, and there is none when it is not listed |
| StorageGroupPerformance.GroupRecordsAre | internal/service/metric/performance_metrics.go:495-519 | on the per-group path a group has exactly the readings its call answers at that time, each in a record of its array and group, and none when no time is listed or the call fails |
| StorageGroupPerformance.TriesBulkIff | internal/service/metric/performance_metrics.go:386 | the bulk call is tried if and only if the count was had, neither it nor the request is empty, and the request is more than the ratio times the count |
| StorageGroupPerformance.DefaultRatioIsAQuarter | internal/service/metric/performance_metrics.go:41 | with the default ratio that is more than a quarter |
| StorageGroupPerformance.CollectStorageGroups | internal/service/metric/performance_metrics.go:373-404 | panics if and only if the list of groups is nil, or the bulk answer is not used and a per-group answer that is read is nil; otherwise an array's stream is exactly the filtered bulk answer or exactly the per-group result, never a mix, for every combination of errors, nil and empty answers |
| StorageGroupPerformance.WorkerStreamOfGroup | internal/service/metric/performance_metrics.go:373-404 | an array's stream has nothing of a group that is not requested; of a requested one its readings in the bulk answer if enough groups are requested and the answer has a reading for one, and else what its own call answers |
| StorageGroupPerformance.WorkerPanicsIff | internal/service/metric/performance_metrics.go:373-404 | the worker panics if and only if the list of groups is nil, or the bulk answer is not used and the perf keys are nil or the call of a requested group, at its last listed time, answers nil |
| StorageGroupPerformance.NilKeysPanic | internal/service/metric/performance_metrics.go:482-489 | a nil bulk answer is made good, nil perf keys are not |
| StorageGroupPerformance.BulkStreamPerGroup | internal/service/metric/performance_metrics.go:446-464 | on the bulk path a requested group has exactly the readings of the instances with its ID, in order, and any other group none |
| StorageGroupPerformance.InstancesOfConcat | internal/service/metric/performance_metrics.go:446-464 | the readings of a group are those of its instances one after the other |
| StorageGroupPerformance.OmittedIffNoReadings | internal/service/metric/performance_metrics.go:445-470 | a bulk answer is usable if and only if some requested group has a reading in it; a requested group then goes without a record if and only if no instance of it has a reading |
| StorageGroupPerformance.BulkCanOmitARequestedGroup | internal/service/metric/performance_metrics.go:465-470 | a usable bulk answer can leave a requested group without a record the per-group path would have sent |
| PerformancePipeline.GroupStreamOfArray | internal/service/metric/performance_metrics.go:356-426 | in every schedule the records of an array in the stream are exactly its filtered bulk answer or exactly its per-group result |
| PerformancePipeline.VolumeStreamOfArray | internal/service/metric/performance_metrics.go:230-316 | in every schedule the records of an array in the stream are exactly the join of its results, as listed for VolumePerformance.JoinedRecordsAre, and none without a time, a live client or an answer |
| PerformancePipeline.VolumeStreamJoinsNamedVolumes | internal/service/metric/performance_metrics.go:263-287 | with `=`-free volume IDs every record of a completed run joins a result to the last volume whose handle names it and takes every Kubernetes field from that volume, or is the placeholder of a run without arrays |
| VolumePerformance.BuildIndexes | internal/service/metric/performance_metrics.go:150-175 | the group index has the storage groups of each array's volumes; the volume index maps each key to the last volume with it |
| VolumePerformance.CollectorsAgreeOnArrays | internal/service/metric/performance_metrics.go:148-175 | both collectors work on the same arrays, and the groups asked of an array are those of the volumes grouped under it |
| VolumePerformance.JoinResults | internal/service/metric/performance_metrics.go:263-287 | the worker sends, in order, one record for each result with a sample whose key finds a volume whose group's text occurs in the text of the result's groups |
| VolumePerformance.JoinedRecordsAre | internal/service/metric/performance_metrics.go:263-287 | in the results' order one record for each result that has a sample and whose key finds a volume, the last with it, whose group occurs in the text of its groups; each has the result's ID and first sample and the volume's own fields |
| VolumePerformance.CollectVolumes | internal/service/metric/performance_metrics.go:254-288 | the worker panics if and only if the answer is nil without an error, sends nothing for an error, and else the join of its results |
| VolumePerformance.ContainsIsMembershipIff | internal/service/metric/performance_metrics.go:265 | for a comma-free group the test asks whether a listed group contains it, and is membership in the list if and only if the group is listed or no listed group merely contains it |
| VolumePerformance.ContainsIsMembership | internal/service/metric/performance_metrics.go:265 | it is membership wherever no listed group contains the group without being it |
| VolumePerformance.CommaGroupIsNeverListed | internal/service/metric/performance_metrics.go:265 | a group with a comma is in no list, so every join through one is wrong |
| VolumePerformance.RecordsAreListedIff | internal/service/metric/performance_metrics.go:263-287 | with comma-free groups the records sent are those that membership would send if and only if no result with a sample has its volume's group merely contained in a listed one |
| VolumePerformance.SubstringJoinsAnotherGroup | internal/service/metric/performance_metrics.go:265 | a volume in group `sg1` is joined to a result that lists only `sg10` |
| VolumePerformance.KeyFindsTheNamedVolume | internal/service/metric/performance_metrics.go:264 | with `=`-free volume IDs the key finds the last volume whose handle names the pair, and nothing when none does |
| VolumePerformance.KeyFindsAnotherIff | internal/service/metric/performance_metrics.go:264 | for any IDs, the volume found is on another array or another volume than asked if and only if an `=` makes the two pairs overlap |
| VolumePerformance.LookUpIsRightIff | internal/service/metric/performance_metrics.go:264 | for any volumes and IDs the look-up finds the last volume named by the pair, or nothing when none is, if and only if every volume whose IDs overlap the pair is followed by one that the pair names |
| VolumePerformance.RecordsJoinTheirVolume | internal/service/metric/performance_metrics.go:263-287 | every record joins a result to the last volume whose handle names it and takes every Kubernetes field from that volume |
| VolumePerformance.EqualsSignPicksAnotherVolume | internal/service/metric/performance_metrics.go:263-287 | two volumes and a result for an array that is asked whose record takes its fields from a volume of another array |
| TopologyLabels.HaveLabelsChanged | internal/service/metric/metrics_recorder_wrapper.go:349-363 | flags a change exactly when a shared key carries two values, and updates the list it was given in place, keys and length unchanged |
| TopologyLabels.UpdatedValueIsLastDifferent | internal/service/metric/metrics_recorder_wrapper.go:352-361 | a label ends with the value of the last new label with its key that differs from its own, and keeps its own when there is none |
| TopologyLabels.UpdateAgreesIffConsistent | internal/service/metric/metrics_recorder_wrapper.go:349-363 | the updated list agrees with the new labels on every shared key if and only if equal keys of the new labels carry equal values, and so does a second update change nothing |
| TopologyLabels.InconsistentLabelsFlip | internal/service/metric/metrics_recorder_wrapper.go:349-363 | an inconsistent list makes the update alternate between two results |
| TopologyLabels.MetricsRecorderWrapper.InitTopologyMetrics | internal/service/metric/metrics_recorder_wrapper.go:311-322 | stores a new instrument and the given list under one ID in both maps |
| TopologyLabels.MetricsRecorderWrapper.UpdateLabels | internal/service/metric/metrics_recorder_wrapper.go:324-346 | both maps keep the same keys; a known ID keeps its own list, updated in place, and gets a new instrument exactly when a label changed; other IDs keep both |
| TopologyLabels.TopologyLabelsConsistent | internal/service/metric/metrics_recorder_wrapper.go:262-276 | the recorded list, which repeats the storage class, is consistent, so an update with it always agrees |
| TopologyLabels.RerecordedLabelsAgree | internal/service/metric/metrics_recorder_wrapper.go:255-287 | after recording a volume again its cached labels are the new ones, whatever they were |
| TopologyLabels.PublishedOf | internal/service/metric/metrics_recorder_wrapper.go:262-276 | each label recorded for a volume, by the field of the volume it comes from through the gathered meta |
| TopologyLabels.PoolIsNotPublished | internal/service/metric/topology_metrics.go:127 | volumes that differ only in their SRP have the same labels, although the SRP is gathered |
| TopologyLabels.MetricsRecorderWrapper.RecordTopologyMetrics | internal/service/metric/metrics_recorder_wrapper.go:255-287 | after any sequence of recordings each volume's cached list is that of its last recording, and nothing else is cached |
| Connections.GetManagementServer | internal/k8spmax/k8spmax.go:145-152 | finds the first server with the endpoint, or none |
| Connections.BuildTable | internal/k8spmax/k8spmax.go:55-143 | each identifier's connections over all its entries in configured order; no other key |
| Connections.RowsAreInSlotOrder | internal/k8spmax/k8spmax.go:57-98 | a row holds exactly the primaries of the array's entries and the backups with a host, entry by entry and primary before backup; each with its entry's endpoint and the credentials of the first server with it, from where the configuration's source keeps them |
| Connections.KeepAlive | internal/k8spmax/k8spmax.go:219-245 | each row keeps exactly the connections that could be dialled and authenticated, in order; arrays with none are dropped |
| Connections.LoadedRowIs | internal/k8spmax/k8spmax.go:219-245 | a load keeps of an array exactly the connections that authenticated, in configured order, as configured but for the active mark and the client |
| Connections.LoadTable | cmd/metrics-powermax/main.go:214-229 | a load gives every array a new row of the connections that authenticated, in configured order |
| Connections.ChosenIsFirstAuthenticated | internal/service/metric/base_metrics.go:64-78 | of a filtered row the client chosen is that of the first position that authenticated; none is chosen only when none did |
| Connections.LoadedChoiceIsFirstInOrder | internal/service/metric/base_metrics.go:64-78 | for all entries, servers and answers, of the built and filtered table the client chosen for an array is that of the first connection in configured order, primary before backup, that authenticated; none only when none did |
| ConnectionRuns.ChosenIsIntendedIff | internal/entrypoint/run.go:259-272 | over any run of loads, probes and exports the client used is that of the first configured connection whose latest authentication succeeded if and only if no load has succeeded since the first export and the last probe, if any, authenticated it; none is rightly used if and only if no load has succeeded since then or all the last load authenticated were refused by the last probe |
| ConnectionRuns.WrittenProbeChoosesTheIntended | internal/entrypoint/run.go:259-272 | with the last verdicts written to the rows of the service's table the choice would be the right one in every run |
| ConnectionRuns.LaterLoadIsNotSeen | internal/service/metric/capacity_metrics.go:42-55 | a run in which a second load's client should be used and the first one's is |
| ConnectionRuns.EarlyExportNeverCollects | internal/service/metric/base_metrics.go:46-53 | a run whose first export precedes the first load, in which a client should be used and none is |
| ConnectionRuns.FailedProbeIsNotSeen | internal/entrypoint/run.go:261-268 | a run in which a client that has just failed is used on |
| ConnectionRuns.ValidatePowerMaxArrays | internal/entrypoint/run.go:259-272 | the probe computes a verdict for every connection and leaves the service and every row unchanged |
| ConnectionRuns.PowerMaxService.GetPowerMaxClients | internal/service/service.go:46-50 | a snapshot maps the same arrays to the same shared rows |
| ConnectionRuns.PowerMaxService.SetPowerMaxClients | internal/service/service.go:53-57 | the service's table becomes the given one |
| ConnectionRuns.BaseMetrics.GetPowerMaxClient | internal/service/metric/base_metrics.go:64-78 | the client of the first active connection of the array's row; an error exactly when there is none |
| ConnectionRuns.BaseMetrics.CheckExport | internal/service/metric/base_metrics.go:82-100 | collection starts only with a collector, a recorder, a table and a limit that is not zero; the error names the first that is missing |
| ConnectionRuns.Exporter.UpdatePowerMaxArrays | cmd/metrics-powermax/main.go:214-229 | a load that succeeds replaces the service's table by the new one, one that fails leaves it; the collector stays what it is |
| ConnectionRuns.Exporter.UpdateMaxConnections | cmd/metrics-powermax/main.go:330-345 | a changed limit reaches the service and not the collector |
| ConnectionRuns.Exporter.OnLivenessProbe | internal/entrypoint/run.go:230-232 | a probe changes neither the service's table nor the collector |
| ConnectionRuns.Exporter.CreateInstance | internal/service/metric/capacity_metrics.go:42-55 | the first export makes the collector from the service's table and limit; every later one returns that same object |
| ConnectionRuns.Exporter.ClientFor | internal/service/metric/base_metrics.go:64-78 | after any operations the client used is the choice from the table loaded last before the first export |
| ConnectionRuns.CollectorKeepsFirstTable | internal/service/metric/base_metrics.go:46-53 | whatever happens afterwards, the collector knows of exactly the operations before the first export |
| ConnectionRuns.KeptIsCurrentIff | internal/service/metric/base_metrics.go:46-53 | the collector's row of an array is the service's current one if and only if no load has succeeded since the first export or neither has a connection; its limit if and only if the limit set last since then, if any, is the same |
| RunLoop.ValidateConfig | internal/entrypoint/run.go:311-329 | accepts exactly a configuration whose three intervals are in range, and names one that is not |
| RunLoop.RangeIsFiveSecondsToADay | internal/entrypoint/run.go:40-43 | the range is from five seconds to 24 hours, both included |
| RunLoop.Run | internal/entrypoint/run.go:103-257 | the loop over any turns ends in the state the step function gives, and does not start on a rejected configuration |
| RunLoop.RunEndsIff | internal/entrypoint/run.go:175-256 | a run has failed if and only if its last turn received an error that is not nil, is cancelled if and only if it found the context done or was a burst cut short, has panicked if and only if it went on to read an interval that is not positive, and goes on otherwise; a nil error ends nothing |
| RunLoop.LoopVariables.OnLeaderPoll | internal/entrypoint/run.go:177-224 | a poll's effect on flags, log and tickers, also when cancelled inside the burst |
| RunLoop.LoopVariables.OnTick | internal/entrypoint/run.go:225-229 | a tick is consumed and, but for performance, its collection called |
| RunLoop.LoopVariables.CollectMetrics | internal/entrypoint/run.go:274-308 | a collection asks for leadership, then its flag, then exports |
| RunLoop.LoopVariables.CheckIntervals | internal/entrypoint/run.go:242-255 | changed intervals are adopted in order with new tickers, up to a panic on one that is not positive |
| RunLoop.BurstsAreLeadershipEdges | internal/entrypoint/run.go:171-224 | at every loop head both flags equal the last poll's answer, and the number of bursts is the number of false-to-true edges, cancelled bursts included |
| RunLoop.TickersRunAtTheLocalIntervals | internal/entrypoint/run.go:157-255 | at every loop head each live ticker's period is its positive local interval, which is the one last read |
| RunLoop.TickersAreRegular | internal/entrypoint/run.go:157-255 | at every loop head the next tick of each kind is due a whole number of periods after its ticker's last start (of the run, by a completed burst, or by a changed interval): one period after it, or within one period after the last tick received since |
| RunLoop.PanicsExactlyOnNonPositiveInterval | internal/entrypoint/run.go:243-255 | a turn panics if and only if it goes on to read an interval that is not positive |
| RunLoop.RangeHoldsExactlyWhenRead | internal/entrypoint/run.go:316-326 | the intervals are in the start-up range after a turn if and only if the ones it read were |
| RunLoop.ReloadEscapesTheRange | internal/entrypoint/run.go:243-255 | a reload to one second, below the start-up range, is accepted |
| RunLoop.ReloadToZeroPanics | cmd/metrics-powermax/main.go:289-328 | a reload of any one interval to zero seconds ends the run in a panic |
| RunLoop.NoEarlyTickAfterBurst | internal/entrypoint/run.go:207-255 | after a completed burst the next tick of each kind comes no sooner than one full period of its live ticker after its reset, across any turns between |
| RunLoop.ExportsAreGuarded | internal/entrypoint/run.go:274-308 | over any run every export is immediately preceded by a true leader check and a true reading of its own flag |
| RunLoop.ExportsCounted | internal/entrypoint/run.go:225-229 | the exports of a kind are its burst exports plus, but for performance, one for each tick while leading and enabled |
| RunLoop.EachLeadingTickExportsIff | internal/entrypoint/run.go:225-229 | one export for each tick while leading and enabled holds for capacity and topology, and for performance if and only if there was no such tick |
| RunLoop.PerformanceTickCollectsNothing | internal/entrypoint/run.go:227 | one performance tick while leading and enabled, and no export |

## Left out

- OpenTelemetry meters, callbacks and the exporter: a recording is a call that returns and succeeds or fails.
- REST calls: every client answer is a parameter. That client and recorder calls return is assumed where runs are said to be bounded.
- The Kubernetes client, informers, lease internals and secret files: only the polled leader status, the volume list and the reloaded table appear.
- Viper and environment reading, TLS checks, the self-metrics server in `main.go`, `init` in `performance_metrics.go`: the limit, the threshold, the flags and the intervals are parameters.
- IEEE 754: sums and percentages are over reals, where addition is associative and 0/0 has no value (`None`). The schedule independence of float64 sums holds up to rounding only.
- CapacityTotals.FoldIsOrderIndependent: says nothing about the labels of a merged entry that its key does not fix, because they are those of whichever record arrived first.
- The recording goroutines after the fold and the push stages of the performance collector: the same shape as the third stage of the topology pipeline.
- The loop that fills `array2LastAvailTime` (performance_metrics.go:206-228): it decides only whether a worker sends anything, and panics on a nil answer before the pool starts.
- CapacityPipeline.CapacityHierarchy: like every result about completed runs of the pool, speaks of runs in which no worker panics; a panic ends the process, and the step relation of the pool has no step for it.
- PerformancePipeline.GroupStreamOfArray: the same.
- PerformancePipeline.VolumeStreamOfArray: the same.
- WorkerPool.RunKeepsInv: a worker's client calls happen within the step that sends its first record, and a record's receipt is the consumer's fold of it.
- TopologyPipeline.RunKeepsInv: `wg.Add` and the `go` statement after it are one step; both are done by the goroutine that later waits.
- StorageGroupCounts.CountCache.GetTotalSGCount: one call at a time; interleaved calls are covered by the lemmas about event logs.
- CollectorRuns.CollectorRunsAreSequential: that a collection begins when the one before has completed is the main loop being one goroutine whose export calls wait for their collection; the loop's turns and the collector's steps are not one state machine. A worker may also send before its call, which the code does not.
- ConnectionRuns.ChosenIsIntendedIff: one collector stands for the three, each of which has a first export of its own; a nil table is an empty one.
- TopologyLabels.MetricsRecorderWrapper.UpdateLabels: one call at a time and a new list at every call, as `RecordTopologyMetrics` makes it; concurrent recordings of one volume are not modelled.
- Connections.BuildTable: one method, with a flag in the configuration, stands for `getPowerMaxArrays` and `getPowerMaxArraysFromSecret`, which differ in where a server keeps its credentials.
- RunLoop.Run: over any finite sequence of turns; the interval fields are taken not to change between `ValidateConfig` and the first reading of them, and the period of the leader poll and of the probe is not modelled.
- RunLoop.NoEarlyTickAfterBurst: relies on Go's timers since 1.23 (`go.mod` asks for 1.27), after which no tick from before a `Reset` is received; the drains before the resets are then without effect.
- `UnitsConvert`, the volume and storage class finders, `recordObsMetrics`, logging: no property beyond their bodies.
