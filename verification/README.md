# Heapster, modelled and proved

Heapster moves batches of metrics through a fixed pipeline: sources are scraped, processors complete and
roll up the batch, sinks receive it. This project models the parts of that pipeline whose behaviour is
hard to see from any one function, and proves what they promise over every input, every map order and
every run.

What is modelled:

- **Processors.** The rate calculator, the pod-based enricher and the pod, namespace, node and cluster
  aggregators. Go ranges over maps in arbitrary order, so each processor is a step function folded over
  an arbitrary order of the keys, and every theorem holds for every order. Classes with the source's
  fields and in-place updates (`PodAggregatorImpl`, `RollupImpl`, `EnricherImpl`, `RatesImpl`) are proved
  to do what the step functions say. int64 arithmetic wraps as in Go; sums are exact modulo 2^64.
- **The metric sink.** Two stores popped incrementally, against one filter of the history; queries,
  against a naive scan of the history.
- **Protocols.** The sink manager, the housekeeping loop, the scrape collector, the Stackdriver request
  workers and the event buffer are transition systems: a state, the events enabled in it, and what each
  does. Theorems hold in every state reachable by any sequence of enabled events.
- **Labels.** Joining labels in one file and splitting them in another, as a round trip.
- **The Hawkular definition cache**, with explicit expiry, against a history that forgets nothing.

The main results are `Pipeline.PipelineShowsDemand`, `ClusterDemand.ClusterShowsDemand`,
`SpecRollup.KnownPodShowsItsSpec`, `EnrichedSets.EnrichedMeaning`, `Conservation.ClusterConservesPods`,
`RolledSets.NodeMeaning`, `RolledSets.NamespaceMeaning`, `RateFields.RateWrittenExactlyWhen`,
`PodAggregation.PodAggregationMeaning`, `RateRuns.IntegralRecoversUsage`, `RateRuns.RatesOverRuns`,
`Retention.RetentionMeaning`, `Queries.LongQueryIsNaiveScan`, `SinkManager.FanOutSafety`,
`SinkManager.InOrderExactlyWhen`, `SinkBatches.BatchesAreSubsequence`, `QueryAnswers.LabeledAnswers`,
`Housekeeping.OverlapFreeExactlyWhen`, `Scraping.CollectionMeaning`,
`ScrapeRuns.ResponseFixedExactlyWhenAgree`, `LabelTags.LabelsRoundTrip`,
`RequestWorkers.RequestsAccountedFor`, `Hawkular.CheckMeaning`, `EventBuffer.DeliveredInOrder`,
`Keys.KeysAreUnique` and `KeyClashes.PodKeysUniqueExactlyWhen`.

Where a promise fails on some inputs, a lemma gives such an input and the exact condition is proved:

- a clash of the pod aggregator's flag keys (`FlagClashes.KeptExactlyWhen`, `FlagClashes.ClashCanHappen`);
- metric types that differ among the values of one roll-up (`RollupOrder.OrderFreeExactlyWhenAlike`,
  `PodOrder.OrderFreeExactlyWhenAlike`, each with `FirstTypeShows`);
- two resources that share a request metric (`Enrichment.StatedExactlyWhenPlain`, `Enrichment.TwinLast`);
- labels stored under one name (`Labels.OrderFreeExactlyWhenAgree`, `Labels.SharedNameShows`) or under one
  that starts with "label." (`LabelTags.LabelsRoundTrip`, `LabelTags.StoredLabelStrays`);
- a negative scrape offset (`Housekeeping.OverlapFreeExactlyWhen`, `Housekeeping.NegativeOffsetRepeats`);
- values that are not int64 gauges in the long store (`Queries.LongQueryIsNaiveScan`, `Queries.FloatIsLost`);
- sources that answer for the same key (`ScrapeRuns.ResponseFixedExactlyWhenAgree`,
  `Scraping.DisagreementShows`);
- overlapping callers of the sink manager (`SinkManager.InOrderExactlyWhen`,
  `SinkManager.OverlappingCallsCanSwap`);
- '/' in pod, namespace and node names (`KeyClashes.PodKeysUniqueExactlyWhen`,
  `KeyClashes.NamespaceKeysUniqueExactlyWhen`, `KeyClashes.NodeKeysUniqueExactlyWhen`,
  `KeyClashes.NamesThatClash`).

Where comments and code differ the model follows the code: the comment on the keys promises uniqueness
without a condition (metrics/core/ms_keys.go:21-24), the metric sink keeps the last batch whatever its age
though its stores are described as lasting some seconds (metrics/sinks/metric/metric_sink.go:32-35).

Times are integers (nanoseconds), floats are reals, clocks, orders and interleavings are parameters.
`dafny verify dfyconfig.toml` checks the project.

## Model

| member | source | states |
|---|---|---|
| Keys.KeysAreUnique | metrics/core/ms_keys.go:21-48 | two entities whose namespace, pod and node names have no '/' and that share a key are the same entity: every key function is injective and their ranges are disjoint, whatever the container names |
| KeyClashes.PodKeysUniqueExactlyWhen | metrics/core/ms_keys.go:21-48 | for any set of pod names, with '/' nowhere else, all keys are unique if and only if no pod name begins with another one followed by "/container:" |
| KeyClashes.NamespaceKeysUniqueExactlyWhen | metrics/core/ms_keys.go:21-48 | for any set of namespace names, with '/' nowhere else, all keys are unique if and only if no namespace name is another one, "/pod:" and the rest of a pod's or a container's key |
| KeyClashes.NodeKeysUniqueExactlyWhen | metrics/core/ms_keys.go:21-48 | for any set of node names, with '/' nowhere else, all keys are unique if and only if no node name begins with another one followed by "/container:" |
| KeyClashes.NamesThatClash | metrics/core/ms_keys.go:26-44 | a pod and a container, a namespace and a pod, a node and a node's container that share a key |
| Keys.HeadsDecide | metrics/core/ms_keys.go:26-48 | what comes before the first '/' fixes the family and the node or namespace |
| Keys.TailsDecide | metrics/core/ms_keys.go:26-44 | within a family what comes after the first '/' fixes pod and container, even when node-container names contain '/' |
| Core.MetricSet.constructor | metrics/core/types.go:120-132 | a set literal with labels has the zero times, no values and no labelled metrics |
| PodAggregation.PodAggregationMeaning | metrics/processors/pod_aggregator.go:42-105 | for every regular batch and every map order the run succeeds; the keys of the result are the old ones and the named pods; no existing set changes anything but its values; a made-up pod is a new set labelled from one of its containers; each pod metric is kept if it was there, and otherwise has its containers' type, shows the 64-bit sum over them and is but for the amount one of theirs, or is absent |
| PodAggregation.AbsentMetricIsSummed | metrics/processors/pod_aggregator.go:71-99 | a metric the pod lacked shows the sum of what its containers report, in every order |
| PodAggregation.PresentMetricIsKept | metrics/processors/pod_aggregator.go:76-98 | a metric the pod came with is unchanged in every order unless its flag key podKey+metricName clashes with that of an absent, rolled-up pair |
| PodAggregation.FlagsHaveAReason | metrics/processors/pod_aggregator.go:77-81 | a flag is only ever up for a pair that was absent and rolled up, or that shares the concatenation with one |
| FlagClashes.KeptExactlyWhen | metrics/processors/pod_aggregator.go:76-98 | a metric the pod came with is kept in every map order if and only if no other pair shares its flag key while absent and rolled up, or no container of the pod has anything but zero to add to it |
| FlagClashes.ClashedMetricIsAddedTo | metrics/processors/pod_aggregator.go:78-98 | once the flag is up, the pod's own value ends with every container that follows counted on top |
| FlagClashes.KeptMeansNothingToAdd | metrics/processors/pod_aggregator.go:78-81 | with a clash, two orders that differ in whether a container comes before the clashing one tell that container's value apart from zero |
| FlagClashes.ClashCanHappen | metrics/processors/pod_aggregator.go:76-98 | a batch with such a clash, in which the metric the pod came with is not kept in every order |
| PodOrder.OrderFreeExactlyWhenAlike | metrics/processors/pod_aggregator.go:76-98 | in a regular batch the whole value of a metric the pod lacked, metric type and unused field included, is the same in every map order if and only if the values rolled up differ in their amounts only |
| PodOrder.FirstTypeShows | metrics/processors/pod_aggregator.go:76-80 | two containers, one reporting a gauge and one a counter, that tell two orders apart |
| FlagClashes.SupportedSucceeds | metrics/processors/pod_aggregator.go:87-94 | with supported types no order makes the aggregator return an error, clash or not |
| PodAggregation.RegularSucceeds | metrics/processors/pod_aggregator.go:82-94 | with consistent supported types no order makes the aggregator return an error |
| PodAggregation.PodsMadeUp | metrics/processors/pod_aggregator.go:60-69 | the pods made up are exactly those named by a container and not in the batch |
| PodAggregation.NewPodsHaveAContainer | metrics/processors/pod_aggregator.go:107-120 | a made-up pod is labelled from one of its own containers |
| PodAggregation.SkippedNeverRolledUp | metrics/processors/pod_aggregator.go:72-74 | a skipped metric is in a pod after aggregation exactly when it was there before |
| PodAggregation.ContainersKept | metrics/processors/pod_aggregator.go:47-100 | container sets and sets no container names stay as they were |
| PodAggregation.KindsKept | metrics/processors/pod_aggregator.go:42-105 | no set changes times, labels or labelled metrics |
| PodAggregatorImpl.PodAggregator.constructor | metrics/processors/pod_aggregator.go:122-133 | the skipped metrics are exactly the standard metrics that are not gauges |
| PodAggregatorImpl.PodAggregator.AddValues | metrics/processors/pod_aggregator.go:71-99 | the inner loop in any order of the values: the pod's values, the flags and whether an error is returned |
| PodAggregatorImpl.PodAggregator.PodMetricSet | metrics/processors/pod_aggregator.go:107-120 | a fresh pod set carrying the type and those of the populated labels that the container has |
| PodAggregatorImpl.PodAggregator.FindPod | metrics/processors/pod_aggregator.go:60-69 | the pod from the batch, from the new pods, or a fresh one filed with the new pods |
| PodAggregatorImpl.PodAggregator.Visit | metrics/processors/pod_aggregator.go:47-100 | one round of the loop over the batch changes the heap as one step of the specification |
| PodAggregatorImpl.PodAggregator.Process | metrics/processors/pod_aggregator.go:42-105 | the batch ends as the aggregation of its old contents in some order of its keys, or an error is returned exactly when that order fails; existing sets keep their identity |
| Rollup.AddAllMetric | metrics/processors/helper.go:23-48 | each listed metric of the source is added once into its own metric of the destination; other metrics are untouched |
| Rollup.AddAllSucceeds | metrics/processors/helper.go:31-41 | aggregate returns no error exactly when every listed metric meets one of its own supported type or none |
| Rollup.TargetIsSummed | metrics/processors/namespace_aggregator.go:30-63 | each listed metric of each target of any of the three aggregators ends at its prior value plus the sum over the sets rolled into it, in every order |
| Rollup.SucceedsExactlyWhenAddable | metrics/processors/helper.go:23-48 | a run of any of the three aggregators succeeds, in any order, if and only if all the values that meet can be added |
| Rollup.KindsKept | metrics/processors/node_aggregator.go:31-56 | no aggregator changes a set's times, labels or labelled metrics |
| Rollup.SourcesKept | metrics/processors/cluster_aggregator.go:27-40 | a set that nothing is rolled into is untouched |
| Conservation.ClusterConservesPods | metrics/processors/cluster_aggregator.go:27-40 | after the namespace, node and cluster aggregators in any orders, each cluster value is the 64-bit sum over all pods with a namespace label, and is absent exactly when no such pod has the metric |
| RolledSets.NodeMeaning | metrics/processors/node_aggregator.go:31-56 | in every order, from the labels alone: each node in the batch ends at what it had plus the sum over the pods whose nodename names it; no node is made up and nothing else changes |
| RolledSets.NamespaceMeaning | metrics/processors/namespace_aggregator.go:30-73 | in every order, from the labels alone: the namespace of every pod is there and shows what it had plus the sum over the pods whose namespace_name names it; one that was missing carries that name and the id one of its pods gives; nothing else changes |
| RolledSets.ClusterMeaning | metrics/processors/cluster_aggregator.go:27-49 | in every order, from the labels alone: a new cluster set shows the sum over all sets of type ns, has no other metric than those listed, and nothing else changes |
| Conservation.NodeGainsItsPods | metrics/processors/node_aggregator.go:31-56 | each node ends at its prior value plus the sum over the sets rolled into it, in every order |
| Conservation.OrderDoesNotShow | metrics/processors/namespace_aggregator.go:32-58 | two runs in different map orders report the same amount and value type for every target and metric |
| RollupOrder.OrderFreeExactlyWhenAlike | metrics/processors/helper.go:23-48 | where all values that meet can be added, the whole value of a target's metric, metric type and unused field included, is the same in every map order if and only if the target had it before or the values rolled up differ in their amounts only |
| RollupOrder.FirstLeavesItsMark | metrics/processors/helper.go:42-44 | but for the amount, the value is that of the first set the order brings |
| RollupOrder.FirstTypeShows | metrics/processors/helper.go:42-44 | two pods, one reporting a gauge and one a counter, that tell two orders apart |
| Conservation.AddsUpToOneReport | metrics/processors/helper.go:35-39 | values that add up from the same parts report the same amount, wrap-around included |
| Conservation.RestKept | metrics/processors/helper.go:24-28 | metrics that are not listed are untouched in every set |
| Conservation.UniformNamespacesSucceed | metrics/processors/namespace_aggregator.go:54-56 | with one supported type per metric the namespace aggregator returns no error |
| Conservation.UniformClusterSucceeds | metrics/processors/cluster_aggregator.go:33-35 | and then neither does the cluster aggregator, after any namespace and node runs |
| RollupImpl.Aggregate | metrics/processors/helper.go:23-48 | the loop over the metric names, stopping at the first that cannot be added, writes the specified sums into the destination only |
| RollupImpl.NamespaceAggregator.Visit | metrics/processors/namespace_aggregator.go:33-56 | one round of the loop, with the namespace found in the batch or made up |
| RollupImpl.NamespaceAggregator.Process | metrics/processors/namespace_aggregator.go:30-63 | the batch ends as the specified roll-up of its old contents in some order, with the namespaces made up filed; or an error is returned exactly when that order fails |
| RollupImpl.NodeAggregator.Process | metrics/processors/node_aggregator.go:31-56 | the same for nodes; nodes not in the batch are skipped |
| RollupImpl.ClusterAggregator.Process | metrics/processors/cluster_aggregator.go:27-40 | the same for the cluster, whose set is always fresh |
| RollupImpl.ClusterAggregator.ClusterMetricSet | metrics/processors/cluster_aggregator.go:42-49 | a fresh set labelled as the cluster |
| Enrichment.StatedExactlyWhenPlain | metrics/processors/pod_based_enricher.go:172-228 | whatever was there before, in every order of the requests the six request and limit metrics become int64 gauges stating the spec, absent resources being zero, if and only if the container does not request "ephemeral_storage" and "ephemeral-storage" differently |
| Enrichment.ResourcedStates | metrics/processors/pod_based_enricher.go:172-228 | the same for one order and one of the six |
| Enrichment.TwinLast | metrics/processors/pod_based_enricher.go:175-198 | with the two requested differently and "ephemeral_storage" gone through last, the metric does not state the spec |
| Enrichment.RequestWritten | metrics/processors/pod_based_enricher.go:175-198 | the metric of a resource has the request of the last resource in the order that shares it |
| EnrichmentMeaning.EnrichedIsComplete | metrics/processors/pod_based_enricher.go:38-170 | for every batch without request or limit metrics, every pod lister and every map order, each known pod of which a pod or container set was scraped ends with all the containers of its spec present, each stating its spec, and nothing else of the pod stating it |
| EnrichedSets.EnrichedMeaning | metrics/processors/pod_based_enricher.go:38-170 | for every batch filed by its labels, every pod lister and every map order, field by field: a scraped container has the restart count of the first status of its name or keeps what it had, the pod's start time if it has a status, its spec's requests and limits, its image if it had none, the pod's id and what is copied from the pod; a pod has its start time, id and copied labels; all other scraped sets stay; and each other set is a stub for a known pod, with the host of a scraped container, or for one of its containers, with the host of its pod, saying its spec and nothing else |
| EnrichedSets.ContainerHolds | metrics/processors/pod_based_enricher.go:79-101 | the same for one visit to a container: values, create time, labels and what stays |
| EnrichedSets.StubHolds | metrics/processors/pod_based_enricher.go:142-169 | a container stub: its spec and no other value, its labels, and its pod's start of collection as create time |
| EnrichedSets.PodStubHolds | metrics/processors/pod_based_enricher.go:106-129 | a pod stub: no values, its start time and its labels |
| EnrichmentMeaning.RunFiled | metrics/processors/pod_based_enricher.go:79-170 | all sets, stubs included, stay filed under the key their labels say |
| EnrichmentMeaning.IdentitiesKept | metrics/processors/pod_based_enricher.go:100-101 | type, namespace and pod name of every scraped set are kept |
| EnrichmentMeaning.StepVisits | metrics/processors/pod_based_enricher.go:40-61 | a round changes the set it visits and no other set of the batch |
| EnrichmentMeaning.StepGrows | metrics/processors/pod_based_enricher.go:132-170 | what a round adds are stubs for the pod of the set it visits, and a visited pod has all its containers afterwards |
| EnrichmentMeaning.StepBringsPod | metrics/processors/pod_based_enricher.go:103-129 | a visited container brings its pod, with the pod's other containers |
| EnrichmentMeaning.ContainerInfoStates | metrics/processors/pod_based_enricher.go:79-101 | a scraped container states its spec of each of the six resources, or nothing if the spec has no such container |
| EnricherImpl.UpdateRequests | metrics/processors/pod_based_enricher.go:175-198 | the loop over the requests writes one metric per resource, in the order given |
| EnricherImpl.UpdateContainerResourcesAndLimits | metrics/processors/pod_based_enricher.go:172-228 | the set's values become the specified ones, in place |
| EnricherImpl.PodBasedEnricher.FillContainer | metrics/processors/pod_based_enricher.go:79-101 | the container's own set: spec, base image, restart count, create time, pod id and labels |
| EnricherImpl.PodBasedEnricher.AddStubs | metrics/processors/pod_based_enricher.go:142-169 | fresh stubs for the containers of the spec that neither the batch nor the new sets have |
| EnricherImpl.PodBasedEnricher.AddPodStub | metrics/processors/pod_based_enricher.go:106-129 | a fresh stub for a pod nobody has, and its containers |
| EnricherImpl.PodBasedEnricher.Visit | metrics/processors/pod_based_enricher.go:40-61 | one round of the loop; sets of unknown pods are left alone |
| EnricherImpl.PodBasedEnricher.Process | metrics/processors/pod_based_enricher.go:38-66 | the batch ends as the enrichment of its old contents in some order of its keys, for any orders in which the pods' labels are gone through |
| EnricherImpl.SafeCopierKeepsIdentity | metrics/processors/pod_based_enricher.go:100-101 | a label copier that stores nothing over type, namespace or pod name keeps identities |
| SpecRollup.KnownPodShowsItsSpec | metrics/processors/pod_based_enricher.go:38-170 | enricher then pod aggregator, in any orders: a known pod of which anything was scraped ends with each request and limit equal to the sum over all its spec containers, whichever sets were scraped |
| SpecRollup.ContributionsAreTheSpec | metrics/processors/pod_aggregator.go:71-99 | what such a pod is given of a resource is its spec, container by container |
| SpecRollup.RolledUpIsOwn | metrics/core/ms_keys.go:21-48 | in a batch filed by its labels a container is rolled up into a pod's key exactly if it is that pod's container |
| ClusterDemand.ClusterShowsDemand | metrics/heapster.go:234-289 | five processors in a row, each in any order: the cluster's request or limit is the 64-bit sum over the specs of the known pods of which anything was scraped, and absent when there is none |
| Pipeline.PipelineShowsDemand | metrics/heapster.go:234-289 | for every scraped batch in which each metric name has one type that can be added, in any orders, none of the five processors fails and the cluster shows that demand |
| Pipeline.ProcessedTyped | metrics/manager/manager.go:135-143 | such a batch, in any orders, goes through all five processors without an error, and each metric name keeps its type |
| Pipeline.EnrichedTyped | metrics/processors/pod_based_enricher.go:38-66 | the enricher keeps one type for each metric name |
| Pipeline.AggregatedTyped | metrics/processors/pod_aggregator.go:42-105 | the pod aggregator then returns no error and keeps them too |
| Pipeline.RolledTyped | metrics/processors/helper.go:23-48 | and so do the namespace, node and cluster aggregators |
| ClusterDemand.StatingPodIsKnown | metrics/processors/pod_based_enricher.go:41-60 | only known, scraped pods with containers state a resource after aggregation |
| Rates.StandardMappingIsSane | metrics/core/metrics.go:67-76 | in the mapping Heapster sets up no rate is itself turned into a rate, and no two rates share a name |
| RateFields.StandardTargets | metrics/core/metrics.go:67-76 | nine counters are mapped, each to its name with _rate; all targets are floats but that of cpu |
| Rates.GoDivTruncates | metrics/processors/rate_calculator.go:103-104 | integer division leaves a remainder below the divisor with the sign of the dividend |
| Rates.RateReported | metrics/processors/rate_calculator.go:97-124 | whatever order the mapping is gone through, each rate is worked out from the values both sets came with |
| Rates.SourcesKept | metrics/processors/rate_calculator.go:98-120 | no counter is overwritten by a rate |
| Rates.IdentityKept | metrics/processors/rate_calculator.go:44-126 | times and labels stay, and the labelled list only grows at its end |
| Rates.OthersKept | metrics/processors/rate_calculator.go:106-120 | values under other names stay |
| Rates.DiskRatesAppended | metrics/processors/rate_calculator.go:64-96 | the labelled list ends as its original contents followed by the rates of those contents, although the loop appends to the list it ranges over |
| Rates.OneRatePerPair | metrics/processors/rate_calculator.go:65-96 | exactly one rate per disk item with a same-device predecessor, in order, with the item's labels and the rate's name, against the first such predecessor |
| Rates.PredecessorIsFirst | metrics/processors/rate_calculator.go:69-75 | the predecessor found is the first old item of the same metric and device, and is found exactly when there is one |
| RateRuns.AcceptedAreRecords | metrics/processors/rate_calculator.go:33-42 | over any run a batch is accepted if and only if its timestamp is later than that of every batch before it |
| RateRuns.Latest | metrics/processors/rate_calculator.go:33-42 | the latest accepted batch is the one with the greatest timestamp so far, and no later one was accepted |
| RateRuns.LatestIsKept | metrics/processors/rate_calculator.go:127-128 | the previous batch is the one returned for the latest accepted call |
| RateRuns.KeptTimestampGrows | metrics/processors/rate_calculator.go:33-42 | the previous batch's timestamp strictly grows at an accepted batch and stays otherwise |
| RateRuns.RatesOverRuns | metrics/processors/rate_calculator.go:44-126 | over any run every rate emitted is the one between the batch given and the latest accepted batch before it, both as given, with equal start times and positive elapsed time; otherwise the value stays |
| RateFields.RateWrittenExactlyWhen | metrics/processors/rate_calculator.go:33-120 | over any run, on the fields of the batches as given: a rate that was not there is there if and only if the batch brought a later timestamp than all before, the latest such batch before it has the set too, scraped strictly earlier and with the same start, and both have the counter; it is then a gauge, an int64 for cpu and a float otherwise, worked out from the two counters; otherwise the value stays |
| RateFields.RestartedSetUntouched | metrics/processors/rate_calculator.go:44-58 | a set whose collection start changed, that was not scraped later or that is new is returned as it was given |
| RateFields.DiskRatesWritten | metrics/processors/rate_calculator.go:64-96 | over any run the labelled list is the one given followed by the read and the write rates in either order: one for each item of that metric with an old item of the same device, against the first of those, a float gauge labelled like the item |
| RateRuns.DiskRatesOverRuns | metrics/processors/rate_calculator.go:64-96 | the same for the labelled list and its disk rates |
| RateRuns.RejectedUntouched | metrics/processors/rate_calculator.go:33-42 | the first batch and every rejected one are returned unchanged |
| RateRuns.IntegralRecoversUsage | metrics/processors/rate_calculator.go:98-110 | over any run with a fixed start time and a non-decreasing cpu counter, sum of rate times elapsed <= 1000*(last-first) < sum of (rate+1) times elapsed, with rejected batches interleaved freely |
| RateRuns.FloatIntegralRecoversCount | metrics/processors/rate_calculator.go:112-120 | the float rates integrate to exactly what the counter gained or lost |
| RatesImpl.FindOld | metrics/processors/rate_calculator.go:69-75 | the inner loop finds the specified predecessor |
| RatesImpl.RateCalculator.constructor | metrics/processors/rate_calculator.go:131-135 | no previous batch |
| RatesImpl.RateCalculator.RateDisk | metrics/processors/rate_calculator.go:64-96 | the disk loop over a snapshot of the list it appends to |
| RatesImpl.RateCalculator.RateSet | metrics/processors/rate_calculator.go:60-125 | all metrics of the mapping for one set, in some order |
| RatesImpl.RateCalculator.Process | metrics/processors/rate_calculator.go:32-129 | the batch is rated in place against the previous one, or left alone, and kept exactly when accepted |
| Retention.RetentionMeaning | metrics/sinks/metric/metric_sink.go:81-90 | after any run with a clock that does not go back, each store is one filter of the earlier history by the last cutoff followed by the last batch, the long store projected |
| Retention.RetainedIsOneFilter | metrics/sinks/metric/metric_sink.go:318-326 | incremental popping with growing cutoffs is one filter by the last |
| Retention.StoresRetain | metrics/sinks/metric/metric_sink.go:81-90 | for any clock the long store is the projection of what its duration retains |
| Retention.PopOldKeeps | metrics/sinks/metric/metric_sink.go:318-326 | popping keeps exactly the batches later than the cutoff |
| Retention.PopProjected | metrics/sinks/metric/metric_sink.go:328-336 | popping the projected store is projecting the popped one |
| Retention.ShortWithinLong | metrics/sinks/metric/metric_sink.go:81-90 | with short duration <= long duration the short store's batches are a subsequence of the long store's, for any clock |
| Queries.LongQueryMeaning | metrics/sinks/metric/metric_sink.go:125-143 | for every run, key list and window starting after the last long cutoff, a long-stored metric reads as the integers of the whole history, in order, each repeated once per occurrence of its key |
| Queries.LongQueryIsNaiveScan | metrics/sinks/metric/metric_sink.go:113-171 | and is exactly the naive scan of the history if and only if all the values asked for are int64 gauges |
| Queries.FloatIsLost | metrics/sinks/metric/metric_sink.go:54-71 | a float in the long store that is answered as the integer zero |
| Queries.ShortQueryMeaning | metrics/sinks/metric/metric_sink.go:144-170 | any other metric reads as the naive scan for windows starting after the last short cutoff |
| Queries.LabeledQueryMeaning | metrics/sinks/metric/metric_sink.go:173-214 | and so do labelled metrics |
| QueryAnswers.LabeledAnswers | metrics/sinks/metric/metric_sink.go:173-214 | for every run and window starting after the last short cutoff: an answer has exactly the keys asked for that have points; its points are, batch by batch in order and once per occurrence of the key, the values of exactly the items with that name and exactly those labels, of the batches within the window, both ends included |
| QueryAnswers.ShortAnswers | metrics/sinks/metric/metric_sink.go:144-170 | the same for a metric that is not long-stored |
| QueryAnswers.LongAnswers | metrics/sinks/metric/metric_sink.go:125-143 | the same for a long-stored metric, for windows after the last long cutoff, with the integer of each value as an int64 gauge |
| MetricSinkImpl.BuildMultimetricStore | metrics/sinks/metric/metric_sink.go:54-71 | the nested loops build the projection of the batch |
| MetricSinkImpl.PopOldBatches | metrics/sinks/metric/metric_sink.go:318-326 | the loop computes the specified filter |
| MetricSinkImpl.PopOldStores | metrics/sinks/metric/metric_sink.go:328-336 | the loop computes the specified filter of projected batches |
| MetricSinkImpl.LabelsMatch | metrics/sinks/metric/metric_sink.go:190-200 | as many labels and each one found means the same labels |
| MetricSinkImpl.ReadLabeled | metrics/sinks/metric/metric_sink.go:185-208 | the matching labelled items in order |
| MetricSinkImpl.MetricSink.constructor | metrics/sinks/metric/metric_sink.go:338-347 | both stores start empty |
| MetricSinkImpl.MetricSink.ExportData | metrics/sinks/metric/metric_sink.go:81-90 | one step of the specified retention |
| MetricSinkImpl.MetricSink.GetMetric | metrics/sinks/metric/metric_sink.go:113-171 | the loops answer the specified scan of the long or the short store |
| MetricSinkImpl.MetricSink.GetLabeledMetric | metrics/sinks/metric/metric_sink.go:173-214 | the loops answer the specified scan for labelled metrics |
| SinkManager.FanOutSafety | metrics/sinks/manager.go:83-124 | in every reachable state each sink has begun at most one export more than it finished, got each call's batch at most once and exactly if it accepted it, and a call that returned has every push accepted or timed out |
| SinkManager.CallsKept | metrics/sinks/manager.go:106-124 | every step keeps the wait group equal to the pushes started and not done |
| SinkManager.SinksKept | metrics/sinks/manager.go:83-96 | every step keeps sinks and pushes in agreement |
| SinkManager.OutcomeStays | metrics/sinks/manager.go:113-119 | a push that was accepted never times out, nor the other way round |
| SinkManager.CallNeverBlocked | metrics/sinks/manager.go:105-124 | a call that has not returned always has a step of its own that needs no sink and brings it nearer to returning |
| SinkManager.SinksIndependent | metrics/sinks/manager.go:83-124 | steps of two sinks neither enable nor disable each other and commute |
| SinkManager.OtherSinkIrrelevant | metrics/sinks/manager.go:83-124 | the state another sink is in does not matter to a sink's steps |
| SinkManager.StoppedForGood | metrics/sinks/manager.go:88-93 | once a sink takes a stop it begins no export on any later run and is stopped at most once, exactly once when its goroutine has run the stop |
| SinkManager.ExportsAreSubsequence | metrics/sinks/manager.go:106-124 | with one caller at a time the calls a sink exports are ascending and accepted: an in-order subsequence of those offered |
| SinkBatches.CallsCarryTheirBatch | metrics/sinks/manager.go:106-114 | in every run each call carries the batch it was made with |
| SinkBatches.BatchesAreSubsequence | metrics/sinks/manager.go:106-124 | with one caller at a time the batches a sink exports are an in-order subsequence of the batches ExportData was called with |
| SinkBatches.EveryExportWasOffered | metrics/sinks/manager.go:83-114 | in every run the batches a sink exports are batches ExportData was called with, no call's twice |
| SinkBatches.AcceptedIsExported | metrics/sinks/manager.go:83-114 | and every batch it accepts is exported |
| SinkManager.InOrderExactlyWhen | metrics/sinks/manager.go:106-124 | for any number of sinks and a bound k on the calls under way at once, every run has every sink export the calls in order if and only if k is at most one |
| SinkManager.OverlappingCallsCanSwap | metrics/sinks/manager.go:106-124 | for any number of sinks and any bound from two, a run in which a sink exports the later batch first |
| Housekeeping.WindowsOverRuns | metrics/manager/manager.go:92-108 | in every run windows are aligned and one resolution long; the next starts after the last by the whole resolutions that offset and delay come to, so it follows on if and only if they stay below one |
| Housekeeping.WindowsNeverOverlap | metrics/manager/manager.go:92-127 | with a non-negative offset the windows tried, and those of the jobs started, strictly increase and never overlap; the jobs' windows are an in-order selection of those tried |
| Housekeeping.OverlapFreeExactlyWhen | metrics/manager/manager.go:95-98 | no run overlaps if and only if the scrape offset is not negative |
| Housekeeping.NegativeOffsetRepeats | metrics/manager/manager.go:95-98 | a run with a negative offset that tries one window twice |
| Housekeeping.PermitsOverRuns | metrics/manager/manager.go:77-79 | in every reachable state free permits, running jobs and the one about to start are maxParallelism, so giving a permit back never blocks |
| HousekeepingJobs.JobsFollowPermits | metrics/manager/manager.go:110-150 | in every run a job is started for every window a permit was taken for, in order, and runs until it gives the permit back |
| HousekeepingJobs.GivenUpAfterHalfAResolution | metrics/manager/manager.go:110-122 | a window can be given up if and only if half a resolution has passed since the loop woke for it |
| Housekeeping.NextWindow | metrics/manager/manager.go:95-97 | the window of a reading in terms of how late it is after an earlier window |
| Scraping.CollectionMeaning | metrics/sources/manager.go:78-162 | in every interleaving each source is received from at most once, the response is the arrival-order right-biased merge, the latency index is in bounds and the histogram total is the number of answers received |
| ScrapeDetails.HistogramMeaning | metrics/sources/manager.go:120-149 | in every run each of the eleven buckets counts the answers received in rounds that began in its second after the start, the last taking all later ones |
| ScrapeDetails.AnswersWereGiven | metrics/sources/manager.go:87-109 | in every run what is merged are answers the sources gave |
| ScrapeDetails.NothingGivenUpEarly | metrics/sources/manager.go:96-155 | in every run no answer is late and the collector does not end before the deadline, unless it has as many answers as there are sources |
| Scraping.LastWins | metrics/sources/manager.go:139-143 | a key is in the merge if some answer has it, with the value of the last that does |
| Scraping.OrderFreeExactlyWhenAgree | metrics/sources/manager.go:139-143 | the response is the same in every order of arrival if and only if the answers agree on the keys they share |
| Scraping.AgreedInAnyOrder | metrics/sources/manager.go:139-143 | answers that agree on shared keys, as disjoint ones do, merge to the same response in any order |
| Scraping.DisagreementShows | metrics/sources/manager.go:139-143 | answers that do not agree merge differently in the two orders |
| Scraping.ArrivalOrderDoesNotShow | metrics/sources/manager.go:129-155 | two runs that received the same agreeing answers end with the same response |
| ScrapeRuns.EveryOrderCanArrive | metrics/sources/manager.go:112-155 | whatever the sources answer, with the deadline ahead every order of receiving from them is that of some run, whose response is the merge in that order |
| ScrapeRuns.ResponseFixedExactlyWhenAgree | metrics/sources/manager.go:129-155 | over all runs that receive from every source, the response is the same if and only if the answers agree on the keys they share |
| Scraping.BucketInBounds | metrics/sources/manager.go:144-148 | the bucket is the latency in whole seconds, ten and more in the last |
| Scraping.ReceivedKept | metrics/sources/manager.go:112-150 | every step keeps the response the merge of the answers received |
| Scraping.LatencyKept | metrics/sources/manager.go:131-149 | every step keeps the histogram the count of the answers received |
| Scraping.EnterSets | metrics/sources/manager.go:140-142 | the loop over a batch's sets is a right-biased merge |
| Scraping.Enter | metrics/sources/manager.go:138-149 | one answer is merged and counted in its bucket |
| Scraping.Collect | metrics/sources/manager.go:122-155 | the collector's loop takes answers until a round begins past the deadline or nothing arrives before it; it merges them in order and counts each in the bucket of its second |
| Stackdriver.ExportsSpaced | metrics/sinks/stackdriver/stackdriver.go:127-132 | over any run batches accepted k apart differ by at least k times minInterval |
| Stackdriver.ExportedExactlyWhenDue | metrics/sinks/stackdriver/stackdriver.go:127-132 | over any run exactly those batches are exported, in order, that come minInterval or more after the last one exported before them |
| Stackdriver.ProducedParts | metrics/sinks/stackdriver/stackdriver.go:134-193 | the series sent are, set by set, those of the nodes, pods, pod containers and system containers with a start time: the values, then each labelled item under the old and the new model as configured |
| Stackdriver.BatchedUniquely | metrics/sinks/stackdriver/stackdriver.go:163-198 | full requests but for a non-empty last one: there is only one way to cut the series so |
| Stackdriver.StackdriverSink.Batch | metrics/sinks/stackdriver/stackdriver.go:134-198 | the loops produce requests that concatenate to the series in order, all but the last exactly 200 long and the last not empty |
| Stackdriver.StackdriverSink.ExportData | metrics/sinks/stackdriver/stackdriver.go:126-201 | a batch is skipped exactly when it comes too early; otherwise it is exported and its time kept |
| Stackdriver.WorkersSuffice | metrics/sinks/stackdriver/stackdriver.go:204-206 | the workers can handle more than the requests there are within the timeout at three seconds each, with five more than the requests fill; a timeout below three seconds gives no number |
| RequestWorkers.RequestsAccountedFor | metrics/sinks/stackdriver/stackdriver.go:203-265 | in every interleaving each request is in exactly one of not yet offered, held by one worker, sent once or dropped, and the dropped ones are a suffix |
| RequestWorkers.AllCountedAllSent | metrics/sinks/stackdriver/stackdriver.go:238-254 | when all workers have been counted every request was sent once or dropped |
| RequestWorkers.AllCanBeSent | metrics/sinks/stackdriver/stackdriver.go:203-265 | with at least one worker there is a run that sends every request in order and drops none |
| RequestWorkers.InvKept | metrics/sinks/stackdriver/stackdriver.go:219-265 | every step keeps the accounting |
| Hawkular.CheckMeaning | metrics/sinks/hawkular/client.go:64-87 | at any point of any run sequence a check succeeds, and the tag update is skipped, if and only if the key was last pushed or matched with that hash in this run or one of the two before |
| Hawkular.EntryLifetime | metrics/sinks/hawkular/client.go:77-87 | an entry last touched in run t and left alone is found unchanged in runs t+1 and t+2 and gone from run t+3 on |
| Hawkular.RunsShow | metrics/sinks/hawkular/driver.go:78-141 | after any runs the cache holds exactly the live last touches |
| Hawkular.ToBatches | metrics/sinks/hawkular/client.go:312-332 | the parts concatenate to the input, fill the channel exactly to its capacity, and all but the last have the batch size |
| HawkularImpl.HawkularSink.PushToCache | metrics/sinks/hawkular/client.go:55-62 | the entry is put with the run's id |
| HawkularImpl.HawkularSink.CheckCache | metrics/sinks/hawkular/client.go:65-75 | true exactly for a present entry of the same hash, whose age is renewed |
| HawkularImpl.HawkularSink.ExpireCache | metrics/sinks/hawkular/client.go:78-87 | the loop leaves exactly the entries young enough |
| HawkularImpl.HawkularSink.RegisterIfNecessary | metrics/sinks/hawkular/client.go:284-293 | an update is started exactly for a non-zero hash the cache does not have; hash 0 leaves the cache alone |
| HawkularImpl.HawkularSink.ExportData | metrics/sinks/hawkular/driver.go:78-141 | the run id advances, the script's registrations and returning updates become the specified checks and pushes, then expiry |
| HawkularImpl.ChecksAreRegistrations | metrics/sinks/hawkular/driver.go:121-121 | every metric registered with a hash is checked, in order, and nothing else is |
| HawkularImpl.PerformedIsJustified | metrics/sinks/hawkular/client.go:284-293 | only what a check missed in the same run is pushed |
| HawkularImpl.MissStartsUpdate | metrics/sinks/hawkular/client.go:292-296 | an update is under way for exactly those registrations that the cache does not have with that hash |
| HawkularImpl.UpdateIsPushed | metrics/sinks/hawkular/client.go:295-308 | an update under way that succeeds is pushed once; one that fails is not |
| Strings.SortSorts | metrics/util/label_copier.go:50-50 | sorting sorts |
| Strings.SortedIsUnique | metrics/util/label_copier.go:50-50 | there is one sorted arrangement of given strings |
| Strings.SplitJoin | metrics/sinks/wavefront/wavefront.go:108-108 | splitting what was joined gives the parts back, the empty list giving one empty part |
| Labels.JoinedIsOrderFree | metrics/util/label_copier.go:50-51 | the joined label does not depend on map order |
| Labels.LastWriterWins | metrics/util/label_copier.go:40-43 | a stored label has the value of the last label stored under it, and others stay |
| Labels.OrderFreeExactlyWhenAgree | metrics/util/label_copier.go:37-52 | Copy's result is the same in every map order if and only if labels stored under one name agree |
| Labels.InjectiveAgrees | metrics/util/label_copier.go:40-43 | a mapping that stores no two of the labels under one name makes them agree |
| Labels.SharedNameShows | metrics/util/label_copier.go:40-43 | two labels with different values stored under one name, which tell two orders apart |
| Labels.LabelCopier.constructor | metrics/util/label_copier.go:54-85 | the stored and ignored labels from their flags |
| Labels.StoredNamesMeaning | metrics/util/label_copier.go:54-67 | a label is stored as the last flag that names it says: "new=old" stores old under new, a flag without '=' stores a label under its own name; a label no flag names is not stored |
| Labels.LabelCopier.Copy | metrics/util/label_copier.go:37-52 | the loop, sort and join leave the specified labels for the order given; the joined label is the same for every order |
| LabelTags.SortedKeysTag | metrics/sinks/wavefront/wavefront.go:102-119 | in sorted order no label overwrites a tag that the joined label was split into |
| LabelTags.JoinedSplitsBack | metrics/sinks/wavefront/wavefront.go:107-114 | joining with ',' and splitting again gives the labels that are not ignored under "label." |
| LabelTags.LabelsRoundTrip | metrics/sinks/wavefront/wavefront.go:102-121 | for labels whose names have no ',' or ':' and whose values have no ',', in any map order, the tags starting with "label." that Copy and addLabelTags leave are exactly the labels that are not ignored, if and only if every other such tag or label, stored ones included, is named like one of those |
| LabelTags.JoinedIsShown | metrics/sinks/wavefront/wavefront.go:107-114 | the part of the tags that comes from the joined label is exactly the labels that are not ignored, including none |
| LabelTags.StoredLabelStrays | metrics/sinks/wavefront/wavefront.go:102-121 | an ignored label that comes out as a tag because it is stored under a name starting with "label." |
| LabelTags.WavefrontSink.SortedLabelKeys | metrics/sinks/wavefront/wavefront.go:103-103 | the keys once each, sorted |
| LabelTags.WavefrontSink.AddLabelTags | metrics/sinks/wavefront/wavefront.go:102-121 | the tags end as they were plus the plain labels plus the split ones |
| EventBuffer.DeliveredInOrder | events/sources/kubernetes/kubernetes_source.go:79-103 | in every interleaving of watcher and reader the batches returned, the one being filled and the buffer are the accepted events in order, each once, and the buffer never exceeds its capacity |
| EventBuffer.AcceptedOrDropped | events/sources/kubernetes/kubernetes_source.go:148-162 | accepted and dropped split, each in order, the events of exactly those updates that say added or modified and carry an event |
| EventBuffer.DroppedExactlyWhenFull | events/sources/kubernetes/kubernetes_source.go:151-157 | an added or modified event is dropped if and only if accepted less popped is 100000 |
| EventBuffer.ReadReturnsAll | events/sources/kubernetes/kubernetes_source.go:90-102 | when a read finishes all that was accepted so far has been returned |
| EventBuffer.KubernetesEventSource.Process | events/sources/kubernetes/kubernetes_source.go:148-165 | one update: only added and modified events are put, and dropped only at a full buffer |
| EventBuffer.DrainIsARun | events/sources/kubernetes/kubernetes_source.go:79-103 | with any updates arriving between its takes, what a read returns is what some run of the transition system returns |
| EventBuffer.KubernetesEventSource.ProcessAll | events/sources/kubernetes/kubernetes_source.go:148-165 | updates one after the other put the specified events |
| EventBuffer.KubernetesEventSource.GetNewEvents | events/sources/kubernetes/kubernetes_source.go:79-103 | with any updates arriving between its takes, the loop returns the specified batch and leaves the buffer empty |

## Left out

- EnricherImpl.PodBasedEnricher.Process: the orders in which each pod's labels and each container's requests are gone through are given, and are the same wherever they are gone through.
- EnrichmentMeaning.EnrichedIsComplete: asks that no container requests `ephemeral_storage` and `ephemeral-storage` differently, which `Enrichment.StatedExactlyWhenPlain` shows to be needed; so do the theorems built on it.
- RollupImpl.NamespaceAggregator.Process: asks that no pod set is filed under its own namespace's key, or that no metric is listed twice; with both, the Go code would read sums it has just written.
- RollupImpl.NodeAggregator.Process: asks the same of pods and node keys.
- RolledSets.NodeMeaning: asks that no pod set is filed under a node's key; RolledSets.NamespaceMeaning asks the same of namespace keys.
- PodAggregatorImpl.PodAggregator.Process: batches in which two keys hold the same set object are not modelled; the same goes for the other processors.
- RatesImpl.RateCalculator.Process: asks that the new batch shares no set with the one kept; changes that later processors make to the kept batch are not followed.
- RateRuns.IntegralRecoversUsage: asks that 1000 times each gain of the counter fits an int64; beyond that the multiplication wraps.
- SinkManager.FanOutSafety: goroutines, channels and wait groups are steps of a transition system, not code; the same goes for Housekeeping, Scraping (but for the collector's loop), RequestWorkers and EventBuffer.
- Hawkular.CheckMeaning: run ids do not wrap at 2^64; hashes are opaque.
- Hawkular.ToBatches: batch sizes are not negative.
- Stackdriver.WorkersSuffice: timeouts are not negative; below three seconds the Go code divides by zero, which the model shows as no number of workers.
- Pipeline.PipelineShowsDemand: the five processors are the pod-based enricher and the four aggregators, on the batch the rate calculator leaves; the namespace-based and node-autoscaling enrichers are not modelled, each sets a few labels or values from a lookup.
- The registry of request metrics, which the enricher extends as it meets resources: names are computed instead.
- What else a housekeeping job does: a failed scrape ends it, and what the processors leave is exported.
- The translation of metrics to time series in the Stackdriver sink, and to definitions and tags in the Hawkular sink: long tables, taken as given.
- The listing queries of the metric sink (names of pods, nodes, namespaces): each is one comprehension over the last batch.
- Rounding of floats and the range of nanosecond timestamps.
- The events sink manager, which repeats the metrics one, and the network clients of the other sinks.
- REST handlers, flags, authentication, Prometheus counters and Kubernetes clients.
