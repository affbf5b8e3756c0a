# nchain: verified models of the operator's state machines

nchain is a Kubernetes operator for blockchain clusters. Most of it builds manifests; this project models
the parts that keep state, order things or partition things, and proves what they promise:

- **Status** (`Conditions`, `HealthPoll`, `NodeClusterController`). A condition list changed through a
  pointer; a health poll with one goroutine a pod writing into one slice; and the reconcile that turns a
  persisted status and a set of outside observations into up to two status writes. Results are about every
  run of reconciles from the empty status, and after every single write of a run.
- **Boot** (`StartupGate`, `BootVolume`, `SnapshotRetention`). The emitted shell scripts as small-step
  programs: the startup gate alone and in a system of any number of pods that gate on each other, and
  seed-restore, RLP import and gate over a data volume, with a crash, a pod restart or a spec change
  between any two steps. The snapshot job with its upload, list, sort and prune pipeline.
- **Apply** (`LabelSets`, `Apply`, `NodeClusterObjects`). The per-kind merge into a live object, on heap
  objects with their own label and annotation maps, and what any sequence of desired objects converges to.
- **Certificates** (`Grouping`, `Certificates`). Hosts grouped by registered domain, the reach of a name
  that fails to validate under the all-or-nothing rule of section 7.1.6 of RFC 8555, and secret names.
- **luxd's command line** (`Patterns`, `Shell`, `LuxFlags`). The flag list printed once as arguments and once
  as a script with line continuations, and a POSIX word splitter with pathname expansion that inverts the
  second.
- **Gateway** (`Gateway`). Subnet discovery in canonical order, the endpoint table, the status map.

`Strings`, `Sorting` and `Wrappers` hold what these share. Strings are compared as sequences of code
points, which is the order Go's byte-wise comparison gives valid UTF-8. A sort from Go's library is any
rearrangement that is sorted: `Sorting.SortUnique` says when all of those agree.

Outside effects are inputs: a reconcile's `Observation`, a pod's decoded answer, a job's clock and failed
deletions, the P-chain's answer. Steps that depend on timing are relations.

## What the model shows about the code

Each of these is stated by a lemma named in the table.

- Running can be reported while an unhealthy node is listed: when the pod listing fails, the reconcile
  falls back to pod readiness and keeps the old `nodes` and `degradedReasons`. A Running status has them
  exactly when its reconcile did not poll and the status before it had them
  (`RunningListsUnhealthyIffStale`, `RunningListsReasonsIffStale`, `RunningCanHideAnUnhealthyNode`).
- Under the default policy Fail the startup gate keeps a cluster with no started node from ever starting one:
  a gated pod can start in some run exactly when MIN targets are started to begin with (`GatePassesIff`,
  `NewClusterNeverStarts`).
- A bootstrap address in brackets is a pattern to the shell that runs the startup script, so a file name can
  take its place; a bracket that nothing closes is not (`BracketedIsRisky`, `UnclosedIsNoPattern`,
  `ScriptReadsBackIffSafe`).
- A seed policy other than Never and IfEmpty unpacks the archive over live data at every start, marker or not
  (`ExtractsAgainIff`).
- The RLP marker says that an attempt ended, not that a whole file was imported. A height that is reached
  already, an import call that fails and a download cut short are each marked all the same; marking means a
  whole import exactly for the specs that never get to mark (`MarkMeansWholeImportIff`,
  `EveryEndingIsMarkedIff`, `TruncatedImportIsMarkedIff`).
- Two registered domains can get one secret name. For every list of hosts they do exactly when they differ
  only in which separators are dots (`SecretsSharedIffSameButDots`): the dot of one moves over a hyphen, as
  in `p.x-q` and `p-x.q`, or becomes one, as in `a.b` and `a-b` (`SecretsSharedIffDomainsCollide`,
  `SecretNamesCanCollide`).
- In the Cloud API Ingress two brands share a secret exactly when they have one name
  (`BrandsShareSecretIffNamesEqual`), and a brand's names hold up another's certificate exactly when the two
  have one domain (`BrandFailureIsIsolated`).
- Ranging over the consensus parameters in map order lets the argument list differ between renderings
  exactly when two parameters print different flags (`RenderingIsStableIff`); the flags themselves are
  always the same ones (`FlagsPermute`).
- The merge never copies `ServiceName`: the one asked for last is stored exactly when the live object
  started with it, and from an empty object none ever is (`ServiceNameIsAdoptedIff`,
  `ServiceNameIsNeverAdopted`).
- The status map of a gateway shows every discovered chain exactly when no two chains share a name
  (`StatusShowsAllIff`); unnamed chains all become `unknown`.

Where code and comments disagree the model follows the code: `NeedsConfigMap`
(`internal/protocol/lux.go:234-237`) says it also looks at consensus parameters, and does not. Because it
does look at chains, the loop over chains in `BuildCommand` (`internal/protocol/lux.go:101-104`) runs
over no elements whenever it is reached; the model keeps it.

## Model

| member | source | states |
|---|---|---|
| Conditions.ConditionList.SetCondition | internal/status/condition.go:14-39 | the loop with its in-place field writes and early return leaves the upsert of the old list |
| Conditions.UpsertLookup | internal/status/condition.go:20-38 | a call decides its own type, by whether status or reason differ, and no call disturbs another type |
| Conditions.UpsertStores | internal/status/condition.go:22-38 | a new status or reason replaces the whole condition by the call's values, an equal pair leaves the list as it was |
| Conditions.UpsertKeepsPlaces | internal/status/condition.go:20-38 | every entry keeps its position, and a type that was not there is appended |
| Conditions.UpsertKeepsTypesDistinct | internal/status/condition.go:21-38 | a list with distinct types keeps them distinct |
| Conditions.HistoryOfAType | internal/status/condition.go:14-39 | after any calls over any list each type holds what the opener of its last block of equal status and reason wrote, found without replaying the calls |
| Conditions.LastCallDecides | internal/status/condition.go:22-29 | the status and reason read back are always those of the last call for the type, though message and time may be older |
| HealthPoll.RunInv | internal/controller/network_snapshot.go:569-586 | in every reachable state of launching loop and goroutines each slot is coherent with its worker: a goroutine only ever reads back what the loop wrote |
| HealthPoll.FanOutIsBounded | internal/controller/network_snapshot.go:569-587 | no interleaving takes more than five steps a pod |
| HealthPoll.FanOutNeverBlocks | internal/controller/network_snapshot.go:571-587 | an unfinished fan-out always has a next step |
| HealthPoll.FanOutMatchesSequential | internal/controller/network_snapshot.go:569-587 | every interleaving that reaches the wait leaves what a sequential poll leaves |
| HealthPoll.PollIsDeterministic | internal/controller/network_snapshot.go:569-588 | with distinct pod names, any interleaving over any order of the pod list, sorted by any correct sort, gives one and the same node list |
| HealthPoll.Spread | internal/controller/network_snapshot.go:607-615 | the scan returns the least and the greatest height |
| HealthPoll.Tally | internal/controller/network_snapshot.go:590-603 | one loop counts the healthy and sums peers in wrapping int32, collects the positive heights and names each unhealthy pod in order |
| HealthPoll.Aggregate | internal/controller/network_snapshot.go:590-630 | the aggregates equal the summary of the sorted list, skew limit defaulted to 100 |
| HealthPoll.Poll | internal/controller/network_snapshot.go:569-630 | array fill, sort and aggregation together give the summary of the sequential poll |
| HealthPoll.SkewIsTheWidestGap | internal/controller/network_snapshot.go:605-616 | the skew bounds all differences of positive heights, is attained, is 0 for fewer than two, and its subtraction stays within int64 |
| HealthPoll.AggregationIsExact | internal/controller/network_snapshot.go:590-624 | the healthy count is the number of healthy nodes, and healthy nodes and reasons together count the nodes, plus one exactly when the skew is over the configured limit, or over 100 when none is |
| HealthPoll.ReasonsAreExact | internal/controller/network_snapshot.go:593-624 | the reasons are the names of the unhealthy nodes and, exactly when the skew is over the configured limit or 100, the skew with that limit |
| HealthPoll.SkewIsExact | internal/controller/network_snapshot.go:605-616 | no two positive heights among the nodes are further apart than the skew, and some two are just as far |
| HealthPoll.PeersAddUp | internal/controller/network_snapshot.go:599 | the peer total starts at zero and each node adds its own, modulo 2 to the 32 |
| HealthPoll.PollListsEachPod | internal/controller/network_snapshot.go:569-586 | each pod is listed with its name and external address, with the fields of its answer when it has an IP and blank otherwise |
| HealthPoll.PollSortsByName | internal/controller/network_snapshot.go:588 | the listed nodes ascend by name |
| HealthPoll.NoReasonsMeansAllWell | internal/controller/network_snapshot.go:593-624 | a poll with no reasons had every pod healthy and all positive heights within the configured limit, or within 100 |
| NodeClusterController.Cluster.PollHealth | internal/controller/network_snapshot.go:554-635 | returns false and writes nothing when listing fails or is empty, otherwise overwrites the health fields, external addresses only when there are some |
| NodeClusterController.Cluster.MarkUnsupported | internal/controller/nodecluster_controller.go:56-62 | an unknown protocol sets the Ready condition and phase Degraded, and no Degraded condition |
| NodeClusterController.Cluster.MarkCreating | internal/controller/nodecluster_controller.go:66-69 | a new object becomes Creating with Progressing true |
| NodeClusterController.Cluster.Conclude | internal/controller/nodecluster_controller.go:213-249 | the switch picks the branch for the observed counts and reasons, and writes its phase, flag and conditions and nothing else |
| NodeClusterController.Cluster.Refresh | internal/controller/nodecluster_controller.go:199-249 | reading, polling and concluding in place give the closing status of the reconcile |
| NodeClusterController.Controller.Reconcile | internal/controller/nodecluster_controller.go:54-253 | for every outcome of every outside call, exactly the listed status writes land, in order, and the stored status is the last of them |
| NodeClusterController.ReconcileStores | internal/controller/nodecluster_controller.go:54-253 | the stored phase in raw counts: Creating, Bootstrapping, Running and Degraded each exactly for its own condition on the ready count read or kept, the replicas wanted or 3, and the poll if there was one |
| NodeClusterController.ClosingPhase | internal/controller/nodecluster_controller.go:199-249 | the same of the closing status, with its counts, generation and bootstrap flag |
| NodeClusterController.ClosingHealthFields | internal/controller/network_snapshot.go:626-634 | a closing status has the health fields of its poll, and without one those it had |
| NodeClusterController.PollsIff | internal/controller/nodecluster_controller.go:208-211 | a poll happens exactly for a lux cluster whose pod listing succeeds and is not empty |
| NodeClusterController.ClosingReady | internal/controller/nodecluster_controller.go:213-249 | the Ready condition of a closing status by phase and counts: status, reason, message and time |
| NodeClusterController.ClosingDegraded | internal/controller/nodecluster_controller.go:230-248 | Degraded is written by the Degraded and Running branches only, and with which values |
| NodeClusterController.ClosingProgressing | internal/controller/nodecluster_controller.go:240-246 | Progressing is written by the Running branch only, and with which values |
| NodeClusterController.WritesThatLand | internal/controller/nodecluster_controller.go:54-253 | how many status writes land, for every outcome of every outside call |
| NodeClusterController.EarlyWrite | internal/controller/nodecluster_controller.go:65-73 | the early write sets phase Creating and the Progressing condition and nothing else |
| NodeClusterController.UnsupportedWrite | internal/controller/nodecluster_controller.go:54-62 | the write for an unknown protocol sets phase Degraded and the Ready condition and nothing else |
| NodeClusterController.ConcludedTurns | internal/controller/nodecluster_controller.go:213-249 | what each branch does to each of the three conditions, including leaving Degraded as it was |
| NodeClusterController.StatusTellsHistory | internal/controller/nodecluster_controller.go:54-253 | after every write of every run, phase, the three conditions and the bootstrap flag are determined by which branches wrote before |
| NodeClusterController.StatusInvariant | internal/controller/nodecluster_controller.go:54-253 | in every persisted status types are distinct, Ready holds iff Running, Running implies the bootstrap flag and Degraded and Progressing false, and Ready reason Degraded, with any status, implies Degraded true |
| NodeClusterController.FirstSeenComesFirst | internal/controller/nodecluster_controller.go:65-73 | only the first write of a run can be the Creating announcement |
| NodeClusterController.NoHiddenUnhealthyNode | internal/controller/nodecluster_controller.go:208-249 | a reconcile that polled and ended in Running saw every pod healthy, at least the wanted number of pods, and no skew over the limit |
| NodeClusterController.RunningListsReasonsIffStale | internal/controller/nodecluster_controller.go:208-249 | a Running status lists reasons exactly when this reconcile did not poll and an earlier one left some |
| NodeClusterController.RunningListsUnhealthyIffStale | internal/controller/nodecluster_controller.go:208-249 | a Running status lists an unhealthy node exactly when this reconcile did not poll and the list before it had one |
| NodeClusterController.RunningCanHideAnUnhealthyNode | internal/controller/nodecluster_controller.go:208-249 | for every unhealthy pod, a run of two reconciles that ends in Running with that pod's unhealthy report among the nodes and reasons listed |
| StartupGate.Render | internal/controller/network_snapshot.go:170-190 | every rendered constant is the configured one when positive and 1, 300 and 10 otherwise, and there is one target a replica |
| StartupGate.MaxSweepsBounds | internal/controller/network_snapshot.go:200-213 | the sweep bound is the timeout over the interval, rounded up |
| StartupGate.Run | internal/controller/network_snapshot.go:199-220 | the loops end where the small steps end, after at most the bound of sweeps, with 0 exactly for a quorum in a single sweep or StartAnyway, at the first such sweep |
| StartupGate.AnswersCount | internal/controller/network_snapshot.go:202-207 | the count a sweep ends with is the number of targets that answered it |
| StartupGate.StepKeepsCovered | internal/controller/network_snapshot.go:199-220 | one step of any pod keeps every gate's count covered by the pods started at the beginning |
| StartupGate.GatesStayInRange | internal/controller/network_snapshot.go:199-220 | in every run every gate stays inside its loops, and a pod starts only at the end of a sweep that counted MIN, or of the last one under StartAnyway |
| StartupGate.NoGatePasses | internal/controller/network_snapshot.go:165-228 | under Fail with fewer than MIN targets started, no gated pod ever starts in any run, with non-atomic sweeps, nodes failing mid-sweep and restarts |
| StartupGate.GatePassesIff | internal/controller/network_snapshot.go:165-228 | under Fail, from a state whose gated pods are at the top of their gates, a gated pod can start in some run exactly when MIN targets are started |
| StartupGate.NewClusterNeverStarts | internal/controller/network_snapshot.go:170-185 | under Fail no run of a cluster with no started pod ever starts one |
| StartupGate.SteadyQuorumPassesFirstSweep | internal/controller/network_snapshot.go:201-211 | a sweep begun while MIN targets are healthy, stay so and answer ends with the pod started |
| StartupGate.SweepCanAdvance | internal/controller/network_snapshot.go:200-214 | while the targets in question are healthy, such a sweep always has a next step that keeps it steady |
| BootVolume.StepAdvances | internal/controller/network_snapshot.go:271-317 | one step, crash or restart never runs the import past a marker, never removes the marker and logs at most one event |
| BootVolume.MarkerIsFinal | internal/controller/network_snapshot.go:276-315 | once the marker exists no later attempt clears chain data, starts the temporary node, imports or marks again, through any crashes, restarts and spec changes |
| BootVolume.CompletionIsLast | internal/controller/network_snapshot.go:276-315 | at most one attempt of a run completes and nothing the script does follows it |
| BootVolume.ContainersInOrder | internal/controller/nodecluster_controller.go:92-110 | which init containers a pod has, each once, in the order plugins, seed-restore, RLP import, gate |
| BootVolume.NeverExtractsNothing | internal/protocol/lux.go:416-419 | in no run does seed-restore get past its first test under the policy Never |
| BootVolume.ExtractsAgainIff | internal/protocol/lux.go:416-437 | once a container starts with the seed marker on the volume, some run of one spec unpacks the archive over it exactly under a policy other than Never and IfEmpty |
| BootVolume.SeedLeavesItsMarker | internal/protocol/lux.go:407-442 | in every run of one spec, what comes after seed-restore finds its marker at the configured or default path, except under Never |
| BootVolume.SeedWithoutStoreWritesItsMarker | internal/protocol/lux.go:440-441 | a source other than an object store only gets its marker written |
| BootVolume.PresentFileIsKept | internal/controller/network_snapshot.go:281-284 | a file that is there is not downloaded again, however often the container starts over |
| BootVolume.MissingFileLeavesNoMarker | internal/controller/network_snapshot.go:281-285 | without a file the container ends in peace and leaves no marker |
| BootVolume.ClearsAsAsked | internal/controller/network_snapshot.go:265-286 | chain data are cleared before every start of the temporary node when a chain ID is given, and never otherwise |
| BootVolume.StepKeepsSeal | internal/controller/network_snapshot.go:276-279 | on a volume with a marker the RLP script looks for, no step, crash, restart or spec change leads to the chain |
| BootVolume.ProtectedNeverImports | internal/protocol/lux.go:407-453 | with seed-restore on, a policy other than Never and a marker the RLP script looks for, until a marker is on the volume, no attempt in any run clears, starts, imports or marks, whatever the specs after that say |
| BootVolume.ProtectionIsExact | internal/controller/nodecluster_controller.go:92-110 | a spec with an active RLP import never touches the chain in any run from an empty volume exactly when it is protected so |
| BootVolume.MarkMeansWholeImportIff | internal/controller/network_snapshot.go:281-315 | in all runs of a spec with an active RLP import marking implies a whole import, exactly when the spec never gets to mark |
| BootVolume.EveryEndingIsMarkedIff | internal/controller/network_snapshot.go:301-315 | for each non-empty file, a height that is reached already, a failed import call and a successful one can each be followed by the mark, exactly for the specs that do not protect |
| BootVolume.TruncatedImportIsMarkedIff | internal/controller/network_snapshot.go:281-315 | a file cut short by the download can be imported and marked exactly for the specs that do not protect |
| BootVolume.WaitForNode | internal/controller/network_snapshot.go:295-300 | the loop ends where the small steps of the wait end, succeeds at the first answered probe among the first 151 and gives up after exactly 151 failed ones |
| BootVolume.WaitGoesOn | internal/controller/network_snapshot.go:295-300 | each probe of the wait either ends it or leads to the next, until 151 were not answered and the container starts over |
| SnapshotRetention.KeyOrder | internal/controller/network_snapshot.go:377-378 | for years 0 to 9999 the key order as strings is the time order, strictly |
| SnapshotRetention.KeyReadsBack | internal/controller/network_snapshot.go:377-378 | a key is `snap-YYYYMMDDTHHMMSSZ.tar.zst`, and each field of the time can be read back from its place |
| SnapshotRetention.MaxRetained | internal/controller/network_snapshot.go:355-358 | the retained count is the configured one when positive and 5 otherwise |
| SnapshotRetention.TopIsTail | internal/controller/network_snapshot.go:385 | what `head -n -N` leaves out of a sorted listing are the N newest keys |
| SnapshotRetention.Bucket.Delete | internal/controller/network_snapshot.go:386 | the deletion loop removes the listed keys except those whose deletion fails |
| SnapshotRetention.Bucket.RunJob | internal/controller/network_snapshot.go:376-388 | one job leaves the newest of the listed keys, those the listing missed and those whose deletion failed, in whatever order the store lists, and changes nothing when the upload fails |
| SnapshotRetention.NewestAreNeverLost | internal/controller/network_snapshot.go:376-388 | whatever the listings miss, whatever deletions fail and whatever the clock does, the newest keys of all ever held are there after every job |
| SnapshotRetention.RetentionIsExact | internal/controller/network_snapshot.go:376-388 | when listings are complete and deletions succeed, from the first upload on exactly the newest of all keys ever held are there |
| SnapshotRetention.OldKeysGo | internal/controller/network_snapshot.go:376-388 | in any run, a key outlives an uploading job exactly when its deletion failed, the listing missed it or fewer than MAX listed keys are newer, so at most MAX keys stay beyond those the job failed on |
| SnapshotRetention.CompleteListingCatchesUp | internal/controller/network_snapshot.go:376-388 | after any run of failures, one job with a complete listing leaves exactly the newest MAX of all keys ever held and what it failed to delete itself |
| SnapshotRetention.PruneOnceOrTwice | internal/controller/network_snapshot.go:385-386 | pruning between uploads loses nothing that a single prune at the end would keep |
| SnapshotRetention.RetainsTheLatestUploads | internal/controller/network_snapshot.go:376-388 | with an advancing clock the prefix holds the last min(k, MAX) uploads, the latest among them |
| LabelSets.StandardLabels | internal/manifests/labels.go:19-35 | the map built step by step has the three fixed labels and each non-empty optional one |
| LabelSets.StandardLabelsAre | internal/manifests/labels.go:19-35 | the standard labels key by key: name, instance and manager always, the other three when not empty, nothing else |
| LabelSets.MergeLabels | internal/manifests/labels.go:48-54 | the fresh map is the right-biased overlay of all arguments |
| LabelSets.OverlayLast | internal/manifests/labels.go:46-54 | a key has the value of the last map that holds it, and is there iff some map holds it |
| Apply.StringMap.CopyFrom | internal/manifests/mutate.go:27 | copying overlays the source's entries in place, and a nil source copies nothing |
| Apply.KubeObject.DeepCopy | internal/controller/network_snapshot.go:669 | a deep copy has the same value and shares no map |
| Apply.MergeMaps | internal/manifests/mutate.go:23-35 | the live object's maps become the overlays, allocated when missing, and no map is shared with the desired object afterwards |
| Apply.CopySpec | internal/manifests/mutate.go:38-112 | per kind, which fields are overwritten, which are kept once set, which are never copied, and that a kind mismatch or an unhandled kind writes nothing |
| Apply.Mutate | internal/manifests/mutate.go:20-116 | the live object becomes the merge, even when the kind is rejected, and neither the desired object nor its maps are written |
| Apply.Store.CreateOrUpdate | internal/controller/gateway_controller.go:194-204 | in both call shapes the stored object becomes the merge of what was stored, other keys are untouched, a write happens only when something changed, and an error comes from the kind alone and stores nothing |
| Apply.MetadataAccumulates | internal/manifests/mutate.go:22-35 | after any sequence of applies labels and annotations are the right-biased overlay of the initial map and all desired ones |
| Apply.StatefulSetConverges | internal/manifests/mutate.go:52-67 | overwritten fields are the last desired ones, the selector is the first non-nil and the claims the first non-empty ever seen, the rest is as it started |
| Apply.ServiceConverges | internal/manifests/mutate.go:69-79 | ports, selector and type are the last desired ones, and a cluster IP of None stays once any desired object asked for it |
| Apply.DeploymentConverges | internal/manifests/mutate.go:39-50 | overwritten fields are the last desired ones, the selector is the first non-nil ever seen |
| Apply.ConfigMapConverges | internal/manifests/mutate.go:102-108 | both data maps are the last desired ones, and what else it holds is as it started |
| Apply.ReplacedKindsConverge | internal/manifests/mutate.go:81-100 | ingresses, budgets and autoscalers are the last desired ones |
| Apply.FirstApplyFromEmpty | internal/manifests/mutate.go:20-116 | what the first apply to an empty store leaves, for each kind: what was asked for, but no service name, no cluster IP other than None, and nothing in the fields the merge never mentions |
| Apply.FirstApplyFromDesired | internal/controller/gateway_controller.go:194-204 | an apply that starts from a copy of the desired object stores just that |
| Apply.ClusterIPFromEmpty | internal/manifests/mutate.go:69-79 | a Service built up from an empty object has cluster IP None exactly when some desired object asked for it, and none otherwise |
| Apply.ServiceNameIsAdoptedIff | internal/manifests/mutate.go:52-67 | after any sequence of applies the service name asked for last is stored exactly when the live object started with it |
| Apply.ServiceNameIsNeverAdopted | internal/manifests/mutate.go:52-67 | a StatefulSet applied from an empty object never gets the service name it was asked for |
| Apply.ReapplyIsNoop | internal/manifests/mutate.go:20-116 | applying the same desired object again changes nothing, for every kind and every stored object |
| Apply.RejectedForItsKind | internal/manifests/mutate.go:38-112 | an apply fails exactly for an unhandled kind or a stored object of another kind |
| NodeClusterObjects.BuildStatefulSet | internal/manifests/builder.go:23-200 | labels, selector, template labels and the fields the merge copies, from a spec with arbitrary user labels |
| NodeClusterObjects.TemplateCarriesSelector | internal/manifests/builder.go:24-187 | the built template matches the selector whatever labels the user adds |
| NodeClusterObjects.TemplateLabelsAre | internal/manifests/builder.go:23-187 | the pod labels key by key: the cluster's name where the selector looks, else the user's label, else the standard one |
| NodeClusterObjects.StatefulSetStaysSound | internal/manifests/builder.go:170-200 | for every sequence of specs from creation on, the stored write-once selector matches the stored template |
| NodeClusterObjects.StatefulSetHolds | internal/manifests/builder.go:170-200 | after any sequence of specs the stored StatefulSet has the last replicas, strategy and pod, ten seconds of readiness, and the headless Service's name only when it was created as a copy |
| NodeClusterObjects.ServicesHold | internal/manifests/builder.go:203-235 | after any builds the stored Services have the last ports, the headless one no cluster IP and the per-pod one type LoadBalancer, and the budget keeps one pod available |
| NodeClusterObjects.SelectorsStaySound | internal/manifests/builder.go:203-235 | so do both Services' and the budget's stored selectors and the poll's list selector |
| NodeClusterObjects.SelectorsKeepClustersApart | internal/manifests/builder.go:170-235 | after any sequence of specs a cluster's selector matches the stored pods of its own cluster and of no other |
| NodeClusterObjects.PerPodSelectorStaysSound | internal/controller/network_snapshot.go:131-158 | and each per-pod Service's stored selector matches its pod, which has the template's labels and its own name |
| Strings.PaddedOrder | internal/controller/network_snapshot.go:377 | equally wide zero-padded numerals sort as numbers |
| Strings.DigitsReadBack | internal/protocol/lux.go:54-55 | a printed number is digits only, has no zero in front and stands for the number |
| Strings.PaddedReadsBack | internal/controller/network_snapshot.go:377 | so does a padded one that fits its width |
| Strings.Split | internal/manifests/builder.go:1268 | splitting at dots gives dot-free labels that join back to the string, one label iff there is no dot |
| Strings.SplitOfJoin | internal/manifests/builder.go:1268-1272 | splitting undoes joining for dot-free labels |
| Strings.SplitConcat | internal/manifests/builder.go:1268 | a dot between two strings separates their label lists |
| Certificates.RegisteredDomainIsIdempotent | internal/manifests/builder.go:1267-1273 | the registered domain is its own registered domain, for every string |
| Certificates.RegisteredDomainIs | internal/manifests/builder.go:1267-1273 | the domain is the last two labels, one final dot not counted, and a host of one label is its own domain |
| Certificates.TrailingDotIsIgnoredIffQualified | internal/manifests/builder.go:1267-1273 | adding a final dot to a host without one keeps its domain exactly when the host has two labels |
| Certificates.SubdomainsShareTheDomain | internal/manifests/builder.go:1267-1273 | prepending labels to a host of at least two labels keeps its domain |
| Certificates.SiblingsShareIffQualified | internal/manifests/builder.go:1267-1273 | two names under one parent share an entry exactly when the parent has two labels |
| Certificates.GroupHosts | internal/manifests/builder.go:1240-1248 | the loop leaves the distinct domains by first appearance and, for each, its hosts in input order |
| Certificates.NameSecrets | internal/manifests/builder.go:1250-1260 | one entry a domain, in order, and the domain goes into the secret's name only when there are several |
| Certificates.TlsPerRegisteredDomain | internal/manifests/builder.go:1239-1261 | both loops together give one entry a domain with the secret name for the number of domains |
| Certificates.TlsIsAStablePartition | internal/manifests/builder.go:1239-1261 | the entries hold every host as often as given, domains are distinct and by first appearance, hosts of an entry keep input order and none of the domain is left out |
| Certificates.OneEntryPerHost | internal/manifests/builder.go:1239-1261 | each host is on exactly one entry |
| Certificates.FailureIsIsolated | internal/manifests/builder.go:1239-1261 | a host's certificate issues exactly when no host of its own registered domain fails |
| Certificates.BuildIngress | internal/manifests/builder.go:548-599 | every host gets a rule, and the same hosts are grouped when TLS is on |
| Certificates.DashedCollidesIffDotMoves | internal/manifests/builder.go:1256 | replacing dots by hyphens confuses two different two-label domains exactly when one is the other with its dot moved over a hyphen |
| Certificates.SecretsSharedIffSameButDots | internal/manifests/builder.go:1250-1259 | for every list of hosts, two entries share a secret exactly when their domains differ only in which separators are dots |
| Certificates.SecretsSharedIffDomainsCollide | internal/manifests/builder.go:1250-1259 | for every list of hosts, those are the domains of which one is the other with its dot moved over a hyphen or made one |
| Certificates.SecretNamesAreDistinct | internal/manifests/builder.go:1250-1259 | for every list of hosts, secrets are pairwise distinct when no registered domain's last label has a hyphen |
| Certificates.SecretNamesCanCollide | internal/manifests/builder.go:1250-1259 | a family of host pairs whose two entries get one secret |
| Certificates.PlainSecretIffOneDomain | internal/manifests/builder.go:1252-1257 | the name without a domain in it is used exactly when all hosts share one domain |
| Certificates.SecretIsNamedAfterItsDomain | internal/manifests/builder.go:1250-1259 | every entry's secret is `<name>-tls` when all hosts share one domain and otherwise `<name>-<dashed>-tls` with a hyphen for each dot of the entry's domain |
| Certificates.BuildCloudAPIIngress | internal/manifests/builder.go:1062-1147 | both hosts of every brand, `api.` and `ws.` before its domain, are routed in order, and with TLS there is one entry a brand with these two hosts and the secret of its name |
| Certificates.CloudEntriesCoverTheRules | internal/manifests/builder.go:1085-1129 | the entries hold exactly the routed hosts, in their order |
| Certificates.BrandsShareSecretIffNamesEqual | internal/manifests/builder.go:1105-1110 | the entries of two brands have one secret exactly when the brands have one name |
| Certificates.BrandFailureIsIsolated | internal/manifests/builder.go:1089-1110 | when names of any set of brands fail, some of each, a brand's entry is held up exactly when one of those brands has its domain |
| Grouping.GroupsArePartition | internal/manifests/builder.go:1240-1248 | for any key function the groups together hold every element exactly as often as the input |
| Grouping.KeysByFirstAppearance | internal/manifests/builder.go:1244-1246 | the keys come in the order in which they first appear |
| Grouping.MembersAreInOrder | internal/manifests/builder.go:1247 | a group lists the elements of its key by ascending input position, leaving none out |
| Shell.TrimRight | internal/protocol/lux.go:344 | the result is a prefix, ends in no cut character, and only cut characters go |
| Shell.TrimTakesLastContinuation | internal/protocol/lux.go:342-344 | trimming takes exactly the last continuation of a printed command exactly when the last flag ends in none of the cut characters |
| Patterns.RiskyIffOtherMatches | internal/protocol/lux.go:296-344 | a word of the script is matched by some other name exactly when it is a pattern and each of its bracket expressions has a member that may stand there |
| Patterns.StandsForItselfIff | internal/protocol/lux.go:296-344 | a word stands for itself in every listing of distinct names exactly when no other name matches it |
| Patterns.UnclosedIsNoPattern | internal/protocol/lux.go:299 | text whose brackets nothing closes is no pattern |
| Patterns.BracketedIsRisky | internal/protocol/lux.go:318 | a bracketed text followed by plain text, such as an address and its port, is matched by another name |
| Shell.ReadsBackIffBare | internal/protocol/lux.go:296-344 | where there are no files, the printed and trimmed command of any flag list is run as meant exactly when no flag holds an operator or an unclear bracket |
| Shell.BareReadsBackIff | internal/protocol/lux.go:296-344 | among any given files, such flags are run as meant exactly when each that is a pattern matches no file or just itself |
| Shell.ReadsBackIffSafe | internal/protocol/lux.go:296-344 | whatever files there are, any flag list is run as meant exactly when every flag is safe: no operator, no unclear bracket, and no other name that matches |
| LuxFlags.ConsensusArgs | internal/protocol/lux.go:350-383 | ranging over the map in whatever order gives one flag a parameter in that order, the five known names translated |
| LuxFlags.BuildCommand | internal/protocol/lux.go:44-112 | with chains or a protocol config the script is run; without, luxd with exactly the flags the spec asks for, as many as it asks for |
| LuxFlags.Builder.WriteFlag | internal/protocol/lux.go:298-340 | one write adds one continued line to the text |
| LuxFlags.BuildStartupScript | internal/protocol/lux.go:277-347 | the built text is the directory and copy commands the spec needs and then a command that a shell reads, exactly for safe specs, as luxd with the flags the spec asks for |
| LuxFlags.FlagsAreAsAsked | internal/protocol/lux.go:50-109 | the list holds a flag exactly when the spec asks for it, spelled out flag by flag, and as many flags as it asks for |
| LuxFlags.NetworkFlagsIff | internal/protocol/lux.go:76-89 | unless a parameter prints them too: sybil protection is off exactly on networks other than 1 and 5, bootstrap nodes are listed exactly when there are any, private addresses allowed exactly on request |
| LuxFlags.PortFlagsIff | internal/protocol/lux.go:54-55 | unless a parameter prints another: each port flag carries the configured port when positive, 9650 for HTTP and 9651 for staking otherwise, and no other text |
| LuxFlags.NetworkIdIff | internal/protocol/lux.go:51 | the network flag carries the spec's network and no other |
| LuxFlags.ApiFlagsIff | internal/protocol/lux.go:61-74 | each API flag is there exactly when its switch is on, metrics unless switched off |
| LuxFlags.KeyFlagsIff | internal/protocol/lux.go:94-99 | each of the three staking files is named exactly when there is a secret with a name |
| LuxFlags.TrackedIff | internal/protocol/lux.go:101-104 | a chain is tracked exactly when it is listed |
| LuxFlags.PluginDirIff | internal/protocol/lux.go:106-109 | the plugin directory is named exactly when there are plugins |
| LuxFlags.PreludeText | internal/protocol/lux.go:278-294 | the text before the command: aliases are copied exactly with chains, the two config files exactly with a protocol config |
| LuxFlags.FlagsAreSafeIffSpecIs | internal/protocol/lux.go:298-340 | all flags are safe exactly when the texts of the spec that reach them are, as they get there: nothing the printer adds is special |
| LuxFlags.PlainSpecIsSafe | internal/protocol/lux.go:298-340 | a spec whose texts hold no operator and no pattern character is safe |
| LuxFlags.ScriptReadsBackIffSafe | internal/protocol/lux.go:296-344 | the script's command is `exec`, the binary and the flag list whatever files there are, exactly for safe specs |
| LuxFlags.ScriptRunsTheArguments | internal/protocol/lux.go:44-112 | giving a cluster a protocol config moves it to the script, and luxd still gets the argument list it had whatever files there are, exactly for safe specs |
| LuxFlags.FlagsPermute | internal/protocol/lux.go:358-380 | two renderings of one spec have the same flags equally often |
| LuxFlags.RenderingIsStableIff | internal/protocol/lux.go:358-380 | two renderings of the whole argument list always agree exactly when all parameters print the same flag |
| Sorting.SortUnique | internal/controller/gateway_controller.go:257-262 | any two sorted arrangements of the same elements agree when the order ties no two different ones |
| Gateway.ChainOrderIsTotal | internal/controller/gateway_controller.go:257-262 | name then ID is a total order that ties only equal chains |
| Gateway.DiscoverSubnetChains | internal/controller/gateway_controller.go:239-263 | filter loop and sort give the canonical chain list, none after a failed query |
| Gateway.DiscoveryIgnoresOrder | internal/controller/gateway_controller.go:239-263 | any permutation of the answer and any correct sort give the identical chain list |
| Gateway.RoutedIffOffPrimary | internal/controller/gateway_controller.go:240-253 | a chain is discovered exactly when a blockchain of the answer has that non-empty ID, a netID, or else a subnetID, other than the primary network's, and that name, or none for `unknown` |
| Gateway.FoundAsOften | internal/controller/gateway_controller.go:239-263 | and as often as there are such blockchains |
| Gateway.FoundInOrder | internal/controller/gateway_controller.go:257-262 | the discovered chains ascend by name, then by ID |
| Gateway.BuildGatewayConfig | internal/controller/gateway_controller.go:268-336 | the appending loops give the endpoint table and its length |
| Gateway.EndpointCount | internal/controller/gateway_controller.go:271-311 | 6 + 2n endpoints for a lux cluster, 1 for another, 0 without auto routes or a backend, plus one an indexer and one a custom route |
| Gateway.TableServes | internal/controller/gateway_controller.go:268-358 | an endpoint is in the table exactly when the cluster, an indexer or a custom route calls for it: path, upstream pattern, host, verb and limit |
| Gateway.AutoPathsAreDistinctIff | internal/controller/gateway_controller.go:272-288 | the generated lux paths are pairwise distinct exactly when the chain IDs are and none is C |
| Gateway.ChainRouteMap | internal/controller/gateway_controller.go:433-442 | nil for no chains, otherwise the map the loop fills |
| Gateway.MapHoldsLast | internal/controller/gateway_controller.go:438-440 | a name is there iff a chain has it, with the ID of the last such chain |
| Gateway.StatusShowsGreatestId | internal/controller/gateway_controller.go:239-263 | of the discovered chains of one name the status shows the greatest ID |
| Gateway.StatusShowsAllIff | internal/controller/gateway_controller.go:433-442 | every chain is shown exactly when no two chains share a name |

## Left out

Behaviour of the repository that no member models:

- The Kubernetes client, watches, predicates, RBAC, finalizers and requeue intervals; a conflicting or failing API call is a failed write of an `Observation`.
- API-server defaulting and validation, and with it what the server does to fields between two applies; a stored object is what the last apply wrote.
- NodeCluster's own `CreateOrUpdate` calls, which set name and namespace inside the mutate function; the two shapes modelled are those of `apply` and `reconcileOwned`. Owner references are not part of an object's value.
- `reconcileSnapshotCronJob`, which applies the CronJob outside the shared merge, and its `lastSnapshotTime`.
- HTTP and JSON: the bodies of `pollNode`, `nodeRPC` and the P-chain query are decoded records in the model; `discoverExternalIPs` is the map it returns.
- JSON text of the gateway config, CORS and service-level rate limits; an endpoint's rate limit is the configuration it is rendered from, not the float it is rendered to.
- `chain-aliases.json`, `evm-config.json` and `upgrade.json`; values of consensus parameters are taken as decoded.
- Drivers other than lux, resource recommendations, probes, volumes and environment lists; the Explorer, Bridge, Indexer, Cloud and Network controllers except the Cloud API Ingress.
- The unused KrakenD builders of the manifests package.

What the modelled members do not capture:

- Conditions.ConditionList.SetCondition: condition types other than the four that are named, reasons and messages are opaque values; observedGeneration of a condition, which the code never sets, is absent.
- NodeClusterController.Controller.Reconcile: reasons and messages are data with what is formatted into them, not rendered text; the joined message of the degraded reasons is the list of them.
- HealthPoll.PollIsDeterministic: needs distinct pod names, which one namespace guarantees; with equal names an unstable sort may swap two reports.
- StartupGate.NoGatePasses: a target is the pod of the same ordinal, and answers come from it alone; name resolution and the two-second probe limit are an answer that may fail at any time.
- BootVolume.MarkerIsFinal: nothing outside the modelled containers removes files from the volume, and the C-chain ID is a plain directory name, so clearing chain data does not reach the marker files.
- BootVolume.SeedStep: a configured marker path is one of the three the RLP script knows or leads to none of them; two spellings of one path are not told apart as such.
- BootVolume.ProtectedNeverImports: a seed marker configured to another path is outside the guarantee, as the RLP script looks at two fixed paths only; `ProtectionIsExact` shows that the restriction is needed.
- BootVolume.ProtectionIsExact: the content of the chain database, the heights the temporary node reports and download parts are not represented; an RLP file is empty, cut short or whole, and an import call succeeds or fails.
- SnapshotRetention.Bucket.RunJob: an upload either lands or the job stops; the pipes have no pipefail, so a snapshot cut short lands like a whole one, and a listing that fails is one that misses keys. Only snapshot keys are under the prefix.
- Apply.CopySpec: fields the merge treats as one value are text, and pointers inside a template that a live object shares with the desired one after the merge are not represented; the label and annotation maps are.
- LuxFlags.ScriptReadsBackIffSafe: the word splitter gives up on the characters of quoting, operators and parameter expansion, and on a bracket expression that begins with a circumflex or holds a class, a symbol or an equivalence; what a shell makes of such a flag depends on the text around it, the environment or the locale. Ranges go by the order of the characters, and a file listing is any list of distinct names. Shells that add expansions of their own, such as braces, are not covered.
- Gateway.BuildGatewayConfig: custom and indexer routes may repeat a generated path; nothing in the code prevents it and nothing is claimed.
