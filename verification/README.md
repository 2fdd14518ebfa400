# Verification of the kubernetes-cloud-autoscaler

A model in Dafny of the parts of the autoscaler that carry concurrency, state or arithmetic, with proofs
about every run or every input.

* **Node drain** (`PodFilters`, `Drain`). One evictor per pod, a result channel of capacity 1, a collector
  with a deadline and an `abort` channel, as a step machine with an API server that may delete, replace or
  create pods between any two steps.
* **Optimistic updates of Node objects** (`Taints`, `NodeUpdates`). The merges on the fetched copy are
  methods on a class; the protocol of reads, refused writes and retries is a step machine proved
  serializable.
* **ManagedNode controller** (`Admission`, `Reconcile`, `WorkQueue`, `Controller`, `ControllerRuns`,
  `StatusRuns`, `StatusBounds`, `WorkerRuns`, `AdmissionRuns`). The worker is a class over mutable maps and a
  work queue, proved equal to functions of its state; these functions are the steps of a machine with stale
  listers, interleaved deletes, and ManagedNodes and node groups that come and go, and every round of the
  worker is a run of that machine. Status changes and limits are bounded along such runs.
* **Network templates** (`Decimal`, `Quotients`, `Strings`, `Ipv4`, `Cidr`, `MacTable`, `Inets`,
  `NetworkRuns`, `Interfaces`, `Networks`). Heap objects for networks and interfaces, with the cells that
  clones and templates share, proved equal to functions of their values; on the values, address arithmetic
  modulo 2^32, prefix lengths, the MAC table and non-interference of clones.
* **MicroK8s configuration** (`MicroK8s`). The override merge over unordered maps (with `GoMaps`, Go's loop
  over a map).

Goroutine steps, replies of the API server, deadlines, lister contents, launch outcomes and random bytes
are inputs or nondeterministic events. Go's map iteration order is an arbitrary choice of the next key.

## Where the code falls short of what one would expect

Each of these is a theorem of the model: a concrete input or run where a claim fails, and, where there is
one, the exact condition under which it holds.

* An Evict request carries a name only, so a retry can strike a pod that replaced the listed one and that
  the filters would turn down, whenever they select any pod (`Drain.RejectedCanBeStruckIff`).
* A drain that returns early leaves evictors blocked for ever on the result channel
  (`Drain.EarlyReturnLeaksEvictors`, attained by `Drain.LeakBoundAttained`).
* `TaintNode` is not idempotent when the new taints repeat a fresh key with different values
  (`Taints.IdempotentIff`), and replaces only the first taint of a key a node has under two effects
  (`Taints.MergeRefinesMapOverrideIff`).
* Two live nodes of one ManagedNode are possible when a node is deleted while it waits in the batch,
  because `createNode` enters it in `Nodes` again. `ControllerRuns.HandleKeepsOneNodeIff` gives the exact
  check a handling would need; without it two live nodes can always follow
  (`ControllerRuns.UnguardedCanDuplicate`).
* A key at the resource limit, or whose node could not be added, is not requeued (`Reconcile.RequeuedIff`).
* Limits are checked against listed nodes only, so several admissions between two listings overshoot
  (`Admission.OvershootOfOneListing`, attained). A failed listing admits anything
  (`Admission.CheckResourceLimits`).
* The memory check adds a machine's megabytes to bytes, so under every maximum a machine larger than all of
  it is admitted (`Admission.MegabytesExceedEveryMaximum`); the overshoot is what nodes report beyond what was
  asked for them (`Admission.MemoryBounded`, attained).
* A ManagedNode created under a name whose predecessors' nodes wait in the batch gets their reports. It can
  be marked Created, then Deleted, without a node (`StatusBounds.MarkedWithoutNode`). Its status changes at
  most five times iff at most one such node waits, or at most four once the batch is started
  (`StatusBounds.MoreThanFiveIff`, with a run from the start in `StatusBounds.SixChangesFromStart`). If node
  groups may be removed, there is no bound (`StatusBounds.NoBoundWhenGroupsGo`).
* A shutdown is never seen by the drain: with one worker the queue is not empty when `Get` is called, so
  `processAllItems` always returns true, and the worker goes on after a shutdown
  (`Controller.Controller.ProcessAllItems`).
* Loading a configuration twice turns a "none" interface into a DHCP one, still disabled
  (`Inets.LoadIdempotentIff`).
* Node indices 0 and 1 clone to the same address (`Ipv4.FirstTwoIndicesCollide`, and exactly which others in
  `Ipv4.CloneAddressesEqualIff`), and a large index leaves the template's network
  (`Ipv4.CloneStaysInNetworkIff`).
* Non-contiguous netmasks are accepted and yield a prefix of another mask (`Cidr.PrefixRecoversMaskIff`).
* The netmask getter of the common ManagedNode network returns the address, so an interface configured
  through it declares a prefix computed from its own address (`Inets.ManagedPrefixIsFromAddress`), right
  only by coincidence (`Inets.ManagedPrefixIsWantedIff`).
* Negative node indices would make table keys of different interfaces collide (`MacTable.SameKeyIff`);
  `GetMacAddress` refuses them, `UpdateMacAddressTable` does not.

## Model

| member | source | states |
|---|---|---|
| PodFilters.NewPodFiltersMeaning | client/podfilters.go:125-138 | the composed filter passes exactly the pods every filter passes, and fails exactly when some filter fails after all before it passed |
| PodFilters.DrainFiltersMeaning | client/client.go:468-478 | which pods a drain evicts under each combination of its two flags, and which make it give up, in terms of the pod alone |
| PodFilters.SelectedMeaning | client/client.go:295-307 | an error iff some listed pod makes the filter fail; otherwise exactly the passing pods, each as often as listed |
| PodFilters.PodList | client/client.go:277-308 | the loop computes that selection |
| Drain.SuccessMeansEvicted | client/client.go:464-508 | in every interleaving of evictors, collector, deadline and API server: if the drain succeeds, no filter failed and no listed pod that passes the filters still exists under its UID |
| Drain.DrainSucceedsIff | client/client.go:464-508 | in every interleaving a drain that is over has succeeded iff no filter failed, the deadline did not pass first, and no Evict request and no poll of any evictor was refused |
| Drain.DrainCanSucceed | client/client.go:225-274 | for every server and listing with which no filter fails some run returns nil, although every request is put off once, every pod is found again once, and each may be replaced under its name |
| Drain.OnlySelectedPodsAreEvicted | client/client.go:464-508 | in every run an Evict request names a listed pod that passes the filters and strikes that pod or one created after the listing; no listed pod that is filtered out is struck; a filter error means no request |
| Drain.RejectedCanBeStruckIff | client/client.go:248-251 | false claim with its exact condition: for every server, listing and pair of drain flags some run strikes a pod the installed filters turn down iff they select any pod at all, since a request carries a name and is not filtered again |
| Drain.StruckPodsPass | client/client.go:248-251 | in every run in which what bears a selected name always passes the filter, every pod struck passes it |
| Drain.SendsNeverExceedReceivesPlusOne | client/client.go:225-274 | in every run completed sends equal receives plus the buffered result, and an evictor that has sent never leaves that state |
| Drain.EarlyReturnLeaksEvictors | client/client.go:496-505 | after the collector stops with k of n results received, at least n-k-1 evictors are unfinished in every later state |
| Drain.LeakBoundAttained | client/client.go:485-505 | for every server, listing, filter, n selected pods and k below n, by the deadline and (for k above 0) by an error, a run that reaches this bound exactly and in which no evictor can send any more |
| Drain.NoEvictAfterAbort | client/client.go:242-252 | after `abort` is closed an evictor makes no further Evict request, but for one it had already chosen in its `select` |
| Drain.AbortEndsRetries | client/client.go:242-247 | and it comes to its `select` at most once more: there it ends with an error |
| Drain.CollectorIsNeverStuck | client/client.go:496-505 | in every reachable state in which the collector waits, it or some evictor can act |
| Drain.RunKeepsInv | client/client.go:225-274 | the invariant over all interleavings: results are counted, a nil result means the pod's incarnation is gone, names are rebound to unlisted UIDs only |
| Taints.ContainTaint | client/client.go:606-615 | the first index with the key, or -1 and not found |
| Taints.MergeInPlace | client/client.go:633-651 | the two-phase loop equals the specification `MergeTaints` on every input, repeated keys included |
| Taints.MergeRefinesMapOverrideIff | client/client.go:633-651 | on any two lists the merge read as a map is the existing map overridden by the new one iff each key in both exists once or already ends with its new taint |
| Taints.MergeRefinesMapOverride | client/client.go:633-651 | distinct existing keys suffice for that, whether or not the new keys repeat |
| Taints.FirstAfterMerge | client/client.go:606-651 | what lookup by key finds after the merge, on any two lists: the last new taint of an existing key, the first of a fresh one, the old taint otherwise |
| Taints.MergeKeepsShape | client/client.go:633-651 | for distinct keys: existing entries keep their places, keys stay distinct, the length grows by the number of fresh keys |
| Taints.IdempotentIff | client/client.go:633-651 | merging twice equals merging once iff, for each fresh key, the first and the last new taint with it agree |
| Taints.DistinctNewKeysAgree | client/client.go:633-651 | distinct new keys suffice for idempotence, on any existing list |
| Taints.RepeatedKeyIsNotIdempotent | client/client.go:633-651 | false claim, by a concrete input: a repeated new key breaks idempotence |
| GoMaps.StoreAll | client/client.go:558-560 | storing the entries in any iteration order is the map override |
| NodeUpdates.NodeCopy.Apply | client/client.go:341-345 | one attempt's merge on the fetched copy equals `Merge`, for all four operations, and asks for a write unless a cordon finds nothing to do |
| NodeUpdates.Serializable | client/client.go:538-660 | in any interleaving of any number of clients and foreign writers, against a server that refuses stale versions (or refuses or loses an answer for any other reason), the node is the stored operations applied one after another in commit order |
| NodeUpdates.SuccessTookEffect | client/client.go:325-354 | a client that returns success has, at a point of the commit order, a node that meets its request, by its own commit unless a cordon found nothing to do |
| NodeUpdates.OutcomeIff | client/client.go:325-354 | along every run an operation fails iff a read of it fails or its time runs out, and succeeds iff it stores a write or, for a cordon, reads a node as wanted; a refused write is neither |
| NodeUpdates.CanStillSucceed | client/client.go:538-660 | whatever happened before, every client that has not given up has a run to success: a stale write is refused, the node read again and the merge stored |
| NodeUpdates.LastWriterWins | client/client.go:538-604 | annotation by annotation, label by label and for the cordon flag, the node holds what the last commit that mentions it wrote |
| NodeUpdates.LastTainterWins | client/client.go:617-660 | the same for the taint lookup by key finds, on any node and any lists, also where a foreign writer keeps one key under several effects |
| NodeUpdates.LogIsStoredWrites | client/client.go:538-660 | the commit order of a run is the sequence of its stored writes: refused attempts leave nothing |
| NodeUpdates.RunKeepsInv | client/client.go:325-354 | in every state a client's merged copy is the merge into the current node unless its version is stale |
| Admission.CheckResourceLimits | server/controller.go:846-900 | which limit is reported, nodes before cores before memory, against the maxima the code computes; a failed listing admits |
| Admission.FitsIff | server/controller.go:857-892 | a machine fits iff it does under the limits named nodes, cpu and memory, each on its own, with 32, 128 and 2^30 for those not given |
| Admission.OvershootOfOneListing | server/controller.go:857-892 | k admissions against one listing overshoot the node limit by at most k-1 and the core limit by at most the cores of all but any one of them, and so it stays while they are listed one by one, fail or leave |
| Admission.OvershootAttained | server/controller.go:857-892 | for every k, k admissions that attain both bounds exactly |
| Admission.TotalsBounded | server/controller.go:846-900 | over any run in which admitted nodes are listed one by one, fail or leave, the totals exceed the maxima by at most window-1 nodes and their cores, beside nodes that joined otherwise; with a window of one admission never exceeds them |
| Admission.MemoryBounded | server/controller.go:871-892 | over any such run the memory exceeds its maximum by at most window-1 of the largest nodes plus what one node reports beyond what the check asked for it; with a window of one and truthful reports admission never exceeds it |
| Admission.MemoryBoundAttained | server/controller.go:871-892 | a run that attains that bound exactly, for every window, largest node and excess |
| Admission.MegabytesExceedEveryMaximum | server/controller.go:886-892 | false claim: under every maximum a machine with more megabytes than the maximum has is admitted to an empty cluster with a window of one, and its listed memory exceeds the maximum |
| AdmissionRuns.TotalsAlongRuns | server/controller.go:984-1021 | that bound along every run of the controller whose registrations saw a listing: each `addManagedNode` after a check is an admission, a failed launch or delete a failure |
| AdmissionRuns.MemoryAlongRuns | server/controller.go:984-1021 | the memory bound along every such run of the controller |
| AdmissionRuns.OvershootOfOneDrain | server/controller.go:808-843 | nodes registered before any of them is listed, as by one drain, exceed the maxima by at most all but any one of them |
| AdmissionRuns.ControlIsRun | server/controller.go:786-843 | the controller's part of such a run is a run of the controller |
| AdmissionRuns.AdmissionsAreRun | server/controller.go:984-1021 | the listing's part of such a run is a run of admissions, step by step |
| Reconcile.RequeuedIff | server/controller.go:940-1060 | a key is requeued iff its group lookup failed while no group was discovered; a key at the limit is not |
| Reconcile.HandledWithoutGroup | server/controller.go:940-965 | for a missing group, whatever the status: GroupNotFound while no group exists, CreationFailed otherwise; a failure, and recycled iff no group exists |
| Reconcile.HandledWithNode | server/controller.go:966-1060 | a ManagedNode for which the group holds a node keeps its status, and nothing is recorded or added |
| Reconcile.HandledWanting | server/controller.go:973-1043 | a ManagedNode that wants a node becomes InstanceTypeNotRegistered without a machine, NiceLimitReached over a limit, CreationFailed when no node can be added, else Creation; the node added is pending under its name and last in the batch, with group, UID and control plane flag of the ManagedNode; failure and recycling accordingly |
| Reconcile.HandledUnwanted | server/controller.go:1044-1058 | otherwise a created ManagedNode without a node becomes Deleted, and any other keeps its status |
| Reconcile.HandledKey | server/controller.go:945-945 | the UID of a listed ManagedNode is noted with its key, and a key that is not listed changes nothing |
| Reconcile.FreshChange | server/controller.go:940-1058 | with an up-to-date lister a handling changes at most its own key's code, by the decided code, with exactly one event iff the store changed |
| Reconcile.SecondHandlingIsNoOp | server/controller.go:903-1064 | handling a key again in an unchanged environment changes nothing at all |
| Controller.Controller.FindNodeByCRDUID | server/nodegroup.go:930-937 | a node is found iff a registered or pending node carries the UID, in any map order |
| Controller.Controller.HandleManagedNode | server/controller.go:903-1064 | the branching and map updates equal `Reconcile.Handle` on the whole state, for any stale lister copy, with its two results; the events recorded branch by branch are one iff the decided code differs from the listed one, none otherwise |
| Controller.Controller.HandleInGroup | server/controller.go:971-1058 | the branches for an existing group carry out the decision: code, failure, registration, event and status |
| Controller.Controller.CreateWanted | server/controller.go:975-1040 | the branch for a ManagedNode that wants a node: the new code, the batch and the registration equal the decision |
| Controller.Controller.DeleteNode | server/nodegroup.go:806-829 | a delete removes the node under its name unless it is a control plane node |
| Controller.Controller.DeleteManagedNode | server/controller.go:1108-1126 | the callback removes at most one node, carrying the UID, and changes nothing else; nothing iff no node carries it |
| Controller.Controller.NextTurn | server/controller.go:814-835 | one turn handles the head of the queue, finishes it once, and forgets it iff it is not to be recycled; items arriving meanwhile stay dirty |
| Controller.Controller.Drain | server/controller.go:814-835 | the loop ends when outside adds are bounded, and equals the fold over its turns; nothing queued is lost, nor anything that arrives before a shutdown of the queue, which may come in any turn |
| Controller.Controller.ProcessAllItems | server/controller.go:808-843 | a drain from empty maps: final state, queue log and deferred keys equal the folds, every item that is queued or arrives before a shutdown gets a turn, the batch is well formed, and the result is always true, shutdown or not |
| Controller.FinishedOnceForgottenOrRequeued | server/controller.go:814-840 | over any drain each dequeue is finished exactly once, and per item forgets plus requeues equal dequeues: never both, never neither |
| Controller.TurnRequeuesIff | server/controller.go:827-832 | a turn requeues its item iff it is the key of a listed ManagedNode whose group is absent while no group is discovered |
| Controller.HandleKeepsBatchOk | server/controller.go:1006-1021 | a handling keeps the batch filed under the right group with every UID in `managedNodesByUID` |
| Controller.DrainLeavesBatchOk | server/controller.go:808-843 | after any drain, whatever the lister showed and whichever deletes interleaved, every batch node belongs to its group and its UID has a key |
| Controller.Controller.CreateNodes | server/nodegroup.go:439-488 | a launched node enters `Nodes`, a failed one leaves the pending nodes, whether or not a delete came before |
| Controller.Controller.ReportNodes | server/controller.go:646-701 | every node of the batch is reported under its key; the not-found count is zero iff all UIDs have keys |
| Controller.Controller.StartManagedNodes | server/controller.go:637-705 | after a drain the branch for a UID that is not found is never taken; each group is started once, in any map order, with the launches and reports that `BatchStarted` spells out |
| Controller.StartAllStarts | server/controller.go:637-705 | for any batch, names and UIDs repeated or not: a name is pending afterwards iff it was and no launch of it ended, belongs to the node launched last with success or to whom it did before, each ManagedNode has the code a node that reports to it says, and all else is unchanged |
| Controller.StartedNode | server/nodegroup.go:447-484 | for distinct names: a launched node is in `Nodes` and not pending, a failed one is pending no more, one whose group was not ready and all other nodes are where they were |
| Controller.StartedKey | server/controller.go:646-695 | a ManagedNode to which just one batch node reports is Created if that node runs and CreationFailed if not |
| Controller.UnreportedKey | server/controller.go:640-701 | a ManagedNode to which no batch node reports keeps its status |
| Controller.Controller.RunWorkerOnce | server/controller.go:790-804 | one round of the worker: a drain, then the batch; no node without a key, and the worker goes on |
| WorkQueue.Queue.Add | server/controller.go:1128-1132 | an item waits at most once; one added while in process waits for `Done`; one added to a queue that is shutting down is dropped |
| WorkQueue.Queue.Done | server/controller.go:834-834 | an item dirtied while in process is queued again |
| WorkerRuns.PlayRun | server/controller.go:808-843 | the turns of any drain in which deletes strike existing nodes are a run of the machine with interleaved deletes, guarded for u or up to date if the turns are |
| WorkerRuns.GroupsRun | server/controller.go:637-705 | starting the batch group by group, in any map order, is a run of the machine, guarded and, if its reports are, up to date |
| WorkerRuns.RoundRun | server/controller.go:786-805 | a whole round of the worker is a run of the machine, guarded for u or up to date if its turns and reports are, so the laws about guarded and about up-to-date runs hold of it |
| WorkerRuns.RoundLowersRank | server/controller.go:786-805 | an up-to-date round lowers the rank of a ManagedNode, at most 5, if its status code changed and never raises it |
| WorkerRuns.RoundEvents | server/controller.go:786-805 | an up-to-date round records exactly one event per status change of its handlings |
| WorkerRuns.RoundKeepsOneNode | server/controller.go:786-805 | a round whose turns are guarded for u keeps at most one node of u in every group, whatever other nodes there are, whatever its listings showed and however its launches went |
| ControllerRuns.HandleKeepsOneNodeIff | server/controller.go:966-1021 | for any UID u and whatever other nodes, autoscaled ones included, the groups hold: a handling keeps at most one node of u in a group, launched or about to be, iff the batch holds no node of u under another name when it registers one, however stale the lister's copy is |
| ControllerRuns.UnguardedCanDuplicate | server/nodegroup.go:466-487 | the guard is needed for live nodes: from every unguarded handling, starting the batch and launching one node ends with two live nodes of u |
| ControllerRuns.GuardedRunsKeepOneNode | server/controller.go:786-843 | over every run with that guard a group holds at most one node of u, while deletes interleave anywhere, autoscaled and discovered nodes enter, pending nodes are cleared, and ManagedNodes and node groups are removed |
| ControllerRuns.CarefulRunsAreGuarded | server/controller.go:1108-1126 | the guard holds along every run in which new names are unused and, once a node of u was removed while it waits in the batch, u is not registered again in that round, as when the callback removes it with its ManagedNode; deletes may strike anywhere |
| ControllerRuns.AtMostOneLiveNode | server/controller.go:786-843 | from the start, such a run keeps at most one live node of u in every group under arbitrarily stale listings, with batch nodes deleted and other nodes coming and going |
| ControllerRuns.DeleteInBatchCanDuplicate | server/nodegroup.go:466-487 | false claim, by a concrete run in which the lister only shows copies the store held: launching a batch node that a DeleteNodes call removed enters it again beside a second node of the same UID |
| ControllerRuns.WorkerNodeGoes | server/nodegroup.go:806-829 | a deleted node is gone iff it is no control plane node |
| ControllerRuns.ControlPlaneNodeStays | server/nodegroup.go:806-829 | a control plane node stays in its group along every run in which its group is not cleared or removed, its own launch does not fail and its name is given to no other, whichever deletes strike |
| ControllerRuns.RegisteredControlPlaneNodeStays | server/nodegroup.go:290-345 | so does a node from its registration for a control plane ManagedNode on |
| StatusRuns.StepLowersPotential | server/controller.go:940-1058 | each step that keeps a ManagedNode lowers its potential (the rank, at most 5, of group phase and code, and the waiting nodes that will report to its key) by its status change, and the attempts left by an `addManagedNode` call for it |
| StatusRuns.ChangesBounded | server/controller.go:637-1064 | along every run with an up-to-date store, with ManagedNodes removed and created again, status changes of a kept ManagedNode plus the potential left are at most the potential at the start, and it sees at most one `addManagedNode` attempt |
| StatusRuns.AtMostFiveChanges | server/controller.go:637-1064 | so at most five status changes, whatever other ManagedNodes are removed or created, unless two nodes of predecessors under its key (five nodes once the batch is started) wait at the start |
| StatusBounds.MoreThanFiveIff | server/controller.go:647-694 | for a ManagedNode just created in a group without a node for it, some up-to-date run changes its status more than five times iff that many nodes wait for its key |
| StatusBounds.SixChangesFromStart | server/controller.go:647-694 | false claim, by a run from the start: a ManagedNode whose name was used twice before in the round can change status more than five times |
| StatusBounds.MarkedWithoutNode | server/controller.go:647-694 | false claim: whenever a ManagedNode is created while nodes of predecessors are being started, their reports can mark it Created and the next handling Deleted, with no attempt to create a node for it |
| StatusBounds.NoBoundWhenGroupsGo | server/server.go:120-138 | false claim: once the only node group may be removed and added again, a ManagedNode can change its status more often than any number |
| StatusBounds.FiveChangesAttained | server/controller.go:637-1064 | a run from the start with exactly five changes and one attempt |
| StatusRuns.StepKeepsTracked | server/controller.go:1006-1030 | invariant: no UID waits twice, and while the queue is drained every batch node stands for a ManagedNode in status Creation or for one that was removed |
| StatusRuns.EventsAreStatusWrites | server/controller.go:940-1058 | over a run with an up-to-date store the events recorded by handlings are exactly their status changes |
| Decimal.ParseFormat | providers/network.go:386-388 | decimal printing followed by reading is the identity, without superfluous leading zeros |
| Decimal.FormatParse | providers/network.go:386-388 | reading followed by printing is the identity on canonical numerals |
| Ipv4.ParsePrint | providers/network.go:125-127 | dotted-quad round trip from numbers below 2^32 |
| Ipv4.PrintParse | providers/network.go:125-127 | dotted-quad round trip from accepted strings |
| Ipv4.CloneAddressMeaning | providers/network.go:119-130 | a worker clone's address is the template's plus index minus one, modulo 2^32 |
| Ipv4.CloneOfQuad | providers/network.go:119-130 | in dotted form the index minus one counts in the last octet and carries into the third |
| Ipv4.AddressIsKept | providers/network.go:122-124 | control plane clones, indices up to 0 and strings that are no IPv4 address keep the address |
| Ipv4.CloneTellsIndex | providers/network.go:119-130 | the address of a clone determines its index in 1..2^32, across the wrap-around |
| Ipv4.CloneAddressesDistinct | providers/network.go:119-130 | clones with distinct indices from 1 to 2^32 have distinct address strings |
| Ipv4.CloneTwiceAdds | providers/network.go:119-130 | cloning a clone adds the offsets |
| Ipv4.FirstTwoIndicesCollide | providers/network.go:122-122 | indices 0 and 1 keep the template's address, for any string |
| Ipv4.CloneAddressesEqualIff | providers/network.go:119-130 | for any two indices the clones' addresses are equal iff the offsets (0 up to index 1, else index minus one) agree modulo 2^32 |
| Ipv4.CloneStaysInNetworkIff | providers/network.go:119-130 | a clone is in the template's network iff the host part plus index-1 fits under the prefix, or the offset runs all the way round |
| Cidr.PrefixIsPopulationCount | cloudinit/cloudinit.go:88-110 | counting '1' in the unpadded binary rendering of a dotted-quad mask is its population count; anything but a dotted quad counts 0 |
| Cidr.ContiguousMaskYieldsItsPrefix | cloudinit/cloudinit.go:99-110 | the contiguous mask of every n in 0..32 yields prefix n |
| Cidr.PrefixRecoversMaskIff | cloudinit/cloudinit.go:99-110 | the prefix stands for the mask iff the mask is contiguous |
| Cidr.HostMaskIsAccepted | cloudinit/cloudinit.go:99-110 | a concrete non-contiguous mask that is accepted |
| Cidr.DefaultPrefixByClass | cloudinit/cloudinit.go:101-104 | without a mask, for dotted quads: 8, 16 or 24 by address class, and a panic for anything else |
| Cidr.DefaultPrefixOfQuad | cloudinit/cloudinit.go:101-104 | in dotted form: the class is that of the first octet |
| MacTable.NetNameInjective | providers/network.go:386-388 | the table key determines NIC name and index for non-negative indices, even when NIC names hold dashes and digits |
| MacTable.SameKeyIff | providers/network.go:386-388 | for any indices two pairs share a key iff they are equal or one has the negated index and the NIC name with one more dash |
| MacTable.KnownAddressStays | providers/network.go:77-108 | over any sequence of table operations a known address changes only by explicit sets of exactly its pair, to the last one |
| MacTable.SamePairSameMac | providers/network.go:86-108 | two requests for one pair agree, whatever comes between, unless that pair is set in between or randomness fails; other pairs cannot interfere |
| MacTable.RandomMacMeaning | providers/network.go:93-99 | a generated address is the fixed prefix and the three random bytes in lower-case hexadecimal, which it tells |
| MacTable.MacAddress.GenerateMacAddress | providers/network.go:86-108 | the memoising lookup, with the failure of the random source |
| Inets.ClonesHaveDistinctAddresses | providers/network.go:119-149 | worker clones with distinct indices differ in every interface that carries an IPv4 address |
| Inets.LoadIdempotentIff | providers/network.go:295-311 | loading twice equals loading once iff the interface is not a "none" one without DHCP |
| Inets.LoadedMeaning | providers/network.go:295-311 | field by field what loading does, for keywords in any case, and that all other fields stay |
| Inets.ConfiguredMeaning | providers/network.go:313-352 | field by field what a specification does: DHCP takes the address away, a netmask only comes with an address, MAC address and adapter only if given |
| Inets.ConfiguresFirst | providers/network.go:285-315 | a specification configures the first enabled interface of its network and leaves all others alone |
| Strings.ToLowerIff | providers/network.go:297-300 | a text equals a lower-case word after `ToLower` iff it does letter by letter in either case |
| Inets.LoadedAndConfiguredIsSettled | providers/network.go:295-352 | after loading and any sequence of configure calls no address is a keyword in any case, and no disabled interface is enabled |
| Inets.CommonMeaning | pkg/apis/nodemanager/v1alpha2/types.go:198-229 | an interface configured through the common getters gets the routes of DHCP and keeps its MAC address and adapter |
| Inets.ManagedPrefixIsFromAddress | pkg/apis/nodemanager/v1alpha2/types.go:211-217 | the common netmask getter returns the address, so the declared prefix is the number of one bits of the address itself |
| Inets.ManagedPrefixIsWantedIff | pkg/apis/nodemanager/v1alpha2/types.go:211-217 | the declared prefix is that of the specified netmask, or of the interface's own if none is specified (the class default if that is empty too), iff address and mask have equally many one bits |
| Inets.DeclaredIsLastEnabled | providers/network.go:184-255 | each NIC prefix is declared by the last enabled interface bearing it, and nothing else is declared |
| Inets.DeclarationMeaning | providers/network.go:177-258 | a name is declared iff an enabled interface has it as its NIC name or as the part before a colon; every field of its adapter (DHCP4, use-routes, CIDR address, label, MAC match, set name, routes, name servers) in terms of the last such interface |
| Inets.PanicsIff | providers/network.go:219-236 | an interface makes the declaration panic iff it is enabled and named and has an address that is no IPv4 address, and no netmask |
| Strings.BeforeColonIs | providers/network.go:61-67 | the text before the first colon, or all of it |
| Strings.AfterColonIs | providers/network.go:69-75 | the text after the last colon |
| Inets.DeclarationOfTemplate | providers/network.go:177-258 | after loading and any configure calls: an adapter has an address iff its interface has one, which is no keyword; DHCP4 iff DHCP and no address; a disabled or "none" interface is never declared |
| NetworkRuns.OnlyMacAddressesAreShared | providers/network.go:110-153 | in any run over values sharing the MAC table each network ends, but for MAC addresses, as if its own calls had been made on it alone with any table; `Networks.RunScript` shows the heap objects with their shared cells to run so |
| NetworkRuns.SysOpsMeaning | providers/network.go:177-283 | the table after any run is the effect of the listed table operations |
| NetworkRuns.RunKeepsIndices | providers/network.go:273-283 | node indices that start non-negative stay so, and every table operation of the run has one |
| NetworkRuns.SameInterfaceSameMac | providers/network.go:386-419 | two "generate" interfaces with one NIC name and non-negative index, on whatever networks, get the same MAC across any calls on any networks, unless exactly that pair is set or randomness fails |
| NetworkRuns.DeclarationMac | providers/network.go:177-258 | in a declaration with MAC addresses an adapter has that of its last bearer if it is one of its own, none for "ignore", and for "generate" the one the table then holds for the bearer's NIC and index |
| NetworkRuns.AskedMeaning | providers/network.go:403-419 | what a request does to the interface and to the table, for addresses of its own, "ignore" and "generate" |
| NetworkRuns.UpdatedTable | providers/network.go:273-283 | every interface gets the index of its network, and the table holds for each NIC name the address of the last enabled interface with one of its own |
| NetworkRuns.AttachedMac | providers/network.go:398-400 | attaching an address sets that of the interface's own NIC and index |
| NetworkRuns.CloneHasOwnKey | providers/network.go:132-149 | clones with distinct non-negative indices have distinct keys in the MAC table, and keep all but address and index |
| Interfaces.NetworkInterface.GetMacAddress | providers/network.go:403-419 | the in-place lookup equals `Asked` on the interface and the table |
| Interfaces.NetworkInterface.Configure | providers/network.go:317-343 | the in-place update, which may take over the specification's pointer or the global FALSE, has the value `ConfiguredInet` read through the pointers; no cell is written |
| Interfaces.NetworkInterface.DidLoad | providers/network.go:297-309 | the in-place update, which points a "none" interface to the global FALSE, has the value `LoadedInet` read through the pointers; no cell is written |
| Interfaces.NetworkInterface.DeclareEthernet | providers/network.go:201-253 | the adapter built step by step, holding the interface's own slice, means `AdapterOf`; the pointer is never nil where dereferenced; it panics exactly when the CIDR form does |
| Networks.Network.Clone | providers/network.go:110-153 | a clone has interfaces of its own with the cloned values, each holding the very pointers of the one it is copied from: bool cells, slice and DNS object are shared |
| Networks.SharedCellReachesClone | providers/network.go:132-149 | a write through a shared pointer would change template and clone at once, so the sharing is real |
| Networks.Network.InterfaceByName | providers/network.go:285-293 | the first enabled interface with the name, or nil iff there is none |
| Networks.Network.ConfigurationDidLoad | providers/network.go:295-311 | in place on the heap objects, equals loading every value; slices stay the same objects |
| Networks.Network.ConfigureManagedNetwork | providers/network.go:313-352 | in place on the heap objects, equals the fold over the specifications; the branch for a disabled interface is dead |
| Networks.Network.UpdateMacAddressTable | providers/network.go:273-283 | every interface takes the network's index and the table records the explicit addresses of the enabled ones, later ones winning |
| Networks.Network.GetCloudInitNetwork | providers/network.go:177-258 | the declaration equals `Declared` of the final values; a panic exactly when some interface panics, with the state up to there |
| Networks.Network.Do | providers/network.go:177-419 | any call does to the objects what `NetworkRuns.Step` does to the values read through their pointers |
| Networks.RunScript | providers/network.go:177-419 | any script of calls on networks whose interfaces are distinct but may share cells does to the objects what the run over independent values sharing a table does; every bool cell, DNS object and slice keeps its contents |
| Networks.Lifecycle | providers/network.go:110-153 | whatever is called on clones that share the template's cells: the template keeps its value, every old cell its contents, each clone depends on its own calls alone but for MAC addresses, and an uncalled clone keeps its whole value |
| MicroK8s.Override | kubernetes/microk8s.go:85-102 | the loop over the override in any order, or a panic iff one of the two extra-args entries is no `MapAny` |
| MicroK8s.AgentConfig | kubernetes/microk8s.go:31-114 | every iteration order gives the same configuration, that of the order-free `Merged`, for every provider |
| MicroK8s.MergedOrdinaryKey | kubernetes/microk8s.go:99-101 | an ordinary key has its overriding value or else its base value, whole values being replaced |
| MicroK8s.MergedExtraArgs | kubernetes/microk8s.go:86-111 | the two extra-args maps are overridden argument by argument, and present iff non-empty |
| MicroK8s.ExtraArgsPresent | kubernetes/microk8s.go:34-111 | kubelet arguments are always present, API server arguments iff the node is of the control plane or the override has some |
| MicroK8s.ConfigurationMeaning | kubernetes/microk8s.go:31-114 | for every provider and override: each name of the configuration, and each argument of its two nested maps, has its overriding value or its default for the role of the node, and there are no others |

## Left out

- Drain: the sleep after TooManyRequests, grace periods and timeouts are not timed; a timeout is an error reply or the Deadline event that may come at any step.
- Drain: `KubeClient` creates its client once, so an evictor's call returns no error after that of `PodList`; the branch for it is not an event.
- Drain: `DrainNode` hands `p.kubeClient` to the DaemonSet filter, which may be nil before the first request; the model assumes a client.
- `UnreplicatedPodFilter`, `NewStatefulSetPodFilter` and `UnprotectedPodFilter` are not installed by `DrainNode`.
- `MarkDrainNode`, `SetProviderID` and `WaitNodeToBeReady`: status conditions, server-side apply and polling of the API server.
- ManagedNode statuses are reduced to their codes; messages, names and times in a status are not modelled.
- The generated key of a ManagedNode is taken to be the key it was dequeued under, as it is for cluster-scoped objects.
- `addManagedNode` is its effect on the pending nodes with an arbitrary name or failure; the choice of names and indices, instance types, disk sizes and `ConfigureNetwork` are not part of the model.
- `createNodes` launches nodes in parallel; `Controller.CreateNodes` does so in sequence, `ControllerRuns` in any order, interleaved with deletes.
- `findManagedNodeDeleted`, `handleNode` and `deleteOwnerRef`: their deletes are the Delete event of `ControllerRuns`; the Deleted status the first one builds is never written. `handleManagedNode` writes it later.
- Owner references, and the events `startManagedNodes` records, are not modelled; the event count is that of `handleManagedNode`.
- StatusRuns.AtMostFiveChanges: node groups are not removed in its runs, where no bound holds; a UID the worker still knows is not handed out again; the counted ManagedNode is not removed.
- Nodes that enter a group otherwise and the clearing of a group are events of `ControllerRuns`; in the class `Controller` the outside steps between two turns are deletes. A node is filed under its name, although discovery may file one under a node name that differs from the instance name.
- Deletes in `Controller` come between the turns of a drain; within `Networks` and `NodeUpdates` each call or step is atomic, as the source's lock on the table makes the table operations.
- The delay of the rate-limited queue: deferred keys wait in a list and are added again outside a drain.
- `CreateCRD`, client construction, the gRPC server, generated code, rfc2136, and the k3s, rke2, kubeadm and external distributions.
- Networks.Network.Clone: `ConnectionType`, `BsdName` and `DisplayName` are only copied and are dropped, with `GetDeclaredExistingInterfaces`, `PrimaryInterface` and `PrimaryAddressIP`.
- Cidr.PrefixIsPopulationCount: IPv4-mapped literals such as `::ffff:1.2.3.4`, which the source reads as IPv4 masks, count as unreadable here.
- Cidr.DefaultPrefixByClass: the source has a default mask for IPv4-mapped literals too.
- Ipv4: IPv6 and IPv4-mapped literals, which `ParseIP` also reads, are not parsed here.
- Networks.Network.Valid: a list that names one interface twice or holds nil does not come from `Clone` and is excluded by `Valid`.
- AdmissionRuns.TotalsAlongRuns: handlings that register against a failed listing admit anything and are not in its runs; a node is taken to report as many cores as its machine has.
- Interfaces: the declaration's pointer to the field `Routes` is represented by the slice in it, as no method assigns the field; the sub-slices the declaration takes of the DNS settings are values.
- Integers are unbounded but for the `uint32` address sum; the platform `int` of node indices and core totals does not overflow in the model.
- MicroK8s.AgentConfig: how YAML or JSON decoding types nested maps is outside the model; any type but `MapAny` is `Other`.
- gzip, base64, YAML, key parsing, file reading and SSH.
