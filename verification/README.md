# Verified model of the fake GPU operator

Six parts of the operator that hold real algorithms or state, modelled in Dafny. Loops, in-place updates
and stored state are methods and classes; each is tied to a specification, and what the operator promises
is proved of that specification for all inputs, all histories or all reachable states.

| files | part of the operator |
|---|---|
| `Apportionment.dfy`, `LargestRemainders.dfy`, `Binary64.dfy`, `NumaZones.dfy`, `Cpulist.dfy`, `PodResources.dfy`, `PodResourcesLaws.dfy`, `NodeResourceTopologies.dfy` | NUMA layout of a node, largest-remainder charging of pods to zones, Linux cpulists, the published topology |
| `GpuTable.dfy`, `PodHandler.dfy`, `GpuLaws.dfy`, `GpuRuns.dfy`, `GpuReports.dfy`, `GpuAnswers.dfy` | the per-node GPU table under pod additions, updates and deletions |
| `ComputeDomains.dfy`, `ComputeDomainLaws.dfy`, `ComputeDomainAnswers.dfy` | the compute-domain claim checkpoint and its CDI spec files, with a crash possible between any two durable writes |
| `MockPools.dfy`, `MockReconciler.dfy` | the reconciler of mock pools |
| `Profiles.dfy`, `LegacyTopology.dfy` | profile merge and the legacy node-pool format |
| `DraConfigs.dfy`, `DraConfigAnswers.dfy` | configuration precedence in the GPU DRA plugin |
| `Sequences.dfy`, `Decimals.dfy` | sums, sorting, orders and decimal text shared by the others |

`dafny verify dfyconfig.toml` checks everything.

## How to read it

- An apportionment is modelled as the operator computes it: `Binary64` rounds to 53 bits, ties to even, and
  `IsApportionment` says in that arithmetic, for every total and all weights and without sorting, who gets a
  unit beyond the floor. `IsHamilton` is the same in exact arithmetic. While the total times the sum of the
  weights stays below 2^51 the first implies the second (`ApportionmentIsHamilton`): no quotient is rounded
  across a whole number, and no two different fractions change places. The quota rule, monotonicity and
  optimality are lemmas about `IsHamilton`. Optimality charges every unit a common price, so that each index
  can be minimised on its own.
- A `podresources` response is specified by `IsResponse`, again without an algorithm; one lemma shows that
  it admits a single response, whatever order the Go maps are visited in.
- Pod events are given position by position on a sequence (`GpuTable`); the handlers change an array in
  place and store it once. A failed event stores nothing. Histories are sequences of legal events; a pod
  whose deletion failed stays live, because the operator keeps its GPUs. `GpuReports` adds the usage reports:
  in a history in which no namesake gets in front of a reservation pod, each report belongs to a live pod.
- A call of the compute-domain plugin is a list of durable writes; stopping after any number of them models
  both a crash and a failed write. The class carries a ghost journal of every disk it went through.
- Each operation also has its answer told from its inputs alone, without the functions that specify it: the
  modules whose names end in `Answers`, and lemmas such as `PodResourcesLaws.EntryGpus`,
  `MockReconciler.PassRunsPool`, `NodeResourceTopologies.PublishedZones` and `LegacyTopology.ResolvedReads`.
- A reconcile pass is specified name by name (`Target`); a pass that stopped anywhere is a `Mixed` store.

Findings that the proofs make precise, each with a concrete witness:

- Equal remainders of different weights differ in float64, so which zone gets the unit depends on rounding:
  10 cores over zones with 1, 1 and 4 GPUs become 2, 1 and 7, while position would give 2, 2 and 6
  (`LargestRemainders.TieNotByPosition`). `Apportionment.HamiltonUniqueIff` says for which totals and weights
  exact arithmetic leaves a choice.
- For very large totals the floors are rounded too far and the shares miss the total: 2^54 bytes over five
  equal zones come out one byte too many (`LargestRemainders.LargeTotalMiscounts`). The shares add up iff the
  units left over are between none and one per index (`LargestRemainders.SumsToTotalIff`).
- When a pod that shares a GPU has the name of its reservation pod, it can be taken for it. If the only GPU
  of that name is the pod's own, its deletion fails and the GPU stays taken
  (`GpuLaws.NamesakeDeletionFails`); if it has a claim in front of its reservation pod's GPU, the deletion
  looks on the claimed GPU and the report stays on the other (`GpuLaws.OwnClaimKeepsReport`).
  `GpuLaws.MixedDeleteUndoesAdd` says from the table before the addition when the deletion restores it.
- A deletion fails when a shared pod's reservation pod no longer owns a GPU. A pod that is both dedicated and
  shared then keeps its GPU for good (`GpuLaws.DeleteFailsIff`, `GpuRuns.FailedDeletionKeepsGpu`). A pod
  created again under its name with another first container does not release it either
  (`GpuRuns.RecreatedPodLeavesGpu`, `GpuLaws.DeletionReleasesAllIff`).
- A shared pod finds its reservation pod's GPU by pod name alone. A namesake in another namespace on a lower
  index takes the usage report (`GpuLaws.ChargeReachesReservation`, `GpuLaws.NamesakeTakesCharge`). When the
  namesake gets its GPU after the report was made, the report stays behind
  (`GpuLaws.NamesakeKeepsReport`, with a history in `GpuRuns.NamesakeLeavesReport`); a deletion takes every
  report back iff `GpuLaws.DeletionClearsReportsIff`, and an event keeps a lookup iff
  `GpuReports.LookupKeptIff`.
- A crash of Unprepare between its two writes leaves the claim's spec file behind, and the retry does not
  remove it; no other crash point does (`ComputeDomainLaws.UnprepareRetry`,
  `ComputeDomainLaws.CrashLeavesSpecFile`).
- A DaemonSet that differs from the desired one only outside the compared fields is never updated, although
  its pool's pull policy or node label key changed (`MockReconciler.DaemonSetConvergesIff`,
  `MockReconciler.PullPolicyChangeIsIgnored`). The comment above `DiffDaemonSets` names image and hash only;
  the code, followed here, compares command, arguments and lifecycle as well.
- Merging three profiles is not associative in general (`Profiles.MergeNotAssociative`);
  `Profiles.MergeAssociativeIff` gives the exact condition.

## Model

| member | source | states |
|---|---|---|
| LargestRemainders.LargestRemainder | internal/status-exporter/export/podresources/build.go:103-130 | float64 floors plus one unit each by descending float64 rest, ties by position, while units and indices last; all zero when the total or the weights are |
| LargestRemainders.ApportionmentUnique | internal/status-exporter/export/podresources/build.go:125-128 | that leaves one result for each total and weights |
| LargestRemainders.QuotientAgrees | internal/status-exporter/export/podresources/build.go:118-122 | below the bound the float64 floor is the exact one, and the float64 rest is the exact fraction up to half a sum-th |
| LargestRemainders.ApportionmentIsHamilton | internal/status-exporter/export/podresources/build.go:101-130 | while total times sum stays below 2^51 the result is a largest-remainder apportionment in exact arithmetic |
| LargestRemainders.SumsToTotalIff | internal/status-exporter/export/podresources/build.go:126-128 | for any total the shares add up to it iff the units left are between none and one per index |
| LargestRemainders.TieNotByPosition | internal/status-exporter/export/podresources/build.go:118-125 | a request where float64 breaks an exact tie against the position |
| LargestRemainders.LargeTotalMiscounts | internal/status-exporter/export/podresources/build.go:118-128 | a total above the bound whose shares add up to one more |
| Binary64.Rounded | internal/status-exporter/export/podresources/build.go:118 | a float64 is within half a unit of the 53rd bit of the exact value, zero only for zero |
| Binary64.RoundedTwice | internal/status-exporter/export/podresources/build.go:118 | rounding a rounded value changes nothing |
| Binary64.FloorIsFloat | internal/status-exporter/export/podresources/build.go:119-122 | the floor of a float64 is a float64, so converting it to an integer and back is exact |
| Apportionment.HamiltonUniqueIff | internal/status-exporter/export/podresources/build.go:101-130 | exact arithmetic admits a single result iff no fraction shared by different weights has the leftover end strictly among its indices |
| Apportionment.QuotaRule | internal/status-exporter/export/podresources/build.go:116-122 | every share is the floor or the ceiling of its exact quota, non-negative, and zero for weight zero |
| Apportionment.WholeQuotaGetsNoBonus | internal/status-exporter/export/podresources/build.go:125-128 | an index with a whole quota gets exactly its quota |
| Apportionment.Leftover | internal/status-exporter/export/podresources/build.go:115-126 | the units left after the floors are non-negative, fewer than the indices, and sum times them is the sum of the remainders |
| Apportionment.LeftoverBelowNonZeroFracs | internal/status-exporter/export/podresources/build.go:125-128 | the leftover is smaller than the number of non-zero remainders, or both are zero, so the length guard never cuts it short |
| Apportionment.LargerWeightLargerShare | internal/status-exporter/export/podresources/build.go:101-130 | in Hamilton's apportionment a larger weight never gets a smaller share; equal weights are served in index order |
| Apportionment.HamiltonMinimisesDeviation | internal/status-exporter/export/podresources/build.go:101-130 | no integer vector with the same total lies closer to the exact quotas in total absolute deviation |
| NumaZones.DistributeGPUs | internal/status-exporter/export/numazones/layout.go:111-142 | fails exactly on a bad zone count, a wrong number of entries or a wrong sum; otherwise the explicit split, or the even split with larger zones first |
| NumaZones.EvenSplitUnique | internal/status-exporter/export/numazones/layout.go:133-141 | sum, order and a spread of at most one determine the even split |
| NumaZones.GPUIndexToZone | internal/status-exporter/export/numazones/layout.go:69-83 | each GPU index lies in the block of its zone |
| NumaZones.ZoneBlocksShape | internal/status-exporter/export/numazones/layout.go:68-83 | zones never decrease along the indices, and an index is in a zone iff it lies in the zone's block |
| NumaZones.ZoneBlocksUnique | internal/status-exporter/export/numazones/layout.go:68-83 | the blocks determine the index-to-zone list |
| NumaZones.ZoneCount | internal/status-exporter/export/numazones/layout.go:69-83 | each zone occurs exactly as often as it has GPUs |
| NumaZones.ResolveZoneLayout | internal/status-exporter/export/numazones/layout.go:27-66 | disabled below one zone; fails exactly on a bad split or a malformed quantity; otherwise the GPU split, the per-zone quantities and contiguous cpu ids |
| NumaZones.CpuIdsPerZone | internal/status-exporter/export/numazones/layout.go:44-57 | one run of cores consecutive ids per zone, starting where the previous zone stopped |
| NumaZones.CpuIdsDistinct | internal/status-exporter/export/numazones/layout.go:44-57 | position i of zone z holds cpu id z*cores+i when the zone lists concatenate to 0, 1, 2, ... |
| NumaZones.LayoutAmounts | internal/status-exporter/export/numazones/layout.go:144-177 | per zone the override, or the node's amount divided evenly with the remainder dropped, or nothing; as many cpu ids as whole cores, halves up |
| Cpulist.Cpulist | internal/status-exporter/export/numazones/layout.go:86-109 | the printed text joins the runs of the list, and parsing it by the List format of cpuset(7) gives the list back |
| Cpulist.ParseJoin | internal/status-exporter/export/numazones/layout.go:90-109 | any list of ranges survives printing and parsing |
| Cpulist.ExpandRuns | internal/status-exporter/export/numazones/layout.go:99-108 | the runs expand to the list, and no run can be joined with the next |
| Cpulist.RunsOfAscending | internal/status-exporter/export/numazones/layout.go:85-109 | for an ascending list the printed ranges are separated by real gaps |
| Cpulist.RunsAreShortest | internal/status-exporter/export/numazones/layout.go:85-109 | no list of ranges for the same ids is shorter |
| Cpulist.MaximalIsUnique | internal/status-exporter/export/numazones/layout.go:85-109 | the printed ranges are the only maximal ones for their ids |
| Cpulist.PrintedForm | internal/status-exporter/export/numazones/layout.go:85-109 | 0, 1, 2, 3 and 8 are printed as 0-3,8 |
| Decimals.ParseDecimal | internal/status-exporter/export/numazones/layout.go:92-98 | decimal text of a number is all digits and parses back to it |
| PodResources.Aggregate | internal/status-exporter/export/podresources/build.go:33-54 | the per-pod zone tables list exactly the owned GPUs the layout covers, and each pod is listed once |
| PodResources.ChargeZones | internal/status-exporter/export/podresources/build.go:73-91 | devices, cpu ids and memory blocks zone by zone from the shares |
| PodResources.WholeCores | internal/status-exporter/export/podresources/build.go:70 | below 2^51 millicores the float64 rounding yields the nearest whole number of cores, halves up |
| PodResources.BuildEntry | internal/status-exporter/export/podresources/build.go:58-92 | one pod's entry: its holdings by ascending zone, its request apportioned by GPU count |
| PodResources.BuildPodResources | internal/status-exporter/export/podresources/build.go:29-95 | the response: strictly ascending keys, exactly the pods that hold GPUs, each entry as required; nothing without a topology or layout |
| PodResourcesLaws.EveryOwnedGpuChargedOnce | internal/status-exporter/export/podresources/build.go:35-54 | the charges of the response are the owned, covered GPUs, each exactly once, with its own pod and zone |
| PodResourcesLaws.ZoneCapacityRespected | internal/status-exporter/export/podresources/build.go:42-53 | devices charged to a zone over all pods never exceed the zone's GPUs |
| PodResourcesLaws.EntryGpus | internal/status-exporter/export/podresources/build.go:35-53 | the device ids of an entry's zone are those of the pod's owned, covered GPUs there, in index order |
| PodResourcesLaws.ChargedIsListed | internal/status-exporter/export/podresources/build.go:35-53 | every such GPU has an entry of its pod and a place for its zone |
| PodResourcesLaws.ResponseOrder | internal/status-exporter/export/podresources/build.go:55-66 | keys ascend strictly, and so do the zones of each entry |
| PodResourcesLaws.EntryCpus | internal/status-exporter/export/podresources/build.go:70-83 | a pod's cpu ids ascend strictly and lie in zones where it holds GPUs; of each such zone's list exactly the first ids, as many as the zone's share, are taken; the shares sum to the rounded request iff they conserve it, as they do below the bound |
| PodResourcesLaws.EntryMemory | internal/status-exporter/export/podresources/build.go:72-90 | each held zone with a positive share has one memory block of exactly that size, and no other zone has one; the blocks sum to the request iff the shares conserve it, as they do below the bound |
| PodResourcesLaws.EntryNamesOwner | internal/status-exporter/export/podresources/build.go:42-47 | without slashes in namespaces an entry names the owner of every GPU charged under its key |
| PodResourcesLaws.ResponseUnique | internal/status-exporter/export/podresources/build.go:55-95 | the response does not depend on map iteration order; the table, the layout and the requests determine it |
| NodeResourceTopologies.BuildNRT | internal/status-exporter/export/nrt/build.go:32-94 | one zone per layout zone with its capacities and distances, policy and scope defaults, and the errors of the layout |
| NodeResourceTopologies.TopologyTotals | internal/status-exporter/export/nrt/build.go:55-82 | capacities sum to the GPU count and the cost matrix is symmetric |
| NodeResourceTopologies.PublishedZones | internal/status-exporter/export/nrt/build.go:49-82 | names, GPU counts, amounts and distances of each zone from the pool's configuration, distances 10 and 21 by default |
| NodeResourceTopologies.LegacyPolicyIs | internal/status-exporter/export/nrt/build.go:110-125 | the deprecated policy name for each policy and scope |
| NodeResourceTopologies.ZoneNamesDistinct | internal/status-exporter/export/nrt/build.go:96 | zone names are distinct |
| NodeResourceTopologies.ChargedWithinPublishedCapacity | internal/status-exporter/export/nrt/build.go:55-82 | devices charged to a zone never exceed its published GPU capacity |
| PodHandlers.DedicatedAddition | internal/status-updater/handlers/pod/dedicated_gpu_pod_handler.go:13-59 | first-fit allocation in place, skipped for a pod already allocated, failing when a reservation pod cannot be settled |
| PodHandlers.ReservationAddition | internal/status-updater/handlers/pod/gpu_reservation_pod_handler.go:16-62 | succeeds iff no index has to be written, or some GPU carries the pod's name and the patch succeeds |
| PodHandlers.DedicatedRefresh | internal/status-updater/handlers/pod/dedicated_gpu_pod_handler.go:61-81 | usage refresh in place on the pod's dedicated GPUs |
| PodHandlers.DedicatedDeletion | internal/status-updater/handlers/pod/dedicated_gpu_pod_handler.go:83-96 | release in place of the pod's dedicated GPUs |
| PodHandlers.IsAlreadyAllocated | internal/status-updater/handlers/pod/dedicated_gpu_pod_handler.go:98-109 | true iff some GPU belongs to the pod's first container |
| PodHandlers.MatchingReservationName | internal/status-updater/handlers/pod/shared_gpu_pod_handler.go:87-152 | the first reservation pod with the index annotation, or else with the group label |
| PodHandlers.MatchingReservationIndex | internal/status-updater/handlers/pod/shared_gpu_pod_handler.go:61-85 | the first GPU owned by a pod of that name |
| PodHandlers.SharedUsage | internal/status-updater/handlers/pod/shared_gpu_pod_handler.go:20-59 | reports usage on the reservation pod's GPU |
| PodHandlers.SharedDeletion | internal/status-updater/handlers/pod/shared_gpu_pod_handler.go:37-49 | takes the report off the reservation pod's GPU |
| PodHandlers.ResourceClaimNames | internal/status-updater/handlers/pod/dra_gpu_pod_handler.go:174-199 | each usable claim name of the status or the specification once, in order of first appearance, status before specification |
| PodHandlers.DeviceNamesFromClaims | internal/status-updater/handlers/pod/dra_gpu_pod_handler.go:150-216 | the devices of this driver over all claims, or failure when a claim cannot be read |
| PodHandlers.FindGpuIndexByID | internal/status-updater/handlers/pod/dra_gpu_pod_handler.go:221-228 | the first GPU whose id equals the name up to case |
| PodHandlers.AllocateDevices | internal/status-updater/handlers/pod/dra_gpu_pod_handler.go:45-68 | exactly the free GPUs some name designates go to the pod |
| PodHandlers.AllocateLate | internal/status-updater/handlers/pod/dra_gpu_pod_handler.go:91-112 | late allocation in place, name by name |
| PodHandlers.DraAddition | internal/status-updater/handlers/pod/dra_gpu_pod_handler.go:21-71 | claim-driven allocation in place |
| PodHandlers.DraPodUpdate | internal/status-updater/handlers/pod/dra_gpu_pod_handler.go:75-131 | late allocation or usage refresh in place |
| PodHandlers.DraDeletion | internal/status-updater/handlers/pod/dra_gpu_pod_handler.go:134-147 | release in place of everything the pod owns |
| PodHandlers.PodHandler.HandleAdd | internal/status-updater/handlers/pod/handler.go:33-57 | stores the table after all three stages, or on any failure leaves the stored table as it was |
| PodHandlers.PodHandler.HandleUpdate | internal/status-updater/handlers/pod/handler.go:59-83 | the same for updates |
| PodHandlers.PodHandler.HandleDelete | internal/status-updater/handlers/pod/handler.go:85-103 | the same for deletions |
| GpuLaws.NoTakeover | internal/status-updater/handlers/pod/handler.go:33-83 | no addition or update changes the owner of an owned GPU |
| GpuLaws.OtherReportsKept | internal/status-updater/handlers/pod/handler.go:33-83 | additions and updates leave every other pod's usage reports alone |
| GpuLaws.UpdateRefreshesReports | internal/status-updater/handlers/pod/handler.go:59-83 | after an update every GPU of the pod, and its reservation pod's GPU, reports the current usage |
| GpuLaws.GrantsAreReported | internal/status-updater/handlers/pod/handler.go:33-57 | a newly granted GPU belongs to the pod and reports its usage |
| GpuLaws.AddIsIdempotent | internal/status-updater/handlers/pod/handler.go:33-57 | a repeated addition changes nothing, for any mix of dedicated, shared and DRA and after a partial or empty allocation |
| GpuLaws.UpdateIsIdempotent | internal/status-updater/handlers/pod/handler.go:59-83 | a repeated update changes nothing, for any kind of pod |
| GpuLaws.AdditionGrants | internal/status-updater/handlers/pod/handler.go:33-57 | exactly which free GPUs an addition grants: the first-fit ones, or the claimed ones when the pod holds nothing by then |
| GpuLaws.UpdateGrants | internal/status-updater/handlers/pod/handler.go:59-83 | an update grants exactly the free claimed GPUs of a DRA pod that holds nothing |
| GpuLaws.FirstFitGrant | internal/status-updater/handlers/pod/dedicated_gpu_pod_handler.go:32-51 | a dedicated pod gets min(limit, free) GPUs, the lowest-indexed free ones, and nothing else changes |
| GpuLaws.DeleteUndoesAdd | internal/status-updater/handlers/pod/dedicated_gpu_pod_handler.go:83-96 | for a pod that shares nothing and holds nothing, on a table whose free GPUs are clean, deletion straight after addition restores the table exactly |
| GpuLaws.SharedDeleteUndoesAdd | internal/status-updater/handlers/pod/shared_gpu_pod_handler.go:20-59 | a shared pod's deletion restores the table iff it was not reported there before |
| GpuLaws.MixedDeleteUndoesAdd | internal/status-updater/handlers/pod/handler.go:33-103 | for a shared pod that may be dedicated or DRA as well, exactly which tables deletion straight after addition restores, and that it fails iff no GPU carries the reservation pod's name before |
| GpuLaws.OtherNameDeleteUndoesAdd | internal/status-updater/handlers/pod/handler.go:33-103 | for such a pod not named like its reservation pod, iff it was not reported there before |
| GpuLaws.NamesakeDeletionFails | internal/status-updater/handlers/pod/shared_gpu_pod_handler.go:37-85 | a pod named like its reservation pod whose addition succeeds and whose deletion fails |
| GpuLaws.OwnClaimKeepsReport | internal/status-updater/handlers/pod/shared_gpu_pod_handler.go:37-85 | such a pod whose claim makes its deletion leave the report behind |
| GpuLaws.DeleteFailsIff | internal/status-updater/handlers/pod/handler.go:85-103 | a deletion fails iff the pod is shared and no GPU belongs to its reservation pod |
| GpuLaws.DeletionClearsReportsIff | internal/status-updater/handlers/pod/handler.go:85-103 | a successful deletion takes back every report of the pod iff each lies on a GPU it empties or on the one a shared pod finds |
| GpuLaws.NamesakeKeepsReport | internal/status-updater/handlers/pod/shared_gpu_pod_handler.go:37-85 | a table where the deletion looks on a namesake's GPU and the report stays |
| GpuLaws.DeletionReleasesAllIff | internal/status-updater/handlers/pod/handler.go:85-103 | a successful deletion leaves the pod no GPU iff its specification covers each one it holds |
| GpuLaws.DraAllocByFoldedSet | internal/status-updater/handlers/pod/dra_gpu_pod_handler.go:45-68 | the allocation depends only on the case-folded set of device names |
| GpuLaws.DraAddsCommute | internal/status-updater/handlers/pod/dra_gpu_pod_handler.go:21-71 | additions of two DRA pods with disjoint devices commute |
| GpuLaws.LateAllocIsDraAlloc | internal/status-updater/handlers/pod/dra_gpu_pod_handler.go:94-112 | going through the names one by one grants exactly the free GPUs that some name designates |
| GpuLaws.LateAllocation | internal/status-updater/handlers/pod/dra_gpu_pod_handler.go:83-113 | an update of a DRA pod, shared or not, that holds nothing equals its addition |
| GpuLaws.DistinctNames | internal/status-updater/handlers/pod/dra_gpu_pod_handler.go:174-199 | claim names come without repetition and are exactly the usable ones |
| GpuLaws.ChargeReachesReservation | internal/status-updater/handlers/pod/shared_gpu_pod_handler.go:72-78 | the reservation pod's own GPU is found iff no earlier GPU belongs to a namesake |
| GpuLaws.NamesakeTakesCharge | internal/status-updater/handlers/pod/shared_gpu_pod_handler.go:72-78 | a namesake in another namespace receives the report instead |
| GpuRuns.EveryReachableTable | internal/status-updater/handlers/pod/handler.go:33-103 | after any history a GPU without owner has an empty status and every owner is a live pod |
| GpuRuns.NoLeak | internal/status-updater/handlers/pod/handler.go:33-103 | once all pods are deleted the table is the generated one |
| GpuRuns.OwnerStays | internal/status-updater/handlers/pod/handler.go:33-103 | a GPU stays with its pod through any history that does not delete the pod |
| GpuRuns.FailedDeletionKeepsGpu | internal/status-updater/handlers/pod/handler.go:85-103 | a history whose failed deletion leaves a GPU taken |
| GpuRuns.RecreatedPodLeavesGpu | internal/status-updater/handlers/pod/handler.go:85-103 | a pod created again with another first container after a failed deletion leaves the old GPU taken |
| GpuRuns.NamesakeLeavesReport | internal/status-updater/handlers/pod/shared_gpu_pod_handler.go:37-85 | a history of successful events after which a deleted pod's report is still there |
| GpuReports.LookupKeptIff | internal/status-updater/handlers/pod/shared_gpu_pod_handler.go:61-85 | an event keeps the lookup of a reservation pod iff it grants no namesake a GPU in front |
| GpuReports.EveryReportIsLive | internal/status-updater/handlers/pod/shared_gpu_pod_handler.go:20-85 | after any history in which lookups are kept every usage report belongs to a live pod, on its own GPU or its reservation pod's first one |
| GpuAnswers.ClaimsAnswer | internal/status-updater/handlers/pod/dra_gpu_pod_handler.go:21-131 | a pod with claims only: addition and late allocation fail iff a claim named by status or specification is missing, else the free GPUs allocated to a named claim are booked for it and nothing else changes |
| GpuAnswers.LimitAnswer | internal/status-updater/handlers/pod/dedicated_gpu_pod_handler.go:13-59 | a pod with a limit only: exactly which GPUs it gets, with which status, and when a reservation pod's addition fails |
| GpuAnswers.SharesAnswer | internal/status-updater/handlers/pod/shared_gpu_pod_handler.go:20-85 | a pod that only shares: each event fails iff it runs on no GPU, else its report is put on or taken off that GPU alone |
| GpuAnswers.ReservationNameIs | internal/status-updater/handlers/pod/shared_gpu_pod_handler.go:87-152 | the reservation pod is the first with the pod's index annotation, an integer, or else the first with its group label |
| GpuAnswers.DeletionAnswer | internal/status-updater/handlers/pod/handler.go:85-103 | the deletion of a pod that is not shared empties exactly the GPUs it holds for its limit or its claims |
| GpuAnswers.UpdateAnswer | internal/status-updater/handlers/pod/dedicated_gpu_pod_handler.go:61-81 | the update of a pod without claims reports its usage on exactly the GPUs it holds for its limit, reservation pods aside |
| GpuAnswers.HeldUpdateAnswer | internal/status-updater/handlers/pod/dra_gpu_pod_handler.go:114-128 | the update of a pod with claims that holds a GPU reports its usage on all it holds |
| GpuAnswers.DeviceNamesAre | internal/status-updater/handlers/pod/dra_gpu_pod_handler.go:150-216 | the devices of a pod are those of this driver allocated to a claim its status or specification names |
| GpuAnswers.SameFold | internal/status-updater/handlers/pod/dra_gpu_pod_handler.go:221-228 | names fold alike iff they agree letter by letter up to ASCII case |
| ComputeDomains.ComputeDomainState.Prepare | internal/compute-domain-dra-plugin/state.go:127-213 | the outcome, and exactly the durable writes of the plan, in order |
| ComputeDomains.ComputeDomainState.Unprepare | internal/compute-domain-dra-plugin/state.go:215-258 | exactly the durable writes of the plan, in order |
| ComputeDomains.ComputeDomainState.EnsureClaimArtifacts | internal/compute-domain-dra-plugin/state.go:308-325 | writes one spec file with recomputed CDI ids, fails without devices |
| ComputeDomains.ReadDeviceClass | internal/compute-domain-dra-plugin/state.go:260-269 | the class of the first exact request |
| ComputeDomains.ReadParams | internal/compute-domain-dra-plugin/state.go:271-288 | domain and allocation mode of the first readable configuration for this driver |
| ComputeDomains.LeaveDomains | internal/compute-domain-dra-plugin/state.go:235-245 | takes a claim out of every domain and drops a domain that becomes empty, in any order |
| ComputeDomainLaws.EveryReachableDisk | internal/compute-domain-dra-plugin/state.go:127-258 | after any calls, each stopped anywhere, claims are accounted for and every checkpointed claim has its spec file with its own devices |
| ComputeDomainLaws.EveryCrashPointIsDurable | internal/compute-domain-dra-plugin/state.go:203-255 | every disk on the way through a call has that property |
| ComputeDomainLaws.PrepareRetry | internal/compute-domain-dra-plugin/state.go:145-210 | a retried Prepare ends where an uninterrupted one would |
| ComputeDomainLaws.UnprepareRetry | internal/compute-domain-dra-plugin/state.go:231-255 | a retried Unprepare reaches the uninterrupted checkpoint; the spec file stays iff the crash fell between the writes |
| ComputeDomainLaws.CrashLeavesSpecFile | internal/compute-domain-dra-plugin/state.go:249-255 | one claim prepared and unprepared with a crash in between whose spec file outlives the retry |
| ComputeDomainLaws.PrepareIsIdempotent | internal/compute-domain-dra-plugin/state.go:148-153 | preparing again returns the same devices and leaves the disk as it is |
| ComputeDomainLaws.UnprepareIsIdempotent | internal/compute-domain-dra-plugin/state.go:231-233 | unpreparing again changes nothing, and the claim is in no domain |
| ComputeDomainLaws.UnprepareUndoesPrepare | internal/compute-domain-dra-plugin/state.go:215-258 | unpreparing a freshly prepared claim restores the checkpoint exactly |
| ComputeDomainLaws.PrepareLeavesOthers | internal/compute-domain-dra-plugin/state.go:127-213 | other claims keep devices, spec file and domains, wherever the call stops |
| ComputeDomainLaws.UnprepareLeavesOthers | internal/compute-domain-dra-plugin/state.go:215-258 | the same for Unprepare |
| ComputeDomainAnswers.PrepareAnswer | internal/compute-domain-dra-plugin/state.go:155-213 | a fresh claim fails iff it names no class, no domain, or wants all of no channels; else all channels each once, or channel 0, are prepared with pool, domain and id of the claim, and recorded in spec file, checkpoint and domain |
| ComputeDomainAnswers.PreparedAnswer | internal/compute-domain-dra-plugin/state.go:148-153 | a prepared claim keeps its devices with renewed ids and gets its spec file written again |
| ComputeDomainAnswers.UnprepareAnswer | internal/compute-domain-dra-plugin/state.go:215-258 | exactly what is gone afterwards: the claim, its spec file, its name in every domain, and domains left empty |
| MockPools.Diff | internal/status-updater/controllers/mock/diff.go:29-57 | create, update and delete lists are exactly the difference, each name once, for any map order |
| MockPools.ReconcileKind | internal/status-updater/controllers/mock/reconciler.go:67-129 | wherever it stops each name is untouched or at its target, nothing is updated before all is created or deleted before all is updated; without API failures it completes iff no desired name belongs to an unmanaged object |
| MockReconciler.ComputeMockPoolResources | internal/status-updater/controllers/mock/mock_pool_resources.go:32-74 | two resources per mock pool in ascending pool order, failing iff some mock pool does not render |
| MockReconciler.Reconciler.Reconcile | internal/status-updater/controllers/mock/reconciler.go:31-49 | a pass reaches the target of both kinds, or stops part way on a failure or conflict, with no DaemonSet touched before the ConfigMaps are done; nothing is touched when reading or rendering fails |
| MockReconciler.PassSettles | internal/status-updater/controllers/mock/reconciler.go:67-129 | a complete pass from any state leaves exactly the desired names, none stale |
| MockReconciler.EmptyDiffIffSettled | internal/status-updater/controllers/mock/diff.go:29-115 | the difference is empty iff the state is settled |
| MockReconciler.UnmanagedUntouched | internal/status-updater/controllers/mock/reconciler.go:60-65 | objects outside the selector stay the same after any part of a pass |
| MockReconciler.ResumeReachesSameState | internal/status-updater/controllers/mock/reconciler.go:67-129 | a pass resumed after a half-applied one ends where the uninterrupted pass would |
| MockReconciler.SettledIsFixpoint | internal/status-updater/controllers/mock/diff.go:29-115 | a further pass changes nothing iff the state is settled |
| MockReconciler.HashesAgree | internal/status-updater/controllers/mock/mock_pool_resources.go:60-71 | after a pass each DaemonSet carries the hash of its pool's ConfigMap on the server |
| MockReconciler.WantedDaemonSets | internal/status-updater/controllers/mock/mock_pool_resources.go:52-72 | one DaemonSet for each mock pool under its own name, field by field, and no other |
| MockReconciler.WantedConfigMaps | internal/status-updater/controllers/mock/mock_pool_resources.go:52-60 | one ConfigMap for each mock pool with the pool's rendering, and no other |
| MockReconciler.PassRunsPool | internal/status-updater/controllers/mock/reconciler.go:67-97 | after a complete pass each mock pool's DaemonSet runs the configured image, command, arguments and lifecycle with the hash of the pool's rendering; a created one selects the pool's nodes |
| MockReconciler.DaemonSetConvergesIff | internal/status-updater/controllers/mock/diff.go:65-83 | exactly when a pass makes a DaemonSet equal to the desired one |
| MockReconciler.PullPolicyChangeIsIgnored | internal/status-updater/controllers/mock/diff.go:65-83 | a changed pull policy alone never reaches an existing DaemonSet |
| MockReconciler.ResourceNameInjective | internal/status-updater/controllers/mock/resources.go:25-27 | different pools have different resource names |
| Profiles.Merge | internal/common/profile/profile.go:47-70 | the loop computes the key-by-key overlay, in any key order |
| Profiles.LookupMerged | internal/common/profile/profile.go:45-70 | every path lookup in a merge is override-first |
| Profiles.OverridesFirst | internal/common/profile/profile.go:45-70 | a value of the overrides is in the merge at its path unless both have a map there; an open path reads the base |
| Profiles.BlockedMeans | internal/common/profile/profile.go:61-66 | a path is cut off iff a proper prefix of it ends in a plain value |
| Profiles.MergeIdentity | internal/common/profile/profile.go:48-50 | the empty map is an identity on both sides |
| Profiles.MergeIdempotent | internal/common/profile/profile.go:47-70 | merging the same overrides again changes nothing |
| Profiles.MergeAssociativeIff | internal/common/profile/profile.go:47-70 | exactly when three profiles merge associatively |
| Profiles.MergeNotAssociative | internal/common/profile/profile.go:47-70 | three profiles that do not merge associatively |
| Profiles.NoClashAssociates | internal/common/profile/profile.go:47-70 | they do when no path is a map in the outer two and something else in the middle one |
| Profiles.ExtractReads | internal/common/profile/profile.go:74-152 | each extracted field is what the profile has at its path, memory cut off to whole MiB, the count from device_count if positive or else from the devices |
| LegacyTopology.NormalizeNodePool | internal/common/topology/normalize.go:27-61 | the new-format pool of a legacy pool |
| LegacyTopology.OtherDevices | internal/common/topology/resolve.go:30-46 | all declared devices but GPUs, each once, sorted by name, for any map order |
| LegacyTopology.ResolveNodePool | internal/common/topology/resolve.go:27-103 | resolves from the profile with overrides merged in, or from the overrides alone; fails iff the profile cannot be loaded |
| LegacyTopology.ReadersAgree | internal/common/topology/resolve.go:77-103 | the overrides reader agrees with Extract on product, memory and count |
| LegacyTopology.ResolvedReads | internal/common/topology/resolve.go:27-103 | product, memory, count and versions are what the profile in force has at their paths |
| LegacyTopology.OtherDevicesAre | internal/common/topology/resolve.go:30-46 | each other device as often as it is declared, GPUs left out, in ascending order of names |
| LegacyTopology.LegacyRoundTrip | internal/common/topology/normalize.go:27-61 | normalising and resolving a legacy pool gives back its product, memory and count, and its other devices, GPUs left out, each as often as before and sorted |
| DraConfigs.FindConfig | internal/dra-plugin-gpu/state.go:164-169 | the last configuration that applies to a request |
| DraConfigs.OpaqueDeviceConfigs | internal/dra-plugin-gpu/state.go:281-303 | the configurations for this driver in order, failing iff one cannot be decoded |
| DraConfigs.GroupResults | internal/dra-plugin-gpu/state.go:158-171 | results grouped by their configuration, failing iff a device is not allocatable |
| DraConfigs.ApplyConfig | internal/dra-plugin-gpu/state.go:241-278 | edits for each device of a group, failing iff some device has none |
| DraConfigs.ApplyConfigs | internal/dra-plugin-gpu/state.go:176-207 | edits per device over all groups, in any order, failing iff a used configuration is unusable |
| DraConfigs.CollectDevices | internal/dra-plugin-gpu/state.go:211-224 | one prepared device per result, in any group order |
| DraConfigs.PrepareDevices | internal/dra-plugin-gpu/state.go:134-227 | one prepared device per allocation result; each has the edits of its last matching configuration, up to order, iff results for one device never call for different edits; fails exactly for an unallocated claim, an undecodable configuration or one bad result |
| DraConfigs.DistinctDevicesAgree | internal/dra-plugin-gpu/state.go:152-207 | with distinct devices the per-device edits never conflict |
| DraConfigAnswers.PrepareAnswer | internal/dra-plugin-gpu/state.go:134-227 | fails iff the claim is not allocated, a configuration for this driver cannot be decoded, or a result cannot be prepared; else for distinct devices each has the environment of the last configuration that lists its request or none, or of the default |
| DraConfigAnswers.ConfigIs | internal/dra-plugin-gpu/state.go:143-168 | the configuration chosen for a request is the last for this driver that concerns it, or the default |

## Left out

- LargestRemainders.LargestRemainder: the sum of the weights does not overflow, and the conversion of a quotient to int64 is in range (it is not for totals that round to 2^63). Negative weights, which the code does not reject, are excluded.
- LargestRemainders.LargestRemainder: the stable sort by remainder is a sort by remainder and then position, which is the same for a list in index order.
- LargestRemainders.ApportionmentIsHamilton: the bound is sufficient, not necessary; above it the quota rule and optimality depend on the rounding of the single quotients.
- NumaZones.ResolveZoneLayout: resource quantities are whole millicores and bytes; parsing their text is an input. Negative quantities and negative GPU counts are excluded.
- Cpulist.Cpulist: negative ids, for which the List format has no notation, are excluded.
- PodResources.BuildPodResources: cpu ids of different pods may overlap, since each pod takes ids from the start of a zone; nothing is claimed across pods.
- PodHandlers.PodHandler.HandleAdd: reading and writing the node's ConfigMap always succeeds; a failure there would leave the stored table as it was. A missing and an empty usage map are one value, as they are after YAML.
- PodHandlers.FindGpuIndexByID: folds ASCII letters only, while strings.EqualFold knows all of Unicode.
- GpuReports.EveryReportIsLive: for histories with distinct uids in which a live pod's reservation name stays the same and no event grants a namesake a GPU in front; GpuRuns.NamesakeLeavesReport shows a history outside.
- GpuRuns.EveryReachableTable: a pod created again under the name of a pod whose deletion failed has its specification; GpuRuns.RecreatedPodLeavesGpu shows the other case.
- calculateUsage is an opaque value of the pod; PodGroup lookup, utilisation annotations and random utilisation are not modelled.
- Device node symlinks created during Prepare, timestamps of domains, checkpoint checksums and the unused in-memory domain table are not modelled.
- JSON and YAML text, Kubernetes clients, informers, gRPC, CDI libraries and file input and output are replaced by values.
- MockPools.Diff: absent and empty command or argument lists are one value, while reflect.DeepEqual tells them apart.
- Profiles.Merge: results are values, so sharing of nested maps between a merge and its inputs is not modelled; floats are reals.
- LegacyTopology.NormalizeNodePool: integers do not overflow; a negative GPU count, on which the code panics, is excluded.
- DraConfigs.PrepareDevices: the default configuration and the outcome of normalizing and validating a configuration are inputs, because the configuration library is not part of the repository.
- isNewFormat and whole-cluster normalisation apply the node-pool functions to every pool; they would add easy members only.
- The mock pools' rendering of a profile to YAML and the hash function are inputs of the pass.
- The ComputeDomain controller, node controller, metrics exporters, device plugin, nvidia-smi and MIG emulation are not part of this model.
