/**
 What pod events answer, told from the pod, the cluster and the table alone: which claims count, which
 GPUs are granted and to whom, which GPU a shared pod runs on, and what a deletion empties.
 */
module GpuAnswers {
  import opened Decimals
  import opened GpuLaws
  import opened GpuTable
  import opened Sequences

  // ----- Names up to case -----

  predicate SameLetter(x: char, y: char) {
    || x == y
    || ('A' <= x <= 'Z' && y as int == x as int + 32)
    || ('A' <= y <= 'Z' && x as int == y as int + 32)
  }

  predicate SameUpToCase(a: string, b: string) {
    |a| == |b| && forall i :: 0 <= i < |a| ==> SameLetter(a[i], b[i])
  }

  lemma SameFold(a: string, b: string)
    ensures Fold(a) == Fold(b) <==> SameUpToCase(a, b)
  {
    forall i | 0 <= i < |a| && i < |b| ensures FoldChar(a[i]) == FoldChar(b[i]) <==> SameLetter(a[i], b[i]) {
    }
    if Fold(a) == Fold(b) {
      assert |a| == |Fold(a)| == |b|;
      forall i | 0 <= i < |a| ensures SameLetter(a[i], b[i]) {
        assert Fold(a)[i] == Fold(b)[i];
      }
    }
  }

  // ----- Claims -----

  /** The status or the specification of the pod names this claim. */
  predicate NamesClaim(pod: Pod, name: string) {
    name != "" && (Some(name) in pod.statusClaims || Some(name) in pod.specClaims)
  }

  /** The named claim has been allocated this device of the GPU driver. */
  predicate Allocates(pod: Pod, c: Cluster, name: string, device: string) {
    && NamesClaim(pod, name) && (pod.namespace, name) in c.claims
    && c.claims[(pod.namespace, name)].allocation.Some?
    && Allocation("gpu.nvidia.com", device) in c.claims[(pod.namespace, name)].allocation.value
  }

  /** GPU i is the first whose id is this device name up to case. */
  predicate FirstWithId(t: Table, device: string, i: nat) {
    && i < |t| && SameUpToCase(t[i].id, device)
    && forall j :: 0 <= j < i ==> !SameUpToCase(t[j].id, device)
  }

  ghost predicate ClaimedGpu(t: Table, pod: Pod, c: Cluster, i: nat) {
    exists name, device :: Allocates(pod, c, name, device) && FirstWithId(t, device, i)
  }

  lemma DesignatesFirst(t: Table, device: string, i: nat)
    requires i < |t|
    ensures Designates(t, device, i) <==> FirstWithId(t, device, i)
  {
    forall j | 0 <= j < |t| ensures Fold(t[j].id) == Fold(device) <==> SameUpToCase(t[j].id, device) {
      SameFold(t[j].id, device);
    }
    hide Fold, SameUpToCase;
  }

  lemma {:induction false} DevicesOfAre(results: seq<Allocation>, device: string)
    ensures device in DevicesOf(results) <==> Allocation("gpu.nvidia.com", device) in results
  {
    if |results| > 0 {
      var n := |results| - 1;
      DevicesOfAre(results[..n], device);
      assert results == results[..n] + [results[n]];
    }
  }

  lemma {:induction false} DevicesOfClaimsAre(namespace: string, names: seq<string>, c: Cluster)
    ensures DevicesOfClaims(namespace, names, c).None?
            <==> exists name :: name in names && (namespace, name) !in c.claims
    ensures DevicesOfClaims(namespace, names, c).Some? ==> forall device ::
      device in DevicesOfClaims(namespace, names, c).value <==>
        exists name :: name in names && device in ClaimDevices(c.claims[(namespace, name)])
  {
    if |names| > 0 {
      var n := |names| - 1;
      DevicesOfClaimsAre(namespace, names[..n], c);
      assert names == names[..n] + [names[n]];
      hide ClaimDevices;
    }
  }

  /** The claims of a pod can all be read iff none it names is missing; then its devices are the allocated ones. */
  lemma DeviceNamesAre(pod: Pod, c: Cluster)
    ensures DeviceNames(pod, c).None? <==> exists name :: NamesClaim(pod, name) && (pod.namespace, name) !in c.claims
    ensures DeviceNames(pod, c).Some? ==> forall device ::
      device in DeviceNames(pod, c).value <==> exists name :: Allocates(pod, c, name, device)
  {
    var listed := pod.statusClaims + pod.specClaims;
    DistinctNames(listed);
    var names := ClaimNames(pod);
    assert forall name :: name in names <==> NamesClaim(pod, name);
    DevicesOfClaimsAre(pod.namespace, names, c);
    hide Distinct, DevicesOfClaims, DevicesOf, NamesClaim, ClaimNames;
    if DeviceNames(pod, c).Some? {
      forall device ensures
        device in DeviceNames(pod, c).value <==> exists name :: Allocates(pod, c, name, device)
      {
        forall name | name in names
          ensures device in ClaimDevices(c.claims[(pod.namespace, name)]) <==> Allocates(pod, c, name, device)
        {
          var claim := c.claims[(pod.namespace, name)];
          if claim.allocation.Some? { DevicesOfAre(claim.allocation.value, device); }
        }
      }
    }
  }

  lemma ClaimedIs(t: Table, pod: Pod, c: Cluster, i: nat)
    requires DeviceNames(pod, c).Some? && i < |t|
    ensures Claimed(t, DeviceNames(pod, c).value, i) <==> ClaimedGpu(t, pod, c, i)
  {
    var names := DeviceNames(pod, c).value;
    DeviceNamesAre(pod, c);
    hide DeviceNames, Allocates, Designates, FirstWithId;
    if Claimed(t, names, i) {
      var k :| 0 <= k < |names| && Designates(t, names[k], i);
      assert names[k] in names;
      DesignatesFirst(t, names[k], i);
    }
    if ClaimedGpu(t, pod, c, i) {
      var name, device :| Allocates(pod, c, name, device) && FirstWithId(t, device, i);
      assert device in names;
      var k :| 0 <= k < |names| && names[k] == device;
      DesignatesFirst(t, device, i);
    }
  }

  /** The container a claimed GPU is booked on: the first with a claim, or else the first. */
  predicate BookedOn(containers: seq<Container>, name: string) {
    || (exists k :: 0 <= k < |containers| && FirstWithClaim(containers, k) && name == containers[k].name)
    || (&& |containers| > 0 && name == containers[0].name
        && forall j :: 0 <= j < |containers| ==> containers[j].claims == 0)
  }

  predicate FirstWithClaim(containers: seq<Container>, k: nat) {
    k < |containers| && containers[k].claims > 0 && forall j :: 0 <= j < k ==> containers[j].claims == 0
  }

  lemma ClaimContainerIs(containers: seq<Container>)
    requires |containers| > 0
    ensures BookedOn(containers, ClaimContainer(containers))
  {
    if k :| 0 <= k < |containers| && containers[k].claims > 0 {
      var f := FirstClaim(containers, k);
      assert FirstWithClaim(containers, f);
    }
  }

  lemma {:induction false} FirstClaim(containers: seq<Container>, k: nat) returns (f: nat)
    requires k < |containers| && containers[k].claims > 0
    ensures f <= k && FirstWithClaim(containers, f)
  {
    f := k;
    if j :| 0 <= j < k && containers[j].claims > 0 {
      f := FirstClaim(containers, j);
    }
  }

  predicate NotShared(pod: Pod, c: Cluster) {
    pod.namespace == c.reservationNamespace || (pod.gpuIndex.None? && pod.gpuGroup.None?)
  }

  /** The pod asks for claims only, and is not the owner of any GPU yet. */
  predicate ClaimsOnly(t: Table, pod: Pod, c: Cluster) {
    && pod.specClaims != [] && pod.gpuLimit == 0
    && NotShared(pod, c)
    && forall i :: 0 <= i < |t| ==> t[i].owner.namespace != pod.namespace || t[i].owner.pod != pod.name
  }

  /** GPU h is g, booked for the pod on this kind of container and reporting its usage. */
  predicate BookedFor(g: Gpu, h: Gpu, pod: Pod) {
    && h.id == g.id && h.owner.namespace == pod.namespace && h.owner.pod == pod.name
    && BookedOn(pod.containers, h.owner.container)
    && h.usage == g.usage[pod.uid := pod.usage]
  }

  /**
   A pod that only has claims: its addition fails iff a claim named by its status or its specification is
   missing; otherwise the free GPUs allocated to a named claim are booked for it, and all others stay.
   Its update does the same while it holds nothing.
   */
  lemma ClaimsAnswer(t: Table, pod: Pod, c: Cluster)
    requires pod.name != "" && |pod.containers| > 0 && ClaimsOnly(t, pod, c)
    ensures Add(t, pod, c).None? <==> exists name :: NamesClaim(pod, name) && (pod.namespace, name) !in c.claims
    ensures Add(t, pod, c).Some? ==> |Add(t, pod, c).value| == |t|
    ensures Add(t, pod, c).Some? ==> forall i :: 0 <= i < |t| ==>
      if t[i].owner.pod == "" && ClaimedGpu(t, pod, c, i) then BookedFor(t[i], Add(t, pod, c).value[i], pod)
      else Add(t, pod, c).value[i] == t[i]
    ensures Update(t, pod, c) == Add(t, pod, c)
  {
    DeviceNamesAre(pod, c);
    ClaimContainerIs(pod.containers);
    ClaimsStage(t, pod, c);
    if DeviceNames(pod, c).Some? {
      forall i | 0 <= i < |t| ensures Claimed(t, DeviceNames(pod, c).value, i) <==> ClaimedGpu(t, pod, c, i) {
        ClaimedIs(t, pod, c, i);
      }
    }
    hide Add, Update, DeviceNames, Claimed, ClaimedGpu, NamesClaim, ClaimContainer, BookedOn;
  }

  lemma ClaimsStage(t: Table, pod: Pod, c: Cluster)
    requires pod.name != "" && |pod.containers| > 0 && ClaimsOnly(t, pod, c)
    ensures Update(t, pod, c) == Add(t, pod, c)
    ensures Add(t, pod, c) == match DeviceNames(pod, c)
                              case None => None
                              case Some(names) => Some(DraAlloc(t, pod, names))
  {
    assert !Holds(t, pod);
    assert DedicatedUpdate(t, pod, c) == t;
    if DeviceNames(pod, c).Some? {
      LateAllocIsDraAlloc(t, pod, DeviceNames(pod, c).value);
    }
    hide DeviceNames, DraAlloc, LateAlloc;
  }

  // ----- The order of claim names -----

  /** a is listed, and b not before or at its first appearance. */
  predicate ListedBefore(list: seq<Option<string>>, a: string, b: string) {
    exists p :: 0 <= p < |list| && list[p] == Some(a) && Some(b) !in list[..p + 1]
  }

  lemma {:induction false} DistinctOrder(list: seq<Option<string>>, i: nat, j: nat)
    requires i < j < |Distinct(list)|
    ensures ListedBefore(list, Distinct(list)[i], Distinct(list)[j])
  {
    var n := |list| - 1;
    var front, names := Distinct(list[..n]), Distinct(list);
    DistinctNames(list[..n]);
    var p;
    if j < |front| {
      DistinctOrder(list[..n], i, j);
      p :| 0 <= p < n && list[..n][p] == Some(front[i]) && Some(front[j]) !in list[..n][..p + 1];
    } else {
      assert front[i] in front;
      p :| 0 <= p < n && list[..n][p] == Some(front[i]);
      assert forall x :: x in list[..n][..p + 1] ==> x in list[..n];
    }
    assert list[..n][..p + 1] == list[..p + 1];
  }

  /** Each named claim once, those of the status first, in the order in which they are listed. */
  lemma ClaimNamesOrder(pod: Pod)
    ensures NoDuplicates(ClaimNames(pod))
    ensures forall name :: name in ClaimNames(pod) <==> NamesClaim(pod, name)
    ensures forall i, j :: 0 <= i < j < |ClaimNames(pod)| ==>
      ListedBefore(pod.statusClaims + pod.specClaims, ClaimNames(pod)[i], ClaimNames(pod)[j])
  {
    DistinctNames(pod.statusClaims + pod.specClaims);
    forall i, j | 0 <= i < j < |ClaimNames(pod)|
      ensures ListedBefore(pod.statusClaims + pod.specClaims, ClaimNames(pod)[i], ClaimNames(pod)[j])
    {
      DistinctOrder(pod.statusClaims + pod.specClaims, i, j);
    }
  }

  // ----- Dedicated pods -----

  function FreeSet(t: Table, n: nat): set<nat>
    requires n <= |t|
  {
    set j: nat | j < n && t[j].owner.pod == ""
  }

  lemma {:induction false} FreeBeforeIs(t: Table, n: nat)
    requires n <= |t|
    ensures FreeBefore(t, n) == |FreeSet(t, n)|
  {
    if n > 0 {
      FreeBeforeIs(t, n - 1);
      var before := FreeSet(t, n - 1);
      assert FreeSet(t, n) == if t[n - 1].owner.pod == "" then before + {n - 1} else before;
    }
  }

  predicate Booked(t: Table, pod: Pod)
    requires |pod.containers| > 0
  {
    exists i :: 0 <= i < |t| && t[i].owner == Owner(pod.namespace, pod.name, pod.containers[0].name)
  }

  /** Some GPU carries the pod's name, or the pod is about to get one. */
  predicate CarriesName(t: Table, pod: Pod) {
    exists i :: 0 <= i < |t| && (t[i].owner.pod == pod.name || (t[i].owner.pod == "" && pod.gpuLimit > 0))
  }

  /**
   A pod that only has a GPU limit: nothing happens when its first container is booked already.  Otherwise it
   gets the free GPUs with fewer than its limit of free ones before them; that fails for a reservation pod
   without index annotation when no GPU carries its name afterwards or its index cannot be written.
   */
  lemma LimitAnswer(t: Table, pod: Pod, c: Cluster)
    requires pod.name != "" && |pod.containers| > 0
    requires pod.gpuLimit != 0 && pod.specClaims == [] && NotShared(pod, c)
    ensures Booked(t, pod) ==> Add(t, pod, c) == Some(t)
    ensures !Booked(t, pod) ==>
      (Add(t, pod, c).None? <==>
        && pod.namespace == c.reservationNamespace && !pod.indexAnnotated
        && !(c.patchOk && CarriesName(t, pod)))
    ensures !Booked(t, pod) && Add(t, pod, c).Some? ==> |Add(t, pod, c).value| == |t|
    ensures !Booked(t, pod) && Add(t, pod, c).Some? ==> forall i :: 0 <= i < |t| ==>
      Add(t, pod, c).value[i] ==
        if t[i].owner.pod == "" && |FreeSet(t, i)| < pod.gpuLimit then
          Gpu(t[i].id, Owner(pod.namespace, pod.name, pod.containers[0].name),
              if pod.namespace == c.reservationNamespace then t[i].usage else t[i].usage[pod.uid := pod.usage])
        else t[i]
  {
    assert Booked(t, pod) <==> HoldsDedicated(t, pod) by {
      assert forall i :: 0 <= i < |t| ==>
        (DedicatedTo(t[i], pod) <==> t[i].owner == Owner(pod.namespace, pod.name, pod.containers[0].name));
    }
    if !Booked(t, pod) {
      var a := DedicatedAlloc(t, pod, c);
      forall i | 0 <= i < |t| ensures FreeBefore(t, i) == |FreeSet(t, i)| { FreeBeforeIs(t, i); }
      NameAfterwards(t, pod, c);
    }
  }

  lemma NameAfterwards(t: Table, pod: Pod, c: Cluster)
    requires pod.name != "" && |pod.containers| > 0
    ensures OwnsByName(DedicatedAlloc(t, pod, c), pod.name) <==> CarriesName(t, pod)
  {
    var a := DedicatedAlloc(t, pod, c);
    if i :| 0 <= i < |t| && t[i].owner.pod == pod.name {
      assert a[i].owner.pod == pod.name;
    } else if i :| 0 <= i < |t| && t[i].owner.pod == "" && pod.gpuLimit > 0 {
      NoneFree(t, pod, i);
      var j :| 0 <= j < |t| && FirstFit(t, pod, j);
      assert a[j].owner.pod == pod.name;
    }
  }

  // ----- Shared pods -----

  /** k is the first reservation pod with this index annotation. */
  predicate FirstWithIndex(pods: seq<ReservationPod>, index: string, k: nat) {
    && k < |pods| && pods[k].gpuIndex == Some(index)
    && forall j :: 0 <= j < k ==> pods[j].gpuIndex != Some(index)
  }

  /** k is the first reservation pod with this group label. */
  predicate FirstWithGroup(pods: seq<ReservationPod>, group: string, k: nat) {
    && k < |pods| && pods[k].gpuGroup == Some(group)
    && forall j :: 0 <= j < k ==> pods[j].gpuGroup != Some(group)
  }

  predicate NamedByIndex(pod: Pod, c: Cluster, name: string) {
    && pod.gpuIndex.Some? && IsInt64(pod.gpuIndex.value) && c.reservationPods.Some?
    && exists k :: 0 <= k < |c.reservationPods.value|
         && FirstWithIndex(c.reservationPods.value, pod.gpuIndex.value, k) && name == c.reservationPods.value[k].name
  }

  predicate NamedByGroup(pod: Pod, c: Cluster, name: string) {
    && pod.gpuGroup.Some? && pod.gpuGroup.value != "" && c.reservationPods.Some?
    && exists k :: 0 <= k < |c.reservationPods.value|
         && FirstWithGroup(c.reservationPods.value, pod.gpuGroup.value, k) && name == c.reservationPods.value[k].name
  }

  /** The name of the pod's reservation pod: by index annotation if that finds one, else by group label. */
  ghost predicate RunsWith(pod: Pod, c: Cluster, name: string) {
    NamedByIndex(pod, c, name) || ((forall n :: !NamedByIndex(pod, c, n)) && NamedByGroup(pod, c, name))
  }

  lemma {:induction false} FirstMarkedIs(pods: seq<ReservationPod>, mark: Mark, value: string)
    ensures FirstMarked(pods, mark, value).None? <==> forall k :: 0 <= k < |pods| ==> MarkOf(pods[k], mark) != value
    ensures FirstMarked(pods, mark, value).Some? ==>
      exists k :: 0 <= k < |pods| && FirstOfMark(pods, mark, value, k)
        && FirstMarked(pods, mark, value).value == pods[k].name
  {
    if |pods| > 0 && MarkOf(pods[0], mark) != value {
      FirstMarkedIs(pods[1..], mark, value);
      if k :| 0 <= k < |pods[1..]| && FirstOfMark(pods[1..], mark, value, k)
              && FirstMarked(pods[1..], mark, value).value == pods[1..][k].name {
        assert FirstOfMark(pods, mark, value, k + 1);
      }
    } else if |pods| > 0 {
      assert FirstOfMark(pods, mark, value, 0);
    }
  }

  predicate FirstOfMark(pods: seq<ReservationPod>, mark: Mark, value: string, k: nat) {
    && k < |pods| && MarkOf(pods[k], mark) == value
    && forall j :: 0 <= j < k ==> MarkOf(pods[j], mark) != value
  }

  lemma ByIndexIs(pod: Pod, c: Cluster, name: string)
    ensures ByIndex(pod, c) == Some(name) <==> NamedByIndex(pod, c, name)
    ensures ByIndex(pod, c).None? ==> !NamedByIndex(pod, c, name)
  {
    if pod.gpuIndex.Some? && c.reservationPods.Some? {
      var pods, index := c.reservationPods.value, pod.gpuIndex.value;
      AtoiAccepts(index);
      FirstMarkedIs(pods, IndexAnnotation, index);
      hide Atoi, IsInt64, FirstMarked;
      forall k | 0 <= k < |pods| && index != ""
        ensures FirstOfMark(pods, IndexAnnotation, index, k) <==> FirstWithIndex(pods, index, k)
      {
      }
    }
  }

  lemma ByGroupIs(pod: Pod, c: Cluster, name: string)
    ensures ByGroup(pod, c) == Some(name) <==> NamedByGroup(pod, c, name)
  {
    if pod.gpuGroup.Some? && c.reservationPods.Some? {
      var pods, group := c.reservationPods.value, pod.gpuGroup.value;
      FirstMarkedIs(pods, GroupLabel, group);
      hide FirstMarked;
      forall k | 0 <= k < |pods| && group != ""
        ensures FirstOfMark(pods, GroupLabel, group, k) <==> FirstWithGroup(pods, group, k)
      {
      }
    }
  }

  lemma ReservationNameIs(pod: Pod, c: Cluster, name: string)
    ensures ReservationName(pod, c) == Some(name) <==> RunsWith(pod, c, name)
  {
    ByGroupIs(pod, c, name);
    hide NamedByIndex, NamedByGroup, ByIndex, ByGroup;
    forall n ensures ByIndex(pod, c) == Some(n) <==> NamedByIndex(pod, c, n) { ByIndexIs(pod, c, n); }
  }

  /** GPU i is the first owned by a pod of the reservation pod's name. */
  ghost predicate RunsOn(t: Table, pod: Pod, c: Cluster, i: nat) {
    && i < |t| && RunsWith(pod, c, t[i].owner.pod)
    && forall j :: 0 <= j < i ==> t[j].owner.pod != t[i].owner.pod
  }

  lemma ReservationIndexIs(t: Table, pod: Pod, c: Cluster, i: nat)
    ensures ReservationIndex(t, pod, c) == Some(i) <==> RunsOn(t, pod, c, i)
  {
    if i < |t| { ReservationNameIs(pod, c, t[i].owner.pod); }
    hide RunsWith, ReservationName;
    if RunsOn(t, pod, c, i) {
      var name := ReservationName(pod, c).value;
      assert OwnsByName(t, name);
      assert FirstNamed(t, name, ReservationIndex(t, pod, c).value);
    }
  }

  /** Limit and claims absent, a gpu annotation or group label present. */
  predicate SharesOnly(pod: Pod, c: Cluster) {
    && pod.gpuLimit == 0 && pod.specClaims == []
    && pod.namespace != c.reservationNamespace && (pod.gpuIndex.Some? || pod.gpuGroup.Some?)
  }

  /**
   A pod that only shares: each event fails iff there is no GPU it runs on.  Otherwise an addition or update
   reports the pod's usage there, a deletion takes the report away, and nothing else changes.
   */
  lemma SharesAnswer(t: Table, pod: Pod, c: Cluster)
    requires |pod.containers| > 0 && SharesOnly(pod, c)
    ensures (Add(t, pod, c).None? <==> forall i: nat :: !RunsOn(t, pod, c, i))
         && (Delete(t, pod, c).None? <==> forall i: nat :: !RunsOn(t, pod, c, i))
    ensures Update(t, pod, c) == Add(t, pod, c)
    ensures forall i: nat :: RunsOn(t, pod, c, i) ==>
      && Add(t, pod, c) == Some(t[i := Gpu(t[i].id, t[i].owner, t[i].usage[pod.uid := pod.usage])])
      && Delete(t, pod, c) == Some(t[i := Gpu(t[i].id, t[i].owner, t[i].usage - {pod.uid})])
  {
    SharesStage(t, pod, c);
    forall i: nat ensures ReservationIndex(t, pod, c) == Some(i) <==> RunsOn(t, pod, c, i) {
      ReservationIndexIs(t, pod, c, i);
    }
    hide Add, Update, Delete, ReservationIndex, RunsOn;
  }

  lemma SharesStage(t: Table, pod: Pod, c: Cluster)
    requires |pod.containers| > 0 && SharesOnly(pod, c)
    ensures Update(t, pod, c) == Add(t, pod, c)
    ensures match ReservationIndex(t, pod, c)
            case None => Add(t, pod, c).None? && Delete(t, pod, c).None?
            case Some(i) =>
              && Add(t, pod, c) == Some(t[i := Gpu(t[i].id, t[i].owner, t[i].usage[pod.uid := pod.usage])])
              && Delete(t, pod, c) == Some(t[i := Gpu(t[i].id, t[i].owner, t[i].usage - {pod.uid})])
  {
    hide ReservationIndex;
    assert DedicatedUpdate(t, pod, c) == t && DedicatedDelete(t, pod) == t;
    if ReservationIndex(t, pod, c).Some? {
      var i := ReservationIndex(t, pod, c).value;
      var u := t[i := Gpu(t[i].id, t[i].owner, t[i].usage - {pod.uid})];
      assert DraDelete(u, pod) == u;
    }
  }

  // ----- Updates and deletions -----

  predicate OwnedBy(g: Gpu, pod: Pod) { g.owner.namespace == pod.namespace && g.owner.pod == pod.name }

  /** The pod holds this GPU for its limit, or for a claim. */
  predicate Covered(g: Gpu, pod: Pod)
    requires |pod.containers| > 0
  {
    && OwnedBy(g, pod)
    && (pod.specClaims != [] || (pod.gpuLimit != 0 && g.owner.container == pod.containers[0].name))
  }

  /** The deletion of a pod that is not shared succeeds, empties what the pod holds and leaves the rest. */
  lemma DeletionAnswer(t: Table, pod: Pod, c: Cluster)
    requires |pod.containers| > 0 && NotShared(pod, c)
    ensures Delete(t, pod, c).Some? && |Delete(t, pod, c).value| == |t|
    ensures forall i :: 0 <= i < |t| ==>
      Delete(t, pod, c).value[i] == if Covered(t[i], pod) then Gpu(t[i].id, Owner("", "", ""), map[]) else t[i]
  {
    var d := DedicatedDelete(t, pod);
    assert SharedUncharge(d, pod, c) == Some(d);
  }

  /** The update of a pod without claims that is not shared reports its usage on the GPUs it holds for its limit. */
  lemma UpdateAnswer(t: Table, pod: Pod, c: Cluster)
    requires |pod.containers| > 0 && NotShared(pod, c) && pod.specClaims == []
    ensures Update(t, pod, c).Some? && |Update(t, pod, c).value| == |t|
    ensures forall i :: 0 <= i < |t| ==>
      Update(t, pod, c).value[i] ==
        if Covered(t[i], pod) && pod.namespace != c.reservationNamespace
        then Gpu(t[i].id, t[i].owner, t[i].usage[pod.uid := pod.usage]) else t[i]
  {
  }

  /** The update of a pod with claims only that holds a GPU reports its usage on all it holds. */
  lemma HeldUpdateAnswer(t: Table, pod: Pod, c: Cluster, k: nat)
    requires |pod.containers| > 0 && NotShared(pod, c) && pod.specClaims != [] && pod.gpuLimit == 0
    requires k < |t| && OwnedBy(t[k], pod)
    ensures Update(t, pod, c).Some? && |Update(t, pod, c).value| == |t|
    ensures forall i :: 0 <= i < |t| ==>
      Update(t, pod, c).value[i] ==
        if OwnedBy(t[i], pod) then Gpu(t[i].id, t[i].owner, t[i].usage[pod.uid := pod.usage]) else t[i]
  {
    assert DedicatedUpdate(t, pod, c) == t;
    assert OccupiedBy(t[k], pod);
  }
}
