/** The pod event handlers: one stored table per node, read, changed in place and stored once. */
module PodHandlers {
  import opened Sequences
  import opened Decimals
  import opened GpuAnswers
  import opened GpuTable

  method IsAlreadyAllocated(gpus: array<Gpu>, pod: Pod) returns (found: bool)
    requires |pod.containers| > 0
    ensures found <==> HoldsDedicated(gpus[..], pod)
  {
    for idx := 0 to gpus.Length
      invariant forall j :: 0 <= j < idx ==> !DedicatedTo(gpus[j], pod)
    {
      if DedicatedTo(gpus[idx], pod) {
        assert DedicatedTo(gpus[..][idx], pod);
        return true;
      }
    }
    return false;
  }

  method IsDraAlreadyAllocated(gpus: array<Gpu>, pod: Pod) returns (found: bool)
    ensures found <==> Holds(gpus[..], pod)
  {
    for idx := 0 to gpus.Length
      invariant forall j :: 0 <= j < idx ==> !OccupiedBy(gpus[j], pod)
    {
      if OccupiedBy(gpus[idx], pod) {
        assert OccupiedBy(gpus[..][idx], pod);
        return true;
      }
    }
    return false;
  }

  method DedicatedAddition(pod: Pod, c: Cluster, gpus: array<Gpu>) returns (ok: bool)
    requires WellFormed(pod, c)
    modifies gpus
    ensures ok <==> DedicatedAdd(old(gpus[..]), pod, c).Some?
    ensures ok ==> gpus[..] == DedicatedAdd(old(gpus[..]), pod, c).value
  {
    if pod.gpuLimit == 0 {
      return true;
    }
    var found := IsAlreadyAllocated(gpus, pod);
    if found {
      return true;
    }
    ghost var t := gpus[..];
    ghost var after := DedicatedAlloc(t, pod, c);
    var requested := pod.gpuLimit;
    var idx := 0;
    while idx < gpus.Length && requested > 0
      invariant 0 <= idx <= gpus.Length
      invariant requested == pod.gpuLimit - FreeBefore(t, idx)
      invariant forall j :: 0 <= j < idx ==> gpus[j] == after[j]
      invariant forall j :: idx <= j < gpus.Length ==> gpus[j] == t[j]
    {
      if gpus[idx].owner.pod == "" {
        gpus[idx] := Grant(gpus[idx], pod, pod.containers[0].name);
        if !IsReservation(pod, c) {
          gpus[idx] := Charge(gpus[idx], pod);
        }
        requested := requested - 1;
      }
      idx := idx + 1;
    }
    forall j | idx <= j < gpus.Length ensures gpus[j] == after[j] {
      FreeBeforeGrows(t, idx, j);
    }
    assert gpus[..] == after;
    ok := ReservationAddition(pod, c, gpus);
  }

  /** Finds the GPU of a reservation pod and writes its id back to the pod. */
  method ReservationAddition(pod: Pod, c: Cluster, gpus: array<Gpu>) returns (ok: bool)
    ensures ok <==> ReservationSettled(gpus[..], pod, c)
  {
    if !IsReservation(pod, c) || pod.indexAnnotated {
      return true;
    }
    for idx := 0 to gpus.Length
      invariant forall j :: 0 <= j < idx ==> gpus[j].owner.pod != pod.name
    {
      if gpus[idx].owner.pod == pod.name {
        assert gpus[..][idx].owner.pod == pod.name;
        return c.patchOk;
      }
    }
    return false;
  }

  method DedicatedRefresh(pod: Pod, c: Cluster, gpus: array<Gpu>)
    requires WellFormed(pod, c)
    modifies gpus
    ensures gpus[..] == DedicatedUpdate(old(gpus[..]), pod, c)
  {
    if pod.gpuLimit == 0 {
      return;
    }
    for idx := 0 to gpus.Length
      invariant forall j :: 0 <= j < idx ==> gpus[j] == DedicatedUpdate(old(gpus[..]), pod, c)[j]
      invariant forall j :: idx <= j < gpus.Length ==> gpus[j] == old(gpus[j])
    {
      if DedicatedTo(gpus[idx], pod) && !IsReservation(pod, c) {
        gpus[idx] := Charge(gpus[idx], pod);
      }
    }
  }

  method DedicatedDeletion(pod: Pod, gpus: array<Gpu>)
    requires |pod.containers| > 0
    modifies gpus
    ensures gpus[..] == DedicatedDelete(old(gpus[..]), pod)
  {
    if pod.gpuLimit == 0 {
      return;
    }
    for idx := 0 to gpus.Length
      invariant forall j :: 0 <= j < idx ==> gpus[j] == DedicatedDelete(old(gpus[..]), pod)[j]
      invariant forall j :: idx <= j < gpus.Length ==> gpus[j] == old(gpus[j])
    {
      if DedicatedTo(gpus[idx], pod) {
        gpus[idx] := Released(gpus[idx]);
      }
    }
  }

  method FindMarked(pods: seq<ReservationPod>, mark: Mark, value: string) returns (r: Option<string>)
    ensures r == FirstMarked(pods, mark, value)
  {
    assert pods[0..] == pods;
    for i := 0 to |pods|
      invariant FirstMarked(pods[i..], mark, value) == FirstMarked(pods, mark, value)
    {
      if MarkOf(pods[i], mark) == value {
        return Some(pods[i].name);
      }
      assert pods[i..][1..] == pods[i + 1..];
    }
    return None;
  }

  /** The deprecated index annotation is tried first; any failure falls back to the group label. */
  method MatchingReservationName(pod: Pod, c: Cluster) returns (r: Option<string>)
    ensures r == ReservationName(pod, c)
  {
    var index := OrEmpty(pod.gpuIndex);
    if index != "" && Atoi(index).Some? && c.reservationPods.Some? {
      r := FindMarked(c.reservationPods.value, IndexAnnotation, index);
      if r.Some? {
        return;
      }
    }
    var group := OrEmpty(pod.gpuGroup);
    if group == "" || c.reservationPods.None? {
      return None;
    }
    r := FindMarked(c.reservationPods.value, GroupLabel, group);
  }

  method MatchingReservationIndex(pod: Pod, c: Cluster, gpus: array<Gpu>) returns (r: Option<nat>)
    ensures r == ReservationIndex(gpus[..], pod, c)
  {
    var found := MatchingReservationName(pod, c);
    if found.None? {
      return None;
    }
    var name := found.value;
    for idx := 0 to gpus.Length
      invariant forall j :: 0 <= j < idx ==> gpus[j].owner.pod != name
    {
      if gpus[idx].owner.pod == name {
        assert FirstNamed(gpus[..], name, idx);
        return Some(idx);
      }
    }
    assert !OwnsByName(gpus[..], name);
    return None;
  }

  /** Addition and update of a shared pod: (re)calculate its usage on the reservation pod's GPU. */
  method SharedUsage(pod: Pod, c: Cluster, gpus: array<Gpu>) returns (ok: bool)
    modifies gpus
    ensures ok <==> SharedCharge(old(gpus[..]), pod, c).Some?
    ensures ok ==> gpus[..] == SharedCharge(old(gpus[..]), pod, c).value
  {
    if !IsShared(pod, c) {
      return true;
    }
    var r := MatchingReservationIndex(pod, c, gpus);
    if r.None? {
      return false;
    }
    gpus[r.value] := Charge(gpus[r.value], pod);
    return true;
  }

  method SharedDeletion(pod: Pod, c: Cluster, gpus: array<Gpu>) returns (ok: bool)
    modifies gpus
    ensures ok <==> SharedUncharge(old(gpus[..]), pod, c).Some?
    ensures ok ==> gpus[..] == SharedUncharge(old(gpus[..]), pod, c).value
  {
    if !IsShared(pod, c) {
      return true;
    }
    var r := MatchingReservationIndex(pod, c, gpus);
    if r.None? {
      return false;
    }
    gpus[r.value] := gpus[r.value].(usage := gpus[r.value].usage - {pod.uid});
    return true;
  }

  method ResourceClaimNames(pod: Pod) returns (names: seq<string>)
    ensures names == ClaimNames(pod)
    ensures NoDuplicates(names) && forall name :: name in names <==> NamesClaim(pod, name)
    ensures forall i, j :: 0 <= i < j < |names| ==>
      ListedBefore(pod.statusClaims + pod.specClaims, names[i], names[j])
  {
    names := [];
    var seen: set<string> := {};
    for i := 0 to |pod.statusClaims|
      invariant names == Distinct(pod.statusClaims[..i])
      invariant forall s :: s in seen <==> s in names
    {
      var claim := pod.statusClaims[i];
      assert pod.statusClaims[..i + 1][..i] == pod.statusClaims[..i];
      if claim.Some? && claim.value != "" && claim.value !in seen {
        names := names + [claim.value];
        seen := seen + {claim.value};
      }
    }
    assert pod.statusClaims[..|pod.statusClaims|] == pod.statusClaims;
    assert pod.statusClaims + pod.specClaims[..0] == pod.statusClaims;
    for i := 0 to |pod.specClaims|
      invariant names == Distinct(pod.statusClaims + pod.specClaims[..i])
      invariant forall s :: s in seen <==> s in names
    {
      var claim := pod.specClaims[i];
      var longer := pod.statusClaims + pod.specClaims[..i + 1];
      assert longer[..|longer| - 1] == pod.statusClaims + pod.specClaims[..i];
      if claim.Some? && claim.value != "" && claim.value !in seen {
        names := names + [claim.value];
        seen := seen + {claim.value};
      }
    }
    assert pod.specClaims[..|pod.specClaims|] == pod.specClaims;
    ClaimNamesOrder(pod);
  }

  method DevicesFromClaim(claim: Claim) returns (devices: seq<string>)
    ensures devices == ClaimDevices(claim)
  {
    devices := [];
    if claim.allocation.None? {
      return;
    }
    var results := claim.allocation.value;
    for i := 0 to |results|
      invariant devices == DevicesOf(results[..i])
    {
      assert results[..i + 1][..i] == results[..i];
      if results[i].driver == DRA_DRIVER {
        devices := devices + [results[i].device];
      }
    }
    assert results[..|results|] == results;
  }

  method DeviceNamesFromClaims(pod: Pod, c: Cluster) returns (r: Option<seq<string>>)
    ensures r == DeviceNames(pod, c)
  {
    var names := ResourceClaimNames(pod);
    var devices: seq<string> := [];
    for i := 0 to |names|
      invariant DevicesOfClaims(pod.namespace, names[..i], c) == Some(devices)
    {
      assert names[..i + 1][..i] == names[..i];
      if (pod.namespace, names[i]) !in c.claims {
        FailedClaim(pod.namespace, names, c, i);
        return None;
      }
      var more := DevicesFromClaim(c.claims[(pod.namespace, names[i])]);
      devices := devices + more;
    }
    assert names[..|names|] == names;
    return Some(devices);
  }

  lemma {:induction false} FailedClaim(namespace: string, names: seq<string>, c: Cluster, i: nat)
    requires i < |names| && (namespace, names[i]) !in c.claims
    ensures DevicesOfClaims(namespace, names, c).None?
  {
    if i < |names| - 1 {
      FailedClaim(namespace, names[..|names| - 1], c, i);
    }
  }

  method FindGpuIndexByID(gpus: array<Gpu>, id: string) returns (r: Option<nat>)
    ensures r.Some? ==> r.value < gpus.Length && Designates(gpus[..], id, r.value)
    ensures r.None? ==> forall i :: 0 <= i < gpus.Length ==> !Designates(gpus[..], id, i)
  {
    for idx := 0 to gpus.Length
      invariant forall j :: 0 <= j < idx ==> Fold(gpus[j].id) != Fold(id)
    {
      if Fold(gpus[idx].id) == Fold(id) {
        return Some(idx);
      }
    }
    return None;
  }

  /** Marks the named devices that are still free. */
  method AllocateDevices(pod: Pod, names: seq<string>, gpus: array<Gpu>)
    requires |pod.containers| > 0 && pod.name != ""
    modifies gpus
    ensures gpus[..] == DraAlloc(old(gpus[..]), pod, names)
  {
    ghost var t := gpus[..];
    for k := 0 to |names|
      invariant gpus[..] == DraAlloc(t, pod, names[..k])
    {
      var r := FindGpuIndexByID(gpus, names[k]);
      ghost var before := gpus[..];
      if r.Some? && gpus[r.value].owner.pod == "" {
        gpus[r.value] := DraGrant(gpus[r.value], pod);
      }
      OneMoreName(t, pod, names, k, before, gpus[..], r);
    }
    assert names[..|names|] == names;
  }

  lemma OneMoreName(t: Table, pod: Pod, names: seq<string>, k: nat, before: Table, after: Table, r: Option<nat>)
    requires |pod.containers| > 0 && pod.name != "" && k < |names|
    requires before == DraAlloc(t, pod, names[..k])
    requires r.Some? ==> r.value < |before| && Designates(before, names[k], r.value)
    requires r.None? ==> forall i :: 0 <= i < |before| ==> !Designates(before, names[k], i)
    requires after == if r.Some? && Free(before[r.value])
      then before[r.value := DraGrant(before[r.value], pod)] else before
    ensures after == DraAlloc(t, pod, names[..k + 1])
  {
    assert forall j :: 0 <= j < |t| ==> before[j].id == t[j].id;
    forall i | 0 <= i < |t|
      ensures Claimed(t, names[..k + 1], i) <==> Claimed(t, names[..k], i) || r == Some(i)
    {
      assert Designates(t, names[k], i) <==> Designates(before, names[k], i);
      assert Designates(t, names[k], i) <==> r == Some(i);
      assert names[..k + 1][k] == names[k];
      if Claimed(t, names[..k + 1], i) {
        var m :| 0 <= m < k + 1 && Designates(t, names[..k + 1][m], i);
        assert m < k ==> names[..k][m] == names[..k + 1][m];
      }
      if Claimed(t, names[..k], i) {
        var m :| 0 <= m < k && Designates(t, names[..k][m], i);
        assert names[..k][m] == names[..k + 1][m];
      }
    }
  }

  method DraAddition(pod: Pod, c: Cluster, gpus: array<Gpu>) returns (ok: bool)
    requires WellFormed(pod, c)
    modifies gpus
    ensures ok <==> DraAdd(old(gpus[..]), pod, c).Some?
    ensures ok ==> gpus[..] == DraAdd(old(gpus[..]), pod, c).value
  {
    if |pod.specClaims| == 0 {
      return true;
    }
    var found := IsDraAlreadyAllocated(gpus, pod);
    if found {
      return true;
    }
    var names := DeviceNamesFromClaims(pod, c);
    if names.None? {
      return false;
    }
    AllocateDevices(pod, names.value, gpus);
    return true;
  }

  method AllocateLate(pod: Pod, names: seq<string>, gpus: array<Gpu>)
    requires |pod.containers| > 0
    modifies gpus
    ensures gpus[..] == LateAlloc(old(gpus[..]), pod, names)
  {
    for k := 0 to |names|
      invariant gpus[..] == LateAlloc(old(gpus[..]), pod, names[..k])
    {
      var r := FindGpuIndexByID(gpus, names[k]);
      ghost var before := gpus[..];
      if r.Some? && gpus[r.value].owner.pod == "" {
        gpus[r.value] := DraGrant(gpus[r.value], pod);
      }
      assert names[..k + 1][..k] == names[..k];
    }
    assert names[..|names|] == names;
  }

  /** Late allocation for a pod that holds nothing yet, else a usage refresh. */
  method DraPodUpdate(pod: Pod, c: Cluster, gpus: array<Gpu>) returns (ok: bool)
    requires WellFormed(pod, c)
    modifies gpus
    ensures ok <==> DraUpdate(old(gpus[..]), pod, c).Some?
    ensures ok ==> gpus[..] == DraUpdate(old(gpus[..]), pod, c).value
  {
    if |pod.specClaims| == 0 {
      return true;
    }
    var found := IsDraAlreadyAllocated(gpus, pod);
    if !found {
      var names := DeviceNamesFromClaims(pod, c);
      if names.None? {
        return false;
      }
      AllocateLate(pod, names.value, gpus);
    } else {
      for idx := 0 to gpus.Length
        invariant forall j :: 0 <= j < idx ==> gpus[j] == DraRefresh(old(gpus[..]), pod)[j]
        invariant forall j :: idx <= j < gpus.Length ==> gpus[j] == old(gpus[j])
      {
        if OccupiedBy(gpus[idx], pod) {
          gpus[idx] := Charge(gpus[idx], pod);
        }
      }
    }
    return true;
  }

  method DraDeletion(pod: Pod, gpus: array<Gpu>)
    modifies gpus
    ensures gpus[..] == DraDelete(old(gpus[..]), pod)
  {
    if |pod.specClaims| == 0 {
      return;
    }
    for idx := 0 to gpus.Length
      invariant forall j :: 0 <= j < idx ==> gpus[j] == DraDelete(old(gpus[..]), pod)[j]
      invariant forall j :: idx <= j < gpus.Length ==> gpus[j] == old(gpus[j])
    {
      if OccupiedBy(gpus[idx], pod) {
        gpus[idx] := Released(gpus[idx]);
      }
    }
  }

  /** The stored topology of one node. */
  class PodHandler {
    var stored: Table

    constructor (initial: Table)
      ensures stored == initial
    {
      stored := initial;
    }

    method HandleAdd(pod: Pod, c: Cluster) returns (ok: bool)
      requires WellFormed(pod, c)
      modifies this
      ensures ok <==> Add(old(stored), pod, c).Some?
      ensures stored == if ok then Add(old(stored), pod, c).value else old(stored)
    {
      var gpus := Load();
      ok := DedicatedAddition(pod, c, gpus);
      if !ok { return; }
      ok := SharedUsage(pod, c, gpus);
      if !ok { return; }
      ok := DraAddition(pod, c, gpus);
      if !ok { return; }
      stored := gpus[..];
    }

    method HandleUpdate(pod: Pod, c: Cluster) returns (ok: bool)
      requires WellFormed(pod, c)
      modifies this
      ensures ok <==> Update(old(stored), pod, c).Some?
      ensures stored == if ok then Update(old(stored), pod, c).value else old(stored)
    {
      var gpus := Load();
      DedicatedRefresh(pod, c, gpus);
      ok := SharedUsage(pod, c, gpus);
      if !ok { return; }
      ok := DraPodUpdate(pod, c, gpus);
      if !ok { return; }
      stored := gpus[..];
    }

    method HandleDelete(pod: Pod, c: Cluster) returns (ok: bool)
      requires WellFormed(pod, c)
      modifies this
      ensures ok <==> Delete(old(stored), pod, c).Some?
      ensures stored == if ok then Delete(old(stored), pod, c).value else old(stored)
    {
      var gpus := Load();
      DedicatedDeletion(pod, gpus);
      ok := SharedDeletion(pod, c, gpus);
      if !ok { return; }
      DraDeletion(pod, gpus);
      stored := gpus[..];
    }

    /** A working copy, as read back from the ConfigMap. */
    method Load() returns (gpus: array<Gpu>)
      ensures fresh(gpus) && gpus[..] == stored
    {
      var t := stored;
      gpus := new Gpu[|t|](i requires 0 <= i < |t| => t[i]);
    }
  }
}
