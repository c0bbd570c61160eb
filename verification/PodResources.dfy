/**
 The synthesized podresources List response: every workload pod that holds fake GPUs, with its GPUs,
 cpu ids and memory charged to NUMA zones.
 */
module PodResources {
  import opened Binary64
  import opened LargestRemainders
  import opened NumaZones
  import opened Sequences

  datatype Gpu = Gpu(id: string, namespace: string, pod: string)
  datatype PodRequest = PodRequest(milliCpu: nat, memory: nat)
  datatype PodAgg = PodAgg(namespace: string, name: string, gpusByZone: map<nat, seq<string>>)

  datatype Devices = Devices(zone: nat, ids: seq<string>)
  datatype MemoryBlock = MemoryBlock(zone: nat, size: nat)
  datatype PodEntry = PodEntry(
    namespace: string, name: string, devices: seq<Devices>, cpuIds: seq<nat>, memory: seq<MemoryBlock>)

  function KeyOf(namespace: string, name: string): string { namespace + "/" + name }

  function EntryKey(e: PodEntry): string { KeyOf(e.namespace, e.name) }

  // ----- Which GPU is charged where -----

  predicate Owned(g: Gpu) { g.pod != "" && g.namespace != "" }

  /** Ids of the owned GPUs of one pod in one zone, in index order. */
  ghost function Held(gpus: seq<Gpu>, zoneOf: seq<nat>, key: string, zone: nat): seq<string> {
    if |gpus| == 0 then []
    else
      var n := |gpus| - 1;
      Held(gpus[..n], zoneOf, key, zone)
      + if Owned(gpus[n]) && n < |zoneOf| && KeyOf(gpus[n].namespace, gpus[n].pod) == key && zoneOf[n] == zone
        then [gpus[n].id] else []
  }

  ghost predicate HoldsSome(gpus: seq<Gpu>, zoneOf: seq<nat>, key: string) {
    exists z :: Held(gpus, zoneOf, key, z) != []
  }

  /** The zone table of one pod lists exactly what the pod holds. */
  ghost predicate Tabulated(byZone: map<nat, seq<string>>, gpus: seq<Gpu>, zoneOf: seq<nat>, key: string) {
    forall z ::
      && (z in byZone <==> Held(gpus, zoneOf, key, z) != [])
      && (z in byZone ==> byZone[z] == Held(gpus, zoneOf, key, z))
  }

  /** Some owned GPU carries exactly this namespace and pod name. */
  ghost predicate NamesOwner(gpus: seq<Gpu>, namespace: string, name: string) {
    exists i :: 0 <= i < |gpus| && Owned(gpus[i]) && gpus[i].namespace == namespace && gpus[i].pod == name
  }

  lemma NamesOwnerExtended(gpus: seq<Gpu>, g: Gpu, namespace: string, name: string)
    ensures NamesOwner(gpus, namespace, name) ==> NamesOwner(gpus + [g], namespace, name)
    ensures Owned(g) ==> NamesOwner(gpus + [g], g.namespace, g.pod)
  {
    assert (gpus + [g])[|gpus|] == g;
    if NamesOwner(gpus, namespace, name) {
      var i :| 0 <= i < |gpus| && Owned(gpus[i]) && gpus[i].namespace == namespace && gpus[i].pod == name;
      assert (gpus + [g])[i] == gpus[i];
    }
  }

  ghost predicate Aggregated(byPod: map<string, PodAgg>, gpus: seq<Gpu>, zoneOf: seq<nat>) {
    && (forall key :: key in byPod ==>
         && KeyOf(byPod[key].namespace, byPod[key].name) == key
         && NamesOwner(gpus, byPod[key].namespace, byPod[key].name)
         && byPod[key].gpusByZone != map[]
         && Tabulated(byPod[key].gpusByZone, gpus, zoneOf, key))
    && (forall key :: key !in byPod ==> !HoldsSome(gpus, zoneOf, key))
  }

  lemma HeldUnchanged(gpus: seq<Gpu>, g: Gpu, zoneOf: seq<nat>, key: string)
    requires !Owned(g) || |gpus| >= |zoneOf| || KeyOf(g.namespace, g.pod) != key
    ensures forall z :: Held(gpus + [g], zoneOf, key, z) == Held(gpus, zoneOf, key, z)
  {
    assert (gpus + [g])[..|gpus|] == gpus;
  }

  lemma HeldExtended(gpus: seq<Gpu>, g: Gpu, zoneOf: seq<nat>)
    requires Owned(g) && |gpus| < |zoneOf|
    ensures var key := KeyOf(g.namespace, g.pod);
            forall z :: Held(gpus + [g], zoneOf, key, z)
                        == Held(gpus, zoneOf, key, z) + if z == zoneOf[|gpus|] then [g.id] else []
  {
    assert (gpus + [g])[..|gpus|] == gpus;
  }

  /** One GPU entered into the table. */
  function Enter(byPod: map<string, PodAgg>, g: Gpu, zone: nat): map<string, PodAgg> {
    var key := KeyOf(g.namespace, g.pod);
    var a := if key in byPod then byPod[key] else PodAgg(g.namespace, g.pod, map[]);
    var ids := if zone in a.gpusByZone then a.gpusByZone[zone] else [];
    byPod[key := a.(gpusByZone := a.gpusByZone[zone := ids + [g.id]])]
  }

  lemma EnterAggregates(byPod: map<string, PodAgg>, gpus: seq<Gpu>, g: Gpu, zoneOf: seq<nat>)
    requires Aggregated(byPod, gpus, zoneOf) && Owned(g) && |gpus| < |zoneOf|
    ensures Aggregated(Enter(byPod, g, zoneOf[|gpus|]), gpus + [g], zoneOf)
  {
    hide Held, NamesOwner;
    var key, zone := KeyOf(g.namespace, g.pod), zoneOf[|gpus|];
    var after := Enter(byPod, g, zone);
    EnterTabulates(byPod, gpus, g, zoneOf);
    forall k | k in after ensures NamesOwner(gpus + [g], after[k].namespace, after[k].name) {
      NamesOwnerExtended(gpus, g, after[k].namespace, after[k].name);
    }
    forall k | k != key ensures k in after ==> Tabulated(after[k].gpusByZone, gpus + [g], zoneOf, k)
      ensures k !in after ==> !HoldsSome(gpus + [g], zoneOf, k)
    {
      HeldUnchanged(gpus, g, zoneOf, k);
      assert k !in byPod ==> !HoldsSome(gpus, zoneOf, k);
    }
  }

  lemma EnterTabulates(byPod: map<string, PodAgg>, gpus: seq<Gpu>, g: Gpu, zoneOf: seq<nat>)
    requires Aggregated(byPod, gpus, zoneOf) && Owned(g) && |gpus| < |zoneOf|
    ensures var key, after := KeyOf(g.namespace, g.pod), Enter(byPod, g, zoneOf[|gpus|]);
            after[key].gpusByZone != map[] && Tabulated(after[key].gpusByZone, gpus + [g], zoneOf, key)
  {
    hide Held, NamesOwner;
    var key, zone := KeyOf(g.namespace, g.pod), zoneOf[|gpus|];
    var byZone := Enter(byPod, g, zone)[key].gpusByZone;
    HeldExtended(gpus, g, zoneOf);
    assert key !in byPod ==> !HoldsSome(gpus, zoneOf, key);
    assert zone in byZone;
  }

  lemma SkipAggregates(byPod: map<string, PodAgg>, gpus: seq<Gpu>, g: Gpu, zoneOf: seq<nat>)
    requires Aggregated(byPod, gpus, zoneOf) && (!Owned(g) || |gpus| >= |zoneOf|)
    ensures Aggregated(byPod, gpus + [g], zoneOf)
  {
    hide Held, NamesOwner;
    forall k ensures k in byPod ==> Tabulated(byPod[k].gpusByZone, gpus + [g], zoneOf, k)
      ensures k !in byPod ==> !HoldsSome(gpus + [g], zoneOf, k)
    {
      HeldUnchanged(gpus, g, zoneOf, k);
      assert k !in byPod ==> !HoldsSome(gpus, zoneOf, k);
    }
    forall k | k in byPod ensures NamesOwner(gpus + [g], byPod[k].namespace, byPod[k].name) {
      NamesOwnerExtended(gpus, g, byPod[k].namespace, byPod[k].name);
    }
  }

  method Aggregate(gpus: seq<Gpu>, zoneOf: seq<nat>) returns (byPod: map<string, PodAgg>, order: seq<string>)
    ensures Aggregated(byPod, gpus, zoneOf)
    ensures NoDuplicates(order) && forall key :: key in order <==> key in byPod
  {
    byPod, order := map[], [];
    for i := 0 to |gpus|
      invariant Aggregated(byPod, gpus[..i], zoneOf)
      invariant NoDuplicates(order) && forall key :: key in order <==> key in byPod
    {
      var g := gpus[i];
      assert gpus[..i + 1] == gpus[..i] + [g];
      if g.pod == "" || g.namespace == "" || i >= |zoneOf| {
        SkipAggregates(byPod, gpus[..i], g, zoneOf);
        continue;
      }
      EnterAggregates(byPod, gpus[..i], g, zoneOf);
      var key := KeyOf(g.namespace, g.pod);
      if key !in byPod {
        order := order + [key];
      }
      byPod := Enter(byPod, g, zoneOf[i]);
    }
    assert gpus[..|gpus|] == gpus;
  }

  // ----- One pod's entry -----

  function Weights(devices: seq<Devices>): seq<nat> {
    seq(|devices|, i requires 0 <= i < |devices| => |devices[i].ids|)
  }

  /** Whole cores of a cpu request, rounded in float64. */
  function RequestedCores(req: PodRequest): nat {
    RoundHalfAway(Over(Rounded(req.milliCpu as real), 1000.0))
  }

  /** Up to 2^51 millicores that is the nearest whole number of cores, halves up. */
  lemma WholeCores(req: PodRequest)
    requires req.milliCpu < TWO_51
    ensures RequestedCores(req) == (req.milliCpu + 500) / 1000
  {
    var m, n := req.milliCpu, (req.milliCpu + 500) / 1000;
    RoundedWhole(m);
    var x := m as real / 1000.0;
    assert n as real - 0.5 <= x <= n as real + 0.499;
    if x == n as real - 0.5 {
      RoundedHalf(2 * n - 1);
    } else {
      assert x >= n as real - 0.499;
    }
  }

  /** The first ids of each zone, as many as the zone's share, or all it has. */
  function CpuIdsFor(devices: seq<Devices>, shares: seq<nat>, cpuIds: seq<seq<nat>>): seq<nat>
    requires |devices| == |shares| && forall i :: 0 <= i < |devices| ==> devices[i].zone < |cpuIds|
  {
    if |devices| == 0 then []
    else
      var n := |devices| - 1;
      var ids := cpuIds[devices[n].zone];
      CpuIdsFor(devices[..n], shares[..n], cpuIds) + ids[..Min(shares[n], |ids|)]
  }

  /** One block for each zone with a positive share. */
  function MemoryFor(devices: seq<Devices>, shares: seq<nat>): seq<MemoryBlock>
    requires |devices| == |shares|
  {
    if |devices| == 0 then []
    else
      var n := |devices| - 1;
      MemoryFor(devices[..n], shares[..n]) + if shares[n] > 0 then [MemoryBlock(devices[n].zone, shares[n])] else []
  }

  ghost predicate ListsHoldings(devices: seq<Devices>, gpus: seq<Gpu>, zoneOf: seq<nat>, key: string) {
    && (forall i, j :: 0 <= i < j < |devices| ==> devices[i].zone < devices[j].zone)
    && (forall i :: 0 <= i < |devices| ==> devices[i].ids == Held(gpus, zoneOf, key, devices[i].zone) != [])
    && (forall z :: Held(gpus, zoneOf, key, z) != [] ==> exists i :: 0 <= i < |devices| && devices[i].zone == z)
  }

  /** Cores and bytes are apportioned by the number of GPUs the pod holds in each zone. */
  ghost predicate SplitsRequest(e: PodEntry, req: PodRequest, cpuIds: seq<seq<nat>>) {
    && (forall i :: 0 <= i < |e.devices| ==> e.devices[i].zone < |cpuIds|)
    && exists cores: seq<nat>, bytes: seq<nat> ::
         && IsApportionment(RequestedCores(req), Weights(e.devices), cores)
         && IsApportionment(req.memory, Weights(e.devices), bytes)
         && e.cpuIds == CpuIdsFor(e.devices, cores, cpuIds)
         && e.memory == MemoryFor(e.devices, bytes)
  }

  method SortedZones(byZone: map<nat, seq<string>>) returns (zones: seq<nat>)
    ensures forall i, j :: 0 <= i < j < |zones| ==> zones[i] < zones[j]
    ensures forall z :: z in zones <==> z in byZone
  {
    // A Go map is visited in any order.
    var left, listed: seq<nat> := byZone.Keys, [];
    while left != {}
      invariant NoDuplicates(listed)
      invariant left <= byZone.Keys
      invariant forall z :: z in listed <==> z in byZone && z !in left
    {
      var z :| z in left;
      left := left - {z};
      listed := listed + [z];
    }
    zones := InsertionSort(listed, NatLe);
    SameElements(listed, zones);
    PermutationKeepsDistinct(listed, zones);
    forall i, j | 0 <= i < j < |zones| ensures zones[i] < zones[j] {
      assert NatLe(zones[i], zones[j]);
    }
  }

  lemma NonNegativeShares(total: nat, weights: seq<nat>, out: seq<int>)
    requires IsApportionment(total, weights, out)
    ensures forall i :: 0 <= i < |out| ==> out[i] >= 0
  {
    hide Quotient;
  }

  method SharesOf(total: nat, weights: seq<nat>) returns (shares: seq<nat>)
    ensures |shares| == |weights| && IsApportionment(total, weights, shares)
  {
    var out := LargestRemainder(total, weights);
    NonNegativeShares(total, weights, out);
    shares := out;
  }

  method TakeIds(available: seq<nat>, share: nat) returns (ids: seq<nat>)
    ensures ids == available[..Min(share, |available|)]
  {
    ids := [];
    var k := 0;
    while k < share && k < |available|
      invariant 0 <= k <= share && k <= |available|
      invariant ids == available[..k]
    {
      ids := ids + [available[k]];
      k := k + 1;
    }
  }

  method ChargeZones(byZone: map<nat, seq<string>>, zones: seq<nat>, cores: seq<nat>, bytes: seq<nat>,
                     cpuIds: seq<seq<nat>>)
    returns (devices: seq<Devices>, ids: seq<nat>, memory: seq<MemoryBlock>)
    requires |zones| == |cores| == |bytes|
    requires forall i :: 0 <= i < |zones| ==> zones[i] in byZone && zones[i] < |cpuIds|
    ensures |devices| == |zones|
    ensures forall i :: 0 <= i < |zones| ==> devices[i] == Devices(zones[i], byZone[zones[i]])
    ensures ids == CpuIdsFor(devices, cores, cpuIds)
    ensures memory == MemoryFor(devices, bytes)
  {
    devices, ids, memory := [], [], [];
    for zi := 0 to |zones|
      invariant |devices| == zi
      invariant forall i :: 0 <= i < zi ==> devices[i] == Devices(zones[i], byZone[zones[i]])
      invariant ids == CpuIdsFor(devices, cores[..zi], cpuIds)
      invariant memory == MemoryFor(devices, bytes[..zi])
    {
      var z := zones[zi];
      var d := Devices(z, byZone[z]);
      assert (devices + [d])[..zi] == devices;
      assert cores[..zi + 1][..zi] == cores[..zi] && bytes[..zi + 1][..zi] == bytes[..zi];
      devices := devices + [d];
      var taken := TakeIds(cpuIds[z], cores[zi]);
      ids := ids + taken;
      if bytes[zi] > 0 {
        memory := memory + [MemoryBlock(z, bytes[zi])];
      }
    }
    assert cores[..|zones|] == cores && bytes[..|zones|] == bytes;
  }

  method BuildEntry(a: PodAgg, req: PodRequest, cpuIds: seq<seq<nat>>, ghost gpus: seq<Gpu>, ghost zoneOf: seq<nat>)
    returns (e: PodEntry)
    requires Tabulated(a.gpusByZone, gpus, zoneOf, KeyOf(a.namespace, a.name))
    requires forall z :: z in a.gpusByZone ==> z < |cpuIds|
    ensures e.namespace == a.namespace && e.name == a.name
    ensures ListsHoldings(e.devices, gpus, zoneOf, EntryKey(e))
    ensures SplitsRequest(e, req, cpuIds)
  {
    hide Held, IsApportionment;
    var zones := SortedZones(a.gpusByZone);
    forall i | 0 <= i < |zones| ensures zones[i] in a.gpusByZone { assert zones[i] in zones; }
    var weights := seq(|zones|, i requires 0 <= i < |zones| => |a.gpusByZone[zones[i]]|);
    var cores := SharesOf(RequestedCores(req), weights);
    var bytes := SharesOf(req.memory, weights);
    var devices, ids, memory := ChargeZones(a.gpusByZone, zones, cores, bytes, cpuIds);
    e := PodEntry(a.namespace, a.name, devices, ids, memory);
    assert Weights(devices) == weights;
    ListedHoldings(zones, a.gpusByZone, devices, gpus, zoneOf, EntryKey(e));
  }

  lemma ListedHoldings(zones: seq<nat>, byZone: map<nat, seq<string>>, devices: seq<Devices>,
                       gpus: seq<Gpu>, zoneOf: seq<nat>, key: string)
    requires forall i, j :: 0 <= i < j < |zones| ==> zones[i] < zones[j]
    requires forall z :: z in zones <==> z in byZone
    requires |devices| == |zones|
    requires forall i :: 0 <= i < |zones| ==> zones[i] in byZone && devices[i] == Devices(zones[i], byZone[zones[i]])
    requires Tabulated(byZone, gpus, zoneOf, key)
    ensures ListsHoldings(devices, gpus, zoneOf, key)
  {
    hide Held;
    forall z | Held(gpus, zoneOf, key, z) != [] ensures exists i :: 0 <= i < |devices| && devices[i].zone == z {
      assert z in zones;
      var i :| 0 <= i < |zones| && zones[i] == z;
      assert devices[i].zone == z;
    }
  }

  // ----- The whole response -----

  ghost predicate IsResponse(out: seq<PodEntry>, gpus: seq<Gpu>, layout: ZoneLayout, zoneOf: seq<nat>,
                             reqs: map<string, PodRequest>)
  {
    && (forall i, j :: 0 <= i < j < |out| ==> StringLess(EntryKey(out[i]), EntryKey(out[j])))
    && (forall key :: HoldsSome(gpus, zoneOf, key) <==> exists i :: 0 <= i < |out| && EntryKey(out[i]) == key)
    && (forall i :: 0 <= i < |out| ==> IsEntry(out[i], EntryKey(out[i]), gpus, layout, zoneOf, reqs))
  }

  ghost predicate IsEntry(e: PodEntry, key: string, gpus: seq<Gpu>, layout: ZoneLayout, zoneOf: seq<nat>,
                          reqs: map<string, PodRequest>)
  {
    && EntryKey(e) == key
    && NamesOwner(gpus, e.namespace, e.name)
    && ListsHoldings(e.devices, gpus, zoneOf, key)
    && SplitsRequest(e, RequestFor(reqs, key), layout.cpuIds)
  }

  function RequestFor(reqs: map<string, PodRequest>, key: string): PodRequest {
    if key in reqs then reqs[key] else PodRequest(0, 0)
  }

  lemma HeldZones(gpus: seq<Gpu>, zoneOf: seq<nat>, key: string, zone: nat)
    requires Held(gpus, zoneOf, key, zone) != []
    ensures zone in zoneOf
  {
  }

  method BuildPodResources(nt: Option<seq<Gpu>>, layout: Option<ZoneLayout>, reqs: map<string, PodRequest>)
    returns (out: seq<PodEntry>, ghost zoneOf: seq<nat>)
    requires layout.Some? ==> |layout.value.gpusPerZone| <= |layout.value.cpuIds|
    ensures nt.None? || layout.None? ==> out == []
    ensures nt.Some? && layout.Some? ==>
      && ZoneBlocks(layout.value.gpusPerZone, zoneOf)
      && IsResponse(out, nt.value, layout.value, zoneOf, reqs)
  {
    out := [];
    if nt.None? || layout.None? {
      zoneOf := [];
      return;
    }
    var gpus := nt.value;
    var idxToZone := GPUIndexToZone(layout.value.gpusPerZone);
    zoneOf := idxToZone;
    var byPod, order := Aggregate(gpus, idxToZone);
    ghost var unsorted := order;
    StringLeTotal();
    order := InsertionSort(order, StringLe);
    SameElements(unsorted, order);
    PermutationKeepsDistinct(unsorted, order);
    hide Held, IsApportionment;
    for i := 0 to |order|
      invariant |out| == i
      invariant forall k :: 0 <= k < i ==> IsEntry(out[k], order[k], gpus, layout.value, zoneOf, reqs)
    {
      var key := order[i];
      assert key in order;
      var a := byPod[key];
      forall z | z in a.gpusByZone ensures z < |layout.value.cpuIds| {
        HeldZones(gpus, zoneOf, key, z);
      }
      var e := BuildEntry(a, RequestFor(reqs, key), layout.value.cpuIds, gpus, zoneOf);
      out := out + [e];
    }
    OrderCoversHolders(byPod, order, gpus, zoneOf);
    Assembled(out, order, gpus, layout.value, zoneOf, reqs);
  }

  lemma Assembled(out: seq<PodEntry>, order: seq<string>, gpus: seq<Gpu>, layout: ZoneLayout, zoneOf: seq<nat>,
                  reqs: map<string, PodRequest>)
    requires |out| == |order| && NoDuplicates(order) && SortedBy(StringLe, order)
    requires forall k :: 0 <= k < |out| ==> IsEntry(out[k], order[k], gpus, layout, zoneOf, reqs)
    requires forall key :: HoldsSome(gpus, zoneOf, key) <==> key in order
    ensures IsResponse(out, gpus, layout, zoneOf, reqs)
  {
    hide Held, IsApportionment;
    forall key ensures HoldsSome(gpus, zoneOf, key) <==> exists i :: 0 <= i < |out| && EntryKey(out[i]) == key {
      if i :| 0 <= i < |out| && EntryKey(out[i]) == key {
        assert order[i] == key;
      }
      if key in order {
        var i :| 0 <= i < |order| && order[i] == key;
        assert EntryKey(out[i]) == key;
      }
    }
    forall i, j | 0 <= i < j < |out| ensures StringLess(EntryKey(out[i]), EntryKey(out[j])) {
      assert StringLe(order[i], order[j]);
    }
  }

  lemma OrderCoversHolders(byPod: map<string, PodAgg>, order: seq<string>, gpus: seq<Gpu>, zoneOf: seq<nat>)
    requires Aggregated(byPod, gpus, zoneOf)
    requires forall k :: k in order <==> k in byPod
    ensures forall key :: HoldsSome(gpus, zoneOf, key) <==> key in order
  {
    hide Held;
    forall key | key in byPod ensures HoldsSome(gpus, zoneOf, key) {
      var z :| z in byPod[key].gpusByZone;
      assert Held(gpus, zoneOf, key, z) != [];
    }
  }
}
