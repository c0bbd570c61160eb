/** What every podresources response guarantees about the node it describes. */
module PodResourcesLaws {
  import opened LargestRemainders
  import opened NumaZones
  import opened PodResources
  import opened Sequences

  // ----- Every owned GPU is charged exactly once -----

  datatype Charge = Charge(key: string, zone: nat, id: string)

  /** The charges the GPU table calls for, in index order. */
  function Due(gpus: seq<Gpu>, zoneOf: seq<nat>): seq<Charge> {
    if |gpus| == 0 then []
    else
      var n := |gpus| - 1;
      Due(gpus[..n], zoneOf) + DueFor(gpus[n], n, zoneOf)
  }

  function DueFor(g: Gpu, n: nat, zoneOf: seq<nat>): seq<Charge> {
    if Owned(g) && n < |zoneOf| then [Charge(KeyOf(g.namespace, g.pod), zoneOf[n], g.id)] else []
  }

  function OfDevices(key: string, d: Devices): seq<Charge> {
    seq(|d.ids|, i requires 0 <= i < |d.ids| => Charge(key, d.zone, d.ids[i]))
  }

  function OfEntry(key: string, devices: seq<Devices>): seq<Charge> {
    if |devices| == 0 then [] else OfEntry(key, devices[..|devices| - 1]) + OfDevices(key, devices[|devices| - 1])
  }

  /** The charges a response makes. */
  function Made(out: seq<PodEntry>): seq<Charge> {
    if |out| == 0 then []
    else var e := out[|out| - 1]; Made(out[..|out| - 1]) + OfEntry(EntryKey(e), e.devices)
  }

  lemma {:induction false} DueCount(gpus: seq<Gpu>, zoneOf: seq<nat>, c: Charge)
    ensures multiset(Due(gpus, zoneOf))[c] == multiset(Held(gpus, zoneOf, c.key, c.zone))[c.id]
  {
    if |gpus| > 0 {
      DueCount(gpus[..|gpus| - 1], zoneOf, c);
    }
  }

  lemma {:induction false} OfDevicesCount(key: string, zone: nat, ids: seq<string>, c: Charge)
    ensures multiset(OfDevices(key, Devices(zone, ids)))[c]
            == if c.key == key && c.zone == zone then multiset(ids)[c.id] else 0
  {
    var all := OfDevices(key, Devices(zone, ids));
    if |ids| == 0 {
      assert all == [];
    } else {
      var n := |ids| - 1;
      OfDevicesCount(key, zone, ids[..n], c);
      assert all == OfDevices(key, Devices(zone, ids[..n])) + [Charge(key, zone, ids[n])];
      assert ids == ids[..n] + [ids[n]];
    }
  }

  ghost predicate ZonesAscend(devices: seq<Devices>) {
    forall i, j :: 0 <= i < j < |devices| ==> devices[i].zone < devices[j].zone
  }

  lemma {:induction false} OfEntryWithout(key: string, devices: seq<Devices>, c: Charge)
    requires c.key != key || forall i :: 0 <= i < |devices| ==> devices[i].zone != c.zone
    ensures multiset(OfEntry(key, devices))[c] == 0
  {
    hide OfDevices;
    if |devices| > 0 {
      var n := |devices| - 1;
      OfEntryWithout(key, devices[..n], c);
      OfDevicesCount(key, devices[n].zone, devices[n].ids, c);
    }
  }

  lemma {:induction false} OfEntryAt(devices: seq<Devices>, i: nat, c: Charge)
    requires ZonesAscend(devices) && i < |devices| && devices[i].zone == c.zone
    ensures multiset(OfEntry(c.key, devices))[c] == multiset(devices[i].ids)[c.id]
  {
    hide OfDevices;
    var n := |devices| - 1;
    OfDevicesCount(c.key, devices[n].zone, devices[n].ids, c);
    if i == n {
      OfEntryWithout(c.key, devices[..n], c);
    } else {
      OfEntryAt(devices[..n], i, c);
    }
  }

  lemma {:induction false} MadeWithout(out: seq<PodEntry>, c: Charge)
    requires forall i :: 0 <= i < |out| ==> EntryKey(out[i]) != c.key
    ensures multiset(Made(out))[c] == 0
  {
    hide OfEntry;
    if |out| > 0 {
      var n := |out| - 1;
      MadeWithout(out[..n], c);
      OfEntryWithout(EntryKey(out[n]), out[n].devices, c);
    }
  }

  lemma {:induction false} MadeAt(out: seq<PodEntry>, i: nat, c: Charge)
    requires i < |out| && EntryKey(out[i]) == c.key
    requires forall j :: 0 <= j < |out| && j != i ==> EntryKey(out[j]) != c.key
    ensures multiset(Made(out))[c] == multiset(OfEntry(c.key, out[i].devices))[c]
  {
    hide OfEntry;
    var n := |out| - 1;
    if i == n {
      MadeWithout(out[..n], c);
    } else {
      MadeAt(out[..n], i, c);
      OfEntryWithout(EntryKey(out[n]), out[n].devices, c);
    }
  }

  /** Conservation: the response charges exactly the owned GPUs, each once, to its own pod and zone. */
  lemma EveryOwnedGpuChargedOnce(out: seq<PodEntry>, gpus: seq<Gpu>, layout: ZoneLayout, zoneOf: seq<nat>,
                                 reqs: map<string, PodRequest>)
    requires IsResponse(out, gpus, layout, zoneOf, reqs)
    ensures multiset(Made(out)) == multiset(Due(gpus, zoneOf))
  {
    hide Made, Due;
    forall c ensures multiset(Made(out))[c] == multiset(Due(gpus, zoneOf))[c] {
      ChargedOnce(out, gpus, layout, zoneOf, reqs, c);
    }
  }

  lemma ChargedOnce(out: seq<PodEntry>, gpus: seq<Gpu>, layout: ZoneLayout, zoneOf: seq<nat>,
                    reqs: map<string, PodRequest>, c: Charge)
    requires IsResponse(out, gpus, layout, zoneOf, reqs)
    ensures multiset(Made(out))[c] == multiset(Due(gpus, zoneOf))[c]
  {
    hide Held, Made, Due, OfEntry, IsApportionment, StringLe;
    DueCount(gpus, zoneOf, c);
    if HoldsSome(gpus, zoneOf, c.key) {
      var i :| 0 <= i < |out| && EntryKey(out[i]) == c.key;
      MadeAt(out, i, c);
      EntryChargedOnce(out[i], gpus, layout, zoneOf, reqs, c);
    } else {
      MadeWithout(out, c);
      assert Held(gpus, zoneOf, c.key, c.zone) == [];
    }
  }

  lemma EntryChargedOnce(e: PodEntry, gpus: seq<Gpu>, layout: ZoneLayout, zoneOf: seq<nat>,
                         reqs: map<string, PodRequest>, c: Charge)
    requires IsEntry(e, c.key, gpus, layout, zoneOf, reqs)
    ensures multiset(OfEntry(c.key, e.devices))[c] == multiset(Held(gpus, zoneOf, c.key, c.zone))[c.id]
  {
    hide Held, OfEntry, SplitsRequest;
    if Held(gpus, zoneOf, c.key, c.zone) != [] {
      var i :| 0 <= i < |e.devices| && e.devices[i].zone == c.zone;
      OfEntryAt(e.devices, i, c);
    } else {
      OfEntryWithout(c.key, e.devices, c);
    }
  }

  // ----- No zone is charged more GPUs than it has -----

  /** GPUs a response charges to one zone, over all pods. */
  function ZoneLoad(out: seq<PodEntry>, zone: nat): nat {
    if |out| == 0 then 0 else ZoneLoad(out[..|out| - 1], zone) + EntryLoad(out[|out| - 1].devices, zone)
  }

  function EntryLoad(devices: seq<Devices>, zone: nat): nat {
    if |devices| == 0 then 0
    else
      var d := devices[|devices| - 1];
      EntryLoad(devices[..|devices| - 1], zone) + if d.zone == zone then |d.ids| else 0
  }

  function InZone(cs: seq<Charge>, zone: nat): nat {
    if |cs| == 0 then 0 else InZone(cs[..|cs| - 1], zone) + if cs[|cs| - 1].zone == zone then 1 else 0
  }

  lemma {:induction false} InZoneAppend(a: seq<Charge>, b: seq<Charge>, zone: nat)
    ensures InZone(a + b, zone) == InZone(a, zone) + InZone(b, zone)
    decreases |b|
  {
    if |b| == 0 {
      assert a + b == a;
    } else {
      assert (a + b)[..|a + b| - 1] == a + b[..|b| - 1];
      InZoneAppend(a, b[..|b| - 1], zone);
    }
  }

  lemma {:induction false} InZonePermutation(a: seq<Charge>, b: seq<Charge>, zone: nat)
    requires multiset(a) == multiset(b)
    ensures InZone(a, zone) == InZone(b, zone)
    decreases |a|
  {
    SameElements(a, b);
    assert |a| == 0 ==> a == b == [];
    if |a| > 0 {
      var n := |a| - 1;
      assert InZone(a, zone) == InZone(a[..n], zone) + if a[n].zone == zone then 1 else 0;
      hide InZone;
      assert a[n] in b;
      var j :| 0 <= j < |b| && b[j] == a[n];
      InZoneRemove(b, j, zone);
      RemovedElements(a, n);
      assert a[..n] + a[n + 1..] == a[..n];
      InZonePermutation(a[..n], b[..j] + b[j + 1..], zone);
    }
  }

  lemma InZoneRemove(b: seq<Charge>, j: nat, zone: nat)
    requires j < |b|
    ensures InZone(b, zone) == InZone(b[..j] + b[j + 1..], zone) + if b[j].zone == zone then 1 else 0
    ensures multiset(b[..j] + b[j + 1..]) == multiset(b) - multiset{b[j]}
  {
    var front, back := b[..j], b[j + 1..];
    RemovedElements(b, j);
    assert b == (front + [b[j]]) + back;
    InZoneAppend(front, back, zone);
    InZoneAppend(front + [b[j]], back, zone);
    assert (front + [b[j]])[..j] == front;
  }

  lemma {:induction false} OfDevicesInZone(key: string, devZone: nat, ids: seq<string>, zone: nat)
    ensures InZone(OfDevices(key, Devices(devZone, ids)), zone) == if devZone == zone then |ids| else 0
  {
    if |ids| > 0 {
      var n := |ids| - 1;
      var all := OfDevices(key, Devices(devZone, ids));
      OfDevicesInZone(key, devZone, ids[..n], zone);
      assert all[..n] == OfDevices(key, Devices(devZone, ids[..n]));
    }
  }

  lemma {:induction false} EntryLoadIsCount(key: string, devices: seq<Devices>, zone: nat)
    ensures InZone(OfEntry(key, devices), zone) == EntryLoad(devices, zone)
  {
    if |devices| > 0 {
      var n := |devices| - 1;
      EntryLoadIsCount(key, devices[..n], zone);
      OfDevicesInZone(key, devices[n].zone, devices[n].ids, zone);
      InZoneAppend(OfEntry(key, devices[..n]), OfDevices(key, devices[n]), zone);
    }
  }

  lemma {:induction false} ZoneLoadIsCount(out: seq<PodEntry>, zone: nat)
    ensures InZone(Made(out), zone) == ZoneLoad(out, zone)
  {
    if |out| > 0 {
      var n := |out| - 1;
      ZoneLoadIsCount(out[..n], zone);
      EntryLoadIsCount(EntryKey(out[n]), out[n].devices, zone);
      InZoneAppend(Made(out[..n]), OfEntry(EntryKey(out[n]), out[n].devices), zone);
    }
  }

  lemma {:induction false} DueInZone(gpus: seq<Gpu>, zoneOf: seq<nat>, zone: nat)
    ensures InZone(Due(gpus, zoneOf), zone) <= Count(zoneOf[..Min(|gpus|, |zoneOf|)], zone)
  {
    if |gpus| > 0 {
      var n := |gpus| - 1;
      DueInZone(gpus[..n], zoneOf, zone);
      InZoneAppend(Due(gpus[..n], zoneOf), DueFor(gpus[n], n, zoneOf), zone);
      DueForInZone(gpus[n], n, zoneOf, zone);
      CountTake(zoneOf, n, zone);
      hide DueFor, InZone, Count;
    }
  }

  lemma DueForInZone(g: Gpu, n: nat, zoneOf: seq<nat>, zone: nat)
    ensures InZone(DueFor(g, n, zoneOf), zone) <= if n < |zoneOf| && zoneOf[n] == zone then 1 else 0
  {
  }

  lemma CountTake(s: seq<nat>, n: nat, z: nat)
    ensures n < |s| ==> Count(s[..n + 1], z) == Count(s[..n], z) + if s[n] == z then 1 else 0
  {
    if n < |s| {
      assert s[..n + 1][..n] == s[..n];
    }
  }

  lemma {:induction false} CountPrefix(s: seq<nat>, n: nat, z: nat)
    requires n <= |s|
    ensures Count(s[..n], z) <= Count(s, z)
    decreases |s| - n
  {
    if n == |s| {
      assert s[..n] == s;
    } else {
      assert s[..n + 1][..n] == s[..n];
      CountPrefix(s, n + 1, z);
    }
  }

  /** The devices charged to a zone, over all pods, never exceed the GPUs the layout gives that zone. */
  lemma ZoneCapacityRespected(out: seq<PodEntry>, gpus: seq<Gpu>, layout: ZoneLayout, zoneOf: seq<nat>,
                              reqs: map<string, PodRequest>, zone: nat)
    requires IsResponse(out, gpus, layout, zoneOf, reqs) && ZoneBlocks(layout.gpusPerZone, zoneOf)
    requires zone < |layout.gpusPerZone|
    ensures ZoneLoad(out, zone) <= layout.gpusPerZone[zone]
  {
    hide InZone, Made, Due, ZoneLoad, Count, IsResponse, ZoneBlocks;
    EveryOwnedGpuChargedOnce(out, gpus, layout, zoneOf, reqs);
    InZonePermutation(Made(out), Due(gpus, zoneOf), zone);
    ZoneLoadIsCount(out, zone);
    DueInZone(gpus, zoneOf, zone);
    CountPrefix(zoneOf, Min(|gpus|, |zoneOf|), zone);
    ZoneCount(layout.gpusPerZone, zoneOf, zone);
  }

  // ----- Which GPUs an entry lists -----

  /** GPU j is charged to this pod in this zone: somebody owns it, the layout covers it, and key and zone agree. */
  predicate ChargedTo(gpus: seq<Gpu>, zoneOf: seq<nat>, key: string, zone: nat, j: nat) {
    && j < |gpus| && j < |zoneOf|
    && gpus[j].pod != "" && gpus[j].namespace != ""
    && gpus[j].namespace + "/" + gpus[j].pod == key && zoneOf[j] == zone
  }

  /** ids are the ids of exactly these GPUs, in index order. */
  ghost predicate Lists(ids: seq<string>, js: seq<nat>, gpus: seq<Gpu>, zoneOf: seq<nat>, key: string, zone: nat) {
    && |ids| == |js| && Ascending(js)
    && (forall j: nat :: j in js <==> ChargedTo(gpus, zoneOf, key, zone, j))
    && (forall m :: 0 <= m < |js| ==> js[m] < |gpus| && ids[m] == gpus[js[m]].id)
  }

  lemma {:induction false} HeldLists(gpus: seq<Gpu>, zoneOf: seq<nat>, key: string, zone: nat) returns (js: seq<nat>)
    ensures Lists(Held(gpus, zoneOf, key, zone), js, gpus, zoneOf, key, zone)
  {
    js := [];
    if |gpus| > 0 {
      var n := |gpus| - 1;
      js := HeldLists(gpus[..n], zoneOf, key, zone);
      ListsLonger(Held(gpus[..n], zoneOf, key, zone), js, gpus, zoneOf, key, zone);
      if ChargedTo(gpus, zoneOf, key, zone, n) { js := js + [n]; }
      hide Lists;
    }
  }

  /** One more GPU is listed last, or not at all. */
  lemma ListsLonger(ids: seq<string>, js: seq<nat>, gpus: seq<Gpu>, zoneOf: seq<nat>, key: string, zone: nat)
    requires |gpus| > 0 && Lists(ids, js, gpus[..|gpus| - 1], zoneOf, key, zone)
    ensures var n := |gpus| - 1;
      if ChargedTo(gpus, zoneOf, key, zone, n) then Lists(ids + [gpus[n].id], js + [n], gpus, zoneOf, key, zone)
      else Lists(ids, js, gpus, zoneOf, key, zone)
  {
    var n := |gpus| - 1;
    forall j: nat
      ensures ChargedTo(gpus[..n], zoneOf, key, zone, j) <==> j < n && ChargedTo(gpus, zoneOf, key, zone, j)
    {
    }
    assert forall j :: j in js ==> j < n;
    assert forall j: nat :: ChargedTo(gpus, zoneOf, key, zone, j) ==> j <= n;
    assert forall m :: 0 <= m < |js| ==> js[m] in js;
    hide ChargedTo;
  }

  /** Device ids of one zone of an entry: the pod's GPUs there, in index order, and each GPU charged has its entry. */
  lemma EntryGpus(out: seq<PodEntry>, gpus: seq<Gpu>, layout: ZoneLayout, zoneOf: seq<nat>,
                  reqs: map<string, PodRequest>, k: nat, i: nat) returns (js: seq<nat>)
    requires IsResponse(out, gpus, layout, zoneOf, reqs) && k < |out| && i < |out[k].devices|
    ensures Lists(out[k].devices[i].ids, js, gpus, zoneOf, out[k].namespace + "/" + out[k].name, out[k].devices[i].zone)
    ensures js != []
  {
    var e := out[k];
    assert IsEntry(e, EntryKey(e), gpus, layout, zoneOf, reqs);
    js := HeldLists(gpus, zoneOf, EntryKey(e), e.devices[i].zone);
  }

  /** A GPU that is to be charged is listed by one entry, under its own zone. */
  lemma ChargedIsListed(out: seq<PodEntry>, gpus: seq<Gpu>, layout: ZoneLayout, zoneOf: seq<nat>,
                        reqs: map<string, PodRequest>, key: string, zone: nat, j: nat) returns (k: nat, i: nat)
    requires IsResponse(out, gpus, layout, zoneOf, reqs) && ChargedTo(gpus, zoneOf, key, zone, j)
    ensures k < |out| && out[k].namespace + "/" + out[k].name == key
    ensures i < |out[k].devices| && out[k].devices[i].zone == zone
  {
    var js := HeldLists(gpus, zoneOf, key, zone);
    assert j in js;
    hide Held, SplitsRequest;
    assert HoldsSome(gpus, zoneOf, key);
    k :| 0 <= k < |out| && EntryKey(out[k]) == key;
    assert IsEntry(out[k], key, gpus, layout, zoneOf, reqs);
    i :| 0 <= i < |out[k].devices| && out[k].devices[i].zone == zone;
  }

  /** Entries ascend strictly by key, and the zones within each entry ascend. */
  lemma ResponseOrder(out: seq<PodEntry>, gpus: seq<Gpu>, layout: ZoneLayout, zoneOf: seq<nat>,
                      reqs: map<string, PodRequest>)
    requires IsResponse(out, gpus, layout, zoneOf, reqs)
    ensures forall j, k :: 0 <= j < k < |out| ==>
      var (a, b) := (out[j].namespace + "/" + out[j].name, out[k].namespace + "/" + out[k].name);
      a != b && StringLe(a, b)
    ensures forall k, y, z :: 0 <= k < |out| && 0 <= y < z < |out[k].devices| ==>
      out[k].devices[y].zone < out[k].devices[z].zone
  {
    hide StringLe, Held, SplitsRequest, HoldsSome;
    forall j, k | 0 <= j < k < |out| ensures StringLess(EntryKey(out[j]), EntryKey(out[k])) { }
    forall k | 0 <= k < |out| ensures ListsHoldings(out[k].devices, gpus, zoneOf, EntryKey(out[k])) {
      assert IsEntry(out[k], EntryKey(out[k]), gpus, layout, zoneOf, reqs);
    }
  }

  /** The request that counts for an entry: the one under its key, or nothing at all. */
  predicate Requests(reqs: map<string, PodRequest>, e: PodEntry, req: PodRequest) {
    var key := e.namespace + "/" + e.name;
    if key in reqs then req == reqs[key] else req.milliCpu == 0 && req.memory == 0
  }

  /** One weight a zone, the number of GPUs held there. */
  predicate Weighs(weights: seq<nat>, e: PodEntry) {
    |weights| == |e.devices| && forall i :: 0 <= i < |weights| ==> weights[i] == |e.devices[i].ids|
  }

  // ----- cpu ids of one pod -----

  /** The first cpu id of a zone. */
  function StartOf(l: ZoneLayout, z: nat): int { z * Cores(l.cpuPerZone) }

  lemma ZoneIds(l: ZoneLayout, z: nat)
    requires ContiguousCpus(l) && z < l.zones
    ensures |l.cpuIds[z]| == StartOf(l, z + 1) - StartOf(l, z)
    ensures forall i :: 0 <= i < |l.cpuIds[z]| ==> l.cpuIds[z][i] == StartOf(l, z) + i
  {
    forall i | 0 <= i < |l.cpuIds[z]| ensures l.cpuIds[z][i] == StartOf(l, z) + i { CpuIdsDistinct(l, z, i); }
  }

  lemma StartsAscend(l: ZoneLayout, y: nat, z: nat)
    requires y <= z
    ensures StartOf(l, y) <= StartOf(l, z)
  {
    assert (z - y) * Cores(l.cpuPerZone) >= 0;
  }

  /** A pod's cpu ids are strictly ascending, so distinct, and below the end of its last zone. */
  lemma {:induction false} CpuIdsAscend(devices: seq<Devices>, shares: seq<nat>, l: ZoneLayout)
    requires ContiguousCpus(l) && |devices| == |shares|
    requires forall i :: 0 <= i < |devices| ==> devices[i].zone < l.zones
    requires ZonesAscend(devices)
    ensures Ascending(CpuIdsFor(devices, shares, l.cpuIds))
    ensures |devices| > 0 ==> Below(CpuIdsFor(devices, shares, l.cpuIds), StartOf(l, devices[|devices| - 1].zone + 1))
  {
    hide Flatten, StartOf;
    if |devices| > 0 {
      var n := |devices| - 1;
      var z := devices[n].zone;
      CpuIdsAscend(devices[..n], shares[..n], l);
      var front, ids := CpuIdsFor(devices[..n], shares[..n], l.cpuIds), l.cpuIds[z];
      ZoneIds(l, z);
      if n > 0 { StartsAscend(l, devices[n - 1].zone + 1, z); }
      AppendBlock(front, ids, StartOf(l, z), Min(shares[n], |ids|));
    }
  }

  ghost predicate Below(s: seq<nat>, bound: int) {
    forall i :: 0 <= i < |s| ==> s[i] < bound
  }

  lemma AppendBlock(front: seq<nat>, ids: seq<nat>, start: int, k: nat)
    requires Ascending(front) && Below(front, start) && k <= |ids|
    requires forall i :: 0 <= i < |ids| ==> ids[i] == start + i
    ensures Ascending(front + ids[..k]) && Below(front + ids[..k], start + |ids|)
  {
  }

  /** Each of a pod's cpu ids belongs to a zone where the pod holds GPUs. */
  lemma {:induction false} CpuIdsFromHeldZones(devices: seq<Devices>, shares: seq<nat>, cpuIds: seq<seq<nat>>, id: nat)
    requires |devices| == |shares| && forall i :: 0 <= i < |devices| ==> devices[i].zone < |cpuIds|
    requires id in CpuIdsFor(devices, shares, cpuIds)
    ensures exists i :: 0 <= i < |devices| && id in cpuIds[devices[i].zone]
  {
    var n := |devices| - 1;
    if id in CpuIdsFor(devices[..n], shares[..n], cpuIds) {
      CpuIdsFromHeldZones(devices[..n], shares[..n], cpuIds, id);
      var i :| 0 <= i < n && id in cpuIds[devices[..n][i].zone];
      assert id in cpuIds[devices[i].zone];
    } else {
      assert id in cpuIds[devices[n].zone];
    }
  }

  /** The pod gets all the cores it asks for iff no zone's share exceeds the zone's ids. */
  lemma {:induction false} CpuIdsCount(devices: seq<Devices>, shares: seq<nat>, cpuIds: seq<seq<nat>>)
    requires |devices| == |shares| && forall i :: 0 <= i < |devices| ==> devices[i].zone < |cpuIds|
    ensures |CpuIdsFor(devices, shares, cpuIds)| <= Sum(shares)
    ensures |CpuIdsFor(devices, shares, cpuIds)| == Sum(shares)
            <==> forall i :: 0 <= i < |devices| ==> shares[i] <= |cpuIds[devices[i].zone]|
  {
    if |devices| > 0 {
      CpuIdsCount(devices[..|devices| - 1], shares[..|devices| - 1], cpuIds);
    }
  }

  /** Of each held zone's list exactly the first ids, as many as its share, are taken. */
  ghost predicate TakenPerShare(ids: seq<nat>, devices: seq<Devices>, shares: seq<nat>, l: ZoneLayout)
    requires |devices| == |shares|
  {
    forall i, p :: 0 <= i < |devices| && devices[i].zone < |l.cpuIds| && 0 <= p < |l.cpuIds[devices[i].zone]| ==>
      (l.cpuIds[devices[i].zone][p] in ids <==> p < shares[i])
  }

  lemma {:induction false} CpusPerShare(devices: seq<Devices>, shares: seq<nat>, l: ZoneLayout)
    requires |devices| == |shares| && ZonesAscend(devices) && ContiguousCpus(l)
    requires forall i :: 0 <= i < |devices| ==> devices[i].zone < l.zones
    ensures TakenPerShare(CpuIdsFor(devices, shares, l.cpuIds), devices, shares, l)
  {
    if |devices| > 0 {
      var n := |devices| - 1;
      var z, front := devices[n].zone, CpuIdsFor(devices[..n], shares[..n], l.cpuIds);
      CpusPerShare(devices[..n], shares[..n], l);
      CpuIdsAscend(devices[..n], shares[..n], l);
      if n > 0 { StartsAscend(l, devices[n - 1].zone + 1, z); }
      assert Below(front, StartOf(l, z));
      var last := l.cpuIds[z];
      ZoneIds(l, z);
      hide CpuIdsFor, Flatten, StartOf, ContiguousCpus;
      forall i, p | 0 <= i < |devices| && 0 <= p < |l.cpuIds[devices[i].zone]|
        ensures l.cpuIds[devices[i].zone][p] in front + last[..Min(shares[n], |last|)] <==> p < shares[i]
      {
        var id := l.cpuIds[devices[i].zone][p];
        if i < n {
          EarlierZone(l, devices[i].zone, z, p);
          assert id in front <==> p < shares[..n][i] by { assert devices[..n][i] == devices[i]; }
        } else {
          assert id in last[..Min(shares[n], |last|)] <==> p < shares[n];
        }
      }
    }
  }

  lemma EarlierZone(l: ZoneLayout, y: nat, z: nat, p: nat)
    requires ContiguousCpus(l) && y < z < l.zones && p < |l.cpuIds[y]|
    ensures l.cpuIds[y][p] < StartOf(l, z)
  {
    ZoneIds(l, y);
    StartsAscend(l, y + 1, z);
  }

  /** All of it, for one entry of a response over a layout with contiguous cpu ids. */
  lemma EntryCpus(out: seq<PodEntry>, gpus: seq<Gpu>, layout: ZoneLayout, zoneOf: seq<nat>,
                  reqs: map<string, PodRequest>, k: nat, req: PodRequest, weights: seq<nat>, cores: seq<nat>)
    requires IsResponse(out, gpus, layout, zoneOf, reqs) && ContiguousCpus(layout) && k < |out|
    requires Requests(reqs, out[k], req) && Weighs(weights, out[k])
    requires IsApportionment(RequestedCores(req), weights, cores)
    ensures Ascending(out[k].cpuIds)
    ensures forall id :: id in out[k].cpuIds ==>
          exists d :: d in out[k].devices && d.zone < layout.zones && id in layout.cpuIds[d.zone]
    ensures |cores| == |out[k].devices| && TakenPerShare(out[k].cpuIds, out[k].devices, cores, layout)
    ensures |out[k].cpuIds| <= Sum(cores)
    ensures Sum(cores) == RequestedCores(req) <==> Conserves(RequestedCores(req), weights)
    ensures Precise(RequestedCores(req), weights) ==> Sum(cores) == RequestedCores(req)
    ensures |out[k].cpuIds| == Sum(cores)
            <==> forall i :: 0 <= i < |cores| ==>
                  out[k].devices[i].zone < layout.zones && cores[i] <= |layout.cpuIds[out[k].devices[i].zone]|
  {
    CpusBehind(out, gpus, layout, zoneOf, reqs, k, req, weights, cores);
    hide IsApportionment, IsResponse, CpuIdsFor, Sum, Flatten, Weighs, Requests, ContiguousCpus, Ascending,
         TakenPerShare;
    CpusOf(out[k].devices, cores, layout);
  }

  lemma CpusOf(devices: seq<Devices>, cores: seq<nat>, layout: ZoneLayout)
    requires |devices| == |cores| && ZonesAscend(devices) && ContiguousCpus(layout)
    requires forall i :: 0 <= i < |devices| ==> devices[i].zone < layout.zones
    ensures var ids := CpuIdsFor(devices, cores, layout.cpuIds);
      && Ascending(ids) && TakenPerShare(ids, devices, cores, layout) && |ids| <= Sum(cores)
      && (forall id :: id in ids ==>
            exists d :: d in devices && d.zone < layout.zones && id in layout.cpuIds[d.zone])
      && (|ids| == Sum(cores) <==>
            forall i :: 0 <= i < |cores| ==>
              devices[i].zone < layout.zones && cores[i] <= |layout.cpuIds[devices[i].zone]|)
  {
    CpuIdsAscend(devices, cores, layout);
    CpuIdsCount(devices, cores, layout.cpuIds);
    CpusPerShare(devices, cores, layout);
    hide CpuIdsFor, Sum, Flatten, Ascending, TakenPerShare;
    var ids := CpuIdsFor(devices, cores, layout.cpuIds);
    forall id | id in ids
      ensures exists d :: d in devices && d.zone < layout.zones && id in layout.cpuIds[d.zone]
    {
      CpuIdsFromHeldZones(devices, cores, layout.cpuIds, id);
      var i :| 0 <= i < |devices| && id in layout.cpuIds[devices[i].zone];
      assert devices[i] in devices;
    }
  }

  lemma CpusBehind(out: seq<PodEntry>, gpus: seq<Gpu>, layout: ZoneLayout, zoneOf: seq<nat>,
                   reqs: map<string, PodRequest>, k: nat, req: PodRequest, weights: seq<nat>, cores: seq<nat>)
    requires IsResponse(out, gpus, layout, zoneOf, reqs) && ContiguousCpus(layout) && k < |out|
    requires Requests(reqs, out[k], req) && Weighs(weights, out[k])
    requires IsApportionment(RequestedCores(req), weights, cores)
    ensures |cores| == |out[k].devices| && ZonesAscend(out[k].devices) && |layout.cpuIds| == layout.zones
    ensures forall i :: 0 <= i < |cores| ==> out[k].devices[i].zone < layout.zones
    ensures out[k].cpuIds == CpuIdsFor(out[k].devices, cores, layout.cpuIds)
    ensures Sum(cores) == RequestedCores(req) <==> Conserves(RequestedCores(req), weights)
    ensures Precise(RequestedCores(req), weights) ==> Sum(cores) == RequestedCores(req)
  {
    assert weights == Weights(out[k].devices) && req == RequestFor(reqs, EntryKey(out[k]));
    hide Held, IsApportionment, CpuIdsFor, Sum, Flatten;
    var e, key := out[k], EntryKey(out[k]);
    assert IsEntry(e, key, gpus, layout, zoneOf, reqs);
    var shares, _ := SharesBehind(e, req, layout.cpuIds);
    ApportionmentUnique(RequestedCores(req), weights, shares, cores);
    EntryShares(e, key, gpus, layout, zoneOf, reqs, RequestedCores(req), cores);
  }

  lemma SharesBehind(e: PodEntry, req: PodRequest, cpuIds: seq<seq<nat>>) returns (cores: seq<nat>, bytes: seq<nat>)
    requires SplitsRequest(e, req, cpuIds)
    ensures |cores| == |bytes| == |e.devices|
    ensures IsApportionment(RequestedCores(req), Weights(e.devices), cores)
    ensures IsApportionment(req.memory, Weights(e.devices), bytes)
    ensures forall i :: 0 <= i < |e.devices| ==> e.devices[i].zone < |cpuIds|
    ensures e.cpuIds == CpuIdsFor(e.devices, cores, cpuIds)
    ensures e.memory == MemoryFor(e.devices, bytes)
  {
    cores, bytes :|
      && IsApportionment(RequestedCores(req), Weights(e.devices), cores)
      && IsApportionment(req.memory, Weights(e.devices), bytes)
      && e.cpuIds == CpuIdsFor(e.devices, cores, cpuIds)
      && e.memory == MemoryFor(e.devices, bytes);
  }

  lemma PositiveSum(w: seq<nat>, i: nat)
    requires i < |w| && w[i] > 0
    ensures Sum(w) > 0
  {
    var zeros := seq(|w|, _ => 0);
    SumBetween(zeros, 0);
    assert zeros[i] < w[i];
    SumMonotone(zeros, w);
  }

  /**
   A pod in the response holds GPUs, so its shares add up to the whole amount iff the units left after
   the float64 floors can be handed out; they can while the amount times the GPU count is below 2^51.
   */
  lemma EntryShares(e: PodEntry, key: string, gpus: seq<Gpu>, layout: ZoneLayout, zoneOf: seq<nat>,
                    reqs: map<string, PodRequest>, total: nat, shares: seq<nat>)
    requires IsEntry(e, key, gpus, layout, zoneOf, reqs) && HoldsSome(gpus, zoneOf, key)
    requires IsApportionment(total, Weights(e.devices), shares)
    ensures |shares| == |e.devices|
    ensures Sum(shares) == total <==> Conserves(total, Weights(e.devices))
    ensures Precise(total, Weights(e.devices)) ==> Sum(shares) == total
  {
    hide Held;
    var w := Weights(e.devices);
    var z :| Held(gpus, zoneOf, key, z) != [];
    var i :| 0 <= i < |e.devices| && e.devices[i].zone == z;
    PositiveSum(w, i);
    hide IsEntry, HandsOut, Conserves, Precise;
    SumsToTotalIff(total, w, shares);
    if Precise(total, w) {
      ApportionmentIsHamilton(total, w, shares);
    }
  }

  // ----- memory of one pod -----

  function Bytes(blocks: seq<MemoryBlock>): nat {
    if |blocks| == 0 then 0 else Bytes(blocks[..|blocks| - 1]) + blocks[|blocks| - 1].size
  }

  ghost predicate BlocksFor(m: seq<MemoryBlock>, devices: seq<Devices>) {
    && (forall i :: 0 <= i < |m| ==> m[i].size > 0 && HasZone(devices, m[i].zone))
    && (forall i, j :: 0 <= i < j < |m| ==> m[i].zone < m[j].zone)
  }

  ghost predicate HasZone(devices: seq<Devices>, zone: nat) {
    exists i :: 0 <= i < |devices| && devices[i].zone == zone
  }

  lemma {:induction false} MemorySum(devices: seq<Devices>, shares: seq<nat>)
    requires |devices| == |shares|
    ensures Bytes(MemoryFor(devices, shares)) == Sum(shares)
  {
    if |devices| > 0 {
      var n := |devices| - 1;
      MemorySum(devices[..n], shares[..n]);
      var front := MemoryFor(devices[..n], shares[..n]);
      assert (front + [MemoryBlock(devices[n].zone, shares[n])])[..|front|] == front;
      assert front + [] == front;
    }
  }

  lemma {:induction false} MemoryBlocks(devices: seq<Devices>, shares: seq<nat>)
    requires |devices| == |shares| && ZonesAscend(devices)
    ensures BlocksFor(MemoryFor(devices, shares), devices)
  {
    if |devices| > 0 {
      var n := |devices| - 1;
      MemoryBlocks(devices[..n], shares[..n]);
      var front := MemoryFor(devices[..n], shares[..n]);
      forall i | 0 <= i < |front| ensures HasZone(devices, front[i].zone) && front[i].zone < devices[n].zone {
        assert HasZone(devices[..n], front[i].zone);
      }
      assert HasZone(devices, devices[n].zone);
    }
  }

  /** Each zone with a positive share has a block of exactly that size, and no other zone has one. */
  ghost predicate BlockPerShare(m: seq<MemoryBlock>, devices: seq<Devices>, shares: seq<nat>)
    requires |devices| == |shares|
  {
    && (forall i :: 0 <= i < |devices| && shares[i] > 0 ==> MemoryBlock(devices[i].zone, shares[i]) in m)
    && (forall b :: b in m ==>
          exists i :: 0 <= i < |devices| && shares[i] > 0 && b == MemoryBlock(devices[i].zone, shares[i]))
  }

  lemma {:induction false} MemoryPerShare(devices: seq<Devices>, shares: seq<nat>)
    requires |devices| == |shares|
    ensures BlockPerShare(MemoryFor(devices, shares), devices, shares)
  {
    if |devices| > 0 {
      var n := |devices| - 1;
      MemoryPerShare(devices[..n], shares[..n]);
      var front, m := MemoryFor(devices[..n], shares[..n]), MemoryFor(devices, shares);
      forall i | 0 <= i < |devices| && shares[i] > 0 ensures MemoryBlock(devices[i].zone, shares[i]) in m {
        if i < n { assert MemoryBlock(devices[..n][i].zone, shares[..n][i]) in front; }
      }
      forall b | b in m
        ensures exists i :: 0 <= i < |devices| && shares[i] > 0 && b == MemoryBlock(devices[i].zone, shares[i])
      {
        if b in front {
          var i :| 0 <= i < n && shares[..n][i] > 0 && b == MemoryBlock(devices[..n][i].zone, shares[..n][i]);
          assert b == MemoryBlock(devices[i].zone, shares[i]);
        }
      }
    }
  }

  /**
   The memory blocks of a pod lie over zones it holds, one a zone, and add up to its request iff
   the units left after the float64 floors can be handed out; they can while the request times the
   pod's GPU count stays below 2^51.
   */
  lemma EntryMemory(out: seq<PodEntry>, gpus: seq<Gpu>, layout: ZoneLayout, zoneOf: seq<nat>,
                    reqs: map<string, PodRequest>, k: nat, req: PodRequest, weights: seq<nat>, bytes: seq<nat>)
    requires IsResponse(out, gpus, layout, zoneOf, reqs) && k < |out|
    requires Requests(reqs, out[k], req) && Weighs(weights, out[k])
    requires IsApportionment(req.memory, weights, bytes)
    ensures |bytes| == |out[k].devices| && BlockPerShare(out[k].memory, out[k].devices, bytes)
    ensures Bytes(out[k].memory) == req.memory <==> Conserves(req.memory, weights)
    ensures Precise(req.memory, weights) ==> Bytes(out[k].memory) == req.memory
    ensures BlocksFor(out[k].memory, out[k].devices)
  {
    assert weights == Weights(out[k].devices) && req == RequestFor(reqs, EntryKey(out[k]));
    hide Held, IsApportionment, MemoryFor, Sum, Bytes;
    var e, key := out[k], EntryKey(out[k]);
    assert IsEntry(e, key, gpus, layout, zoneOf, reqs);
    var _, shares := SharesBehind(e, req, layout.cpuIds);
    EntryShares(e, key, gpus, layout, zoneOf, reqs, req.memory, shares);
    ApportionmentUnique(req.memory, Weights(e.devices), shares, bytes);
    MemorySum(e.devices, shares);
    MemoryBlocks(e.devices, shares);
    MemoryPerShare(e.devices, shares);
  }

  // ----- The key identifies the pod -----

  lemma KeyInjective(ns1: string, p1: string, ns2: string, p2: string)
    requires '/' !in ns1 && '/' !in ns2 && KeyOf(ns1, p1) == KeyOf(ns2, p2)
    ensures ns1 == ns2 && p1 == p2
  {
    var k1, k2 := KeyOf(ns1, p1), KeyOf(ns2, p2);
    assert k1[|ns1|] == '/' && k2[|ns2|] == '/';
    assert forall i :: 0 <= i < |ns1| ==> k1[i] == ns1[i] != '/';
    assert forall i :: 0 <= i < |ns2| ==> k2[i] == ns2[i] != '/';
    assert |ns1| == |ns2|;
    assert k1[..|ns1|] == ns1 && k2[..|ns2|] == ns2;
    assert k1[|ns1| + 1..] == p1 && k2[|ns2| + 1..] == p2;
  }

  /**
   When no namespace contains a slash (no Kubernetes namespace does), a GPU charged under an entry's
   key is owned by exactly the namespace and pod the entry names.
   */
  lemma EntryNamesOwner(out: seq<PodEntry>, gpus: seq<Gpu>, layout: ZoneLayout, zoneOf: seq<nat>,
                        reqs: map<string, PodRequest>, k: nat, i: nat)
    requires IsResponse(out, gpus, layout, zoneOf, reqs) && k < |out| && i < |gpus|
    requires forall g :: g in gpus ==> '/' !in g.namespace
    requires Owned(gpus[i]) && KeyOf(gpus[i].namespace, gpus[i].pod) == EntryKey(out[k])
    ensures gpus[i].namespace == out[k].namespace && gpus[i].pod == out[k].name
  {
    hide Held, IsApportionment, ListsHoldings;
    assert IsEntry(out[k], EntryKey(out[k]), gpus, layout, zoneOf, reqs);
    var j :| 0 <= j < |gpus| && gpus[j].namespace == out[k].namespace && gpus[j].pod == out[k].name;
    KeyInjective(gpus[i].namespace, gpus[i].pod, gpus[j].namespace, gpus[j].pod);
  }

  // ----- The response is determined -----

  function Zones(devices: seq<Devices>): seq<nat> {
    seq(|devices|, i requires 0 <= i < |devices| => devices[i].zone)
  }

  lemma SameDevices(a: seq<Devices>, b: seq<Devices>, gpus: seq<Gpu>, zoneOf: seq<nat>, key: string)
    requires ListsHoldings(a, gpus, zoneOf, key) && ListsHoldings(b, gpus, zoneOf, key)
    ensures a == b
  {
    hide Held;
    forall z
      ensures z in Zones(a) <==> Held(gpus, zoneOf, key, z) != []
      ensures z in Zones(b) <==> Held(gpus, zoneOf, key, z) != []
    {
      if Held(gpus, zoneOf, key, z) != [] {
        var i :| 0 <= i < |a| && a[i].zone == z;
        assert Zones(a)[i] == z;
        var j :| 0 <= j < |b| && b[j].zone == z;
        assert Zones(b)[j] == z;
      }
    }
    SortedUnique(NatLe, Zones(a), Zones(b));
    forall i | 0 <= i < |a| ensures a[i] == b[i] {
      assert Zones(a)[i] == Zones(b)[i];
    }
  }

  lemma SameEntry(a: PodEntry, b: PodEntry, key: string, gpus: seq<Gpu>, layout: ZoneLayout, zoneOf: seq<nat>,
                  reqs: map<string, PodRequest>)
    requires IsEntry(a, key, gpus, layout, zoneOf, reqs) && IsEntry(b, key, gpus, layout, zoneOf, reqs)
    requires forall g :: g in gpus ==> '/' !in g.namespace
    ensures a == b
  {
    hide Held, IsApportionment, CpuIdsFor, MemoryFor;
    SameDevices(a.devices, b.devices, gpus, zoneOf, key);
    var req := RequestFor(reqs, key);
    var coresA, bytesA := SharesBehind(a, req, layout.cpuIds);
    var coresB, bytesB := SharesBehind(b, req, layout.cpuIds);
    ApportionmentUnique(RequestedCores(req), Weights(a.devices), coresA, coresB);
    ApportionmentUnique(req.memory, Weights(a.devices), bytesA, bytesB);
    var i :| 0 <= i < |gpus| && gpus[i].namespace == a.namespace && gpus[i].pod == a.name;
    var j :| 0 <= j < |gpus| && gpus[j].namespace == b.namespace && gpus[j].pod == b.name;
    KeyInjective(gpus[i].namespace, gpus[i].pod, gpus[j].namespace, gpus[j].pod);
  }

  /**
   The response does not depend on the order in which any map is visited: for namespaces without a
   slash, the GPU table, the layout and the requests leave one possible response only.
   */
  lemma ResponseUnique(a: seq<PodEntry>, b: seq<PodEntry>, gpus: seq<Gpu>, layout: ZoneLayout, zoneOf: seq<nat>,
                       reqs: map<string, PodRequest>)
    requires IsResponse(a, gpus, layout, zoneOf, reqs) && IsResponse(b, gpus, layout, zoneOf, reqs)
    requires forall g :: g in gpus ==> '/' !in g.namespace
    ensures a == b
  {
    hide IsEntry, Held, StringLe;
    var keysA := seq(|a|, i requires 0 <= i < |a| => EntryKey(a[i]));
    var keysB := seq(|b|, i requires 0 <= i < |b| => EntryKey(b[i]));
    forall x, y | StringLe(x, y) && StringLe(y, x) ensures x == y { StringLeOrder(x, y, x); }
    KeysAreHolders(a, keysA, gpus, layout, zoneOf, reqs);
    KeysAreHolders(b, keysB, gpus, layout, zoneOf, reqs);
    SortedUnique(StringLe, keysA, keysB);
    forall i | 0 <= i < |a| ensures a[i] == b[i] {
      assert keysA[i] == keysB[i];
      SameEntry(a[i], b[i], keysA[i], gpus, layout, zoneOf, reqs);
    }
  }

  lemma KeysAreHolders(out: seq<PodEntry>, keys: seq<string>, gpus: seq<Gpu>, layout: ZoneLayout, zoneOf: seq<nat>,
                       reqs: map<string, PodRequest>)
    requires IsResponse(out, gpus, layout, zoneOf, reqs)
    requires |keys| == |out| && forall i :: 0 <= i < |out| ==> keys[i] == EntryKey(out[i])
    ensures SortedBy(StringLe, keys) && NoDuplicates(keys)
    ensures forall key :: key in keys <==> HoldsSome(gpus, zoneOf, key)
  {
    hide IsEntry, Held, StringLe;
    forall key ensures key in keys <==> HoldsSome(gpus, zoneOf, key) {
      if HoldsSome(gpus, zoneOf, key) {
        var i :| 0 <= i < |out| && EntryKey(out[i]) == key;
        assert keys[i] == key;
      }
    }
  }
}
