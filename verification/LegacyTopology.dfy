/** Reading a node pool: the legacy format is translated to the new one, then resolved. */
module LegacyTopology {
  import opened Sequences
  import opened Profiles

  datatype GenericDevice = GenericDevice(name: string, count: int)

  datatype LegacyPool = LegacyPool(gpuCount: nat, gpuMemory: int, gpuProduct: string, otherDevices: seq<GenericDevice>)

  /** overrides is None when the configuration has none. */
  datatype PoolConfig = PoolConfig(backend: string, profile: string, overrides: Option<Value>,
                                   resources: seq<map<string, int>>)

  datatype ResolvedPool = ResolvedPool(
    product: string, memory: int, count: int, driverVersion: string, cudaVersion: string,
    otherDevices: seq<GenericDevice>)

  const GPU_RESOURCE := "nvidia.com/gpu"

  // ----- Legacy to new -----

  method NormalizeNodePool(legacy: LegacyPool) returns (config: PoolConfig)
    ensures config.backend == "fake" && config.profile == ""
    ensures config.overrides == Some(LegacyOverrides(legacy))
    ensures |config.resources| == |legacy.otherDevices|
    ensures forall i :: 0 <= i < |legacy.otherDevices| ==>
      config.resources[i] == map[legacy.otherDevices[i].name := legacy.otherDevices[i].count]
  {
    var devices: seq<Value> := [];
    for i := 0 to legacy.gpuCount
      invariant devices == seq(i, _ => Map(map[]))
    {
      devices := devices + [Map(map[])];
    }
    var memory := Map(map["total_bytes" := Int64(legacy.gpuMemory * 1024 * 1024)]);
    var overrides := Map(map[
      "device_defaults" := Map(map["name" := Text(legacy.gpuProduct), "memory" := memory]),
      "devices" := List(devices)]);
    var resources: seq<map<string, int>> := [];
    for i := 0 to |legacy.otherDevices|
      invariant |resources| == i
      invariant forall j :: 0 <= j < i ==>
            resources[j] == map[legacy.otherDevices[j].name := legacy.otherDevices[j].count]
    {
      resources := resources + [map[legacy.otherDevices[i].name := legacy.otherDevices[i].count]];
    }
    config := PoolConfig("fake", "", Some(overrides), resources);
  }

  function LegacyOverrides(legacy: LegacyPool): Value {
    Map(map[
      "device_defaults" := Map(map[
        "name" := Text(legacy.gpuProduct),
        "memory" := Map(map["total_bytes" := Int64(legacy.gpuMemory * 1024 * 1024)])]),
      "devices" := List(seq(legacy.gpuCount, _ => Map(map[])))])
  }

  // ----- Resolution -----

  /** The devices a list of resource maps declares, other than GPUs, as a bag. */
  ghost function Declared(resources: seq<map<string, int>>): multiset<GenericDevice> {
    if |resources| == 0 then multiset{}
    else Declared(resources[..|resources| - 1]) + multiset(DeclaredIn(resources[|resources| - 1]))
  }

  ghost function DeclaredIn(res: map<string, int>): set<GenericDevice> {
    set name | name in res && name != GPU_RESOURCE :: GenericDevice(name, res[name])
  }

  predicate NameLe(a: GenericDevice, b: GenericDevice) { StringLe(a.name, b.name) }

  lemma NameLeTotal()
    ensures TotalOrder(NameLe)
  {
    StringLeTotal();
  }

  /** The devices one resource map declares, in any order. */
  method DevicesIn(res: map<string, int>) returns (devices: seq<GenericDevice>)
    ensures multiset(devices) == multiset(DeclaredIn(res))
  {
    devices := [];
    var left := res.Keys;
    ghost var seen: set<GenericDevice> := {};
    while left != {}
      invariant left <= res.Keys
      invariant multiset(devices) == multiset(seen)
      invariant forall d ::
        d in seen <==> d.name in res && d.name !in left && d.name != GPU_RESOURCE && d.count == res[d.name]
    {
      var name :| name in left;
      left := left - {name};
      if name == GPU_RESOURCE {
        continue;
      }
      var d := GenericDevice(name, res[name]);
      devices := devices + [d];
      assert d !in seen;
      seen := seen + {d};
    }
    assert seen == DeclaredIn(res) by {
      forall d ensures d in seen <==> d in DeclaredIn(res) { DeclaredMember(res, d); }
    }
  }

  lemma DeclaredMember(res: map<string, int>, d: GenericDevice)
    ensures d in DeclaredIn(res) <==> d.name in res && d.name != GPU_RESOURCE && d.count == res[d.name]
  {
    assert d == GenericDevice(d.name, d.count);
  }

  method OtherDevices(resources: seq<map<string, int>>) returns (devices: seq<GenericDevice>)
    ensures multiset(devices) == Declared(resources)
    ensures SortedBy(NameLe, devices)
  {
    hide DeclaredIn;
    devices := [];
    for i := 0 to |resources|
      invariant multiset(devices) == Declared(resources[..i])
    {
      assert resources[..i + 1][..i] == resources[..i];
      var more := DevicesIn(resources[i]);
      devices := devices + more;
    }
    assert resources[..|resources|] == resources;
    NameLeTotal();
    devices := InsertionSort(devices, NameLe);
  }

  /** The path without a profile: the overrides are read directly. */
  function FromOverrides(overrides: Option<Value>): (string, int, int)
    requires overrides.Some? ==> overrides.value.Map?
  {
    if overrides.None? then ("", 0, 0)
    else
      var o := overrides.value.m;
      var count := DeviceCount(o);
      if "device_defaults" in o && o["device_defaults"].Map? then
        var dd := o["device_defaults"].m;
        var product := if "name" in dd && dd["name"].Text? then dd["name"].s else "";
        if "memory" in dd && dd["memory"].Map? && "total_bytes" in dd["memory"].m then
          var memory := match dd["memory"].m["total_bytes"]
                        case Int(n) => Quotient(n, MIB)
                        case Int64(n) => Quotient(n, MIB)
                        case Float(r) => Truncate(r / (MIB as real))
                        case _ => 0;
          (product, memory, count)
        else (product, 0, count)
      else ("", 0, count)
  }

  /** loaded is the pool's profile as read from the cluster, None when that fails. */
  method ResolveNodePool(pool: PoolConfig, loaded: Option<Value>) returns (r: Option<ResolvedPool>)
    requires pool.overrides.Some? ==> pool.overrides.value.Map?
    requires loaded.Some? ==> loaded.value.Map?
    ensures r.None? <==> pool.profile != "" && loaded.None?
    ensures r.Some? ==> IsResolved(pool, loaded, r.value)
  {
    var others := OtherDevices(pool.resources);
    if pool.profile != "" {
      if loaded.None? {
        return None;
      }
      var merged := Merge(loaded.value, if pool.overrides.Some? then pool.overrides.value else Map(map[]));
      var spec := Extract(merged);
      return Some(ResolvedPool(spec.product, spec.memory, spec.count, spec.driverVersion, spec.cudaVersion, others));
    }
    var (product, memory, count) := FromOverrides(pool.overrides);
    return Some(ResolvedPool(product, memory, count, "", "", others));
  }

  ghost predicate IsResolved(pool: PoolConfig, loaded: Option<Value>, r: ResolvedPool)
    requires pool.overrides.Some? ==> pool.overrides.value.Map?
    requires loaded.Some? ==> loaded.value.Map?
  {
    && multiset(r.otherDevices) == Declared(pool.resources)
    && SortedBy(NameLe, r.otherDevices)
    && (pool.profile == "" ==>
          (r.product, r.memory, r.count) == FromOverrides(pool.overrides) && r.driverVersion == r.cudaVersion == "")
    && (pool.profile != "" ==> loaded.Some? && FollowsProfile(pool, loaded.value, r))
  }

  /** Product, memory, count and versions are those of the profile with the overrides merged in. */
  ghost predicate FollowsProfile(pool: PoolConfig, base: Value, r: ResolvedPool)
    requires base.Map? && (pool.overrides.Some? ==> pool.overrides.value.Map?)
  {
    var spec := Extract(Overlay(base, if pool.overrides.Some? then pool.overrides.value else Map(map[])));
    && r.product == spec.product && r.memory == spec.memory && r.count == spec.count
    && r.driverVersion == spec.driverVersion && r.cudaVersion == spec.cudaVersion
  }

  /** Resource map i declares this device, and it is not the GPUs. */
  predicate DeclaredAt(resources: seq<map<string, int>>, d: GenericDevice, i: nat) {
    i < |resources| && d.name != "nvidia.com/gpu" && d.name in resources[i] && resources[i][d.name] == d.count
  }

  lemma {:induction false} DeclaredTimes(resources: seq<map<string, int>>, d: GenericDevice)
    ensures Declared(resources)[d] == |set i: nat | i < |resources| && DeclaredAt(resources, d, i)|
  {
    if |resources| > 0 {
      var n := |resources| - 1;
      var front := resources[..n];
      DeclaredTimes(front, d);
      DeclaredMember(resources[n], d);
      var before := set i: nat | i < |front| && DeclaredAt(front, d, i);
      var all := set i: nat | i < |resources| && DeclaredAt(resources, d, i);
      forall i: nat | i < n ensures DeclaredAt(front, d, i) <==> DeclaredAt(resources, d, i) { }
      assert all == if DeclaredAt(resources, d, n) then before + {n} else before;
    }
  }

  /** The other devices of a resolved pool, as often as they are declared, in ascending order of their names. */
  lemma OtherDevicesAre(pool: PoolConfig, loaded: Option<Value>, r: ResolvedPool)
    requires pool.overrides.Some? ==> pool.overrides.value.Map?
    requires loaded.Some? ==> loaded.value.Map?
    requires IsResolved(pool, loaded, r)
    ensures forall d :: multiset(r.otherDevices)[d]
                        == |set i: nat | i < |pool.resources| && DeclaredAt(pool.resources, d, i)|
    ensures forall i, j :: 0 <= i < j < |r.otherDevices| ==> StringLe(r.otherDevices[i].name, r.otherDevices[j].name)
  {
    forall d ensures Declared(pool.resources)[d]
                     == |set i: nat | i < |pool.resources| && DeclaredAt(pool.resources, d, i)| {
      DeclaredTimes(pool.resources, d);
    }
    hide Declared, DeclaredAt, FromOverrides, FollowsProfile, StringLe;
    forall i, j | 0 <= i < j < |r.otherDevices| ensures StringLe(r.otherDevices[i].name, r.otherDevices[j].name) {
      assert NameLe(r.otherDevices[i], r.otherDevices[j]);
    }
  }

  /** Every field of a resolved pool is what the profile in force has at its path. */
  lemma ResolvedReads(pool: PoolConfig, loaded: Option<Value>, r: ResolvedPool, profile: Value)
    requires pool.overrides.Some? ==> pool.overrides.value.Map?
    requires loaded.Some? ==> loaded.value.Map?
    requires IsResolved(pool, loaded, r)
    requires pool.profile == "" ==> pool.overrides == Some(profile)
    requires pool.profile != "" ==> loaded.Some?
    requires pool.profile != "" ==>
      profile == Overlay(loaded.value, if pool.overrides.Some? then pool.overrides.value else Map(map[]))
    ensures ReadsText(profile, ["device_defaults", "name"], r.product)
    ensures ReadsNumber(profile, ["device_defaults", "memory", "total_bytes"], 1048576.0, r.memory)
    ensures ReadsCount(profile, r.count)
    ensures pool.profile == "" ==> r.driverVersion == "" && r.cudaVersion == ""
    ensures pool.profile != "" ==> ReadsText(profile, ["system", "driver_version"], r.driverVersion)
                                   && ReadsText(profile, ["system", "cuda_version"], r.cudaVersion)
  {
    assert profile.Map?;
    ExtractReads(profile);
    ReadersAgree(profile);
    hide Extract, FromOverrides, ReadsText, ReadsNumber, ReadsCount, Overlay;
  }

  // ----- Meaning is preserved -----

  /** The two readers of an overrides map agree on product, memory and count. */
  lemma ReadersAgree(overrides: Value)
    requires overrides.Map?
    ensures var spec := Extract(overrides);
            FromOverrides(Some(overrides)) == (spec.product, spec.memory, spec.count)
  {
  }

  /** The legacy devices other than GPUs. */
  function NotGpus(devices: seq<GenericDevice>): seq<GenericDevice> {
    if |devices| == 0 then []
    else
      var last := devices[|devices| - 1];
      NotGpus(devices[..|devices| - 1]) + if last.name == GPU_RESOURCE then [] else [last]
  }

  lemma {:induction false} NotGpusAre(devices: seq<GenericDevice>, d: GenericDevice)
    ensures multiset(NotGpus(devices))[d] == if d.name == "nvidia.com/gpu" then 0 else multiset(devices)[d]
  {
    if |devices| > 0 {
      var n := |devices| - 1;
      NotGpusAre(devices[..n], d);
      assert devices == devices[..n] + [devices[n]];
    }
  }

  lemma {:induction false} DeclaredByLegacy(devices: seq<GenericDevice>, resources: seq<map<string, int>>)
    requires |resources| == |devices|
    requires forall i :: 0 <= i < |devices| ==> resources[i] == map[devices[i].name := devices[i].count]
    ensures Declared(resources) == multiset(NotGpus(devices))
  {
    if |devices| > 0 {
      var n := |devices| - 1;
      DeclaredByLegacy(devices[..n], resources[..n]);
      DeclaredOne(devices[n]);
      hide DeclaredIn;
    }
  }

  lemma DeclaredOne(d: GenericDevice)
    ensures DeclaredIn(map[d.name := d.count]) == if d.name == GPU_RESOURCE then {} else {d}
  {
    forall g ensures g in DeclaredIn(map[d.name := d.count]) <==> g == d && d.name != GPU_RESOURCE {
      DeclaredMember(map[d.name := d.count], g);
    }
  }

  /** Round trip: a legacy pool resolves to its own product, memory, count and other devices, sorted by name. */
  lemma LegacyRoundTrip(legacy: LegacyPool, config: PoolConfig, loaded: Option<Value>, r: ResolvedPool)
    requires config.profile == "" && config.overrides == Some(LegacyOverrides(legacy))
    requires |config.resources| == |legacy.otherDevices|
    requires forall i :: 0 <= i < |legacy.otherDevices| ==>
      config.resources[i] == map[legacy.otherDevices[i].name := legacy.otherDevices[i].count]
    requires loaded.Some? ==> loaded.value.Map?
    requires IsResolved(config, loaded, r)
    ensures r.product == legacy.gpuProduct && r.memory == legacy.gpuMemory && r.count == legacy.gpuCount
    ensures multiset(r.otherDevices) == multiset(NotGpus(legacy.otherDevices)) && SortedBy(NameLe, r.otherDevices)
    ensures forall d :: multiset(r.otherDevices)[d]
                        == if d.name == "nvidia.com/gpu" then 0 else multiset(legacy.otherDevices)[d]
  {
    LegacyFields(legacy, config, loaded, r);
    DeclaredByLegacy(legacy.otherDevices, config.resources);
    hide IsResolved, NotGpus, LegacyOverrides;
    forall d ensures multiset(NotGpus(legacy.otherDevices))[d]
                     == if d.name == "nvidia.com/gpu" then 0 else multiset(legacy.otherDevices)[d] {
      NotGpusAre(legacy.otherDevices, d);
    }
  }

  lemma LegacyFields(legacy: LegacyPool, config: PoolConfig, loaded: Option<Value>, r: ResolvedPool)
    requires config.profile == "" && config.overrides == Some(LegacyOverrides(legacy))
    requires loaded.Some? ==> loaded.value.Map?
    requires IsResolved(config, loaded, r)
    ensures r.product == legacy.gpuProduct && r.memory == legacy.gpuMemory && r.count == legacy.gpuCount
    ensures multiset(r.otherDevices) == Declared(config.resources) && SortedBy(NameLe, r.otherDevices)
  {
    var o := LegacyOverrides(legacy).m;
    assert |o["devices"].items| == legacy.gpuCount;
    assert DeviceCount(o) == legacy.gpuCount;
    BytesRoundTrip(legacy.gpuMemory);
  }

  lemma BytesRoundTrip(mib: int)
    ensures Quotient(mib * 1024 * 1024, MIB) == mib
  {
  }
}
