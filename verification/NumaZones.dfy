/**
 The per-node NUMA layout: how many GPUs, which cpu ids and how much memory each zone holds.
 Quantities are whole numbers: millicores for cpu, bytes for memory.
 */
module NumaZones {
  import opened Sequences

  datatype Result<+T> = Ok(value: T) | Err(error: LayoutError)
  datatype LayoutError = BadZones | BadZoneCount | BadGpuSum | BadCpu | BadMemory

  /** A quantity override in the pool configuration, after parsing. */
  datatype Override = Unset | Malformed | Given(amount: nat)

  datatype Distances = Distances(self: int, remote: int)

  datatype NumaConfig = NumaConfig(
    zones: int, gpusPerZone: seq<nat>, cpuPerZone: Override, memPerZone: Override,
    policy: string, scope: string, distances: Option<Distances>)

  datatype Allocatable = Allocatable(milliCpu: nat, memory: nat)

  datatype ZoneLayout = ZoneLayout(
    zones: nat, gpusPerZone: seq<nat>, cpuPerZone: Option<nat>, memPerZone: Option<nat>,
    cpuIds: seq<seq<nat>>)

  // ----- GPUs over zones -----

  /** As even as possible, the larger zones first. */
  ghost predicate EvenSplit(s: seq<nat>, total: nat) {
    && Sum(s) == total
    && forall i, j :: 0 <= i < j < |s| ==> s[j] <= s[i] <= s[j] + 1
  }

  predicate BadDistribution(gpuCount: nat, zones: int, explicit: seq<nat>) {
    zones < 1 || (|explicit| > 0 && (|explicit| != zones || Sum(explicit) != gpuCount))
  }

  method DistributeGPUs(gpuCount: nat, zones: int, explicit: seq<nat>) returns (r: Result<seq<nat>>)
    ensures r.Err? <==> BadDistribution(gpuCount, zones, explicit)
    ensures r.Ok? ==> |r.value| == zones && Sum(r.value) == gpuCount
    ensures r.Ok? ==> if |explicit| > 0 then r.value == explicit else EvenSplit(r.value, gpuCount)
  {
    if zones < 1 {
      return Err(BadZones);
    }
    if |explicit| > 0 {
      if |explicit| != zones {
        return Err(BadZoneCount);
      }
      var sum := 0;
      for i := 0 to |explicit|
        invariant sum == Sum(explicit[..i])
      {
        SumTake(explicit, i);
        sum := sum + explicit[i];
      }
      assert explicit[..|explicit|] == explicit;
      return if sum != gpuCount then Err(BadGpuSum) else Ok(explicit);
    }
    var base, remainder := gpuCount / zones, gpuCount % zones;
    var out: seq<nat> := seq(zones, _ => 0);
    for z := 0 to zones
      invariant |out| == zones
      invariant forall k :: 0 <= k < z ==> out[k] == base + if k < remainder then 1 else 0
    {
      out := out[z := base];
      if z < remainder {
        out := out[z := out[z] + 1];
      }
    }
    SumOfBase(out, base, remainder);
    r := Ok(out);
  }

  lemma {:induction false} SumOfBase(s: seq<nat>, base: nat, extra: nat)
    requires forall k :: 0 <= k < |s| ==> s[k] == base + if k < extra then 1 else 0
    ensures Sum(s) == base * |s| + if |s| < extra then |s| else extra
  {
    if |s| > 0 {
      SumOfBase(s[..|s| - 1], base, extra);
      assert base * |s| == base * (|s| - 1) + base;
    }
  }

  /** There is only one even split of a count over a number of zones. */
  lemma EvenSplitUnique(a: seq<nat>, b: seq<nat>, total: nat)
    requires |a| == |b| && EvenSplit(a, total) && EvenSplit(b, total)
    ensures a == b
  {
    if j :| 0 <= j < |a| && b[j] < a[j] {
      forall i | 0 <= i < |a| ensures b[i] <= a[i] {
        assert i < j || i == j || j < i;
      }
      SumMonotone(b, a);
    } else {
      SumMonotone(a, b);
    }
  }

  /** GPUs in the zones before z. */
  function Before(gpusPerZone: seq<nat>, z: nat): int
    requires z <= |gpusPerZone|
  {
    Sum(gpusPerZone[..z])
  }

  /** Each zone takes the next block of GPU indices. */
  ghost predicate ZoneBlocks(gpusPerZone: seq<nat>, idxToZone: seq<nat>) {
    && |idxToZone| == Sum(gpusPerZone)
    && forall i :: 0 <= i < |idxToZone| ==>
         idxToZone[i] < |gpusPerZone| && Before(gpusPerZone, idxToZone[i]) <= i < Before(gpusPerZone, idxToZone[i] + 1)
  }

  lemma BeforeMonotone(g: seq<nat>, x: nat, y: nat)
    requires x <= y <= |g|
    ensures 0 <= Before(g, x) <= Before(g, y) <= Sum(g)
    ensures x < |g| ==> Before(g, x + 1) == Before(g, x) + g[x]
    decreases |g| - x
  {
    if x < |g| { SumTake(g, x); }
    hide Sum;
    SumNonNegative(g[..x]);
    if x < y {
      BeforeMonotone(g, x + 1, y);
    } else {
      RestNonNegative(g, x);
    }
  }

  lemma RestNonNegative(g: seq<nat>, x: nat)
    requires x <= |g|
    ensures Sum(g[..x]) <= Sum(g)
  {
    assert g == g[..x] + g[x..];
    SumAppend(g[..x], g[x..]);
    SumNonNegative(g[x..]);
  }

  method GPUIndexToZone(gpusPerZone: seq<nat>) returns (out: seq<nat>)
    ensures ZoneBlocks(gpusPerZone, out)
  {
    var total := 0;
    for z := 0 to |gpusPerZone|
      invariant total == Before(gpusPerZone, z)
    {
      SumTake(gpusPerZone, z);
      total := total + gpusPerZone[z];
    }
    assert gpusPerZone[..|gpusPerZone|] == gpusPerZone;
    BeforeMonotone(gpusPerZone, 0, |gpusPerZone|);
    out := seq(total, _ => 0);
    var idx := 0;
    for zone := 0 to |gpusPerZone|
      invariant idx == Before(gpusPerZone, zone)
      invariant |out| == total
      invariant forall k :: 0 <= k < idx <= total ==>
        out[k] < |gpusPerZone| && Before(gpusPerZone, out[k]) <= k < Before(gpusPerZone, out[k] + 1)
    {
      BeforeMonotone(gpusPerZone, zone, zone);
      BeforeMonotone(gpusPerZone, zone + 1, |gpusPerZone|);
      for i := 0 to gpusPerZone[zone]
        invariant idx == Before(gpusPerZone, zone) + i
        invariant |out| == total
        invariant forall k :: 0 <= k < idx ==>
          out[k] < |gpusPerZone| && Before(gpusPerZone, out[k]) <= k < Before(gpusPerZone, out[k] + 1)
      {
        out := out[idx := zone];
        idx := idx + 1;
      }
    }
  }

  /** Zones never decrease along the GPU indices, and an index lies in zone z iff it is in z's block. */
  lemma ZoneBlocksShape(g: seq<nat>, idxToZone: seq<nat>, i: nat, j: nat, z: nat)
    requires ZoneBlocks(g, idxToZone) && i <= j < |idxToZone| && z < |g|
    ensures idxToZone[i] <= idxToZone[j]
    ensures idxToZone[j] == z <==> Before(g, z) <= j < Before(g, z + 1)
  {
    if idxToZone[i] > idxToZone[j] {
      BeforeMonotone(g, idxToZone[j] + 1, idxToZone[i]);
    }
    if z < idxToZone[j] {
      BeforeMonotone(g, z + 1, idxToZone[j]);
    } else if z > idxToZone[j] {
      BeforeMonotone(g, idxToZone[j] + 1, z);
    }
  }

  /** The blocks leave no choice. */
  lemma ZoneBlocksUnique(g: seq<nat>, a: seq<nat>, b: seq<nat>)
    requires ZoneBlocks(g, a) && ZoneBlocks(g, b)
    ensures a == b
  {
    forall i | 0 <= i < |a| ensures a[i] == b[i] {
      ZoneBlocksShape(g, a, i, i, b[i]);
    }
  }

  function Count(s: seq<nat>, z: nat): nat {
    if |s| == 0 then 0 else Count(s[..|s| - 1], z) + if s[|s| - 1] == z then 1 else 0
  }

  /** Zone z receives exactly its number of GPUs. */
  lemma ZoneCount(g: seq<nat>, idxToZone: seq<nat>, z: nat)
    requires ZoneBlocks(g, idxToZone) && z < |g|
    ensures Count(idxToZone, z) == g[z]
  {
    BeforeMonotone(g, z, z);
    BeforeMonotone(g, z + 1, |g|);
    ZoneCountPrefix(g, idxToZone, z, |idxToZone|);
    assert idxToZone[..|idxToZone|] == idxToZone;
  }

  lemma {:induction false} ZoneCountPrefix(g: seq<nat>, idxToZone: seq<nat>, z: nat, n: nat)
    requires ZoneBlocks(g, idxToZone) && z < |g| && n <= |idxToZone|
    requires Before(g, z + 1) == Before(g, z) + g[z]
    ensures Count(idxToZone[..n], z)
            == if n <= Before(g, z) then 0 else if n < Before(g, z + 1) then n - Before(g, z) else g[z]
  {
    if n > 0 {
      ZoneCountPrefix(g, idxToZone, z, n - 1);
      assert idxToZone[..n][..n - 1] == idxToZone[..n - 1];
      ZoneBlocksShape(g, idxToZone, n - 1, n - 1, z);
    } else {
      BeforeMonotone(g, z, z);
    }
  }

  // ----- cpu and memory per zone -----

  /** The override if there is one, else an equal share of the node, else nothing. */
  function PerZone(o: Override, available: nat, zones: nat, bad: LayoutError): Result<Option<nat>>
    requires zones > 0
  {
    match o
    case Malformed => Err(bad)
    case Given(q) => Ok(Some(q))
    case Unset => if available == 0 then Ok(None) else Ok(Some(available / zones))
  }

  /** Whole cores of a per-zone cpu quantity, halves up. */
  function Cores(cpu: Option<nat>): nat {
    match cpu case None => 0 case Some(milli) => (milli + 500) / 1000
  }

  function Flatten(ss: seq<seq<nat>>): seq<nat> {
    if |ss| == 0 then [] else Flatten(ss[..|ss| - 1]) + ss[|ss| - 1]
  }

  function UpTo(n: nat): seq<nat> { seq(n, k => k) }

  /** The zones' cpu id lists, read one after the other, count from 0; every zone has the same number. */
  ghost predicate ContiguousCpus(l: ZoneLayout) {
    && |l.cpuIds| == l.zones
    && (forall z :: 0 <= z < l.zones ==> |l.cpuIds[z]| == Cores(l.cpuPerZone))
    && Flatten(l.cpuIds) == UpTo(l.zones * Cores(l.cpuPerZone))
  }

  /** What the three consumers of a layout rely on. */
  ghost predicate IsLayoutFor(numa: NumaConfig, gpuCount: nat, node: Allocatable, l: ZoneLayout)
    requires numa.zones >= 1
  {
    && l.zones == numa.zones == |l.gpusPerZone|
    && Sum(l.gpusPerZone) == gpuCount
    && (if |numa.gpusPerZone| > 0 then l.gpusPerZone == numa.gpusPerZone else EvenSplit(l.gpusPerZone, gpuCount))
    && Ok(l.cpuPerZone) == PerZone(numa.cpuPerZone, node.milliCpu, numa.zones, BadCpu)
    && Ok(l.memPerZone) == PerZone(numa.memPerZone, node.memory, numa.zones, BadMemory)
    && ContiguousCpus(l)
  }

  method ResolveZoneLayout(numa: NumaConfig, gpuCount: nat, node: Allocatable) returns (r: Result<Option<ZoneLayout>>)
    ensures numa.zones < 1 ==> r == Ok(None)
    ensures numa.zones >= 1 ==>
      (r.Err? <==> BadDistribution(gpuCount, numa.zones, numa.gpusPerZone)
                   || numa.cpuPerZone.Malformed? || numa.memPerZone.Malformed?)
    ensures numa.zones >= 1 && r.Ok? ==> r.value.Some? && IsLayoutFor(numa, gpuCount, node, r.value.value)
  {
    if numa.zones < 1 {
      return Ok(None);
    }
    var gpus := DistributeGPUs(gpuCount, numa.zones, numa.gpusPerZone);
    if gpus.Err? {
      return Err(gpus.error);
    }
    var cpu := PerZone(numa.cpuPerZone, node.milliCpu, numa.zones, BadCpu);
    if cpu.Err? {
      return Err(cpu.error);
    }
    var mem := PerZone(numa.memPerZone, node.memory, numa.zones, BadMemory);
    if mem.Err? {
      return Err(mem.error);
    }
    var cpuIds := CpuIdsPerZone(numa.zones, Cores(cpu.value));
    r := Ok(Some(ZoneLayout(numa.zones, gpus.value, cpu.value, mem.value, cpuIds)));
  }

  /** Consecutive ids, the same number for each zone. */
  method CpuIdsPerZone(zones: nat, cores: nat) returns (cpuIds: seq<seq<nat>>)
    ensures |cpuIds| == zones && forall z :: 0 <= z < zones ==> |cpuIds[z]| == cores
    ensures Flatten(cpuIds) == UpTo(zones * cores)
  {
    cpuIds := [];
    var offset := 0;
    for z := 0 to zones
      invariant |cpuIds| == z
      invariant offset == z * cores
      invariant forall k :: 0 <= k < z ==> |cpuIds[k]| == cores
      invariant Flatten(cpuIds) == UpTo(offset)
    {
      var ids: seq<nat> := [];
      for i := 0 to cores
        invariant ids == seq(i, k requires 0 <= k => offset + k)
      {
        ids := ids + [offset + i];
      }
      assert (cpuIds + [ids])[..z] == cpuIds;
      cpuIds := cpuIds + [ids];
      offset := offset + cores;
      assert (z + 1) * cores == z * cores + cores;
    }
  }

  /** A per-zone amount: the override if given; else nothing for a node without any, or the node's divided evenly. */
  predicate Divides(o: Override, available: nat, zones: nat, amount: Option<nat>) {
    && !o.Malformed?
    && (o.Given? ==> amount == Some(o.amount))
    && (o.Unset? ==>
          && (amount.None? <==> available == 0)
          && (amount.Some? ==> zones * amount.value <= available < zones * amount.value + zones))
  }

  /** Every zone of a layout offers the same cpu, memory and number of cpu ids, the cpu rounded to whole cores. */
  lemma LayoutAmounts(numa: NumaConfig, gpuCount: nat, node: Allocatable, l: ZoneLayout)
    requires numa.zones >= 1 && IsLayoutFor(numa, gpuCount, node, l)
    ensures Divides(numa.cpuPerZone, node.milliCpu, numa.zones, l.cpuPerZone)
    ensures Divides(numa.memPerZone, node.memory, numa.zones, l.memPerZone)
    ensures forall z :: 0 <= z < l.zones ==>
      if l.cpuPerZone.None? then l.cpuIds[z] == []
      else 1000 * |l.cpuIds[z]| - 500 <= l.cpuPerZone.value < 1000 * |l.cpuIds[z]| + 500
  {
    hide Flatten;
    DivMod(node.milliCpu, numa.zones);
    DivMod(node.memory, numa.zones);
  }

  lemma DivMod(n: nat, d: nat)
    requires d > 0
    ensures d * (n / d) <= n < d * (n / d) + d
    ensures n == 0 ==> n / d == 0
  {
  }

  /** Different zones, and different positions in a zone, hold different cpu ids. */
  lemma CpuIdsDistinct(l: ZoneLayout, z: nat, i: nat)
    requires ContiguousCpus(l) && z < l.zones && i < |l.cpuIds[z]|
    ensures l.cpuIds[z][i] == z * Cores(l.cpuPerZone) + i
  {
    var cores := Cores(l.cpuPerZone);
    FlattenAt(l.cpuIds, cores, z, i);
  }

  lemma {:induction false} FlattenAt(ss: seq<seq<nat>>, n: nat, z: nat, i: nat)
    requires forall k :: 0 <= k < |ss| ==> |ss[k]| == n
    requires z < |ss| && i < n
    ensures |Flatten(ss)| == |ss| * n
    ensures 0 <= z * n + i < |ss| * n
    ensures Flatten(ss)[z * n + i] == ss[z][i]
  {
    var m := |ss| - 1;
    assert |ss| * n == m * n + n;
    if z < m {
      FlattenAt(ss[..m], n, z, i);
    } else {
      FlattenLength(ss[..m], n);
    }
  }

  lemma {:induction false} FlattenLength(ss: seq<seq<nat>>, n: nat)
    requires forall k :: 0 <= k < |ss| ==> |ss[k]| == n
    ensures |Flatten(ss)| == |ss| * n
  {
    if |ss| > 0 {
      FlattenLength(ss[..|ss| - 1], n);
      assert |ss| * n == (|ss| - 1) * n + n;
    }
  }
}
