/** The NodeResourceTopology published for a node, built from the same layout as the podresources list. */
module NodeResourceTopologies {
  import opened Sequences
  import opened NumaZones
  import opened Decimals
  import PodResources
  import PodResourcesLaws

  datatype Cost = Cost(name: string, value: int)
  datatype Zone = Zone(name: string, costs: seq<Cost>, gpus: nat, cpu: Option<nat>, memory: Option<nat>)
  datatype Topology = Topology(node: string, policy: string, scope: string, legacyPolicy: string, zones: seq<Zone>)

  function ZoneName(z: nat): string { "node-" + Decimal(z) }

  lemma ZoneNamesDistinct(y: nat, z: nat)
    requires ZoneName(y) == ZoneName(z)
    ensures y == z
  {
    assert ZoneName(y)[|"node-"|..] == Decimal(y);
    assert ZoneName(z)[|"node-"|..] == Decimal(z);
    ParseDecimal(y);
    ParseDecimal(z);
  }

  function LegacyPolicy(policy: string, scope: string): string {
    var level := if scope == "pod" then "PodLevel" else "ContainerLevel";
    if policy == "single-numa-node" then "SingleNUMANode" + level
    else if policy == "restricted" then "Restricted" + level
    else if policy == "best-effort" then "BestEffort" + level
    else "None"
  }

  function DistancesOf(numa: NumaConfig): Distances {
    match numa.distances case Some(d) => d case None => Distances(10, 21)
  }

  /** Zone z of the published topology: its own share of the layout, and a distance to every zone. */
  ghost predicate DescribesZone(zone: Zone, z: nat, layout: ZoneLayout, d: Distances)
    requires z < |layout.gpusPerZone|
  {
    && zone.name == ZoneName(z)
    && zone.gpus == layout.gpusPerZone[z] && zone.cpu == layout.cpuPerZone && zone.memory == layout.memPerZone
    && |zone.costs| == layout.zones
    && forall o :: 0 <= o < layout.zones ==> zone.costs[o] == Cost(ZoneName(o), if o == z then d.self else d.remote)
  }

  ghost predicate Describes(t: Topology, layout: ZoneLayout, d: Distances) {
    && |t.zones| == layout.zones == |layout.gpusPerZone|
    && forall z :: 0 <= z < layout.zones ==> DescribesZone(t.zones[z], z, layout, d)
  }

  method BuildNRT(node: string, numa: NumaConfig, gpuCount: nat, allocatable: Allocatable)
    returns (r: Result<Option<Topology>>, ghost layout: ZoneLayout)
    ensures numa.zones < 1 ==> r == Ok(None)
    ensures numa.zones >= 1 ==>
      (r.Err? <==> BadDistribution(gpuCount, numa.zones, numa.gpusPerZone)
                   || numa.cpuPerZone.Malformed? || numa.memPerZone.Malformed?)
    ensures numa.zones >= 1 && r.Ok? ==>
      && r.value.Some?
      && IsLayoutFor(numa, gpuCount, allocatable, layout)
      && Describes(r.value.value, layout, DistancesOf(numa))
      && r.value.value.node == node
      && r.value.value.policy == (if numa.policy == "" then "single-numa-node" else numa.policy)
      && r.value.value.scope == (if numa.scope == "" then "container" else numa.scope)
      && r.value.value.legacyPolicy == LegacyPolicy(r.value.value.policy, r.value.value.scope)
  {
    layout := ZoneLayout(0, [], None, None, []);
    var resolved := ResolveZoneLayout(numa, gpuCount, allocatable);
    if resolved.Err? {
      return Err(resolved.error), layout;
    }
    if resolved.value.None? {
      return Ok(None), layout;
    }
    var l := resolved.value.value;
    layout := l;
    var policy := if numa.policy == "" then "single-numa-node" else numa.policy;
    var scope := if numa.scope == "" then "container" else numa.scope;
    var d := DistancesOf(numa);
    var zones: seq<Zone> := [];
    for z := 0 to l.zones
      invariant |zones| == z
      invariant forall k :: 0 <= k < z ==> DescribesZone(zones[k], k, l, d)
    {
      var costs: seq<Cost> := [];
      for o := 0 to l.zones
        invariant |costs| == o
        invariant forall k :: 0 <= k < o ==> costs[k] == Cost(ZoneName(k), if k == z then d.self else d.remote)
      {
        costs := costs + [Cost(ZoneName(o), if o == z then d.self else d.remote)];
      }
      zones := zones + [Zone(ZoneName(z), costs, l.gpusPerZone[z], l.cpuPerZone, l.memPerZone)];
    }
    r := Ok(Some(Topology(node, policy, scope, LegacyPolicy(policy, scope), zones)));
  }

  function Capacity(zones: seq<Zone>): nat {
    if |zones| == 0 then 0 else Capacity(zones[..|zones| - 1]) + zones[|zones| - 1].gpus
  }

  lemma {:induction false} CapacityIsSum(zones: seq<Zone>, gpus: seq<nat>)
    requires |zones| == |gpus| && forall z :: 0 <= z < |zones| ==> zones[z].gpus == gpus[z]
    ensures Capacity(zones) == Sum(gpus)
  {
    if |zones| > 0 { CapacityIsSum(zones[..|zones| - 1], gpus[..|gpus| - 1]); }
  }

  /** The zones together offer exactly the node's GPUs, and distances are symmetric. */
  lemma TopologyTotals(t: Topology, numa: NumaConfig, gpuCount: nat, allocatable: Allocatable, layout: ZoneLayout)
    requires numa.zones >= 1 && IsLayoutFor(numa, gpuCount, allocatable, layout)
            && Describes(t, layout, DistancesOf(numa))
    ensures Capacity(t.zones) == gpuCount
    ensures forall y, z :: 0 <= y < |t.zones| && 0 <= z < |t.zones| ==>
      |t.zones[y].costs| == |t.zones[z].costs| == |t.zones|
      && t.zones[y].costs[z].value == t.zones[z].costs[y].value
      && t.zones[y].costs[z].name == t.zones[z].name
  {
    CapacityIsSum(t.zones, layout.gpusPerZone);
  }

  /** The deprecated policy name that belongs to a policy and a scope. */
  lemma LegacyPolicyIs(policy: string, scope: string)
    ensures var level := if scope == "pod" then "PodLevel" else "ContainerLevel";
      && (policy == "single-numa-node" ==> LegacyPolicy(policy, scope) == "SingleNUMANode" + level)
      && (policy == "restricted" ==> LegacyPolicy(policy, scope) == "Restricted" + level)
      && (policy == "best-effort" ==> LegacyPolicy(policy, scope) == "BestEffort" + level)
      && (policy !in {"single-numa-node", "restricted", "best-effort"} ==> LegacyPolicy(policy, scope) == "None")
  {
  }

  /** Zone by zone, from the pool's configuration alone; distances default to 10 within and 21 between zones. */
  lemma PublishedZones(t: Topology, numa: NumaConfig, gpuCount: nat, allocatable: Allocatable, layout: ZoneLayout)
    requires numa.zones >= 1 && IsLayoutFor(numa, gpuCount, allocatable, layout)
    requires Describes(t, layout, DistancesOf(numa))
    ensures |t.zones| == numa.zones
    ensures |numa.gpusPerZone| == 0 ==>
      forall y, z :: 0 <= y < z < |t.zones| ==> t.zones[z].gpus <= t.zones[y].gpus <= t.zones[z].gpus + 1
    ensures forall z :: 0 <= z < |t.zones| ==>
      && t.zones[z].name == "node-" + Decimal(z)
      && (|numa.gpusPerZone| > 0 ==> t.zones[z].gpus == numa.gpusPerZone[z])
      && Divides(numa.cpuPerZone, allocatable.milliCpu, numa.zones, t.zones[z].cpu)
      && Divides(numa.memPerZone, allocatable.memory, numa.zones, t.zones[z].memory)
      && |t.zones[z].costs| == |t.zones|
      && forall o :: 0 <= o < |t.zones| ==>
           && t.zones[z].costs[o].name == "node-" + Decimal(o)
           && (numa.distances.None? ==> t.zones[z].costs[o].value == if o == z then 10 else 21)
           && (numa.distances.Some? ==>
                 t.zones[z].costs[o].value == if o == z then numa.distances.value.self else numa.distances.value.remote)
  {
    LayoutAmounts(numa, gpuCount, allocatable, layout);
    hide Decimal, ContiguousCpus, Divides, PerZone;
  }

  /**
   The two exports agree: over one layout, the devices that the podresources list charges to a zone
   never exceed the GPU capacity the topology publishes for it.
   */
  lemma ChargedWithinPublishedCapacity(t: Topology, d: Distances, out: seq<PodResources.PodEntry>,
                                       gpus: seq<PodResources.Gpu>, layout: ZoneLayout, zoneOf: seq<nat>,
                                       reqs: map<string, PodResources.PodRequest>, zone: nat)
    requires Describes(t, layout, d) && zone < |t.zones|
    requires PodResources.IsResponse(out, gpus, layout, zoneOf, reqs) && ZoneBlocks(layout.gpusPerZone, zoneOf)
    ensures PodResourcesLaws.ZoneLoad(out, zone) <= t.zones[zone].gpus
  {
    hide PodResources.IsResponse, ZoneBlocks, PodResourcesLaws.ZoneLoad;
    PodResourcesLaws.ZoneCapacityRespected(out, gpus, layout, zoneOf, reqs, zone);
  }
}
