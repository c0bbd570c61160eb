/**
 What preparing a claim answers, told from the claim, the channels of the node and the disk alone: which
 devices are prepared, how they are named, and what is written.
 */
module ComputeDomainAnswers {
  import opened ComputeDomainLaws
  import opened ComputeDomains
  import opened Sequences

  // ----- What the claim says -----

  /** Configuration k is for this driver and its parameters can be read. */
  predicate ReadableAt(claim: ResourceClaim, k: nat) {
    && k < |claim.configs| && claim.configs[k].Some?
    && claim.configs[k].value.driver == "compute-domain.nvidia.com" && claim.configs[k].value.params.Some?
  }

  /** params are those of the first readable configuration, or none at all. */
  ghost predicate Says(claim: ResourceClaim, params: Params) {
    || (exists k: nat :: FirstReadable(claim, k) && params == claim.configs[k].value.params.value)
    || ((forall k: nat :: !ReadableAt(claim, k)) && params == Params(None, None))
  }

  predicate FirstReadable(claim: ResourceClaim, k: nat) {
    ReadableAt(claim, k) && forall j :: 0 <= j < k ==> !ReadableAt(claim, j)
  }

  /** The first request of the "exactly" kind names a device class. */
  predicate NamesClass(claim: ResourceClaim) {
    exists m :: 0 <= m < |claim.requests| && FirstExact(claim.requests, m) && claim.requests[m] != Some("")
  }

  predicate FirstExact(requests: seq<Option<string>>, m: nat) {
    m < |requests| && requests[m].Some? && forall j :: 0 <= j < m ==> requests[j].None?
  }

  predicate NamesDomain(params: Params) { params.domainID.Some? && params.domainID.value != "" }

  lemma {:induction false} ClassIs(requests: seq<Option<string>>)
    ensures DeviceClassName(requests) != "" <==>
      exists m :: 0 <= m < |requests| && FirstExact(requests, m) && requests[m] != Some("")
  {
    if |requests| > 0 && requests[0].None? {
      ClassIs(requests[1..]);
      if m :| 0 <= m < |requests[1..]| && FirstExact(requests[1..], m) && requests[1..][m] != Some("") {
        assert FirstExact(requests, m + 1) && requests[m + 1] != Some("");
      }
      if m :| 0 <= m < |requests| && FirstExact(requests, m) && requests[m] != Some("") {
        assert FirstExact(requests[1..], m - 1) && requests[1..][m - 1] != Some("");
      }
    } else if |requests| > 0 {
      assert FirstExact(requests, 0);
      assert forall m :: FirstExact(requests, m) ==> m == 0;
    }
  }

  lemma {:induction false} ParamsAfter(configs: seq<Option<OpaqueConfig>>, k: nat)
    requires k <= |configs| && forall j :: 0 <= j < k ==> !ForDriver(configs[j])
    ensures DriverParams(configs) == DriverParams(configs[k..])
  {
    if k > 0 {
      ParamsAfter(configs[1..], k - 1);
      assert configs[1..][k - 1..] == configs[k..];
    } else {
      assert configs[0..] == configs;
    }
  }

  lemma ParamsAre(claim: ResourceClaim, params: Params)
    requires Says(claim, params)
    ensures DriverParams(claim.configs) == params
  {
    assert forall k :: 0 <= k < |claim.configs| ==> (ForDriver(claim.configs[k]) <==> ReadableAt(claim, k));
    if k: nat :| FirstReadable(claim, k) && params == claim.configs[k].value.params.value {
      ParamsAfter(claim.configs, k);
      assert claim.configs[k..][0] == claim.configs[k];
    } else {
      ParamsAfter(claim.configs, |claim.configs|);
    }
  }

  // ----- What is prepared -----

  function Channel(claim: ResourceClaim, params: Params, name: string): Device
    requires params.domainID.Some?
  {
    var id := "k8s." + "compute-domain.nvidia.com" + "/computedomain=" + claim.uid + "-" + name;
    Device(claim.namespace, name, [id], params.domainID.value)
  }

  /** With allocation mode All every channel of the node, each once; otherwise channel 0 alone. */
  ghost predicate PreparesChannels(devices: seq<Device>, claim: ResourceClaim, params: Params, channels: set<string>)
    requires params.domainID.Some?
  {
    if params.allocationMode == Some("All") then
      && (forall i, j :: 0 <= i < j < |devices| ==> devices[i].name != devices[j].name)
      && (forall name :: name in channels ==> Channel(claim, params, name) in devices)
      && (forall d :: d in devices ==> d.name in channels && d == Channel(claim, params, d.name))
    else
      devices == [Channel(claim, params, "channel-0")]
  }

  /** The claim is recorded with its devices in both places, and added last to its domain only. */
  predicate Recorded(d: Disk, e: Disk, uid: string, domain: string, devices: seq<Device>) {
    && e.specs == d.specs[uid := devices]
    && e.checkpoint.prepared == d.checkpoint.prepared[uid := devices]
    && e.checkpoint.domains.Keys == d.checkpoint.domains.Keys + {domain}
    && (forall id :: id in d.checkpoint.domains && id != domain ==>
          e.checkpoint.domains[id] == d.checkpoint.domains[id])
    && e.checkpoint.domains[domain] ==
         (if domain in d.checkpoint.domains
          then DomainInfo(d.checkpoint.domains[domain].domainID, d.checkpoint.domains[domain].claims + [uid])
          else DomainInfo(domain, [uid]))
  }

  /**
   Preparing a claim that is not prepared yet fails iff it names no device class, names no domain, or wants
   all channels of a node that has none, in this order.  Otherwise its devices are these channels.
   */
  lemma PrepareAnswer(d: Disk, claim: ResourceClaim, order: seq<string>, channels: set<string>, params: Params)
    requires claim.uid !in d.checkpoint.prepared && IsOrder(order, channels) && Says(claim, params)
    ensures var plan := PreparePlan(d, claim, order);
      && (plan == Failed(NoDeviceClass) <==> !NamesClass(claim))
      && (plan == Failed(NoDomainID) <==> NamesClass(claim) && !NamesDomain(params))
      && (plan == Failed(NoDevices) <==>
            NamesClass(claim) && NamesDomain(params) && params.allocationMode == Some("All") && channels == {})
      && (plan.Planned? ==>
            && NamesDomain(params)
            && PreparesChannels(plan.devices, claim, params, channels)
            && Recorded(d, PrepareEnd(d, claim, order), claim.uid, params.domainID.value, plan.devices))
  {
    ClassIs(claim.requests);
    ParamsAre(claim, params);
    hide DeviceClassName, DriverParams, Says;
    assert order == [] <==> channels == {} by {
      if channels != {} { var c :| c in channels; assert c in order; }
      if order != [] { assert order[0] in channels; }
    }
    var plan := PreparePlan(d, claim, order);
    if plan.Planned? {
      AfterShort(d, plan.writes);
      ChannelsAre(claim, order, channels, params);
    }
  }

  lemma ChannelsAre(claim: ResourceClaim, order: seq<string>, channels: set<string>, params: Params)
    requires IsOrder(order, channels) && DriverParams(claim.configs) == params && NamesDomain(params)
    ensures PreparesChannels(NewDevices(claim, order), claim, params, channels)
  {
    hide DriverParams;
    var devices := NewDevices(claim, order);
    if params.allocationMode == Some("All") {
      assert forall i :: 0 <= i < |order| ==> devices[i] == Channel(claim, params, order[i]);
      forall name | name in channels ensures Channel(claim, params, name) in devices {
        var i :| 0 <= i < |order| && order[i] == name;
        assert devices[i] in devices;
      }
    }
  }

  /** A claim that is prepared already keeps its devices, with their ids made anew, and gets its spec file rewritten. */
  lemma PreparedAnswer(d: Disk, claim: ResourceClaim, order: seq<string>)
    requires claim.uid in d.checkpoint.prepared
    ensures var (devices, plan) := (d.checkpoint.prepared[claim.uid], PreparePlan(d, claim, order));
      && (plan.Failed? <==> devices == [])
      && (plan.Failed? ==> plan == Failed(NoDevices))
      && (plan.Planned? ==>
            && Renewed(devices, plan.devices, claim.uid)
            && PrepareEnd(d, claim, order) == Disk(d.checkpoint, d.specs[claim.uid := plan.devices]))
  {
    var plan := PreparePlan(d, claim, order);
    if plan.Planned? {
      AfterShort(d, plan.writes);
    }
  }

  predicate Renewed(before: seq<Device>, after: seq<Device>, uid: string) {
    && |after| == |before|
    && forall i :: 0 <= i < |after| ==>
         && after[i].pool == before[i].pool && after[i].name == before[i].name && after[i].domain == before[i].domain
         && after[i].cdiIds == ["k8s." + "compute-domain.nvidia.com" + "/computedomain=" + uid + "-" + before[i].name]
  }

  /**
   Unpreparing a claim takes it out of the prepared claims, its spec file away and its name off every domain;
   a domain goes iff the claim was its only one.  Nothing happens to a claim that is not prepared.
   */
  lemma UnprepareAnswer(d: Disk, uid: string)
    requires Durable(d)
    ensures uid !in d.checkpoint.prepared ==> UnprepareEnd(d, uid) == d
    ensures uid in d.checkpoint.prepared ==>
      var e := UnprepareEnd(d, uid);
      && e.specs == d.specs - {uid} && e.checkpoint.prepared == d.checkpoint.prepared - {uid}
      && (forall id :: id in e.checkpoint.domains <==>
            id in d.checkpoint.domains && d.checkpoint.domains[id].claims != [uid])
      && (forall id :: id in e.checkpoint.domains ==>
            && e.checkpoint.domains[id].domainID == d.checkpoint.domains[id].domainID
            && forall u :: u in e.checkpoint.domains[id].claims <==> u in d.checkpoint.domains[id].claims && u != uid)
  {
    AfterShort(d, UnpreparePlan(d, uid));
    if uid in d.checkpoint.prepared {
      forall id | id in d.checkpoint.domains
        ensures forall u :: u in Without(d.checkpoint.domains[id].claims, uid)
                            <==> u in d.checkpoint.domains[id].claims && u != uid
      {
        WithoutMembers(d.checkpoint.domains[id].claims, uid);
      }
      hide Without, NoDuplicates, OneDomainEach, InSomeDomain;
    }
  }
}
