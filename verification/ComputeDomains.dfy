/**
 The compute-domain DRA plugin's claim checkpoint.  Every durable write is a step of its own, and a
 call may stop after any number of its writes, because the process dies or because a write fails.
 */
module ComputeDomains {
  import opened Sequences

  const DRIVER := "compute-domain.nvidia.com"

  datatype Error = NoDeviceClass | NoDomainID | NoDevices
  datatype Result<+T> = Ok(value: T) | Err(error: Error)

  /** The container edits of a device depend on its domain only. */
  datatype Device = Device(pool: string, name: string, cdiIds: seq<string>, domain: string)

  datatype Params = Params(domainID: Option<string>, allocationMode: Option<string>)
  /** params is None when the raw parameters are not a JSON object. */
  datatype OpaqueConfig = OpaqueConfig(driver: string, params: Option<Params>)
  datatype ResourceClaim = ResourceClaim(
    uid: string, namespace: string,
    requests: seq<Option<string>>,       // device class of the requests of the "exactly" kind
    configs: seq<Option<OpaqueConfig>>)

  datatype DomainInfo = DomainInfo(domainID: string, claims: seq<string>)

  datatype Checkpoint = Checkpoint(prepared: map<string, seq<Device>>, domains: map<string, DomainInfo>)

  /** specs holds the CDI spec file of each claim that has one. */
  datatype Disk = Disk(checkpoint: Checkpoint, specs: map<string, seq<Device>>)

  const EMPTY := Disk(Checkpoint(map[], map[]), map[])

  datatype Write =
    | WriteSpec(uid: string, devices: seq<Device>)
    | WriteCheckpoint(checkpoint: Checkpoint)
    | RemoveSpec(uid: string)

  function Apply(d: Disk, w: Write): Disk {
    match w
    case WriteSpec(uid, devices) => d.(specs := d.specs[uid := devices])
    case WriteCheckpoint(cp) => d.(checkpoint := cp)
    case RemoveSpec(uid) => d.(specs := d.specs - {uid})
  }

  /** The disk after the first k writes. */
  function After(d: Disk, ws: seq<Write>, k: nat): Disk
    requires k <= |ws|
  {
    if k == 0 then d else Apply(After(d, ws, k - 1), ws[k - 1])
  }

  lemma AfterShort(d: Disk, ws: seq<Write>)
    ensures After(d, ws, 0) == d
    ensures |ws| >= 1 ==> After(d, ws, 1) == Apply(d, ws[0])
    ensures |ws| >= 2 ==> After(d, ws, 2) == Apply(Apply(d, ws[0]), ws[1])
  {
    if |ws| >= 2 {
      assert After(d, ws, 1) == Apply(After(d, ws, 0), ws[0]);
    }
  }

  // ----- Reading a claim -----

  /** Class name of the first "exactly" request, or "". */
  function DeviceClassName(requests: seq<Option<string>>): string {
    if |requests| == 0 then ""
    else match requests[0] case Some(name) => name case None => DeviceClassName(requests[1..])
  }

  predicate ForDriver(config: Option<OpaqueConfig>) {
    config.Some? && config.value.driver == DRIVER && config.value.params.Some?
  }

  /** Parameters of the first readable configuration for this driver. */
  function DriverParams(configs: seq<Option<OpaqueConfig>>): Params {
    if |configs| == 0 then Params(None, None)
    else if ForDriver(configs[0]) then configs[0].value.params.value
    else DriverParams(configs[1..])
  }

  function DomainOf(claim: ResourceClaim): string {
    match DriverParams(claim.configs).domainID case Some(id) => id case None => ""
  }

  predicate AllChannels(claim: ResourceClaim) {
    DriverParams(claim.configs).allocationMode == Some("All")
  }

  function CdiId(uid: string, device: string): string {
    "k8s." + DRIVER + "/computedomain=" + uid + "-" + device
  }

  function NewDevice(claim: ResourceClaim, name: string): Device {
    Device(claim.namespace, name, [CdiId(claim.uid, name)], DomainOf(claim))
  }

  /** order is the order in which this call happens to visit the map of channels. */
  function NewDevices(claim: ResourceClaim, order: seq<string>): seq<Device> {
    if AllChannels(claim)
    then seq(|order|, i requires 0 <= i < |order| => NewDevice(claim, order[i]))
    else [NewDevice(claim, "channel-0")]
  }

  /** The devices with their CDI ids (re)computed for the claim. */
  function WithIds(uid: string, devices: seq<Device>): seq<Device> {
    seq(|devices|, i requires 0 <= i < |devices| => devices[i].(cdiIds := [CdiId(uid, devices[i].name)]))
  }

  // ----- The domain table -----

  function Join(domains: map<string, DomainInfo>, id: string, uid: string): map<string, DomainInfo> {
    domains[id := DomainInfo(if id in domains then domains[id].domainID else id,
                             if id in domains then domains[id].claims + [uid] else [uid])]
  }

  /** The list without the first occurrence of uid. */
  function Without(claims: seq<string>, uid: string): seq<string> {
    if |claims| == 0 then []
    else if claims[0] == uid then claims[1..]
    else [claims[0]] + Without(claims[1..], uid)
  }

  predicate Emptied(info: DomainInfo, uid: string) { info.claims == [uid] }

  function Leave(domains: map<string, DomainInfo>, uid: string): map<string, DomainInfo> {
    map d | d in domains && !Emptied(domains[d], uid) :: domains[d].(claims := Without(domains[d].claims, uid))
  }

  // ----- The two calls as lists of durable writes -----

  datatype Plan = Failed(error: Error) | Planned(devices: seq<Device>, writes: seq<Write>)

  function PreparePlan(d: Disk, claim: ResourceClaim, order: seq<string>): Plan {
    var cp, uid := d.checkpoint, claim.uid;
    if uid in cp.prepared then
      if cp.prepared[uid] == [] then Failed(NoDevices)
      else
        var devices := WithIds(uid, cp.prepared[uid]);
        Planned(devices, [WriteSpec(uid, devices)])
    else if DeviceClassName(claim.requests) == "" then Failed(NoDeviceClass)
    else if DomainOf(claim) == "" then Failed(NoDomainID)
    else
      var devices := NewDevices(claim, order);
      if devices == [] then Failed(NoDevices)
      else
        var cp' := Checkpoint(cp.prepared[uid := devices], Join(cp.domains, DomainOf(claim), uid));
        Planned(devices, [WriteSpec(uid, devices), WriteCheckpoint(cp')])
  }

  function UnpreparePlan(d: Disk, uid: string): seq<Write> {
    var cp := d.checkpoint;
    if uid !in cp.prepared then []
    else [WriteCheckpoint(Checkpoint(cp.prepared - {uid}, Leave(cp.domains, uid))), RemoveSpec(uid)]
  }

  ghost predicate IsOrder(order: seq<string>, channels: set<string>) {
    && (forall i, j :: 0 <= i < j < |order| ==> order[i] != order[j])
    && (forall c :: c in order <==> c in channels)
  }

  // ----- The plugin -----

  method ReadDeviceClass(claim: ResourceClaim) returns (name: string)
    ensures name == DeviceClassName(claim.requests)
  {
    assert claim.requests[0..] == claim.requests;
    for i := 0 to |claim.requests|
      invariant DeviceClassName(claim.requests[i..]) == DeviceClassName(claim.requests)
    {
      if claim.requests[i].Some? {
        return claim.requests[i].value;
      }
      assert claim.requests[i..][1..] == claim.requests[i + 1..];
    }
    return "";
  }

  method ReadParams(claim: ResourceClaim) returns (domainID: string, all: bool)
    ensures domainID == DomainOf(claim) && all == AllChannels(claim)
  {
    domainID, all := "", false;
    assert claim.configs[0..] == claim.configs;
    for i := 0 to |claim.configs|
      invariant DriverParams(claim.configs[i..]) == DriverParams(claim.configs)
      invariant domainID == "" && !all
    {
      var config := claim.configs[i];
      if config.Some? && config.value.driver == DRIVER {
        if config.value.params.Some? {
          var params := config.value.params.value;
          if params.domainID.Some? { domainID := params.domainID.value; }
          if params.allocationMode.Some? { all := params.allocationMode.value == "All"; }
          return;
        }
      }
      assert claim.configs[i..][1..] == claim.configs[i + 1..];
    }
  }

  class ComputeDomainState {
    var disk: Disk
    const channels: set<string>
    ghost var journal: seq<Disk>   // the disk after each durable write

    constructor (channels: set<string>)
      ensures disk == EMPTY && this.channels == channels && journal == []
    {
      this.channels := channels;
      disk, journal := EMPTY, [];
    }

    /** One durable write. */
    method Commit(w: Write)
      modifies this
      ensures disk == Apply(old(disk), w) && journal == old(journal) + [disk]
    {
      match w {
        case WriteSpec(uid, devices) => disk := disk.(specs := disk.specs[uid := devices]);
        case WriteCheckpoint(cp) => disk := disk.(checkpoint := cp);
        case RemoveSpec(uid) => disk := disk.(specs := disk.specs - {uid});
      }
      journal := journal + [disk];
    }

    /** Recomputes the CDI ids and writes the claim's spec file. */
    method EnsureClaimArtifacts(uid: string, devices: seq<Device>) returns (r: Result<seq<Device>>)
      modifies this
      ensures devices == [] ==> r == Err(NoDevices) && disk == old(disk) && journal == old(journal)
      ensures devices != [] ==>
        && r == Ok(WithIds(uid, devices))
        && disk == Apply(old(disk), WriteSpec(uid, WithIds(uid, devices)))
        && journal == old(journal) + [disk]
    {
      if |devices| == 0 {
        return Err(NoDevices);
      }
      var out := devices;
      for i := 0 to |devices|
        invariant |out| == |devices|
        invariant forall j :: 0 <= j < i ==> out[j] == devices[j].(cdiIds := [CdiId(uid, devices[j].name)])
        invariant forall j :: i <= j < |out| ==> out[j] == devices[j]
      {
        out := out[i := out[i].(cdiIds := [CdiId(uid, out[i].name)])];
      }
      assert out == WithIds(uid, devices);
      Commit(WriteSpec(uid, out));
      return Ok(out);
    }

    method Prepare(claim: ResourceClaim) returns (r: Result<seq<Device>>, ghost order: seq<string>)
      modifies this
      ensures IsOrder(order, channels)
      ensures match PreparePlan(old(disk), claim, order)
              case Failed(e) => r == Err(e) && disk == old(disk) && journal == old(journal)
              case Planned(devices, ws) => r == Ok(devices) && Performed(old(disk), ws, old(journal))
    {
      var prepared, domains := disk.checkpoint.prepared, disk.checkpoint.domains;
      var names := VisitChannels();
      order := names;
      ghost var plan := PreparePlan(disk, claim, order);
      if plan.Planned? { AfterShort(disk, plan.writes); }
      if claim.uid in prepared {
        r := EnsureClaimArtifacts(claim.uid, prepared[claim.uid]);
        return;
      }
      var class' := ReadDeviceClass(claim);
      if class' == "" {
        return Err(NoDeviceClass), order;
      }
      var domainID, all := ReadParams(claim);
      if domainID == "" {
        return Err(NoDomainID), order;
      }
      if domainID in domains {
        domains := domains[domainID := domains[domainID].(claims := domains[domainID].claims + [claim.uid])];
      } else {
        domains := domains[domainID := DomainInfo(domainID, [claim.uid])];
      }
      var devices: seq<Device> := [];
      if all {
        for i := 0 to |names|
          invariant devices == seq(i, j requires 0 <= j < i <= |names| =>
            Device(claim.namespace, names[j], [], domainID))
        {
          devices := devices + [Device(claim.namespace, names[i], [], domainID)];
        }
      } else {
        devices := [Device(claim.namespace, "channel-0", [], domainID)];
      }
      assert WithIds(claim.uid, devices) == NewDevices(claim, order);
      ghost var before := disk;
      r := EnsureClaimArtifacts(claim.uid, devices);
      if r.Err? {
        return;
      }
      prepared := prepared[claim.uid := r.value];
      Commit(WriteCheckpoint(Checkpoint(prepared, domains)));
      assert domains == Join(before.checkpoint.domains, domainID, claim.uid);
    }

    /** The names of the channels, in whatever order the map yields them. */
    method VisitChannels() returns (names: seq<string>)
      ensures IsOrder(names, channels)
    {
      names := [];
      var left := channels;
      while left != {}
        invariant left <= channels
        invariant IsOrder(names, channels - left)
      {
        var name :| name in left;
        left := left - {name};
        names := names + [name];
      }
    }

    method Unprepare(uid: string)
      modifies this
      ensures Performed(old(disk), UnpreparePlan(old(disk), uid), old(journal))
    {
      var prepared, domains := disk.checkpoint.prepared, disk.checkpoint.domains;
      if uid !in prepared {
        return;
      }
      AfterShort(disk, UnpreparePlan(disk, uid));
      domains := LeaveDomains(domains, uid);
      Commit(WriteCheckpoint(Checkpoint(prepared - {uid}, domains)));
      Commit(RemoveSpec(uid));
    }

    /** The disk went through exactly these writes. */
    ghost predicate Performed(from: Disk, ws: seq<Write>, journalBefore: seq<Disk>)
      reads this
    {
      && disk == After(from, ws, |ws|)
      && journal == journalBefore + seq(|ws|, i requires 0 <= i < |ws| => After(from, ws, i + 1))
    }
  }

  method RemoveFirst(claims: seq<string>, uid: string) returns (found: bool, rest: seq<string>)
    ensures found <==> uid in claims
    ensures rest == Without(claims, uid) && (!found ==> rest == claims)
  {
    for i := 0 to |claims|
      invariant uid !in claims[..i]
    {
      if claims[i] == uid {
        WithoutAt(claims, uid, i);
        return true, claims[..i] + claims[i + 1..];
      }
    }
    WithoutAbsent(claims, uid);
    return false, claims;
  }

  lemma {:induction false} WithoutAt(claims: seq<string>, uid: string, i: nat)
    requires i < |claims| && claims[i] == uid && uid !in claims[..i]
    ensures Without(claims, uid) == claims[..i] + claims[i + 1..]
  {
    if i > 0 {
      assert claims[0] == claims[..i][0];
      assert claims[1..][..i - 1] == claims[..i][1..];
      WithoutAt(claims[1..], uid, i - 1);
    }
  }

  lemma {:induction false} WithoutAbsent(claims: seq<string>, uid: string)
    requires uid !in claims
    ensures Without(claims, uid) == claims
  {
    if |claims| > 0 { WithoutAbsent(claims[1..], uid); }
  }

  /** Takes a claim out of every domain, in any order, dropping a domain that becomes empty. */
  method LeaveDomains(before: map<string, DomainInfo>, uid: string) returns (domains: map<string, DomainInfo>)
    ensures domains == Leave(before, uid)
  {
    domains := before;
    var left := before.Keys;
    while left != {}
      invariant left <= before.Keys
      invariant forall d :: d in domains <==> d in before && (d in left || !Emptied(before[d], uid))
      invariant forall d :: d in domains ==>
        domains[d] == if d in left then before[d] else before[d].(claims := Without(before[d].claims, uid))
    {
      var d :| d in left;
      left := left - {d};
      var found, rest := RemoveFirst(domains[d].claims, uid);
      EmptiedIff(before[d], uid);
      if found {
        domains := domains[d := domains[d].(claims := rest)];
        if |rest| == 0 {
          domains := domains - {d};
        }
      }
    }
  }

  lemma EmptiedIff(info: DomainInfo, uid: string)
    ensures Emptied(info, uid) <==> uid in info.claims && |Without(info.claims, uid)| == 0
  {
    if uid in info.claims && |info.claims| > 0 {
      if info.claims[0] == uid {
        assert |info.claims| == 1 ==> info.claims == [uid];
      }
    }
  }
}
