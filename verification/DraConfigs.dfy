/**
 Preparation of a claim's devices by the GPU DRA plugin: each allocation result is prepared with the
 last configuration that applies to its request.
 */
module DraConfigs {
  import opened Sequences

  const DRIVER := "gpu.nvidia.com"

  /** A sharing block; None stands for a block whose settings the configuration library refuses to give. */
  datatype Sharing =
    | NoSharing
    | TimeSlicing(interval: Option<string>)
    | SpacePartitioning(count: Option<string>)

  /** A decoded configuration object: not a GPU config, one that fails validation, or one usable as normalized. */
  datatype Config = Unrecognized | Rejected | Usable(sharing: Sharing)

  /** An opaque configuration of the claim; decoded is None when its parameters cannot be decoded. */
  datatype OpaqueConfig = OpaqueConfig(driver: string, requests: seq<string>, decoded: Option<Config>)

  datatype DeviceConfig = DeviceConfig(requests: seq<string>, config: Config)
  datatype Allocation = Allocation(request: string, pool: string, device: string)
  datatype Prepared = Prepared(request: string, pool: string, device: string, cdiId: string, edits: Option<seq<string>>)

  // ----- Which configuration applies -----

  predicate AppliesTo(c: DeviceConfig, request: string) { c.requests == [] || request in c.requests }

  /** The configurations in order of precedence, lowest first: the default, then those for this driver. */
  function ForDriver(configs: seq<Option<OpaqueConfig>>): seq<OpaqueConfig> {
    if |configs| == 0 then []
    else
      var last := configs[|configs| - 1];
      ForDriver(configs[..|configs| - 1]) + if last.Some? && last.value.driver == DRIVER then [last.value] else []
  }

  ghost predicate Decoded(opaques: seq<OpaqueConfig>, configs: seq<DeviceConfig>) {
    && |configs| == |opaques|
    && forall i :: 0 <= i < |configs| ==>
         opaques[i].decoded.Some? && configs[i] == DeviceConfig(opaques[i].requests, opaques[i].decoded.value)
  }

  /** i is the last configuration that applies. */
  predicate LastMatch(configs: seq<DeviceConfig>, request: string, i: nat) {
    i < |configs| && AppliesTo(configs[i], request) && forall j :: i < j < |configs| ==> !AppliesTo(configs[j], request)
  }

  function Match(configs: seq<DeviceConfig>, request: string): (i: nat)
    requires |configs| > 0 && configs[0].requests == []
    ensures LastMatch(configs, request, i)
  {
    if AppliesTo(configs[|configs| - 1], request) then |configs| - 1 else Match(configs[..|configs| - 1], request)
  }

  // ----- Edits -----

  function Sanitize(name: string): string {
    seq(|name|, i requires 0 <= i < |name| => if name[i] == '-' then '_' else name[i])
  }

  /** Environment entries a usable configuration gives a device; None when its sharing block is incomplete. */
  function EditsFor(sharing: Sharing, device: string): Option<seq<string>> {
    var id := "GPU_DEVICE_" + Sanitize(device);
    var plain := [id + "=" + device];
    match sharing
    case NoSharing => Some(plain)
    case TimeSlicing(None) => None
    case TimeSlicing(Some(t)) => Some(plain + [id + "_SHARING_STRATEGY=TimeSlicing", id + "_TIMESLICE_INTERVAL=" + t])
    case SpacePartitioning(None) => None
    case SpacePartitioning(Some(n)) =>
      Some(plain + [id + "_SHARING_STRATEGY=SpacePartitioning", id + "_PARTITION_COUNT=" + n])
  }

  function Edits(c: Config, device: string): Option<seq<string>> {
    match c case Usable(sharing) => EditsFor(sharing, device) case _ => None
  }

  function CdiId(uid: string, device: string): string { uid + "-" + device }

  function PreparedFor(uid: string, r: Allocation, edits: Option<seq<string>>): Prepared {
    Prepared(r.request, r.pool, r.device, CdiId(uid, r.device), edits)
  }

  // ----- Groups of results by configuration -----

  ghost predicate WellFormed(configs: seq<DeviceConfig>) { |configs| > 0 && configs[0].requests == [] }

  /** The results whose configuration is one of these, in their order. */
  ghost function Under(configs: seq<DeviceConfig>, results: seq<Allocation>, which: set<nat>): seq<Allocation>
    requires WellFormed(configs)
  {
    if |results| == 0 then []
    else
      var r := results[|results| - 1];
      Under(configs, results[..|results| - 1], which) + if Match(configs, r.request) in which then [r] else []
  }

  lemma {:induction false} UnderMore(configs: seq<DeviceConfig>, results: seq<Allocation>, which: set<nat>, i: nat)
    requires WellFormed(configs) && i !in which
    ensures multiset(Under(configs, results, which + {i}))
         == multiset(Under(configs, results, which)) + multiset(Under(configs, results, {i}))
  {
    if |results| > 0 {
      UnderMore(configs, results[..|results| - 1], which, i);
    }
  }

  lemma {:induction false} UnderAll(configs: seq<DeviceConfig>, results: seq<Allocation>, which: set<nat>)
    requires WellFormed(configs)
    requires forall k :: 0 <= k < |results| ==> Match(configs, results[k].request) in which
    ensures Under(configs, results, which) == results
  {
    if |results| > 0 {
      UnderAll(configs, results[..|results| - 1], which);
    }
  }

  lemma {:induction false} UnderMembers(configs: seq<DeviceConfig>, results: seq<Allocation>, which: set<nat>)
    requires WellFormed(configs)
    ensures forall r :: r in Under(configs, results, which) <==> r in results && Match(configs, r.request) in which
  {
    if |results| > 0 {
      var n := |results| - 1;
      UnderMembers(configs, results[..n], which);
      assert results == results[..n] + [results[n]];
    }
  }

  ghost predicate Used(configs: seq<DeviceConfig>, results: seq<Allocation>, i: nat)
    requires WellFormed(configs)
  {
    exists k :: 0 <= k < |results| && Match(configs, results[k].request) == i
  }

  ghost predicate Grouped(groups: map<nat, seq<Allocation>>, configs: seq<DeviceConfig>, results: seq<Allocation>) {
    && WellFormed(configs)
    && (forall i :: i in groups <==> Used(configs, results, i))
    && (forall i :: i in groups ==> groups[i] == Under(configs, results, {i}))
  }

  // ----- What a successful preparation returns -----

  function WantedEdits(configs: seq<DeviceConfig>, r: Allocation): Option<seq<string>>
    requires |configs| > 0 && configs[0].requests == []
  {
    Edits(configs[Match(configs, r.request)].config, r.device)
  }

  function Wanted(uid: string, configs: seq<DeviceConfig>, results: seq<Allocation>): seq<Prepared>
    requires |configs| > 0 && configs[0].requests == []
  {
    seq(|results|, k requires 0 <= k < |results| => PreparedFor(uid, results[k], WantedEdits(configs, results[k])))
  }

  /** Results for one device never call for different edits; so when no device occurs twice. */
  ghost predicate EditsAgree(configs: seq<DeviceConfig>, results: seq<Allocation>)
    requires WellFormed(configs)
  {
    forall q, r :: q in results && r in results && q.device == r.device ==>
          WantedEdits(configs, q) == WantedEdits(configs, r)
  }

  lemma DistinctDevicesAgree(configs: seq<DeviceConfig>, results: seq<Allocation>)
    requires WellFormed(configs)
    requires forall i, j :: 0 <= i < j < |results| ==> results[i].device != results[j].device
    ensures EditsAgree(configs, results)
  {
  }

  /** A result that cannot be prepared, or whose own configuration cannot be used. */
  predicate Bad(configs: seq<DeviceConfig>, allocatable: set<string>, r: Allocation)
    requires |configs| > 0 && configs[0].requests == []
  {
    r.device !in allocatable || WantedEdits(configs, r).None?
  }

  datatype Outcome = Failure | Success(devices: seq<Prepared>)

  // ----- The code -----

  /** All configurations for this driver, or None when one of them cannot be decoded. */
  method OpaqueDeviceConfigs(configs: seq<Option<OpaqueConfig>>) returns (r: Option<seq<DeviceConfig>>)
    ensures r.None? <==> exists c :: c in ForDriver(configs) && c.decoded.None?
    ensures r.Some? ==> Decoded(ForDriver(configs), r.value)
  {
    var out: seq<DeviceConfig> := [];
    for i := 0 to |configs|
      invariant Decoded(ForDriver(configs[..i]), out)
    {
      assert configs[..i + 1][..i] == configs[..i];
      var c := configs[i];
      if c.None? || c.value.driver != DRIVER {
        continue;
      }
      if c.value.decoded.None? {
        assert c.value in ForDriver(configs[..i + 1]);
        ForDriverGrows(configs, i + 1);
        return None;
      }
      out := out + [DeviceConfig(c.value.requests, c.value.decoded.value)];
    }
    assert configs[..|configs|] == configs;
    r := Some(out);
  }

  lemma {:induction false} ForDriverGrows(configs: seq<Option<OpaqueConfig>>, i: nat)
    requires i <= |configs|
    ensures ForDriver(configs[..i]) <= ForDriver(configs)
    decreases |configs| - i
  {
    if i == |configs| {
      assert configs[..i] == configs;
    } else {
      assert configs[..i + 1][..i] == configs[..i];
      ForDriverGrows(configs, i + 1);
    }
  }

  method FindConfig(configs: seq<DeviceConfig>, request: string) returns (i: nat)
    requires |configs| > 0 && configs[0].requests == []
    ensures i == Match(configs, request)
  {
    i := |configs| - 1;
    while !(|configs[i].requests| == 0 || request in configs[i].requests)
      invariant 0 <= i < |configs|
      invariant forall j :: i < j < |configs| ==> !AppliesTo(configs[j], request)
      decreases i
    {
      i := i - 1;
    }
    assert LastMatch(configs, request, i) && LastMatch(configs, request, Match(configs, request));
  }

  method GroupResults(configs: seq<DeviceConfig>, results: seq<Allocation>, allocatable: set<string>)
    returns (ok: bool, groups: map<nat, seq<Allocation>>)
    requires WellFormed(configs)
    ensures ok <==> forall r :: r in results ==> r.device in allocatable
    ensures ok ==> Grouped(groups, configs, results)
  {
    groups := map[];
    for k := 0 to |results|
      invariant forall r :: r in results[..k] ==> r.device in allocatable
      invariant Grouped(groups, configs, results[..k])
    {
      var r := results[k];
      if r.device !in allocatable {
        return false, groups;
      }
      var i := FindConfig(configs, r.request);
      assert results[..k + 1] == results[..k] + [r];
      GroupMore(groups, configs, results[..k], r, i);
      groups := groups[i := (if i in groups then groups[i] else []) + [r]];
    }
    assert results[..|results|] == results;
    ok := true;
  }

  lemma GroupMore(groups: map<nat, seq<Allocation>>, configs: seq<DeviceConfig>, results: seq<Allocation>,
                  r: Allocation, i: nat)
    requires Grouped(groups, configs, results) && i == Match(configs, r.request)
    ensures Grouped(groups[i := (if i in groups then groups[i] else []) + [r]], configs, results + [r])
  {
    hide Used, Under, Match;
    var after := groups[i := (if i in groups then groups[i] else []) + [r]];
    UsedMore(configs, results, r);
    forall j | j in after ensures after[j] == Under(configs, results + [r], {j}) {
      UnderOneMore(configs, results, r, {j});
      if j !in groups {
        UnusedIsEmpty(configs, results, j);
      }
    }
  }

  lemma UsedMore(configs: seq<DeviceConfig>, results: seq<Allocation>, r: Allocation)
    requires WellFormed(configs)
    ensures forall j: nat ::
      Used(configs, results + [r], j) <==> j == Match(configs, r.request) || Used(configs, results, j)
  {
    var more := results + [r];
    assert more[|results|] == r;
    forall j: nat | Used(configs, results, j) ensures Used(configs, more, j) {
      var k :| 0 <= k < |results| && Match(configs, results[k].request) == j;
      assert Match(configs, more[k].request) == j;
    }
  }

  lemma UnderOneMore(configs: seq<DeviceConfig>, results: seq<Allocation>, r: Allocation, which: set<nat>)
    requires WellFormed(configs)
    ensures Under(configs, results + [r], which)
            == Under(configs, results, which) + if Match(configs, r.request) in which then [r] else []
  {
    assert (results + [r])[..|results|] == results;
  }

  lemma {:induction false} UnusedIsEmpty(configs: seq<DeviceConfig>, results: seq<Allocation>, i: nat)
    requires WellFormed(configs) && !Used(configs, results, i)
    ensures Under(configs, results, {i}) == []
  {
    if |results| > 0 {
      var n := |results| - 1;
      assert Match(configs, results[n].request) != i;
      assert !Used(configs, results[..n], i) by {
        forall k | 0 <= k < n ensures Match(configs, results[..n][k].request) != i {
          assert results[..n][k] == results[k];
        }
      }
      UnusedIsEmpty(configs, results[..n], i);
    }
  }

  /** Edits one configuration gives the devices of its results. */
  method ApplyConfig(config: Config, group: seq<Allocation>) returns (ok: bool, edits: map<string, seq<string>>)
    ensures ok <==> forall r :: r in group ==> Edits(config, r.device).Some?
    ensures ok ==> forall d :: d in edits <==> exists k :: 0 <= k < |group| && group[k].device == d
    ensures ok ==> forall d :: d in edits ==> Edits(config, d) == Some(edits[d])
  {
    edits := map[];
    for k := 0 to |group|
      invariant forall r :: r in group[..k] ==> Edits(config, r.device).Some?
      invariant forall d :: d in edits <==> exists m :: 0 <= m < k && group[m].device == d
      invariant forall d :: d in edits ==> Edits(config, d) == Some(edits[d])
    {
      assert group[k] in group;
      assert group[..k + 1] == group[..k] + [group[k]];
      var e := Edits(config, group[k].device);
      if e.None? {
        return false, edits;
      }
      edits := edits[group[k].device := e.value];
    }
    assert group[..|group|] == group;
    ok := true;
  }

  /** The table of edits after some of the configurations were applied. */
  ghost predicate EditsOf(perDevice: map<string, seq<string>>, configs: seq<DeviceConfig>, results: seq<Allocation>,
                          done: set<nat>)
    requires WellFormed(configs)
  {
    && (forall r :: r in results && Match(configs, r.request) in done ==>
          WantedEdits(configs, r).Some? && r.device in perDevice)
    && (EditsAgree(configs, results) ==>
          forall r :: r in results && r.device in perDevice ==> Some(perDevice[r.device]) == WantedEdits(configs, r))
  }

  lemma MoreEdits(perDevice: map<string, seq<string>>, configs: seq<DeviceConfig>, results: seq<Allocation>,
                  done: set<nat>, i: nat, group: seq<Allocation>, edits: map<string, seq<string>>)
    requires WellFormed(configs) && EditsOf(perDevice, configs, results, done)
    requires i < |configs| && forall r :: r in group <==> r in results && Match(configs, r.request) == i
    requires forall r :: r in group ==> Edits(configs[i].config, r.device).Some?
    requires forall d :: d in edits <==> exists k :: 0 <= k < |group| && group[k].device == d
    requires forall d :: d in edits ==> Edits(configs[i].config, d) == Some(edits[d])
    ensures EditsOf(perDevice + edits, configs, results, done + {i})
  {
  }

  /** Edits of every device, computed configuration by configuration in any order. */
  method ApplyConfigs(configs: seq<DeviceConfig>, groups: map<nat, seq<Allocation>>, ghost results: seq<Allocation>)
    returns (ok: bool, perDevice: map<string, seq<string>>)
    requires Grouped(groups, configs, results)
    ensures ok <==> forall r :: r in results ==> WantedEdits(configs, r).Some?
    ensures ok ==> EditsOf(perDevice, configs, results, groups.Keys)
  {
    hide EditsOf, Match, Edits, Under, Used;
    perDevice := map[];
    var left := groups.Keys;
    ghost var done: set<nat> := {};
    NoEdits(configs, results);
    while left != {}
      invariant left <= groups.Keys && done == groups.Keys - left
      invariant EditsOf(perDevice, configs, results, done)
    {
      var i :| i in left;
      left := left - {i};
      var group := groups[i];
      UnderMembers(configs, results, {i});
      UsedInRange(configs, results, i);
      var applied, edits := ApplyConfig(configs[i].config, group);
      if !applied {
        ghost var r :| r in group && Edits(configs[i].config, r.device).None?;
        assert WantedEdits(configs, r).None?;
        return false, perDevice;
      }
      MoreEdits(perDevice, configs, results, done, i, group, edits);
      perDevice := perDevice + edits;
      done := done + {i};
    }
    GroupedCovers(groups, configs, results);
    EditsOfAll(perDevice, configs, results, done);
    assert done == groups.Keys;
    ok := true;
  }

  lemma NoEdits(configs: seq<DeviceConfig>, results: seq<Allocation>)
    requires WellFormed(configs)
    ensures EditsOf(map[], configs, results, {})
  {
  }

  lemma EditsOfAll(perDevice: map<string, seq<string>>, configs: seq<DeviceConfig>, results: seq<Allocation>,
                   done: set<nat>)
    requires WellFormed(configs) && EditsOf(perDevice, configs, results, done)
    requires forall r :: r in results ==> Match(configs, r.request) in done
    ensures forall r :: r in results ==> WantedEdits(configs, r).Some?
  {
  }

  lemma UsedInRange(configs: seq<DeviceConfig>, results: seq<Allocation>, i: nat)
    requires WellFormed(configs) && Used(configs, results, i)
    ensures i < |configs|
  {
  }

  lemma GroupedCovers(groups: map<nat, seq<Allocation>>, configs: seq<DeviceConfig>, results: seq<Allocation>)
    requires Grouped(groups, configs, results)
    ensures forall r :: r in results ==> Match(configs, r.request) in groups
  {
    forall r | r in results ensures Match(configs, r.request) in groups {
      var k :| 0 <= k < |results| && results[k] == r;
      assert Used(configs, results, Match(configs, r.request));
    }
  }

  /** The prepared devices, group by group in any order. */
  method CollectDevices(uid: string, configs: seq<DeviceConfig>, groups: map<nat, seq<Allocation>>,
                        perDevice: map<string, seq<string>>, ghost results: seq<Allocation>)
    returns (out: seq<Prepared>)
    requires Grouped(groups, configs, results)
    ensures multiset(out) == multiset(PreparedAll(uid, results, perDevice))
  {
    hide Under, PreparedAll, Match, Used;
    out := [];
    var left := groups.Keys;
    ghost var done: set<nat> := {};
    NothingPrepared(uid, configs, results, perDevice);
    while left != {}
      invariant left <= groups.Keys && done == groups.Keys - left
      invariant multiset(out) == multiset(PreparedAll(uid, Under(configs, results, done), perDevice))
    {
      var i :| i in left;
      left := left - {i};
      var more := CollectGroup(uid, groups[i], perDevice);
      OneGroupMore(uid, configs, results, done, i, perDevice);
      out := out + more;
      done := done + {i};
    }
    assert done == groups.Keys;
    GroupedCovers(groups, configs, results);
    UnderAll(configs, results, done);
  }

  method CollectGroup(uid: string, group: seq<Allocation>, perDevice: map<string, seq<string>>)
    returns (out: seq<Prepared>)
    ensures out == PreparedAll(uid, group, perDevice)
  {
    out := [];
    for k := 0 to |group|
      invariant out == PreparedAll(uid, group[..k], perDevice)
    {
      var d := group[k].device;
      out := out + [PreparedFor(uid, group[k], if d in perDevice then Some(perDevice[d]) else None)];
    }
    assert group[..|group|] == group;
  }

  lemma OneGroupMore(uid: string, configs: seq<DeviceConfig>, results: seq<Allocation>, done: set<nat>, i: nat,
                     perDevice: map<string, seq<string>>)
    requires WellFormed(configs) && i !in done
    ensures multiset(PreparedAll(uid, Under(configs, results, done + {i}), perDevice))
         == multiset(PreparedAll(uid, Under(configs, results, done), perDevice))
            + multiset(PreparedAll(uid, Under(configs, results, {i}), perDevice))
  {
    hide Under, PreparedAll;
    var before, group := Under(configs, results, done), Under(configs, results, {i});
    UnderMore(configs, results, done, i);
    PreparedPermutes(uid, Under(configs, results, done + {i}), before + group, perDevice);
    PreparedConcat(uid, before, group, perDevice);
  }

  /** Edits are looked up by device name alone. */
  ghost function PreparedAll(uid: string, results: seq<Allocation>,
                             perDevice: map<string, seq<string>>): seq<Prepared>
  {
    seq(|results|, k requires 0 <= k < |results| =>
      PreparedFor(uid, results[k], if results[k].device in perDevice then Some(perDevice[results[k].device]) else None))
  }

  lemma NothingPrepared(uid: string, configs: seq<DeviceConfig>, results: seq<Allocation>,
                        perDevice: map<string, seq<string>>)
    requires WellFormed(configs)
    ensures PreparedAll(uid, Under(configs, results, {}), perDevice) == []
  {
    UnderNone(configs, results);
  }

  lemma UnderNone(configs: seq<DeviceConfig>, results: seq<Allocation>)
    requires WellFormed(configs)
    ensures Under(configs, results, {}) == []
  {
  }

  lemma PreparedConcat(uid: string, a: seq<Allocation>, b: seq<Allocation>, perDevice: map<string, seq<string>>)
    ensures PreparedAll(uid, a + b, perDevice) == PreparedAll(uid, a, perDevice) + PreparedAll(uid, b, perDevice)
  {
  }

  lemma {:induction false} PreparedPermutes(uid: string, a: seq<Allocation>, b: seq<Allocation>,
                                            perDevice: map<string, seq<string>>)
    requires multiset(a) == multiset(b)
    ensures multiset(PreparedAll(uid, a, perDevice)) == multiset(PreparedAll(uid, b, perDevice))
    decreases |a|
  {
    SameElements(a, b);
    if |a| > 0 {
      var n := |a| - 1;
      assert a[n] in b;
      var j :| 0 <= j < |b| && b[j] == a[n];
      PreparedWithout(uid, b, j, perDevice);
      PreparedWithout(uid, a, n, perDevice);
      assert a[..n] + a[n + 1..] == a[..n];
      PreparedPermutes(uid, a[..n], b[..j] + b[j + 1..], perDevice);
    }
  }

  lemma PreparedWithout(uid: string, s: seq<Allocation>, j: nat, perDevice: map<string, seq<string>>)
    requires j < |s|
    ensures multiset(s[..j] + s[j + 1..]) == multiset(s) - multiset{s[j]}
    ensures multiset(PreparedAll(uid, s, perDevice))
         == multiset(PreparedAll(uid, s[..j] + s[j + 1..], perDevice)) + multiset(PreparedAll(uid, [s[j]], perDevice))
  {
    hide PreparedAll;
    RemovedElements(s, j);
    var front, back := s[..j], s[j + 1..];
    assert s == (front + [s[j]]) + back;
    PreparedConcat(uid, front + [s[j]], back, perDevice);
    PreparedConcat(uid, front, [s[j]], perDevice);
    PreparedConcat(uid, front, back, perDevice);
  }

  /**
   The result is one prepared device per allocation result, each with the edits of its last matching
   configuration iff results for one device never call for different edits; a single bad result fails
   the claim, an unusable configuration that matches no result does not.  results is None for a claim
   that is not allocated yet.
   */
  method PrepareDevices(uid: string, results: Option<seq<Allocation>>, opaques: seq<Option<OpaqueConfig>>,
                        defaultConfig: Config, allocatable: set<string>)
    returns (r: Outcome, ghost configs: seq<DeviceConfig>)
    ensures WellFormed(configs) && configs[0] == DeviceConfig([], defaultConfig)
    ensures results.Some? && (forall c :: c in ForDriver(opaques) ==> c.decoded.Some?) ==>
      Decoded(ForDriver(opaques), configs[1..])
    ensures r.Failure? <==>
      || results.None?
      || (exists c :: c in ForDriver(opaques) && c.decoded.None?)
      || (exists a :: a in results.value && Bad(configs, allocatable, a))
    ensures r.Success? ==> |r.devices| == |results.value|
    ensures r.Success? ==>
      (multiset(r.devices) == multiset(Wanted(uid, configs, results.value)) <==> EditsAgree(configs, results.value))
  {
    configs := [DeviceConfig([], defaultConfig)];
    if results.None? {
      return Failure, configs;
    }
    var own := OpaqueDeviceConfigs(opaques);
    if own.None? {
      return Failure, configs;
    }
    var all := [DeviceConfig([], defaultConfig)] + own.value;
    configs := all;
    hide Match, Edits, Under, Decoded, ForDriver;
    var grouped, groups := GroupResults(all, results.value, allocatable);
    if !grouped {
      ghost var a :| a in results.value && a.device !in allocatable;
      assert Bad(configs, allocatable, a);
      return Failure, configs;
    }
    var applied, perDevice := ApplyConfigs(all, groups, results.value);
    if !applied {
      ghost var a :| a in results.value && WantedEdits(configs, a).None?;
      assert Bad(configs, allocatable, a);
      return Failure, configs;
    }
    GroupedCovers(groups, all, results.value);
    var out := CollectDevices(uid, all, groups, perDevice, results.value);
    SameElements(out, PreparedAll(uid, results.value, perDevice));
    if EditsAgree(configs, results.value) {
      WantedArePrepared(uid, configs, results.value, perDevice, groups.Keys);
    } else if multiset(out) == multiset(Wanted(uid, configs, results.value)) {
      WantedNeedAgreement(uid, configs, results.value, perDevice);
    }
    return Success(out), configs;
  }

  lemma WantedArePrepared(uid: string, configs: seq<DeviceConfig>, results: seq<Allocation>,
                          perDevice: map<string, seq<string>>, done: set<nat>)
    requires WellFormed(configs) && EditsAgree(configs, results) && EditsOf(perDevice, configs, results, done)
    requires forall r :: r in results ==> Match(configs, r.request) in done
    ensures PreparedAll(uid, results, perDevice) == Wanted(uid, configs, results)
  {
    hide Match, Edits;
    forall k | 0 <= k < |results|
      ensures PreparedAll(uid, results, perDevice)[k] == Wanted(uid, configs, results)[k]
    {
      assert results[k] in results;
    }
  }

  /** Edits are looked up by device, so results for one device that call for different edits cannot both get theirs. */
  lemma WantedNeedAgreement(uid: string, configs: seq<DeviceConfig>, results: seq<Allocation>,
                            perDevice: map<string, seq<string>>)
    requires WellFormed(configs)
    requires multiset(PreparedAll(uid, results, perDevice)) == multiset(Wanted(uid, configs, results))
    ensures EditsAgree(configs, results)
  {
    hide Match, Edits;
    var prepared, wanted := PreparedAll(uid, results, perDevice), Wanted(uid, configs, results);
    SameElements(prepared, wanted);
    forall r | r in results
      ensures WantedEdits(configs, r) == if r.device in perDevice then Some(perDevice[r.device]) else None
    {
      var k :| 0 <= k < |results| && results[k] == r;
      assert wanted[k] in prepared;
      var m :| 0 <= m < |prepared| && prepared[m] == wanted[k];
      assert results[m].device == r.device;
    }
  }
}
