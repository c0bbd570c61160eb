/**
 What preparing a claim's devices answers, told from the claim's opaque configurations, the default one and
 the allocation results alone.
 */
module DraConfigAnswers {
  import opened DraConfigs
  import opened Sequences

  // ----- The configuration of a request -----

  predicate ForGpu(opaques: seq<Option<OpaqueConfig>>, k: nat) {
    k < |opaques| && opaques[k].Some? && opaques[k].value.driver == "gpu.nvidia.com"
  }

  /** The configuration lists no requests, or lists this one. */
  predicate Lists(requests: seq<string>, request: string) {
    requests == [] || exists k :: 0 <= k < |requests| && requests[k] == request
  }

  predicate Offers(opaques: seq<Option<OpaqueConfig>>, request: string, k: nat) {
    ForGpu(opaques, k) && Lists(opaques[k].value.requests, request)
  }

  /** k is the last configuration for this driver that concerns the request. */
  predicate Governs(opaques: seq<Option<OpaqueConfig>>, request: string, k: nat) {
    Offers(opaques, request, k) && forall j :: k < j < |opaques| ==> !Offers(opaques, request, j)
  }

  /** The governing configuration, or the default when there is none. */
  ghost predicate ConfigFor(opaques: seq<Option<OpaqueConfig>>, defaultConfig: Config, request: string,
                            config: Config) {
    || (exists k: nat :: Governs(opaques, request, k) && opaques[k].value.decoded == Some(config))
    || ((forall k: nat :: !Offers(opaques, request, k)) && config == defaultConfig)
  }

  /** configs is the default followed by the decoded configurations for this driver. */
  ghost predicate Listed(configs: seq<DeviceConfig>, opaques: seq<Option<OpaqueConfig>>, defaultConfig: Config) {
    && |configs| > 0 && configs[0] == DeviceConfig([], defaultConfig)
    && Decoded(ForDriver(opaques), configs[1..])
  }

  lemma {:induction false} ConfigIs(configs: seq<DeviceConfig>, opaques: seq<Option<OpaqueConfig>>,
                                    defaultConfig: Config, request: string)
    requires Listed(configs, opaques, defaultConfig)
    ensures ConfigFor(opaques, defaultConfig, request, configs[Match(configs, request)].config)
    decreases |opaques|
  {
    if |opaques| == 0 {
      assert forall k: nat :: !Offers(opaques, request, k);
    } else {
      var n := |opaques| - 1;
      LastListed(configs, opaques, defaultConfig);
      hide Decoded, ForDriver;
      if !ForGpu(opaques, n) {
        ConfigIs(configs, opaques[..n], defaultConfig, request);
        hide Match, ConfigFor;
        LastOffersNothing(opaques, defaultConfig, request, configs[Match(configs, request)].config);
      } else {
        var m := |configs| - 1;
        MatchLast(configs, request);
        if Lists(opaques[n].value.requests, request) {
          assert Governs(opaques, request, n);
        } else {
          ConfigIs(configs[..m], opaques[..n], defaultConfig, request);
          hide Match, ConfigFor;
          LastOffersNothing(opaques, defaultConfig, request, configs[..m][Match(configs[..m], request)].config);
        }
      }
    }
  }

  /** The last opaque configuration is the last listed one if it is for this driver, else it is left out. */
  lemma LastListed(configs: seq<DeviceConfig>, opaques: seq<Option<OpaqueConfig>>, defaultConfig: Config)
    requires Listed(configs, opaques, defaultConfig) && |opaques| > 0
    ensures var n, m := |opaques| - 1, |configs| - 1;
      if ForGpu(opaques, n) then
        && m > 0 && Listed(configs[..m], opaques[..n], defaultConfig)
        && opaques[n].value.decoded.Some?
        && configs[m] == DeviceConfig(opaques[n].value.requests, opaques[n].value.decoded.value)
      else Listed(configs, opaques[..n], defaultConfig)
  {
    var n, m := |opaques| - 1, |configs| - 1;
    ForDriverLast(opaques);
    hide ForDriver, Decoded;
    if ForGpu(opaques, n) {
      DecodedFront(ForDriver(opaques[..n]), opaques[n].value, configs[1..]);
      assert configs[..m][1..] == configs[1..][..m - 1] && configs[1..][m - 1] == configs[m];
    } else {
      assert ForDriver(opaques[..n]) + [] == ForDriver(opaques[..n]);
    }
  }

  lemma ForDriverLast(opaques: seq<Option<OpaqueConfig>>)
    requires |opaques| > 0
    ensures var n := |opaques| - 1;
      ForDriver(opaques) == ForDriver(opaques[..n]) + if ForGpu(opaques, n) then [opaques[n].value] else []
  {
  }

  lemma DecodedFront(front: seq<OpaqueConfig>, last: OpaqueConfig, configs: seq<DeviceConfig>)
    requires Decoded(front + [last], configs)
    ensures var m := |front|;
      && |configs| == m + 1 && last.decoded.Some? && configs[m] == DeviceConfig(last.requests, last.decoded.value)
      && Decoded(front, configs[..m])
  {
    var all := front + [last];
    assert all[|front|] == last;
    assert forall i :: 0 <= i < |front| ==> all[i] == front[i];
  }

  lemma MatchLast(configs: seq<DeviceConfig>, request: string)
    requires |configs| > 1 && configs[0].requests == []
    ensures var m := |configs| - 1;
      Match(configs, request) == if Lists(configs[m].requests, request) then m else Match(configs[..m], request)
  {
  }

  lemma LastOffersNothing(opaques: seq<Option<OpaqueConfig>>, defaultConfig: Config, request: string, config: Config)
    requires |opaques| > 0 && !Offers(opaques, request, |opaques| - 1)
    requires ConfigFor(opaques[..|opaques| - 1], defaultConfig, request, config)
    ensures ConfigFor(opaques, defaultConfig, request, config)
  {
    var n := |opaques| - 1;
    var front := opaques[..n];
    forall k: nat | k < n ensures Offers(front, request, k) <==> Offers(opaques, request, k) { }
    assert forall k: nat :: Offers(opaques, request, k) ==> k < n;
    if k: nat :| Governs(front, request, k) && front[k].value.decoded == Some(config) {
      assert Governs(opaques, request, k);
    }
  }

  // ----- What a device gets -----

  predicate Underscored(device: string, name: string) {
    |name| == |device| && forall i :: 0 <= i < |name| ==> name[i] == if device[i] == '-' then '_' else device[i]
  }

  /** The environment of a device under a configuration that can be used; name is the device's, underscored. */
  predicate Environment(config: Config, device: string, name: string, entries: seq<string>) {
    && config.Usable?
    && match config.sharing
       case NoSharing => entries == ["GPU_DEVICE_" + name + "=" + device]
       case TimeSlicing(interval) =>
         && interval.Some?
         && entries == ["GPU_DEVICE_" + name + "=" + device,
                        "GPU_DEVICE_" + name + "_SHARING_STRATEGY=TimeSlicing",
                        "GPU_DEVICE_" + name + "_TIMESLICE_INTERVAL=" + interval.value]
       case SpacePartitioning(count) =>
         && count.Some?
         && entries == ["GPU_DEVICE_" + name + "=" + device,
                        "GPU_DEVICE_" + name + "_SHARING_STRATEGY=SpacePartitioning",
                        "GPU_DEVICE_" + name + "_PARTITION_COUNT=" + count.value]
  }

  predicate Unusable(config: Config) {
    || !config.Usable?
    || (config.sharing.TimeSlicing? && config.sharing.interval.None?)
    || (config.sharing.SpacePartitioning? && config.sharing.count.None?)
  }

  /** p prepares result a with the environment of the configuration that governs its request. */
  ghost predicate Prepares(p: Prepared, uid: string, a: Allocation, opaques: seq<Option<OpaqueConfig>>,
                           defaultConfig: Config) {
    && p.request == a.request && p.pool == a.pool && p.device == a.device && p.cdiId == uid + "-" + a.device
    && p.edits.Some?
    && exists config, name ::
         ConfigFor(opaques, defaultConfig, a.request, config) && Underscored(a.device, name)
         && Environment(config, a.device, name, p.edits.value)
  }

  lemma EditsAre(config: Config, device: string)
    ensures Edits(config, device).None? <==> Unusable(config)
    ensures Edits(config, device).Some? ==>
      exists name :: Underscored(device, name) && Environment(config, device, name, Edits(config, device).value)
  {
    assert Underscored(device, Sanitize(device));
    if Edits(config, device).Some? {
      assert Environment(config, device, Sanitize(device), Edits(config, device).value);
    }
  }

  lemma {:induction false} ForDriverAre(opaques: seq<Option<OpaqueConfig>>, c: OpaqueConfig)
    ensures c in ForDriver(opaques) <==> exists k: nat :: ForGpu(opaques, k) && opaques[k].value == c
  {
    if |opaques| > 0 {
      var n := |opaques| - 1;
      ForDriverAre(opaques[..n], c);
      forall k: nat | k < n ensures ForGpu(opaques[..n], k) <==> ForGpu(opaques, k) { }
      if k: nat :| ForGpu(opaques, k) && opaques[k].value == c {
        assert k < n ==> ForGpu(opaques[..n], k) && opaques[..n][k].value == c;
      }
      if k: nat :| ForGpu(opaques[..n], k) && opaques[..n][k].value == c {
        assert ForGpu(opaques, k) && opaques[k].value == c;
      }
      assert opaques[n].Some? && opaques[n].value.driver == "gpu.nvidia.com" ==> ForGpu(opaques, n);
    }
  }

  ghost predicate Unpreparable(a: Allocation, opaques: seq<Option<OpaqueConfig>>, defaultConfig: Config,
                               allocatable: set<string>) {
    || a.device !in allocatable
    || exists config :: ConfigFor(opaques, defaultConfig, a.request, config) && Unusable(config)
  }

  /** No two configurations govern a request. */
  lemma OneConfig(opaques: seq<Option<OpaqueConfig>>, defaultConfig: Config, request: string, c: Config, d: Config)
    requires ConfigFor(opaques, defaultConfig, request, c) && ConfigFor(opaques, defaultConfig, request, d)
    ensures c == d
  {
    assert forall j: nat, k: nat :: Governs(opaques, request, j) && Governs(opaques, request, k) ==> j == k;
  }

  lemma BadIs(configs: seq<DeviceConfig>, opaques: seq<Option<OpaqueConfig>>, defaultConfig: Config,
              allocatable: set<string>, a: Allocation)
    requires Listed(configs, opaques, defaultConfig)
    ensures Bad(configs, allocatable, a) <==> Unpreparable(a, opaques, defaultConfig, allocatable)
  {
    ConfigIs(configs, opaques, defaultConfig, a.request);
    var own := configs[Match(configs, a.request)].config;
    EditsAre(own, a.device);
    hide Match, Edits, ConfigFor;
    forall config | ConfigFor(opaques, defaultConfig, a.request, config) ensures config == own {
      OneConfig(opaques, defaultConfig, a.request, config, own);
    }
  }

  lemma WantedPrepares(uid: string, configs: seq<DeviceConfig>, opaques: seq<Option<OpaqueConfig>>,
                       defaultConfig: Config, results: seq<Allocation>, k: nat)
    requires Listed(configs, opaques, defaultConfig) && k < |results| && WantedEdits(configs, results[k]).Some?
    ensures Prepares(Wanted(uid, configs, results)[k], uid, results[k], opaques, defaultConfig)
  {
    var a := results[k];
    ConfigIs(configs, opaques, defaultConfig, a.request);
    EditsAre(configs[Match(configs, a.request)].config, a.device);
    hide Match, Edits, ConfigFor, Underscored, Environment;
  }

  /**
   What PrepareDevices answers, given its contract: it fails iff the claim is not allocated, a configuration for
   this driver cannot be decoded, or some result cannot be prepared.  Otherwise there is one device for each
   result, and for distinct devices each has the environment of the configuration governing its request.
   */
  lemma PrepareAnswer(uid: string, results: Option<seq<Allocation>>, opaques: seq<Option<OpaqueConfig>>,
                      defaultConfig: Config, allocatable: set<string>, r: Outcome, configs: seq<DeviceConfig>)
    requires WellFormed(configs) && configs[0] == DeviceConfig([], defaultConfig)
    requires results.Some? && (forall c :: c in ForDriver(opaques) ==> c.decoded.Some?) ==>
      Decoded(ForDriver(opaques), configs[1..])
    requires r.Failure? <==>
      || results.None?
      || (exists c :: c in ForDriver(opaques) && c.decoded.None?)
      || (exists a :: a in results.value && Bad(configs, allocatable, a))
    requires r.Success? ==> |r.devices| == |results.value|
    requires r.Success? ==>
      (multiset(r.devices) == multiset(Wanted(uid, configs, results.value)) <==> EditsAgree(configs, results.value))
    ensures r.Failure? <==>
      || results.None?
      || (exists k: nat :: ForGpu(opaques, k) && opaques[k].value.decoded.None?)
      || (exists a :: a in results.value && Unpreparable(a, opaques, defaultConfig, allocatable))
    ensures r.Success? && DistinctDevices(results.value) ==>
      && |r.devices| == |results.value|
      && (forall a :: a in results.value ==> exists p :: p in r.devices && Prepares(p, uid, a, opaques, defaultConfig))
      && (forall p :: p in r.devices ==> exists a :: a in results.value && Prepares(p, uid, a, opaques, defaultConfig))
  {
    forall c ensures c in ForDriver(opaques) <==> exists k: nat :: ForGpu(opaques, k) && opaques[k].value == c {
      ForDriverAre(opaques, c);
    }
    if results.Some? && (forall c :: c in ForDriver(opaques) ==> c.decoded.Some?) {
      assert Listed(configs, opaques, defaultConfig);
      forall a ensures Bad(configs, allocatable, a) <==> Unpreparable(a, opaques, defaultConfig, allocatable) {
        BadIs(configs, opaques, defaultConfig, allocatable, a);
      }
      if r.Success? && DistinctDevices(results.value) {
        DevicesPrepared(uid, results.value, opaques, defaultConfig, allocatable, r.devices, configs);
      }
    }
    hide ForDriver, Decoded, Bad, Unpreparable, Wanted, EditsAgree, Prepares;
  }

  predicate DistinctDevices(results: seq<Allocation>) {
    forall i, j :: 0 <= i < j < |results| ==> results[i].device != results[j].device
  }

  lemma DevicesPrepared(uid: string, results: seq<Allocation>, opaques: seq<Option<OpaqueConfig>>,
                        defaultConfig: Config, allocatable: set<string>, devices: seq<Prepared>,
                        configs: seq<DeviceConfig>)
    requires Listed(configs, opaques, defaultConfig) && DistinctDevices(results)
    requires forall a :: a in results ==> !Bad(configs, allocatable, a)
    requires EditsAgree(configs, results) ==> multiset(devices) == multiset(Wanted(uid, configs, results))
    ensures forall a :: a in results ==> exists p :: p in devices && Prepares(p, uid, a, opaques, defaultConfig)
    ensures forall p :: p in devices ==> exists a :: a in results && Prepares(p, uid, a, opaques, defaultConfig)
  {
    DistinctDevicesAgree(configs, results);
    var wanted := Wanted(uid, configs, results);
    SameElements(devices, wanted);
    hide Match, Edits, Wanted, Prepares, EditsAgree;
    forall k | 0 <= k < |results| ensures Prepares(wanted[k], uid, results[k], opaques, defaultConfig) {
      assert results[k] in results;
      WantedPrepares(uid, configs, opaques, defaultConfig, results, k);
    }
    assert |wanted| == |results|;
    forall a | a in results ensures exists p :: p in devices && Prepares(p, uid, a, opaques, defaultConfig) {
      var k :| 0 <= k < |results| && results[k] == a;
      assert wanted[k] in devices;
    }
    forall p | p in devices ensures exists a :: a in results && Prepares(p, uid, a, opaques, defaultConfig) {
      assert p in wanted;
      var k :| 0 <= k < |wanted| && wanted[k] == p;
      assert results[k] in results;
    }
  }
}
