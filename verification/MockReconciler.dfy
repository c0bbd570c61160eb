/** The reconciler of mock pools: one ConfigMap and one DaemonSet for every pool with the mock backend. */
module MockReconciler {
  import opened Sequences
  import opened MockPools

  datatype ConfigMapSpec = ConfigMapSpec(pool: string, configYaml: string)

  datatype Container = Container(image: string, command: seq<string>, args: seq<string>, lifecycle: string)
  /** Fields of a DaemonSet that the staleness test does not look at. */
  datatype Rest = Rest(pool: string, labelKey: string, pullPolicy: string, gpuCount: int, driverVersion: string)
  datatype DaemonSetSpec = DaemonSetSpec(main: Option<Container>, configHash: string, rest: Rest)

  predicate ConfigMapStale(want: ConfigMapSpec, have: ConfigMapSpec) {
    want.configYaml != have.configYaml
  }

  predicate DaemonSetStale(want: DaemonSetSpec, have: DaemonSetSpec) {
    || want.main.None? || have.main.None?
    || want.main.value.image != have.main.value.image
    || want.main.value.command != have.main.value.command
    || want.main.value.args != have.main.value.args
    || want.main.value.lifecycle != have.main.value.lifecycle
    || want.configHash != have.configHash
  }

  // ----- Desired state -----

  datatype Rendered = Rendered(yaml: string, gpuCount: int, driverVersion: string)
  /** rendered is None when the pool's profile cannot be loaded, merged or serialized. */
  datatype Pool = Pool(backend: string, rendered: Option<Rendered>)
  datatype Topology = Topology(labelKey: string, pools: map<string, Pool>)
  datatype Settings = Settings(image: string, pullPolicy: string, command: seq<string>, args: seq<string>,
                               lifecycle: string)

  predicate IsMock(t: Topology, pool: string) { pool in t.pools && t.pools[pool].backend == "mock" }

  ghost predicate Renders(t: Topology) {
    forall p :: p in t.pools && IsMock(t, p) ==> t.pools[p].rendered.Some?
  }

  function ResourceName(pool: string): string { "nvml-mock-" + pool }

  lemma ResourceNameInjective(p: string, q: string)
    requires ResourceName(p) == ResourceName(q)
    ensures p == q
  {
    assert ResourceName(p)[|"nvml-mock-"|..] == p;
    assert ResourceName(q)[|"nvml-mock-"|..] == q;
  }

  function BuildConfigMap(pool: string, r: Rendered): ConfigMapSpec { ConfigMapSpec(pool, r.yaml) }

  function BuildDaemonSet(pool: string, labelKey: string, r: Rendered, s: Settings,
                          hash: string -> string): DaemonSetSpec
  {
    DaemonSetSpec(Some(Container(s.image, s.command, s.args, s.lifecycle)), hash(r.yaml),
                  Rest(pool, labelKey, if s.pullPolicy == "" then "Always" else s.pullPolicy,
                       r.gpuCount, r.driverVersion))
  }

  ghost predicate DesiredConfigMaps(t: Topology, want: map<string, ConfigMapSpec>) {
    && (forall p :: IsMock(t, p) ==> ResourceName(p) in want
                                     && t.pools[p].rendered.Some?
                                     && want[ResourceName(p)] == BuildConfigMap(p, t.pools[p].rendered.value))
    && (forall n :: n in want ==> exists p :: IsMock(t, p) && n == ResourceName(p))
  }

  ghost predicate DesiredDaemonSets(t: Topology, s: Settings, hash: string -> string,
                                    want: map<string, DaemonSetSpec>)
  {
    && (forall p :: IsMock(t, p) ==> ResourceName(p) in want
                                     && t.pools[p].rendered.Some?
                                     && want[ResourceName(p)]
                                        == BuildDaemonSet(p, t.labelKey, t.pools[p].rendered.value, s, hash))
    && (forall n :: n in want ==> exists p :: IsMock(t, p) && n == ResourceName(p))
  }

  ghost predicate StringsAscend(names: seq<string>) {
    forall i, j :: 0 <= i < j < |names| ==> StringLess(names[i], names[j])
  }

  method SortedPools(t: Topology) returns (names: seq<string>)
    ensures StringsAscend(names)
    ensures forall p :: p in names <==> p in t.pools
  {
    var left, listed: seq<string> := t.pools.Keys, [];
    while left != {}
      invariant NoDuplicates(listed) && left <= t.pools.Keys
      invariant forall p :: p in listed <==> p in t.pools && p !in left
    {
      var p :| p in left;
      left := left - {p};
      listed := listed + [p];
    }
    StringLeTotal();
    names := InsertionSort(listed, StringLe);
    SameElements(listed, names);
    PermutationKeepsDistinct(listed, names);
    forall i, j | 0 <= i < j < |names| ensures StringLess(names[i], names[j]) { assert StringLe(names[i], names[j]); }
  }

  /** The two lists name the same resources pool by pool, in ascending pool order. */
  ghost predicate InPoolOrder(cms: seq<Named<ConfigMapSpec>>, dss: seq<Named<DaemonSetSpec>>) {
    && |cms| == |dss|
    && (forall i :: 0 <= i < |cms| ==> cms[i].name == dss[i].name == ResourceName(cms[i].spec.pool))
    && (forall i, j :: 0 <= i < j < |cms| ==> StringLess(cms[i].spec.pool, cms[j].spec.pool))
  }

  ghost predicate PoolsAmong(cms: seq<Named<ConfigMapSpec>>, names: seq<string>) {
    forall i :: 0 <= i < |cms| ==> cms[i].spec.pool in names
  }

  /** Two resources for each mock pool, in ascending pool order; one bad pool fails the whole pass. */
  method ComputeMockPoolResources(t: Topology, s: Settings, hash: string -> string)
    returns (ok: bool, configMaps: seq<Named<ConfigMapSpec>>, daemonSets: seq<Named<DaemonSetSpec>>)
    ensures ok <==> Renders(t)
    ensures ok ==> DesiredConfigMaps(t, ByName(configMaps)) && DesiredDaemonSets(t, s, hash, ByName(daemonSets))
    ensures InPoolOrder(configMaps, daemonSets)
  {
    var names := SortedPools(t);
    configMaps, daemonSets := [], [];
    NoneYet(names, t, s, hash);
    hide *;
    for k := 0 to |names|
      invariant PoolsDone(names[..k], t, s, hash, configMaps, daemonSets)
    {
      var pool := names[k];
      assert pool in names;
      assert names[..k + 1] == names[..k] + [pool];
      if t.pools[pool].backend == "mock" {
        if t.pools[pool].rendered.None? {
          NotRendered(names[..k], t, s, hash, configMaps, daemonSets, pool);
          return false, configMaps, daemonSets;
        }
        var r := t.pools[pool].rendered.value;
        var cm, ds := Named(ResourceName(pool), BuildConfigMap(pool, r)),
                      Named(ResourceName(pool), BuildDaemonSet(pool, t.labelKey, r, s, hash));
        EarlierNames(names, k);
        PoolDone(names[..k], t, s, hash, configMaps, daemonSets, pool);
        configMaps, daemonSets := configMaps + [cm], daemonSets + [ds];
      } else {
        PoolSkipped(names[..k], t, s, hash, configMaps, daemonSets, pool);
      }
    }
    assert names[..|names|] == names;
    AllPools(names, t, s, hash, configMaps, daemonSets);
    ok := true;
  }

  /** What the loop has built from the first pools. */
  ghost predicate PoolsDone(done: seq<string>, t: Topology, s: Settings, hash: string -> string,
                            cms: seq<Named<ConfigMapSpec>>, dss: seq<Named<DaemonSetSpec>>) {
    && Desired(done, t, s, hash, ByName(cms), ByName(dss))
    && InPoolOrder(cms, dss) && PoolsAmong(cms, done)
  }

  lemma NotRendered(done: seq<string>, t: Topology, s: Settings, hash: string -> string,
                    cms: seq<Named<ConfigMapSpec>>, dss: seq<Named<DaemonSetSpec>>, pool: string)
    requires PoolsDone(done, t, s, hash, cms, dss)
    requires pool in t.pools && t.pools[pool].backend == "mock" && t.pools[pool].rendered.None?
    ensures !Renders(t) && InPoolOrder(cms, dss)
  {
    assert IsMock(t, pool);
    hide Desired, InPoolOrder, PoolsAmong;
  }

  lemma PoolDone(done: seq<string>, t: Topology, s: Settings, hash: string -> string,
                 cms: seq<Named<ConfigMapSpec>>, dss: seq<Named<DaemonSetSpec>>, pool: string)
    requires PoolsDone(done, t, s, hash, cms, dss)
    requires pool in t.pools && t.pools[pool].backend == "mock" && t.pools[pool].rendered.Some?
    requires forall p :: p in done ==> StringLess(p, pool)
    ensures var r, n := t.pools[pool].rendered.value, ResourceName(pool);
      PoolsDone(done + [pool], t, s, hash, cms + [Named(n, BuildConfigMap(pool, r))],
                dss + [Named(n, BuildDaemonSet(pool, t.labelKey, r, s, hash))])
  {
    var r, n := t.pools[pool].rendered.value, ResourceName(pool);
    var cm, ds := Named(n, BuildConfigMap(pool, r)), Named(n, BuildDaemonSet(pool, t.labelKey, r, s, hash));
    assert IsMock(t, pool);
    hide Desired, InPoolOrder, PoolsAmong, BuildConfigMap, BuildDaemonSet, ResourceName, ByName, StringLess;
    ByNameAppend(cms, cm);
    ByNameAppend(dss, ds);
    OnePoolMore(done, pool, t, s, hash, ByName(cms), ByName(dss));
    NextInOrder(cms, dss, done, cm, ds, pool, r);
  }

  lemma PoolSkipped(done: seq<string>, t: Topology, s: Settings, hash: string -> string,
                    cms: seq<Named<ConfigMapSpec>>, dss: seq<Named<DaemonSetSpec>>, pool: string)
    requires PoolsDone(done, t, s, hash, cms, dss)
    requires pool in t.pools && t.pools[pool].backend != "mock"
    ensures PoolsDone(done + [pool], t, s, hash, cms, dss)
  {
    hide Desired, InPoolOrder, PoolsAmong, ByName;
    SkipPool(done, pool, t, s, hash, ByName(cms), ByName(dss));
    MoreNames(cms, done, pool);
  }

  lemma EarlierNames(names: seq<string>, k: nat)
    requires StringsAscend(names) && k < |names|
    ensures forall p :: p in names[..k] ==> StringLess(p, names[k])
  {
  }

  lemma NoneYet(names: seq<string>, t: Topology, s: Settings, hash: string -> string)
    ensures PoolsDone(names[..0], t, s, hash, [], [])
  {
    assert ByName<ConfigMapSpec>([]) == map[] && ByName<DaemonSetSpec>([]) == map[];
  }

  lemma AllPools(names: seq<string>, t: Topology, s: Settings, hash: string -> string,
                 cms: seq<Named<ConfigMapSpec>>, dss: seq<Named<DaemonSetSpec>>)
    requires PoolsDone(names, t, s, hash, cms, dss) && forall p :: p in names <==> p in t.pools
    ensures Renders(t) && DesiredConfigMaps(t, ByName(cms)) && DesiredDaemonSets(t, s, hash, ByName(dss))
    ensures InPoolOrder(cms, dss)
  {
    hide InPoolOrder, PoolsAmong, ByName, BuildConfigMap, BuildDaemonSet, ResourceName;
  }

  lemma ByNameAppend<T>(s: seq<Named<T>>, o: Named<T>)
    ensures ByName(s + [o]) == ByName(s)[o.name := o.spec]
  {
    assert (s + [o])[..|s|] == s;
  }

  lemma MoreNames(cms: seq<Named<ConfigMapSpec>>, names: seq<string>, pool: string)
    requires PoolsAmong(cms, names)
    ensures PoolsAmong(cms, names + [pool])
  {
  }

  lemma NextInOrder(cms: seq<Named<ConfigMapSpec>>, dss: seq<Named<DaemonSetSpec>>, names: seq<string>,
                    cm: Named<ConfigMapSpec>, ds: Named<DaemonSetSpec>, pool: string, r: Rendered)
    requires InPoolOrder(cms, dss) && PoolsAmong(cms, names)
    requires forall p :: p in names ==> StringLess(p, pool)
    requires cm == Named(ResourceName(pool), BuildConfigMap(pool, r)) && ds.name == cm.name
    ensures InPoolOrder(cms + [cm], dss + [ds]) && PoolsAmong(cms + [cm], names + [pool])
  {
  }

  lemma SkipPool(done: seq<string>, pool: string, t: Topology, s: Settings, hash: string -> string,
                 cms: map<string, ConfigMapSpec>, dss: map<string, DaemonSetSpec>)
    requires Desired(done, t, s, hash, cms, dss) && !IsMock(t, pool)
    ensures Desired(done + [pool], t, s, hash, cms, dss)
  {
    forall m | m in cms ensures exists p :: p in done + [pool] && IsMock(t, p) && m == ResourceName(p) {
      var p :| p in done && IsMock(t, p) && m == ResourceName(p);
      assert p in done + [pool];
    }
  }

  /** The desired resources of the first pools. */
  ghost predicate Desired(done: seq<string>, t: Topology, s: Settings, hash: string -> string,
                          cms: map<string, ConfigMapSpec>, dss: map<string, DaemonSetSpec>) {
    && cms.Keys == dss.Keys
    && (forall p :: p in done && IsMock(t, p) ==> DesiredFor(p, t, s, hash, cms, dss))
    && (forall n :: n in cms ==> NamesOneOf(done, t, n))
  }

  ghost predicate DesiredFor(p: string, t: Topology, s: Settings, hash: string -> string,
                             cms: map<string, ConfigMapSpec>, dss: map<string, DaemonSetSpec>)
    requires p in t.pools
  {
    && t.pools[p].rendered.Some? && ResourceName(p) in cms && ResourceName(p) in dss
    && cms[ResourceName(p)] == BuildConfigMap(p, t.pools[p].rendered.value)
    && dss[ResourceName(p)] == BuildDaemonSet(p, t.labelKey, t.pools[p].rendered.value, s, hash)
  }

  ghost predicate NamesOneOf(done: seq<string>, t: Topology, n: string) {
    exists p :: p in done && IsMock(t, p) && n == ResourceName(p)
  }

  lemma NamesOneOfMore(done: seq<string>, t: Topology, n: string, pool: string)
    requires NamesOneOf(done, t, n) || (IsMock(t, pool) && n == ResourceName(pool))
    ensures NamesOneOf(done + [pool], t, n)
  {
    hide ResourceName;
    if NamesOneOf(done, t, n) {
      var p :| p in done && IsMock(t, p) && n == ResourceName(p);
      assert p in done + [pool];
    } else {
      assert pool in done + [pool];
    }
  }

  lemma OnePoolMore(done: seq<string>, pool: string, t: Topology, s: Settings, hash: string -> string,
                    cms: map<string, ConfigMapSpec>, dss: map<string, DaemonSetSpec>)
    requires Desired(done, t, s, hash, cms, dss) && IsMock(t, pool) && t.pools[pool].rendered.Some?
    ensures var r := t.pools[pool].rendered.value;
      Desired(done + [pool], t, s, hash, cms[ResourceName(pool) := BuildConfigMap(pool, r)],
              dss[ResourceName(pool) := BuildDaemonSet(pool, t.labelKey, r, s, hash)])
  {
    var n, r := ResourceName(pool), t.pools[pool].rendered.value;
    var cms', dss' := cms[n := BuildConfigMap(pool, r)], dss[n := BuildDaemonSet(pool, t.labelKey, r, s, hash)];
    forall p | p in done + [pool] && IsMock(t, p) ensures DesiredFor(p, t, s, hash, cms', dss') {
      if p != pool {
        assert p in done;
        if ResourceName(p) == n { ResourceNameInjective(p, pool); }
      }
    }
    forall m | m in cms' ensures NamesOneOf(done + [pool], t, m) { NamesOneOfMore(done, t, m, pool); }
    hide DesiredFor, NamesOneOf, BuildConfigMap, BuildDaemonSet, ResourceName;
  }

  // ----- One pass -----

  class Reconciler {
    const configMaps: Collection<ConfigMapSpec>
    const daemonSets: Collection<DaemonSetSpec>

    constructor (configMaps: Collection<ConfigMapSpec>, daemonSets: Collection<DaemonSetSpec>)
      ensures this.configMaps == configMaps && this.daemonSets == daemonSets
    {
      this.configMaps, this.daemonSets := configMaps, daemonSets;
    }

    /** wantCm and wantDs are the desired state; lost says that some API call failed on its own account. */
    method Reconcile(t: Option<Topology>, s: Settings, hash: string -> string)
      returns (ok: bool, ghost lost: bool,
               ghost wantCm: map<string, ConfigMapSpec>, ghost wantDs: map<string, DaemonSetSpec>)
      modifies configMaps, daemonSets
      ensures t.None? || !Renders(t.value) ==>
        !ok && configMaps.objects == old(configMaps.objects) && daemonSets.objects == old(daemonSets.objects)
      ensures t.Some? && Renders(t.value) ==>
        && DesiredConfigMaps(t.value, wantCm) && DesiredDaemonSets(t.value, s, hash, wantDs)
        && PartWay(old(configMaps.objects), configMaps.objects, wantCm, ConfigMapStale)
        && PartWay(old(daemonSets.objects), daemonSets.objects, wantDs, DaemonSetStale)
        && Phased(old(configMaps.objects), configMaps.objects, wantCm, ConfigMapStale)
        && Phased(old(daemonSets.objects), daemonSets.objects, wantDs, DaemonSetStale)
        && (daemonSets.objects != old(daemonSets.objects) ==>
              configMaps.objects == Target(old(configMaps.objects), wantCm, ConfigMapStale))
        && (ok ==> && configMaps.objects == Target(old(configMaps.objects), wantCm, ConfigMapStale)
                   && daemonSets.objects == Target(old(daemonSets.objects), wantDs, DaemonSetStale))
        && (ok ==> ConflictFree(old(configMaps.objects), wantCm) && ConflictFree(old(daemonSets.objects), wantDs))
        && (!ok && !lost ==>
              !ConflictFree(old(configMaps.objects), wantCm) || !ConflictFree(old(daemonSets.objects), wantDs))
    {
      lost, wantCm, wantDs := false, map[], map[];
      if t.None? {
        return false, false, map[], map[];
      }
      var computed, cms, dss := ComputeMockPoolResources(t.value, s, hash);
      if !computed {
        return false, false, map[], map[];
      }
      wantCm, wantDs := ByName(cms), ByName(dss);
      Untouched(daemonSets.objects, wantDs, DaemonSetStale);
      ok, lost := ReconcileKind(configMaps, cms, ConfigMapStale);
      if !ok {
        return;
      }
      ok, lost := ReconcileKind(daemonSets, dss, DaemonSetStale);
    }
  }

  lemma Untouched<T(!new)>(store: Store<T>, want: map<string, T>, stale: (T, T) -> bool)
    ensures PartWay(store, store, want, stale) && Phased(store, store, want, stale)
  {
    MixedNone(store, Target(store, want, stale));
    assert InPhases({}, store, want, stale);
  }

  // ----- Convergence -----

  /** The managed objects carry exactly the desired names, and none of them is stale: the next diff is empty. */
  ghost predicate Settled<T(!new)>(store: Store<T>, want: map<string, T>, stale: (T, T) -> bool) {
    && (forall n :: n in want ==> n in store && store[n].managed && !stale(want[n], store[n].spec))
    && (forall n :: n in store && store[n].managed ==> n in want)
  }

  /** A freshly written object is not stale. */
  ghost predicate Steady<T>(want: map<string, T>, stale: (T, T) -> bool) {
    forall n :: n in want ==> !stale(want[n], want[n])
  }

  /** A complete pass from any state leaves exactly the desired names and an empty difference. */
  lemma PassSettles<T(!new)>(store: Store<T>, want: map<string, T>, stale: (T, T) -> bool)
    requires ConflictFree(store, want) && Steady(want, stale)
    ensures Settled(Target(store, want, stale), want, stale)
  {
    forall n | n in want && n in store ensures store[n].managed { assert !Conflict(store, want, n); }
  }

  /** The difference is empty exactly in a settled state. */
  lemma EmptyDiffIffSettled<T(!new)>(store: Store<T>, want: map<string, T>, stale: (T, T) -> bool,
                                     toCreate: seq<Named<T>>, toUpdate: seq<Stamped<T>>, toDelete: seq<string>)
    requires IsDiff(want, store, stale, toCreate, toUpdate, toDelete)
    ensures toCreate == [] && toUpdate == [] && toDelete == [] <==> Settled(store, want, stale)
  {
    if toCreate != [] {
      assert toCreate[0] in toCreate;
      assert Creates(want, store, toCreate[0]);
    }
    if toUpdate != [] {
      assert toUpdate[0] in toUpdate;
      assert Updates(want, store, stale, toUpdate[0]);
    }
    if toDelete != [] {
      assert toDelete[0] in toDelete;
      assert Deletes(want, store, toDelete[0]);
    }
    if toCreate == [] && toUpdate == [] && toDelete == [] {
      forall n | n in want ensures n in store && store[n].managed && !stale(want[n], store[n].spec) {
        assert Named(n, want[n]) in toCreate <==> Creates(want, store, Named(n, want[n]));
        var u := Stamped(Named(n, want[n]), store[n].version);
        assert u in toUpdate <==> Updates(want, store, stale, u);
      }
      forall n | n in store && store[n].managed ensures n in want {
        assert n in toDelete <==> Deletes(want, store, n);
      }
    }
  }

  /** Objects outside the managed selector are the same after any part of a pass, and none is added. */
  lemma UnmanagedUntouched<T(!new)>(from: Store<T>, now: Store<T>, want: map<string, T>, stale: (T, T) -> bool,
                                    n: string)
    requires PartWay(from, now, want, stale) && ConflictFree(from, want)
    ensures n in from && !from[n].managed <==> n in now && !now[n].managed
    ensures n in from && !from[n].managed ==> now[n] == from[n]
  {
    var done :| now == Mixed(from, Target(from, want, stale), done);
    assert n in from ==> !Conflict(from, want, n);
  }

  /** A pass resumed after any half-applied one ends exactly where the uninterrupted pass would have ended. */
  lemma ResumeReachesSameState<T(!new)>(from: Store<T>, now: Store<T>, want: map<string, T>, stale: (T, T) -> bool)
    requires PartWay(from, now, want, stale) && ConflictFree(from, want) && Steady(want, stale)
    ensures ConflictFree(now, want)
    ensures Target(now, want, stale) == Target(from, want, stale)
  {
    var to := Target(from, want, stale);
    var done :| now == Mixed(from, to, done);
    var again := Target(now, want, stale);
    forall n
      ensures n in from ==> !Conflict(from, want, n)
      ensures (n in again <==> n in to) && (n in to ==> again[n] == to[n])
    {
      assert n in from ==> !Conflict(from, want, n);
    }
  }

  /** In a settled state a further pass changes nothing, resource versions included; and conversely. */
  lemma SettledIsFixpoint<T(!new)>(store: Store<T>, want: map<string, T>, stale: (T, T) -> bool)
    requires ConflictFree(store, want)
    ensures Target(store, want, stale) == store <==> Settled(store, want, stale)
  {
    var to := Target(store, want, stale);
    forall n | n in store ensures !Conflict(store, want, n) { }
    if to == store {
      forall n | n in want ensures n in store && store[n].managed && !stale(want[n], store[n].spec) {
        assert n in to;
        assert !Written(store, want, stale, n);
      }
      forall n | n in store && store[n].managed ensures n in want {
        assert n in to;
      }
    }
  }

  lemma DesiredAreSteady(t: Topology, s: Settings, hash: string -> string, wantCm: map<string, ConfigMapSpec>,
                         wantDs: map<string, DaemonSetSpec>)
    requires DesiredConfigMaps(t, wantCm) && DesiredDaemonSets(t, s, hash, wantDs)
    ensures Steady(wantCm, ConfigMapStale) && Steady(wantDs, DaemonSetStale)
  {
    forall n | n in wantDs ensures wantDs[n].main.Some? {
      var p :| IsMock(t, p) && n == ResourceName(p);
    }
  }

  /** After a complete pass every pool's DaemonSet carries the hash of the ConfigMap that is on the server. */
  lemma HashesAgree(t: Topology, s: Settings, hash: string -> string, cms: Store<ConfigMapSpec>,
                    dss: Store<DaemonSetSpec>,
                    wantCm: map<string, ConfigMapSpec>, wantDs: map<string, DaemonSetSpec>, pool: string)
    requires DesiredConfigMaps(t, wantCm) && DesiredDaemonSets(t, s, hash, wantDs)
    requires ConflictFree(cms, wantCm) && ConflictFree(dss, wantDs) && IsMock(t, pool)
    ensures var (cms', dss') := (Target(cms, wantCm, ConfigMapStale), Target(dss, wantDs, DaemonSetStale));
            var n := ResourceName(pool);
      && n in cms' && n in dss'
      && cms'[n].spec.configYaml == t.pools[pool].rendered.value.yaml
      && dss'[n].spec.configHash == hash(cms'[n].spec.configYaml)
  {
    DesiredAreSteady(t, s, hash, wantCm, wantDs);
    PassSettles(cms, wantCm, ConfigMapStale);
    PassSettles(dss, wantDs, DaemonSetStale);
    var n := ResourceName(pool);
    assert n in wantCm && n in wantDs;
  }

  // ----- What is on the server, field by field -----

  /** The DaemonSet of pool p: one container as configured, for the nodes that carry the pool's label. */
  ghost predicate RunsPool(w: DaemonSetSpec, t: Topology, s: Settings, hash: string -> string, p: string) {
    && p in t.pools && t.pools[p].rendered.Some?
    && w.rest.labelKey == t.labelKey && w.rest.pool == p
    && w.rest.gpuCount == t.pools[p].rendered.value.gpuCount
    && w.rest.driverVersion == t.pools[p].rendered.value.driverVersion
    && w.rest.pullPolicy == (if s.pullPolicy == "" then "Always" else s.pullPolicy)
    && w.configHash == hash(t.pools[p].rendered.value.yaml)
    && RunsContainer(w, s)
  }

  predicate RunsContainer(w: DaemonSetSpec, s: Settings) {
    && w.main.Some?
    && w.main.value.image == s.image && w.main.value.command == s.command
    && w.main.value.args == s.args && w.main.value.lifecycle == s.lifecycle
  }

  /** Every mock pool wants a DaemonSet under its own name, made from its own rendering; nothing else is wanted. */
  lemma WantedDaemonSets(t: Topology, s: Settings, hash: string -> string, want: map<string, DaemonSetSpec>)
    requires DesiredDaemonSets(t, s, hash, want)
    ensures forall p :: p in t.pools && t.pools[p].backend == "mock" ==>
      "nvml-mock-" + p in want && RunsPool(want["nvml-mock-" + p], t, s, hash, p)
    ensures forall n :: n in want ==>
      exists p :: p in t.pools && t.pools[p].backend == "mock" && n == "nvml-mock-" + p
  {
    forall p | p in t.pools && t.pools[p].backend == "mock"
      ensures "nvml-mock-" + p in want && RunsPool(want["nvml-mock-" + p], t, s, hash, p)
    {
      assert IsMock(t, p) && ResourceName(p) == "nvml-mock-" + p;
    }
    forall n | n in want ensures exists p :: p in t.pools && t.pools[p].backend == "mock" && n == "nvml-mock-" + p {
      var p :| IsMock(t, p) && n == ResourceName(p);
      assert n == "nvml-mock-" + p;
    }
  }

  lemma WantedConfigMaps(t: Topology, want: map<string, ConfigMapSpec>)
    requires DesiredConfigMaps(t, want)
    ensures forall p :: p in t.pools && t.pools[p].backend == "mock" ==>
      && "nvml-mock-" + p in want && t.pools[p].rendered.Some?
      && want["nvml-mock-" + p].pool == p && want["nvml-mock-" + p].configYaml == t.pools[p].rendered.value.yaml
    ensures forall n :: n in want ==>
      exists p :: p in t.pools && t.pools[p].backend == "mock" && n == "nvml-mock-" + p
  {
    forall p | p in t.pools && t.pools[p].backend == "mock"
      ensures "nvml-mock-" + p in want && t.pools[p].rendered.Some?
      ensures want["nvml-mock-" + p].pool == p && want["nvml-mock-" + p].configYaml == t.pools[p].rendered.value.yaml
    {
      assert IsMock(t, p) && ResourceName(p) == "nvml-mock-" + p;
    }
    forall n | n in want ensures exists p :: p in t.pools && t.pools[p].backend == "mock" && n == "nvml-mock-" + p {
      var p :| IsMock(t, p) && n == ResourceName(p);
      assert n == "nvml-mock-" + p;
    }
  }

  /**
   After a complete pass the DaemonSet of each mock pool runs the configured container with the pool's
   configuration; one that the pass created is right in every field.
   */
  lemma PassRunsPool(t: Topology, s: Settings, hash: string -> string, dss: Store<DaemonSetSpec>,
                     wantDs: map<string, DaemonSetSpec>, p: string)
    requires DesiredDaemonSets(t, s, hash, wantDs) && ConflictFree(dss, wantDs)
    requires p in t.pools && t.pools[p].backend == "mock"
    ensures var n, after := "nvml-mock-" + p, Target(dss, wantDs, DaemonSetStale);
      && n in after && after[n].managed
      && RunsContainer(after[n].spec, s) && t.pools[p].rendered.Some?
      && after[n].spec.configHash == hash(t.pools[p].rendered.value.yaml)
      && (n !in dss ==> RunsPool(after[n].spec, t, s, hash, p))
  {
    WantedDaemonSets(t, s, hash, wantDs);
    var n := "nvml-mock-" + p;
    assert n in dss ==> !Conflict(dss, wantDs, n);
    hide DesiredDaemonSets, ConflictFree;
  }

  /**
   A pass makes a DaemonSet equal to the desired one exactly when it was absent, differed in a compared
   field, or agreed in the fields the staleness test leaves out.
   */
  lemma DaemonSetConvergesIff(t: Topology, s: Settings, hash: string -> string, dss: Store<DaemonSetSpec>,
                              wantDs: map<string, DaemonSetSpec>, n: string)
    requires DesiredDaemonSets(t, s, hash, wantDs) && ConflictFree(dss, wantDs) && n in wantDs
    ensures n in Target(dss, wantDs, DaemonSetStale)
    ensures Target(dss, wantDs, DaemonSetStale)[n].spec == wantDs[n]
      <==> (n in dss ==> DaemonSetStale(wantDs[n], dss[n].spec) || dss[n].spec.rest == wantDs[n].rest)
  {
    assert n in dss ==> !Conflict(dss, wantDs, n);
    var p :| IsMock(t, p) && n == ResourceName(p);
    assert wantDs[n].main.Some?;
  }

  /** Changing only the image pull policy never reaches an existing DaemonSet. */
  lemma PullPolicyChangeIsIgnored(hash: string -> string) returns (t: Topology, old': Settings, new': Settings)
    ensures forall before, after ::
      DesiredDaemonSets(t, old', hash, before) && DesiredDaemonSets(t, new', hash, after) ==>
        var dss := Target(map[], before, DaemonSetStale);
        && before != after && ConflictFree(dss, after)
        && Target(dss, after, DaemonSetStale) == dss
  {
    t := Topology("pool", map["a" := Pool("mock", Some(Rendered("y", 1, "d")))]);
    old', new' := Settings("i", "Always", [], [], ""), Settings("i", "IfNotPresent", [], [], "");
    forall before, after | DesiredDaemonSets(t, old', hash, before) && DesiredDaemonSets(t, new', hash, after)
      ensures var dss := Target(map[], before, DaemonSetStale);
        before != after && ConflictFree(dss, after) && Target(dss, after, DaemonSetStale) == dss
    {
      OnlyPool(t, old', hash, before);
      OnlyPool(t, new', hash, after);
      FreshIsSteady(ResourceName("a"), before, after);
    }
  }

  lemma OnlyPool(t: Topology, s: Settings, hash: string -> string, want: map<string, DaemonSetSpec>)
    requires DesiredDaemonSets(t, s, hash, want)
    requires t.pools.Keys == {"a"} && IsMock(t, "a") && t.pools["a"].rendered.Some?
    ensures want.Keys == {ResourceName("a")}
    ensures want[ResourceName("a")] == BuildDaemonSet("a", t.labelKey, t.pools["a"].rendered.value, s, hash)
  {
    hide ResourceName, BuildDaemonSet;
    forall m | m in want ensures m == ResourceName("a") {
      var p :| IsMock(t, p) && m == ResourceName(p);
    }
  }

  /** A specification that is not stale against the one created from scratch is never written. */
  lemma FreshIsSteady(n: string, before: map<string, DaemonSetSpec>, after: map<string, DaemonSetSpec>)
    requires before.Keys == {n} == after.Keys && !DaemonSetStale(before[n], after[n])
    ensures var dss := Target(map[], before, DaemonSetStale);
      ConflictFree(dss, after) && Target(dss, after, DaemonSetStale) == dss
  {
    var dss := Target(map[], before, DaemonSetStale);
    assert dss == map[n := Entry(true, before[n], 0)];
  }
}
