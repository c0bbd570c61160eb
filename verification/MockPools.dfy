/**
 The mock-pool controller: desired ConfigMaps and DaemonSets are computed from the topology, compared
 with the managed ones on the API server, and the difference is applied call by call.
 */
module MockPools {
  import opened Sequences

  // ----- Objects on the API server -----

  /** managed: the object carries the labels the controller selects by. */
  datatype Entry<T> = Entry(managed: bool, spec: T, version: nat)
  type Store<T> = map<string, Entry<T>>

  datatype Named<T> = Named(name: string, spec: T)
  datatype Listed<T> = Listed(name: string, entry: Entry<T>)

  function ByName<T>(desired: seq<Named<T>>): map<string, T> {
    if |desired| == 0 then map[]
    else ByName(desired[..|desired| - 1])[desired[|desired| - 1].name := desired[|desired| - 1].spec]
  }

  /** A desired name that belongs to an object the controller does not manage. */
  predicate Conflict<T>(store: Store<T>, desired: map<string, T>, name: string) {
    name in desired && name in store && !store[name].managed
  }

  ghost predicate ConflictFree<T>(store: Store<T>, desired: map<string, T>) {
    forall name :: name in store ==> !Conflict(store, desired, name)
  }

  /** Whether the object under this name is written by a pass. */
  predicate Written<T>(store: Store<T>, desired: map<string, T>, stale: (T, T) -> bool, name: string) {
    name in desired && (name in store ==> store[name].managed && stale(desired[name], store[name].spec))
  }

  /** The store after a complete pass: created, updated, deleted, or left alone, name by name. */
  function Target<T>(store: Store<T>, desired: map<string, T>, stale: (T, T) -> bool): Store<T> {
    map name | name in store.Keys + desired.Keys
               && !(name in store && store[name].managed && name !in desired) ::
      if Written(store, desired, stale, name)
      then Entry(true, desired[name], if name in store then store[name].version + 1 else 0)
      else store[name]
  }

  /** The state under `done` names is that of `to`, everywhere else that of `from`. */
  function Mixed<T>(from: Store<T>, to: Store<T>, done: set<string>): Store<T> {
    map name | name in from.Keys + to.Keys && (if name in done then name in to else name in from) ::
      if name in done then to[name] else from[name]
  }

  /** A pass that stopped somewhere: some names have reached the target, the rest are untouched. */
  ghost predicate PartWay<T(!new)>(from: Store<T>, now: Store<T>, desired: map<string, T>, stale: (T, T) -> bool) {
    exists done :: now == Mixed(from, Target(from, desired, stale), done)
  }

  lemma MixedNone<T>(from: Store<T>, to: Store<T>)
    ensures Mixed(from, to, {}) == from
  {
  }

  lemma MixedAll<T>(from: Store<T>, to: Store<T>, done: set<string>)
    requires forall name :: name in from.Keys + to.Keys && name !in done ==>
          name in from && name in to && from[name] == to[name]
    ensures Mixed(from, to, done) == to
  {
  }

  lemma MixedPut<T>(from: Store<T>, to: Store<T>, done: set<string>, name: string)
    requires name in to
    ensures Mixed(from, to, done)[name := to[name]] == Mixed(from, to, done + {name})
  {
  }

  lemma MixedDrop<T>(from: Store<T>, to: Store<T>, done: set<string>, name: string)
    requires name !in to
    ensures Mixed(from, to, done) - {name} == Mixed(from, to, done + {name})
  {
  }

  /** One kind of namespaced resource.  Any call may fail for reasons of its own. */
  class Collection<T(!new)> {
    var objects: Store<T>

    constructor (initial: Store<T>)
      ensures objects == initial
    {
      objects := initial;
    }

    method Lost() returns (lost: bool) {
      lost := *;
    }

    /** The managed objects, in any order. */
    method List() returns (items: seq<Listed<T>>)
      ensures forall i, j :: 0 <= i < j < |items| ==> items[i].name != items[j].name
      ensures forall item ::
        item in items <==> item.name in objects && objects[item.name].managed && item.entry == objects[item.name]
    {
      items := [];
      var left := objects.Keys;
      while left != {}
        invariant left <= objects.Keys
        invariant forall i, j :: 0 <= i < j < |items| ==> items[i].name != items[j].name
        invariant forall item :: item in items <==>
          item.name in objects && item.name !in left && objects[item.name].managed && item.entry == objects[item.name]
      {
        var name :| name in left;
        left := left - {name};
        if objects[name].managed {
          items := items + [Listed(name, objects[name])];
        }
      }
    }

    method Create(o: Named<T>) returns (ok: bool, ghost lost: bool)
      modifies this
      ensures o.name in old(objects) ==> !ok
      ensures !ok ==> objects == old(objects) && (lost || o.name in old(objects))
      ensures ok ==> !lost && objects == old(objects)[o.name := Entry(true, o.spec, 0)]
    {
      var failed := Lost();
      lost := failed;
      if failed || o.name in objects {
        return false, failed;
      }
      objects := objects[o.name := Entry(true, o.spec, 0)];
      ok := true;
    }

    /** Fails on a version other than the stored one. */
    method Update(o: Named<T>, version: nat) returns (ok: bool, ghost lost: bool)
      modifies this
      ensures o.name !in old(objects) || old(objects)[o.name].version != version ==> !ok
      ensures !ok ==>
            objects == old(objects) && (lost || o.name !in old(objects) || old(objects)[o.name].version != version)
      ensures ok ==> !lost && objects == old(objects)[o.name := Entry(true, o.spec, version + 1)]
    {
      var failed := Lost();
      lost := failed;
      if failed || o.name !in objects || objects[o.name].version != version {
        return false, failed;
      }
      objects := objects[o.name := Entry(true, o.spec, version + 1)];
      ok := true;
    }

    method Delete(name: string) returns (ok: bool, ghost lost: bool)
      modifies this
      ensures name !in old(objects) ==> !ok
      ensures !ok ==> objects == old(objects) && (lost || name !in old(objects))
      ensures ok ==> !lost && objects == old(objects) - {name}
    {
      var failed := Lost();
      lost := failed;
      if failed || name !in objects {
        return false, failed;
      }
      objects := objects - {name};
      ok := true;
    }
  }

  // ----- The difference between desired and actual -----

  datatype Stamped<T> = Stamped(wanted: Named<T>, version: nat)

  ghost predicate DistinctNames<T>(s: seq<Named<T>>) {
    forall i, j :: 0 <= i < j < |s| ==> s[i].name != s[j].name
  }

  ghost predicate Managed<T(!new)>(actual: seq<Listed<T>>, store: Store<T>) {
    && (forall i, j :: 0 <= i < j < |actual| ==> actual[i].name != actual[j].name)
    && (forall item ::
          item in actual <==> item.name in store && store[item.name].managed && item.entry == store[item.name])
  }

  ghost predicate Creates<T>(want: map<string, T>, store: Store<T>, o: Named<T>) {
    o.name in want && o.spec == want[o.name] && !(o.name in store && store[o.name].managed)
  }

  ghost predicate Updates<T>(want: map<string, T>, store: Store<T>, stale: (T, T) -> bool, o: Stamped<T>) {
    && o.wanted.name in want && o.wanted.spec == want[o.wanted.name]
    && o.wanted.name in store && store[o.wanted.name].managed && o.version == store[o.wanted.name].version
    && stale(o.wanted.spec, store[o.wanted.name].spec)
  }

  ghost predicate Deletes<T>(want: map<string, T>, store: Store<T>, name: string) {
    name in store && store[name].managed && name !in want
  }

  /** The three parts of the difference, each listed without repetition and in no particular order. */
  ghost predicate IsDiff<T(!new)>(want: map<string, T>, store: Store<T>, stale: (T, T) -> bool,
                                  toCreate: seq<Named<T>>, toUpdate: seq<Stamped<T>>, toDelete: seq<string>) {
    && (forall o :: o in toCreate <==> Creates(want, store, o))
    && (forall o :: o in toUpdate <==> Updates(want, store, stale, o))
    && (forall n :: n in toDelete <==> Deletes(want, store, n))
    && DistinctNames(toCreate) && NoDuplicates(toDelete)
    && forall i, j :: 0 <= i < j < |toUpdate| ==> toUpdate[i].wanted.name != toUpdate[j].wanted.name
  }

  /** What DiffConfigMaps and DiffDaemonSets both compute; they differ in the staleness test only. */
  method Diff<T(!new)>(desired: seq<Named<T>>, actual: seq<Listed<T>>, stale: (T, T) -> bool, ghost store: Store<T>)
    returns (toCreate: seq<Named<T>>, toUpdate: seq<Stamped<T>>, toDelete: seq<string>)
    requires Managed(actual, store)
    ensures IsDiff(ByName(desired), store, stale, toCreate, toUpdate, toDelete)
  {
    var want: map<string, T> := map[];
    for i := 0 to |desired|
      invariant want == ByName(desired[..i])
    {
      assert desired[..i + 1][..i] == desired[..i];
      want := want[desired[i].name := desired[i].spec];
    }
    assert desired[..|desired|] == desired;
    var have: map<string, Entry<T>> := map[];
    for i := 0 to |actual|
      invariant forall n :: n in have <==> exists k :: 0 <= k < i && actual[k].name == n
      invariant forall k :: 0 <= k < i ==> actual[k].name in have && have[actual[k].name] == actual[k].entry
    {
      have := have[actual[i].name := actual[i].entry];
    }
    HaveIsManaged(actual, store, have);
    toCreate, toUpdate := Wanted(want, have, stale);
    toDelete := Unwanted(want, actual);
    ManagedSuffices(want, store, have, actual, stale, toCreate, toUpdate, toDelete);
  }

  /** Visits the desired names in any order. */
  method Wanted<T(!new)>(want: map<string, T>, have: Store<T>, stale: (T, T) -> bool)
    returns (toCreate: seq<Named<T>>, toUpdate: seq<Stamped<T>>)
    requires forall n :: n in have ==> have[n].managed
    ensures forall o :: o in toCreate <==> Creates(want, have, o)
    ensures forall o :: o in toUpdate <==> Updates(want, have, stale, o)
    ensures DistinctNames(toCreate)
    ensures forall i, j :: 0 <= i < j < |toUpdate| ==> toUpdate[i].wanted.name != toUpdate[j].wanted.name
  {
    toCreate, toUpdate := [], [];
    var left := want.Keys;
    while left != {}
      invariant left <= want.Keys
      invariant forall o :: o in toCreate <==> Creates(want, have, o) && o.name !in left
      invariant forall o :: o in toUpdate <==> Updates(want, have, stale, o) && o.wanted.name !in left
      invariant DistinctNames(toCreate)
      invariant forall i, j :: 0 <= i < j < |toUpdate| ==> toUpdate[i].wanted.name != toUpdate[j].wanted.name
    {
      var name :| name in left;
      left := left - {name};
      var o := Named(name, want[name]);
      assert forall i :: 0 <= i < |toCreate| ==> toCreate[i] in toCreate;
      assert forall i :: 0 <= i < |toUpdate| ==> toUpdate[i] in toUpdate;
      if name !in have {
        toCreate := toCreate + [o];
      } else if stale(want[name], have[name].spec) {
        toUpdate := toUpdate + [Stamped(o, have[name].version)];
      }
    }
  }

  method Unwanted<T(!new)>(want: map<string, T>, actual: seq<Listed<T>>) returns (toDelete: seq<string>)
    requires forall i, j :: 0 <= i < j < |actual| ==> actual[i].name != actual[j].name
    ensures forall n :: n in toDelete <==> n !in want && exists k :: 0 <= k < |actual| && actual[k].name == n
    ensures NoDuplicates(toDelete)
  {
    toDelete := [];
    for i := 0 to |actual|
      invariant forall n :: n in toDelete <==> n !in want && exists k :: 0 <= k < i && actual[k].name == n
      invariant NoDuplicates(toDelete)
    {
      if actual[i].name !in want {
        toDelete := toDelete + [actual[i].name];
      }
    }
  }

  lemma ManagedSuffices<T(!new)>(want: map<string, T>, store: Store<T>, have: Store<T>, actual: seq<Listed<T>>,
                                 stale: (T, T) -> bool,
                                 toCreate: seq<Named<T>>, toUpdate: seq<Stamped<T>>, toDelete: seq<string>)
    requires forall n :: n in have <==> n in store && store[n].managed
    requires forall n :: n in have ==> have[n] == store[n]
    requires forall n :: n in have <==> exists k :: 0 <= k < |actual| && actual[k].name == n
    requires forall o :: o in toCreate <==> Creates(want, have, o)
    requires forall o :: o in toUpdate <==> Updates(want, have, stale, o)
    requires forall n :: n in toDelete <==> n !in want && exists k :: 0 <= k < |actual| && actual[k].name == n
    requires DistinctNames(toCreate) && NoDuplicates(toDelete)
    requires forall i, j :: 0 <= i < j < |toUpdate| ==> toUpdate[i].wanted.name != toUpdate[j].wanted.name
    ensures IsDiff(want, store, stale, toCreate, toUpdate, toDelete)
  {
    forall o ensures o in toCreate <==> Creates(want, store, o) {
      assert Creates(want, have, o) <==> Creates(want, store, o);
    }
    forall o ensures o in toUpdate <==> Updates(want, store, stale, o) {
      assert Updates(want, have, stale, o) <==> Updates(want, store, stale, o);
    }
    forall n ensures n in toDelete <==> Deletes(want, store, n) {
      assert n in have <==> n in store && store[n].managed;
    }
  }

  lemma HaveIsManaged<T(!new)>(actual: seq<Listed<T>>, store: Store<T>, have: map<string, Entry<T>>)
    requires Managed(actual, store)
    requires forall n :: n in have <==> exists k :: 0 <= k < |actual| && actual[k].name == n
    requires forall k :: 0 <= k < |actual| ==> actual[k].name in have && have[actual[k].name] == actual[k].entry
    ensures forall n :: n in have <==> n in store && store[n].managed
    ensures forall n :: n in have ==> have[n] == store[n]
  {
    forall n | n in store && store[n].managed ensures n in have && have[n] == store[n] {
      assert Listed(n, store[n]) in actual;
      var k :| 0 <= k < |actual| && actual[k] == Listed(n, store[n]);
      assert actual[k].name == n;
    }
    forall n | n in have ensures n in store && store[n].managed {
      var k :| 0 <= k < |actual| && actual[k].name == n;
      assert actual[k] in actual;
    }
  }

  /** Updates begin when everything has been created, deletions when everything has been updated. */
  ghost predicate InPhases<T(!new)>(done: set<string>, from: Store<T>, want: map<string, T>, stale: (T, T) -> bool) {
    && (forall n :: n in done ==> Written(from, want, stale, n) || Deletes(want, from, n))
    && ((exists n :: n in done && n in from) ==> forall m :: m in want && m !in from ==> m in done)
    && ((exists n :: n in done && n !in want) ==>
          forall m :: m in from && Written(from, want, stale, m) ==> m in done)
  }

  /** A pass that stopped somewhere, phase after phase. */
  ghost predicate Phased<T(!new)>(from: Store<T>, now: Store<T>, want: map<string, T>, stale: (T, T) -> bool) {
    exists done :: now == Mixed(from, Target(from, want, stale), done) && InPhases(done, from, want, stale)
  }

  /** Creates one after another; what was created carries its target state. */
  method CreateAll<T(!new)>(api: Collection<T>, toCreate: seq<Named<T>>, ghost from: Store<T>,
                            ghost want: map<string, T>, ghost stale: (T, T) -> bool)
    returns (ok: bool, ghost lost: bool, ghost done: set<string>)
    requires api.objects == from && DistinctNames(toCreate)
    requires forall o :: o in toCreate <==> Creates(want, from, o)
    modifies api
    ensures api.objects == Mixed(from, Target(from, want, stale), done)
    ensures InPhases(done, from, want, stale) && forall n :: n in done ==> n in want && n !in from
    ensures ok ==> ConflictFree(from, want) && forall n :: n in done <==> n in want && n !in from
    ensures !ok ==> lost || !ConflictFree(from, want)
  {
    ghost var to := Target(from, want, stale);
    done, lost := {}, false;
    MixedNone(from, to);
    for i := 0 to |toCreate|
      invariant api.objects == Mixed(from, to, done)
      invariant forall n :: n in done <==> exists k :: 0 <= k < i && toCreate[k].name == n
      invariant forall n :: n in done ==> n !in from && n in want
    {
      var o := toCreate[i];
      assert o in toCreate;
      ok, lost := api.Create(o);
      if !ok {
        assert !lost ==> Conflict(from, want, o.name);
        return;
      }
      MixedPut(from, to, done, o.name);
      done := done + {o.name};
    }
    assert forall o :: o in toCreate ==> o.name in done;
    assert forall n :: n in want && !(n in from && from[n].managed) ==> Creates(want, from, Named(n, want[n]));
    ok := true;
  }

  method UpdateAll<T(!new)>(api: Collection<T>, toUpdate: seq<Stamped<T>>, ghost from: Store<T>,
                            ghost want: map<string, T>, ghost stale: (T, T) -> bool,
                            ghost created: set<string>)
    returns (ok: bool, ghost lost: bool, ghost done: set<string>)
    requires api.objects == Mixed(from, Target(from, want, stale), created)
    requires forall n :: n in created <==> n in want && n !in from
    requires forall o :: o in toUpdate <==> Updates(want, from, stale, o)
    requires forall i, j :: 0 <= i < j < |toUpdate| ==> toUpdate[i].wanted.name != toUpdate[j].wanted.name
    modifies api
    ensures api.objects == Mixed(from, Target(from, want, stale), done)
    ensures InPhases(done, from, want, stale) && forall n :: n in done ==> n in want
    ensures ok ==> forall n ::
      n in done <==> n in created || exists k :: 0 <= k < |toUpdate| && toUpdate[k].wanted.name == n
    ensures !ok ==> lost
  {
    ghost var to := Target(from, want, stale);
    done, lost := created, false;
    for i := 0 to |toUpdate|
      invariant api.objects == Mixed(from, to, done)
      invariant forall n :: n in done <==> n in created || exists k :: 0 <= k < i && toUpdate[k].wanted.name == n
      invariant forall n :: n in done ==> n in want && Written(from, want, stale, n)
    {
      var o := toUpdate[i];
      assert o in toUpdate;
      assert Updates(want, from, stale, o) && o.wanted.name !in done;
      ok, lost := api.Update(o.wanted, o.version);
      if !ok {
        return;
      }
      MixedPut(from, to, done, o.wanted.name);
      done := done + {o.wanted.name};
    }
    ok := true;
  }

  method DeleteAll<T(!new)>(api: Collection<T>, toDelete: seq<string>, ghost from: Store<T>,
                            ghost want: map<string, T>, ghost stale: (T, T) -> bool,
                            ghost written: set<string>)
    returns (ok: bool, ghost lost: bool, ghost done: set<string>)
    requires api.objects == Mixed(from, Target(from, want, stale), written)
    requires forall n :: n in written ==> n in want
    requires InPhases(written, from, want, stale)
    requires forall m :: m in want && m !in from ==> m in written
    requires forall m :: m in from && Written(from, want, stale, m) ==> m in written
    requires NoDuplicates(toDelete) && forall n :: n in toDelete <==> Deletes(want, from, n)
    modifies api
    ensures api.objects == Mixed(from, Target(from, want, stale), done)
    ensures InPhases(done, from, want, stale)
    ensures ok ==> forall n :: n in done <==> n in written || n in toDelete
    ensures !ok ==> lost
  {
    ghost var to := Target(from, want, stale);
    done, lost := written, false;
    for i := 0 to |toDelete|
      invariant api.objects == Mixed(from, to, done)
      invariant forall n :: n in done <==> n in written || n in toDelete[..i]
    {
      assert toDelete[i] in toDelete;
      assert Deletes(want, from, toDelete[i]) && toDelete[i] !in done;
      ok, lost := api.Delete(toDelete[i]);
      if !ok {
        return;
      }
      MixedDrop(from, to, done, toDelete[i]);
      assert toDelete[..i + 1] == toDelete[..i] + [toDelete[i]];
      done := done + {toDelete[i]};
    }
    assert toDelete[..|toDelete|] == toDelete;
    ok := true;
  }

  /** One kind's pass: list, diff, then create, update and delete call by call, stopping at a failure. */
  method ReconcileKind<T(!new)>(api: Collection<T>, desired: seq<Named<T>>, stale: (T, T) -> bool)
    returns (ok: bool, ghost lost: bool)
    modifies api
    ensures PartWay(old(api.objects), api.objects, ByName(desired), stale)
    ensures Phased(old(api.objects), api.objects, ByName(desired), stale)
    ensures ok ==> api.objects == Target(old(api.objects), ByName(desired), stale)
    ensures ok ==> ConflictFree(old(api.objects), ByName(desired))
    ensures !ok ==> lost || !ConflictFree(old(api.objects), ByName(desired))
  {
    hide Target, Mixed, Creates, Updates, Deletes, ByName, Written, InPhases;
    ghost var from, want := api.objects, ByName(desired);
    var actual := api.List();
    var toCreate, toUpdate, toDelete := Diff(desired, actual, stale, api.objects);
    ghost var created, written, done;
    ok, lost, created := CreateAll(api, toCreate, from, want, stale);
    if !ok {
      return;
    }
    ok, lost, written := UpdateAll(api, toUpdate, from, want, stale, created);
    if !ok {
      return;
    }
    WrittenAreWanted(from, want, stale, toUpdate, created, written);
    UpdatesAreWritten(from, want, stale, toUpdate, written);
    ok, lost, done := DeleteAll(api, toDelete, from, want, stale, written);
    if !ok {
      return;
    }
    DoneIsEnough(from, want, stale, toCreate, toUpdate, toDelete, done);
    lost := false;
  }

  lemma WrittenAreWanted<T(!new)>(from: Store<T>, want: map<string, T>, stale: (T, T) -> bool,
                                  toUpdate: seq<Stamped<T>>,
                                  created: set<string>, written: set<string>)
    requires forall n :: n in created ==> n in want
    requires forall o :: o in toUpdate <==> Updates(want, from, stale, o)
    requires forall n ::
      n in written <==> n in created || exists k :: 0 <= k < |toUpdate| && toUpdate[k].wanted.name == n
    ensures forall n :: n in written ==> n in want
    ensures forall o :: o in toUpdate ==> o.wanted.name in written
  {
    forall k | 0 <= k < |toUpdate| ensures toUpdate[k].wanted.name in want {
      assert toUpdate[k] in toUpdate;
    }
  }

  lemma UpdatesAreWritten<T(!new)>(from: Store<T>, want: map<string, T>, stale: (T, T) -> bool,
                                   toUpdate: seq<Stamped<T>>, written: set<string>)
    requires forall o :: o in toUpdate <==> Updates(want, from, stale, o)
    requires forall o :: o in toUpdate ==> o.wanted.name in written
    ensures forall m :: m in from && Written(from, want, stale, m) ==> m in written
  {
    forall m | m in from && Written(from, want, stale, m) ensures m in written {
      var o := Stamped(Named(m, want[m]), from[m].version);
      assert Updates(want, from, stale, o);
      assert o in toUpdate;
    }
  }

  lemma DoneIsEnough<T(!new)>(from: Store<T>, want: map<string, T>, stale: (T, T) -> bool,
                              toCreate: seq<Named<T>>, toUpdate: seq<Stamped<T>>, toDelete: seq<string>,
                              done: set<string>)
    requires IsDiff(want, from, stale, toCreate, toUpdate, toDelete)
    requires forall n :: n in want && n !in from ==> n in done
    requires forall o :: o in toUpdate ==> o.wanted.name in done
    requires forall m :: m in toDelete ==> m in done
    requires ConflictFree(from, want)
    ensures Mixed(from, Target(from, want, stale), done) == Target(from, want, stale)
  {
    var to := Target(from, want, stale);
    forall n | n in from.Keys + to.Keys && n !in done ensures n in from && n in to && from[n] == to[n] {
      AllDone(from, want, stale, toCreate, toUpdate, toDelete, done, n);
    }
    MixedAll(from, to, done);
  }

  lemma AllDone<T(!new)>(from: Store<T>, want: map<string, T>, stale: (T, T) -> bool,
                         toCreate: seq<Named<T>>, toUpdate: seq<Stamped<T>>, toDelete: seq<string>,
                         done: set<string>, n: string)
    requires IsDiff(want, from, stale, toCreate, toUpdate, toDelete)
    requires forall m :: m in want && m !in from ==> m in done
    requires forall o :: o in toUpdate ==> o.wanted.name in done
    requires forall m :: m in toDelete ==> m in done
    requires ConflictFree(from, want)
    requires n in from.Keys + want.Keys && n !in done
    ensures var to := Target(from, want, stale); n in from && n in to && from[n] == to[n]
  {
    if n in want {
      assert !Conflict(from, want, n);
      var u := Stamped(Named(n, want[n]), from[n].version);
      assert u in toUpdate <==> Updates(want, from, stale, u);
    } else {
      assert n in toDelete <==> Deletes(want, from, n);
    }
  }
}
