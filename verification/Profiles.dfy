/** GPU profiles: deep merge of overrides over a base, and extraction of the fields the operator uses. */
module Profiles {
  import opened Sequences

  /** A decoded YAML value.  Int and Int64 are Go's two integer types, Float is float64 read as a real. */
  datatype Value =
    | Map(m: map<string, Value>)
    | List(items: seq<Value>)
    | Text(s: string)
    | Int(i: int)
    | Int64(l: int)
    | Float(r: real)
    | Null

  // ----- Merge -----

  /** b over a: maps merge key by key, anything else is replaced. */
  function Overlay(a: Value, b: Value): Value
    decreases b
  {
    if a.Map? && b.Map? then
      Map(map k | k in a.m.Keys + b.m.Keys ::
            if k !in b.m then a.m[k] else if k !in a.m then b.m[k] else Overlay(a.m[k], b.m[k]))
    else b
  }

  method Merge(base: Value, overrides: Value) returns (merged: Value)
    requires base.Map? && overrides.Map?
    ensures merged == Overlay(base, overrides)
    decreases overrides
  {
    if overrides.m == map[] {
      assert Overlay(base, overrides).m == base.m;
      return base;
    }
    var result := base.m;
    var left := overrides.m.Keys;
    while left != {}
      invariant left <= overrides.m.Keys
      invariant forall k :: k in result <==> k in base.m || (k in overrides.m && k !in left)
      invariant forall k :: k in result ==>
        result[k] == if k in overrides.m && k !in left then Overlay(base, overrides).m[k] else base.m[k]
    {
      var key :| key in left;
      left := left - {key};
      var over := overrides.m[key];
      if key !in result {
        result := result[key := over];
      } else if result[key].Map? && over.Map? {
        var deeper := Merge(result[key], over);
        result := result[key := deeper];
      } else {
        result := result[key := over];
      }
    }
    merged := Map(result);
    assert result == Overlay(base, overrides).m;
  }

  /** Walks a path of keys. */
  function Lookup(v: Value, path: seq<string>): Option<Value> {
    if path == [] then Some(v)
    else if v.Map? && path[0] in v.m then Lookup(v.m[path[0]], path[1..])
    else None
  }

  /** Some proper prefix of the path ends in a value that is not a map. */
  predicate Blocked(v: Value, path: seq<string>) {
    path != [] && (!v.Map? || (path[0] in v.m && Blocked(v.m[path[0]], path[1..])))
  }

  lemma {:induction false} BlockedMeans(v: Value, path: seq<string>)
    ensures Blocked(v, path) <==>
      exists n :: 0 <= n < |path| && Lookup(v, path[..n]).Some? && !Lookup(v, path[..n]).value.Map?
    decreases |path|
  {
    if path != [] {
      assert Lookup(v, path[..0]) == Some(v);
      if v.Map? && path[0] in v.m {
        var w := v.m[path[0]];
        BlockedMeans(w, path[1..]);
        forall n | 0 < n <= |path| ensures Lookup(v, path[..n]) == Lookup(w, path[1..][..n - 1]) {
          assert path[..n][1..] == path[1..][..n - 1];
        }
        if n :| 0 <= n < |path[1..]| && Lookup(w, path[1..][..n]).Some? && !Lookup(w, path[1..][..n]).value.Map? {
          assert Lookup(v, path[..n + 1]) == Lookup(w, path[1..][..n]);
        }
      } else if v.Map? {
        forall n | 0 < n <= |path| ensures Lookup(v, path[..n]) == None {
          assert path[..n][0] == path[0];
        }
      }
    }
  }

  /**
   Override first, at every path: a value present in the overrides decides (merged with what the base
   has there), a path cut off by an override that is not a map is gone, all other paths read the base.
   */
  lemma {:induction false} LookupMerged(a: Value, b: Value, path: seq<string>)
    ensures Lookup(Overlay(a, b), path) ==
      match Lookup(b, path)
      case Some(y) => (match Lookup(a, path) case Some(x) => Some(Overlay(x, y)) case None => Some(y))
      case None => if Blocked(b, path) then None else Lookup(a, path)
    decreases |path|
  {
    if path != [] && a.Map? && b.Map? && path[0] in a.m && path[0] in b.m {
      LookupMerged(a.m[path[0]], b.m[path[0]], path[1..]);
    }
    if path != [] && b.Map? && path[0] in b.m && !(a.Map? && path[0] in a.m) {
      MissingLookup(b.m[path[0]], path[1..]);
    }
  }

  lemma {:induction false} MissingLookup(v: Value, path: seq<string>)
    ensures Blocked(v, path) ==> Lookup(v, path) == None
    decreases |path|
  {
    if path != [] && v.Map? && path[0] in v.m {
      MissingLookup(v.m[path[0]], path[1..]);
    }
  }

  /**
   The same in single cases: what the overrides have at a path is there, unless both have a map, which then has
   the keys of both; a path the overrides leave open reads the base.
   */
  lemma OverridesFirst(a: Value, b: Value, path: seq<string>)
    requires a.Map? && b.Map?
    ensures var (x, y, z) := (Lookup(a, path), Lookup(b, path), Lookup(Overlay(a, b), path));
      && (y.Some? && !(y.value.Map? && x.Some? && x.value.Map?) ==> z == y)
      && (y.Some? && y.value.Map? && x.Some? && x.value.Map? ==>
            z.Some? && z.value.Map? && z.value.m.Keys == x.value.m.Keys + y.value.m.Keys)
      && (y.None? && OpenUpTo(b, path) ==> z == x)
  {
    LookupMerged(a, b, path);
    BlockedMeans(b, path);
  }

  /** No proper prefix of the path has anything but a map. */
  ghost predicate OpenUpTo(v: Value, path: seq<string>) {
    forall n :: 0 <= n < |path| && Lookup(v, path[..n]).Some? ==> Lookup(v, path[..n]).value.Map?
  }

  /** The empty map is an identity on both sides. */
  lemma MergeIdentity(v: Value)
    requires v.Map?
    ensures Overlay(v, Map(map[])) == v
    ensures Overlay(Map(map[]), v) == v
  {
    assert Overlay(v, Map(map[])).m == v.m;
    assert Overlay(Map(map[]), v).m == v.m;
  }

  lemma {:induction false} OverlaySelf(b: Value)
    ensures Overlay(b, b) == b
  {
    if b.Map? {
      forall k | k in b.m ensures Overlay(b.m[k], b.m[k]) == b.m[k] { OverlaySelf(b.m[k]); }
      assert Overlay(b, b).m == b.m;
    }
  }

  /** Merging the same overrides again changes nothing. */
  lemma {:induction false} MergeIdempotent(a: Value, b: Value)
    ensures Overlay(Overlay(a, b), b) == Overlay(a, b)
    decreases b
  {
    if a.Map? && b.Map? {
      var ab := Overlay(a, b);
      forall k | k in b.m ensures Overlay(ab.m[k], b.m[k]) == ab.m[k] {
        if k in a.m { MergeIdempotent(a.m[k], b.m[k]); } else { OverlaySelf(b.m[k]); }
      }
      assert Overlay(ab, b).m == ab.m;
    } else {
      OverlaySelf(b);
    }
  }

  // ----- Associativity -----

  /** c replaces or deepens everything a has: every key of a is in c, and so on below shared maps. */
  predicate Covers(c: Value, a: Value)
    decreases a
  {
    a.Map? && c.Map? ==>
      forall k :: k in a.m ==> k in c.m && Covers(c.m[k], a.m[k])
  }

  lemma {:induction false} CoveredMerge(a: Value, c: Value)
    ensures Overlay(a, c) == c <==> Covers(c, a)
    decreases a
  {
    if a.Map? && c.Map? {
      var r := Overlay(a, c);
      forall k | k in a.m && k in c.m ensures Overlay(a.m[k], c.m[k]) == c.m[k] <==> Covers(c.m[k], a.m[k]) {
        CoveredMerge(a.m[k], c.m[k]);
      }
      if Covers(c, a) {
        assert r.m == c.m;
      }
      if r == c {
        forall k | k in a.m ensures k in c.m && Covers(c.m[k], a.m[k]) {
          assert k in r.m;
          assert r.m[k] == c.m[k];
        }
      }
    }
  }

  /**
   Where the middle profile has a plain value between two maps, merging left to right forgets the first
   map and merging right to left does not; it makes no difference when the third map covers the first.
   */
  predicate Associates(a: Value, b: Value, c: Value)
    decreases a
  {
    && (a.Map? && c.Map? && !b.Map? ==> Covers(c, a))
    && (a.Map? && b.Map? && c.Map? ==>
          forall k :: k in a.m && k in b.m && k in c.m ==> Associates(a.m[k], b.m[k], c.m[k]))
  }

  /** Exactly when three profiles merge associatively. */
  lemma {:induction false} MergeAssociativeIff(a: Value, b: Value, c: Value)
    ensures Overlay(Overlay(a, b), c) == Overlay(a, Overlay(b, c)) <==> Associates(a, b, c)
    decreases a
  {
    if a.Map? && c.Map? && !b.Map? {
      CoveredMerge(a, c);
    } else if a.Map? && b.Map? && c.Map? {
      var l, r := Overlay(Overlay(a, b), c), Overlay(a, Overlay(b, c));
      forall k | k in a.m && k in b.m && k in c.m
        ensures l.m[k] == r.m[k] <==> Associates(a.m[k], b.m[k], c.m[k])
      {
        MergeAssociativeIff(a.m[k], b.m[k], c.m[k]);
      }
      if Associates(a, b, c) {
        assert l.m == r.m;
      }
      if l == r {
        forall k | k in a.m && k in b.m && k in c.m ensures Associates(a.m[k], b.m[k], c.m[k]) {
          assert l.m[k] == r.m[k];
        }
      }
    }
  }

  /** A plain value between two maps: left to right the first map is forgotten, right to left it comes back. */
  lemma MergeNotAssociative() returns (a: Value, b: Value, c: Value)
    ensures a.Map? && b.Map? && c.Map?
    ensures Overlay(Overlay(a, b), c) != Overlay(a, Overlay(b, c))
  {
    var x := Map(map["x" := Int(1)]);
    a, b, c := Map(map["k" := x]), Map(map["k" := Int(2)]), Map(map["k" := Map(map[])]);
    assert "x" in x.m;
    assert !Covers(c.m["k"], a.m["k"]);
    MergeAssociativeIff(a, b, c);
  }

  /** A path that is a map in the first and third profile but something else in the second. */
  ghost predicate Clash(a: Value, b: Value, c: Value, path: seq<string>) {
    && Lookup(a, path).Some? && Lookup(a, path).value.Map?
    && Lookup(b, path).Some? && !Lookup(b, path).value.Map?
    && Lookup(c, path).Some? && Lookup(c, path).value.Map?
  }

  /** Without such a path the merge is associative. */
  lemma {:induction false} NoClashAssociates(a: Value, b: Value, c: Value)
    requires forall path :: !Clash(a, b, c, path)
    ensures Associates(a, b, c)
    decreases a
  {
    assert !Clash(a, b, c, []);
    if a.Map? && b.Map? && c.Map? {
      forall k | k in a.m && k in b.m && k in c.m ensures Associates(a.m[k], b.m[k], c.m[k]) {
        forall path ensures !Clash(a.m[k], b.m[k], c.m[k], path) {
          assert ([k] + path)[1..] == path;
          assert !Clash(a, b, c, [k] + path);
        }
        NoClashAssociates(a.m[k], b.m[k], c.m[k]);
      }
    }
  }

  // ----- Extraction -----

  datatype GpuSpec = GpuSpec(
    product: string, memory: int, count: int, architecture: string, driverVersion: string, cudaVersion: string)

  const MIB := 1024 * 1024

  /** Go's integer division: towards zero. */
  function Quotient(n: int, d: int): int
    requires d > 0
  {
    if n >= 0 then n / d else -(-n / d)
  }

  function Truncate(r: real): int {
    if r >= 0.0 then r.Floor else -((-r).Floor)
  }

  function Get(m: map<string, Value>, key: string): Value { if key in m then m[key] else Null }

  function TextOf(v: Value): string { if v.Text? then v.s else "" }

  function ToMiB(v: Value): int {
    match v
    case Int(n) => Quotient(n, MIB)
    case Int64(n) => Quotient(n, MIB)
    case Float(r) => Truncate(r / (MIB as real))
    case _ => 0
  }

  function DeviceCount(profile: map<string, Value>): int {
    var count := match Get(profile, "device_count")
                 case Int(n) => n
                 case Int64(n) => n
                 case Float(r) => Truncate(r)
                 case _ => 0;
    if count > 0 then count
    else match Get(profile, "devices") case List(items) => |items| case _ => 0
  }

  function Extract(profile: Value): GpuSpec
    requires profile.Map?
  {
    var dd, sys := Get(profile.m, "device_defaults"), Get(profile.m, "system");
    var mem := if dd.Map? then Get(dd.m, "memory") else Null;
    GpuSpec(if dd.Map? then TextOf(Get(dd.m, "name")) else "",
            if mem.Map? then ToMiB(Get(mem.m, "total_bytes")) else 0,
            DeviceCount(profile.m),
            if dd.Map? then TextOf(Get(dd.m, "architecture")) else "",
            if sys.Map? then TextOf(Get(sys.m, "driver_version")) else "",
            if sys.Map? then TextOf(Get(sys.m, "cuda_version")) else "")
  }

  /** The text at a path of the profile, or "" when there is none. */
  predicate ReadsText(profile: Value, path: seq<string>, text: string) {
    match Lookup(profile, path)
    case Some(Text(s)) => text == s
    case _ => text == ""
  }

  /** n cut off to a whole multiple of unit, towards zero. */
  predicate CutOff(n: real, unit: real, whole: int) {
    || (n >= 0.0 && unit * whole as real <= n < unit * (whole + 1) as real)
    || (n <= 0.0 && unit * (whole - 1) as real < n <= unit * whole as real)
  }

  /** The number at a path, if there is one, counted in whole units. */
  predicate ReadsNumber(profile: Value, path: seq<string>, unit: real, whole: int) {
    match Lookup(profile, path)
    case Some(Int(n)) => CutOff(n as real, unit, whole)
    case Some(Int64(n)) => CutOff(n as real, unit, whole)
    case Some(Float(r)) => CutOff(r, unit, whole)
    case _ => whole == 0
  }

  /** The positive number under device_count, or else the length of the devices list, or else nothing. */
  ghost predicate ReadsCount(profile: Value, count: int) {
    exists given :: ReadsNumber(profile, ["device_count"], 1.0, given) &&
      if given > 0 then count == given
      else match Lookup(profile, ["devices"])
           case Some(List(items)) => count == |items|
           case _ => count == 0
  }

  /** Each extracted field is what the profile has at its path, the memory in whole MiB. */
  lemma ExtractReads(profile: Value)
    requires profile.Map?
    ensures var spec := Extract(profile);
      && ReadsText(profile, ["device_defaults", "name"], spec.product)
      && ReadsText(profile, ["device_defaults", "architecture"], spec.architecture)
      && ReadsText(profile, ["system", "driver_version"], spec.driverVersion)
      && ReadsText(profile, ["system", "cuda_version"], spec.cudaVersion)
      && ReadsNumber(profile, ["device_defaults", "memory", "total_bytes"], 1048576.0, spec.memory)
      && ReadsCount(profile, spec.count)
  {
    LookupTwo(profile, "device_defaults", "name");
    LookupTwo(profile, "device_defaults", "architecture");
    LookupTwo(profile, "system", "driver_version");
    LookupTwo(profile, "system", "cuda_version");
    MemoryReads(profile);
    CountReads(profile);
    hide Lookup, DeviceCount, ToMiB, ReadsNumber, ReadsCount;
  }

  lemma LookupOne(v: Value, key: string)
    ensures Lookup(v, [key]) == if v.Map? && key in v.m then Some(v.m[key]) else None
  {
    assert [key][1..] == [];
    if v.Map? && key in v.m { assert Lookup(v.m[key], []) == Some(v.m[key]); }
  }

  lemma LookupTwo(v: Value, key: string, below: string)
    ensures Lookup(v, [key, below]) ==
      if v.Map? && key in v.m && v.m[key].Map? && below in v.m[key].m then Some(v.m[key].m[below]) else None
  {
    assert [key, below][1..] == [below];
    if v.Map? && key in v.m { LookupOne(v.m[key], below); }
  }

  lemma QuotientCuts(n: int, d: int)
    requires d > 0
    ensures var q := Quotient(n, d);
      (n >= 0 && d * q <= n < d * (q + 1)) || (n <= 0 && d * (q - 1) < n <= d * q)
  {
  }

  lemma MiBCuts(n: int)
    ensures CutOff(n as real, 1048576.0, Quotient(n, MIB))
  {
    QuotientCuts(n, MIB);
    hide Quotient;
  }

  lemma FloatCuts(r: real)
    ensures CutOff(r, 1048576.0, Truncate(r / (MIB as real)))
    ensures CutOff(r, 1.0, Truncate(r))
  {
  }

  lemma MemoryReads(profile: Value)
    requires profile.Map?
    ensures ReadsNumber(profile, ["device_defaults", "memory", "total_bytes"], 1048576.0, Extract(profile).memory)
  {
    var path := ["device_defaults", "memory", "total_bytes"];
    assert path[1..] == ["memory", "total_bytes"];
    if "device_defaults" in profile.m {
      LookupTwo(profile.m["device_defaults"], "memory", "total_bytes");
    }
    match Lookup(profile, path)
    case Some(Int(n)) => MiBCuts(n);
    case Some(Int64(n)) => MiBCuts(n);
    case Some(Float(r)) => FloatCuts(r);
    case _ =>
  }

  lemma CountReads(profile: Value)
    requires profile.Map?
    ensures ReadsCount(profile, DeviceCount(profile.m))
  {
    LookupOne(profile, "device_count");
    LookupOne(profile, "devices");
    hide Lookup;
    var given := match Get(profile.m, "device_count")
                 case Int(n) => n
                 case Int64(n) => n
                 case Float(r) => Truncate(r)
                 case _ => 0;
    match Get(profile.m, "device_count") {
      case Float(r) => FloatCuts(r);
      case _ =>
    }
    assert ReadsNumber(profile, ["device_count"], 1.0, given);
  }
}
