/**
 Whole histories of pod events on one node.  A failed event leaves the stored table as it was, so a
 pod whose deletion failed keeps its GPUs and counts as live until a deletion succeeds.
 */
module GpuRuns {
  import opened Sequences
  import opened GpuTable
  import opened GpuLaws

  datatype Event =
    | Added(pod: Pod, cluster: Cluster)
    | Updated(pod: Pod, cluster: Cluster)
    | Deleted(pod: Pod, cluster: Cluster)

  type PodKey = (string, string)

  function KeyOf(pod: Pod): PodKey { (pod.namespace, pod.name) }

  /** What a deletion must know of the pod to release its GPUs; Kubernetes does not let it change while a pod exists. */
  datatype Spec = Spec(container: string, dedicated: bool, dra: bool)

  function SpecOf(pod: Pod): Spec
    requires |pod.containers| > 0
  {
    Spec(FirstContainer(pod), IsDedicated(pod), IsDra(pod))
  }

  datatype State = State(table: Table, live: map<PodKey, Spec>)

  /**
   Names identify live pods, live pods keep their specification, only known pods are updated.  A pod whose
   deletion failed counts as live, so a pod created again under its name has to have its specification too;
   RecreatedPodLeavesGpu is what happens otherwise.
   */
  ghost predicate Legal(s: State, e: Event) {
    && WellFormed(e.pod, e.cluster)
    && (KeyOf(e.pod) in s.live ==> s.live[KeyOf(e.pod)] == SpecOf(e.pod))
    && (e.Updated? ==> KeyOf(e.pod) in s.live)
  }

  function Outcome(t: Table, e: Event): Option<Table>
    requires |e.pod.containers| > 0
  {
    match e
    case Added(pod, c) => Add(t, pod, c)
    case Updated(pod, c) => Update(t, pod, c)
    case Deleted(pod, c) => Delete(t, pod, c)
  }

  ghost function Step(s: State, e: Event): State
    requires Legal(s, e)
  {
    var r := Outcome(s.table, e);
    var table := if r.Some? then r.value else s.table;
    if e.Deleted? then State(table, if r.Some? then s.live - {KeyOf(e.pod)} else s.live)
    else State(table, s.live[KeyOf(e.pod) := SpecOf(e.pod)])
  }

  ghost predicate LegalRun(s: State, es: seq<Event>)
    decreases |es|
  {
    |es| > 0 ==> Legal(s, es[0]) && LegalRun(Step(s, es[0]), es[1..])
  }

  ghost function Run(s: State, es: seq<Event>): State
    requires LegalRun(s, es)
    decreases |es|
  {
    if |es| == 0 then s else Run(Step(s, es[0]), es[1..])
  }

  /** The table generated for a new node. */
  function Generated(ids: seq<string>): Table {
    seq(|ids|, i requires 0 <= i < |ids| => Gpu(ids[i], NOBODY, map[]))
  }

  // ----- The invariant -----

  /** Deleting the live pod that owns g will release it. */
  predicate Releasable(g: Gpu, live: map<PodKey, Spec>) {
    var key := (g.owner.namespace, g.owner.pod);
    key in live && (live[key].dra || (live[key].dedicated && live[key].container == g.owner.container))
  }

  ghost predicate Consistent(s: State, ids: seq<string>) {
    && |s.table| == |ids|
    && forall i :: 0 <= i < |ids| ==>
         && s.table[i].id == ids[i]
         && (if Free(s.table[i]) then Clean(s.table[i]) else Releasable(s.table[i], s.live))
  }

  /** What an addition or update leaves at one position. */
  ghost predicate FineAfter(g: Gpu, h: Gpu, pod: Pod)
    requires |pod.containers| > 0
  {
    || (h.owner == g.owner && (Free(g) ==> h == g))
    || (Free(g) && OccupiedBy(h, pod) && (IsDra(pod) || (IsDedicated(pod) && h.owner.container == FirstContainer(pod))))
  }

  lemma DedicatedFine(t: Table, pod: Pod, c: Cluster)
    requires WellFormed(pod, c) && FreeAreClean(t)
    ensures DedicatedAdd(t, pod, c).Some? ==> var u := DedicatedAdd(t, pod, c).value;
      FreeAreClean(u) && forall i :: 0 <= i < |t| ==> FineAfter(t[i], u[i], pod)
    ensures var u := DedicatedUpdate(t, pod, c);
      FreeAreClean(u) && forall i :: 0 <= i < |t| ==> FineAfter(t[i], u[i], pod)
  {
  }

  lemma SharedFine(t: Table, pod: Pod, c: Cluster)
    requires WellFormed(pod, c) && FreeAreClean(t) && SharedCharge(t, pod, c).Some?
    ensures var u := SharedCharge(t, pod, c).value;
      && |u| == |t| && FreeAreClean(u)
      && forall i :: 0 <= i < |t| ==> u[i].owner == t[i].owner && u[i].id == t[i].id
  {
  }

  lemma DraFine(t: Table, pod: Pod, c: Cluster)
    requires WellFormed(pod, c) && FreeAreClean(t)
    ensures DraAdd(t, pod, c).Some? ==> var u := DraAdd(t, pod, c).value;
      FreeAreClean(u) && forall i :: 0 <= i < |t| ==> FineAfter(t[i], u[i], pod)
    ensures DraUpdate(t, pod, c).Some? ==> var u := DraUpdate(t, pod, c).value;
      FreeAreClean(u) && forall i :: 0 <= i < |t| ==> FineAfter(t[i], u[i], pod)
  {
    if !(IsDra(pod) && Holds(t, pod)) { DraUpdateUnheld(t, pod, c); }
  }

  lemma GrantsAreFine(t: Table, pod: Pod, c: Cluster, e: Event)
    requires WellFormed(pod, c) && FreeAreClean(t)
    requires e == Added(pod, c) || e == Updated(pod, c)
    requires Outcome(t, e).Some?
    ensures var u := Outcome(t, e).value;
      && OwnersKept(t, u) && FreeAreClean(u)
      && forall i :: 0 <= i < |t| && Free(t[i]) && !Free(u[i]) ==>
           OccupiedBy(u[i], pod) && (IsDra(pod) || (IsDedicated(pod) && u[i].owner.container == FirstContainer(pod)))
  {
    NoTakeover(t, pod, c);
    DedicatedKeeps(t, pod, c);
    DedicatedFine(t, pod, c);
    var a := if e.Added? then DedicatedAdd(t, pod, c).value else DedicatedUpdate(t, pod, c);
    SharedFine(a, pod, c);
    var b := SharedCharge(a, pod, c).value;
    DraKeeps(b, pod, c);
    DraFine(b, pod, c);
    hide DedicatedAdd, DedicatedUpdate, SharedCharge, DraAdd, DraUpdate;
  }

  lemma DeletionIsFine(t: Table, pod: Pod, c: Cluster)
    requires WellFormed(pod, c) && FreeAreClean(t) && Delete(t, pod, c).Some?
    ensures var u := Delete(t, pod, c).value;
      && |u| == |t| && FreeAreClean(u)
      && (forall i :: 0 <= i < |t| ==> u[i].id == t[i].id)
      && (forall i :: 0 <= i < |t| ==>
            if OccupiedBy(t[i], pod) && (IsDra(pod) || (IsDedicated(pod) && DedicatedTo(t[i], pod)))
            then Clean(u[i]) else u[i].owner == t[i].owner)
  {
    var d := DedicatedDelete(t, pod);
    var b := SharedUncharge(d, pod, c).value;
    assert FreeAreClean(d);
    assert |b| == |d| && FreeAreClean(b);
    assert forall i :: 0 <= i < |b| ==> b[i].owner == d[i].owner && b[i].id == d[i].id;
  }

  lemma StepKeepsConsistent(s: State, e: Event, ids: seq<string>)
    requires Consistent(s, ids) && Legal(s, e)
    ensures Consistent(Step(s, e), ids)
  {
    var t, pod, c := s.table, e.pod, e.cluster;
    assert FreeAreClean(t);
    if Outcome(t, e).Some? {
      if e.Deleted? {
        DeletionIsFine(t, pod, c);
        hide Delete;
      } else {
        GrantsAreFine(t, pod, c, e);
        hide Add, Update;
      }
    }
  }

  lemma {:induction false} RunKeepsConsistent(s: State, es: seq<Event>, ids: seq<string>)
    requires Consistent(s, ids) && LegalRun(s, es)
    ensures Consistent(Run(s, es), ids)
    decreases |es|
  {
    if |es| > 0 {
      StepKeepsConsistent(s, es[0], ids);
      RunKeepsConsistent(Step(s, es[0]), es[1..], ids);
    }
  }

  /**
   Safety over whole histories: whatever happened, the GPUs are the generated ones, a GPU without an
   owner has a wholly empty status, and every owner is a live pod.
   */
  lemma EveryReachableTable(ids: seq<string>, es: seq<Event>)
    requires LegalRun(State(Generated(ids), map[]), es)
    ensures Consistent(Run(State(Generated(ids), map[]), es), ids)
  {
    RunKeepsConsistent(State(Generated(ids), map[]), es, ids);
  }

  /** No leak: once every pod has been deleted, the table is the generated one again. */
  lemma NoLeak(ids: seq<string>, es: seq<Event>)
    requires LegalRun(State(Generated(ids), map[]), es)
    requires Run(State(Generated(ids), map[]), es).live == map[]
    ensures Run(State(Generated(ids), map[]), es).table == Generated(ids)
  {
    EveryReachableTable(ids, es);
    var s := Run(State(Generated(ids), map[]), es);
    forall i | 0 <= i < |ids| ensures s.table[i] == Generated(ids)[i] {
      assert s.table[i].id == ids[i];
      assert Free(s.table[i]);
    }
  }

  // ----- Ownership over time -----

  lemma StepKeepsOwner(s: State, e: Event, i: nat)
    requires Legal(s, e) && i < |s.table| && !Free(s.table[i])
    requires e.Deleted? ==> KeyOf(e.pod) != (s.table[i].owner.namespace, s.table[i].owner.pod)
    ensures |Step(s, e).table| == |s.table| && Step(s, e).table[i].owner == s.table[i].owner
  {
    if e.Deleted? {
      if Delete(s.table, e.pod, e.cluster).Some? {
        DeletionKeepsOthers(s.table, e.pod, e.cluster, i);
      }
      hide Delete;
    } else {
      NoTakeover(s.table, e.pod, e.cluster);
      hide Add, Update;
    }
  }

  lemma DeletionKeepsOthers(t: Table, pod: Pod, c: Cluster, i: nat)
    requires WellFormed(pod, c) && Delete(t, pod, c).Some? && i < |t| && !OccupiedBy(t[i], pod)
    ensures |Delete(t, pod, c).value| == |t| && Delete(t, pod, c).value[i].owner == t[i].owner
  {
    var d := DedicatedDelete(t, pod);
    var b := SharedUncharge(d, pod, c).value;
    assert d[i] == t[i] && b[i].owner == d[i].owner;
  }

  /** A GPU stays with its pod through any history in which that pod is not deleted. */
  lemma {:induction false} OwnerStays(s: State, es: seq<Event>, i: nat)
    requires LegalRun(s, es) && i < |s.table| && !Free(s.table[i])
    requires forall e :: e in es && e.Deleted? ==> KeyOf(e.pod) != (s.table[i].owner.namespace, s.table[i].owner.pod)
    ensures |Run(s, es).table| == |s.table| && Run(s, es).table[i].owner == s.table[i].owner
    decreases |es|
  {
    if |es| > 0 {
      StepKeepsOwner(s, es[0], i);
      OwnerStays(Step(s, es[0]), es[1..], i);
    }
  }

  /** States that follow each other by legal steps are a legal run. */
  lemma {:induction false} Chain(ss: seq<State>, es: seq<Event>)
    requires |ss| == |es| + 1
    requires forall k :: 0 <= k < |es| ==> Legal(ss[k], es[k]) && Step(ss[k], es[k]) == ss[k + 1]
    ensures LegalRun(ss[0], es) && Run(ss[0], es) == ss[|es|]
    decreases |es|
  {
    if |es| > 0 {
      hide Legal, Step;
      forall k | 0 <= k < |es| - 1
        ensures Legal(ss[1..][k], es[1..][k]) && Step(ss[1..][k], es[1..][k]) == ss[1..][k + 1]
      {
        assert ss[1..][k] == ss[k + 1] && es[1..][k] == es[k + 1];
      }
      Chain(ss[1..], es[1..]);
    }
  }

  /**
   Why a failed deletion must count as leaving the pod live: when a reservation pod goes before a pod
   that is both dedicated and shared on it, the latter's deletion fails and its own GPU stays taken.
   */
  lemma FailedDeletionKeepsGpu() returns (ids: seq<string>, r: Pod, p: Pod, c: Cluster)
    ensures var es := [Added(r, c), Added(p, c), Deleted(r, c), Deleted(p, c)];
      && LegalRun(State(Generated(ids), map[]), es)
      && KeyOf(p) in Run(State(Generated(ids), map[]), es).live
      && Holds(Run(State(Generated(ids), map[]), es).table, p)
  {
    ids := ["g0", "g1"];
    var none := Usage(0, 0, 0, false);
    r := Pod("reservation", "r", "uid-r", [Container("main", 0)], 1, None, None, true, [], [], none);
    p := Pod("team", "p", "uid-p", [Container("main", 0)], 1, None, Some("group"), false, [], [], none);
    c := Cluster("reservation", Some([ReservationPod("r", None, Some("group"))]), map[], true);
    var rOwner, pOwner := Owner("reservation", "r", "main"), Owner("team", "p", "main");
    var t0 := Generated(ids);
    var t1 := [Gpu("g0", rOwner, map[]), t0[1]];
    var t2 := [Gpu("g0", rOwner, map["uid-p" := none]), Gpu("g1", pOwner, map["uid-p" := none])];
    var t3 := [t0[0], t2[1]];
    FirstEvents(t0, t1, t2, r, p, c);
    LastEvents(t0, t2, t3, r, p, c);
    FourSteps(t0, t1, t2, t3, r, p, c);
  }

  /** The history, event by event: both additions and the reservation pod's deletion succeed, the last one fails. */
  lemma FourSteps(t0: Table, t1: Table, t2: Table, t3: Table, r: Pod, p: Pod, c: Cluster)
    requires WellFormed(r, c) && WellFormed(p, c) && KeyOf(r) != KeyOf(p)
    requires Add(t0, r, c) == Some(t1) && Add(t1, p, c) == Some(t2)
    requires Delete(t2, r, c) == Some(t3) && Delete(t3, p, c).None?
    ensures var es := [Added(r, c), Added(p, c), Deleted(r, c), Deleted(p, c)];
      LegalRun(State(t0, map[]), es) && Run(State(t0, map[]), es) == State(t3, map[KeyOf(p) := SpecOf(p)])
  {
    hide Add, Delete;
    var s0, s1 := State(t0, map[]), State(t1, map[KeyOf(r) := SpecOf(r)]);
    var s2, s3 := State(t2, s1.live[KeyOf(p) := SpecOf(p)]), State(t3, map[KeyOf(p) := SpecOf(p)]);
    assert s2.live - {KeyOf(r)} == s3.live;
    Chain([s0, s1, s2, s3, s3], [Added(r, c), Added(p, c), Deleted(r, c), Deleted(p, c)]);
  }

  lemma LastEvents(t0: Table, t2: Table, t3: Table, r: Pod, p: Pod, c: Cluster)
    requires |t0| == |t2| == |t3| == 2 && Clean(t0[0]) && Clean(t0[1])
    requires WellFormed(r, c) && WellFormed(p, c) && !IsDra(r) && !IsDra(p) && r.gpuLimit == 1 == p.gpuLimit
    requires IsReservation(r, c) && IsShared(p, c) && ReservationName(p, c) == Some(r.name) && p.name != r.name
    requires DedicatedTo(t2[0], r) && DedicatedTo(t2[1], p) && t2[0].id == t0[0].id && t2[1].id == t0[1].id
    requires t3 == [t0[0], t2[1]]
    ensures Delete(t2, r, c) == Some(t3) && Delete(t3, p, c).None? && Holds(t3, p)
  {
    assert DedicatedDelete(t2, r) == t3 && DraDelete(t3, r) == t3;
    assert DedicatedDelete(t3, p) == t0;
    assert OccupiedBy(t3[1], p);
  }

  lemma FirstEvents(t0: Table, t1: Table, t2: Table, r: Pod, p: Pod, c: Cluster)
    requires |t0| == |t1| == |t2| == 2 && Clean(t0[0]) && Clean(t0[1])
    requires WellFormed(r, c) && WellFormed(p, c) && !IsDra(r) && !IsDra(p) && r.gpuLimit == 1 == p.gpuLimit
    requires IsReservation(r, c) && r.indexAnnotated && IsShared(p, c) && ReservationName(p, c) == Some(r.name)
            && p.name != r.name
    requires t1 == [Grant(t0[0], r, FirstContainer(r)), t0[1]]
    requires t2 == [Charge(t1[0], p), Charge(Grant(t1[1], p, FirstContainer(p)), p)]
    ensures Add(t0, r, c) == Some(t1) && Add(t1, p, c) == Some(t2)
  {
    assert FreeBefore(t0, 1) == 1 && FreeBefore(t1, 1) == 0;
    assert DedicatedAlloc(t0, r, c) == t1;
    var a := DedicatedAlloc(t1, p, c);
    assert a == [t1[0], Charge(Grant(t1[1], p, FirstContainer(p)), p)];
    assert FirstNamed(a, r.name, 0);
    assert OwnsByName(a, r.name);
    assert ReservationIndex(a, p, c) == Some(0);
    assert !HoldsDedicated(t1, p);
    assert a[0 := Charge(a[0], p)] == t2;
  }

  /**
   A pod created again under the name of a pod whose deletion failed, with another first container: its own
   deletion succeeds and leaves the old GPU taken.
   */
  lemma RecreatedPodLeavesGpu() returns (t: Table, p: Pod, q: Pod, c: Cluster)
    ensures WellFormed(p, c) && WellFormed(q, c) && KeyOf(p) == KeyOf(q) && FreeAreClean(t)
    ensures HoldsDedicated(t, p) && Delete(t, p, c).None?
    ensures Add(t, q, c).Some? && Delete(Add(t, q, c).value, q, c).Some?
    ensures Holds(Delete(Add(t, q, c).value, q, c).value, q)
  {
    var none := Usage(0, 0, 0, false);
    p := Pod("team", "p", "uid-p", [Container("main", 0)], 1, None, Some("group"), false, [], [], none);
    q := Pod("team", "p", "uid-q", [Container("web", 0)], 1, None, None, false, [], [], none);
    c := Cluster("reservation", Some([ReservationPod("r", None, Some("group"))]), map[], true);
    t := [Gpu("g0", NOBODY, map[]), Gpu("g1", Owner("team", "p", "main"), map["uid-p" := none])];
    assert ReservationName(p, c) == Some("r");
    DeleteFailsIff(t, p, c);
    assert DedicatedTo(t[1], p);
    AddsOne(t, q, c, 0);
    var u := t[0 := DedicatedGrant(t[0], q, c)];
    DeleteFailsIff(u, q, c);
    assert OccupiedBy(u[1], q) && !ReleasedBy(u[1], q);
    DeletionReleasesAllIff(u, q, c);
  }

  // ----- A report left behind -----

  /** A pod that wants one GPU and nothing else takes the first free one. */
  lemma AddsOne(t: Table, pod: Pod, c: Cluster, k: nat)
    requires WellFormed(pod, c) && pod.gpuLimit == 1 && !IsShared(pod, c) && !IsDra(pod)
    requires IsReservation(pod, c) ==> pod.indexAnnotated
    requires k < |t| && Free(t[k]) && (forall j :: 0 <= j < k ==> !Free(t[j])) && !HoldsDedicated(t, pod)
    ensures Add(t, pod, c) == Some(t[k := DedicatedGrant(t[k], pod, c)])
  {
    NoneFreeBefore(t, k);
    forall i | k < i < |t| ensures !FirstFit(t, pod, i) { FreeBeforeGrows(t, k + 1, i); }
    assert DedicatedAlloc(t, pod, c) == t[k := DedicatedGrant(t[k], pod, c)];
  }

  lemma {:induction false} NoneFreeBefore(t: Table, k: nat)
    requires k <= |t| && forall j :: 0 <= j < k ==> !Free(t[j])
    ensures FreeBefore(t, k) == 0
  {
    if k > 0 { NoneFreeBefore(t, k - 1); }
  }

  /** A pod that only shares reports on the first GPU of its reservation pod's name. */
  lemma AddsReport(t: Table, pod: Pod, c: Cluster, k: nat)
    requires WellFormed(pod, c) && !IsDedicated(pod) && IsShared(pod, c) && !IsDra(pod)
    requires ReservationName(pod, c).Some? && FirstNamed(t, ReservationName(pod, c).value, k)
    ensures Add(t, pod, c) == Some(t[k := Charge(t[k], pod)])
  {
    assert OwnsByName(t, ReservationName(pod, c).value);
    assert ReservationIndex(t, pod, c) == Some(k);
  }

  lemma TakesReport(t: Table, pod: Pod, c: Cluster, k: nat)
    requires WellFormed(pod, c) && !IsDedicated(pod) && IsShared(pod, c) && !IsDra(pod)
    requires ReservationName(pod, c).Some? && FirstNamed(t, ReservationName(pod, c).value, k)
    ensures Delete(t, pod, c) == Some(t[k := t[k].(usage := t[k].usage - {pod.uid})])
  {
    assert OwnsByName(t, ReservationName(pod, c).value);
    assert ReservationIndex(t, pod, c) == Some(k);
    assert DedicatedDelete(t, pod) == t;
    var u := t[k := t[k].(usage := t[k].usage - {pod.uid})];
    assert DraDelete(u, pod) == u;
  }

  lemma DeletesOne(t: Table, pod: Pod, c: Cluster, k: nat)
    requires WellFormed(pod, c) && pod.gpuLimit == 1 && !IsShared(pod, c) && !IsDra(pod)
    requires k < |t| && forall j :: 0 <= j < |t| ==> (DedicatedTo(t[j], pod) <==> j == k)
    ensures Delete(t, pod, c) == Some(t[k := Released(t[k])])
  {
    var u := t[k := Released(t[k])];
    assert DedicatedDelete(t, pod) == u && DraDelete(u, pod) == u;
  }

  lemma GrantStep(s: State, pod: Pod, c: Cluster, u: Table)
    requires WellFormed(pod, c) && KeyOf(pod) !in s.live && Add(s.table, pod, c) == Some(u)
    ensures Legal(s, Added(pod, c)) && Step(s, Added(pod, c)) == State(u, s.live[KeyOf(pod) := SpecOf(pod)])
  {
    hide Add, KeyOf, SpecOf;
  }

  lemma DropStep(s: State, pod: Pod, c: Cluster, u: Table)
    requires WellFormed(pod, c) && KeyOf(pod) in s.live && s.live[KeyOf(pod)] == SpecOf(pod)
    requires Delete(s.table, pod, c) == Some(u)
    ensures Legal(s, Deleted(pod, c)) && Step(s, Deleted(pod, c)) == State(u, s.live - {KeyOf(pod)})
  {
    hide Delete, KeyOf, SpecOf;
  }

  lemma {:induction false} RunConcat(s: State, a: seq<Event>, b: seq<Event>)
    requires LegalRun(s, a) && LegalRun(Run(s, a), b)
    ensures LegalRun(s, a + b) && Run(s, a + b) == Run(Run(s, a), b)
    decreases |a|
  {
    if |a| == 0 {
      assert a + b == b;
    } else {
      assert (a + b)[1..] == a[1..] + b && (a + b)[0] == a[0];
      RunConcat(Step(s, a[0]), a[1..], b);
    }
  }

  /** Three pods come. */
  lemma ThreeCome(t0: Table, t1: Table, t2: Table, t3: Table, x: Pod, r: Pod, p: Pod, c: Cluster)
    requires WellFormed(x, c) && WellFormed(r, c) && WellFormed(p, c)
    requires KeyOf(x) != KeyOf(r) && KeyOf(x) != KeyOf(p) && KeyOf(r) != KeyOf(p)
    requires Add(t0, x, c) == Some(t1) && Add(t1, r, c) == Some(t2) && Add(t2, p, c) == Some(t3)
    ensures var es := [Added(x, c), Added(r, c), Added(p, c)];
      && LegalRun(State(t0, map[]), es)
      && Run(State(t0, map[]), es)
         == State(t3, map[KeyOf(x) := SpecOf(x)][KeyOf(r) := SpecOf(r)][KeyOf(p) := SpecOf(p)])
  {
    var s0, s1 := State(t0, map[]), State(t1, map[KeyOf(x) := SpecOf(x)]);
    var s2 := State(t2, s1.live[KeyOf(r) := SpecOf(r)]);
    var s3 := State(t3, s2.live[KeyOf(p) := SpecOf(p)]);
    hide Add, KeyOf, SpecOf;
    GrantStep(s0, x, c, t1);
    GrantStep(s1, r, c, t2);
    GrantStep(s2, p, c, t3);
    hide *;
    Chain([s0, s1, s2, s3], [Added(x, c), Added(r, c), Added(p, c)]);
  }

  /** One pod goes, another comes, and a third goes. */
  lemma GoComeGo(s: State, t4: Table, t5: Table, t6: Table, x: Pod, p: Pod, n: Pod, c: Cluster)
    requires WellFormed(x, c) && WellFormed(p, c) && WellFormed(n, c)
    requires KeyOf(x) in s.live && s.live[KeyOf(x)] == SpecOf(x) && KeyOf(p) in s.live && s.live[KeyOf(p)] == SpecOf(p)
    requires KeyOf(n) !in s.live && KeyOf(x) != KeyOf(p)
    requires Delete(s.table, x, c) == Some(t4) && Add(t4, n, c) == Some(t5) && Delete(t5, p, c) == Some(t6)
    ensures var es := [Deleted(x, c), Added(n, c), Deleted(p, c)];
      LegalRun(s, es) && Run(s, es).table == t6 && KeyOf(p) !in Run(s, es).live
  {
    var s4 := State(t4, s.live - {KeyOf(x)});
    var s5 := State(t5, s4.live[KeyOf(n) := SpecOf(n)]);
    var s6 := State(t6, s5.live - {KeyOf(p)});
    hide Add, Delete, KeyOf, SpecOf;
    DropStep(s, x, c, t4);
    GrantStep(s4, n, c, t5);
    DropStep(s5, p, c, t6);
    hide *;
    Chain([s, s4, s5, s6], [Deleted(x, c), Added(n, c), Deleted(p, c)]);
  }

  /**
   A report left behind: pod x holds the first GPU and reservation pod r the second, where p reports.  x
   goes, and n, of r's name in another namespace, gets the first GPU.  The deletion of p looks there.
   */
  lemma NamesakeLeavesReport() returns (ids: seq<string>, x: Pod, r: Pod, p: Pod, n: Pod, c: Cluster)
    ensures NoDuplicates([x.uid, r.uid, p.uid, n.uid])
    ensures var es := [Added(x, c), Added(r, c), Added(p, c), Deleted(x, c), Added(n, c), Deleted(p, c)];
      && LegalRun(State(Generated(ids), map[]), es)
      && var s := Run(State(Generated(ids), map[]), es);
         KeyOf(p) !in s.live && |s.table| == 2 && p.uid in s.table[1].usage
  {
    ids := ["g0", "g1"];
    var none := Usage(0, 0, 0, false);
    x := Pod("team", "x", "uid-x", [Container("main", 0)], 1, None, None, false, [], [], none);
    r := Pod("reservation", "r", "uid-r", [Container("main", 0)], 1, None, None, true, [], [], none);
    p := Pod("team", "p", "uid-p", [Container("main", 0)], 0, None, Some("group"), false, [], [], none);
    n := Pod("other", "r", "uid-n", [Container("main", 0)], 1, None, None, false, [], [], none);
    c := Cluster("reservation", Some([ReservationPod("r", None, Some("group"))]), map[], true);
    assert ReservationName(p, c) == Some("r");
    LeavesReport(ids, x, r, p, n, c);
  }

  lemma LeavesReport(ids: seq<string>, x: Pod, r: Pod, p: Pod, n: Pod, c: Cluster)
    requires |ids| == 2 && Plain(x, c) && Plain(r, c) && Plain(n, c) && OnlyShares(p, c, r.name)
    requires x.name != r.name == n.name && p.name != r.name && p.name != x.name && r.namespace != n.namespace
    ensures var es := [Added(x, c), Added(r, c), Added(p, c), Deleted(x, c), Added(n, c), Deleted(p, c)];
      && LegalRun(State(Generated(ids), map[]), es)
      && var s := Run(State(Generated(ids), map[]), es);
         KeyOf(p) !in s.live && |s.table| == 2 && p.uid in s.table[1].usage
  {
    var t0 := Generated(ids);
    var t1, t2, t3, t4, t5, t6 := SixTables(t0, x, r, p, n, c);
    assert WellFormed(x, c) && WellFormed(r, c) && WellFormed(p, c) && WellFormed(n, c);
    assert KeyOf(x) != KeyOf(r) && KeyOf(x) != KeyOf(p) && KeyOf(r) != KeyOf(p);
    assert KeyOf(n) != KeyOf(x) && KeyOf(n) != KeyOf(r) && KeyOf(n) != KeyOf(p);
    hide *;
    SixSteps(t0, t1, t2, t3, t4, t5, t6, x, r, p, n, c);
  }

  /** Three pods come, the first goes, a fourth comes, the third goes. */
  lemma SixSteps(t0: Table, t1: Table, t2: Table, t3: Table, t4: Table, t5: Table, t6: Table,
                 x: Pod, r: Pod, p: Pod, n: Pod, c: Cluster)
    requires WellFormed(x, c) && WellFormed(r, c) && WellFormed(p, c) && WellFormed(n, c)
    requires KeyOf(x) != KeyOf(r) && KeyOf(x) != KeyOf(p) && KeyOf(r) != KeyOf(p)
    requires KeyOf(n) != KeyOf(x) && KeyOf(n) != KeyOf(r) && KeyOf(n) != KeyOf(p)
    requires Add(t0, x, c) == Some(t1) && Add(t1, r, c) == Some(t2) && Add(t2, p, c) == Some(t3)
    requires Delete(t3, x, c) == Some(t4) && Add(t4, n, c) == Some(t5) && Delete(t5, p, c) == Some(t6)
    ensures var es := [Added(x, c), Added(r, c), Added(p, c), Deleted(x, c), Added(n, c), Deleted(p, c)];
      && LegalRun(State(t0, map[]), es) && Run(State(t0, map[]), es).table == t6
      && KeyOf(p) !in Run(State(t0, map[]), es).live
  {
    hide Add, Delete, KeyOf, SpecOf, LegalRun, Run;
    ThreeCome(t0, t1, t2, t3, x, r, p, c);
    var s3 := State(t3, map[KeyOf(x) := SpecOf(x)][KeyOf(r) := SpecOf(r)][KeyOf(p) := SpecOf(p)]);
    GoComeGo(s3, t4, t5, t6, x, p, n, c);
    SixEvents(State(t0, map[]), s3, Added(x, c), Added(r, c), Added(p, c), Deleted(x, c), Added(n, c), Deleted(p, c));
  }

  lemma SixEvents(s: State, s3: State, a: Event, b: Event, c: Event, d: Event, e: Event, f: Event)
    requires LegalRun(s, [a, b, c]) && Run(s, [a, b, c]) == s3 && LegalRun(s3, [d, e, f])
    ensures LegalRun(s, [a, b, c, d, e, f]) && Run(s, [a, b, c, d, e, f]) == Run(s3, [d, e, f])
  {
    hide *;
    RunConcat(s, [a, b, c], [d, e, f]);
    assert [a, b, c] + [d, e, f] == [a, b, c, d, e, f];
  }

  lemma SixTables(t: Table, x: Pod, r: Pod, p: Pod, n: Pod, c: Cluster)
    returns (t1: Table, t2: Table, t3: Table, t4: Table, t5: Table, t6: Table)
    requires |t| == 2 && Clean(t[0]) && Clean(t[1])
    requires Plain(x, c) && Plain(r, c) && Plain(n, c) && OnlyShares(p, c, r.name)
    requires x.name != r.name == n.name && r.namespace != n.namespace
    ensures Add(t, x, c) == Some(t1) && Add(t1, r, c) == Some(t2) && Add(t2, p, c) == Some(t3)
    ensures Delete(t3, x, c) == Some(t4) && Add(t4, n, c) == Some(t5) && Delete(t5, p, c) == Some(t6)
    ensures |t6| == 2 && p.uid in t6[1].usage
  {
    hide Add, Delete, ReservationName;
    t1, t2, t3 := FirstThree(t, x, r, p, c);
    t4, t5, t6 := LastThree(t3, x, p, n, c);
  }

  /** A pod for one GPU and nothing else. */
  ghost predicate Plain(pod: Pod, c: Cluster) {
    && WellFormed(pod, c) && pod.gpuLimit == 1 && !IsShared(pod, c) && !IsDra(pod)
    && (IsReservation(pod, c) ==> pod.indexAnnotated)
  }

  ghost predicate OnlyShares(pod: Pod, c: Cluster, name: string) {
    && WellFormed(pod, c) && !IsDedicated(pod) && IsShared(pod, c) && !IsDra(pod)
    && ReservationName(pod, c) == Some(name)
  }

  lemma FirstThree(t: Table, x: Pod, r: Pod, p: Pod, c: Cluster) returns (t1: Table, t2: Table, t3: Table)
    requires |t| == 2 && Clean(t[0]) && Clean(t[1])
    requires Plain(x, c) && Plain(r, c) && x.name != r.name && OnlyShares(p, c, r.name)
    ensures Add(t, x, c) == Some(t1) && Add(t1, r, c) == Some(t2) && Add(t2, p, c) == Some(t3)
    ensures |t3| == 2 && DedicatedTo(t3[0], x) && OccupiedBy(t3[1], r) && p.uid in t3[1].usage
  {
    t1 := t[0 := DedicatedGrant(t[0], x, c)];
    AddsOne(t, x, c, 0);
    t2 := t1[1 := DedicatedGrant(t1[1], r, c)];
    AddsOne(t1, r, c, 1);
    t3 := t2[1 := Charge(t2[1], p)];
    AddsReport(t2, p, c, 1);
    hide Add;
  }

  lemma LastThree(t: Table, x: Pod, p: Pod, n: Pod, c: Cluster) returns (t1: Table, t2: Table, t3: Table)
    requires |t| == 2 && Plain(x, c) && Plain(n, c) && OnlyShares(p, c, n.name)
    requires DedicatedTo(t[0], x) && !OccupiedBy(t[1], x) && !Free(t[1]) && !OccupiedBy(t[1], n)
    requires p.uid in t[1].usage
    ensures Delete(t, x, c) == Some(t1) && Add(t1, n, c) == Some(t2) && Delete(t2, p, c) == Some(t3)
    ensures |t3| == 2 && p.uid in t3[1].usage
  {
    t1 := t[0 := Released(t[0])];
    DeletesOne(t, x, c, 0);
    t2 := t1[0 := DedicatedGrant(t1[0], n, c)];
    AddsOne(t1, n, c, 0);
    t3 := t2[0 := t2[0].(usage := t2[0].usage - {p.uid})];
    TakesReport(t2, p, c, 0);
    hide Add, Delete;
  }
}
