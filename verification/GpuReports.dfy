/**
 Usage reports over whole histories.  A shared pod reports on its reservation pod's GPU and takes the
 report back from the GPU it finds at its deletion; when the lookup stays the same in between, every
 report on the node belongs to a live pod.
 */
module GpuReports {
  import opened GpuLaws
  import opened GpuRuns
  import opened GpuTable
  import opened Sequences

  /** What identifies a live pod's reports: its uid, and the name of its reservation pod if it is shared. */
  datatype Tag = Tag(uid: string, reservation: Option<string>)

  function TagOf(pod: Pod, c: Cluster): Tag {
    Tag(pod.uid, if IsShared(pod, c) then ReservationName(pod, c) else None)
  }

  datatype Tracked = Tracked(state: State, tags: map<PodKey, Tag>)

  /** The event grants no namesake of the reservation pod a GPU in front of the first one of that name. */
  ghost predicate NobodyInFront(t: Table, e: Event, tag: Tag)
    requires |e.pod.containers| > 0
  {
    !e.Deleted? && tag.reservation == Some(e.pod.name) ==>
      forall r, k :: 0 <= k < r < |t| && FirstNamed(t, e.pod.name, r) ==> !Grants(t, e.pod, e.cluster, e.Added?, k)
  }

  /** A GPU that was the first of its name and still carries the name is still the first. */
  ghost predicate LookupKept(t: Table, u: Table, name: string) {
    forall i :: 0 <= i < |u| && FirstNamed(t, name, i) && u[i].owner.pod == name ==> FirstNamed(u, name, i)
  }

  /** Live pods have distinct uids and keep their lookup, and no namesake gets in front of a reservation pod. */
  ghost predicate Steady(s: Tracked, e: Event) {
    && Legal(s.state, e)
    && (KeyOf(e.pod) in s.tags ==> s.tags[KeyOf(e.pod)] == TagOf(e.pod, e.cluster))
    && (forall k :: k in s.tags && k != KeyOf(e.pod) ==> s.tags[k].uid != e.pod.uid)
    && (Outcome(s.state.table, e).Some? ==>
          && (forall k :: k in s.tags ==> NobodyInFront(s.state.table, e, s.tags[k]))
          && NobodyInFront(s.state.table, e, TagOf(e.pod, e.cluster)))
  }

  ghost function Track(s: Tracked, e: Event): Tracked
    requires Legal(s.state, e)
  {
    var after := Step(s.state, e);
    Tracked(after, if KeyOf(e.pod) in after.live then s.tags[KeyOf(e.pod) := TagOf(e.pod, e.cluster)]
                   else s.tags - {KeyOf(e.pod)})
  }

  ghost predicate SteadyRun(s: Tracked, es: seq<Event>)
    decreases |es|
  {
    |es| > 0 ==> Steady(s, es[0]) && SteadyRun(Track(s, es[0]), es[1..])
  }

  ghost function TrackRun(s: Tracked, es: seq<Event>): Tracked
    requires SteadyRun(s, es)
    decreases |es|
  {
    if |es| == 0 then s else TrackRun(Track(s, es[0]), es[1..])
  }

  // ----- The invariant -----

  function OwnerKey(g: Gpu): PodKey { (g.owner.namespace, g.owner.pod) }

  /** The report uid on GPU i is the pod's own: on a GPU it holds, or on the first of its reservation pod. */
  ghost predicate Explains(t: Table, i: nat, uid: string, key: PodKey, tag: Tag)
    requires i < |t|
  {
    && tag.uid == uid
    && (OwnerKey(t[i]) == key || (tag.reservation.Some? && FirstNamed(t, tag.reservation.value, i)))
  }

  ghost predicate Explained(s: Tracked, i: nat, uid: string)
    requires i < |s.state.table|
  {
    exists k :: k in s.tags && Explains(s.state.table, i, uid, k, s.tags[k])
  }

  ghost predicate UidsDistinct(tags: map<PodKey, Tag>) {
    && (forall k, l :: k in tags && l in tags && k != l ==> tags[k].uid != tags[l].uid)
    && (forall k :: k in tags ==> tags[k].reservation != Some(""))
  }

  ghost predicate Accounted(s: Tracked, ids: seq<string>) {
    && Consistent(s.state, ids)
    && s.tags.Keys == s.state.live.Keys && UidsDistinct(s.tags)
    && (forall i, uid :: 0 <= i < |s.state.table| && uid in s.state.table[i].usage ==> Explained(s, i, uid))
  }

  // ----- New reports -----

  /** Where an addition or update may have put the pod's own report. */
  ghost predicate OwnPlace(t: Table, u: Table, pod: Pod, c: Cluster, i: nat)
    requires |u| == |t| && i < |t|
  {
    || pod.uid in t[i].usage
    || OccupiedBy(u[i], pod)
    || ChargedAt(t, pod, c, i)
  }

  /** A stage grants free GPUs to the pod, and reports for it only on GPUs it holds afterwards. */
  ghost predicate Places(t: Table, u: Table, pod: Pod) {
    && |u| == |t|
    && forall i :: 0 <= i < |t| ==>
         && (u[i].owner == t[i].owner || (Free(t[i]) && OccupiedBy(u[i], pod)))
         && (pod.uid in u[i].usage ==> pod.uid in t[i].usage || OccupiedBy(u[i], pod))
  }

  lemma DedicatedPlaces(t: Table, pod: Pod, c: Cluster)
    requires WellFormed(pod, c)
    ensures DedicatedAdd(t, pod, c).Some? ==> Places(t, DedicatedAdd(t, pod, c).value, pod)
    ensures Places(t, DedicatedUpdate(t, pod, c), pod)
  {
  }

  lemma DraPlaces(t: Table, pod: Pod, c: Cluster)
    requires WellFormed(pod, c)
    ensures DraAdd(t, pod, c).Some? ==> Places(t, DraAdd(t, pod, c).value, pod)
    ensures DraUpdate(t, pod, c).Some? ==> Places(t, DraUpdate(t, pod, c).value, pod)
  {
    if !(IsDra(pod) && Holds(t, pod)) { DraUpdateUnheld(t, pod, c); }
  }

  lemma SharedPlaces(a: Table, b: Table, pod: Pod, c: Cluster)
    requires WellFormed(pod, c) && SharedCharge(a, pod, c) == Some(b)
    ensures |b| == |a| && forall i :: 0 <= i < |a| ==>
      && b[i].owner == a[i].owner
      && (pod.uid in b[i].usage && pod.uid !in a[i].usage ==> ChargedAt(a, pod, c, i))
  {
  }

  ghost predicate ChargedAt(a: Table, pod: Pod, c: Cluster, i: nat) {
    IsShared(pod, c) && ReservationName(pod, c).Some? && FirstNamed(a, ReservationName(pod, c).value, i)
  }

  lemma NewReports(t: Table, pod: Pod, c: Cluster, e: Event)
    requires WellFormed(pod, c) && (e == Added(pod, c) || e == Updated(pod, c)) && Outcome(t, e).Some?
    ensures var u := Outcome(t, e).value;
      |u| == |t| && forall i :: 0 <= i < |t| && pod.uid in u[i].usage ==> OwnPlace(t, u, pod, c, i)
  {
    var a := if e.Added? then DedicatedAdd(t, pod, c).value else DedicatedUpdate(t, pod, c);
    DedicatedPlaces(t, pod, c);
    var b := SharedCharge(a, pod, c).value;
    SharedPlaces(a, b, pod, c);
    var u := Outcome(t, e).value;
    DraPlaces(b, pod, c);
    assert ReservationName(pod, c) != Some("");
    hide DedicatedAdd, DedicatedUpdate, SharedCharge, DraAdd, DraUpdate, ReservationName;
    forall i | 0 <= i < |t| && pod.uid in u[i].usage ensures OwnPlace(t, u, pod, c, i) {
      assert ChargedAt(a, pod, c, i) && !OccupiedBy(a[i], pod) ==> ChargedAt(t, pod, c, i);
    }
  }

  // ----- Lookups -----

  lemma NewOwners(t: Table, e: Event)
    requires WellFormed(e.pod, e.cluster) && FreeAreClean(t) && Outcome(t, e).Some?
    ensures var u := Outcome(t, e).value;
      && |u| == |t|
      && forall k :: 0 <= k < |t| ==>
           if Free(t[k]) then
             && (Free(u[k]) || OccupiedBy(u[k], e.pod))
             && (!Free(u[k]) <==> !e.Deleted? && Grants(t, e.pod, e.cluster, e.Added?, k))
           else u[k].owner == t[k].owner || (e.Deleted? && Free(u[k]))
  {
    var pod, c := e.pod, e.cluster;
    if e.Deleted? {
      DeletionIsFine(t, pod, c);
    } else {
      GrantsAreFine(t, pod, c, e);
      if e.Added? { AdditionGrants(t, pod, c); } else { UpdateGrants(t, pod, c); }
    }
    hide Add, Update, Delete, Grants;
  }

  /** An event keeps the lookup of a reservation pod iff nobody gets in front of it. */
  lemma LookupKeptIff(t: Table, e: Event, tag: Tag)
    requires WellFormed(e.pod, e.cluster) && FreeAreClean(t) && Outcome(t, e).Some?
    requires tag.reservation.Some? && tag.reservation.value != ""
    ensures LookupKept(t, Outcome(t, e).value, tag.reservation.value) <==> NobodyInFront(t, e, tag)
  {
    var u, n := Outcome(t, e).value, tag.reservation.value;
    NewOwners(t, e);
    hide Outcome, Grants, WellFormed, FreeAreClean;
    if !NobodyInFront(t, e, tag) {
      var r, k :| 0 <= k < r < |t| && FirstNamed(t, n, r) && Grants(t, e.pod, e.cluster, e.Added?, k);
      assert t[k].owner.pod != n;
    }
  }

  // ----- One event -----

  /** A report that had an explanation keeps it, when its GPU keeps its owner. */
  lemma StillExplained(s: Tracked, e: Event, ids: seq<string>, i: nat, uid: string, k: PodKey, tag: Tag)
    requires Accounted(s, ids) && Legal(s.state, e) && Outcome(s.state.table, e).Some?
    requires |Outcome(s.state.table, e).value| == |s.state.table| && i < |s.state.table|
    requires Explains(s.state.table, i, uid, k, tag) && tag.reservation != Some("")
    requires NobodyInFront(s.state.table, e, tag)
    requires Outcome(s.state.table, e).value[i].owner == s.state.table[i].owner
    ensures Explains(Outcome(s.state.table, e).value, i, uid, k, tag)
  {
    if tag.reservation.Some? {
      LookupKeptIff(s.state.table, e, tag);
    }
    hide Outcome, NobodyInFront;
  }

  lemma ExplainedAfterGrant(s: Tracked, e: Event, ids: seq<string>, i: nat, uid: string)
    requires Accounted(s, ids) && Steady(s, e) && !e.Deleted? && Outcome(s.state.table, e).Some?
    requires |Outcome(s.state.table, e).value| == |s.state.table| && i < |s.state.table|
    requires uid in Outcome(s.state.table, e).value[i].usage
    ensures Explained(Track(s, e), i, uid)
  {
    var t, pod, c, u := s.state.table, e.pod, e.cluster, Outcome(s.state.table, e).value;
    var key, tag, after := KeyOf(pod), TagOf(pod, c), Track(s, e);
    NoTakeover(t, pod, c);
    NewReports(t, pod, c, e);
    assert tag.reservation != Some("");
    if uid != pod.uid { OtherReportsKept(t, pod, c, uid); }
    assert uid != pod.uid ==> SameReport(t[i], u[i], uid);
    assert ChargedAt(t, pod, c, i) ==> Explains(t, i, pod.uid, key, tag) && !Free(t[i]);
    hide Add, Update, Delete, Legal, TagOf, ChargedAt, NobodyInFront;
    if uid in t[i].usage {
      var k :| k in s.tags && Explains(t, i, uid, k, s.tags[k]);
      assert !Free(t[i]) && u[i].owner == t[i].owner;
      StillExplained(s, e, ids, i, uid, k, s.tags[k]);
      assert after.tags[k] == s.tags[k];
      assert Explains(u, i, uid, k, after.tags[k]);
    } else {
      assert OwnPlace(t, u, pod, c, i);
      if !OccupiedBy(u[i], pod) {
        StillExplained(s, e, ids, i, uid, key, tag);
      }
      assert Explains(u, i, uid, key, tag) by { assert tag.uid == uid; }
      assert after.tags[key] == tag;
    }
  }

  lemma DeletionReports(t: Table, pod: Pod, c: Cluster, i: nat, uid: string)
    requires WellFormed(pod, c) && FreeAreClean(t) && Delete(t, pod, c).Some? && i < |t|
    ensures var u := Delete(t, pod, c).value;
      |u| == |t| && (uid in u[i].usage ==>
        && uid in t[i].usage && u[i].owner == t[i].owner
        && !(uid == pod.uid && ChargedAt(t, pod, c, i) && !OccupiedBy(t[i], pod)))
  {
    var d := DedicatedDelete(t, pod);
    assert forall j :: 0 <= j < |t| ==> d[j] == t[j] || Clean(d[j]);
    var b := SharedUncharge(d, pod, c).value;
    assert ReservationName(pod, c) != Some("");
    assert ChargedAt(t, pod, c, i) && !OccupiedBy(t[i], pod) ==> ChargedAt(d, pod, c, i);
  }

  lemma ExplainedAfterDeletion(s: Tracked, e: Event, ids: seq<string>, i: nat, uid: string)
    requires Accounted(s, ids) && Steady(s, e) && e.Deleted? && Outcome(s.state.table, e).Some?
    requires |Outcome(s.state.table, e).value| == |s.state.table| && i < |s.state.table|
    requires uid in Outcome(s.state.table, e).value[i].usage
    ensures Explained(Track(s, e), i, uid)
  {
    var t, pod, c, u := s.state.table, e.pod, e.cluster, Outcome(s.state.table, e).value;
    var key, after := KeyOf(pod), Track(s, e);
    DeletionReports(t, pod, c, i, uid);
    DeletionIsFine(t, pod, c);
    hide Delete, Add, Update, ReservationName, IsShared;
    var k :| k in s.tags && Explains(t, i, uid, k, s.tags[k]);
    var g := t[i];
    assert !Free(g);
    assert OwnerKey(g) == key ==> Releasable(g, s.state.live);
    assert k == key ==> OwnerKey(g) == key || ChargedAt(t, pod, c, i);
    assert k != key;
    assert after.tags[k] == s.tags[k];
    assert Explains(u, i, uid, k, after.tags[k]);
  }

  lemma ExplainedAfter(s: Tracked, e: Event, ids: seq<string>, i: nat, uid: string)
    requires Accounted(s, ids) && Steady(s, e)
    requires i < |Track(s, e).state.table| && uid in Track(s, e).state.table[i].usage
    requires Consistent(Track(s, e).state, ids)
    ensures Explained(Track(s, e), i, uid)
  {
    hide Add, Update, Delete, ReservationName, IsShared, NobodyInFront, Releasable, Clean;
    var after := Track(s, e);
    if Outcome(s.state.table, e).None? {
      var k :| k in s.tags && Explains(s.state.table, i, uid, k, s.tags[k]);
      assert after.tags[k] == s.tags[k];
    } else if e.Deleted? {
      ExplainedAfterDeletion(s, e, ids, i, uid);
    } else {
      ExplainedAfterGrant(s, e, ids, i, uid);
    }
  }

  lemma StepKeepsTags(s: Tracked, e: Event)
    requires s.tags.Keys == s.state.live.Keys && UidsDistinct(s.tags) && Steady(s, e)
    ensures Track(s, e).tags.Keys == Track(s, e).state.live.Keys && UidsDistinct(Track(s, e).tags)
  {
    var key, tag, after := KeyOf(e.pod), TagOf(e.pod, e.cluster), Track(s, e);
    assert tag.reservation != Some("");
    assert forall k :: k in s.tags && k != key ==> s.tags[k].uid != tag.uid;
    hide Outcome, TagOf, NobodyInFront, SpecOf, KeyOf;
    assert after.tags.Keys == after.state.live.Keys;
    hide Step, UidsDistinct;
    OneTagMore(s.tags, key, tag);
  }

  lemma OneTagMore(tags: map<PodKey, Tag>, key: PodKey, tag: Tag)
    requires UidsDistinct(tags) && tag.reservation != Some("")
    requires forall k :: k in tags && k != key ==> tags[k].uid != tag.uid
    ensures UidsDistinct(tags[key := tag]) && UidsDistinct(tags - {key})
  {
  }

  lemma StepKeepsAccounted(s: Tracked, e: Event, ids: seq<string>)
    requires Accounted(s, ids) && Steady(s, e)
    ensures Accounted(Track(s, e), ids)
  {
    StepKeepsConsistent(s.state, e, ids);
    StepKeepsTags(s, e);
    var after := Track(s, e);
    hide Consistent, Explained, Outcome, ReservationName, IsShared, NobodyInFront, UidsDistinct, Legal, Step;
    forall i, uid | 0 <= i < |after.state.table| && uid in after.state.table[i].usage
      ensures Explained(after, i, uid)
    {
      ExplainedAfter(s, e, ids, i, uid);
    }
  }

  lemma {:induction false} RunKeepsAccounted(s: Tracked, es: seq<Event>, ids: seq<string>)
    requires Accounted(s, ids) && SteadyRun(s, es)
    ensures Accounted(TrackRun(s, es), ids)
    decreases |es|
  {
    if |es| > 0 {
      StepKeepsAccounted(s, es[0], ids);
      RunKeepsAccounted(Track(s, es[0]), es[1..], ids);
    }
  }

  /**
   After any steady history every usage report belongs to a live pod, and lies on a GPU of that pod or
   on the first GPU of its reservation pod.
   */
  lemma EveryReportIsLive(ids: seq<string>, es: seq<Event>, i: nat, uid: string)
    requires SteadyRun(Tracked(State(Generated(ids), map[]), map[]), es)
    requires var s := TrackRun(Tracked(State(Generated(ids), map[]), map[]), es);
             i < |s.state.table| && uid in s.state.table[i].usage
    ensures var s := TrackRun(Tracked(State(Generated(ids), map[]), map[]), es);
            exists k :: k in s.state.live && k in s.tags && Explains(s.state.table, i, uid, k, s.tags[k])
  {
    RunKeepsAccounted(Tracked(State(Generated(ids), map[]), map[]), es, ids);
  }
}
