/** What single pod events guarantee about the GPU table, in every table. */
module GpuLaws {
  import opened Sequences
  import opened GpuTable

  /** Same GPUs; owned ones keep their owner. */
  ghost predicate OwnersKept(t: Table, u: Table) {
    && |u| == |t|
    && forall i :: 0 <= i < |t| ==> u[i].id == t[i].id && (!Free(t[i]) ==> u[i].owner == t[i].owner)
  }

  lemma DedicatedKeeps(t: Table, pod: Pod, c: Cluster)
    requires WellFormed(pod, c)
    ensures DedicatedAdd(t, pod, c).Some? ==> OwnersKept(t, DedicatedAdd(t, pod, c).value)
    ensures OwnersKept(t, DedicatedUpdate(t, pod, c))
  {
  }

  lemma SharedKeeps(t: Table, pod: Pod, c: Cluster)
    ensures SharedCharge(t, pod, c).Some? ==> OwnersKept(t, SharedCharge(t, pod, c).value)
  {
  }

  /** Going through the names one by one grants exactly the free GPUs that some name designates. */
  lemma {:induction false} LateAllocIsDraAlloc(t: Table, pod: Pod, names: seq<string>)
    requires |pod.containers| > 0 && pod.name != ""
    ensures LateAlloc(t, pod, names) == DraAlloc(t, pod, names)
  {
    if |names| > 0 {
      var n := |names| - 1;
      LateAllocIsDraAlloc(t, pod, names[..n]);
      var before := DraAlloc(t, pod, names[..n]);
      assert forall i :: 0 <= i < |t| ==> before[i].id == t[i].id;
      forall i | 0 <= i < |t|
        ensures Claimed(t, names, i) <==> Claimed(t, names[..n], i) || Designates(before, names[n], i)
      {
        OneMoreClaim(t, names, i);
        assert Designates(t, names[n], i) <==> Designates(before, names[n], i);
      }
      hide Claimed, Designates;
    }
  }

  lemma OneMoreClaim(t: Table, names: seq<string>, i: nat)
    requires i < |t| && |names| > 0
    ensures Claimed(t, names, i) <==> Claimed(t, names[..|names| - 1], i) || Designates(t, names[|names| - 1], i)
  {
    var n := |names| - 1;
    hide Designates;
    if Claimed(t, names, i) {
      var k :| 0 <= k < |names| && Designates(t, names[k], i);
      assert k < n ==> names[..n][k] == names[k];
    }
    if Claimed(t, names[..n], i) {
      var k :| 0 <= k < n && Designates(t, names[..n][k], i);
      assert names[k] == names[..n][k];
    }
  }

  /** The DRA part of an update is a refresh for a pod that holds a GPU, else the DRA part of an addition. */
  lemma DraUpdateUnheld(t: Table, pod: Pod, c: Cluster)
    requires WellFormed(pod, c) && !(IsDra(pod) && Holds(t, pod))
    ensures DraUpdate(t, pod, c) == DraAdd(t, pod, c)
  {
    if IsDra(pod) && DeviceNames(pod, c).Some? {
      LateAllocIsDraAlloc(t, pod, DeviceNames(pod, c).value);
    }
  }

  lemma DraKeeps(t: Table, pod: Pod, c: Cluster)
    requires WellFormed(pod, c)
    ensures DraAdd(t, pod, c).Some? ==> OwnersKept(t, DraAdd(t, pod, c).value)
    ensures DraUpdate(t, pod, c).Some? ==> OwnersKept(t, DraUpdate(t, pod, c).value)
  {
    if !(IsDra(pod) && Holds(t, pod)) { DraUpdateUnheld(t, pod, c); }
  }

  /** No addition and no update takes a GPU from its owner. */
  lemma NoTakeover(t: Table, pod: Pod, c: Cluster)
    requires WellFormed(pod, c)
    ensures Add(t, pod, c).Some? ==> OwnersKept(t, Add(t, pod, c).value)
    ensures Update(t, pod, c).Some? ==> OwnersKept(t, Update(t, pod, c).value)
  {
    DedicatedKeeps(t, pod, c);
    hide DedicatedAdd, DedicatedUpdate, SharedCharge, DraAdd, DraUpdate;
    if Add(t, pod, c).Some? {
      SharedKeeps(DedicatedAdd(t, pod, c).value, pod, c);
      DraKeeps(SharedCharge(DedicatedAdd(t, pod, c).value, pod, c).value, pod, c);
    }
    if Update(t, pod, c).Some? {
      SharedKeeps(DedicatedUpdate(t, pod, c), pod, c);
      DraKeeps(SharedCharge(DedicatedUpdate(t, pod, c), pod, c).value, pod, c);
    }
  }

  // ----- Usage reports -----

  /** The report of another pod on a GPU is the same before and after. */
  ghost predicate SameReport(g: Gpu, h: Gpu, uid: string) {
    (uid in g.usage <==> uid in h.usage) && (uid in g.usage ==> g.usage[uid] == h.usage[uid])
  }

  ghost predicate Reports(g: Gpu, pod: Pod) { pod.uid in g.usage && g.usage[pod.uid] == pod.usage }

  /** Additions and updates touch the reports of their own pod only. */
  lemma OtherReportsKept(t: Table, pod: Pod, c: Cluster, uid: string)
    requires WellFormed(pod, c) && uid != pod.uid
    ensures Add(t, pod, c).Some? ==> AllSameReports(t, Add(t, pod, c).value, uid)
    ensures Update(t, pod, c).Some? ==> AllSameReports(t, Update(t, pod, c).value, uid)
  {
    hide DedicatedAdd, DedicatedUpdate, SharedCharge, DraAdd, DraUpdate;
    StageReports(t, pod, c, uid);
    if Add(t, pod, c).Some? {
      var a := DedicatedAdd(t, pod, c).value;
      StageReports(a, pod, c, uid);
      StageReports(SharedCharge(a, pod, c).value, pod, c, uid);
    }
    if Update(t, pod, c).Some? {
      var a := DedicatedUpdate(t, pod, c);
      StageReports(a, pod, c, uid);
      StageReports(SharedCharge(a, pod, c).value, pod, c, uid);
    }
  }

  ghost predicate AllSameReports(t: Table, u: Table, uid: string) {
    |u| == |t| && forall i :: 0 <= i < |t| ==> SameReport(t[i], u[i], uid)
  }

  lemma StageReports(t: Table, pod: Pod, c: Cluster, uid: string)
    requires WellFormed(pod, c) && uid != pod.uid
    ensures DedicatedAdd(t, pod, c).Some? ==> AllSameReports(t, DedicatedAdd(t, pod, c).value, uid)
    ensures AllSameReports(t, DedicatedUpdate(t, pod, c), uid)
    ensures SharedCharge(t, pod, c).Some? ==> AllSameReports(t, SharedCharge(t, pod, c).value, uid)
    ensures DraAdd(t, pod, c).Some? ==> AllSameReports(t, DraAdd(t, pod, c).value, uid)
    ensures DraUpdate(t, pod, c).Some? ==> AllSameReports(t, DraUpdate(t, pod, c).value, uid)
  {
    DraStageReports(t, pod, c, uid);
    hide DraAdd, DraUpdate;
  }

  lemma DraStageReports(t: Table, pod: Pod, c: Cluster, uid: string)
    requires WellFormed(pod, c) && uid != pod.uid
    ensures DraAdd(t, pod, c).Some? ==> AllSameReports(t, DraAdd(t, pod, c).value, uid)
    ensures DraUpdate(t, pod, c).Some? ==> AllSameReports(t, DraUpdate(t, pod, c).value, uid)
  {
    if !(IsDra(pod) && Holds(t, pod)) { DraUpdateUnheld(t, pod, c); }
  }

  /** A GPU the pod's own usage is reported on: held as dedicated (reservation pods aside) or through a claim. */
  predicate Reported(g: Gpu, pod: Pod, c: Cluster)
    requires |pod.containers| > 0
  {
    (IsDedicated(pod) && !IsReservation(pod, c) && DedicatedTo(g, pod)) || (IsDra(pod) && OccupiedBy(g, pod))
  }

  /** After an update the pod's GPUs, and for a shared pod its reservation pod's GPU, report the current usage. */
  lemma UpdateRefreshesReports(t: Table, pod: Pod, c: Cluster)
    requires WellFormed(pod, c) && Update(t, pod, c).Some?
    ensures var u := Update(t, pod, c).value;
      && |u| == |t|
      && (forall i :: 0 <= i < |u| && Reported(u[i], pod, c) ==> Reports(u[i], pod))
      && (IsShared(pod, c) ==> ReservationIndex(t, pod, c).Some? && Reports(u[ReservationIndex(t, pod, c).value], pod))
  {
    hide ReservationName, ReservationIndex;
    var d := DedicatedUpdate(t, pod, c);
    SameIndex(t, d, pod, c);
    assert forall i :: 0 <= i < |d| && IsDedicated(pod) && !IsReservation(pod, c) && DedicatedTo(d[i], pod) ==>
          Reports(d[i], pod);
    hide DedicatedUpdate;
    SharedRefresh(d, pod, c);
    var s := SharedCharge(d, pod, c).value;
    hide SharedCharge;
    DraRefreshReports(s, pod, c);
    hide DraUpdate;
  }

  lemma SharedRefresh(d: Table, pod: Pod, c: Cluster)
    requires SharedCharge(d, pod, c).Some?
    ensures var s := SharedCharge(d, pod, c).value;
      && |s| == |d|
      && (forall i :: 0 <= i < |s| ==> s[i].owner == d[i].owner && (Reports(d[i], pod) ==> Reports(s[i], pod)))
      && (IsShared(pod, c) ==> ReservationIndex(d, pod, c).Some? && Reports(s[ReservationIndex(d, pod, c).value], pod))
  {
  }

  lemma DraRefreshReports(s: Table, pod: Pod, c: Cluster)
    requires WellFormed(pod, c) && DraUpdate(s, pod, c).Some?
    ensures var u := DraUpdate(s, pod, c).value;
      && |u| == |s|
      && (forall i :: 0 <= i < |u| && Reports(s[i], pod) ==> Reports(u[i], pod))
      && (forall i :: 0 <= i < |u| && u[i].owner != s[i].owner ==> Reports(u[i], pod))
      && (IsDra(pod) ==> forall i :: 0 <= i < |u| && OccupiedBy(u[i], pod) ==> Reports(u[i], pod))
  {
    if !(IsDra(pod) && Holds(s, pod)) { DraUpdateUnheld(s, pod, c); }
  }

  /** A GPU newly granted by an addition reports the pod's usage, unless the pod is a reservation pod. */
  lemma GrantsAreReported(t: Table, pod: Pod, c: Cluster, i: nat)
    requires WellFormed(pod, c) && Add(t, pod, c).Some? && i < |t| && !IsReservation(pod, c)
    requires Free(t[i]) && i < |Add(t, pod, c).value| && !Free(Add(t, pod, c).value[i])
    ensures OccupiedBy(Add(t, pod, c).value[i], pod) && Reports(Add(t, pod, c).value[i], pod)
  {
    var a := DedicatedAdd(t, pod, c).value;
    assert Free(a[i]) || (OccupiedBy(a[i], pod) && Reports(a[i], pod));
    var b := SharedCharge(a, pod, c).value;
    assert b[i].owner == a[i].owner && (Reports(a[i], pod) ==> Reports(b[i], pod));
  }

  // ----- Which GPUs an event grants -----

  /** The addition has a free GPU for the pod as a dedicated one. */
  ghost predicate FitsSomewhere(t: Table, pod: Pod) {
    IsDedicated(pod) && exists k :: 0 <= k < |t| && FirstFit(t, pod, k)
  }

  /** An addition or update of the pod grants it the free GPU k. */
  ghost predicate Grants(t: Table, pod: Pod, c: Cluster, addition: bool, k: nat)
    requires |pod.containers| > 0 && k < |t|
  {
    || (addition && IsDedicated(pod) && !HoldsDedicated(t, pod) && FirstFit(t, pod, k))
    || (&& IsDra(pod) && !Holds(t, pod) && !(addition && FitsSomewhere(t, pod))
        && DeviceNames(pod, c).Some? && Free(t[k]) && Claimed(t, DeviceNames(pod, c).value, k))
  }

  lemma DraGrants(t: Table, b: Table, pod: Pod, c: Cluster)
    requires WellFormed(pod, c) && |b| == |t| && DraAdd(b, pod, c).Some?
    requires forall k :: 0 <= k < |t| ==> b[k].id == t[k].id
    ensures var u := DraAdd(b, pod, c).value;
      && |u| == |b|
      && forall k :: 0 <= k < |b| && Free(b[k]) ==>
           (!Free(u[k]) <==> IsDra(pod) && !Holds(b, pod) && Claimed(t, DeviceNames(pod, c).value, k))
  {
    if IsDra(pod) && !Holds(b, pod) {
      SameClaims(t, b, DeviceNames(pod, c).value);
      hide Claimed, DeviceNames;
    }
  }

  lemma SameClaims(t: Table, u: Table, names: seq<string>)
    requires |t| == |u| && forall j :: 0 <= j < |t| ==> u[j].id == t[j].id
    ensures forall i :: 0 <= i < |t| ==> (Claimed(u, names, i) <==> Claimed(t, names, i))
  {
    forall i | 0 <= i < |t| ensures Claimed(u, names, i) <==> Claimed(t, names, i) {
      forall k | 0 <= k < |names| ensures Designates(u, names[k], i) <==> Designates(t, names[k], i) {
      }
    }
  }

  lemma DedicatedGrants(t: Table, pod: Pod, c: Cluster)
    requires WellFormed(pod, c) && DedicatedAdd(t, pod, c).Some?
    ensures var a := DedicatedAdd(t, pod, c).value;
      && |a| == |t|
      && (forall k :: 0 <= k < |t| ==> a[k].id == t[k].id)
      && (forall k :: 0 <= k < |t| ==>
            if IsDedicated(pod) && !HoldsDedicated(t, pod) && FirstFit(t, pod, k) then OccupiedBy(a[k], pod)
            else a[k].owner == t[k].owner)
  {
  }

  /** An addition grants exactly these free GPUs. */
  lemma AdditionGrants(t: Table, pod: Pod, c: Cluster)
    requires WellFormed(pod, c) && Add(t, pod, c).Some?
    ensures |Add(t, pod, c).value| == |t|
    ensures forall k :: 0 <= k < |t| && Free(t[k]) ==>
      (!Free(Add(t, pod, c).value[k]) <==> Grants(t, pod, c, true, k))
  {
    var a := DedicatedAdd(t, pod, c).value;
    DedicatedGrants(t, pod, c);
    SharedKeeps(a, pod, c);
    var b := SharedCharge(a, pod, c).value;
    DraGrants(t, b, pod, c);
    DraKeeps(b, pod, c);
    HeldAfterStages(t, b, pod);
    hide DedicatedAdd, SharedCharge, DraAdd, Claimed, DeviceNames, FirstFit, Holds, HoldsDedicated;
  }

  lemma HeldAfterStages(t: Table, b: Table, pod: Pod)
    requires |pod.containers| > 0 && |b| == |t|
    requires forall k :: 0 <= k < |t| ==>
      if IsDedicated(pod) && !HoldsDedicated(t, pod) && FirstFit(t, pod, k) then OccupiedBy(b[k], pod)
      else b[k].owner == t[k].owner
    ensures !Holds(b, pod) ==> !Holds(t, pod) && !FitsSomewhere(t, pod)
    ensures !Holds(t, pod) && !FitsSomewhere(t, pod) ==> !Holds(b, pod)
  {
    if Holds(t, pod) {
      var k :| 0 <= k < |t| && OccupiedBy(t[k], pod);
      assert OccupiedBy(b[k], pod);
    } else if FitsSomewhere(t, pod) {
      assert !HoldsDedicated(t, pod);
      var k :| 0 <= k < |t| && FirstFit(t, pod, k);
      assert OccupiedBy(b[k], pod);
    } else {
      assert forall k :: 0 <= k < |t| ==> b[k].owner == t[k].owner;
      SameHolds(t, b, pod);
    }
  }

  /** An update grants exactly these. */
  lemma UpdateGrants(t: Table, pod: Pod, c: Cluster)
    requires WellFormed(pod, c) && Update(t, pod, c).Some?
    ensures |Update(t, pod, c).value| == |t|
    ensures forall k :: 0 <= k < |t| && Free(t[k]) ==>
      (!Free(Update(t, pod, c).value[k]) <==> Grants(t, pod, c, false, k))
  {
    var a := DedicatedUpdate(t, pod, c);
    assert forall k :: 0 <= k < |t| ==> a[k].owner == t[k].owner && a[k].id == t[k].id;
    var b := SharedCharge(a, pod, c).value;
    assert forall k :: 0 <= k < |t| ==> b[k].owner == t[k].owner && b[k].id == t[k].id;
    SameHolds(t, b, pod);
    if IsDra(pod) && Holds(b, pod) {
      assert forall k :: 0 <= k < |t| ==> DraRefresh(b, pod)[k].owner == b[k].owner;
      hide DeviceNames, Claimed, LateAlloc;
    } else {
      DraUpdateUnheld(b, pod, c);
      DraGrants(t, b, pod, c);
    }
    hide DedicatedUpdate, SharedCharge, DraAdd, Claimed, DeviceNames, Holds;
  }

  lemma SameHolds(t: Table, b: Table, pod: Pod)
    requires |b| == |t| && forall k :: 0 <= k < |t| ==> b[k].owner == t[k].owner
    ensures Holds(b, pod) <==> Holds(t, pod)
  {
    forall k | 0 <= k < |t| ensures OccupiedBy(b[k], pod) <==> OccupiedBy(t[k], pod) { }
    hide OccupiedBy;
  }

  // ----- Replaying an addition -----

  /** The DRA part of an addition is settled after it ran once. */
  lemma DraAddSettled(t: Table, pod: Pod, c: Cluster)
    requires WellFormed(pod, c) && DraAdd(t, pod, c).Some?
    ensures DraAdd(DraAdd(t, pod, c).value, pod, c) == Some(DraAdd(t, pod, c).value)
    ensures var u := DraAdd(t, pod, c).value;
      && |u| == |t|
      && forall i :: 0 <= i < |t| ==> u[i] == t[i]
                                      || (Free(t[i]) && OccupiedBy(u[i], pod) && Reports(u[i], pod))
  {
    var u := DraAdd(t, pod, c).value;
    if IsDra(pod) && !Holds(t, pod) {
      var names := DeviceNames(pod, c).value;
      if i :| 0 <= i < |t| && Free(t[i]) && Claimed(t, names, i) {
        assert OccupiedBy(u[i], pod);
      } else {
        assert u == t;
      }
    }
  }

  lemma NoneFree(t: Table, pod: Pod, i: nat)
    requires pod.gpuLimit > 0 && i < |t| && Free(t[i])
    ensures exists j :: 0 <= j < |t| && FirstFit(t, pod, j)
  {
    if FreeBefore(t, i) > 0 {
      var j := LastFree(t, i);
      NoneFree(t, pod, j);
    } else {
      assert FirstFit(t, pod, i);
    }
  }

  lemma LastFree(t: Table, i: nat) returns (j: nat)
    requires i <= |t| && FreeBefore(t, i) > 0
    ensures j < i && Free(t[j])
  {
    j := i - 1;
    while !Free(t[j])
      invariant j < i && FreeBefore(t, j + 1) > 0
      decreases j
    {
      j := j - 1;
    }
  }

  /** After an addition, the dedicated part of a replay changes nothing. */
  lemma DedicatedReplay(t: Table, a: Table, u: Table, pod: Pod, c: Cluster)
    requires WellFormed(pod, c)
    requires DedicatedAdd(t, pod, c) == Some(a)
    requires OwnersKept(a, u)
    requires forall i :: 0 <= i < |a| && Free(a[i]) && !Free(u[i]) ==> IsDra(pod)
    ensures DedicatedAdd(u, pod, c) == Some(u)
  {
    if IsDedicated(pod) {
      if HoldsDedicated(a, pod) {
        var i :| 0 <= i < |a| && DedicatedTo(a[i], pod);
        assert DedicatedTo(u[i], pod);
      } else if !HoldsDedicated(u, pod) {
        NothingGranted(t, a, pod, c);
        assert a == t;
        forall i | 0 <= i < |u| ensures !FirstFit(u, pod, i) {
          if FirstFit(u, pod, i) {
            assert Free(t[i]);
            NoneFree(t, pod, i);
          }
        }
        assert DedicatedAlloc(u, pod, c) == u;
        if OwnsByName(a, pod.name) {
          var i :| 0 <= i < |a| && a[i].owner.pod == pod.name;
          assert u[i].owner.pod == pod.name;
        }
      }
    }
  }

  lemma NothingGranted(t: Table, a: Table, pod: Pod, c: Cluster)
    requires WellFormed(pod, c) && IsDedicated(pod)
    requires DedicatedAdd(t, pod, c) == Some(a) && !HoldsDedicated(a, pod)
    ensures a == t && forall i :: 0 <= i < |t| ==> !FirstFit(t, pod, i)
  {
    assert !HoldsDedicated(t, pod);
    forall i | 0 <= i < |t| ensures !FirstFit(t, pod, i) {
      assert !DedicatedTo(a[i], pod);
    }
  }

  /**
   Replay: an addition repeated with the same pod and cluster changes nothing, whether the first one
   was full, partial or empty, and whatever mix of dedicated, shared and DRA the pod is.
   */
  lemma AddIsIdempotent(t: Table, pod: Pod, c: Cluster)
    requires WellFormed(pod, c) && Add(t, pod, c).Some?
    ensures Add(Add(t, pod, c).value, pod, c) == Add(t, pod, c)
  {
    var a := DedicatedAdd(t, pod, c).value;
    var b := SharedCharge(a, pod, c).value;
    var u := DraAdd(b, pod, c).value;
    DraAddSettled(b, pod, c);
    assert OwnersKept(a, u);
    DedicatedReplay(t, a, u, pod, c);
    SharedReplay(a, b, u, pod, c);
  }

  lemma SharedReplay(a: Table, b: Table, u: Table, pod: Pod, c: Cluster)
    requires WellFormed(pod, c) && SharedCharge(a, pod, c) == Some(b)
    requires |u| == |b|
    requires forall i :: 0 <= i < |b| ==>
      u[i] == b[i] || ((Free(b[i]) || u[i].owner == b[i].owner) && OccupiedBy(u[i], pod) && Reports(u[i], pod))
    ensures SharedCharge(u, pod, c) == Some(u)
  {
    if IsShared(pod, c) {
      var i := ReservationIndex(a, pod, c).value;
      assert u[i].owner.pod == ReservationName(pod, c).value;
      var j := ReservationIndex(u, pod, c).value;
      assert j <= i;
      assert u[j].usage[pod.uid := pod.usage] == u[j].usage;
      assert u[j := u[j]] == u;
    }
  }

  // ----- Replaying an update -----

  /** The DRA part of an update is settled after it ran once, and all the pod holds by then is reported. */
  lemma DraUpdateSettled(t: Table, pod: Pod, c: Cluster)
    requires WellFormed(pod, c) && DraUpdate(t, pod, c).Some?
    ensures DraUpdate(DraUpdate(t, pod, c).value, pod, c) == Some(DraUpdate(t, pod, c).value)
    ensures var u := DraUpdate(t, pod, c).value;
      && |u| == |t|
      && forall i :: 0 <= i < |t| ==>
           && (u[i] == t[i] || (OccupiedBy(u[i], pod) && Reports(u[i], pod)))
           && (u[i].owner == t[i].owner || Free(t[i]))
           && (Reports(t[i], pod) ==> Reports(u[i], pod))
  {
    var u := DraUpdate(t, pod, c).value;
    if IsDra(pod) && Holds(t, pod) {
      assert u == DraRefresh(t, pod);
      RefreshSettled(t, pod);
    } else {
      DraUpdateUnheld(t, pod, c);
      DraAddSettled(t, pod, c);
      hide DraAdd, DeviceNames, Claimed, LateAlloc;
      if IsDra(pod) && Holds(u, pod) {
        assert forall k :: 0 <= k < |u| && OccupiedBy(u[k], pod) ==> Reports(u[k], pod);
        RefreshOfReported(u, pod);
      } else {
        DraUpdateUnheld(u, pod, c);
      }
    }
  }

  lemma RefreshOfReported(u: Table, pod: Pod)
    requires forall k :: 0 <= k < |u| && OccupiedBy(u[k], pod) ==> Reports(u[k], pod)
    ensures DraRefresh(u, pod) == u
  {
    forall k | 0 <= k < |u| && OccupiedBy(u[k], pod) ensures Charge(u[k], pod) == u[k] {
      assert u[k].usage[pod.uid := pod.usage] == u[k].usage;
    }
  }

  lemma RefreshSettled(t: Table, pod: Pod)
    requires Holds(t, pod)
    ensures var u := DraRefresh(t, pod);
      && Holds(u, pod) && DraRefresh(u, pod) == u
      && forall i :: 0 <= i < |t| ==>
           if OccupiedBy(t[i], pod) then u[i].owner == t[i].owner && Reports(u[i], pod) else u[i] == t[i]
  {
    var u := DraRefresh(t, pod);
    var i :| 0 <= i < |t| && OccupiedBy(t[i], pod);
    assert OccupiedBy(u[i], pod);
    RefreshOfReported(u, pod);
  }

  /** An update repeated with the same pod and cluster, as at every resync, changes nothing, for any kind of pod. */
  lemma UpdateIsIdempotent(t: Table, pod: Pod, c: Cluster)
    requires WellFormed(pod, c) && Update(t, pod, c).Some?
    ensures Update(Update(t, pod, c).value, pod, c) == Update(t, pod, c)
  {
    var a := DedicatedUpdate(t, pod, c);
    var b := SharedCharge(a, pod, c).value;
    var u := DraUpdate(b, pod, c).value;
    DraUpdateSettled(b, pod, c);
    SharedKeeps(a, pod, c);
    DedicatedRefreshed(t, a, b, u, pod, c);
    SharedReplay(a, b, u, pod, c);
    hide DraUpdate, DedicatedUpdate, SharedCharge;
  }

  lemma DedicatedRefreshed(t: Table, a: Table, b: Table, u: Table, pod: Pod, c: Cluster)
    requires WellFormed(pod, c) && a == DedicatedUpdate(t, pod, c) && SharedCharge(a, pod, c) == Some(b)
    requires |u| == |b| && forall i :: 0 <= i < |b| ==>
      u[i] == b[i] || (OccupiedBy(u[i], pod) && Reports(u[i], pod))
    ensures DedicatedUpdate(u, pod, c) == u
  {
    hide ReservationIndex;
    forall i | 0 <= i < |u| && IsDedicated(pod) && !IsReservation(pod, c) && DedicatedTo(u[i], pod)
      ensures Charge(u[i], pod) == u[i]
    {
      assert u[i] == b[i] ==> Reports(b[i], pod);
      assert u[i].usage[pod.uid := pod.usage] == u[i].usage;
    }
  }

  // ----- First fit -----

  /** GPUs whose owner differs between two tables, among the first n. */
  function Changed(t: Table, u: Table, n: nat): nat
    requires n <= |t| == |u|
  {
    if n == 0 then 0 else Changed(t, u, n - 1) + if t[n - 1].owner != u[n - 1].owner then 1 else 0
  }

  /**
   A pod that is only dedicated and owns nothing gets min(limit, free) GPUs, exactly the
   lowest-indexed free ones, and every other GPU stays as it was.
   */
  lemma FirstFitGrant(t: Table, pod: Pod, c: Cluster)
    requires WellFormed(pod, c) && pod.gpuLimit > 0 && !IsDra(pod) && !IsShared(pod, c)
    requires !HoldsDedicated(t, pod) && Add(t, pod, c).Some?
    ensures var u := Add(t, pod, c).value;
      && |u| == |t|
      && Changed(t, u, |t|) == Min(pod.gpuLimit, FreeBefore(t, |t|))
      && (forall i :: 0 <= i < |t| ==> u[i] == t[i] || (Free(t[i]) && DedicatedTo(u[i], pod)))
      && (forall i, j :: 0 <= i < j < |t| && Free(t[i]) && t[j] != u[j] ==> t[i].owner != u[i].owner)
  {
    var u := DedicatedAlloc(t, pod, c);
    ChangedCount(t, pod, c, |t|);
    forall i, j | 0 <= i < j < |t| && Free(t[i]) && t[j] != u[j] ensures t[i].owner != u[i].owner {
      FreeBeforeGrows(t, i, j);
    }
  }

  lemma {:induction false} ChangedCount(t: Table, pod: Pod, c: Cluster, n: nat)
    requires WellFormed(pod, c) && pod.gpuLimit > 0 && n <= |t|
    ensures Changed(t, DedicatedAlloc(t, pod, c), n) == Min(pod.gpuLimit, FreeBefore(t, n))
  {
    if n > 0 { ChangedCount(t, pod, c, n - 1); }
  }

  // ----- Deletion undoes addition -----

  /** Free GPUs carry no stale owner or usage. */
  ghost predicate FreeAreClean(t: Table) {
    forall i :: 0 <= i < |t| && Free(t[i]) ==> Clean(t[i])
  }

  /** For a pod that owns nothing and shares nothing, deletion straight after addition restores the table. */
  lemma DeleteUndoesAdd(t: Table, pod: Pod, c: Cluster)
    requires WellFormed(pod, c) && !IsShared(pod, c) && FreeAreClean(t) && !Holds(t, pod)
    requires Add(t, pod, c).Some?
    ensures Delete(Add(t, pod, c).value, pod, c) == Some(t)
  {
    assert !HoldsDedicated(t, pod);
    var a := DedicatedAdd(t, pod, c).value;
    var u := DraAdd(a, pod, c).value;
    DraAddSettled(a, pod, c);
    var d := DedicatedDelete(u, pod);
    var r := DraDelete(d, pod);
    forall i | 0 <= i < |t| ensures r[i] == t[i] {
      assert !OccupiedBy(t[i], pod);
      assert u[i] == t[i] || Clean(t[i]);
    }
    assert r == t;
  }

  /** A shared pod's deletion takes back what its addition reported, on the same GPU. */
  lemma SharedDeleteUndoesAdd(t: Table, pod: Pod, c: Cluster)
    requires WellFormed(pod, c) && IsShared(pod, c) && !IsDra(pod) && !IsDedicated(pod)
    requires Add(t, pod, c).Some?
    ensures Delete(Add(t, pod, c).value, pod, c).Some?
    ensures Delete(Add(t, pod, c).value, pod, c) == Some(t)
            <==> pod.uid !in t[ReservationIndex(t, pod, c).value].usage
  {
    var i := ReservationIndex(t, pod, c).value;
    var u := t[i := Charge(t[i], pod)];
    assert Add(t, pod, c) == Some(u);
    SameIndex(t, u, pod, c);
    var d := DedicatedDelete(u, pod);
    assert d == u;
    var v := u[i := u[i].(usage := u[i].usage - {pod.uid})];
    assert DraDelete(v, pod) == v;
    assert v[i].usage == t[i].usage - {pod.uid};
    if pod.uid !in t[i].usage {
      assert t[i].usage - {pod.uid} == t[i].usage;
      assert v == t;
    } else {
      assert pod.uid !in v[i].usage;
    }
  }

  /** The addition's report went to GPU i; the deletion takes it off GPU x. */
  ghost predicate TakesBack(t: Table, u: Table, pod: Pod, i: nat, x: nat)
    requires i < |t| == |u| && x < |t|
  {
    if OccupiedBy(u[x], pod) then OccupiedBy(u[i], pod) || Charge(t[i], pod) == t[i] else pod.uid !in t[x].usage
  }

  /** Restoration in terms of the two lookups, the addition's and the deletion's. */
  lemma RestoredByLookups(t: Table, pod: Pod, c: Cluster)
    requires WellFormed(pod, c) && IsShared(pod, c) && FreeAreClean(t) && !Holds(t, pod)
    requires Add(t, pod, c).Some?
    ensures var u := Add(t, pod, c).value;
            var i := ReservationIndex(DedicatedAdd(t, pod, c).value, pod, c);
            var x := ReservationIndex(DedicatedDelete(u, pod), pod, c);
      && |u| == |t| && i.Some?
      && (Delete(u, pod, c) == Some(t) <==> x.Some? && TakesBack(t, u, pod, i.value, x.value))
  {
    var a := DedicatedAdd(t, pod, c).value;
    var i := ReservationIndex(a, pod, c).value;
    var b := a[i := Charge(a[i], pod)];
    var u := DraAdd(b, pod, c).value;
    AddedPositions(t, pod, c, a, i, u);
    var d := DedicatedDelete(u, pod);
    assert forall k :: 0 <= k < |t| ==>
          d[k] == if IsDedicated(pod) && DedicatedTo(u[k], pod) then Released(u[k]) else u[k];
    var x := ReservationIndex(d, pod, c);
    hide DedicatedAdd, DraAdd, DedicatedDelete, FirstNamedFrom;
    if x.Some? {
      SameUnlessOwn(t, pod, c, a, i, u, d, x.value);
      var r := DraDelete(d[x.value := d[x.value].(usage := d[x.value].usage - {pod.uid})], pod);
      assert Delete(u, pod, c) == Some(r);
      Restored(t, pod, i, u, d, x.value, r);
    }
  }

  /** What an addition leaves at each position, for a pod that held nothing. */
  ghost predicate AddedAt(t: Table, pod: Pod, i: nat, u: Table, k: nat)
    requires |pod.containers| > 0 && i < |t| && k < |t| == |u|
  {
    if OccupiedBy(u[k], pod) then
      && Clean(t[k]) && u[k].id == t[k].id
      && (IsDra(pod) || (IsDedicated(pod) && DedicatedTo(u[k], pod)))
    else
      u[k] == if k == i then Charge(t[k], pod) else t[k]
  }

  lemma AddedPositions(t: Table, pod: Pod, c: Cluster, a: Table, i: nat, u: Table)
    requires WellFormed(pod, c) && IsShared(pod, c) && FreeAreClean(t) && !Holds(t, pod)
    requires DedicatedAdd(t, pod, c) == Some(a) && ReservationIndex(a, pod, c) == Some(i)
    requires DraAdd(a[i := Charge(a[i], pod)], pod, c) == Some(u)
    ensures |u| == |a| == |t| && Add(t, pod, c) == Some(u)
    ensures forall k :: 0 <= k < |t| ==> AddedAt(t, pod, i, u, k)
    ensures forall k :: 0 <= k < |t| && !OccupiedBy(u[k], pod) ==> u[k].owner == a[k].owner == t[k].owner
  {
    assert !HoldsDedicated(t, pod);
    assert forall k :: 0 <= k < |t| ==> !OccupiedBy(t[k], pod);
    DraAddSettled(a[i := Charge(a[i], pod)], pod, c);
    hide ReservationIndex, DeviceNames, FirstFit, Claimed;
  }

  /** The deletion looks on the GPU the addition charged, unless one of the two is the pod's own. */
  lemma SameUnlessOwn(t: Table, pod: Pod, c: Cluster, a: Table, i: nat, u: Table, d: Table, x: nat)
    requires |a| == |u| == |d| == |t| && ReservationIndex(a, pod, c) == Some(i)
            && ReservationIndex(d, pod, c) == Some(x)
    requires forall k :: 0 <= k < |t| && !OccupiedBy(u[k], pod) ==> d[k] == u[k] && u[k].owner == a[k].owner
    ensures !OccupiedBy(u[i], pod) && !OccupiedBy(u[x], pod) ==> x == i
  {
    var name := ReservationName(pod, c).value;
    assert FirstNamed(a, name, i) && FirstNamed(d, name, x);
  }

  lemma Restored(t: Table, pod: Pod, i: nat, u: Table, d: Table, x: nat, r: Table)
    requires |pod.containers| > 0 && |u| == |d| == |t| && i < |t| && x < |t| && pod.name != ""
    requires forall k :: 0 <= k < |t| ==> AddedAt(t, pod, i, u, k)
    requires forall k :: 0 <= k < |t| ==>
      d[k] == if IsDedicated(pod) && DedicatedTo(u[k], pod) then Released(u[k]) else u[k]
    requires d[x].owner.pod != "" && (!OccupiedBy(u[i], pod) && !OccupiedBy(u[x], pod) ==> x == i)
    requires r == DraDelete(d[x := d[x].(usage := d[x].usage - {pod.uid})], pod)
    ensures r == t <==> TakesBack(t, u, pod, i, x)
  {
    forall k | 0 <= k < |t| && k != i && k != x ensures r[k] == t[k] {
      assert AddedAt(t, pod, i, u, k);
    }
    assert AddedAt(t, pod, i, u, i) && AddedAt(t, pod, i, u, x);
    assert OccupiedBy(u[x], pod) ==> r[x] == t[x];
    assert OccupiedBy(u[i], pod) ==> r[i] == t[i];
    assert !OccupiedBy(u[i], pod) && i != x ==> r[i] == Charge(t[i], pod);
    assert !OccupiedBy(u[x], pod) ==> r[x].owner == t[x].owner && r[x].usage == t[x].usage - {pod.uid};
    assert pod.uid !in t[x].usage ==> t[x].usage - {pod.uid} == t[x].usage;
    if TakesBack(t, u, pod, i, x) {
      assert forall k :: 0 <= k < |t| ==> r[k] == t[k];
    }
  }

  /** One of the first n GPUs is free and claimed by the pod. */
  ghost predicate ClaimsBefore(t: Table, pod: Pod, c: Cluster, n: nat)
    requires n <= |t|
  {
    DeviceNames(pod, c).Some? && exists k :: 0 <= k < n && Free(t[k]) && Claimed(t, DeviceNames(pod, c).value, k)
  }

  /**
   The deletion will look on a GPU the pod gets through a claim: the pod has its reservation pod's name,
   the claim is honoured in front of GPU r, and the GPU is not given back as a dedicated one before.
   */
  ghost predicate OwnClaimInFront(t: Table, pod: Pod, c: Cluster, r: nat)
    requires |pod.containers| > 0 && r <= |t|
  {
    && ReservationName(pod, c) == Some(pod.name)
    && IsDra(pod) && !FitsSomewhere(t, pod) && ClaimsBefore(t, pod, c, r)
    && (IsDedicated(pod) ==> ClaimContainer(pod.containers) != FirstContainer(pod))
  }

  ghost predicate Restorable(t: Table, pod: Pod, c: Cluster, r: nat)
    requires |pod.containers| > 0 && r < |t|
  {
    if OwnClaimInFront(t, pod, c, r) then Charge(t[r], pod) == t[r] else pod.uid !in t[r].usage
  }

  /**
   The same for any mix of shared, dedicated and DRA, read off the table before the addition: r is the
   GPU of the reservation pod.  Without one the addition can only have succeeded because the pod has the
   reservation pod's name and got a GPU itself; then the deletion fails and the GPU stays taken.
   */
  lemma MixedDeleteUndoesAdd(t: Table, pod: Pod, c: Cluster)
    requires WellFormed(pod, c) && IsShared(pod, c) && FreeAreClean(t) && !Holds(t, pod)
    requires Add(t, pod, c).Some?
    ensures var u, r := Add(t, pod, c).value, ReservationIndex(t, pod, c);
      && (Delete(u, pod, c).None? <==> r.None?)
      && (Delete(u, pod, c) == Some(t) <==> r.Some? && Restorable(t, pod, c, r.value))
  {
    RestoredByLookups(t, pod, c);
    var a, u := DedicatedAdd(t, pod, c).value, Add(t, pod, c).value;
    var i := ReservationIndex(a, pod, c).value;
    AddedPositions(t, pod, c, a, i, u);
    LookupAfterAdd(t, pod, c, a, i, u);
  }

  /** Where the deletion looks. */
  lemma LookupAfterAdd(t: Table, pod: Pod, c: Cluster, a: Table, i: nat, u: Table)
    requires WellFormed(pod, c) && IsShared(pod, c) && FreeAreClean(t) && !Holds(t, pod)
    requires DedicatedAdd(t, pod, c) == Some(a) && ReservationIndex(a, pod, c) == Some(i) && i < |a|
    requires DraAdd(a[i := Charge(a[i], pod)], pod, c) == Some(u)
    requires |u| == |a| == |t|
    requires forall k :: 0 <= k < |t| ==> AddedAt(t, pod, i, u, k)
    requires forall k :: 0 <= k < |t| && !OccupiedBy(u[k], pod) ==> u[k].owner == a[k].owner == t[k].owner
    ensures var r, x := ReservationIndex(t, pod, c), ReservationIndex(DedicatedDelete(u, pod), pod, c);
      if r.Some? && OwnClaimInFront(t, pod, c, r.value)
      then x.Some? && OccupiedBy(u[x.value], pod) && i == r.value && !OccupiedBy(u[i], pod)
      else x == r && (r.Some? ==> !OccupiedBy(u[r.value], pod))
  {
    OwnersAfterDelete(u, pod);
    var d := DedicatedDelete(u, pod);
    hide DedicatedDelete, AddedAt, FirstNamedFrom;
    if FitsSomewhere(t, pod) {
      FitIsReleased(t, pod, c, a, i, u);
      hide DedicatedAdd, DraAdd;
      LookupWhenFit(t, pod, c, u, d);
    } else {
      UnfitClaims(t, pod, c, a, i, u);
      hide DedicatedAdd, DraAdd, ReservationIndex, OwnClaimInFront;
      LookupWhenUnfit(t, pod, c, i, u, d);
    }
  }

  lemma LookupWhenFit(t: Table, pod: Pod, c: Cluster, u: Table, d: Table)
    requires WellFormed(pod, c) && IsDedicated(pod) && |u| == |d| == |t| && !Holds(t, pod)
    requires forall k :: 0 <= k < |u| && OccupiedBy(u[k], pod) ==> DedicatedTo(u[k], pod) && Free(t[k])
    requires forall k :: 0 <= k < |t| && !OccupiedBy(u[k], pod) ==> u[k].owner == t[k].owner
    requires forall k :: 0 <= k < |u| ==>
      d[k].owner == if IsDedicated(pod) && DedicatedTo(u[k], pod) then NOBODY else u[k].owner
    ensures ReservationIndex(d, pod, c) == ReservationIndex(t, pod, c)
    ensures ReservationIndex(t, pod, c).Some? ==> !OccupiedBy(u[ReservationIndex(t, pod, c).value], pod)
  {
    assert ReservationName(pod, c) != Some("");
    hide ReservationName;
    assert ReservationIndex(t, pod, c).Some? ==> !Free(t[ReservationIndex(t, pod, c).value]);
    hide ReservationIndex;
    SameIndex(d, t, pod, c);
  }

  lemma LookupWhenUnfit(t: Table, pod: Pod, c: Cluster, i: nat, u: Table, d: Table)
    requires WellFormed(pod, c) && !FitsSomewhere(t, pod) && |u| == |d| == |t|
    requires ReservationName(pod, c).Some? && ReservationIndex(t, pod, c) == Some(i)
    requires IsDra(pod) ==> DeviceNames(pod, c).Some?
    requires forall k :: 0 <= k < |t| ==>
      (OccupiedBy(u[k], pod) <==> IsDra(pod) && Free(t[k]) && Claimed(t, DeviceNames(pod, c).value, k))
    requires forall k :: 0 <= k < |t| && OccupiedBy(u[k], pod) ==>
      u[k].owner.container == ClaimContainer(pod.containers)
    requires forall k :: 0 <= k < |t| && !OccupiedBy(u[k], pod) ==> u[k].owner == t[k].owner
    requires forall k :: 0 <= k < |u| ==>
      d[k].owner == if IsDedicated(pod) && DedicatedTo(u[k], pod) then NOBODY else u[k].owner
    ensures var x := ReservationIndex(d, pod, c);
      if OwnClaimInFront(t, pod, c, i)
      then x.Some? && OccupiedBy(u[x.value], pod) && !OccupiedBy(u[i], pod)
      else x == Some(i) && !OccupiedBy(u[i], pod)
  {
    var x, name := ReservationIndex(d, pod, c), ReservationName(pod, c).value;
    assert name != "" && FirstNamed(t, name, i);
    hide Claimed, DeviceNames, FitsSomewhere, ClaimContainer, ReservationName;
    if name == pod.name && (IsDedicated(pod) ==> ClaimContainer(pod.containers) != FirstContainer(pod)) {
      assert forall k :: 0 <= k < |t| ==> d[k].owner == u[k].owner;
      OwnersAlike(d, u, pod, c);
      assert OwnsByName(u, name) by { assert u[i].owner.pod == name; }
      assert FirstNamed(u, name, x.value);
    } else {
      hide ReservationIndex;
      SameIndex(d, t, pod, c);
    }
  }

  lemma OwnersAlike(d: Table, u: Table, pod: Pod, c: Cluster)
    requires |d| == |u| && forall k :: 0 <= k < |u| ==> d[k].owner == u[k].owner
    ensures ReservationIndex(d, pod, c) == ReservationIndex(u, pod, c)
  {
    hide ReservationIndex, ReservationName;
    SameIndex(d, u, pod, c);
  }

  /** When dedicated GPUs were granted the claims are not looked at, and the deletion gives all of them back. */
  lemma FitIsReleased(t: Table, pod: Pod, c: Cluster, a: Table, i: nat, u: Table)
    requires WellFormed(pod, c) && !Holds(t, pod) && FitsSomewhere(t, pod)
    requires DedicatedAdd(t, pod, c) == Some(a) && i < |a| && DraAdd(a[i := Charge(a[i], pod)], pod, c) == Some(u)
    ensures |u| == |t| && forall k :: 0 <= k < |u| && OccupiedBy(u[k], pod) ==> DedicatedTo(u[k], pod) && Free(t[k])
  {
    var b := a[i := Charge(a[i], pod)];
    assert !HoldsDedicated(t, pod);
    assert forall k :: 0 <= k < |t| ==> !OccupiedBy(t[k], pod);
    var k :| 0 <= k < |t| && FirstFit(t, pod, k);
    assert OccupiedBy(b[k], pod);
    assert u == b;
  }

  /** Otherwise the pod gets exactly the free GPUs it claims. */
  lemma UnfitClaims(t: Table, pod: Pod, c: Cluster, a: Table, i: nat, u: Table)
    requires WellFormed(pod, c) && !Holds(t, pod) && !FitsSomewhere(t, pod)
    requires DedicatedAdd(t, pod, c) == Some(a) && i < |a| && DraAdd(a[i := Charge(a[i], pod)], pod, c) == Some(u)
    ensures a == t && |u| == |t| && (IsDra(pod) ==> DeviceNames(pod, c).Some?)
    ensures forall k :: 0 <= k < |t| ==>
      (OccupiedBy(u[k], pod) <==> IsDra(pod) && Free(t[k]) && Claimed(t, DeviceNames(pod, c).value, k))
    ensures forall k :: 0 <= k < |t| && OccupiedBy(u[k], pod) ==>
      u[k].owner.container == ClaimContainer(pod.containers)
  {
    assert forall k :: 0 <= k < |t| ==> !OccupiedBy(t[k], pod);
    assert a == t;
    var b := a[i := Charge(a[i], pod)];
    assert forall k :: 0 <= k < |t| ==> b[k].owner == t[k].owner && b[k].id == t[k].id;
    assert !Holds(b, pod);
    if IsDra(pod) {
      SameClaims(t, b, DeviceNames(pod, c).value);
      hide Claimed, DeviceNames;
    }
  }

  /** A pod named like its reservation pod, which holds no GPU: the addition succeeds, the deletion fails. */
  lemma NamesakeDeletionFails() returns (t: Table, pod: Pod, c: Cluster)
    ensures WellFormed(pod, c) && IsShared(pod, c) && FreeAreClean(t) && !Holds(t, pod)
    ensures Add(t, pod, c).Some? && Holds(Add(t, pod, c).value, pod)
    ensures Delete(Add(t, pod, c).value, pod, c).None?
  {
    c := Cluster("reservation", Some([ReservationPod("r", None, Some("group"))]), map[], true);
    var none := Usage(0, 0, 0, false);
    pod := Pod("team", "r", "uid-r", [Container("main", 0)], 1, None, Some("group"), false, [], [], none);
    t := [Gpu("g0", NOBODY, map[])];
    var a := [DedicatedGrant(t[0], pod, c)];
    assert DedicatedAlloc(t, pod, c) == a;
    assert FirstNamed(a, "r", 0) && OwnsByName(a, "r");
    assert ReservationName(pod, c) == Some("r");
    assert OccupiedBy(Charge(a[0], pod), pod);
    MixedDeleteUndoesAdd(t, pod, c);
  }

  /** The same pod with a claim in front of its reservation pod's GPU: the report stays on the latter. */
  lemma OwnClaimKeepsReport() returns (t: Table, pod: Pod, c: Cluster)
    ensures WellFormed(pod, c) && IsShared(pod, c) && FreeAreClean(t) && !Holds(t, pod)
    ensures ReservationIndex(t, pod, c) == Some(1) && pod.uid !in t[1].usage
    ensures Add(t, pod, c).Some? && Delete(Add(t, pod, c).value, pod, c).Some?
    ensures Delete(Add(t, pod, c).value, pod, c) != Some(t)
  {
    var claim := Claim(Some([Allocation(DRA_DRIVER, "g0")]));
    c := Cluster("reservation", Some([ReservationPod("r", None, Some("group"))]), map[("team", "k") := claim], true);
    var none := Usage(0, 0, 0, false);
    pod := Pod("team", "r", "uid-r", [Container("main", 1)], 0, None, Some("group"), false, [], [Some("k")], none);
    t := [Gpu("g0", NOBODY, map[]), Gpu("g1", Owner("reservation", "r", "main"), map[])];
    assert ReservationName(pod, c) == Some("r");
    OneClaim(pod, c, claim);
    assert Designates(t, ["g0"][0], 0);
    assert Claimed(t, ["g0"], 0);
    ClaimInFrontKeepsReport(t, pod, c, ["g0"]);
  }

  lemma ClaimInFrontKeepsReport(t: Table, pod: Pod, c: Cluster, names: seq<string>)
    requires WellFormed(pod, c) && IsShared(pod, c) && IsDra(pod) && !IsDedicated(pod)
    requires |t| == 2 && Clean(t[0]) && t[1] == Gpu(t[1].id, Owner(c.reservationNamespace, pod.name, "main"), map[])
    requires ReservationName(pod, c) == Some(pod.name) && DeviceNames(pod, c) == Some(names) && Claimed(t, names, 0)
    ensures FreeAreClean(t) && !Holds(t, pod) && ReservationIndex(t, pod, c) == Some(1)
    ensures Add(t, pod, c).Some? && Delete(Add(t, pod, c).value, pod, c).Some?
    ensures Delete(Add(t, pod, c).value, pod, c) != Some(t)
  {
    hide ReservationName, DeviceNames, Claimed;
    assert FirstNamed(t, pod.name, 1) && OwnsByName(t, pod.name);
    assert ReservationIndex(t, pod, c) == Some(1);
    assert ClaimsBefore(t, pod, c, 1);
    assert Add(t, pod, c).Some?;
    hide Add, Delete, ReservationIndex, ClaimsBefore;
    MixedDeleteUndoesAdd(t, pod, c);
    assert pod.uid in Charge(t[1], pod).usage;
  }

  /** A pod with one claim for one device. */
  lemma OneClaim(pod: Pod, c: Cluster, claim: Claim)
    requires pod.statusClaims == [] && pod.specClaims == [Some("k")] && pod.namespace == "team"
    requires claim == Claim(Some([Allocation(DRA_DRIVER, "g0")])) && c.claims == map[("team", "k") := claim]
    ensures DeviceNames(pod, c) == Some(["g0"])
  {
    assert pod.statusClaims + pod.specClaims == [Some("k")];
    OneName("k");
    OneDevice("g0");
    OneClaimDevices("team", "k", c, ["g0"]);
    hide Distinct, DevicesOf, DevicesOfClaims;
  }

  lemma OneName(name: string)
    requires name != ""
    ensures Distinct([Some(name)]) == [name]
  {
    var names := [Some(name)];
    assert names[..0] == [];
  }

  lemma OneDevice(device: string)
    ensures DevicesOf([Allocation(DRA_DRIVER, device)]) == [device]
  {
    var results := [Allocation(DRA_DRIVER, device)];
    assert results[..0] == [];
  }

  lemma OneClaimDevices(namespace: string, name: string, c: Cluster, devices: seq<string>)
    requires (namespace, name) in c.claims && ClaimDevices(c.claims[(namespace, name)]) == devices
    ensures DevicesOfClaims(namespace, [name], c) == Some(devices)
  {
    hide ClaimDevices;
    var names := [name];
    assert names[..0] == [] && [] + devices == devices;
    assert DevicesOfClaims(namespace, [], c) == Some([]);
  }

  /** Unless the pod is a namesake of its reservation pod, that is so iff it was not reported there before. */
  lemma OtherNameDeleteUndoesAdd(t: Table, pod: Pod, c: Cluster)
    requires WellFormed(pod, c) && IsShared(pod, c) && FreeAreClean(t) && !Holds(t, pod)
    requires Add(t, pod, c).Some? && ReservationName(pod, c) != Some(pod.name)
    ensures var i := ReservationIndex(t, pod, c);
            i.Some? && (Delete(Add(t, pod, c).value, pod, c) == Some(t) <==> pod.uid !in t[i.value].usage)
  {
    MixedDeleteUndoesAdd(t, pod, c);
    var a, u := DedicatedAdd(t, pod, c).value, Add(t, pod, c).value;
    var i := ReservationIndex(a, pod, c).value;
    AddedPositions(t, pod, c, a, i, u);
    assert a[i].owner.pod == ReservationName(pod, c).value;
    hide DedicatedAdd, Add, ReservationIndex, ReservationName, AddedAt, FreeAreClean;
    assert forall k :: 0 <= k < |t| && a[k].owner != t[k].owner ==> OccupiedBy(a[k], pod) && Free(t[k]);
    SameIndex(a, t, pod, c);
  }

  lemma OwnersAfterDelete(u: Table, pod: Pod)
    requires |pod.containers| > 0
    ensures |DedicatedDelete(u, pod)| == |u|
    ensures forall k :: 0 <= k < |u| ==>
      DedicatedDelete(u, pod)[k].owner == if IsDedicated(pod) && DedicatedTo(u[k], pod) then NOBODY else u[k].owner
  {
  }

  /** The lookup depends only on which GPUs carry the reservation pod's name. */
  lemma SameIndex(t: Table, u: Table, pod: Pod, c: Cluster)
    requires |t| == |u| && forall n, i ::
      ReservationName(pod, c) == Some(n) && 0 <= i < |t| ==> (t[i].owner.pod == n <==> u[i].owner.pod == n)
    ensures ReservationIndex(t, pod, c) == ReservationIndex(u, pod, c)
  {
    if ReservationName(pod, c).Some? {
      SameNamed(t, u, ReservationName(pod, c).value, 0);
    }
  }

  lemma {:induction false} SameNamed(t: Table, u: Table, name: string, i: nat)
    requires |t| == |u| && i <= |t| && forall i :: 0 <= i < |t| ==> (t[i].owner.pod == name <==> u[i].owner.pod == name)
    requires forall j :: 0 <= j < i ==> t[j].owner.pod != name
    ensures FirstNamedFrom(t, name, i) == FirstNamedFrom(u, name, i)
    decreases |t| - i
  {
    if i < |t| && t[i].owner.pod != name { SameNamed(t, u, name, i + 1); }
  }

  // ----- What a deletion leaves behind -----

  /** A deletion of the pod empties this GPU. */
  predicate ReleasedBy(g: Gpu, pod: Pod)
    requires |pod.containers| > 0
  {
    OccupiedBy(g, pod) && (IsDra(pod) || (IsDedicated(pod) && DedicatedTo(g, pod)))
  }

  /** What a successful deletion does to GPU i. */
  lemma DeletionAt(t: Table, pod: Pod, c: Cluster, i: nat)
    requires WellFormed(pod, c) && Delete(t, pod, c).Some? && i < |t|
    ensures |Delete(t, pod, c).value| == |t|
    ensures var h, x := Delete(t, pod, c).value[i], ReservationIndex(DedicatedDelete(t, pod), pod, c);
      if ReleasedBy(t[i], pod) then h == Released(t[i])
      else if IsShared(pod, c) && x == Some(i) then h == t[i].(usage := t[i].usage - {pod.uid})
      else h == t[i]
  {
    var d := DedicatedDelete(t, pod);
    assert d[i] == if IsDedicated(pod) && DedicatedTo(t[i], pod) then Released(t[i]) else t[i];
    var b := SharedUncharge(d, pod, c).value;
    assert |b| == |d| && b[i].owner == d[i].owner;
    assert ReservationName(pod, c) != Some("");
  }

  /**
   A successful deletion takes back every report of the pod iff each lies on a GPU the deletion empties
   or on the GPU a shared pod finds.
   */
  lemma DeletionClearsReportsIff(t: Table, pod: Pod, c: Cluster)
    requires WellFormed(pod, c) && Delete(t, pod, c).Some?
    ensures var u, x := Delete(t, pod, c).value, ReservationIndex(DedicatedDelete(t, pod), pod, c);
      && |u| == |t|
      && ((forall i :: 0 <= i < |u| ==> pod.uid !in u[i].usage) <==>
          (forall i :: 0 <= i < |t| && pod.uid in t[i].usage ==>
             ReleasedBy(t[i], pod) || (IsShared(pod, c) && x == Some(i))))
  {
    assert |Delete(t, pod, c).value| == |t|;
    forall i | 0 <= i < |t| { DeletionAt(t, pod, c, i); }
    hide Delete, DedicatedDelete, ReservationIndex, ReleasedBy;
  }

  /** A namesake of the reservation pod on a lower index, and the pod's report stays where it was. */
  lemma NamesakeKeepsReport() returns (t: Table, pod: Pod, c: Cluster)
    ensures WellFormed(pod, c) && IsShared(pod, c) && FreeAreClean(t) && FirstOfReservation(t, pod, c, 1)
    ensures Delete(t, pod, c).Some? && pod.uid in Delete(t, pod, c).value[1].usage
  {
    c := Cluster("reservation", Some([ReservationPod("r", None, Some("group"))]), map[], true);
    var none := Usage(0, 0, 0, false);
    pod := Pod("team", "p", "uid-p", [Container("main", 0)], 0, None, Some("group"), false, [], [], none);
    t := [Gpu("g0", Owner("other", "r", "main"), map[]),
          Gpu("g1", Owner("reservation", "r", "main"), map["uid-p" := none])];
    assert DedicatedDelete(t, pod) == t;
    assert FirstNamed(t, "r", 0) && OwnsByName(t, "r");
    assert ReservationIndex(t, pod, c) == Some(0);
    DeletionAt(t, pod, c, 1);
  }

  /** A successful deletion leaves the pod no GPU iff its specification covers each one it holds. */
  lemma DeletionReleasesAllIff(t: Table, pod: Pod, c: Cluster)
    requires WellFormed(pod, c) && Delete(t, pod, c).Some?
    ensures Holds(Delete(t, pod, c).value, pod) <==>
              exists i :: 0 <= i < |t| && OccupiedBy(t[i], pod) && !ReleasedBy(t[i], pod)
  {
    var u := Delete(t, pod, c).value;
    DeletionLength(t, pod, c);
    forall i | 0 <= i < |t| ensures OccupiedBy(u[i], pod) <==> OccupiedBy(t[i], pod) && !ReleasedBy(t[i], pod) {
      DeletionAt(t, pod, c, i);
      hide Delete, DedicatedDelete, ReservationIndex;
    }
    hide Delete, OccupiedBy, ReleasedBy;
  }

  lemma DeletionLength(t: Table, pod: Pod, c: Cluster)
    requires WellFormed(pod, c) && Delete(t, pod, c).Some?
    ensures |Delete(t, pod, c).value| == |t|
  {
  }

  /**
   A deletion fails exactly when the pod is shared and, once its own dedicated GPUs are given back,
   no GPU belongs to its reservation pod.
   */
  lemma DeleteFailsIff(t: Table, pod: Pod, c: Cluster)
    requires WellFormed(pod, c)
    ensures Delete(t, pod, c).None? <==>
      && IsShared(pod, c)
      && (ReservationName(pod, c).None? || !OwnsByName(DedicatedDelete(t, pod), ReservationName(pod, c).value))
  {
  }

  // ----- DRA allocation -----

  /** Every name of a occurs in b up to case. */
  ghost predicate Covers(a: seq<string>, b: seq<string>) {
    forall x :: x in a ==> exists y :: y in b && Fold(x) == Fold(y)
  }

  lemma ClaimedByFold(t: Table, a: seq<string>, b: seq<string>, i: nat)
    requires i < |t| && Claimed(t, a, i) && Covers(a, b)
    ensures Claimed(t, b, i)
  {
    var k :| 0 <= k < |a| && Designates(t, a[k], i);
    var y :| y in b && Fold(a[k]) == Fold(y);
    var m :| 0 <= m < |b| && b[m] == y;
    assert Designates(t, b[m], i);
  }

  /** The result depends only on the case-folded set of device names: order and repetition do not matter. */
  lemma DraAllocByFoldedSet(t: Table, pod: Pod, a: seq<string>, b: seq<string>)
    requires |pod.containers| > 0 && Covers(a, b) && Covers(b, a)
    ensures DraAlloc(t, pod, a) == DraAlloc(t, pod, b)
  {
    forall i | 0 <= i < |t| ensures Claimed(t, a, i) <==> Claimed(t, b, i) {
      hide *;
      if Claimed(t, a, i) { ClaimedByFold(t, a, b, i); }
      if Claimed(t, b, i) { ClaimedByFold(t, b, a, i); }
    }
    hide Claimed, Covers;
  }

  ghost predicate DisjointDevices(a: seq<string>, b: seq<string>) {
    forall x, y :: x in a && y in b ==> Fold(x) != Fold(y)
  }

  ghost predicate OnlyDra(pod: Pod, c: Cluster) {
    WellFormed(pod, c) && IsDra(pod) && !IsDedicated(pod) && !IsShared(pod, c)
  }

  /** Additions of two DRA pods with disjoint devices commute. */
  lemma DraAddsCommute(t: Table, p: Pod, q: Pod, c: Cluster)
    requires OnlyDra(p, c) && OnlyDra(q, c)
    requires (p.namespace, p.name) != (q.namespace, q.name)
    requires Add(t, p, c).Some? && Add(t, q, c).Some?
    requires DeviceNames(p, c).Some? && DeviceNames(q, c).Some?
    requires DisjointDevices(DeviceNames(p, c).value, DeviceNames(q, c).value)
    ensures Add(Add(t, p, c).value, q, c) == Add(Add(t, q, c).value, p, c)
    ensures Add(Add(t, p, c).value, q, c).Some?
  {
    var tp, tq := DraAdd(t, p, c).value, DraAdd(t, q, c).value;
    assert Add(t, p, c) == Some(tp) && Add(t, q, c) == Some(tq);
    HoldsAfterOther(t, q, p, c);
    HoldsAfterOther(t, p, q, c);
    var (a, b) := (DeviceNames(p, c).value, DeviceNames(q, c).value);
    ClaimsAfter(t, p, q, c);
    ClaimsAfter(t, q, p, c);
    forall i | 0 <= i < |t| ensures !(Claimed(t, a, i) && Claimed(t, b, i)) {
      forall k, m | 0 <= k < |a| && 0 <= m < |b| ensures !(Designates(t, a[k], i) && Designates(t, b[m], i)) {
        assert a[k] in a && b[m] in b;
      }
    }
    assert DraAdd(tp, q, c).value == DraAdd(tq, p, c).value;
  }

  lemma HoldsAfterOther(t: Table, p: Pod, q: Pod, c: Cluster)
    requires OnlyDra(p, c) && OnlyDra(q, c) && (p.namespace, p.name) != (q.namespace, q.name)
    requires DraAdd(t, p, c).Some?
    ensures Holds(DraAdd(t, p, c).value, q) <==> Holds(t, q)
  {
    var u := DraAdd(t, p, c).value;
    if Holds(t, q) {
      var i :| 0 <= i < |t| && OccupiedBy(t[i], q);
      assert OccupiedBy(u[i], q);
    }
    if Holds(u, q) {
      var i :| 0 <= i < |u| && OccupiedBy(u[i], q);
      assert OccupiedBy(t[i], q);
    }
  }

  lemma ClaimsAfter(t: Table, p: Pod, q: Pod, c: Cluster)
    requires OnlyDra(p, c) && DraAdd(t, p, c).Some?
    ensures |DraAdd(t, p, c).value| == |t|
    ensures forall names, i :: 0 <= i < |t| ==> (Claimed(DraAdd(t, p, c).value, names, i) <==> Claimed(t, names, i))
  {
    var u := DraAdd(t, p, c).value;
    assert forall j :: 0 <= j < |t| ==> u[j].id == t[j].id;
    forall names, i | 0 <= i < |t| ensures Claimed(u, names, i) <==> Claimed(t, names, i) {
      SameClaims(t, u, names);
    }
  }

  /** Late allocation: updating a DRA pod, shared or not, that holds nothing gives the same table as adding it. */
  lemma LateAllocation(t: Table, pod: Pod, c: Cluster)
    requires WellFormed(pod, c) && IsDra(pod) && !IsDedicated(pod) && !Holds(t, pod)
    ensures Update(t, pod, c) == Add(t, pod, c)
  {
    assert DedicatedUpdate(t, pod, c) == t;
    if SharedCharge(t, pod, c).Some? {
      var b := SharedCharge(t, pod, c).value;
      forall i | 0 <= i < |b| ensures !OccupiedBy(b[i], pod) { assert !OccupiedBy(t[i], pod); }
      DraUpdateUnheld(b, pod, c);
    }
    hide DraUpdate, DraAdd, SharedCharge;
  }

  /** The claim names are free of repetitions and are exactly the usable ones. */
  lemma {:induction false} DistinctNames(names: seq<Option<string>>)
    ensures NoDuplicates(Distinct(names))
    ensures forall s :: s in Distinct(names) <==> s != "" && Some(s) in names
  {
    if |names| > 0 {
      var n := |names| - 1;
      DistinctNames(names[..n]);
      assert names == names[..n] + [names[n]];
    }
  }

  // ----- The reservation lookup goes by name alone -----

  /** r is the first GPU owned by the reservation pod itself, namespace included. */
  ghost predicate FirstOfReservation(t: Table, pod: Pod, c: Cluster, r: nat) {
    && ReservationName(pod, c).Some? && r < |t|
    && t[r].owner.pod == ReservationName(pod, c).value && t[r].owner.namespace == c.reservationNamespace
    && forall j :: 0 <= j < r ==>
         !(t[j].owner.pod == ReservationName(pod, c).value && t[j].owner.namespace == c.reservationNamespace)
  }

  /** A shared pod reaches its reservation pod's GPU iff no earlier GPU belongs to a namesake of that pod. */
  lemma ChargeReachesReservation(t: Table, pod: Pod, c: Cluster, r: nat)
    requires FirstOfReservation(t, pod, c, r)
    ensures ReservationIndex(t, pod, c) == Some(r)
            <==> forall j :: 0 <= j < r ==> t[j].owner.pod != ReservationName(pod, c).value
  {
    assert t[r].owner.pod == ReservationName(pod, c).value;
    assert OwnsByName(t, ReservationName(pod, c).value);
    var i := ReservationIndex(t, pod, c).value;
    assert FirstNamed(t, ReservationName(pod, c).value, i);
  }

  /** A namesake in another namespace on a lower-indexed GPU receives the report instead. */
  lemma NamesakeTakesCharge() returns (t: Table, pod: Pod, c: Cluster)
    ensures WellFormed(pod, c) && IsShared(pod, c) && FreeAreClean(t) && FirstOfReservation(t, pod, c, 1)
    ensures Add(t, pod, c).Some? && Add(t, pod, c).value[1] == t[1]
    ensures pod.uid in Add(t, pod, c).value[0].usage && t[0].owner.namespace != c.reservationNamespace
  {
    c := Cluster("reservation", Some([ReservationPod("r", None, Some("group"))]), map[], true);
    var none := Usage(0, 0, 0, false);
    pod := Pod("team", "p", "uid-p", [Container("main", 0)], 0, None, Some("group"), false, [], [], none);
    t := [Gpu("g0", Owner("other", "r", "main"), map[]), Gpu("g1", Owner("reservation", "r", "main"), map[])];
    assert FirstNamed(t, "r", 0);
    assert OwnsByName(t, "r");
    assert ReservationIndex(t, pod, c) == Some(0);
    assert DedicatedAdd(t, pod, c) == Some(t);
  }
}
