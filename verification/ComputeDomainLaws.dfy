/** Crash consistency, claim accounting, replay and round trip of the compute-domain checkpoint. */
module ComputeDomainLaws {
  import opened Sequences
  import opened ComputeDomains

  // ----- Calls that stop anywhere -----

  /** A call that stopped after its first `done` durable writes. */
  datatype Call =
    | PrepareCall(claim: ResourceClaim, order: seq<string>, done: nat)
    | UnprepareCall(uid: string, done: nat)

  function Writes(d: Disk, call: Call): seq<Write> {
    match call
    case UnprepareCall(uid, _) => UnpreparePlan(d, uid)
    case PrepareCall(claim, order, _) =>
      match PreparePlan(d, claim, order) case Failed(_) => [] case Planned(_, ws) => ws
  }

  function Left(d: Disk, call: Call): Disk {
    var ws := Writes(d, call);
    After(d, ws, if call.done <= |ws| then call.done else |ws|)
  }

  function History(d: Disk, calls: seq<Call>): Disk
    decreases |calls|
  {
    if |calls| == 0 then d else History(Left(d, calls[0]), calls[1..])
  }

  // ----- The invariant -----

  ghost predicate InSomeDomain(cp: Checkpoint, uid: string) {
    exists d :: d in cp.domains && uid in cp.domains[d].claims
  }

  ghost predicate OneDomainEach(domains: map<string, DomainInfo>) {
    forall d, e, u ::
      d in domains && e in domains && u in domains[d].claims && u in domains[e].claims ==> d == e
  }

  /**
   Each prepared claim occurs exactly once in exactly one domain, no domain lists any other claim, a
   domain exists only while its list is non-empty, and a prepared claim has devices.
   */
  ghost predicate Accounted(cp: Checkpoint) {
    && (forall d :: d in cp.domains ==>
          && cp.domains[d].domainID == d
          && cp.domains[d].claims != []
          && NoDuplicates(cp.domains[d].claims)
          && forall u :: u in cp.domains[d].claims ==> u in cp.prepared)
    && OneDomainEach(cp.domains)
    && (forall u :: u in cp.prepared ==> cp.prepared[u] != [] && InSomeDomain(cp, u))
  }

  /** Every claim in the checkpoint has its spec file, holding exactly its checkpointed devices. */
  ghost predicate SpecsCover(d: Disk) {
    forall u :: u in d.checkpoint.prepared ==>
      && u in d.specs && d.specs[u] == d.checkpoint.prepared[u]
      && WithIds(u, d.checkpoint.prepared[u]) == d.checkpoint.prepared[u]
  }

  ghost predicate Durable(d: Disk) { Accounted(d.checkpoint) && SpecsCover(d) }

  lemma WithoutMembers(claims: seq<string>, uid: string)
    requires NoDuplicates(claims)
    ensures NoDuplicates(Without(claims, uid))
    ensures forall u :: u in Without(claims, uid) <==> u in claims && u != uid
    ensures uid in claims && Without(claims, uid) == [] ==> claims == [uid]
  {
    if uid in claims {
      var i :| 0 <= i < |claims| && claims[i] == uid;
      assert uid !in claims[..i];
      WithoutAt(claims, uid, i);
      OmitMembers(claims, i);
    } else {
      WithoutAbsent(claims, uid);
    }
  }

  lemma OmitMembers(s: seq<string>, i: nat)
    requires NoDuplicates(s) && i < |s|
    ensures var rest := s[..i] + s[i + 1..];
      && NoDuplicates(rest)
      && (forall u :: u in rest <==> u in s && u != s[i])
      && (rest == [] ==> s == [s[i]])
  {
    var rest := s[..i] + s[i + 1..];
    assert forall k :: 0 <= k < |rest| ==> rest[k] == s[if k < i then k else k + 1];
    forall u | u in s && u != s[i] ensures u in rest {
      var m :| 0 <= m < |s| && s[m] == u;
      assert rest[if m < i then m else m - 1] == u;
    }
  }

  lemma JoinAccounted(cp: Checkpoint, id: string, uid: string, devices: seq<Device>)
    requires Accounted(cp) && uid !in cp.prepared && devices != []
    ensures Accounted(Checkpoint(cp.prepared[uid := devices], Join(cp.domains, id, uid)))
  {
    var after := Checkpoint(cp.prepared[uid := devices], Join(cp.domains, id, uid));
    JoinListsAll(cp, id, uid, devices);
    JoinOneDomain(cp, id, uid);
    hide OneDomainEach, InSomeDomain;
  }

  lemma JoinOneDomain(cp: Checkpoint, id: string, uid: string)
    requires Accounted(cp) && uid !in cp.prepared
    ensures OneDomainEach(Join(cp.domains, id, uid))
  {
    hide NoDuplicates, InSomeDomain;
    var after := Join(cp.domains, id, uid);
    forall d, u | d in after && u in after[d].claims
      ensures if u == uid then d == id else d in cp.domains && u in cp.domains[d].claims
    {
    }
  }

  lemma JoinListsAll(cp: Checkpoint, id: string, uid: string, devices: seq<Device>)
    requires Accounted(cp)
    ensures var after := Checkpoint(cp.prepared[uid := devices], Join(cp.domains, id, uid));
      forall u :: u in after.prepared ==> InSomeDomain(after, u)
  {
    var after := Checkpoint(cp.prepared[uid := devices], Join(cp.domains, id, uid));
    forall u | u in after.prepared ensures InSomeDomain(after, u) {
      if u == uid {
        assert uid in after.domains[id].claims;
      } else {
        var d :| d in cp.domains && u in cp.domains[d].claims;
        assert u in after.domains[d].claims;
      }
    }
  }

  lemma LeaveAccounted(cp: Checkpoint, uid: string)
    requires Accounted(cp) && uid in cp.prepared
    ensures Accounted(Checkpoint(cp.prepared - {uid}, Leave(cp.domains, uid)))
  {
    var after := Checkpoint(cp.prepared - {uid}, Leave(cp.domains, uid));
    forall d | d in cp.domains
      ensures NoDuplicates(Without(cp.domains[d].claims, uid))
      ensures forall u :: u in Without(cp.domains[d].claims, uid) <==> u in cp.domains[d].claims && u != uid
      ensures Without(cp.domains[d].claims, uid) == [] ==> Emptied(cp.domains[d], uid)
    {
      WithoutMembers(cp.domains[d].claims, uid);
      if uid !in cp.domains[d].claims { WithoutAbsent(cp.domains[d].claims, uid); }
    }
    forall u | u in after.prepared ensures InSomeDomain(after, u) {
      var d :| d in cp.domains && u in cp.domains[d].claims;
      assert u in after.domains[d].claims;
    }
  }

  lemma NewDevicesHaveIds(claim: ResourceClaim, order: seq<string>)
    ensures WithIds(claim.uid, NewDevices(claim, order)) == NewDevices(claim, order)
  {
  }

  lemma PrepareKeepsDurable(d: Disk, claim: ResourceClaim, order: seq<string>, k: nat)
    requires Durable(d) && PreparePlan(d, claim, order).Planned?
    requires k <= |PreparePlan(d, claim, order).writes|
    ensures Durable(After(d, PreparePlan(d, claim, order).writes, k))
  {
    AfterShort(d, PreparePlan(d, claim, order).writes);
    if claim.uid in d.checkpoint.prepared {
      hide Accounted;
    } else {
      NewDevicesHaveIds(claim, order);
      JoinAccounted(d.checkpoint, DomainOf(claim), claim.uid, NewDevices(claim, order));
      hide Accounted, Join, NewDevices, DomainOf, DeviceClassName, After, WithIds;
    }
  }

  lemma UnprepareKeepsDurable(d: Disk, uid: string, k: nat)
    requires Durable(d) && k <= |UnpreparePlan(d, uid)|
    ensures Durable(After(d, UnpreparePlan(d, uid), k))
  {
    AfterShort(d, UnpreparePlan(d, uid));
    if uid in d.checkpoint.prepared {
      LeaveAccounted(d.checkpoint, uid);
    }
    hide Accounted, Leave;
  }

  /** Every disk on the way through a call, from before its first write to after its last, is durable. */
  lemma EveryCrashPointIsDurable(d: Disk, call: Call, k: nat)
    requires Durable(d) && k <= |Writes(d, call)|
    ensures Durable(After(d, Writes(d, call), k))
  {
    hide Durable, PreparePlan, UnpreparePlan, After;
    match call
    case PrepareCall(claim, order, _) =>
      if PreparePlan(d, claim, order).Planned? {
        PrepareKeepsDurable(d, claim, order, k);
      } else {
        AfterShort(d, []);
      }
    case UnprepareCall(uid, _) => UnprepareKeepsDurable(d, uid, k);
  }

  /** One call, stopped anywhere, keeps the disk durable. */
  lemma CallKeepsDurable(d: Disk, call: Call)
    requires Durable(d)
    ensures Durable(Left(d, call))
  {
    var n := |Writes(d, call)|;
    EveryCrashPointIsDurable(d, call, if call.done <= n then call.done else n);
  }

  lemma {:induction false} HistoryKeepsDurable(d: Disk, calls: seq<Call>)
    requires Durable(d)
    ensures Durable(History(d, calls))
    decreases |calls|
  {
    if |calls| > 0 {
      CallKeepsDurable(d, calls[0]);
      HistoryKeepsDurable(Left(d, calls[0]), calls[1..]);
    }
  }

  /** Crash consistency: whatever calls ran, each stopped anywhere, the disk is durable. */
  lemma EveryReachableDisk(calls: seq<Call>)
    ensures Durable(History(EMPTY, calls))
  {
    HistoryKeepsDurable(EMPTY, calls);
  }

  // ----- Complete calls -----

  function PrepareEnd(d: Disk, claim: ResourceClaim, order: seq<string>): Disk {
    match PreparePlan(d, claim, order) case Failed(_) => d case Planned(_, ws) => After(d, ws, |ws|)
  }

  function UnprepareEnd(d: Disk, uid: string): Disk {
    After(d, UnpreparePlan(d, uid), |UnpreparePlan(d, uid)|)
  }

  /**
   Retrying an interrupted Prepare ends exactly where an uninterrupted call would have ended: the
   retry's own channel order counts unless the first attempt had already committed its checkpoint.
   */
  lemma PrepareRetry(d: Disk, claim: ResourceClaim, order: seq<string>, again: seq<string>, k: nat)
    requires Durable(d) && PreparePlan(d, claim, order).Planned? && PreparePlan(d, claim, again).Planned?
    requires k <= |PreparePlan(d, claim, order).writes|
    ensures var ws := PreparePlan(d, claim, order).writes;
            PrepareEnd(After(d, ws, k), claim, again) == PrepareEnd(d, claim, if k == 2 then order else again)
  {
    var ws := PreparePlan(d, claim, order).writes;
    AfterShort(d, ws);
    if claim.uid in d.checkpoint.prepared {
      RetryOfPrepared(d, claim, order);
      RetryOfPrepared(d, claim, again);
    } else if k == 2 {
      PrepareKeepsDurable(d, claim, order, k);
      RetryOfPrepared(After(d, ws, k), claim, again);
    } else {
      RetryOfUnrecorded(d, claim, order, again, k);
    }
  }

  /** The only write for a prepared claim repeats the spec file that is there already. */
  lemma RetryOfPrepared(d: Disk, claim: ResourceClaim, order: seq<string>)
    requires Durable(d) && claim.uid in d.checkpoint.prepared
    ensures PrepareEnd(d, claim, order) == d
    ensures PreparePlan(d, claim, order).Planned? && |PreparePlan(d, claim, order).writes| == 1
  {
    AfterShort(d, PreparePlan(d, claim, order).writes);
    assert d.specs[claim.uid := d.checkpoint.prepared[claim.uid]] == d.specs;
  }

  /** Before the checkpoint is written a retry plans afresh and overwrites whatever spec file is left. */
  lemma RetryOfUnrecorded(d: Disk, claim: ResourceClaim, order: seq<string>, again: seq<string>, k: nat)
    requires claim.uid !in d.checkpoint.prepared && k < 2
    requires PreparePlan(d, claim, order).Planned? && PreparePlan(d, claim, again).Planned?
    ensures |PreparePlan(d, claim, order).writes| == 2
    ensures PrepareEnd(After(d, PreparePlan(d, claim, order).writes, k), claim, again) == PrepareEnd(d, claim, again)
  {
    var ws, ws' := PreparePlan(d, claim, order).writes, PreparePlan(d, claim, again).writes;
    AfterShort(d, ws);
    AfterShort(d, ws');
    var left := After(d, ws, k);
    assert left.checkpoint == d.checkpoint && PreparePlan(left, claim, again) == PreparePlan(d, claim, again);
    AfterShort(left, ws');
    hide NewDevices, Join, DeviceClassName, DomainOf, After;
  }

  /** Preparing a prepared claim returns the same devices and leaves the disk as it is. */
  lemma PrepareIsIdempotent(d: Disk, claim: ResourceClaim, order: seq<string>, again: seq<string>)
    requires Durable(d) && PreparePlan(d, claim, order).Planned?
    ensures var e := PrepareEnd(d, claim, order);
      && PreparePlan(e, claim, again).Planned?
      && PreparePlan(e, claim, again).devices == PreparePlan(d, claim, order).devices
      && PrepareEnd(e, claim, again) == e
  {
    var ws := PreparePlan(d, claim, order).writes;
    AfterShort(d, ws);
    var e := PrepareEnd(d, claim, order);
    NewDevicesHaveIds(claim, order);
    AfterShort(e, PreparePlan(e, claim, again).writes);
    assert e.specs[claim.uid := e.checkpoint.prepared[claim.uid]] == e.specs;
  }

  /**
   Retrying an interrupted Unprepare reaches the uninterrupted checkpoint from every crash point; the
   claim's spec file is left behind exactly when the crash fell between the two writes.
   */
  lemma UnprepareRetry(d: Disk, uid: string, k: nat)
    requires Durable(d) && k <= |UnpreparePlan(d, uid)|
    ensures var left := After(d, UnpreparePlan(d, uid), k);
      && UnprepareEnd(left, uid).checkpoint == UnprepareEnd(d, uid).checkpoint
      && (UnprepareEnd(left, uid).specs == UnprepareEnd(d, uid).specs <==> k != 1)
      && (k == 1 ==> uid in UnprepareEnd(left, uid).specs && uid !in UnprepareEnd(d, uid).specs)
  {
    AfterShort(d, UnpreparePlan(d, uid));
    var left := After(d, UnpreparePlan(d, uid), k);
    AfterShort(left, UnpreparePlan(left, uid));
  }

  /** One claim prepared and unprepared, with a crash between Unprepare's writes: its spec file outlives the retry. */
  lemma CrashLeavesSpecFile() returns (claim: ResourceClaim)
    ensures var uid := claim.uid;
            var d := History(EMPTY, [PrepareCall(claim, [], 2), UnprepareCall(uid, 1), UnprepareCall(uid, 2)]);
            d.checkpoint == EMPTY.checkpoint && claim.uid in d.specs
  {
    var config := OpaqueConfig(DRIVER, Some(Params(Some("domain"), None)));
    claim := ResourceClaim("uid", "team", [Some("class")], [Some(config)]);
    var calls := [PrepareCall(claim, [], 2), UnprepareCall("uid", 1), UnprepareCall("uid", 2)];
    var devices := [NewDevice(claim, "channel-0")];
    assert DriverParams(claim.configs) == config.params.value;
    assert DeviceClassName(claim.requests) == "class";
    assert DomainOf(claim) == "domain" && NewDevices(claim, []) == devices;
    var cp := Checkpoint(map["uid" := devices], map["domain" := DomainInfo("domain", ["uid"])]);
    var d1, d2 := Disk(cp, map["uid" := devices]), Disk(EMPTY.checkpoint, map["uid" := devices]);
    CrashSteps(claim, devices, cp, d1, d2);
    assert calls[1..] == [UnprepareCall("uid", 1), UnprepareCall("uid", 2)];
    assert calls[1..][1..] == [UnprepareCall("uid", 2)];
    hide Left;
    assert History(d2, [UnprepareCall("uid", 2)]) == d2;
    assert History(d1, calls[1..]) == d2;
  }

  lemma CrashSteps(claim: ResourceClaim, devices: seq<Device>, cp: Checkpoint, d1: Disk, d2: Disk)
    requires claim.uid == "uid" && DeviceClassName(claim.requests) == "class" && DomainOf(claim) == "domain"
    requires NewDevices(claim, []) == devices != []
    requires cp == Checkpoint(map["uid" := devices], map["domain" := DomainInfo("domain", ["uid"])])
    requires d1 == Disk(cp, map["uid" := devices]) && d2 == Disk(EMPTY.checkpoint, map["uid" := devices])
    ensures Left(EMPTY, PrepareCall(claim, [], 2)) == d1
    ensures Left(d1, UnprepareCall("uid", 1)) == d2
    ensures Left(d2, UnprepareCall("uid", 2)) == d2
  {
    hide NewDevices, DeviceClassName, DomainOf;
    assert Join(map[], "domain", "uid") == cp.domains;
    AfterShort(EMPTY, Writes(EMPTY, PrepareCall(claim, [], 2)));
    assert Leave(cp.domains, "uid") == map[] && cp.prepared - {"uid"} == map[];
    AfterShort(d1, UnpreparePlan(d1, "uid"));
    AfterShort(d2, UnpreparePlan(d2, "uid"));
  }

  /** Unpreparing is idempotent, and afterwards the claim is in no domain. */
  lemma UnprepareIsIdempotent(d: Disk, uid: string)
    requires Durable(d)
    ensures UnprepareEnd(UnprepareEnd(d, uid), uid) == UnprepareEnd(d, uid)
    ensures uid !in UnprepareEnd(d, uid).checkpoint.prepared
    ensures !InSomeDomain(UnprepareEnd(d, uid).checkpoint, uid)
  {
    AfterShort(d, UnpreparePlan(d, uid));
    var e := UnprepareEnd(d, uid);
    AfterShort(e, UnpreparePlan(e, uid));
    if uid in d.checkpoint.prepared {
      LeaveAccounted(d.checkpoint, uid);
    }
  }

  /** Unprepare after Prepare of a fresh claim restores the checkpoint and removes any spec file of the claim. */
  lemma UnprepareUndoesPrepare(d: Disk, claim: ResourceClaim, order: seq<string>)
    requires Durable(d) && claim.uid !in d.checkpoint.prepared && PreparePlan(d, claim, order).Planned?
    ensures UnprepareEnd(PrepareEnd(d, claim, order), claim.uid) == Disk(d.checkpoint, d.specs - {claim.uid})
  {
    var uid, id := claim.uid, DomainOf(claim);
    AfterShort(d, PreparePlan(d, claim, order).writes);
    var e := PrepareEnd(d, claim, order);
    AfterShort(e, UnpreparePlan(e, uid));
    LeaveUndoesJoin(d.checkpoint, id, uid);
    hide NewDevices, Join, Leave, DeviceClassName, Accounted, After;
    assert e.checkpoint.prepared - {uid} == d.checkpoint.prepared;
    assert e.specs - {uid} == d.specs - {uid};
  }

  lemma LeaveUndoesJoin(cp: Checkpoint, id: string, uid: string)
    requires Accounted(cp) && uid !in cp.prepared
    ensures Leave(Join(cp.domains, id, uid), uid) == cp.domains
  {
    var joined := Join(cp.domains, id, uid);
    forall d | d in cp.domains
      ensures d in Leave(joined, uid) && Leave(joined, uid)[d] == cp.domains[d]
    {
      var claims := cp.domains[d].claims;
      assert uid !in claims;
      WithoutAbsent(claims, uid);
      if d == id {
        WithoutAt(claims + [uid], uid, |claims|);
        assert claims + [uid] != [uid];
      }
    }
    assert id !in cp.domains ==> Emptied(joined[id], uid);
  }

  // ----- Claims do not disturb one another -----

  /** Another claim's devices, spec file and domains are the same on both disks. */
  ghost predicate SameFor(d: Disk, e: Disk, other: string) {
    && (other in e.checkpoint.prepared <==> other in d.checkpoint.prepared)
    && (other in d.checkpoint.prepared ==> e.checkpoint.prepared[other] == d.checkpoint.prepared[other])
    && (other in e.specs <==> other in d.specs)
    && (other in d.specs ==> e.specs[other] == d.specs[other])
    && forall id :: ListedIn(e, id, other) <==> ListedIn(d, id, other)
  }

  predicate ListedIn(d: Disk, id: string, uid: string) {
    id in d.checkpoint.domains && uid in d.checkpoint.domains[id].claims
  }

  /** A Prepare, stopped anywhere, leaves every other claim alone. */
  lemma PrepareLeavesOthers(d: Disk, claim: ResourceClaim, order: seq<string>, k: nat, other: string)
    requires Durable(d) && PreparePlan(d, claim, order).Planned? && other != claim.uid
    requires k <= |PreparePlan(d, claim, order).writes|
    ensures SameFor(d, After(d, PreparePlan(d, claim, order).writes, k), other)
  {
    AfterShort(d, PreparePlan(d, claim, order).writes);
  }

  /** An Unprepare, stopped anywhere, leaves every other claim alone. */
  lemma UnprepareLeavesOthers(d: Disk, uid: string, k: nat, other: string)
    requires Durable(d) && other != uid && k <= |UnpreparePlan(d, uid)|
    ensures SameFor(d, After(d, UnpreparePlan(d, uid), k), other)
  {
    AfterShort(d, UnpreparePlan(d, uid));
    forall id | id in d.checkpoint.domains
      ensures other in Without(d.checkpoint.domains[id].claims, uid) <==> other in d.checkpoint.domains[id].claims
    {
      WithoutMembers(d.checkpoint.domains[id].claims, uid);
    }
  }
}
