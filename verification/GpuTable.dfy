/**
 The per-node GPU table and what each pod event does to it.  Additions, updates and deletions are
 given position by position: which GPUs change, and to what.
 */
module GpuTable {
  import opened Sequences
  import opened Decimals

  datatype Usage = Usage(min: int, max: int, fbUsed: int, knative: bool)

  datatype Owner = Owner(namespace: string, pod: string, container: string)

  const NOBODY := Owner("", "", "")

  /** usage maps the uid of each pod running on the GPU to what it is reported to use. */
  datatype Gpu = Gpu(id: string, owner: Owner, usage: map<string, Usage>)

  type Table = seq<Gpu>

  datatype Container = Container(name: string, claims: nat)

  datatype Pod = Pod(
    namespace: string, name: string, uid: string, containers: seq<Container>,
    gpuLimit: int,                      // nvidia.com/gpu limit of the first container
    gpuIndex: Option<string>,           // the runai-gpu annotation
    gpuGroup: Option<string>,           // the runai-gpu-group label
    indexAnnotated: bool,               // carries the deprecated reservation index annotation
    statusClaims: seq<Option<string>>, specClaims: seq<Option<string>>,
    usage: Usage)                       // what calculateUsage reports for this pod

  datatype Allocation = Allocation(driver: string, device: string)
  datatype Claim = Claim(allocation: Option<seq<Allocation>>)

  datatype ReservationPod = ReservationPod(
    name: string,
    gpuIndex: Option<string>,           // the reservation index annotation
    gpuGroup: Option<string>)           // the runai-gpu-group label

  /** What the handlers read from the rest of the cluster. */
  datatype Cluster = Cluster(
    reservationNamespace: string,
    reservationPods: Option<seq<ReservationPod>>,  // of the pod's node, None when they cannot be listed
    claims: map<(string, string), Claim>,
    patchOk: bool)

  const DRA_DRIVER := "gpu.nvidia.com"

  ghost predicate WellFormed(pod: Pod, c: Cluster) {
    && pod.name != "" && |pod.containers| > 0
    && (c.reservationPods.Some? ==> forall p :: p in c.reservationPods.value ==> p.name != "")
  }

  predicate IsReservation(pod: Pod, c: Cluster) { pod.namespace == c.reservationNamespace }
  predicate IsShared(pod: Pod, c: Cluster) { !IsReservation(pod, c) && (pod.gpuIndex.Some? || pod.gpuGroup.Some?) }
  predicate IsDedicated(pod: Pod) { pod.gpuLimit != 0 }
  predicate IsDra(pod: Pod) { |pod.specClaims| > 0 }

  function FirstContainer(pod: Pod): string
    requires |pod.containers| > 0
  {
    pod.containers[0].name
  }

  /** The first container with a claim, or else the first container. */
  function ClaimContainer(containers: seq<Container>): string
    requires |containers| > 0
  {
    if k :| 0 <= k < |containers| && containers[k].claims > 0 && forall j :: 0 <= j < k ==> containers[j].claims == 0
    then containers[k].name
    else containers[0].name
  }

  predicate Free(g: Gpu) { g.owner.pod == "" }
  predicate Clean(g: Gpu) { g.owner == NOBODY && g.usage == map[] }

  predicate OccupiedBy(g: Gpu, pod: Pod) { g.owner.namespace == pod.namespace && g.owner.pod == pod.name }

  predicate DedicatedTo(g: Gpu, pod: Pod)
    requires |pod.containers| > 0
  {
    OccupiedBy(g, pod) && g.owner.container == FirstContainer(pod)
  }

  function Charge(g: Gpu, pod: Pod): Gpu { g.(usage := g.usage[pod.uid := pod.usage]) }

  function Grant(g: Gpu, pod: Pod, container: string): Gpu {
    g.(owner := Owner(pod.namespace, pod.name, container))
  }

  function Released(g: Gpu): Gpu { Gpu(g.id, NOBODY, map[]) }

  // ----- Dedicated pods -----

  /** Free GPUs among the first i. */
  function FreeBefore(t: Table, i: nat): nat
    requires i <= |t|
  {
    if i == 0 then 0 else FreeBefore(t, i - 1) + if Free(t[i - 1]) then 1 else 0
  }

  lemma {:induction false} FreeBeforeGrows(t: Table, i: nat, j: nat)
    requires i <= j <= |t|
    ensures FreeBefore(t, i) <= FreeBefore(t, j)
    decreases j
  {
    if i < j { FreeBeforeGrows(t, i, j - 1); }
  }

  /** GPU i is one of the pod's gpuLimit lowest-indexed free GPUs. */
  predicate FirstFit(t: Table, pod: Pod, i: nat)
    requires i < |t|
  {
    Free(t[i]) && FreeBefore(t, i) < pod.gpuLimit
  }

  function DedicatedGrant(g: Gpu, pod: Pod, c: Cluster): Gpu
    requires |pod.containers| > 0
  {
    var granted := Grant(g, pod, FirstContainer(pod));
    if IsReservation(pod, c) then granted else Charge(granted, pod)
  }

  function DedicatedAlloc(t: Table, pod: Pod, c: Cluster): Table
    requires |pod.containers| > 0
  {
    seq(|t|, i requires 0 <= i < |t| => if FirstFit(t, pod, i) then DedicatedGrant(t[i], pod, c) else t[i])
  }

  predicate OwnsByName(t: Table, name: string) {
    exists i :: 0 <= i < |t| && t[i].owner.pod == name
  }

  /** A reservation pod must end up with a GPU whose index can be written back to the pod. */
  predicate ReservationSettled(t: Table, pod: Pod, c: Cluster) {
    IsReservation(pod, c) && !pod.indexAnnotated ==> OwnsByName(t, pod.name) && c.patchOk
  }

  predicate HoldsDedicated(t: Table, pod: Pod)
    requires |pod.containers| > 0
  {
    exists i :: 0 <= i < |t| && DedicatedTo(t[i], pod)
  }

  function DedicatedAdd(t: Table, pod: Pod, c: Cluster): Option<Table>
    requires |pod.containers| > 0
  {
    if !IsDedicated(pod) || HoldsDedicated(t, pod) then Some(t)
    else
      var after := DedicatedAlloc(t, pod, c);
      if ReservationSettled(after, pod, c) then Some(after) else None
  }

  function DedicatedUpdate(t: Table, pod: Pod, c: Cluster): Table
    requires |pod.containers| > 0
  {
    seq(|t|, i requires 0 <= i < |t| =>
      if IsDedicated(pod) && !IsReservation(pod, c) && DedicatedTo(t[i], pod) then Charge(t[i], pod) else t[i])
  }

  function DedicatedDelete(t: Table, pod: Pod): Table
    requires |pod.containers| > 0
  {
    seq(|t|, i requires 0 <= i < |t| =>
      if IsDedicated(pod) && DedicatedTo(t[i], pod) then Released(t[i]) else t[i])
  }

  // ----- Shared pods -----

  /** i is the first GPU whose owning pod has this name, in whatever namespace. */
  predicate FirstNamed(t: Table, name: string, i: nat) {
    i < |t| && t[i].owner.pod == name && forall j :: 0 <= j < i ==> t[j].owner.pod != name
  }

  function OrEmpty(o: Option<string>): string { if o.Some? then o.value else "" }

  datatype Mark = IndexAnnotation | GroupLabel

  function MarkOf(p: ReservationPod, mark: Mark): string {
    match mark case IndexAnnotation => OrEmpty(p.gpuIndex) case GroupLabel => OrEmpty(p.gpuGroup)
  }

  /** Name of the first pod carrying this mark. */
  function FirstMarked(pods: seq<ReservationPod>, mark: Mark, value: string): (r: Option<string>)
    ensures r.Some? ==> exists p :: p in pods && p.name == r.value && MarkOf(p, mark) == value
  {
    if |pods| == 0 then None
    else if MarkOf(pods[0], mark) == value then Some(pods[0].name)
    else FirstMarked(pods[1..], mark, value)
  }

  function ByIndex(pod: Pod, c: Cluster): Option<string> {
    var index := OrEmpty(pod.gpuIndex);
    if index == "" || Atoi(index).None? || c.reservationPods.None? then None
    else FirstMarked(c.reservationPods.value, IndexAnnotation, index)
  }

  function ByGroup(pod: Pod, c: Cluster): Option<string> {
    var group := OrEmpty(pod.gpuGroup);
    if group == "" || c.reservationPods.None? then None
    else FirstMarked(c.reservationPods.value, GroupLabel, group)
  }

  /** The reservation pod a shared pod runs on: by index annotation, or else by group label. */
  function ReservationName(pod: Pod, c: Cluster): (r: Option<string>)
    ensures r.Some? && WellFormed(pod, c) ==> r.value != ""
  {
    if ByIndex(pod, c).Some? then ByIndex(pod, c) else ByGroup(pod, c)
  }

  function ReservationIndex(t: Table, pod: Pod, c: Cluster): (r: Option<nat>)
    ensures r.Some? ==> ReservationName(pod, c).Some? && FirstNamed(t, ReservationName(pod, c).value, r.value)
    ensures r.None? ==> ReservationName(pod, c).None? || !OwnsByName(t, ReservationName(pod, c).value)
  {
    if ReservationName(pod, c).None? then None else FirstNamedFrom(t, ReservationName(pod, c).value, 0)
  }

  function FirstNamedFrom(t: Table, name: string, i: nat): (r: Option<nat>)
    requires i <= |t| && forall j :: 0 <= j < i ==> t[j].owner.pod != name
    ensures r.Some? ==> FirstNamed(t, name, r.value)
    ensures r.None? ==> !OwnsByName(t, name)
    decreases |t| - i
  {
    if i == |t| then None else if t[i].owner.pod == name then Some(i) else FirstNamedFrom(t, name, i + 1)
  }

  function SharedCharge(t: Table, pod: Pod, c: Cluster): Option<Table> {
    if !IsShared(pod, c) then Some(t)
    else match ReservationIndex(t, pod, c)
      case None => None
      case Some(i) => Some(t[i := Charge(t[i], pod)])
  }

  function SharedUncharge(t: Table, pod: Pod, c: Cluster): Option<Table> {
    if !IsShared(pod, c) then Some(t)
    else match ReservationIndex(t, pod, c)
      case None => None
      case Some(i) => Some(t[i := t[i].(usage := t[i].usage - {pod.uid})])
  }

  // ----- Pods with resource claims -----

  function FoldChar(ch: char): char {
    if 'A' <= ch <= 'Z' then ((ch as int) + 32) as char else ch
  }

  /** Lower-cased text: equal folds are what strings.EqualFold accepts on ASCII. */
  function Fold(s: string): string {
    seq(|s|, i requires 0 <= i < |s| => FoldChar(s[i]))
  }

  /** Device name d designates GPU i: the first GPU whose id equals it up to case. */
  predicate Designates(t: Table, d: string, i: nat)
    requires i < |t|
  {
    Fold(t[i].id) == Fold(d) && forall j :: 0 <= j < i ==> Fold(t[j].id) != Fold(d)
  }

  predicate Claimed(t: Table, names: seq<string>, i: nat)
    requires i < |t|
  {
    exists k :: 0 <= k < |names| && Designates(t, names[k], i)
  }

  function DraGrant(g: Gpu, pod: Pod): Gpu
    requires |pod.containers| > 0
  {
    Charge(Grant(g, pod, ClaimContainer(pod.containers)), pod)
  }

  function DraAlloc(t: Table, pod: Pod, names: seq<string>): Table
    requires |pod.containers| > 0
  {
    seq(|t|, i requires 0 <= i < |t| =>
      if Free(t[i]) && Claimed(t, names, i) then DraGrant(t[i], pod) else t[i])
  }

  predicate Holds(t: Table, pod: Pod) {
    exists i :: 0 <= i < |t| && OccupiedBy(t[i], pod)
  }

  /** The usable names in order of first appearance. */
  function Distinct(names: seq<Option<string>>): seq<string> {
    if |names| == 0 then []
    else
      var front, last := Distinct(names[..|names| - 1]), names[|names| - 1];
      if last.None? || last.value == "" || last.value in front then front else front + [last.value]
  }

  /** Claims generated from templates come first, then direct references. */
  function ClaimNames(pod: Pod): seq<string> { Distinct(pod.statusClaims + pod.specClaims) }

  function DevicesOf(results: seq<Allocation>): seq<string> {
    if |results| == 0 then []
    else
      var last := results[|results| - 1];
      DevicesOf(results[..|results| - 1]) + if last.driver == DRA_DRIVER then [last.device] else []
  }

  function ClaimDevices(claim: Claim): seq<string> {
    match claim.allocation case None => [] case Some(results) => DevicesOf(results)
  }

  /** Devices of all named claims, or None when a claim cannot be read. */
  function DevicesOfClaims(namespace: string, names: seq<string>, c: Cluster): Option<seq<string>> {
    if |names| == 0 then Some([])
    else
      var last := (namespace, names[|names| - 1]);
      match DevicesOfClaims(namespace, names[..|names| - 1], c)
      case None => None
      case Some(devices) => if last in c.claims then Some(devices + ClaimDevices(c.claims[last])) else None
  }

  function DeviceNames(pod: Pod, c: Cluster): Option<seq<string>> {
    DevicesOfClaims(pod.namespace, ClaimNames(pod), c)
  }

  function DraAdd(t: Table, pod: Pod, c: Cluster): Option<Table>
    requires |pod.containers| > 0
  {
    if !IsDra(pod) || Holds(t, pod) then Some(t)
    else match DeviceNames(pod, c)
      case None => None
      case Some(names) => Some(DraAlloc(t, pod, names))
  }

  function DraRefresh(t: Table, pod: Pod): Table {
    seq(|t|, i requires 0 <= i < |t| => if OccupiedBy(t[i], pod) then Charge(t[i], pod) else t[i])
  }

  /** Late allocation, name by name: the GPU a name designates goes to the pod if it is free by then. */
  function LateAlloc(t: Table, pod: Pod, names: seq<string>): (u: Table)
    requires |pod.containers| > 0
    ensures |u| == |t|
  {
    if |names| == 0 then t
    else
      var u, d := LateAlloc(t, pod, names[..|names| - 1]), names[|names| - 1];
      seq(|u|, i requires 0 <= i < |u| => if Free(u[i]) && Designates(u, d, i) then DraGrant(u[i], pod) else u[i])
  }

  function DraUpdate(t: Table, pod: Pod, c: Cluster): Option<Table>
    requires |pod.containers| > 0
  {
    if !IsDra(pod) then Some(t)
    else if Holds(t, pod) then Some(DraRefresh(t, pod))
    else match DeviceNames(pod, c)
      case None => None
      case Some(names) => Some(LateAlloc(t, pod, names))
  }

  function DraDelete(t: Table, pod: Pod): Table {
    seq(|t|, i requires 0 <= i < |t| => if IsDra(pod) && OccupiedBy(t[i], pod) then Released(t[i]) else t[i])
  }

  // ----- Events -----

  /** None: the event fails and nothing is stored. */
  function Add(t: Table, pod: Pod, c: Cluster): Option<Table>
    requires |pod.containers| > 0
  {
    match DedicatedAdd(t, pod, c)
    case None => None
    case Some(a) =>
      match SharedCharge(a, pod, c)
      case None => None
      case Some(b) => DraAdd(b, pod, c)
  }

  function Update(t: Table, pod: Pod, c: Cluster): Option<Table>
    requires |pod.containers| > 0
  {
    match SharedCharge(DedicatedUpdate(t, pod, c), pod, c)
    case None => None
    case Some(b) => DraUpdate(b, pod, c)
  }

  function Delete(t: Table, pod: Pod, c: Cluster): Option<Table>
    requires |pod.containers| > 0
  {
    match SharedUncharge(DedicatedDelete(t, pod), pod, c)
    case None => None
    case Some(b) => Some(DraDelete(b, pod))
  }
}
