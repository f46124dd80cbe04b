/**
  The life of dynamic vHCUs on one node, as a function of the state and of everything the
  outside world decides: which external calls fail, which index the driver hands out, which
  pod is pending. The class in DevicePlugin.dfy carries these steps out.
 */
module Lifecycle {
  import opened GoNumbers
  import opened GoStrings
  import opened Kube
  import opened PodDevices
  import opened Drain
  import opened MarkFile
  import opened Capacity
  import opened ResourcePrefix
  import F = FakeIds

  /** Fixed while the plugin runs: the device prefix, the resource and annotation names, the cards. */
  datatype Config = Config(idPrefix: string, mem: string, annoKey: string, hcus: map<string, F.Card>)

  function CheckList(cfg: Config): map<string, string> {
    map[HCU := cfg.annoKey]
  }

  datatype Owner = Owner(podUID: string, containerName: string)

  /** A live vHCU. `owner` records for whom the plugin made it; None if something else did. */
  datatype VDevice = VDevice(card: int, cus: nat, mib: int, owner: Option<Owner>)

  /** `seen` holds every UID a pod of this node ever had. */
  datatype World = World(
    live: map<int, VDevice>,
    marks: set<string>,
    pods: map<string, Pod>,
    locked: bool,
    seen: set<string>)

  function PodOf(pods: map<string, Pod>, uid: string): Option<Pod> {
    if uid in pods then Some(pods[uid]) else None
  }

  predicate Needed(pods: map<string, Pod>, owner: Owner) {
    StillNeeded(PodOf(pods, owner.podUID), owner.containerName)
  }

  // ---------------------------------------------------------------- marks

  predicate IsMark(name: string) {
    ParseMarkFileName(name).Some?
  }

  function OwnerOf(name: string): Owner
    requires IsMark(name)
  {
    Owner(ParseMarkFileName(name).value.podUID, ParseMarkFileName(name).value.containerName)
  }

  function IndexOf(name: string): int
    requires IsMark(name)
  {
    ParseMarkFileName(name).value.vdevIdx
  }

  /** A mark of a whole card has index -1 and no vHCU behind it. */
  predicate MarksVDevice(name: string) {
    IsMark(name) && IndexOf(name) >= 0
  }

  // ---------------------------------------------------------------- reclaiming

  /** What happens to one mark: whether its file goes, and the outcome of each driver call. */
  datatype ReclaimFaults = ReclaimFaults(removed: bool, stops: nat -> bool, destroys: nat -> bool)

  const TRIES: nat := 5

  /** Destroying is tried up to five times. */
  predicate Destroys(f: ReclaimFaults) {
    exists k: nat :: k < TRIES && f.destroys(k)
  }

  datatype RefreshFaults = RefreshFaults(
    dirRead: bool,
    podsListed: bool,
    reclaim: string -> ReclaimFaults,
    podDeleted: string -> bool)

  predicate Works(f: RefreshFaults) {
    f.dirRead && f.podsListed
  }

  function Kept(w: World): set<string> {
    set m | m in w.marks && IsMark(m) && Needed(w.pods, OwnerOf(m))
  }

  function Reclaimed(w: World): set<string> {
    set m | m in w.marks && IsMark(m) && !Needed(w.pods, OwnerOf(m))
  }

  function DestroyedIn(marks: set<string>, f: RefreshFaults): set<int> {
    set m | m in marks && MarksVDevice(m) && Destroys(f.reclaim(m)) :: IndexOf(m)
  }

  function RemovedIn(marks: set<string>, f: RefreshFaults): set<string> {
    set m | m in marks && f.reclaim(m).removed
  }

  /** Pods that lack a mark and whose deletion the API server carries out. */
  function DeletedPods(cfg: Config, w: World, f: RefreshFaults): set<string> {
    set uid | uid in w.pods && MissingMark(w.pods[uid], cfg.mem, Kept(w)) && f.podDeleted(uid)
  }

  function Refreshed(cfg: Config, w: World, f: RefreshFaults): World {
    if !Works(f) then w
    else
      w.(live := w.live - DestroyedIn(Reclaimed(w), f),
         marks := w.marks - RemovedIn(Reclaimed(w), f),
         pods := w.pods - DeletedPods(cfg, w, f))
  }

  // ---------------------------------------------------------------- allocating

  /** A failed write may leave the file behind. */
  datatype Write = Written | NotWritten | Partial

  /** Everything one Allocate call meets outside the plugin. */
  datatype AllocateEnv = AllocateEnv(
    requests: nat,
    deviceIDs: nat,
    refresh: RefreshFaults,
    pending: Option<string>,
    erasePatched: bool,
    nodeFound: nat -> bool,
    wholeMark: nat -> Write,
    created: Option<Int64>,
    mark: Write,
    confValid: bool,
    markRemoved: bool,
    vdevDestroyed: bool,
    phasePatched: bool,
    lockReleased: bool,
    podFetched: bool)

  /** The state after the call and its error, if any. */
  datatype Outcome = Outcome(world: World, error: Option<Error>)

  /** PodAllocationFailed and PodAllocationSuccess: write the phase, then release the node lock. */
  function BindTo(w: World, uid: string, phase: string, e: AllocateEnv): World {
    w.(pods := if uid in w.pods && e.phasePatched
               then w.pods[uid := Patched(w.pods[uid], BIND_PHASE, phase)] else w.pods,
       locked := w.locked && !e.lockReleased)
  }

  function Rejected(w: World, uid: string, e: AllocateEnv, error: Error): Outcome {
    Outcome(BindTo(w, uid, FAILED, e), Some(error))
  }

  function Annotation(cfg: Config, pods: map<string, Pod>, uid: string): string {
    if uid in pods && cfg.annoKey in pods[uid].annotations then pods[uid].annotations[cfg.annoKey] else ""
  }

  /** PodAllocationTrySuccess: done once no device UUID is left in the annotation. */
  function Accepted(cfg: Config, w: World, uid: string, e: AllocateEnv): Outcome {
    if !e.podFetched || Contains(Annotation(cfg, w.pods, uid), cfg.idPrefix) then Outcome(w, None)
    else Outcome(BindTo(w, uid, SUCCESS, e), None)
  }

  function DeviceError(cfg: Config, d: ContainerDevice, nodeFound: bool): Option<Error> {
    if ScanSerial(cfg.idPrefix, d.uuid).None? then Some(InvalidUUID)
    else if F.FakeId(d.uuid, 0) !in cfg.hcus then Some(NoSuchDevice)
    else if !nodeFound then Some(NoDeviceNode)
    else None
  }

  predicate Usable(cfg: Config, devs: Segment, e: AllocateEnv, i: nat)
    requires i < |devs|
  {
    DeviceError(cfg, devs[i], e.nodeFound(i)).None?
  }

  /** How many devices pass before the first that does not. */
  function UsableCount(cfg: Config, devs: Segment, e: AllocateEnv, from: nat): (n: nat)
    requires from <= |devs|
    ensures from <= n <= |devs|
    ensures forall i :: from <= i < n ==> Usable(cfg, devs, e, i)
    ensures n < |devs| ==> !Usable(cfg, devs, e, n)
    decreases |devs| - from
  {
    if from == |devs| || !Usable(cfg, devs, e, from) then from else UsableCount(cfg, devs, e, from + 1)
  }

  function CardOf(cfg: Config, d: ContainerDevice): F.Card
    requires F.FakeId(d.uuid, 0) in cfg.hcus
  {
    cfg.hcus[F.FakeId(d.uuid, 0)]
  }

  /** All cores and all memory of the card. */
  predicate WantsWholeCard(cfg: Config, d: ContainerDevice) {
    F.FakeId(d.uuid, 0) in cfg.hcus && d.usedcores == 100 && d.usedmem == F.TotalMiB(CardOf(cfg, d))
  }

  /** The whole-card marks that the first n devices leave. */
  function WholeCardMarks(cfg: Config, owner: Owner, devs: Segment, e: AllocateEnv, n: nat): set<string>
    requires n <= |devs|
  {
    set i | 0 <= i < n && WantsWholeCard(cfg, devs[i]) && e.wholeMark(i) != NotWritten ::
      MarkName(owner.podUID, owner.containerName, CardOf(cfg, devs[i]).dvInd, -1)
  }

  /** A vHCU is made for a single device that does not take all the memory of its card. */
  predicate WantsVDevice(cfg: Config, devs: Segment) {
    |devs| == 1 && F.FakeId(devs[0].uuid, 0) in cfg.hcus && devs[0].usedmem < F.TotalMiB(CardOf(cfg, devs[0]))
  }

  function VDeviceFor(cfg: Config, owner: Owner, d: ContainerDevice): VDevice
    requires F.FakeId(d.uuid, 0) in cfg.hcus
  {
    VDevice(CardOf(cfg, d).dvInd, GrantedCUs(d.usedcores, CardOf(cfg, d).computeUnit), d.usedmem, Some(owner))
  }

  function MakeVDevice(cfg: Config, w: World, owner: Owner, d: ContainerDevice, e: AllocateEnv): Outcome
    requires F.FakeId(d.uuid, 0) in cfg.hcus
  {
    var uid, card := owner.podUID, CardOf(cfg, d);
    if e.created.None? then Rejected(w, uid, e, DriverError)
    else
      var i := e.created.value;
      var name := MarkName(uid, owner.containerName, card.dvInd, i);
      var made := w.(live := w.live[i := VDeviceFor(cfg, owner, d)]);
      var marked := if e.mark == NotWritten then made else made.(marks := made.marks + {name});
      if e.mark != Written then
        Rejected(if e.vdevDestroyed then marked.(live := marked.live - {i}) else marked, uid, e, MarkError)
      else if !e.confValid then
        var unmarked := if e.markRemoved then marked.(marks := marked.marks - {name}) else marked;
        Rejected(if e.vdevDestroyed then unmarked.(live := unmarked.live - {i}) else unmarked, uid, e, ConfError)
      else Accepted(cfg, marked, uid, e)
  }

  function GrantDevices(cfg: Config, w: World, owner: Owner, devs: Segment, e: AllocateEnv): Outcome
    requires devs != []
  {
    var n := UsableCount(cfg, devs, e, 0);
    var w' := w.(marks := w.marks + WholeCardMarks(cfg, owner, devs, e, n));
    if n < |devs| then Rejected(w', owner.podUID, e, DeviceError(cfg, devs[n], e.nodeFound(n)).value)
    else if WantsVDevice(cfg, devs) then MakeVDevice(cfg, w', owner, devs[0], e)
    else Accepted(cfg, w', owner.podUID, e)
  }

  function ServePod(cfg: Config, w: World, uid: string, e: AllocateEnv): Outcome
    requires uid in w.pods
  {
    var pod := w.pods[uid];
    match NextRequest(CheckList(cfg), HCU, pod)
    case Err(error) => Rejected(w, uid, e, error)
    case Ok((ctr, devs)) =>
      if |devs| != e.deviceIDs then Rejected(w, uid, e, NumberMismatch)
      else
        match NextAnnotation(CheckList(cfg), HCU, pod)
        case Err(error) => Rejected(w, uid, e, error)
        case Ok(text) =>
          if !e.erasePatched then Rejected(w, uid, e, PatchError)
          else
            GrantDevices(cfg, w.(pods := w.pods[uid := Patched(pod, cfg.annoKey, text)]), Owner(uid, ctr.name), devs, e)
  }

  /** The call finds a pod to serve; its uid. */
  predicate Finds(cfg: Config, w: World, e: AllocateEnv) {
    e.requests == 1 && e.pending.Some? && e.pending.value in Refreshed(cfg, w, e.refresh).pods
  }

  function Allocated(cfg: Config, w: World, e: AllocateEnv): Outcome {
    if e.requests != 1 then Outcome(w, Some(BadRequestCount))
    else
      var w1 := Refreshed(cfg, w, e.refresh);
      if e.pending.None? || e.pending.value !in w1.pods then Outcome(w1, Some(NoPendingPod))
      else ServePod(cfg, w1, e.pending.value, e)
  }

  /** The devices that the next request of the pending pod asks for. */
  function NextDevices(cfg: Config, w: World, e: AllocateEnv): Segment {
    var pods, checklist := Refreshed(cfg, w, e.refresh).pods, CheckList(cfg);
    if e.pending.Some? && e.pending.value in pods && NextRequest(checklist, HCU, pods[e.pending.value]).Ok?
    then NextRequest(checklist, HCU, pods[e.pending.value]).value.1 else []
  }

  // ---------------------------------------------------------------- runs

  datatype Step =
    | Refresh(f: RefreshFaults)
    | Allocate(e: AllocateEnv)
    | PodAdded(added: Pod)
    | PodChanged(changed: Pod)
    | PodGone(gone: string)
    | LockTaken

  function Next(cfg: Config, w: World, step: Step): World {
    match step
    case Refresh(f) => Refreshed(cfg, w, f)
    case Allocate(e) => Allocated(cfg, w, e).world
    case PodAdded(pod) => w.(pods := w.pods[pod.uid := pod], seen := w.seen + {pod.uid})
    case PodChanged(pod) => w.(pods := w.pods[pod.uid := pod])
    case PodGone(uid) => w.(pods := w.pods - {uid})
    case LockTaken => w.(locked := true)
  }

  /** The driver hands out an index that is not live at the moment of the call. */
  predicate FreshIndex(cfg: Config, w: World, e: AllocateEnv) {
    e.created.Some? ==> e.created.value >= 0 && e.created.value !in Refreshed(cfg, w, e.refresh).live
  }

  /** What Kubernetes and the driver guarantee: UIDs are never reused and hold no underscore. */
  ghost predicate Possible(cfg: Config, w: World, step: Step) {
    match step
    case Refresh(f) => true
    case Allocate(e) => FreshIndex(cfg, w, e)
    case PodAdded(pod) => pod.uid !in w.seen && '_' !in pod.uid
    case PodChanged(pod) => pod.uid in w.pods && Evolves(w.pods[pod.uid], pod)
    case PodGone(uid) => uid in w.pods
    case LockTaken => true
  }

  function After(cfg: Config, w: World, steps: seq<Step>): World {
    if steps == [] then w
    else Next(cfg, After(cfg, w, steps[..|steps| - 1]), steps[|steps| - 1])
  }

  ghost predicate PossibleRun(cfg: Config, w: World, steps: seq<Step>) {
    forall k :: 0 <= k < |steps| ==> Possible(cfg, After(cfg, w, steps[..k]), steps[k])
  }
}
