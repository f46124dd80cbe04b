/**
  The plugin's own code on the state of the node: refresh, allocate and what they call. Each
  method is proved to take the step that Lifecycle.dfy defines, loops, retries and rollback included.
 */
module DevicePlugin {
  import opened GoNumbers
  import opened GoStrings
  import opened Kube
  import opened PodDevices
  import opened Drain
  import opened MarkFile
  import opened Capacity
  import opened ResourcePrefix
  import opened Lifecycle
  import F = FakeIds

  /**
    The node as the plugin sees and changes it: the driver's vHCUs, the directory of mark files,
    the API server's pods and the node lock.
   */
  class Plugin {
    const cfg: Config
    var live: map<int, VDevice>
    var marks: set<string>
    var pods: map<string, Pod>
    var locked: bool
    ghost var seen: set<string>

    ghost function View(): World
      reads this
    {
      World(live, marks, pods, locked, seen)
    }

    constructor (cfg: Config)
      ensures this.cfg == cfg && View() == World(map[], {}, map[], false, {})
    {
      this.cfg := cfg;
      live, marks, pods, locked, seen := map[], {}, map[], false, {};
    }

    // -------------------------------------------------------------- reclaiming

    /**
      The mark goes first, whole-card marks have nothing else. Stopping is tried up to five times;
      whether or not it ever succeeds, destroying is then tried up to five times.
     */
    method DestroyMarkedVDevice(info: MarkInfo, fileName: string, f: ReclaimFaults) returns (stops: nat, destroys: nat)
      modifies this`live, this`marks
      ensures marks == if f.removed then old(marks) - {fileName} else old(marks)
      ensures info.vdevIdx < 0 ==> live == old(live)
      ensures info.vdevIdx >= 0 && (exists k: nat :: k < 5 && f.destroys(k))
              ==> live == old(live) - {info.vdevIdx as int}
      ensures info.vdevIdx >= 0 && (forall k: nat :: k < 5 ==> !f.destroys(k)) ==> live == old(live)
      ensures info.vdevIdx < 0 ==> stops == destroys == 0
      ensures info.vdevIdx >= 0 ==> 1 <= stops <= 5 && 1 <= destroys <= 5
      ensures info.vdevIdx >= 0 ==> forall k: nat :: k < stops - 1 ==> !f.stops(k)
      ensures info.vdevIdx >= 0 && stops < 5 ==> f.stops(stops - 1)
      ensures info.vdevIdx >= 0 ==> forall k: nat :: k < destroys - 1 ==> !f.destroys(k)
      ensures info.vdevIdx >= 0 && destroys < 5 ==> f.destroys(destroys - 1)
    {
      stops, destroys := 0, 0;
      if f.removed {
        marks := marks - {fileName};
      }
      if info.vdevIdx <= -1 {
        return;
      }
      var try := 0;
      while try < TRIES
        invariant 0 <= try <= TRIES - 1 && stops == try && destroys == 0
        invariant forall k: nat :: k < try ==> !f.stops(k)
        invariant live == old(live) && marks == if f.removed then old(marks) - {fileName} else old(marks)
        decreases TRIES - try
      {
        stops := stops + 1;
        if f.stops(try) || try == TRIES - 1 {
          var retry := 0;
          while retry < TRIES
            invariant 0 <= retry <= TRIES && destroys == retry
            invariant forall k: nat :: k < retry ==> !f.destroys(k)
            invariant live == old(live) && marks == if f.removed then old(marks) - {fileName} else old(marks)
          {
            destroys := destroys + 1;
            if f.destroys(retry) {
              live := live - {info.vdevIdx as int};
              break;
            }
            retry := retry + 1;
          }
          break;
        }
        try := try + 1;
      }
    }

    method RefreshContainerDevices(f: RefreshFaults) returns (error: Option<Error>)
      modifies this`live, this`marks, this`pods
      ensures View() == Refreshed(cfg, old(View()), f)
      ensures error.Some? <==> !Works(f)
    {
      hide Kept, Reclaimed, RemovedIn, DestroyedIn, MissingMark;
      if !f.dirRead {
        return Some(ListError);
      }
      var files := marks;
      if !f.podsListed {
        return Some(ListError);
      }
      var podsByUID := pods;
      ghost var w := View();
      var keptMarks := ReclaimMarks(files, podsByUID, f);
      DeleteUnmarkedPods(podsByUID, keptMarks, f, w);
      return None;
    }

    /** The loop over the mark files: keep or reclaim each one. */
    method ReclaimMarks(files: set<string>, podsByUID: map<string, Pod>, f: RefreshFaults)
      returns (keptMarks: seq<string>)
      requires files == marks && podsByUID == pods
      modifies this`live, this`marks
      ensures marks == old(marks) - RemovedIn(Reclaimed(old(View())), f)
      ensures live == old(live) - DestroyedIn(Reclaimed(old(View())), f)
      ensures (set m | m in keptMarks) == Kept(old(View()))
    {
      hide Worked, Destroys, ParseMarkFileName, StillNeeded;
      ghost var w := View();
      keptMarks := [];
      var todo := files;
      WorkedNone(w, f);
      assert (set m | m in keptMarks) == {};
      while todo != {}
        invariant todo <= files
        invariant Worked(w, f, todo, marks, live, set m | m in keptMarks)
        decreases |todo|
      {
        var name :| name in todo;
        Round(w, f, todo, name, marks, live, set m | m in keptMarks);
        todo := todo - {name};
        var info := ParseMarkFileName(name);
        if info.None? {
          continue;
        }
        var pod := PodOf(podsByUID, info.value.podUID);
        if StillNeeded(pod, info.value.containerName) {
          ghost var before := keptMarks;
          keptMarks := keptMarks + [name];
          assert (set m | m in keptMarks) == (set m | m in before) + {name};
        } else {
          FiveTries(f.reclaim(name));
          var stops, destroys := DestroyMarkedVDevice(info.value, name, f.reclaim(name));
        }
      }
      WorkedAll(w, f, marks, live, set m | m in keptMarks);
    }

    static lemma FiveTries(f: ReclaimFaults)
      ensures Destroys(f) <==> exists k: nat :: k < 5 && f.destroys(k)
    {
    }

    /** The state of the loop over the mark files while `todo` is still to be looked at. */
    static ghost predicate Worked(w: World, f: RefreshFaults, todo: set<string>,
                                  marks: set<string>, live: map<int, VDevice>, kept: set<string>)
    {
      && marks == w.marks - RemovedIn(Reclaimed(w) - todo, f)
      && live == w.live - DestroyedIn(Reclaimed(w) - todo, f)
      && kept == Kept(w) - todo
    }

    static lemma WorkedNone(w: World, f: RefreshFaults)
      ensures Worked(w, f, w.marks, w.marks, w.live, {})
    {
      hide IsMark, OwnerOf, IndexOf, Needed;
      assert Reclaimed(w) - w.marks == {} && Kept(w) - w.marks == {};
      assert RemovedIn({}, f) == {} && DestroyedIn({}, f) == {};
    }

    static lemma WorkedAll(w: World, f: RefreshFaults, marks: set<string>, live: map<int, VDevice>, kept: set<string>)
      requires Worked(w, f, {}, marks, live, kept)
      ensures marks == w.marks - RemovedIn(Reclaimed(w), f) && kept == Kept(w)
      ensures live == w.live - DestroyedIn(Reclaimed(w), f)
    {
      hide Kept, Reclaimed, RemovedIn, DestroyedIn;
      assert Reclaimed(w) - {} == Reclaimed(w) && Kept(w) - {} == Kept(w);
    }

    /** One round: a mark that parses is kept if needed, else removed and its vHCU destroyed,
        as far as the calls succeed. */
    static lemma Round(w: World, f: RefreshFaults, todo: set<string>, name: string,
                       marks: set<string>, live: map<int, VDevice>, kept: set<string>)
      requires Worked(w, f, todo, marks, live, kept) && name in todo && todo <= w.marks
      ensures var info := ParseMarkFileName(name);
              var needed := info.Some? && StillNeeded(PodOf(w.pods, info.value.podUID), info.value.containerName);
              var f' := f.reclaim(name);
              Worked(w, f, todo - {name},
                     if info.Some? && !needed && f'.removed then marks - {name} else marks,
                     if info.Some? && !needed && info.value.vdevIdx >= 0 && Destroys(f')
                     then live - {info.value.vdevIdx as int} else live,
                     if needed then kept + {name} else kept)
    {
      hide ParseMarkFileName, StillNeeded, Kept, Reclaimed, RemovedIn, DestroyedIn, Destroys;
      OneMark(w, f, todo, name);
    }

    /** The loop over the pods: delete those that lack a mark they need. */
    method DeleteUnmarkedPods(podsByUID: map<string, Pod>, keptMarks: seq<string>, f: RefreshFaults, ghost w: World)
      requires podsByUID == pods == w.pods && (set m | m in keptMarks) == Kept(w)
      modifies this`pods
      ensures pods == old(pods) - DeletedPods(cfg, w, f)
    {
      hide Kept, MissingMark, PodRequestsVirtual, DeletedPods;
      var uids := podsByUID.Keys;
      while uids != {}
        invariant uids <= podsByUID.Keys
        invariant forall u :: u in pods <==> u in w.pods && (u in DeletedPods(cfg, w, f) ==> u in uids)
        invariant forall u :: u in pods ==> pods[u] == w.pods[u]
        decreases |uids|
      {
        var uid :| uid in uids;
        uids := uids - {uid};
        var val := podsByUID[uid];
        var requests := RequestsVirtualHCU(val, cfg.mem);
        MissingRequests(val, cfg.mem, Kept(w));
        OneDeletion(cfg, w, f, uid);
        if requests {
          var missing := PodMissingRequiredMark(Some(val), cfg.mem, keptMarks);
          if missing && f.podDeleted(uid) {
            pods := pods - {uid};
          }
        }
      }
      assert pods == w.pods - DeletedPods(cfg, w, f);
    }

    static lemma OneDeletion(cfg: Config, w: World, f: RefreshFaults, uid: string)
      ensures uid in DeletedPods(cfg, w, f) <==>
              uid in w.pods && MissingMark(w.pods[uid], cfg.mem, Kept(w)) && f.podDeleted(uid)
    {
    }

    static lemma MissingRequests(pod: Pod, mem: string, kept: set<string>)
      ensures MissingMark(pod, mem, kept) ==> PodRequestsVirtual(pod, mem)
    {
    }

    /** One round of the loop over the mark files, in terms of the sets it works off. */
    static lemma OneMark(w: World, f: RefreshFaults, todo: set<string>, name: string)
      requires name in todo && name in w.marks
      ensures name in Kept(w) <==> IsMark(name) && Needed(w.pods, OwnerOf(name))
      ensures name in Reclaimed(w) <==> IsMark(name) && !Needed(w.pods, OwnerOf(name))
      ensures Kept(w) - (todo - {name}) == (Kept(w) - todo) + if name in Kept(w) then {name} else {}
      ensures Reclaimed(w) - (todo - {name}) == (Reclaimed(w) - todo) + if name in Reclaimed(w) then {name} else {}
      ensures RemovedIn(Reclaimed(w) - (todo - {name}), f)
              == RemovedIn(Reclaimed(w) - todo, f)
                 + if name in Reclaimed(w) && f.reclaim(name).removed then {name} else {}
      ensures DestroyedIn(Reclaimed(w) - (todo - {name}), f)
              == DestroyedIn(Reclaimed(w) - todo, f)
                 + if name in Reclaimed(w) && MarksVDevice(name) && Destroys(f.reclaim(name))
                   then {IndexOf(name)} else {}
    {
      hide IsMark, OwnerOf, IndexOf, Needed;
    }

    // -------------------------------------------------------------- helpers of Allocate

    method CreateMarkFile(current: Pod, ctr: Container, devidx: Int64, vdevidx: Int64, write: Write) returns (ok: bool)
      modifies this`marks
      ensures ok <==> write == Written
      ensures marks == old(marks)
              + if write == NotWritten then {} else {MarkName(current.uid, ctr.name, devidx, vdevidx)}
    {
      var markFile := current.uid + "_" + ctr.name + "_" + Itoa(devidx) + "_" + Itoa(vdevidx);
      if write != NotWritten {
        marks := marks + {markFile};
      }
      ok := write == Written;
    }

    /** The phase is patched and the lock released independently of each other's outcome. */
    method PodAllocationFinished(uid: string, phase: string, e: AllocateEnv)
      modifies this`pods, this`locked
      ensures View() == BindTo(old(View()), uid, phase, e)
    {
      if uid in pods && e.phasePatched {
        var pod := pods[uid];
        pods := pods[uid := pod.(annotations := pod.annotations[BIND_PHASE := phase])];
      }
      if e.lockReleased {
        locked := false;
      }
    }

    method PodAllocationTrySuccess(uid: string, e: AllocateEnv)
      modifies this`pods, this`locked
      ensures Outcome(View(), None) == Accepted(cfg, old(View()), uid, e)
    {
      if !e.podFetched {
        return;
      }
      var annos := "";
      if uid in pods && cfg.annoKey in pods[uid].annotations {
        annos := pods[uid].annotations[cfg.annoKey];
      }
      if Contains(annos, cfg.idPrefix) {
        return;
      }
      PodAllocationFinished(uid, SUCCESS, e);
    }

    method EraseNextDeviceTypeFromAnnotation(current: Pod, e: AllocateEnv) returns (error: Option<Error>)
      requires current.uid in pods && pods[current.uid] == current
      modifies this`pods
      ensures var r := NextAnnotation(CheckList(cfg), HCU, current);
              if r.Ok? && e.erasePatched then
                error.None? && pods == old(pods)[current.uid := Patched(current, cfg.annoKey, r.value)]
              else
                pods == old(pods) && error == Some(if r.Err? then r.error else PatchError)
    {
      var text := EraseNextDeviceType(CheckList(cfg), HCU, current);
      if text.Err? {
        return Some(text.error);
      }
      if !e.erasePatched {
        return Some(PatchError);
      }
      pods := pods[current.uid := current.(annotations := current.annotations[cfg.annoKey := text.value])];
      return None;
    }

    // -------------------------------------------------------------- Allocate

    method AllocateHAMiHCUs(e: AllocateEnv) returns (error: Option<Error>)
      requires forall uid :: uid in pods ==> pods[uid].uid == uid
      modifies this`live, this`marks, this`pods, this`locked
      ensures Outcome(View(), error) == Allocated(cfg, old(View()), e)
    {
      hide NextRequest, NextAnnotation, Refreshed, GrantDevices;
      if e.requests != 1 {
        return Some(BadRequestCount);
      }
      ghost var w := View();
      var refreshError := RefreshContainerDevices(e.refresh);
      ghost var w1 := View();
      RefreshKeepsPods(cfg, w, e.refresh);
      if e.pending.None? || e.pending.value !in pods {
        return Some(NoPendingPod);
      }
      var uid := e.pending.value;
      var current := pods[uid];
      var request := GetNextDeviceRequest(CheckList(cfg), HCU, current);
      if request.Err? {
        PodAllocationFinished(uid, FAILED, e);
        return Some(request.error);
      }
      var (ctr, devreq) := request.value;
      if |devreq| != e.deviceIDs {
        PodAllocationFinished(uid, FAILED, e);
        return Some(NumberMismatch);
      }
      var eraseError := EraseNextDeviceTypeFromAnnotation(current, e);
      if eraseError.Some? {
        PodAllocationFinished(uid, FAILED, e);
        return eraseError;
      }
      error := GrantDevicesTo(current, ctr, devreq, e);
    }

    static lemma RefreshKeepsPods(cfg: Config, w: World, f: RefreshFaults)
      ensures forall uid :: uid in Refreshed(cfg, w, f).pods ==>
                uid in w.pods && Refreshed(cfg, w, f).pods[uid] == w.pods[uid]
    {
      hide MissingMark, IsMark, OwnerOf, IndexOf;
    }

    /** The second half of the call: check the devices, mark whole cards, make the vHCU or roll back. */
    method GrantDevicesTo(current: Pod, ctr: Container, devreq: Segment, e: AllocateEnv) returns (error: Option<Error>)
      requires devreq != []
      modifies this`live, this`marks, this`pods, this`locked
      ensures Outcome(View(), error) == GrantDevices(cfg, old(View()), Owner(current.uid, ctr.name), devreq, e)
    {
      hide MakeVDevice, Contains, F.FakeId, WholeCardMarks, MarkName, ScanSerial, Accepted, BindTo, F.TotalMiB;
      ghost var w := View();
      ghost var owner := Owner(current.uid, ctr.name);
      NoMarksYet(cfg, owner, devreq, e);
      for i := 0 to |devreq|
        invariant forall j: nat :: j < i ==> Usable(cfg, devreq, e, j)
        invariant View() == w.(marks := w.marks + WholeCardMarks(cfg, owner, devreq, e, i))
      {
        var val := devreq[i];
        MoreMarks(cfg, owner, devreq, e, i);
        var serial := ScanSerial(cfg.idPrefix, val.uuid);
        if serial.None? {
          FirstUnusable(cfg, devreq, e, i);
          PodAllocationFinished(current.uid, FAILED, e);
          return Some(InvalidUUID);
        }
        if F.FakeId(val.uuid, 0) !in cfg.hcus {
          FirstUnusable(cfg, devreq, e, i);
          PodAllocationFinished(current.uid, FAILED, e);
          return Some(NoSuchDevice);
        }
        var physicalDeviceInfo := cfg.hcus[F.FakeId(val.uuid, 0)];
        if !e.nodeFound(i) {
          FirstUnusable(cfg, devreq, e, i);
          PodAllocationFinished(current.uid, FAILED, e);
          return Some(NoDeviceNode);
        }
        if val.usedcores == 100 && val.usedmem == F.TotalMiB(physicalDeviceInfo) {
          var written := CreateMarkFile(current, ctr, physicalDeviceInfo.dvInd, -1, e.wholeMark(i));
        }
      }
      FirstUnusable(cfg, devreq, e, |devreq|);
      assert Usable(cfg, devreq, e, 0);
      var physicalDeviceInfo := cfg.hcus[F.FakeId(devreq[0].uuid, 0)];
      if |devreq| < 2 && devreq[0].usedmem < F.TotalMiB(physicalDeviceInfo) {
        error := MakeVDeviceFor(current, ctr, devreq[0], e);
        return;
      }
      PodAllocationTrySuccess(current.uid, e);
      return None;
    }

    static lemma NoMarksYet(cfg: Config, owner: Owner, devs: Segment, e: AllocateEnv)
      ensures WholeCardMarks(cfg, owner, devs, e, 0) == {}
    {
    }

    static lemma MoreMarks(cfg: Config, owner: Owner, devs: Segment, e: AllocateEnv, i: nat)
      requires i < |devs|
      ensures WholeCardMarks(cfg, owner, devs, e, i + 1) == WholeCardMarks(cfg, owner, devs, e, i)
                + if WantsWholeCard(cfg, devs[i]) && e.wholeMark(i) != NotWritten
                  then {MarkName(owner.podUID, owner.containerName, CardOf(cfg, devs[i]).dvInd, -1)} else {}
    {
      hide MarkName, WantsWholeCard;
    }

    static lemma FirstUnusable(cfg: Config, devs: Segment, e: AllocateEnv, i: nat)
      requires i <= |devs| && (forall j: nat :: j < i ==> Usable(cfg, devs, e, j))
      requires (i < |devs| ==> !Usable(cfg, devs, e, i))
      ensures UsableCount(cfg, devs, e, 0) == i
    {
    }

    /** The percentage in compute units, rounded up; no percentage means a memory-only vHCU. */
    static method ActualCores(usedcores: Int32, computeUnit: nat) returns (actualCores: nat)
      ensures actualCores == GrantedCUs(usedcores, computeUnit)
    {
      actualCores := 0;
      if usedcores > 0 {
        actualCores := CeilDiv(usedcores * computeUnit, 100);
        if actualCores < 1 {
          actualCores := 1;
        }
      }
    }

    method MakeVDeviceFor(current: Pod, ctr: Container, d: ContainerDevice, e: AllocateEnv)
      returns (error: Option<Error>)
      requires F.FakeId(d.uuid, 0) in cfg.hcus
      modifies this`live, this`marks, this`pods, this`locked
      ensures Outcome(View(), error) == MakeVDevice(cfg, old(View()), Owner(current.uid, ctr.name), d, e)
    {
      hide MarkName, F.FakeId, GrantedCUs, Accepted, BindTo;
      var physicalDeviceInfo := cfg.hcus[F.FakeId(d.uuid, 0)];
      var actualCores := ActualCores(d.usedcores, physicalDeviceInfo.computeUnit);
      if e.created.None? {
        PodAllocationFinished(current.uid, FAILED, e);
        return Some(DriverError);
      }
      var vIdx := e.created.value;
      live := live[vIdx :=
           VDevice(physicalDeviceInfo.dvInd, actualCores, d.usedmem, Some(Owner(current.uid, ctr.name)))];
      var written := CreateMarkFile(current, ctr, physicalDeviceInfo.dvInd, vIdx, e.mark);
      assert e.mark == NotWritten ==> marks == old(marks);
      if !written {
        if e.vdevDestroyed {
          live := live - {vIdx};
        }
        PodAllocationFinished(current.uid, FAILED, e);
        return Some(MarkError);
      }
      if !e.confValid {
        if e.markRemoved {
          marks := marks - {MarkName(current.uid, ctr.name, physicalDeviceInfo.dvInd, vIdx)};
        }
        if e.vdevDestroyed {
          live := live - {vIdx};
        }
        PodAllocationFinished(current.uid, FAILED, e);
        return Some(ConfError);
      }
      PodAllocationTrySuccess(current.uid, e);
      return None;
    }
  }
}
