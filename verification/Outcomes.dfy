/**
  What a refresh and an Allocate call do, said in the terms of pods, names, numbers and faults
  only. The steps of Lifecycle.dfy are held against these statements.
 */
module Outcomes {
  import opened GoNumbers
  import opened GoStrings
  import opened Kube
  import opened PodDevices
  import opened Drain
  import opened MarkFile
  import opened Capacity
  import opened ResourcePrefix
  import opened Lifecycle
  import opened Safety
  import F = FakeIds

  // ---------------------------------------------------------------- refresh

  /** The pod of the mark is gone, or its container is done for good. */
  ghost predicate Over(pods: map<string, Pod>, info: MarkInfo) {
    info.podUID in pods ==> Finished(pods[info.podUID], info.containerName)
  }

  lemma NeededUntilOver(pods: map<string, Pod>, m: string)
    requires IsMark(m)
    ensures Needed(pods, OwnerOf(m)) <==> !Over(pods, ParseMarkFileName(m).value)
  {
    hide ParseMarkFileName, StillNeeded, Finished;
    var info := ParseMarkFileName(m).value;
    NeededUntilFinished(PodOf(pods, info.podUID), info.containerName);
  }

  /** A file goes exactly if it is a mark whose container is over, and it can be removed. */
  lemma MarksAfterRefresh(cfg: Config, w: World, f: RefreshFaults, m: string)
    requires f.dirRead && f.podsListed
    ensures m in Refreshed(cfg, w, f).marks <==>
              && m in w.marks
              && !(ParseMarkFileName(m).Some? && Over(w.pods, ParseMarkFileName(m).value) && f.reclaim(m).removed)
  {
    hide ParseMarkFileName, Needed, Over;
    if IsMark(m) {
      NeededUntilOver(w.pods, m);
    }
  }

  /** The mark names this vHCU, its container is over, and one of five tries to destroy it succeeds. */
  ghost predicate Destroyed(w: World, f: RefreshFaults, m: string, i: int) {
    && m in w.marks && ParseMarkFileName(m).Some? && Over(w.pods, ParseMarkFileName(m).value)
    && ParseMarkFileName(m).value.vdevIdx == i
    && exists k: nat :: k < 5 && f.reclaim(m).destroys(k)
  }

  /** A vHCU goes exactly if some mark names it whose container is over, and it can be destroyed. */
  lemma VDevicesAfterRefresh(cfg: Config, w: World, f: RefreshFaults, i: int)
    requires f.dirRead && f.podsListed
    ensures i in Refreshed(cfg, w, f).live <==> i in w.live && !(i >= 0 && exists m :: Destroyed(w, f, m, i))
    ensures i in Refreshed(cfg, w, f).live ==> Refreshed(cfg, w, f).live[i] == w.live[i]
  {
    hide ParseMarkFileName, Needed, Over;
    forall m | IsMark(m) ensures Needed(w.pods, OwnerOf(m)) <==> !Over(w.pods, ParseMarkFileName(m).value) {
      NeededUntilOver(w.pods, m);
    }
    if i >= 0 && exists m :: Destroyed(w, f, m, i) {
      var m :| Destroyed(w, f, m, i);
      assert m in Reclaimed(w) && MarksVDevice(m) && Destroys(f.reclaim(m));
    }
    if i in w.live && i !in Refreshed(cfg, w, f).live {
      var m :| m in Reclaimed(w) && MarksVDevice(m) && Destroys(f.reclaim(m)) && IndexOf(m) == i;
      assert Destroyed(w, f, m, i);
    }
  }

  /** The container wants a vHCU, is not done, and no mark that is kept starts like one of its own. */
  ghost predicate Unmarked(cfg: Config, w: World, pod: Pod, c: Container) {
    && (c in pod.spec.initContainers || c in pod.spec.containers)
    && LimitsVirtual(c, cfg.mem) && !Finished(pod, c.name)
    && forall m :: m in w.marks && ParseMarkFileName(m).Some? && HasPrefix(m, pod.uid + "_" + c.name + "_") ==>
         Over(w.pods, ParseMarkFileName(m).value)
  }

  /** A pod goes exactly if it runs with such a container, and it can be deleted. */
  lemma PodsAfterRefresh(cfg: Config, w: World, f: RefreshFaults, uid: string)
    requires f.dirRead && f.podsListed
    ensures uid in Refreshed(cfg, w, f).pods <==>
              && uid in w.pods
              && !(f.podDeleted(uid) && w.pods[uid].phase == Running && exists c :: Unmarked(cfg, w, w.pods[uid], c))
    ensures uid in Refreshed(cfg, w, f).pods ==> Refreshed(cfg, w, f).pods[uid] == w.pods[uid]
  {
    hide ParseMarkFileName, Needed, Over, MissingMark, LimitsVirtual, Finished, HasPrefix;
    forall m | IsMark(m) ensures Needed(w.pods, OwnerOf(m)) <==> !Over(w.pods, ParseMarkFileName(m).value) {
      NeededUntilOver(w.pods, m);
    }
    if uid in w.pods {
      var pod := w.pods[uid];
      MissingExactly(pod, cfg.mem, Kept(w));
      forall c: Container
        ensures Unmarked(cfg, w, pod, c) <==>
                  && (c in pod.spec.initContainers || c in pod.spec.containers)
                  && LimitsVirtual(c, cfg.mem) && !Finished(pod, c.name)
                  && forall m :: m in Kept(w) ==> !HasPrefix(m, pod.uid + "_" + c.name + "_")
      {
      }
    }
  }

  /** A refresh that cannot read the directory or list the pods does nothing. */
  lemma RefreshWithoutLists(cfg: Config, w: World, f: RefreshFaults)
    requires !f.dirRead || !f.podsListed
    ensures Refreshed(cfg, w, f) == w
  {
  }

  /** While its pod still runs, a finished classic init container loses its mark and its vHCU. */
  lemma FinishedInitIsReclaimed(cfg: Config, w: World, f: RefreshFaults, m: string, i: int, j: int, k: nat)
    requires f.dirRead && f.podsListed && m in w.marks && ParseMarkFileName(m).Some?
    requires var info := ParseMarkFileName(m).value;
             && info.podUID in w.pods
             && var pod := w.pods[info.podUID];
             && ContainerAt(pod.spec.initContainers, info.containerName, i)
             && pod.spec.initContainers[i].restartPolicy != Some("Always")
             && StatusAt(pod.initStatuses, info.containerName, j) && pod.initStatuses[j].terminated
    requires f.reclaim(m).removed && k < 5 && f.reclaim(m).destroys(k)
    ensures m !in Refreshed(cfg, w, f).marks
    ensures ParseMarkFileName(m).value.vdevIdx >= 0 ==>
              ParseMarkFileName(m).value.vdevIdx !in Refreshed(cfg, w, f).live
  {
    hide ParseMarkFileName, Refreshed;
    MarksAfterRefresh(cfg, w, f, m);
    VDevicesAfterRefresh(cfg, w, f, ParseMarkFileName(m).value.vdevIdx);
    assert Destroyed(w, f, m, ParseMarkFileName(m).value.vdevIdx);
  }

  /**
    As long as its pod has not ended, the mark of an app container, of a restartable init container
    and of an init container not reported as terminated stays, whatever fails; in a sound state its
    vHCU stays too.
   */
  lemma UnfinishedKeepsItsMark(cfg: Config, w: World, f: RefreshFaults, m: string)
    requires m in w.marks && ParseMarkFileName(m).Some?
    requires var info := ParseMarkFileName(m).value;
             && info.podUID in w.pods
             && var pod := w.pods[info.podUID];
             && pod.phase != Succeeded && pod.phase != Failed
             && (|| (forall i :: ContainerAt(pod.spec.initContainers, info.containerName, i) ==>
                       pod.spec.initContainers[i].restartPolicy == Some("Always"))
                 || (forall j :: StatusAt(pod.initStatuses, info.containerName, j) ==> !pod.initStatuses[j].terminated))
    ensures m in Refreshed(cfg, w, f).marks
    ensures Sound(w) && ParseMarkFileName(m).value.vdevIdx >= 0 ==>
              ParseMarkFileName(m).value.vdevIdx in Refreshed(cfg, w, f).live
  {
    hide ParseMarkFileName, Refreshed;
    var i := ParseMarkFileName(m).value.vdevIdx;
    if f.dirRead && f.podsListed {
      MarksAfterRefresh(cfg, w, f, m);
      VDevicesAfterRefresh(cfg, w, f, i);
    } else {
      RefreshWithoutLists(cfg, w, f);
    }
  }

  // ---------------------------------------------------------------- which devices a call accepts

  predicate Known(cfg: Config, d: ContainerDevice) {
    d.uuid + "-fake-0" in cfg.hcus
  }

  function CardFor(cfg: Config, d: ContainerDevice): F.Card
    requires Known(cfg, d)
  {
    cfg.hcus[d.uuid + "-fake-0"]
  }

  /** Its UUID can be scanned, the card is known, and its device node is there. */
  predicate Accepts(cfg: Config, d: ContainerDevice, nodeFound: bool) {
    ScanSerial(cfg.idPrefix, d.uuid).Some? && Known(cfg, d) && nodeFound
  }

  /** A single device that asks for less than the memory of its card. */
  predicate BelowCard(cfg: Config, devs: Segment) {
    |devs| == 1 && Known(cfg, devs[0]) && devs[0].usedmem < CardFor(cfg, devs[0]).memoryTotal / 1024 / 1024
  }

  /** All cores and all memory of the card. */
  predicate WholeCard(cfg: Config, d: ContainerDevice) {
    Known(cfg, d) && d.usedcores == 100 && d.usedmem == CardFor(cfg, d).memoryTotal / 1024 / 1024
  }

  lemma FirstFakeId(uuid: string)
    ensures F.FakeId(uuid, 0) == uuid + "-fake-0"
  {
    assert Itoa(0) == "0";
  }

  lemma InMiB(bytes: nat)
    ensures bytes / Capacity.MIB == bytes / 1024 / 1024
  {
  }

  lemma WantsVDeviceExactly(cfg: Config, devs: Segment)
    ensures WantsVDevice(cfg, devs) <==> BelowCard(cfg, devs)
    ensures WantsVDevice(cfg, devs) ==> CardOf(cfg, devs[0]) == CardFor(cfg, devs[0])
  {
    hide F.FakeId;
    if |devs| == 1 {
      FirstFakeId(devs[0].uuid);
      if Known(cfg, devs[0]) {
        InMiB(CardFor(cfg, devs[0]).memoryTotal);
      }
    }
  }

  lemma WantsWholeCardExactly(cfg: Config, d: ContainerDevice)
    ensures WantsWholeCard(cfg, d) <==> WholeCard(cfg, d)
    ensures WantsWholeCard(cfg, d) ==> CardOf(cfg, d) == CardFor(cfg, d)
  {
    hide F.FakeId;
    FirstFakeId(d.uuid);
    if Known(cfg, d) {
      InMiB(CardFor(cfg, d).memoryTotal);
    }
  }

  lemma UsableExactly(cfg: Config, d: ContainerDevice, nodeFound: bool)
    ensures DeviceError(cfg, d, nodeFound).None? <==> Accepts(cfg, d, nodeFound)
    ensures ScanSerial(cfg.idPrefix, d.uuid).None? ==> DeviceError(cfg, d, nodeFound) == Some(InvalidUUID)
    ensures ScanSerial(cfg.idPrefix, d.uuid).Some? && !Known(cfg, d) ==>
              DeviceError(cfg, d, nodeFound) == Some(NoSuchDevice)
    ensures ScanSerial(cfg.idPrefix, d.uuid).Some? && Known(cfg, d) && !nodeFound ==>
              DeviceError(cfg, d, nodeFound) == Some(NoDeviceNode)
  {
    hide F.FakeId, ScanSerial;
    FirstFakeId(d.uuid);
  }

  // ---------------------------------------------------------------- errors of a call

  /** The first segment that holds devices, as the call reads it from the pod. */
  predicate Requests(cfg: Config, pod: Pod, k: int, devs: Segment) {
    var layout := PodLayout(map["HCU" := cfg.annoKey], "HCU", pod);
    && layout.Ok? && 0 <= k < |layout.value| && devs != [] && layout.value[k] == devs
    && forall j :: 0 <= j < k ==> layout.value[j] == []
  }

  lemma RequestIsFirst(cfg: Config, pod: Pod)
    ensures var layout, next := PodLayout(map["HCU" := cfg.annoKey], "HCU", pod), NextRequest(CheckList(cfg), HCU, pod);
            && (layout.Err? ==> next == Err(layout.error))
            && (layout.Ok? && (forall j :: 0 <= j < |layout.value| ==> layout.value[j] == []) ==> next == Err(NotFound))
            && forall k, devs :: Requests(cfg, pod, k, devs) ==>
                 var inits, apps := pod.spec.initContainers, pod.spec.containers;
                 && (k < |inits| || k - |inits| < |apps|)
                 && next == Ok((if k < |inits| then inits[k] else apps[k - |inits|], devs))
  {
    hide PodLayout;
    forall k, devs | Requests(cfg, pod, k, devs)
      ensures FirstSlot(PodLayout(map["HCU" := cfg.annoKey], "HCU", pod).value) == k
    {
      FirstSlotUnique(PodLayout(map["HCU" := cfg.annoKey], "HCU", pod).value, k);
    }
  }

  /** Before any pod is served, and while its request is read. */
  lemma EarlyErrors(cfg: Config, w: World, e: AllocateEnv)
    ensures e.requests != 1 ==> Allocated(cfg, w, e).error == Some(BadRequestCount)
    ensures e.requests == 1 && !Finds(cfg, w, e) ==> Allocated(cfg, w, e).error == Some(NoPendingPod)
    ensures Finds(cfg, w, e) ==>
              var pod, error := Refreshed(cfg, w, e.refresh).pods[e.pending.value], Allocated(cfg, w, e).error;
              var layout := PodLayout(map["HCU" := cfg.annoKey], "HCU", pod);
              && (layout.Err? ==> error == Some(layout.error))
              && (layout.Ok? && (forall j :: 0 <= j < |layout.value| ==> layout.value[j] == [])
                  ==> error == Some(NotFound))
              && forall k, devs :: Requests(cfg, pod, k, devs) ==>
                   && (|devs| != e.deviceIDs ==> error == Some(NumberMismatch))
                   && (|devs| == e.deviceIDs && !e.erasePatched ==> error == Some(PatchError))
  {
    hide Refreshed, PodLayout, Requests, GrantDevices, BindTo;
    if Finds(cfg, w, e) {
      RequestIsFirst(cfg, Refreshed(cfg, w, e.refresh).pods[e.pending.value]);
    }
  }

  /** Once the request is read and written back, the first device that is not accepted decides. */
  lemma RejectedDevice(cfg: Config, w: World, e: AllocateEnv, k: int, devs: Segment, i: int)
    requires FreshIndex(cfg, w, e) && Finds(cfg, w, e) && e.erasePatched && |devs| == e.deviceIDs
    requires Requests(cfg, Refreshed(cfg, w, e.refresh).pods[e.pending.value], k, devs)
    requires 0 <= i < |devs| && !Accepts(cfg, devs[i], e.nodeFound(i))
    requires forall j :: 0 <= j < i ==> Accepts(cfg, devs[j], e.nodeFound(j))
    ensures Allocated(cfg, w, e).error
            == Some(if ScanSerial(cfg.idPrefix, devs[i].uuid).None? then InvalidUUID
                    else if !Known(cfg, devs[i]) then NoSuchDevice else NoDeviceNode)
  {
    hide Refreshed, NextRequest, Requests, ScanSerial, Known, WantsVDevice, Allocated, Accepts, DeviceError;
    hide FreshIndex, NextDevices;
    RequestIsFirst(cfg, Refreshed(cfg, w, e.refresh).pods[e.pending.value]);
    Reaches(cfg, w, e, devs);
    ErrorOnDevices(cfg, w, e);
    forall j | 0 <= j <= i ensures Usable(cfg, devs, e, j) <==> j < i {
      UsableExactly(cfg, devs[j], e.nodeFound(j));
    }
    CountIs(cfg, devs, e, i);
    UsableExactly(cfg, devs[i], e.nodeFound(i));
    RejectedIsNot(cfg, devs[i], e.nodeFound(i));
  }

  lemma CountIs(cfg: Config, devs: Segment, e: AllocateEnv, i: nat)
    requires i < |devs| && forall j :: 0 <= j <= i ==> (Usable(cfg, devs, e, j) <==> j < i)
    ensures UsableCount(cfg, devs, e, 0) == i
  {
    hide Usable;
    assert Usable(cfg, devs, e, i) <==> i < i;
  }

  lemma RejectedIsNot(cfg: Config, d: ContainerDevice, nodeFound: bool)
    requires !Accepts(cfg, d, nodeFound)
    ensures ScanSerial(cfg.idPrefix, d.uuid).None? || !Known(cfg, d) || !nodeFound
  {
    hide ScanSerial;
  }

  /** With all devices accepted, the call fails only over the vHCU of a single device below its card. */
  lemma AcceptedDevices(cfg: Config, w: World, e: AllocateEnv, k: int, devs: Segment)
    requires FreshIndex(cfg, w, e) && Finds(cfg, w, e) && e.erasePatched && |devs| == e.deviceIDs
    requires Requests(cfg, Refreshed(cfg, w, e.refresh).pods[e.pending.value], k, devs)
    requires forall i :: 0 <= i < |devs| ==> Accepts(cfg, devs[i], e.nodeFound(i))
    ensures Allocated(cfg, w, e).error
            == if !BelowCard(cfg, devs) then None
               else if e.created.None? then Some(DriverError)
               else if e.mark != Written then Some(MarkError)
               else if !e.confValid then Some(ConfError) else None
  {
    hide Refreshed, NextRequest, Requests, ScanSerial, Known, BelowCard, WantsVDevice, Allocated, Accepts, DeviceError;
    hide FreshIndex, NextDevices;
    RequestIsFirst(cfg, Refreshed(cfg, w, e.refresh).pods[e.pending.value]);
    Reaches(cfg, w, e, devs);
    ErrorOnDevices(cfg, w, e);
    WantsVDeviceExactly(cfg, devs);
    forall i | 0 <= i < |devs| ensures Usable(cfg, devs, e, i) {
      UsableExactly(cfg, devs[i], e.nodeFound(i));
    }
  }

  lemma Reaches(cfg: Config, w: World, e: AllocateEnv, devs: Segment)
    requires Finds(cfg, w, e) && e.erasePatched && |devs| == e.deviceIDs
    requires var next := NextRequest(CheckList(cfg), HCU, Refreshed(cfg, w, e.refresh).pods[e.pending.value]);
             next.Ok? && next.value.1 == devs
    ensures ReachesDevices(cfg, w, e) && NextDevices(cfg, w, e) == devs
  {
    hide Refreshed, NextRequest;
  }

  lemma ErrorOnDevices(cfg: Config, w: World, e: AllocateEnv)
    requires FreshIndex(cfg, w, e) && Finds(cfg, w, e) && ReachesDevices(cfg, w, e)
    ensures var devs := NextDevices(cfg, w, e);
            var n := UsableCount(cfg, devs, e, 0);
            Allocated(cfg, w, e).error ==
            if n < |devs| then DeviceError(cfg, devs[n], e.nodeFound(n))
            else if !WantsVDevice(cfg, devs) then None
            else if e.created.None? then Some(DriverError)
            else if e.mark != Written then Some(MarkError)
            else if !e.confValid then Some(ConfError) else None
  {
    hide Refreshed, NextRequest, GrantDevices, WantsVDevice, Allocated, DeviceError, NextDevices, NextOwner, Erased;
    hide OnlyAnnotationsOf, WholeCardMarks, NewMarkName, MarksAfter, VDeviceFor, VDeviceStays;
    AllocateUnfolds(cfg, w, e);
    ErasedKeeps(cfg, w, e);
    GrantChanges(cfg, Refreshed(cfg, w, e.refresh).pods, Erased(cfg, w, e), NextOwner(cfg, w, e),
                 NextDevices(cfg, w, e), e);
  }

  // ---------------------------------------------------------------- what a successful call adds

  /** The vHCU has the memory asked for and the share of the units, rounded up; no share means none. */
  predicate MadeFor(v: VDevice, card: F.Card, d: ContainerDevice, owner: Owner) {
    && v.card == card.dvInd && v.mib == d.usedmem && v.owner == Some(owner)
    && (d.usedcores <= 0 ==> v.cus == 0)
    && (d.usedcores > 0 ==>
          v.cus * 100 - 100 < d.usedcores * card.computeUnit <= v.cus * 100 || (card.computeUnit == 0 && v.cus == 1))
  }

  lemma VDeviceForExactly(cfg: Config, owner: Owner, d: ContainerDevice)
    requires F.FakeId(d.uuid, 0) in cfg.hcus
    ensures MadeFor(VDeviceFor(cfg, owner, d), CardOf(cfg, d), d, owner)
  {
    hide F.FakeId;
    var units := CardOf(cfg, d).computeUnit;
    if d.usedcores > 0 {
      CeilBounds(d.usedcores * units, 100);
      if units >= 1 {
        Mul(1, d.usedcores, units);
      }
    }
  }

  /** The name of a mark: UID, container, card and vHCU index, joined by underscores. */
  function MarkOf(uid: string, container: string, card: int, index: int): string {
    uid + "_" + container + "_" + Itoa(card) + "_" + Itoa(index)
  }

  /**
    A successful call makes a vHCU exactly for a single device below the memory of its card. It adds
    the mark of that vHCU and one mark for each whole card whose file can be written, and no others.
   */
  lemma SuccessAdds(cfg: Config, w: World, e: AllocateEnv, owner: Owner, devs: Segment)
    requires FreshIndex(cfg, w, e) && Finds(cfg, w, e) && Allocated(cfg, w, e).error.None?
    requires owner == NextOwner(cfg, w, e) && devs == NextDevices(cfg, w, e)
    ensures var w1, w' := Refreshed(cfg, w, e.refresh), Allocated(cfg, w, e).world;
            && (!BelowCard(cfg, devs) ==> w'.live == w1.live)
            && (BelowCard(cfg, devs) ==>
                  && e.created.Some?
                  && exists v :: MadeFor(v, CardFor(cfg, devs[0]), devs[0], owner)
                                 && w'.live == w1.live[e.created.value := v])
    ensures forall m :: m in Allocated(cfg, w, e).world.marks <==>
              || m in Refreshed(cfg, w, e.refresh).marks
              || (exists i :: 0 <= i < |devs| && WholeCard(cfg, devs[i]) && e.wholeMark(i) != NotWritten
                              && m == MarkOf(owner.podUID, owner.containerName, CardFor(cfg, devs[i]).dvInd, -1))
              || (BelowCard(cfg, devs) && e.created.Some?
                  && m == MarkOf(owner.podUID, owner.containerName, CardFor(cfg, devs[0]).dvInd, e.created.value))
  {
    hide Refreshed, NextRequest, NextOwner, NextDevices, Allocated, OnlyAnnotationsOf, VDeviceFor, Itoa, F.FakeId;
    hide BelowCard, WholeCard, Known, WantsVDevice, WantsWholeCard, MadeFor;
    hide WholeCardMarks, CardFor, CardOf, MarkOf, MarkName;
    AllocateChanges(cfg, w, e);
    WantsVDeviceExactly(cfg, devs);
    WholeMarksExactly(cfg, owner, devs, e, |devs|);
    if WantsVDevice(cfg, devs) {
      IsKnown(cfg, devs);
      VDeviceForExactly(cfg, owner, devs[0]);
      NameIsMark(owner.podUID, owner.containerName, CardOf(cfg, devs[0]).dvInd, e.created.value);
    }
  }

  lemma IsKnown(cfg: Config, devs: Segment)
    requires WantsVDevice(cfg, devs)
    ensures |devs| == 1 && F.FakeId(devs[0].uuid, 0) in cfg.hcus
  {
  }

  lemma NameIsMark(uid: string, container: string, card: int, index: int)
    ensures MarkName(uid, container, card, index) == MarkOf(uid, container, card, index)
  {
  }

  lemma WholeMarksExactly(cfg: Config, owner: Owner, devs: Segment, e: AllocateEnv, n: nat)
    requires n <= |devs|
    ensures forall m :: m in WholeCardMarks(cfg, owner, devs, e, n) <==>
              exists i :: 0 <= i < n && WholeCard(cfg, devs[i]) && e.wholeMark(i) != NotWritten
                          && m == MarkOf(owner.podUID, owner.containerName, CardFor(cfg, devs[i]).dvInd, -1)
  {
    hide WantsWholeCard, WholeCard, Known, MarkName, MarkOf, F.FakeId;
    forall i | 0 <= i < n
      ensures WantsWholeCard(cfg, devs[i]) <==> WholeCard(cfg, devs[i])
      ensures WantsWholeCard(cfg, devs[i]) ==>
                && F.FakeId(devs[i].uuid, 0) in cfg.hcus && Known(cfg, devs[i])
                && CardOf(cfg, devs[i]) == CardFor(cfg, devs[i])
                && MarkName(owner.podUID, owner.containerName, CardOf(cfg, devs[i]).dvInd, -1)
                   == MarkOf(owner.podUID, owner.containerName, CardFor(cfg, devs[i]).dvInd, -1)
    {
      WantsWholeCardExactly(cfg, devs[i]);
      if WantsWholeCard(cfg, devs[i]) {
        WholeIsKnown(cfg, devs[i]);
        NameIsMark(owner.podUID, owner.containerName, CardOf(cfg, devs[i]).dvInd, -1);
      }
    }
  }

  lemma WholeIsKnown(cfg: Config, d: ContainerDevice)
    requires WholeCard(cfg, d)
    ensures Known(cfg, d) && F.FakeId(d.uuid, 0) in cfg.hcus
  {
    hide F.FakeId;
    FirstFakeId(d.uuid);
  }

  // ---------------------------------------------------------------- how every call ends

  /** What the call writes back once the request has been read: the layout without its first request. */
  function TextLeft(cfg: Config, w: World, e: AllocateEnv): string
    requires ReachesDevices(cfg, w, e)
  {
    var pod := Refreshed(cfg, w, e.refresh).pods[e.pending.value];
    LayoutText(Blank(PodLayout(map["HCU" := cfg.annoKey], "HCU", pod).value))
  }

  /** The phase that the call tries to set: "failed", "success" with nothing left to hand out, or none. */
  function Verdict(cfg: Config, w: World, e: AllocateEnv): Option<string>
    requires Finds(cfg, w, e) && FreshIndex(cfg, w, e)
  {
    AllocateChanges(cfg, w, e);
    if Allocated(cfg, w, e).error.Some? then Some("failed")
    else if e.podFetched && !Contains(TextLeft(cfg, w, e), cfg.idPrefix) then Some("success")
    else None
  }

  /**
    Whatever the outcome: the annotation is written back exactly if the request was read; then the
    verdict, if any, is patched into the pod and the lock released, each only if its own call works.
   */
  lemma CallConcludes(cfg: Config, w: World, e: AllocateEnv)
    requires Finds(cfg, w, e) && FreshIndex(cfg, w, e)
    ensures var w1, w', uid := Refreshed(cfg, w, e.refresh), Allocated(cfg, w, e).world, e.pending.value;
            var before := w1.pods[uid].annotations;
            var written := if ReachesDevices(cfg, w, e) then before[cfg.annoKey := TextLeft(cfg, w, e)] else before;
            var verdict := Verdict(cfg, w, e);
            && uid in w'.pods
            && w'.pods[uid].annotations
               == (if verdict.Some? && e.phasePatched then written["hami.io/bind-phase" := verdict.value] else written)
            && w'.locked == (w1.locked && !(verdict.Some? && e.lockReleased))
  {
    hide Refreshed, GrantDevices, Allocated, PodLayout, LayoutText, Blank, Contains, NextOwner, NextDevices, Rejected;
    var w1, uid := Refreshed(cfg, w, e.refresh), e.pending.value;
    AllocateUnfolds(cfg, w, e);
    if ReachesDevices(cfg, w, e) {
      ErasedText(cfg, w, e);
      GrantConcludes(cfg, Erased(cfg, w, e), NextOwner(cfg, w, e), NextDevices(cfg, w, e), e);
      Bound(Erased(cfg, w, e), uid, FAILED, e);
      AcceptedBound(cfg, Erased(cfg, w, e), uid, e);
    } else {
      var error :| error != MarkError && error != ConfError && Allocated(cfg, w, e) == Rejected(w1, uid, e, error);
      RejectedBound(w1, uid, e, error);
    }
  }

  lemma ErasedText(cfg: Config, w: World, e: AllocateEnv)
    requires ReachesDevices(cfg, w, e)
    ensures var w1, w2, uid := Refreshed(cfg, w, e.refresh), Erased(cfg, w, e), e.pending.value;
            && w2.locked == w1.locked && uid in w2.pods
            && w2.pods[uid].annotations == w1.pods[uid].annotations[cfg.annoKey := TextLeft(cfg, w, e)]
  {
    hide Refreshed, PodLayout, LayoutText, Blank;
  }

  lemma Bound(w: World, uid: string, phase: string, e: AllocateEnv)
    requires uid in w.pods
    ensures var b := BindTo(w, uid, phase, e);
            && uid in b.pods && b.locked == (w.locked && !e.lockReleased)
            && b.pods[uid].annotations
               == if e.phasePatched then w.pods[uid].annotations["hami.io/bind-phase" := phase]
                  else w.pods[uid].annotations
  {
  }

  lemma RejectedBound(w: World, uid: string, e: AllocateEnv, error: Error)
    requires uid in w.pods
    ensures var r := Rejected(w, uid, e, error);
            && r.error == Some(error) && uid in r.world.pods && r.world.locked == (w.locked && !e.lockReleased)
            && r.world.pods[uid].annotations
               == if e.phasePatched then w.pods[uid].annotations["hami.io/bind-phase" := "failed"]
                  else w.pods[uid].annotations
  {
    hide BindTo;
    Bound(w, uid, FAILED, e);
  }

  lemma AcceptedBound(cfg: Config, w: World, uid: string, e: AllocateEnv)
    requires uid in w.pods && cfg.annoKey in w.pods[uid].annotations
    ensures var a, done := Accepted(cfg, w, uid, e).world,
                           e.podFetched && !Contains(w.pods[uid].annotations[cfg.annoKey], cfg.idPrefix);
            && uid in a.pods && a.locked == (w.locked && !(done && e.lockReleased))
            && a.pods[uid].annotations
               == if done && e.phasePatched then w.pods[uid].annotations["hami.io/bind-phase" := "success"]
                  else w.pods[uid].annotations
  {
    hide BindTo, Contains;
    Bound(w, uid, SUCCESS, e);
  }

  /** Making vHCUs and marks does not touch pods and lock; both end as after one verdict. */
  lemma GrantConcludes(cfg: Config, w: World, owner: Owner, devs: Segment, e: AllocateEnv)
    requires devs != []
    ensures var out, uid := GrantDevices(cfg, w, owner, devs, e), owner.podUID;
            var end := if out.error.Some? then BindTo(w, uid, FAILED, e) else Accepted(cfg, w, uid, e).world;
            out.world.pods == end.pods && out.world.locked == end.locked
  {
    hide Contains, WholeCardMarks, F.FakeId, MakeVDevice;
    var n := UsableCount(cfg, devs, e, 0);
    if n == |devs| && WantsVDevice(cfg, devs) {
      MakeConcludes(cfg, w.(marks := w.marks + WholeCardMarks(cfg, owner, devs, e, n)), owner, devs[0], e);
    }
  }

  lemma MakeConcludes(cfg: Config, w: World, owner: Owner, d: ContainerDevice, e: AllocateEnv)
    requires F.FakeId(d.uuid, 0) in cfg.hcus
    ensures var out, uid := MakeVDevice(cfg, w, owner, d, e), owner.podUID;
            var end := if out.error.Some? then BindTo(w, uid, FAILED, e) else Accepted(cfg, w, uid, e).world;
            out.world.pods == end.pods && out.world.locked == end.locked
  {
    hide Contains, MarkName, F.FakeId, GrantedCUs;
  }
}
