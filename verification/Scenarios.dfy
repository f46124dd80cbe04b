/** Concrete nodes and runs on which the properties fail that do not hold of every run. */
module Scenarios {
  import GoNumbers
  import opened GoStrings
  import opened Kube
  import opened PodDevices
  import opened Drain
  import opened MarkFile
  import opened Capacity
  import opened ResourcePrefix
  import opened Lifecycle
  import opened Safety
  import opened Outcomes
  import opened ForceDelete
  import Leaks
  import F = FakeIds

  const KEY := DevicesToAllocateKey(DEFAULT_PREFIX)

  /** One card with 4 MiB and 8 compute units. */
  function SampleConfig(): Config {
    var card: F.Card := F.DeviceInfo(0, "0000:01:00.0", "1", 4 * Capacity.MIB, 8);
    Config("HCU", "hcumem", KEY, map[F.FakeId(FormatDeviceUUID("HCU", "1"), 0) := card])
  }

  /** A share of that card. */
  function Share(mem: GoNumbers.Int32, cores: GoNumbers.Int32): ContainerDevice {
    ContainerDevice(0, FormatDeviceUUID("HCU", "1"), "HCU", mem, cores, "")
  }

  /** A device of another product. */
  function Foreign(): ContainerDevice {
    ContainerDevice(0, "X", "HCU", 1, 1, "")
  }

  predicate Sample(devs: Segment) {
    devs != [] && forall d :: d in devs ==> d == Foreign() || d == Share(d.usedmem, d.usedcores)
  }

  /** Pod "b" has just been scheduled with one container, its limit and its devices. */
  function SamplePod(resource: string, devs: Segment): Pod {
    Pod("b", PodSpec([], [Container("c", map[resource := 1], None)]), Pending, [], map[KEY := LayoutText([devs])])
  }

  function FreshNode(pod: Pod): World {
    World(map[], {}, map["b" := pod], true, {"b"})
  }

  /** Every call of the refresh succeeds but, if `keepsFiles`, the removal of mark files. */
  function SampleRefresh(keepsFiles: bool): RefreshFaults {
    RefreshFaults(true, true, _ => ReclaimFaults(!keepsFiles, _ => true, _ => true), _ => true)
  }

  /** A call for pod "b" that meets no fault; the driver hands out index 0. */
  function Serving(deviceIDs: nat, refresh: RefreshFaults): AllocateEnv {
    AllocateEnv(1, deviceIDs, refresh, Some("b"), true, _ => true, _ => Written,
                Some(0), Written, true, true, true, true, true, true)
  }

  // ---------------------------------------------------------------- what the annotation asks for

  lemma SampleIsStored(devs: Segment)
    requires Sample(devs)
    ensures Clean([devs]) && StoredLayout([devs]) == [devs]
  {
    hide Stored;
    assert FormatDeviceUUID("HCU", "1") == "HCU-1";
    forall i | 0 <= i < |devs| ensures Stored(devs[i]) == devs[i] && DelimiterFree(devs[i].uuid) {
      assert devs[i] in devs;
      StoredAlready(devs[i]);
    }
    assert StoredSegment(devs) == devs;
  }

  lemma StoredAlready(d: ContainerDevice)
    requires d.idx == 0 && d.containerName == ""
    ensures Stored(d) == d
  {
  }

  lemma SampleRequest(pods: map<string, Pod>, resource: string, devs: Segment)
    requires Sample(devs) && "b" in pods && pods["b"] == SamplePod(resource, devs)
    ensures NextRequest(CheckList(SampleConfig()), HCU, pods["b"])
            == Ok((SamplePod(resource, devs).spec.containers[0], devs))
  {
    hide LayoutText, FormatDeviceUUID, Clean, Sample;
    SampleIsStored(devs);
    NotEmpty(devs);
    ReadBackFull(KEY, pods["b"], [devs]);
    FirstSlotUnique([devs], 0);
  }

  lemma NotEmpty(devs: Segment)
    requires Sample(devs)
    ensures devs != []
  {
  }

  /** A share of the card passes, a device of another product does not. */
  lemma SampleUsable(devs: Segment, e: AllocateEnv, i: nat)
    requires i < |devs| && e.nodeFound(i)
    ensures devs[i] == Share(devs[i].usedmem, devs[i].usedcores) ==> Usable(SampleConfig(), devs, e, i)
    ensures devs[i] == Foreign() ==> !Usable(SampleConfig(), devs, e, i)
  {
    hide F.FakeId;
    UUIDRoundTrip("HCU", "1");
  }

  /** A pending pod is not deleted, so without marks the opening refresh does nothing. */
  lemma NothingToRefresh(pod: Pod, f: RefreshFaults)
    requires pod.phase == Pending
    ensures Refreshed(SampleConfig(), FreshNode(pod), f) == FreshNode(pod)
  {
    var w := FreshNode(pod);
    assert Reclaimed(w) == {} && DeletedPods(SampleConfig(), w, f) == {};
    assert DestroyedIn({}, f) == {} && RemovedIn({}, f) == {};
  }

  // ---------------------------------------------------------------- a call on a fresh node

  /** A single share gets as far as the choice of making a vHCU. */
  lemma SharePasses(w: World, resource: string, d: ContainerDevice, e: AllocateEnv)
    requires d == Share(d.usedmem, d.usedcores) && e == Serving(1, e.refresh)
    requires var pods := Refreshed(SampleConfig(), w, e.refresh).pods;
             "b" in pods && pods["b"] == SamplePod(resource, [d])
    ensures var cfg := SampleConfig();
            && Finds(cfg, w, e) && NextOwner(cfg, w, e) == Owner("b", "c") && NextDevices(cfg, w, e) == [d]
            && DevicesPass(cfg, w, e)
  {
    hide LayoutText, FormatDeviceUUID, NextRequest, Refreshed, Usable;
    SampleRequest(Refreshed(SampleConfig(), w, e.refresh).pods, resource, [d]);
    SampleUsable([d], e, 0);
  }

  /** Served with a single share that takes all the memory, the call succeeds and makes no vHCU. */
  lemma FullShareSucceeds(resource: string, cores: GoNumbers.Int32)
    ensures var cfg, devs, e := SampleConfig(), [Share(4, cores)], Serving(1, SampleRefresh(false));
            var w := FreshNode(SamplePod(resource, devs));
            && Refreshed(cfg, w, e.refresh) == w && Sound(w) && FreshIndex(cfg, w, e)
            && Serves(cfg, w, e, Owner("b", "c"), devs)
            && (Tracked(cfg, devs, e) <==> cores == 100)
  {
    hide LayoutText, FormatDeviceUUID, NextRequest, NextDevices, Refreshed, Allocated, F.FakeId, DevicesPass;
    var cfg, devs, e := SampleConfig(), [Share(4, cores)], Serving(1, SampleRefresh(false));
    var w := FreshNode(SamplePod(resource, devs));
    NothingToRefresh(SamplePod(resource, devs), e.refresh);
    SampleRequest(w.pods, resource, devs);
    SharePasses(w, resource, devs[0], e);
    AllocateChanges(cfg, w, e);
    assert WantsWholeCard(cfg, devs[0]) <==> cores == 100;
    WantsVDeviceExactly(cfg, devs);
    WantsWholeCardExactly(cfg, devs[0]);
  }

  /** A pod that has not ended may go on to any phase. */
  lemma PhaseChange(w: World, phase: Phase)
    requires "b" in w.pods && w.pods["b"].uid == "b" && !Terminal(w.pods["b"].phase)
    ensures Possible(SampleConfig(), w, PodChanged(w.pods["b"].(phase := phase)))
  {
  }

  // ---------------------------------------------------------------- no limit on memory: the mark stays

  lemma NumberIsNotMemory()
    ensures !Contains("hygon.com/hcunum", "hcumem")
  {
    assert 'e' in "hcumem" && 'e' !in "hygon.com/hcunum";
    if Contains("hygon.com/hcunum", "hcumem") {
      ContainedChars("hygon.com/hcunum", "hcumem");
      assert false;
    }
  }

  lemma MemoryIsVirtual()
    ensures IsVirtualLimit("hygon.com/hcumem", "hcumem")
  {
    IndexIsFirst("hygon.com/hcumem", "hygon.com", 0);
    IndexIsFirst("hygon.com/hcumem", "hcumem", 10);
  }

  /** The run of ForceDelete.MarkWithoutLimitStays on a fresh node. */
  lemma MarkCanStay() returns (cfg: Config, w: World, run: seq<Step>, running: Pod, ended: Pod)
    ensures Sound(w) && PossibleRun(cfg, w, run) && |run| == 3
    ensures run[1] == PodChanged(running) && run[2] == PodChanged(ended)
    ensures running.phase == Running && Terminal(ended.phase)
    ensures var w3 := After(cfg, w, run[..3]);
            && HasContainerMark(w3, Owner("b", "c")) && !Needed(w3.pods, Owner("b", "c"))
            && !HandlerReclaims(running, ended, cfg.mem)
  {
    hide LayoutText, FormatDeviceUUID, Refreshed, Allocated, Serves, Tracked, Contains, HasContainerMark, After;
    var devs, e := [Share(4, 100)], Serving(1, SampleRefresh(false));
    var pod := SamplePod("hygon.com/hcunum", devs);
    cfg, w := SampleConfig(), FreshNode(pod);
    FullShareSucceeds("hygon.com/hcunum", 100);
    ServedPodStays(cfg, w, e, Owner("b", "c"), devs);
    NumberIsNotMemory();
    var w1 := Allocated(cfg, w, e).world;
    running := w1.pods["b"].(phase := Running);
    ended := running.(phase := Succeeded);
    PhaseChange(w1, Running);
    PhaseChange(Next(cfg, w1, PodChanged(running)), Succeeded);
    run := [Allocate(e), PodChanged(running), PodChanged(ended)];
    MarkWithoutLimitStays(cfg, w, e, Owner("b", "c"), devs, running, ended);
  }

  // ---------------------------------------------------------------- all the memory, half the cores: deleted

  /** The run of ForceDelete.UntrackedIsDeleted on a fresh node. */
  lemma ServedPodCanBeDeleted() returns (cfg: Config, w: World, run: seq<Step>)
    ensures Sound(w) && PossibleRun(cfg, w, run) && |run| == 3 && run[0].Allocate? && run[2].Refresh?
    ensures Allocated(cfg, w, run[0].e).error.None?
    ensures "b" in After(cfg, w, run[..2]).pods && "b" !in After(cfg, w, run[..3]).pods
  {
    hide LayoutText, FormatDeviceUUID, Refreshed, Allocated, Serves, Tracked, Contains, After, HasPrefix;
    var devs, e, f := [Share(4, 50)], Serving(1, SampleRefresh(false)), SampleRefresh(false);
    var pod := SamplePod("hygon.com/hcumem", devs);
    cfg, w := SampleConfig(), FreshNode(pod);
    FullShareSucceeds("hygon.com/hcumem", 50);
    ServedPodStays(cfg, w, e, Owner("b", "c"), devs);
    MemoryIsVirtual();
    var w1 := Allocated(cfg, w, e).world;
    var running, c := w1.pods["b"].(phase := Running), pod.spec.containers[0];
    PhaseChange(w1, Running);
    run := [Allocate(e), PodChanged(running), Refresh(f)];
    assert "hygon.com/hcumem" in c.limits && RequestsVirtual(c, cfg.mem);
    assert c == running.spec.containers[0] && c in AllPodContainers(running);
    ServedSucceeds(cfg, w, e, Owner("b", "c"), devs);
    UntrackedIsDeleted(cfg, w, e, Owner("b", "c"), devs, c, running, f);
  }

  lemma ServedSucceeds(cfg: Config, w: World, e: AllocateEnv, owner: Owner, devs: Segment)
    requires Serves(cfg, w, e, owner, devs)
    ensures Allocated(cfg, w, e).error.None?
  {
  }

  // ---------------------------------------------------------------- a whole card, then a rejected device

  lemma SecondIsRejected(w: World, e: AllocateEnv)
    requires e == Serving(2, e.refresh)
    requires var pods := Refreshed(SampleConfig(), w, e.refresh).pods;
             "b" in pods && pods["b"] == SamplePod("hygon.com/hcumem", [Share(4, 100), Foreign()])
    ensures var cfg, devs := SampleConfig(), [Share(4, 100), Foreign()];
            && Finds(cfg, w, e) && NextDevices(cfg, w, e) == devs
            && ReachesDevices(cfg, w, e) && UsableCount(cfg, devs, e, 0) == 1
  {
    hide LayoutText, FormatDeviceUUID, NextRequest, Refreshed, Usable;
    var devs := [Share(4, 100), Foreign()];
    SampleRequest(Refreshed(SampleConfig(), w, e.refresh).pods, "hygon.com/hcumem", devs);
    SampleUsable(devs, e, 0);
    SampleUsable(devs, e, 1);
    assert UsableCount(SampleConfig(), devs, e, 0) == 1;
  }

  /** A call that fails, cleans up, and leaves a mark: Leaks.WholeCardMarkSurvives on a fresh node. */
  lemma FailedCallCanMark() returns (cfg: Config, w: World, e: AllocateEnv)
    ensures Sound(w) && Possible(cfg, w, Allocate(e)) && Finds(cfg, w, e) && Leaks.CleanupWorks(cfg, w, e)
    ensures Allocated(cfg, w, e).error.Some?
    ensures Refreshed(cfg, w, e.refresh).marks == {} != Allocated(cfg, w, e).world.marks
  {
    hide LayoutText, FormatDeviceUUID, NextRequest, NextDevices, NextOwner, Refreshed, Allocated,
         F.FakeId, ReachesDevices;
    var devs := [Share(4, 100), Foreign()];
    cfg, w, e := SampleConfig(), FreshNode(SamplePod("hygon.com/hcumem", devs)), Serving(2, SampleRefresh(false));
    NothingToRefresh(SamplePod("hygon.com/hcumem", devs), e.refresh);
    SecondIsRejected(w, e);
    AllocateChanges(cfg, w, e);
    assert WantsWholeCard(cfg, devs[0]);
    assert Leaks.AddsWholeMark(cfg, NextOwner(cfg, w, e), devs[0], e.wholeMark(0), {});
    Leaks.WholeCardMarkSurvives(cfg, w, e);
  }

  // ---------------------------------------------------------------- a dangling mark

  function OldMark(): string {
    MarkName("a", "c", 0, 0)
  }

  /** Pod "a" is gone and left a vHCU with half of the units and a quarter of the memory. */
  function LeftoverNode(pod: Pod): World {
    World(map[0 := VDevice(0, 4, 1, Some(Owner("a", "c")))], {OldMark()}, map["b" := pod], true, {"a", "b"})
  }

  lemma LeftoverRefresh(w: World, pod: Pod)
    requires w.pods == map["b" := pod] && pod.phase == Pending && w.marks == {OldMark()}
    ensures IsMark(OldMark()) && OwnerOf(OldMark()) == Owner("a", "c") && IndexOf(OldMark()) == 0
    ensures Reclaimed(w) == {OldMark()} && Destroys(SampleRefresh(true).reclaim(OldMark()))
    ensures Refreshed(SampleConfig(), w, SampleRefresh(true)) == w.(live := w.live - {0})
  {
    hide MarkName, ParseMarkFileName;
    var m, f := OldMark(), SampleRefresh(true);
    MarkNameRoundTrip("a", "c", 0, 0);
    assert f.reclaim(m).destroys(0);
    assert DestroyedIn(Reclaimed(w), f) == {0};
    assert RemovedIn(Reclaimed(w), f) == {};
    assert DeletedPods(SampleConfig(), w, f) == {};
  }

  lemma SmallShareSucceeds(w: World)
    requires w.pods == map["b" := SamplePod("hygon.com/hcumem", [Share(1, 50)])] && w.marks == {OldMark()}
    ensures var cfg, e := SampleConfig(), Serving(1, SampleRefresh(true));
            Succeeds(cfg, w, e) && Creates(cfg, w, e) && NextOwner(cfg, w, e) == Owner("b", "c")
  {
    hide MarkName, LayoutText, FormatDeviceUUID, NextRequest, NextDevices, Refreshed, F.FakeId, DevicesPass;
    LeftoverRefresh(w, w.pods["b"]);
    SharePasses(w, "hygon.com/hcumem", Share(1, 50), Serving(1, SampleRefresh(true)));
    assert WantsVDevice(SampleConfig(), [Share(1, 50)]);
  }

  /**
    From a sound state without leaks, in three steps that the driver and Kubernetes allow, a
    refresh takes away a vHCU that its container needs.
   */
  lemma SafetyCanFail() returns (cfg: Config, w: World, run: seq<Step>)
    ensures Sound(w) && Leaks.NoLeak(w) && PossibleRun(cfg, w, run) && |run| == 3 && run[2].Refresh?
    ensures !Spares(After(cfg, w, run[..2]), After(cfg, w, run[..3]))
  {
    hide MarkName, ParseMarkFileName, LayoutText, FormatDeviceUUID, Refreshed, Succeeds, Creates, NextOwner, Destroys;
    var pod := SamplePod("hygon.com/hcumem", [Share(1, 50)]);
    cfg, w := SampleConfig(), LeftoverNode(pod);
    var m, f := OldMark(), SampleRefresh(true);
    var e := Serving(1, f);
    run := [Refresh(f), Allocate(e), Refresh(f)];
    LeftoverRefresh(w, pod);
    var w1 := Refreshed(cfg, w, f);
    LeftoverRefresh(w1, pod);
    SmallShareSucceeds(w1);
    assert Sound(w);
    assert Leaks.HasMark(w, 0) by {
      assert m in w.marks && MarksVDevice(m) && IndexOf(m) == 0;
    }
    assert ReusesIndex(cfg, w1, e, m);
    DanglingMarkHitsOthers(cfg, w, m, f, e, f);
  }
}
