/** No vHCU without a mark, what a failed call leaves behind, and when nothing is left to reclaim. */
module Leaks {
  import opened GoStrings
  import opened Kube
  import opened PodDevices
  import opened Drain
  import opened MarkFile
  import opened Lifecycle
  import opened Safety
  import opened Outcomes
  import F = FakeIds

  predicate HasMark(w: World, i: int) {
    exists m :: m in w.marks && MarksVDevice(m) && IndexOf(m) == i
  }

  /** Every live vHCU that the plugin made has a mark. */
  predicate NoLeak(w: World) {
    forall i :: i in w.live && w.live[i].owner.Some? ==> HasMark(w, i)
  }

  // ---------------------------------------------------------------- marks and vHCUs correspond

  function VMarks(marks: set<string>): set<string> {
    set m | m in marks && MarksVDevice(m)
  }

  function Owned(live: map<int, VDevice>): set<int> {
    set i | i in live && live[i].owner.Some?
  }

  function IndicesOf(marks: set<string>): set<int>
    requires forall m :: m in marks ==> IsMark(m)
  {
    set m | m in marks :: IndexOf(m)
  }

  lemma {:induction false} ImageSize(marks: set<string>)
    requires forall m :: m in marks ==> IsMark(m)
    requires forall m, m' :: m in marks && m' in marks && IndexOf(m) == IndexOf(m') ==> m == m'
    ensures |IndicesOf(marks)| == |marks|
    decreases |marks|
  {
    hide IsMark, IndexOf;
    if marks != {} {
      var m :| m in marks;
      ImageSize(marks - {m});
      assert IndicesOf(marks) == IndicesOf(marks - {m}) + {IndexOf(m)};
    }
  }

  /** In a sound state without leaks, marks and plugin-made vHCUs are in bijection. */
  lemma MarksMatchVDevices(w: World)
    requires Sound(w) && NoLeak(w)
    ensures IndicesOf(VMarks(w.marks)) == Owned(w.live)
    ensures |VMarks(w.marks)| == |Owned(w.live)|
  {
    hide IsMark, IndexOf, OwnerOf;
    forall i | i in Owned(w.live) ensures i in IndicesOf(VMarks(w.marks)) {
      assert HasMark(w, i);
    }
    ImageSize(VMarks(w.marks));
  }

  // ---------------------------------------------------------------- which faults leak

  /** A mark whose file goes takes its vHCU with it. */
  predicate DestroysWhatItUnmarks(w: World, f: RefreshFaults) {
    forall m :: m in Reclaimed(w) && MarksVDevice(m) && f.reclaim(m).removed ==> Destroys(f.reclaim(m))
  }

  /** Reclaiming removes the mark first, so it leaks exactly when every destroy call then fails. */
  lemma ReclaimLeaks(cfg: Config, w: World, f: RefreshFaults)
    requires Sound(w) && NoLeak(w)
    ensures NoLeak(Refreshed(cfg, w, f)) <==> Works(f) ==> DestroysWhatItUnmarks(w, f)
  {
    hide IsMark, OwnerOf, IndexOf, Needed, MissingMark;
    var w' := Refreshed(cfg, w, f);
    if Works(f) && DestroysWhatItUnmarks(w, f) {
      forall i | i in w'.live && w'.live[i].owner.Some? ensures HasMark(w', i) {
        assert HasMark(w, i);
        var m :| m in w.marks && MarksVDevice(m) && IndexOf(m) == i;
        assert m in w'.marks;
      }
    }
    if Works(f) && !DestroysWhatItUnmarks(w, f) {
      var m :| m in Reclaimed(w) && MarksVDevice(m) && f.reclaim(m).removed && !Destroys(f.reclaim(m));
      assert IndexOf(m) in w'.live;
      assert !HasMark(w', IndexOf(m));
    }
  }

  /** The call leaves a vHCU that it could not destroy without a mark. */
  predicate LeavesUnmarkedVDevice(cfg: Config, w: World, e: AllocateEnv) {
    Creates(cfg, w, e) && VDeviceStays(e) && !MarkStays(e)
  }

  lemma AllocateLeaks(cfg: Config, w: World, e: AllocateEnv)
    requires Sound(Refreshed(cfg, w, e.refresh)) && NoLeak(Refreshed(cfg, w, e.refresh))
    requires FreshIndex(cfg, w, e) && e.requests == 1
    ensures NoLeak(Allocated(cfg, w, e).world) <==> !LeavesUnmarkedVDevice(cfg, w, e)
  {
    hide IsMark, OwnerOf, IndexOf, Refreshed, Allocated, MarksAreLive, MarksAreDistinct,
         PodsWellFormed, OnlyAnnotationsOf;
    var w1, out := Refreshed(cfg, w, e.refresh), Allocated(cfg, w, e);
    if !Finds(cfg, w, e) {
      NothingFound(cfg, w, e);
    } else {
      var x := AllocateEffect(cfg, w, e);
      var w' := out.world;
      forall i | HasMark(w1, i) ensures HasMark(w', i) {
        var m :| m in w1.marks && MarksVDevice(m) && IndexOf(m) == i;
        assert m in w'.marks;
      }
      if x.marked {
        assert x.name in w'.marks && MarksVDevice(x.name) && IndexOf(x.name) == e.created.value by {
          FreshIsNatural(cfg, w, e);
        }
      }
      if x.alive && !x.marked {
        FreshIsNatural(cfg, w, e);
        OnlyOldMarks(w1, w', x, e);
        assert e.created.value in w'.live && w'.live[e.created.value].owner.Some?;
      } else {
        forall i | i in w'.live && w'.live[i].owner.Some? ensures HasMark(w', i) {
          if i in w1.live {
            assert HasMark(w1, i);
          }
        }
      }
    }
  }

  lemma FreshIsNatural(cfg: Config, w: World, e: AllocateEnv)
    requires FreshIndex(cfg, w, e)
    ensures e.created.Some? ==> e.created.value >= 0
  {
  }

  lemma OnlyOldMarks(w1: World, w': World, x: Effect, e: AllocateEnv)
    requires MarksAreLive(w1) && e.created.Some? && e.created.value !in w1.live && e.created.value >= 0
    requires w'.marks == w1.marks + x.whole && forall m :: m in x.whole ==> WholeMark(x.owner, m)
    ensures !HasMark(w', e.created.value)
  {
  }

  predicate LeaksNothing(cfg: Config, w: World, step: Step) {
    match step
    case Refresh(f) => Works(f) ==> DestroysWhatItUnmarks(w, f)
    case Allocate(e) =>
      && (e.requests == 1 && Works(e.refresh) ==> DestroysWhatItUnmarks(w, e.refresh))
      && !LeavesUnmarkedVDevice(cfg, w, e)
    case _ => true
  }

  lemma StepLeaksNothing(cfg: Config, w: World, step: Step)
    requires Sound(w) && NoLeak(w) && Possible(cfg, w, step) && CleansUp(cfg, w, step) && LeaksNothing(cfg, w, step)
    ensures NoLeak(Next(cfg, w, step))
  {
    hide IsMark, OwnerOf, IndexOf, Refreshed, Allocated, RemovesBeforeDestroying, DestroysWhatItUnmarks, HasMark;
    match step
    case Refresh(f) => ReclaimLeaks(cfg, w, f);
    case Allocate(e) =>
      if e.requests != 1 {
        BadRequestChangesNothing(cfg, w, e);
      } else {
        ReclaimKeepsSound(cfg, w, e.refresh);
        ReclaimLeaks(cfg, w, e.refresh);
        AllocateLeaks(cfg, w, e);
      }
    case PodAdded(pod) => SameMarks(w, Next(cfg, w, step));
    case PodChanged(pod) => SameMarks(w, Next(cfg, w, step));
    case PodGone(uid) => SameMarks(w, Next(cfg, w, step));
    case LockTaken => SameMarks(w, Next(cfg, w, step));
  }

  lemma SameMarks(w: World, w': World)
    requires w'.marks == w.marks && w'.live == w.live
    ensures NoLeak(w) <==> NoLeak(w')
  {
    forall i ensures HasMark(w, i) <==> HasMark(w', i) {
    }
  }

  /** Over a run whose destroy and cleanup calls succeed, the bijection holds in every state. */
  lemma {:induction false} NoLeakOverRuns(cfg: Config, w: World, steps: seq<Step>, k: nat)
    requires Sound(w) && NoLeak(w) && PossibleRun(cfg, w, steps) && CleanRun(cfg, w, steps) && k <= |steps|
    requires forall j :: 0 <= j < |steps| ==> LeaksNothing(cfg, After(cfg, w, steps[..j]), steps[j])
    ensures var w' := After(cfg, w, steps[..k]);
            && Sound(w') && NoLeak(w')
            && IndicesOf(VMarks(w'.marks)) == Owned(w'.live) && |VMarks(w'.marks)| == |Owned(w'.live)|
  {
    hide Sound, NoLeak, Possible, CleansUp, LeaksNothing, Next;
    RunKeepsSound(cfg, w, steps, k);
    if k > 0 {
      NoLeakOverRuns(cfg, w, steps, k - 1);
      AfterStep(cfg, w, steps, k - 1);
      StepLeaksNothing(cfg, After(cfg, w, steps[..k - 1]), steps[k - 1]);
    } else {
      assert steps[..0] == [];
    }
    MarksMatchVDevices(After(cfg, w, steps[..k]));
  }

  // ---------------------------------------------------------------- coming to rest

  predicate ReclaimWorks(w: World, f: RefreshFaults) {
    Works(f) && forall m :: m in Reclaimed(w) ==> f.reclaim(m).removed && Destroys(f.reclaim(m))
  }

  /** Marks kept for pods that the same refresh then deletes. */
  function Orphaned(cfg: Config, w: World, f: RefreshFaults): set<string> {
    set m | m in Kept(w) && OwnerOf(m).podUID in DeletedPods(cfg, w, f)
  }

  /** Pods lacking a mark that `f` could not delete but `g` can. */
  function LeftToDelete(cfg: Config, w: World, f: RefreshFaults, g: RefreshFaults): set<string> {
    set uid | uid in w.pods && MissingMark(w.pods[uid], cfg.mem, Kept(w)) && !f.podDeleted(uid) && g.podDeleted(uid)
  }

  lemma AfterReclaim(cfg: Config, w: World, f: RefreshFaults)
    requires ReclaimWorks(w, f)
    ensures var w' := Refreshed(cfg, w, f);
            Reclaimed(w') == Orphaned(cfg, w, f) && Kept(w') == Kept(w) - Orphaned(cfg, w, f)
  {
    hide IsMark, OwnerOf, MissingMark, Needed;
    var w' := Refreshed(cfg, w, f);
    forall m | m in w.marks && IsMark(m)
      ensures Needed(w'.pods, OwnerOf(m)) <==>
              Needed(w.pods, OwnerOf(m)) && OwnerOf(m).podUID !in DeletedPods(cfg, w, f)
    {
      NeededAfterDeleting(w.pods, DeletedPods(cfg, w, f), OwnerOf(m));
    }
  }

  lemma NeededAfterDeleting(pods: map<string, Pod>, deleted: set<string>, owner: Owner)
    ensures Needed(pods - deleted, owner) <==> Needed(pods, owner) && owner.podUID !in deleted
  {
  }

  /** The first field of a mark name is all that the prefix test and the parser see of the pod. */
  lemma PrefixNamesPod(m: string, uid: string, container: string)
    requires IsMark(m) && '_' !in uid && HasPrefix(m, MarkPrefix(uid, container))
    ensures OwnerOf(m).podUID == uid
  {
    hide Split;
    var rest := m[|MarkPrefix(uid, container)|..];
    assert m == uid + "_" + (container + "_" + rest);
    SplitFirst(uid, '_', container + "_" + rest);
  }

  /** Marks of other pods decide nothing about a pod. */
  lemma OtherMarksDoNotCount(pod: Pod, mem: string, marks: set<string>, others: set<string>)
    requires '_' !in pod.uid && others <= marks
    requires forall m :: m in others ==> IsMark(m) && OwnerOf(m).podUID != pod.uid
    ensures MissingMark(pod, mem, marks) <==> MissingMark(pod, mem, marks - others)
  {
    hide IsMark, OwnerOf, RequestsVirtual, StillNeeded, HasPrefix, MarkPrefix;
    forall c: Container ensures LacksMark(pod, c, mem, marks) <==> LacksMark(pod, c, mem, marks - others) {
      forall m | m in others ensures !HasPrefix(m, MarkPrefix(pod.uid, c.name)) {
        if HasPrefix(m, MarkPrefix(pod.uid, c.name)) {
          PrefixNamesPod(m, pod.uid, c.name);
        }
      }
    }
  }

  lemma SecondDeletes(cfg: Config, w: World, f: RefreshFaults, g: RefreshFaults)
    requires PodsWellFormed(w) && ReclaimWorks(w, f)
    ensures DeletedPods(cfg, Refreshed(cfg, w, f), g) == LeftToDelete(cfg, w, f, g)
  {
    hide IsMark, OwnerOf, MissingMark, ReclaimWorks, Kept, Reclaimed, DestroyedIn, RemovedIn, Needed;
    var w' := Refreshed(cfg, w, f);
    AfterReclaim(cfg, w, f);
    assert Works(f) && Kept(w') == Kept(w) - Orphaned(cfg, w, f) by {
      Working(w, f);
    }
    forall uid | uid in w'.pods
      ensures w'.pods[uid] == w.pods[uid]
      ensures MissingMark(w.pods[uid], cfg.mem, Kept(w)) <==> MissingMark(w.pods[uid], cfg.mem, Kept(w'))
    {
      KeptAreMarks(w);
      OtherMarksDoNotCount(w.pods[uid], cfg.mem, Kept(w), Orphaned(cfg, w, f));
    }
  }

  lemma Working(w: World, f: RefreshFaults)
    requires ReclaimWorks(w, f)
    ensures Works(f)
  {
  }

  lemma KeptAreMarks(w: World)
    ensures forall m :: m in Kept(w) ==> IsMark(m)
  {
    hide IsMark;
  }

  /**
    After a refresh in which every call on marks and vHCUs succeeds, the next one changes nothing
    if, and only if, it deletes none of the pods whose deletion failed, and leaves alone the marks
    that were kept for the pods just deleted, and their vHCUs.
   */
  lemma RefreshSettles(cfg: Config, w: World, f: RefreshFaults, g: RefreshFaults)
    requires PodsWellFormed(w) && ReclaimWorks(w, f) && Works(g)
    ensures var w' := Refreshed(cfg, w, f);
            Refreshed(cfg, w', g) == w' <==>
              && LeftToDelete(cfg, w, f, g) == {}
              && forall m :: m in Orphaned(cfg, w, f) ==>
                   && !g.reclaim(m).removed
                   && (MarksVDevice(m) && Destroys(g.reclaim(m)) ==> IndexOf(m) !in w'.live)
  {
    hide IsMark, OwnerOf, IndexOf, Needed, MissingMark, ReclaimWorks, Orphaned, LeftToDelete,
         DeletedPods, Kept, Destroys;
    var w' := Refreshed(cfg, w, f);
    AfterReclaim(cfg, w, f);
    SecondDeletes(cfg, w, f, g);
    NothingChanges(cfg, w', g);
  }

  lemma NothingChanges(cfg: Config, w: World, g: RefreshFaults)
    requires Works(g)
    ensures Refreshed(cfg, w, g) == w <==>
              && DeletedPods(cfg, w, g) == {}
              && forall m :: m in Reclaimed(w) ==>
                   && !g.reclaim(m).removed
                   && (MarksVDevice(m) && Destroys(g.reclaim(m)) ==> IndexOf(m) !in w.live)
  {
    hide IsMark, OwnerOf, IndexOf, Needed, MissingMark, Destroys;
    var w' := Refreshed(cfg, w, g);
    assert DeletedPods(cfg, w, g) <= w.pods.Keys && RemovedIn(Reclaimed(w), g) <= w.marks;
    assert w'.pods == w.pods <==> DeletedPods(cfg, w, g) == {} by {
      assert forall uid :: uid in DeletedPods(cfg, w, g) ==> uid in w.pods && uid !in w'.pods;
    }
    assert w'.marks == w.marks <==> RemovedIn(Reclaimed(w), g) == {};
    assert w'.live == w.live <==> DestroyedIn(Reclaimed(w), g) * w.live.Keys == {} by {
      if DestroyedIn(Reclaimed(w), g) * w.live.Keys == {} {
        forall i | i in w.live ensures i in w'.live {
          assert i !in DestroyedIn(Reclaimed(w), g) * w.live.Keys;
        }
      }
      assert forall i :: i in DestroyedIn(Reclaimed(w), g) ==> i !in w'.live;
    }
    if Refreshed(cfg, w, g) == w {
      forall m | m in Reclaimed(w)
        ensures !g.reclaim(m).removed
        ensures MarksVDevice(m) && Destroys(g.reclaim(m)) ==> IndexOf(m) !in w.live
      {
        assert m !in RemovedIn(Reclaimed(w), g);
        assert MarksVDevice(m) && Destroys(g.reclaim(m)) ==> IndexOf(m) in DestroyedIn(Reclaimed(w), g);
      }
    }
  }

  /**
    Once every pod on the node is gone or has ended, one refresh that works leaves no mark, and a
    second one changes nothing, whatever state the node was in.
   */
  lemma MarksReclaimed(cfg: Config, w: World, f: RefreshFaults, g: RefreshFaults)
    requires ReclaimWorks(w, f)
    requires forall uid :: uid in w.pods ==> Terminal(w.pods[uid].phase)
    ensures var w' := Refreshed(cfg, w, f);
            && (forall m :: m in w'.marks ==> !IsMark(m))
            && w'.pods == w.pods
            && Refreshed(cfg, w', g) == w'
  {
    hide IsMark, OwnerOf, IndexOf;
    var w' := Refreshed(cfg, w, f);
    forall uid, marks | uid in w.pods ensures !MissingMark(w.pods[uid], cfg.mem, marks) {
      NoneMissingAtEnd(w.pods[uid], cfg.mem, marks);
    }
    assert w'.pods == w.pods && Reclaimed(w') == {};
    if Works(g) {
      NothingChanges(cfg, w', g);
    }
  }

  /** If no vHCU had leaked before, no plugin-made vHCU is left either. */
  lemma EverythingReclaimed(cfg: Config, w: World, f: RefreshFaults)
    requires NoLeak(w) && ReclaimWorks(w, f)
    requires forall uid :: uid in w.pods ==> Terminal(w.pods[uid].phase)
    ensures forall i :: i in Refreshed(cfg, w, f).live ==> Refreshed(cfg, w, f).live[i].owner.None?
  {
    hide IsMark, OwnerOf, IndexOf, MissingMark;
    forall i | i in w.live && w.live[i].owner.Some? ensures i !in Refreshed(cfg, w, f).live {
      assert HasMark(w, i);
      var m :| m in w.marks && MarksVDevice(m) && IndexOf(m) == i;
      assert m in Reclaimed(w);
    }
  }

  lemma NoneMissingAtEnd(pod: Pod, mem: string, marks: set<string>)
    requires Terminal(pod.phase)
    ensures !MissingMark(pod, mem, marks)
  {
  }

  // ---------------------------------------------------------------- failed calls

  /**
    A vHCU that the call made is gone when it fails, and its mark is as it was: gone again, or still
    there if a mark of that name was there before.
   */
  predicate CleanupWorks(cfg: Config, w: World, e: AllocateEnv) {
    Creates(cfg, w, e) ==>
      && !VDeviceStays(e)
      && if EffectOf(cfg, w, e).name in Refreshed(cfg, w, e.refresh).marks then MarkStays(e) || e.mark != Written
         else !MarkStays(e)
  }

  /** The pod has been refused and the node is free for the next one. */
  predicate Refused(w: World, uid: string) {
    uid in w.pods && BIND_PHASE in w.pods[uid].annotations && w.pods[uid].annotations[BIND_PHASE] == FAILED && !w.locked
  }

  lemma FailureRefuses(cfg: Config, w: World, e: AllocateEnv)
    requires Finds(cfg, w, e) && FreshIndex(cfg, w, e)
    requires Allocated(cfg, w, e).error.Some? && e.phasePatched && e.lockReleased
    ensures Refused(Allocated(cfg, w, e).world, e.pending.value)
  {
    hide Refreshed, Allocated, TextLeft, ReachesDevices;
    CallConcludes(cfg, w, e);
  }

  /**
    In any state, a call that fails after finding its pod leaves the vHCUs and their marks as the
    opening refresh left them if, and only if, what it made of a vHCU could be taken back and no
    older mark was taken with it. Then whole-card marks are all that it leaves. The pod is refused
    and the node released.
   */
  lemma FailureIsAtomic(cfg: Config, w: World, e: AllocateEnv)
    requires PodsWellFormed(Refreshed(cfg, w, e.refresh)) && FreshIndex(cfg, w, e) && Finds(cfg, w, e)
    requires Allocated(cfg, w, e).error.Some?
    ensures var w1, w' := Refreshed(cfg, w, e.refresh), Allocated(cfg, w, e).world;
            && (w'.live == w1.live && VMarks(w'.marks) == VMarks(w1.marks) <==> CleanupWorks(cfg, w, e))
            && (CleanupWorks(cfg, w, e) ==> w'.marks == w1.marks + EffectOf(cfg, w, e).whole)
            && (e.phasePatched && e.lockReleased ==> Refused(w', e.pending.value))
  {
    hide IsMark, OwnerOf, IndexOf, Refreshed, Allocated, OnlyAnnotationsOf, Refused, FreshIndex;
    hide Succeeds, NextOwner, NextDevices, VDeviceStays, MarkStays, DevicesPass, VDeviceFor, NewMarkName;
    if e.phasePatched && e.lockReleased {
      FailureRefuses(cfg, w, e);
    }
    var x := EffectOf(cfg, w, e);
    AllocateChanges(cfg, w, e);
    EffectMarksOwn(cfg, w, e);
    FreshIsNew(cfg, w, e);
    var w1, w' := Refreshed(cfg, w, e.refresh), Allocated(cfg, w, e).world;
    assert forall m :: m in x.whole ==> WholeMark(x.owner, m) && !MarksVDevice(m);
    if x.made {
      assert MarksVDevice(x.name) && x.name !in x.whole;
      assert x.name in VMarks(w1.marks) <==> x.name in w1.marks;
      assert x.name in VMarks(w'.marks) <==> x.name in w'.marks;
      assert x.alive ==> e.created.value in w'.live;
    } else {
      assert !Creates(cfg, w, e);
    }
  }

  lemma FreshIsNew(cfg: Config, w: World, e: AllocateEnv)
    requires FreshIndex(cfg, w, e)
    ensures e.created.Some? ==> e.created.value >= 0 && e.created.value !in Refreshed(cfg, w, e.refresh).live
  {
  }

  /** A call that finds no pod touches no annotation, no phase and not the lock; it only refreshes. */
  lemma FailureBeforePod(cfg: Config, w: World, e: AllocateEnv)
    requires !Finds(cfg, w, e)
    ensures var out := Allocated(cfg, w, e);
            && out.error == Some(if e.requests == 1 then NoPendingPod else BadRequestCount)
            && out.world == (if e.requests == 1 then Refreshed(cfg, w, e.refresh) else w)
            && out.world.locked == w.locked && out.world.seen == w.seen
            && (forall uid :: uid in out.world.pods ==> uid in w.pods && out.world.pods[uid] == w.pods[uid])
            && (forall uid :: uid in w.pods && uid !in out.world.pods ==>
                  e.requests == 1 && uid in DeletedPods(cfg, w, e.refresh))
  {
    hide DeletedPods;
    if e.requests == 1 {
      NothingFound(cfg, w, e);
      RefreshKeepsPods(cfg, w, e.refresh);
    } else {
      BadRequestChangesNothing(cfg, w, e);
    }
  }

  /** A whole card, whose mark is written and is not among `marks`. */
  predicate AddsWholeMark(cfg: Config, owner: Owner, d: ContainerDevice, write: Write, marks: set<string>) {
    && WantsWholeCard(cfg, d) && write != NotWritten
    && MarkName(owner.podUID, owner.containerName, CardOf(cfg, d).dvInd, -1) !in marks
  }

  lemma WholeMarksAdded(cfg: Config, owner: Owner, devs: Segment, e: AllocateEnv, n: nat, marks: set<string>)
    requires n <= |devs|
    ensures marks + WholeCardMarks(cfg, owner, devs, e, n) != marks <==>
            exists i :: 0 <= i < n && AddsWholeMark(cfg, owner, devs[i], e.wholeMark(i), marks)
  {
    hide MarkName, F.FakeId, F.TotalMiB;
    var whole := WholeCardMarks(cfg, owner, devs, e, n);
    if i :| 0 <= i < n && AddsWholeMark(cfg, owner, devs[i], e.wholeMark(i), marks) {
      assert MarkName(owner.podUID, owner.containerName, CardOf(cfg, devs[i]).dvInd, -1) in whole;
    } else {
      assert marks + whole == marks;
    }
  }

  /**
    So a failed call that cleans up leaves a mark behind if, and only if, a whole card without a
    mark comes before the first device that is rejected.
   */
  lemma WholeCardMarkSurvives(cfg: Config, w: World, e: AllocateEnv)
    requires PodsWellFormed(Refreshed(cfg, w, e.refresh)) && FreshIndex(cfg, w, e) && Finds(cfg, w, e)
    requires Allocated(cfg, w, e).error.Some? && CleanupWorks(cfg, w, e)
    ensures var owner, devs, marks := NextOwner(cfg, w, e), NextDevices(cfg, w, e), Refreshed(cfg, w, e.refresh).marks;
            Allocated(cfg, w, e).world.marks != marks <==>
              && ReachesDevices(cfg, w, e)
              && exists i :: 0 <= i < UsableCount(cfg, devs, e, 0)
                             && AddsWholeMark(cfg, owner, devs[i], e.wholeMark(i), marks)
  {
    hide Refreshed, Allocated, PodsWellFormed, CleanupWorks, NextOwner, NextDevices, Finds, Creates,
         AddsWholeMark, WholeCardMarks;
    FailureIsAtomic(cfg, w, e);
    if ReachesDevices(cfg, w, e) {
      var devs := NextDevices(cfg, w, e);
      WholeMarksAdded(cfg, NextOwner(cfg, w, e), devs, e, UsableCount(cfg, devs, e, 0),
                      Refreshed(cfg, w, e.refresh).marks);
    }
  }
}
