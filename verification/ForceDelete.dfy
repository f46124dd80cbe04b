/** Which pods a refresh deletes for want of a mark, and which it never deletes. */
module ForceDelete {
  import GoNumbers
  import opened GoStrings
  import opened Kube
  import opened PodDevices
  import opened Drain
  import opened MarkFile
  import opened Lifecycle
  import opened Safety
  import opened Outcomes
  import F = FakeIds

  predicate HasContainerMark(w: World, owner: Owner) {
    exists m :: m in w.marks && MarkFor(owner, m)
  }

  /** As long as the container needs its vHCU, it has a mark. */
  predicate Covered(w: World, owner: Owner) {
    Needed(w.pods, owner) ==> HasContainerMark(w, owner)
  }

  // ---------------------------------------------------------------- which requests get a mark

  /** The request is for a single device below its card, or for a whole card whose mark gets written. */
  predicate Tracked(cfg: Config, devs: Segment, e: AllocateEnv) {
    || BelowCard(cfg, devs)
    || exists i :: 0 <= i < |devs| && WholeCard(cfg, devs[i]) && e.wholeMark(i) != NotWritten
  }

  /** The call succeeds and serves these devices to this container. */
  predicate Serves(cfg: Config, w: World, e: AllocateEnv, owner: Owner, devs: Segment) {
    && Finds(cfg, w, e)
    && Allocated(cfg, w, e).error.None?
    && var next := NextRequest(CheckList(cfg), HCU, Refreshed(cfg, w, e.refresh).pods[e.pending.value]);
       next.Ok? && owner == Owner(e.pending.value, next.value.0.name) && devs == next.value.1
  }

  /**
    After a successful call the container has a mark exactly if it had one before or its request
    is a tracked one; a vHCU is made exactly for a single device below the memory of its card.
    A request for all the memory but not all the cores, or for several devices each below full
    memory, gets neither.
   */
  lemma SuccessMarksTrackedOnly(cfg: Config, w: World, e: AllocateEnv, owner: Owner, devs: Segment)
    requires PodsWellFormed(Refreshed(cfg, w, e.refresh)) && FreshIndex(cfg, w, e) && Serves(cfg, w, e, owner, devs)
    ensures var w1, w' := Refreshed(cfg, w, e.refresh), Allocated(cfg, w, e).world;
            && (HasContainerMark(w', owner) <==> HasContainerMark(w1, owner) || Tracked(cfg, devs, e))
            && (w'.live != w1.live <==> BelowCard(cfg, devs))
            && w1.marks <= w'.marks && w'.seen == w1.seen
            && (forall m :: m in w'.marks && !Tracked(cfg, devs, e) ==> m in w1.marks)
  {
    hide IsMark, OwnerOf, IndexOf, OnlyAnnotationsOf, Refreshed, Allocated, MarkFor, MarkOf, F.FakeId, NextRequest;
    hide BelowCard, WholeCard, EffectOf, FreshIndex, CardFor;
    var w1, w' := Refreshed(cfg, w, e.refresh), Allocated(cfg, w, e).world;
    SuccessAdds(cfg, w, e, owner, devs);
    AllocateChanges(cfg, w, e);
    FreshValue(cfg, w, e);
    if BelowCard(cfg, devs) {
      assert e.created.value in w'.live;
      BelowIsTracked(cfg, devs, e);
      OwnMark(owner, CardFor(cfg, devs[0]).dvInd, e.created.value);
      assert MarkOf(owner.podUID, owner.containerName, CardFor(cfg, devs[0]).dvInd, e.created.value) in w'.marks;
    }
    forall i | 0 <= i < |devs| && WholeCard(cfg, devs[i]) && e.wholeMark(i) != NotWritten
      ensures Tracked(cfg, devs, e)
      ensures Known(cfg, devs[i])
      ensures var m := MarkOf(owner.podUID, owner.containerName, CardFor(cfg, devs[i]).dvInd, -1);
              m in w'.marks && MarkFor(owner, m)
    {
      WholeIsKnown(cfg, devs[i]);
      OwnMark(owner, CardFor(cfg, devs[i]).dvInd, -1);
    }
    if HasContainerMark(w1, owner) {
      var m :| m in w1.marks && MarkFor(owner, m);
      assert m in w'.marks;
    }
  }

  lemma FreshValue(cfg: Config, w: World, e: AllocateEnv)
    requires FreshIndex(cfg, w, e)
    ensures e.created.Some? ==> e.created.value !in Refreshed(cfg, w, e.refresh).live
  {
  }

  lemma BelowIsTracked(cfg: Config, devs: Segment, e: AllocateEnv)
    requires BelowCard(cfg, devs)
    ensures |devs| == 1 && Known(cfg, devs[0]) && Tracked(cfg, devs, e)
  {
  }

  lemma OwnMark(owner: Owner, card: GoNumbers.Int64, index: GoNumbers.Int64)
    requires '_' !in owner.podUID
    ensures MarkFor(owner, MarkOf(owner.podUID, owner.containerName, card, index))
  {
    hide MarkFor, MarkOf, MarkName;
    NewMark(owner, card, index);
    NameIsMark(owner.podUID, owner.containerName, card, index);
  }

  /**
    The second family that the update handler misses: a pod without a vHCU-memory limit that was
    served a whole card. It is marked all the same; when it ends from Running, its mark is no longer
    needed, and the handler does nothing about it.
   */
  lemma MarkWithoutLimitStays(cfg: Config, w: World, e: AllocateEnv, owner: Owner, devs: Segment,
                              running: Pod, ended: Pod)
    requires PodsWellFormed(Refreshed(cfg, w, e.refresh)) && FreshIndex(cfg, w, e)
    requires Serves(cfg, w, e, owner, devs) && Tracked(cfg, devs, e)
    requires !PodRequestsVirtual(Refreshed(cfg, w, e.refresh).pods[owner.podUID], cfg.mem)
    requires running.uid == ended.uid == owner.podUID && running.phase == Running && Terminal(ended.phase)
    requires var w' := Allocated(cfg, w, e).world;
             && Possible(cfg, w', PodChanged(running))
             && Possible(cfg, Next(cfg, w', PodChanged(running)), PodChanged(ended))
    ensures var run := [Allocate(e), PodChanged(running), PodChanged(ended)];
            var w3 := After(cfg, w, run[..3]);
            && PossibleRun(cfg, w, run)
            && HasContainerMark(w3, owner) && !Needed(w3.pods, owner)
            && !HandlerReclaims(running, ended, cfg.mem)
  {
    hide Allocated, Serves, Tracked, MarkFor, RequestsVirtual, FreshIndex, TerminatedSince, IsClassicInit, IsTerminated;
    SuccessMarksTrackedOnly(cfg, w, e, owner, devs);
    ServedPodStays(cfg, w, e, owner, devs);
    ThreeSteps(cfg, w, Allocate(e), PodChanged(running), PodChanged(ended));
    assert AllPodContainers(running) == AllPodContainers(Refreshed(cfg, w, e.refresh).pods[owner.podUID]);
    assert AllPodContainers(running) == AllPodContainers(ended);
    var m :| m in Allocated(cfg, w, e).world.marks && MarkFor(owner, m);
    assert m in After(cfg, w, [Allocate(e), PodChanged(running), PodChanged(ended)][..3]).marks;
  }

  lemma ServedPodStays(cfg: Config, w: World, e: AllocateEnv, owner: Owner, devs: Segment)
    requires FreshIndex(cfg, w, e) && Serves(cfg, w, e, owner, devs)
    ensures Finds(cfg, w, e)
    ensures OnlyAnnotationsOf(owner.podUID, Refreshed(cfg, w, e.refresh).pods, Allocated(cfg, w, e).world.pods)
  {
    hide Refreshed, Allocated, NextRequest, OnlyAnnotationsOf, WholeCardMarks, MarksAfter;
    AllocateChanges(cfg, w, e);
  }

  // ---------------------------------------------------------------- marks that are needed stay

  /**
    A failed call that removes its mark does not remove one that was there before. That can only
    happen if the driver hands out an index that a mark of the same container still names.
   */
  predicate TakesNoOldMark(cfg: Config, w: World, step: Step) {
    step.Allocate? && Creates(cfg, w, step.e) && step.e.mark == Written && !MarkStays(step.e) ==>
      Finds(cfg, w, step.e) && EffectOf(cfg, w, step.e).name !in Refreshed(cfg, w, step.e.refresh).marks
  }

  predicate KeepsOldMarks(cfg: Config, w: World, steps: seq<Step>) {
    forall k :: 0 <= k < |steps| ==> TakesNoOldMark(cfg, After(cfg, w, steps[..k]), steps[k])
  }

  /** In a sound state it never happens. */
  lemma SoundTakesNoOldMark(cfg: Config, w: World, step: Step)
    requires Sound(w) && Possible(cfg, w, step) && CleansUp(cfg, w, step)
    ensures TakesNoOldMark(cfg, w, step)
  {
    hide IsMark, OwnerOf, IndexOf, Refreshed, Allocated, Sound, RemovesBeforeDestroying, DevicesPass, NextDevices;
    if step.Allocate? && Creates(cfg, w, step.e) {
      CreatesFinds(cfg, w, step.e);
      ReclaimKeepsSound(cfg, w, step.e.refresh);
      var x := AllocateEffect(cfg, w, step.e);
    }
  }

  lemma CleanRunKeepsOldMarks(cfg: Config, w: World, steps: seq<Step>)
    requires Sound(w) && PossibleRun(cfg, w, steps) && CleanRun(cfg, w, steps)
    ensures KeepsOldMarks(cfg, w, steps)
  {
    hide Sound, Possible, CleansUp, TakesNoOldMark, After;
    forall k | 0 <= k < |steps| ensures TakesNoOldMark(cfg, After(cfg, w, steps[..k]), steps[k]) {
      RunKeepsSound(cfg, w, steps, k);
      SoundTakesNoOldMark(cfg, After(cfg, w, steps[..k]), steps[k]);
    }
  }

  lemma RefreshKeepsNeededMarks(cfg: Config, w: World, f: RefreshFaults)
    ensures Kept(w) <= Refreshed(cfg, w, f).marks
  {
    hide IsMark, OwnerOf, Needed;
  }

  lemma StepKeepsNeededMarks(cfg: Config, w: World, step: Step)
    requires Possible(cfg, w, step) && TakesNoOldMark(cfg, w, step)
    ensures Kept(w) <= Next(cfg, w, step).marks
  {
    hide IsMark, OwnerOf, IndexOf, Refreshed, Allocated, Needed, OnlyAnnotationsOf, DevicesPass, NextDevices, NextOwner;
    match step
    case Refresh(f) => RefreshKeepsNeededMarks(cfg, w, f);
    case Allocate(e) =>
      RefreshKeepsNeededMarks(cfg, w, e.refresh);
      if e.requests != 1 {
        BadRequestChangesNothing(cfg, w, e);
      } else if Finds(cfg, w, e) {
        AllocateChanges(cfg, w, e);
      } else {
        NothingFound(cfg, w, e);
      }
    case _ =>
  }

  lemma StepKeepsCovered(cfg: Config, w: World, step: Step, owner: Owner)
    requires Possible(cfg, w, step) && TakesNoOldMark(cfg, w, step)
    requires Covered(w, owner) && owner.podUID in w.seen
    ensures Covered(Next(cfg, w, step), owner)
  {
    hide Possible, TakesNoOldMark, Next, UidEvolves, StillNeeded, IsMark, OwnerOf;
    StepEvolves(cfg, w, step);
    StepKeepsNeededMarks(cfg, w, step);
    var w' := Next(cfg, w, step);
    if Needed(w'.pods, owner) {
      if !Needed(w.pods, owner) {
        NotNeededStep(PodOf(w.pods, owner.podUID), PodOf(w'.pods, owner.podUID), owner.containerName);
        assert false;
      }
      var m :| m in w.marks && MarkFor(owner, m);
      assert m in Kept(w);
    }
  }

  lemma {:induction false} CoveredForever(cfg: Config, w: World, steps: seq<Step>, owner: Owner, i: nat, j: nat)
    requires PossibleRun(cfg, w, steps) && KeepsOldMarks(cfg, w, steps) && i <= j <= |steps|
    requires Covered(After(cfg, w, steps[..i]), owner) && owner.podUID in After(cfg, w, steps[..i]).seen
    ensures Covered(After(cfg, w, steps[..j]), owner) && owner.podUID in After(cfg, w, steps[..j]).seen
    decreases j
  {
    hide Covered, Possible, TakesNoOldMark, Next, After, UidEvolves;
    if i < j {
      CoveredForever(cfg, w, steps, owner, i, j - 1);
      AfterStep(cfg, w, steps, j - 1);
      StepEvolves(cfg, After(cfg, w, steps[..j - 1]), steps[j - 1]);
      StepKeepsCovered(cfg, After(cfg, w, steps[..j - 1]), steps[j - 1], owner);
    }
  }

  // ---------------------------------------------------------------- deletion

  /** What a refresh deletes has been Running and asks for a vHCU. */
  lemma OnlyRunningPodsDeleted(cfg: Config, w: World, f: RefreshFaults, uid: string)
    requires uid in w.pods && uid !in Refreshed(cfg, w, f).pods
    ensures w.pods[uid].phase == Running && PodRequestsVirtual(w.pods[uid], cfg.mem)
  {
    hide IsMark, OwnerOf, RequestsVirtual;
    OnlyRunningPodsLackMarks(w.pods[uid], cfg.mem, Kept(w));
  }

  /** A pod all of whose vHCU containers are covered is not deleted. */
  lemma CoveredPodStays(cfg: Config, w: World, f: RefreshFaults, uid: string)
    requires PodsWellFormed(w) && uid in w.pods
    requires forall c :: c in AllPodContainers(w.pods[uid]) && RequestsVirtual(c, cfg.mem) ==>
               Covered(w, Owner(uid, c.name))
    ensures uid in Refreshed(cfg, w, f).pods
  {
    hide IsMark, OwnerOf, RequestsVirtual, StillNeeded;
    var pod := w.pods[uid];
    forall c | c in AllPodContainers(pod) && RequestsVirtual(c, cfg.mem) && StillNeeded(Some(pod), c.name)
      ensures !LacksMark(pod, c, cfg.mem, Kept(w))
    {
      var owner := Owner(uid, c.name);
      assert Covered(w, owner) && Needed(w.pods, owner);
      var m :| m in w.marks && MarkFor(owner, m);
      assert m in Kept(w);
    }
  }

  /** The step serves this container with a tracked request. */
  predicate ServedTracked(cfg: Config, w: World, step: Step, owner: Owner) {
    && step.Allocate?
    && Serves(cfg, w, step.e, owner, NextDevices(cfg, w, step.e))
    && Tracked(cfg, NextDevices(cfg, w, step.e), step.e)
  }

  lemma ServedIsCovered(cfg: Config, w: World, step: Step, owner: Owner)
    requires PodsWellFormed(w) && Possible(cfg, w, step) && ServedTracked(cfg, w, step, owner)
    ensures Covered(Next(cfg, w, step), owner) && owner.podUID in Next(cfg, w, step).seen
  {
    hide IsMark, OwnerOf, IndexOf, MarkFor, Tracked, Needed, MissingMark, NextRequest, Refreshed, Allocated;
    var e := step.e;
    RefreshKeepsWellFormed(cfg, w, e.refresh);
    SuccessMarksTrackedOnly(cfg, w, e, owner, NextDevices(cfg, w, e));
  }

  /**
    No false force-delete: a pod whose vHCU containers were all served with tracked requests is
    never deleted by a refresh, neither by one of its own nor by the one that opens an Allocate,
    whatever else fails.
   */
  lemma NoFalseForceDelete(cfg: Config, w: World, steps: seq<Step>, uid: string, k: nat)
    requires PodsWellFormed(w) && PossibleRun(cfg, w, steps) && KeepsOldMarks(cfg, w, steps) && k < |steps|
    requires uid in After(cfg, w, steps[..k]).pods && (steps[k].Refresh? || steps[k].Allocate?)
    requires forall c :: c in AllPodContainers(After(cfg, w, steps[..k]).pods[uid]) && RequestsVirtual(c, cfg.mem) ==>
               exists j :: 0 <= j < k && ServedTracked(cfg, After(cfg, w, steps[..j]), steps[j], Owner(uid, c.name))
    ensures uid in After(cfg, w, steps[..k + 1]).pods
  {
    hide PodsWellFormed, Covered, Possible, TakesNoOldMark, Next, After, RequestsVirtual,
         ServedTracked, AllPodContainers;
    var now := After(cfg, w, steps[..k]);
    RunKeepsPods(cfg, w, steps, k);
    forall c | c in AllPodContainers(now.pods[uid]) && RequestsVirtual(c, cfg.mem)
      ensures Covered(now, Owner(uid, c.name))
    {
      var owner := Owner(uid, c.name);
      var j :| 0 <= j < k && ServedTracked(cfg, After(cfg, w, steps[..j]), steps[j], owner);
      RunKeepsPods(cfg, w, steps, j);
      AfterStep(cfg, w, steps, j);
      ServedIsCovered(cfg, After(cfg, w, steps[..j]), steps[j], owner);
      CoveredForever(cfg, w, steps, owner, j + 1, k);
    }
    AfterStep(cfg, w, steps, k);
    CoveredStepStays(cfg, now, steps[k], uid);
  }

  lemma CoveredStepStays(cfg: Config, w: World, step: Step, uid: string)
    requires PodsWellFormed(w) && Possible(cfg, w, step)
    requires uid in w.pods && (step.Refresh? || step.Allocate?)
    requires forall c :: c in AllPodContainers(w.pods[uid]) && RequestsVirtual(c, cfg.mem) ==>
               Covered(w, Owner(uid, c.name))
    ensures uid in Next(cfg, w, step).pods
  {
    hide Covered, Refreshed, Allocated, RequestsVirtual, IsMark, EffectOf;
    match step
    case Refresh(f) => CoveredPodStays(cfg, w, f, uid);
    case Allocate(e) =>
      if e.requests != 1 {
        BadRequestChangesNothing(cfg, w, e);
      } else {
        CoveredPodStays(cfg, w, e.refresh, uid);
        if Finds(cfg, w, e) {
          AllocateChanges(cfg, w, e);
        } else {
          NothingFound(cfg, w, e);
        }
      }
  }

  /**
    The trap: a container served with an untracked request although it asks for vHCU memory.
    Nothing is marked, so unless some kept mark passes for one of its own, the next refresh that
    works deletes the pod as soon as it is Running.
   */
  lemma UntrackedIsDeleted(cfg: Config, w: World, e: AllocateEnv, owner: Owner, devs: Segment,
                           c: Container, running: Pod, f: RefreshFaults)
    requires PodsWellFormed(Refreshed(cfg, w, e.refresh)) && FreshIndex(cfg, w, e)
    requires Serves(cfg, w, e, owner, devs) && !Tracked(cfg, devs, e)
    requires forall m :: m in Kept(Refreshed(cfg, w, e.refresh)) ==>
               !HasPrefix(m, MarkPrefix(owner.podUID, owner.containerName))
    requires running.uid == owner.podUID && running.phase == Running
    requires Possible(cfg, Allocated(cfg, w, e).world, PodChanged(running))
    requires c in AllPodContainers(running) && c.name == owner.containerName && RequestsVirtual(c, cfg.mem)
    requires StillNeeded(Some(running), c.name) && Works(f) && f.podDeleted(owner.podUID)
    ensures var run := [Allocate(e), PodChanged(running), Refresh(f)];
            && PossibleRun(cfg, w, run)
            && owner.podUID in After(cfg, w, run[..2]).pods && owner.podUID !in After(cfg, w, run[..3]).pods
  {
    hide Allocated, FreshIndex, Serves, Tracked, IsMark, OwnerOf, IndexOf, RequestsVirtual, StillNeeded, HasPrefix;
    hide Refreshed, Needed, Evolves;
    SuccessMarksTrackedOnly(cfg, w, e, owner, devs);
    ThreeSteps(cfg, w, Allocate(e), PodChanged(running), Refresh(f));
    var w1, w2 := Refreshed(cfg, w, e.refresh), Next(cfg, Allocated(cfg, w, e).world, PodChanged(running));
    KeptBefore(cfg, w, e, owner, devs, running);
    assert LacksMark(running, c, cfg.mem, Kept(w2));
    assert MissingMark(w2.pods[owner.podUID], cfg.mem, Kept(w2));
    DeletesMissing(cfg, w2, f, owner.podUID);
  }

  lemma DeletesMissing(cfg: Config, w: World, f: RefreshFaults, uid: string)
    requires uid in w.pods && MissingMark(w.pods[uid], cfg.mem, Kept(w)) && Works(f) && f.podDeleted(uid)
    ensures uid !in Refreshed(cfg, w, f).pods
  {
    hide MissingMark, Kept;
  }

  /** Every mark kept once the pod is Running was kept by the refresh that opened the call. */
  lemma KeptBefore(cfg: Config, w: World, e: AllocateEnv, owner: Owner, devs: Segment, running: Pod)
    requires PodsWellFormed(Refreshed(cfg, w, e.refresh)) && FreshIndex(cfg, w, e)
    requires Serves(cfg, w, e, owner, devs) && !Tracked(cfg, devs, e) && running.uid == owner.podUID
    requires Possible(cfg, Allocated(cfg, w, e).world, PodChanged(running))
    ensures Kept(Next(cfg, Allocated(cfg, w, e).world, PodChanged(running))) <= Kept(Refreshed(cfg, w, e.refresh))
  {
    hide Allocated, FreshIndex, Serves, Tracked, IsMark, OwnerOf, Refreshed, StillNeeded, Evolves;
    SuccessMarksTrackedOnly(cfg, w, e, owner, devs);
    ServedPodStays(cfg, w, e, owner, devs);
    var w1, w' := Refreshed(cfg, w, e.refresh), Allocated(cfg, w, e).world;
    var w2 := Next(cfg, w', PodChanged(running));
    forall m | m in Kept(w2) ensures m in Kept(w1) {
      var o := OwnerOf(m);
      UnneededStays(w1, w', o);
      if !Needed(w'.pods, o) {
        NotNeededStep(PodOf(w'.pods, o.podUID), PodOf(w2.pods, o.podUID), o.containerName);
      }
    }
  }
}
