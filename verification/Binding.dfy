/** The bind phase of a pod and the node lock, over the calls that serve its containers. */
module Binding {
  import opened GoStrings
  import opened Kube
  import opened PodDevices
  import opened Alignment
  import opened Drain
  import opened MarkFile
  import opened Lifecycle
  import opened Safety
  import ResourcePrefix
  import F = FakeIds

  /** The annotation has a key of its own and the device prefix is more than a separator. */
  predicate ValidConfig(cfg: Config) {
    cfg.annoKey != BIND_PHASE && exists c :: c in cfg.idPrefix && c != ';'
  }

  /** Every prefix that the plugin accepts gives such a configuration, and shows in every UUID. */
  lemma AcceptedPrefixIsValid(prefix: string, hcus: map<string, F.Card>, serial: string)
    requires ResourcePrefix.ValidPrefix(prefix)
    ensures var id := ResourcePrefix.DeviceIDPrefix(prefix);
            && ValidConfig(Config(id, ResourcePrefix.ResourceNameMem(prefix),
                                  ResourcePrefix.DevicesToAllocateKey(prefix), hcus))
            && Contains(ResourcePrefix.FormatDeviceUUID(id, serial), id)
  {
    hide Contains;
    ResourcePrefix.PrefixShowsInUUIDs(prefix, serial);
    assert 'C' in ResourcePrefix.DeviceIDPrefix(prefix);
    assert |ResourcePrefix.DevicesToAllocateKey(prefix)| > |BIND_PHASE|;
  }

  predicate ShowsPrefix(layout: Layout, prefix: string) {
    forall cd, d :: cd in layout && d in cd ==> Contains(d.uuid, prefix)
  }

  /** A layout as it comes out of an annotation written by the scheduler. */
  predicate Proper(cfg: Config, layout: Layout) {
    layout != [] && Clean(layout) && StoredLayout(layout) == layout && ShowsPrefix(layout, cfg.idPrefix)
  }

  /** The pod still has this layout to hand out. */
  predicate Waiting(cfg: Config, w: World, uid: string, layout: Layout) {
    uid in w.pods && PodLayout(CheckList(cfg), HCU, w.pods[uid]) == Ok(layout)
  }

  predicate PhaseIs(w: World, uid: string, phase: string) {
    uid in w.pods && BIND_PHASE in w.pods[uid].annotations && w.pods[uid].annotations[BIND_PHASE] == phase
  }

  /** A call that serves this pod without any error, its API calls included. */
  predicate ServesPod(cfg: Config, w: World, step: Step, uid: string) {
    && step.Allocate?
    && Finds(cfg, w, step.e) && step.e.pending == Some(uid)
    && Allocated(cfg, w, step.e).error.None?
    && step.e.podFetched && step.e.phasePatched && step.e.lockReleased
  }

  /**
    How a run goes on around this pod. The pod is there and nobody else writes its annotations.
    While it is waiting, the node lock is its own, so a call that finds a pod finds this one and
    serves it; once it is a success the lock is free for other pods.
   */
  predicate Follows(cfg: Config, w: World, step: Step, uid: string) {
    && uid in w.pods && uid in Next(cfg, w, step).pods
    && (step.PodChanged? && step.changed.uid == uid ==> step.changed.annotations == w.pods[uid].annotations)
    && (step.Allocate? && Finds(cfg, w, step.e) ==>
          || ServesPod(cfg, w, step, uid)
          || (step.e.pending.value != uid && PhaseIs(w, uid, SUCCESS)))
  }

  // ---------------------------------------------------------------- one call

  lemma NothingLeft(pd: Layout)
    ensures NonEmpty(pd) == [] <==> FirstSlot(pd) == |pd|
  {
    hide NonEmpty, Slot, Rank;
    if NonEmpty(pd) != [] {
      var i := Slot(pd, 0);
    } else {
      BlankedCompletely(pd);
      FirstSlotUnique(pd, |pd|);
    }
  }

  lemma BlankedShowsPrefix(layout: Layout, prefix: string, k: nat)
    requires ShowsPrefix(layout, prefix)
    ensures ShowsPrefix(BlankFirst(layout, k), prefix)
  {
    forall cd, d | cd in BlankFirst(layout, k) && d in cd ensures cd in layout {
      var i :| 0 <= i < |layout| && cd == BlankFirst(layout, k)[i];
    }
  }

  /** A successful call writes the blanked layout back and then decides on the phase. */
  lemma SuccessOutcome(cfg: Config, w1: World, uid: string, e: AllocateEnv)
    requires uid in w1.pods && ServePod(cfg, w1, uid, e).error.None? && ValidConfig(cfg)
    ensures PodLayout(CheckList(cfg), HCU, w1.pods[uid]).Ok?
    ensures var pd := PodLayout(CheckList(cfg), HCU, w1.pods[uid]).value;
            var text := LayoutText(Blank(pd));
            var pod, w' := w1.pods[uid], ServePod(cfg, w1, uid, e).world;
            && FirstSlot(pd) < |pd|
            && uid in w'.pods && w'.pods[uid].spec == pod.spec
            && cfg.annoKey in w'.pods[uid].annotations && w'.pods[uid].annotations[cfg.annoKey] == text
            && (if !e.podFetched || Contains(text, cfg.idPrefix)
                then w'.locked == w1.locked && w'.pods[uid].annotations == Patched(pod, cfg.annoKey, text).annotations
                else (e.phasePatched ==> PhaseIs(w', uid, SUCCESS)) && (e.lockReleased ==> !w'.locked))
  {
    hide Contains, MakeVDevice, WholeCardMarks, F.FakeId, PodLayout, LayoutText, Blank;
    var pod := w1.pods[uid];
    var (ctr, devs) := NextRequest(CheckList(cfg), HCU, pod).value;
    var text := NextAnnotation(CheckList(cfg), HCU, pod).value;
    var owner := Owner(uid, ctr.name);
    var w2 := w1.(pods := w1.pods[uid := Patched(pod, cfg.annoKey, text)]);
    var n := UsableCount(cfg, devs, e, 0);
    if WantsVDevice(cfg, devs) {
      MadeAccepted(cfg, w2.(marks := w2.marks + WholeCardMarks(cfg, owner, devs, e, n)), owner, devs[0], e);
    }
  }

  lemma MadeAccepted(cfg: Config, w: World, owner: Owner, d: ContainerDevice, e: AllocateEnv)
    requires F.FakeId(d.uuid, 0) in cfg.hcus
    ensures var out := MakeVDevice(cfg, w, owner, d, e);
            out.error.None? ==>
              exists w3: World {:trigger Accepted(cfg, w3, owner.podUID, e)} ::
                w3.pods == w.pods && w3.locked == w.locked && out == Accepted(cfg, w3, owner.podUID, e)
  {
    hide Contains, MarkFile.MarkName, F.FakeId, Capacity.GrantedCUs;
    var out := MakeVDevice(cfg, w, owner, d, e);
    if out.error.None? {
      var i, card := e.created.value, CardOf(cfg, d);
      var v := VDevice(card.dvInd, Capacity.GrantedCUs(d.usedcores, card.computeUnit), d.usedmem, Some(owner));
      var name := MarkFile.MarkName(owner.podUID, owner.containerName, card.dvInd, i);
      var w3 := w.(live := w.live[i := v]).(marks := w.marks + {name});
      assert out == Accepted(cfg, w3, owner.podUID, e);
    }
  }

  lemma WaitingAfterBlank(cfg: Config, w: World, uid: string, layout: Layout)
    requires uid in w.pods && cfg.annoKey in w.pods[uid].annotations
    requires w.pods[uid].annotations[cfg.annoKey] == LayoutText(layout)
    requires layout != [] && Clean(layout) && StoredLayout(layout) == layout
    requires |layout| == |AllPodContainers(w.pods[uid])|
    ensures Waiting(cfg, w, uid, layout)
  {
    ReadBackFull(cfg.annoKey, w.pods[uid], layout);
  }

  /**
    The k-th successful call on a pod: while device segments remain, phase and lock stay as they
    are; with the last one the pod becomes a success and the lock is released.
   */
  lemma ServeStep(cfg: Config, w: World, step: Step, uid: string, layout: Layout, k: nat)
    requires ValidConfig(cfg) && Proper(cfg, layout) && k <= |NonEmpty(layout)|
    requires ServesPod(cfg, w, step, uid)
    requires var w1 := Refreshed(cfg, w, step.e.refresh); Waiting(cfg, w1, uid, BlankFirst(layout, k))
    ensures k < |NonEmpty(layout)|
    ensures var w1, w' := Refreshed(cfg, w, step.e.refresh), Next(cfg, w, step);
            && Waiting(cfg, w', uid, BlankFirst(layout, k + 1))
            && (k + 1 < |NonEmpty(layout)| ==>
                  w'.locked == w1.locked && forall phase :: PhaseIs(w1, uid, phase) ==> PhaseIs(w', uid, phase))
            && (k + 1 == |NonEmpty(layout)| ==> !w'.locked && PhaseIs(w', uid, SUCCESS))
  {
    hide Refreshed, ServePod, NonEmpty, PodLayout, Contains, LayoutText, FirstSlot, Clean, Slot, ShowsPrefix;
    var e := step.e;
    var w1 := Refreshed(cfg, w, e.refresh);
    var pd, pd' := BlankFirst(layout, k), BlankFirst(layout, k + 1);
    SuccessOutcome(cfg, w1, uid, e);
    FirstOfBlanked(layout, k);
    BlankStep(layout, k);
    CleanBlanked(layout, k + 1);
    BlankedShowsPrefix(layout, cfg.idPrefix, k + 1);
    ShowPrefix(pd', cfg.idPrefix);
    NothingLeft(pd');
    FirstOfBlanked(layout, k + 1);
    WaitingAfterBlank(cfg, Next(cfg, w, step), uid, pd');
  }

  lemma ShowPrefix(layout: Layout, prefix: string)
    requires ShowsPrefix(layout, prefix) && exists c :: c in prefix && c != ';'
    ensures Contains(LayoutText(layout), prefix) <==> NonEmpty(layout) != []
  {
    PrefixShowsDevices(layout, prefix);
  }

  // ---------------------------------------------------------------- a whole run

  function ServedCount(cfg: Config, w: World, steps: seq<Step>, uid: string): (n: nat)
    ensures n <= |steps|
  {
    if steps == [] then 0
    else
      var n := |steps| - 1;
      ServedCount(cfg, w, steps[..n], uid) + if ServesPod(cfg, After(cfg, w, steps[..n]), steps[n], uid) then 1 else 0
  }

  predicate Orderly(cfg: Config, w: World, steps: seq<Step>, uid: string) {
    forall k :: 0 <= k < |steps| ==> Follows(cfg, After(cfg, w, steps[..k]), steps[k], uid)
  }

  /** Step k hands out the last segment. */
  predicate HandsOutLast(cfg: Config, w: World, steps: seq<Step>, uid: string, layout: Layout, k: nat)
    requires k < |steps|
  {
    && ServedCount(cfg, w, steps[..k], uid) < |NonEmpty(layout)|
    && ServedCount(cfg, w, steps[..k + 1], uid) == |NonEmpty(layout)|
  }

  /** Where a pod stands after `served` of its calls. */
  predicate Stands(cfg: Config, w: World, uid: string, layout: Layout, served: nat) {
    && served <= |NonEmpty(layout)|
    && Waiting(cfg, w, uid, BlankFirst(layout, served))
    && (served < |NonEmpty(layout)| ==> w.locked && PhaseIs(w, uid, "allocating"))
    && (served == |NonEmpty(layout)| ==> PhaseIs(w, uid, "success"))
  }

  /** Every step but a call for this pod leaves it alone, and the lock too while the pod is waiting. */
  lemma OthersPass(cfg: Config, w: World, step: Step, uid: string)
    requires Possible(cfg, w, step) && Follows(cfg, w, step, uid) && uid in w.seen && !ServesPod(cfg, w, step, uid)
    ensures var w' := Next(cfg, w, step);
            && w'.pods[uid].annotations == w.pods[uid].annotations && w'.pods[uid].spec == w.pods[uid].spec
            && (!PhaseIs(w, uid, SUCCESS) && w.locked ==> w'.locked)
  {
    hide Refreshed, Allocated, EffectOf, IsClassicInit, IsTerminated;
    match step
    case Refresh(f) => RefreshKeeps(cfg, w, f);
    case Allocate(e) =>
      if e.requests != 1 {
        BadRequestChangesNothing(cfg, w, e);
      } else {
        RefreshKeeps(cfg, w, e.refresh);
        if Finds(cfg, w, e) {
          AllocateChanges(cfg, w, e);
          OwnerIsPending(cfg, w, e);
        } else {
          NothingFound(cfg, w, e);
        }
      }
    case _ =>
  }

  lemma RefreshKeeps(cfg: Config, w: World, f: RefreshFaults)
    ensures var w' := Refreshed(cfg, w, f);
            w'.locked == w.locked && forall uid :: uid in w'.pods ==> uid in w.pods && w'.pods[uid] == w.pods[uid]
  {
    RefreshKeepsPods(cfg, w, f);
  }

  lemma OwnerIsPending(cfg: Config, w: World, e: AllocateEnv)
    requires Finds(cfg, w, e)
    ensures EffectOf(cfg, w, e).owner.podUID == e.pending.value
  {
    hide Refreshed, NextRequest, WholeCardMarks;
  }

  lemma PassKeeps(cfg: Config, w: World, step: Step, uid: string, layout: Layout, served: nat)
    requires Possible(cfg, w, step) && Follows(cfg, w, step, uid) && uid in w.seen && !ServesPod(cfg, w, step, uid)
    requires Stands(cfg, w, uid, layout, served)
    ensures Stands(cfg, Next(cfg, w, step), uid, layout, served)
  {
    hide Next, NonEmpty, ServesPod, Possible;
    OthersPass(cfg, w, step, uid);
  }

  lemma RefreshKeepsWaiting(cfg: Config, w: World, f: RefreshFaults, uid: string, layout: Layout, served: nat)
    requires Stands(cfg, w, uid, layout, served) && uid in Refreshed(cfg, w, f).pods
    ensures Stands(cfg, Refreshed(cfg, w, f), uid, layout, served)
  {
    hide NonEmpty, PodLayout, Refreshed;
    RefreshKeeps(cfg, w, f);
  }

  lemma ServeKeeps(cfg: Config, w: World, step: Step, uid: string, layout: Layout, served: nat)
    requires ValidConfig(cfg) && Proper(cfg, layout)
    requires ServesPod(cfg, w, step, uid) && Stands(cfg, w, uid, layout, served)
    ensures Stands(cfg, Next(cfg, w, step), uid, layout, served + 1)
    ensures served + 1 == |NonEmpty(layout)| ==> !Next(cfg, w, step).locked
  {
    hide Proper, NonEmpty, Next, Refreshed, PodLayout;
    RefreshKeepsWaiting(cfg, w, step.e.refresh, uid, layout, served);
    ServeStep(cfg, w, step, uid, layout, served);
  }

  /**
    Over any run in which this pod's calls succeed, whatever other pods, refreshes and later
    allocations do: as long as some segment is still to be handed out the pod is allocating and
    the node locked; the call that hands out the last one releases the lock and makes the pod a
    success, which it stays.
   */
  lemma {:induction false} PhaseOverRun(cfg: Config, w: World, steps: seq<Step>, uid: string, layout: Layout, k: nat)
    requires ValidConfig(cfg) && Proper(cfg, layout) && NonEmpty(layout) != []
    requires Stands(cfg, w, uid, layout, 0) && uid in w.seen
    requires PossibleRun(cfg, w, steps) && Orderly(cfg, w, steps, uid) && k <= |steps|
    ensures uid in After(cfg, w, steps[..k]).seen
    ensures Stands(cfg, After(cfg, w, steps[..k]), uid, layout, ServedCount(cfg, w, steps[..k], uid))
    ensures k > 0 && HandsOutLast(cfg, w, steps, uid, layout, k - 1) ==> !After(cfg, w, steps[..k]).locked
    decreases k
  {
    hide Proper, NonEmpty, Next, ServesPod, Follows, Stands, Possible, ValidConfig;
    if k == 0 {
      assert steps[..0] == [];
    } else {
      PhaseOverRun(cfg, w, steps, uid, layout, k - 1);
      var now := After(cfg, w, steps[..k - 1]);
      var served := ServedCount(cfg, w, steps[..k - 1], uid);
      assert steps[..k][..k - 1] == steps[..k - 1];
      StepEvolves(cfg, now, steps[k - 1]);
      if ServesPod(cfg, now, steps[k - 1], uid) {
        ServeKeeps(cfg, now, steps[k - 1], uid, layout, served);
      } else {
        PassKeeps(cfg, now, steps[k - 1], uid, layout, served);
      }
    }
  }

  /** How a pod enters such a run: just scheduled, with any of its empty segments left out. */
  lemma ScheduledPodStands(cfg: Config, w: World, uid: string, sub: Layout, layout: Layout)
    requires uid in w.pods && cfg.annoKey in w.pods[uid].annotations
    requires w.pods[uid].annotations[cfg.annoKey] == LayoutText(sub)
    requires Proper(cfg, layout) && NonEmpty(layout) != []
    requires OmitsEmpty(sub, layout) && Aligned(layout, AllPodContainers(w.pods[uid]))
    requires w.locked && PhaseIs(w, uid, ALLOCATING)
    ensures Stands(cfg, w, uid, layout, 0)
  {
    ReadBack(cfg.annoKey, w.pods[uid], sub, layout);
    BlankedCompletely(layout);
  }
}
