/** No vHCU is taken from a container that still needs it, over every run. */
module Safety {
  import opened GoNumbers
  import opened GoStrings
  import opened Kube
  import opened PodDevices
  import opened Drain
  import opened MarkFile
  import opened Lifecycle
  import F = FakeIds

  // ---------------------------------------------------------------- the invariant

  predicate PodsWellFormed(w: World) {
    forall uid :: uid in w.pods ==> w.pods[uid].uid == uid && uid in w.seen && '_' !in uid
  }

  /** Every vHCU mark names a live vHCU that was made for the container in the mark's name. */
  predicate MarksAreLive(w: World) {
    forall m :: m in w.marks && MarksVDevice(m) ==>
      IndexOf(m) in w.live && w.live[IndexOf(m)].owner == Some(OwnerOf(m))
  }

  /** No vHCU has two marks. */
  predicate MarksAreDistinct(w: World) {
    forall m, m' :: m in w.marks && m' in w.marks && MarksVDevice(m) && MarksVDevice(m') && IndexOf(m) == IndexOf(m')
      ==> m == m'
  }

  predicate Sound(w: World) {
    PodsWellFormed(w) && MarksAreLive(w) && MarksAreDistinct(w)
  }

  // ---------------------------------------------------------------- reclaiming

  /** No vHCU is destroyed whose mark could not be removed first. */
  predicate RemovesBeforeDestroying(w: World, f: RefreshFaults) {
    forall m :: m in Reclaimed(w) && MarksVDevice(m) && Destroys(f.reclaim(m)) ==> f.reclaim(m).removed
  }

  /** Exactly what reclaiming destroys: vHCUs whose own container no longer needs them. */
  lemma ReclaimTakesOnlyUnneeded(cfg: Config, w: World, f: RefreshFaults)
    requires Sound(w)
    ensures var w' := Refreshed(cfg, w, f);
            && w'.live.Keys <= w.live.Keys
            && (forall i :: i in w'.live ==> w'.live[i] == w.live[i])
            && (forall i :: i in w.live && i !in w'.live ==>
                  w.live[i].owner.Some? && !Needed(w.pods, w.live[i].owner.value))
            && Kept(w) <= w'.marks <= w.marks
  {
  }

  /** The invariant survives reclaiming if, and only if, every destroyed vHCU lost its mark. */
  lemma ReclaimKeepsSound(cfg: Config, w: World, f: RefreshFaults)
    requires Sound(w)
    ensures Sound(Refreshed(cfg, w, f)) <==> Works(f) ==> RemovesBeforeDestroying(w, f)
  {
    hide IsMark, OwnerOf, IndexOf, Needed, MissingMark;
    var w' := Refreshed(cfg, w, f);
    if Works(f) && !RemovesBeforeDestroying(w, f) {
      var m :| m in Reclaimed(w) && MarksVDevice(m) && Destroys(f.reclaim(m)) && !f.reclaim(m).removed;
      assert m in w'.marks && IndexOf(m) !in w'.live;
    }
    if Works(f) && RemovesBeforeDestroying(w, f) {
      forall m | m in w'.marks && MarksVDevice(m) ensures IndexOf(m) in w'.live {
        if IndexOf(m) in DestroyedIn(Reclaimed(w), f) {
          assert false;
        }
      }
    }
  }

  // ---------------------------------------------------------------- what an allocation will do, known before it

  /** The request is read and off the annotation, so the call goes on to its devices. */
  predicate ReachesDevices(cfg: Config, w: World, e: AllocateEnv) {
    && Finds(cfg, w, e)
    && NextRequest(CheckList(cfg), HCU, Refreshed(cfg, w, e.refresh).pods[e.pending.value]).Ok?
    && |NextDevices(cfg, w, e)| == e.deviceIDs
    && e.erasePatched
  }

  /** No device of the request is rejected. */
  predicate DevicesPass(cfg: Config, w: World, e: AllocateEnv) {
    ReachesDevices(cfg, w, e) && UsableCount(cfg, NextDevices(cfg, w, e), e, 0) == |NextDevices(cfg, w, e)|
  }

  /** The call gets a vHCU from the driver. */
  predicate Creates(cfg: Config, w: World, e: AllocateEnv) {
    DevicesPass(cfg, w, e) && WantsVDevice(cfg, NextDevices(cfg, w, e)) && e.created.Some?
  }

  lemma CreatesFinds(cfg: Config, w: World, e: AllocateEnv)
    requires Creates(cfg, w, e)
    ensures Finds(cfg, w, e) && NextDevices(cfg, w, e) != [] && WantsVDevice(cfg, NextDevices(cfg, w, e))
  {
  }

  predicate Succeeds(cfg: Config, w: World, e: AllocateEnv) {
    && DevicesPass(cfg, w, e)
    && (WantsVDevice(cfg, NextDevices(cfg, w, e)) ==> e.created.Some? && e.mark == Written && e.confValid)
  }

  /** A vHCU that was made is live at the end. */
  predicate VDeviceStays(e: AllocateEnv) {
    (e.mark == Written && e.confValid) || !e.vdevDestroyed
  }

  /** The mark of a vHCU that was made is there at the end. */
  predicate MarkStays(e: AllocateEnv) {
    if e.mark == Written then e.confValid || !e.markRemoved else e.mark == Partial
  }

  /** The container that the call serves; without a name if there is no request for it. */
  function NextOwner(cfg: Config, w: World, e: AllocateEnv): Owner
    requires Finds(cfg, w, e)
  {
    var next := NextRequest(CheckList(cfg), HCU, Refreshed(cfg, w, e.refresh).pods[e.pending.value]);
    Owner(e.pending.value, if next.Ok? then next.value.0.name else "")
  }

  /** What an Allocate call does to the vHCUs and the marks. */
  datatype Effect = Effect(
    owner: Owner,
    whole: set<string>,  // whole-card marks written
    made: bool,          // a vHCU was created
    vdevice: VDevice,
    name: string,        // the name of its mark
    alive: bool,         // it is live at the end
    marked: bool)        // its mark is there at the end

  function EffectOf(cfg: Config, w: World, e: AllocateEnv): Effect
    requires Finds(cfg, w, e)
  {
    var owner, devs := NextOwner(cfg, w, e), NextDevices(cfg, w, e);
    var whole := if ReachesDevices(cfg, w, e)
               then WholeCardMarks(cfg, owner, devs, e, UsableCount(cfg, devs, e, 0)) else {};
    if Creates(cfg, w, e) then
      Effect(owner, whole, true, VDeviceFor(cfg, owner, devs[0]), NewMarkName(cfg, owner, devs[0], e.created.value),
             VDeviceStays(e), MarkStays(e))
    else Effect(owner, whole, false, VDevice(0, 0, 0, None), "", false, false)
  }

  function NewMarkName(cfg: Config, owner: Owner, d: ContainerDevice, i: int): string
    requires F.FakeId(d.uuid, 0) in cfg.hcus
  {
    MarkName(owner.podUID, owner.containerName, CardOf(cfg, d).dvInd, i)
  }

  // ---------------------------------------------------------------- allocating

  /** The same pods, with nothing changed but annotations of one of them. */
  predicate OnlyAnnotationsOf(uid: string, pods: map<string, Pod>, pods': map<string, Pod>) {
    && pods'.Keys == pods.Keys
    && (forall u :: u in pods ==> pods'[u] == pods[u].(annotations := pods'[u].annotations))
    && (forall u :: u in pods && u != uid ==> pods'[u] == pods[u])
  }

  /** The marks after the mark `name` of a new vHCU was written and perhaps removed again. */
  function MarksAfter(marks: set<string>, name: string, e: AllocateEnv): set<string> {
    if MarkStays(e) then marks + {name}
    else if e.mark == Written then marks - {name}
    else marks
  }

  /** The effect accounts for the whole difference between the opening refresh and the end. */
  predicate Explains(x: Effect, w1: World, e: AllocateEnv, out: Outcome) {
    var w' := out.world;
    && (x.made ==> e.created.Some?) && (x.alive || x.marked ==> x.made)
    && w'.live == (if x.alive then w1.live[e.created.value := x.vdevice] else w1.live)
    && w'.marks == (if x.made then MarksAfter(w1.marks + x.whole, x.name, e) else w1.marks + x.whole)
    && w'.seen == w1.seen && OnlyAnnotationsOf(x.owner.podUID, w1.pods, w'.pods)
    && (out.error == Some(MarkError) <==> x.made && e.mark != Written)
    && (out.error == Some(ConfError) <==> x.made && e.mark == Written && !e.confValid)
  }

  predicate IsLayoutError(e: Error) {
    e == FormatError || e == NotFound || e == NoContainers || e == CannotAlign
  }

  lemma LayoutErrors(checklist: map<string, string>, dtype: string, pod: Pod)
    ensures var r := PodLayout(checklist, dtype, pod); r.Err? ==> IsLayoutError(r.error)
  {
  }

  lemma PatchingKeeps(pods: map<string, Pod>, uid: string, key: string, text: string)
    requires uid in pods
    ensures OnlyAnnotationsOf(uid, pods, pods)
            && OnlyAnnotationsOf(uid, pods, pods[uid := Patched(pods[uid], key, text)])
  {
  }

  lemma BindToKeeps(pods: map<string, Pod>, w: World, uid: string, phase: string, e: AllocateEnv)
    requires uid in w.pods && OnlyAnnotationsOf(uid, pods, w.pods)
    ensures var b := BindTo(w, uid, phase, e);
            b.live == w.live && b.marks == w.marks && b.seen == w.seen && OnlyAnnotationsOf(uid, pods, b.pods)
  {
  }

  lemma BindingKeeps(cfg: Config, pods: map<string, Pod>, w: World, uid: string, e: AllocateEnv, error: Error)
    requires uid in w.pods && OnlyAnnotationsOf(uid, pods, w.pods)
    ensures Rejected(w, uid, e, error).error == Some(error) && Accepted(cfg, w, uid, e).error.None?
    ensures var r := Rejected(w, uid, e, error).world;
            r.live == w.live && r.marks == w.marks && r.seen == w.seen && OnlyAnnotationsOf(uid, pods, r.pods)
    ensures var a := Accepted(cfg, w, uid, e).world;
            a.live == w.live && a.marks == w.marks && a.seen == w.seen && OnlyAnnotationsOf(uid, pods, a.pods)
  {
    hide Contains, BindTo, OnlyAnnotationsOf;
    BindToKeeps(pods, w, uid, FAILED, e);
    BindToKeeps(pods, w, uid, SUCCESS, e);
  }

  lemma MakeChanges(cfg: Config, pods: map<string, Pod>, w: World, owner: Owner, d: ContainerDevice, e: AllocateEnv)
    requires F.FakeId(d.uuid, 0) in cfg.hcus && owner.podUID in w.pods && OnlyAnnotationsOf(owner.podUID, pods, w.pods)
    requires e.created.Some? ==> e.created.value !in w.live
    ensures var out := MakeVDevice(cfg, w, owner, d, e);
            && out.world.live == (if e.created.Some? && VDeviceStays(e)
                                  then w.live[e.created.value := VDeviceFor(cfg, owner, d)] else w.live)
            && out.world.marks == (if e.created.Some?
                                   then MarksAfter(w.marks, NewMarkName(cfg, owner, d, e.created.value), e)
                                   else w.marks)
            && out.world.seen == w.seen && OnlyAnnotationsOf(owner.podUID, pods, out.world.pods)
            && out.error == (if e.created.None? then Some(DriverError)
                             else if e.mark != Written then Some(MarkError)
                             else if !e.confValid then Some(ConfError) else None)
  {
    hide MarkName, OnlyAnnotationsOf, F.FakeId, Rejected, Accepted, VDeviceFor;
    var uid := owner.podUID;
    if e.created.None? {
      BindingKeeps(cfg, pods, w, uid, e, DriverError);
    } else {
      var i, v, name := e.created.value, VDeviceFor(cfg, owner, d), NewMarkName(cfg, owner, d, e.created.value);
      var left := w.(live := if VDeviceStays(e) then w.live[i := v] else w.live, marks := MarksAfter(w.marks, name, e));
      assert w.live[i := v] - {i} == w.live;
      assert w.marks + {name} - {name} == w.marks - {name};
      assert MakeVDevice(cfg, w, owner, d, e)
          == if e.mark != Written then Rejected(left, uid, e, MarkError)
             else if !e.confValid then Rejected(left, uid, e, ConfError)
             else Accepted(cfg, left, uid, e);
      BindingKeeps(cfg, pods, left, uid, e, if e.mark != Written then MarkError else ConfError);
    }
  }

  lemma GrantChanges(cfg: Config, pods: map<string, Pod>, w: World, owner: Owner, devs: Segment, e: AllocateEnv)
    requires devs != [] && owner.podUID in w.pods && OnlyAnnotationsOf(owner.podUID, pods, w.pods)
    requires e.created.Some? ==> e.created.value !in w.live
    ensures var out, n := GrantDevices(cfg, w, owner, devs, e), UsableCount(cfg, devs, e, 0);
            var made := n == |devs| && WantsVDevice(cfg, devs) && e.created.Some?;
            var marks := w.marks + WholeCardMarks(cfg, owner, devs, e, n);
            && out.world.live == (if made && VDeviceStays(e)
                                  then w.live[e.created.value := VDeviceFor(cfg, owner, devs[0])] else w.live)
            && out.world.marks == (if made then MarksAfter(marks, NewMarkName(cfg, owner, devs[0], e.created.value), e)
                                   else marks)
            && out.world.seen == w.seen && OnlyAnnotationsOf(owner.podUID, pods, out.world.pods)
            && out.error == (if n < |devs| then DeviceError(cfg, devs[n], e.nodeFound(n))
                             else if !WantsVDevice(cfg, devs) then None
                             else if !made then Some(DriverError)
                             else if e.mark != Written then Some(MarkError)
                             else if !e.confValid then Some(ConfError) else None)
  {
    hide MarkName, OnlyAnnotationsOf, F.FakeId, Rejected, Accepted, MakeVDevice, WholeCardMarks, VDeviceFor, MarksAfter;
    var n := UsableCount(cfg, devs, e, 0);
    var w' := w.(marks := w.marks + WholeCardMarks(cfg, owner, devs, e, n));
    if n == |devs| && WantsVDevice(cfg, devs) {
      MakeChanges(cfg, pods, w', owner, devs[0], e);
    } else {
      BindingKeeps(cfg, pods, w', owner.podUID, e,
                   if n < |devs| then DeviceError(cfg, devs[n], e.nodeFound(n)).value else NotFound);
    }
  }

  lemma DeviceErrors(cfg: Config, d: ContainerDevice, nodeFound: bool)
    ensures DeviceError(cfg, d, nodeFound) != Some(MarkError) && DeviceError(cfg, d, nodeFound) != Some(ConfError)
  {
  }

  /** The state in which the call turns to the devices. */
  function Erased(cfg: Config, w: World, e: AllocateEnv): World
    requires ReachesDevices(cfg, w, e)
  {
    var w1, uid := Refreshed(cfg, w, e.refresh), e.pending.value;
    var text := NextAnnotation(CheckList(cfg), HCU, w1.pods[uid]).value;
    w1.(pods := w1.pods[uid := Patched(w1.pods[uid], cfg.annoKey, text)])
  }

  lemma ErasedKeeps(cfg: Config, w: World, e: AllocateEnv)
    requires ReachesDevices(cfg, w, e)
    ensures var w1, w2 := Refreshed(cfg, w, e.refresh), Erased(cfg, w, e);
            && w2.live == w1.live && w2.marks == w1.marks && w2.seen == w1.seen && e.pending.value in w2.pods
            && OnlyAnnotationsOf(e.pending.value, w1.pods, w2.pods)
  {
    hide Refreshed, OnlyAnnotationsOf, PodLayout;
    var w1, uid := Refreshed(cfg, w, e.refresh), e.pending.value;
    PatchingKeeps(w1.pods, uid, cfg.annoKey, NextAnnotation(CheckList(cfg), HCU, w1.pods[uid]).value);
  }

  /** Before that point a call is rejected with the opening refresh as its only effect. */
  lemma AllocateUnfolds(cfg: Config, w: World, e: AllocateEnv)
    requires Finds(cfg, w, e)
    ensures NextOwner(cfg, w, e).podUID == e.pending.value
    ensures ReachesDevices(cfg, w, e) ==>
              && NextDevices(cfg, w, e) != []
              && Allocated(cfg, w, e)
                     == GrantDevices(cfg, Erased(cfg, w, e), NextOwner(cfg, w, e), NextDevices(cfg, w, e), e)
    ensures !ReachesDevices(cfg, w, e) ==>
              exists error :: error != MarkError && error != ConfError
                              && Allocated(cfg, w, e)
                                 == Rejected(Refreshed(cfg, w, e.refresh), e.pending.value, e, error)
  {
    hide Refreshed, GrantDevices, PodLayout, Rejected;
    var w1, uid := Refreshed(cfg, w, e.refresh), e.pending.value;
    LayoutErrors(CheckList(cfg), HCU, w1.pods[uid]);
    if !ReachesDevices(cfg, w, e) {
      var next := NextRequest(CheckList(cfg), HCU, w1.pods[uid]);
      var error := if next.Err? then next.error
                   else if |next.value.1| != e.deviceIDs then NumberMismatch else PatchError;
      assert Allocated(cfg, w, e) == Rejected(w1, uid, e, error);
    }
  }

  /** What a call does follows from what is known before it, whatever state the node is in. */
  lemma AllocateChanges(cfg: Config, w: World, e: AllocateEnv)
    requires Finds(cfg, w, e) && FreshIndex(cfg, w, e)
    ensures Explains(EffectOf(cfg, w, e), Refreshed(cfg, w, e.refresh), e, Allocated(cfg, w, e))
    ensures Allocated(cfg, w, e).error.None? <==> Succeeds(cfg, w, e)
  {
    hide Refreshed, Allocated, GrantDevices, OnlyAnnotationsOf, Rejected, WholeCardMarks, VDeviceFor, DeviceError;
    hide NextRequest, NextDevices, NextOwner, NewMarkName, MarksAfter, VDeviceStays, MarkStays, F.FakeId;
    var w1, uid := Refreshed(cfg, w, e.refresh), e.pending.value;
    AllocateUnfolds(cfg, w, e);
    if ReachesDevices(cfg, w, e) {
      var devs := NextDevices(cfg, w, e);
      ErasedKeeps(cfg, w, e);
      hide Erased;
      GrantChanges(cfg, w1.pods, Erased(cfg, w, e), NextOwner(cfg, w, e), devs, e);
      var n := UsableCount(cfg, devs, e, 0);
      if n < |devs| {
        DeviceErrors(cfg, devs[n], e.nodeFound(n));
      }
    } else {
      PatchingKeeps(w1.pods, uid, "", "");
      var error :| error != MarkError && error != ConfError && Allocated(cfg, w, e) == Rejected(w1, uid, e, error);
      BindingKeeps(cfg, w1.pods, w1, uid, e, error);
    }
  }

  // ---------------------------------------------------------------- its marks, in a sound state

  /** A mark of this container, both for the parser and for the raw prefix test. */
  predicate MarkFor(owner: Owner, m: string) {
    IsMark(m) && OwnerOf(m) == owner && HasPrefix(m, MarkPrefix(owner.podUID, owner.containerName))
  }

  predicate WholeMark(owner: Owner, m: string) {
    MarkFor(owner, m) && IndexOf(m) == -1
  }

  lemma PrintedPrefix(uid: string, container: string, dev: int, i: int)
    ensures HasPrefix(MarkName(uid, container, dev, i), MarkPrefix(uid, container))
  {
    hide Itoa;
    var tail := Itoa(dev) + "_" + Itoa(i);
    assert MarkName(uid, container, dev, i) == MarkPrefix(uid, container) + tail;
  }

  lemma NewMark(owner: Owner, dev: Int64, i: Int64)
    requires '_' !in owner.podUID
    ensures var name := MarkName(owner.podUID, owner.containerName, dev, i); MarkFor(owner, name) && IndexOf(name) == i
  {
    PrintedPrefix(owner.podUID, owner.containerName, dev, i);
    MarkNameRoundTrip(owner.podUID, owner.containerName, dev, i);
  }

  lemma WholeMarksAre(cfg: Config, owner: Owner, devs: Segment, e: AllocateEnv, n: nat)
    requires n <= |devs| && '_' !in owner.podUID
    ensures forall m :: m in WholeCardMarks(cfg, owner, devs, e, n) ==> WholeMark(owner, m)
  {
    hide MarkName, MarkFor, IndexOf;
    forall i | 0 <= i < n && WantsWholeCard(cfg, devs[i]) && e.wholeMark(i) != NotWritten
      ensures WholeMark(owner, MarkName(owner.podUID, owner.containerName, CardOf(cfg, devs[i]).dvInd, -1))
    {
      NewMark(owner, CardOf(cfg, devs[i]).dvInd, -1);
    }
  }

  /** Its marks are marks of the container served; the one of the new vHCU names that vHCU. */
  predicate MarksOwn(x: Effect, e: AllocateEnv) {
    && (forall m :: m in x.whole ==> WholeMark(x.owner, m))
    && (x.made ==>
          && e.created.Some? && MarkFor(x.owner, x.name) && IndexOf(x.name) == e.created.value
          && x.vdevice.owner == Some(x.owner))
  }

  lemma EffectMarksOwn(cfg: Config, w: World, e: AllocateEnv)
    requires Finds(cfg, w, e) && '_' !in e.pending.value
    ensures MarksOwn(EffectOf(cfg, w, e), e)
  {
    hide Refreshed, NextRequest, WholeMark, MarkName, MarkFor, IndexOf, WholeCardMarks;
    var owner, devs := NextOwner(cfg, w, e), NextDevices(cfg, w, e);
    WholeMarksAre(cfg, owner, devs, e, UsableCount(cfg, devs, e, 0));
    if Creates(cfg, w, e) {
      NewMark(owner, CardOf(cfg, devs[0]).dvInd, e.created.value);
    }
  }

  /**
    In a sound state the index of the new vHCU is not in use by any mark, so the call adds its
    marks and takes none away.
   */
  lemma AllocateEffect(cfg: Config, w: World, e: AllocateEnv) returns (x: Effect)
    requires Sound(Refreshed(cfg, w, e.refresh))
    requires Finds(cfg, w, e) && FreshIndex(cfg, w, e)
    ensures x == EffectOf(cfg, w, e) && MarksOwn(x, e)
    ensures var w1, out := Refreshed(cfg, w, e.refresh), Allocated(cfg, w, e);
            && Explains(x, w1, e, out)
            && out.world.marks == w1.marks + x.whole + (if x.marked then {x.name} else {})
            && (x.made ==> x.name !in w1.marks && e.created.value !in w1.live)
    ensures Allocated(cfg, w, e).error.None? <==> Succeeds(cfg, w, e)
  {
    hide IsMark, OwnerOf, IndexOf, MarkFor, MarksAreDistinct, OnlyAnnotationsOf, Refreshed, Allocated, Succeeds;
    x := EffectOf(cfg, w, e);
    AllocateChanges(cfg, w, e);
    EffectMarksOwn(cfg, w, e);
    NotMarkedBefore(Refreshed(cfg, w, e.refresh), x, e);
  }

  lemma NotMarkedBefore(w1: World, x: Effect, e: AllocateEnv)
    requires MarksAreLive(w1) && MarksOwn(x, e) && (x.made ==> e.created.value >= 0 && e.created.value !in w1.live)
    ensures x.made ==> x.name !in w1.marks + x.whole
  {
  }

  /** The call leaves the mark of a vHCU that it destroyed. */
  predicate LeavesDanglingMark(cfg: Config, w: World, e: AllocateEnv) {
    Creates(cfg, w, e) && MarkStays(e) && !VDeviceStays(e)
  }

  /** The invariant survives an Allocate call if, and only if, its cleanup leaves no dangling mark. */
  lemma AllocateKeepsSound(cfg: Config, w: World, e: AllocateEnv)
    requires Sound(Refreshed(cfg, w, e.refresh)) && FreshIndex(cfg, w, e) && e.requests == 1
    ensures Sound(Allocated(cfg, w, e).world) <==> !LeavesDanglingMark(cfg, w, e)
  {
    hide IsMark, OwnerOf, IndexOf, Refreshed, Allocated, NextDevices, VDeviceFor, NextOwner, Sound, MarkFor;
    var w1, out := Refreshed(cfg, w, e.refresh), Allocated(cfg, w, e);
    if Finds(cfg, w, e) {
      var x := AllocateEffect(cfg, w, e);
      SoundAfter(w1, out.world, x, e);
    } else {
      NothingFound(cfg, w, e);
    }
  }

  lemma SoundAfter(w1: World, w': World, x: Effect, e: AllocateEnv)
    requires Sound(w1) && MarksOwn(x, e) && (x.alive || x.marked ==> x.made)
    requires x.made ==> e.created.value >= 0 && e.created.value !in w1.live
    requires w'.live == (if x.alive then w1.live[e.created.value := x.vdevice] else w1.live)
    requires w'.marks == w1.marks + x.whole + (if x.marked then {x.name} else {})
    requires w'.seen == w1.seen && OnlyAnnotationsOf(x.owner.podUID, w1.pods, w'.pods)
    ensures Sound(w') <==> !(x.marked && !x.alive)
  {
    hide IsMark, OwnerOf, IndexOf;
    if x.marked && !x.alive {
      assert x.name in w'.marks && MarksVDevice(x.name) && IndexOf(x.name) !in w'.live;
    } else {
      forall m | m in w'.marks && MarksVDevice(m)
        ensures IndexOf(m) in w'.live && w'.live[IndexOf(m)].owner == Some(OwnerOf(m))
        ensures m in w1.marks || m == x.name
      {
        assert m in x.whole ==> WholeMark(x.owner, m);
      }
    }
  }

  // ---------------------------------------------------------------- every run

  /** The faults of a step under which marks never dangle. */
  predicate CleansUp(cfg: Config, w: World, step: Step) {
    match step
    case Refresh(f) => Works(f) ==> RemovesBeforeDestroying(w, f)
    case Allocate(e) =>
      && (e.requests == 1 && Works(e.refresh) ==> RemovesBeforeDestroying(w, e.refresh))
      && !LeavesDanglingMark(cfg, w, e)
    case _ => true
  }

  predicate CleanRun(cfg: Config, w: World, steps: seq<Step>) {
    forall k :: 0 <= k < |steps| ==> CleansUp(cfg, After(cfg, w, steps[..k]), steps[k])
  }

  lemma StepKeepsSound(cfg: Config, w: World, step: Step)
    requires Sound(w) && Possible(cfg, w, step) && CleansUp(cfg, w, step)
    ensures Sound(Next(cfg, w, step))
  {
    hide IsMark, OwnerOf, IndexOf, Refreshed, Allocated, RemovesBeforeDestroying;
    match step
    case Refresh(f) => ReclaimKeepsSound(cfg, w, f);
    case Allocate(e) =>
      if e.requests == 1 {
        ReclaimKeepsSound(cfg, w, e.refresh);
        AllocateKeepsSound(cfg, w, e);
      } else {
        assert Next(cfg, w, step) == w by {
          BadRequestChangesNothing(cfg, w, e);
        }
      }
    case _ =>
  }

  lemma BadRequestChangesNothing(cfg: Config, w: World, e: AllocateEnv)
    requires e.requests != 1
    ensures Allocated(cfg, w, e) == Outcome(w, Some(BadRequestCount))
  {
  }

  /** A vHCU whose container needs it stays as it is. */
  predicate Spares(w: World, w': World) {
    forall i :: i in w.live && w.live[i].owner.Some? && Needed(w.pods, w.live[i].owner.value) ==>
      i in w'.live && w'.live[i] == w.live[i]
  }

  lemma StepSpares(cfg: Config, w: World, step: Step)
    requires Sound(w) && Possible(cfg, w, step) && CleansUp(cfg, w, step)
    ensures Spares(w, Next(cfg, w, step))
  {
    hide Sound, Refreshed, Allocated, Needed, RemovesBeforeDestroying, EffectOf, OnlyAnnotationsOf, MarksAfter, Finds;
    hide LeavesDanglingMark;
    match step
    case Refresh(f) => ReclaimTakesOnlyUnneeded(cfg, w, f);
    case Allocate(e) =>
      if e.requests != 1 {
        BadRequestChangesNothing(cfg, w, e);
      } else {
        ReclaimTakesOnlyUnneeded(cfg, w, e.refresh);
        if Finds(cfg, w, e) {
          AllocateChanges(cfg, w, e);
        } else {
          NothingFound(cfg, w, e);
        }
      }
    case _ =>
  }

  lemma NothingFound(cfg: Config, w: World, e: AllocateEnv)
    requires !Finds(cfg, w, e) && e.requests == 1
    ensures Allocated(cfg, w, e) == Outcome(Refreshed(cfg, w, e.refresh), Some(NoPendingPod))
  {
  }

  lemma {:induction false} RunKeepsSound(cfg: Config, w: World, steps: seq<Step>, k: nat)
    requires Sound(w) && PossibleRun(cfg, w, steps) && CleanRun(cfg, w, steps) && k <= |steps|
    ensures Sound(After(cfg, w, steps[..k]))
  {
    hide Sound, Possible, CleansUp, Next;
    if k > 0 {
      RunKeepsSound(cfg, w, steps, k - 1);
      AfterStep(cfg, w, steps, k - 1);
      StepKeepsSound(cfg, After(cfg, w, steps[..k - 1]), steps[k - 1]);
    } else {
      assert steps[..0] == [];
    }
  }

  lemma AfterStep(cfg: Config, w: World, steps: seq<Step>, k: nat)
    requires k < |steps|
    ensures After(cfg, w, steps[..k + 1]) == Next(cfg, After(cfg, w, steps[..k]), steps[k])
  {
    assert steps[..k + 1][..k] == steps[..k];
  }

  /**
    Over every run of refreshes, allocations and pod changes: vHCU marks always name distinct
    live vHCUs made for their own container, and no step ever takes away a vHCU that its
    container still needs, however indices are reused and whichever destroy calls fail.
   */
  lemma LifeCycleSafety(cfg: Config, w: World, steps: seq<Step>, k: nat)
    requires Sound(w) && PossibleRun(cfg, w, steps) && CleanRun(cfg, w, steps) && k < |steps|
    ensures Sound(After(cfg, w, steps[..k]))
    ensures Spares(After(cfg, w, steps[..k]), After(cfg, w, steps[..k + 1]))
  {
    hide Sound, Possible, CleansUp, Next, Spares;
    RunKeepsSound(cfg, w, steps, k);
    AfterStep(cfg, w, steps, k);
    StepSpares(cfg, After(cfg, w, steps[..k]), steps[k]);
  }

  lemma UnneededStays(w: World, w': World, owner: Owner)
    requires w'.pods.Keys <= w.pods.Keys
    requires forall u :: u in w'.pods ==> w'.pods[u] == w.pods[u].(annotations := w'.pods[u].annotations)
    ensures !Needed(w.pods, owner) ==> !Needed(w'.pods, owner)
    ensures Needed(w.pods, owner) && owner.podUID in w'.pods ==> Needed(w'.pods, owner)
  {
  }

  /** The call makes a vHCU under the index of `m` for a container that needs it; `m` outlives its opening refresh. */
  predicate ReusesIndex(cfg: Config, w: World, e: AllocateEnv, m: string)
    requires MarksVDevice(m)
  {
    && Succeeds(cfg, w, e) && Creates(cfg, w, e) && FreshIndex(cfg, w, e) && e.created.value == IndexOf(m)
    && Needed(w.pods, NextOwner(cfg, w, e))
    && (Works(e.refresh) ==> !e.refresh.reclaim(m).removed)
  }

  /** Whatever state the node is in, reclaiming such a mark takes the vHCU that reused its index. */
  lemma ReusedIsDestroyed(cfg: Config, w: World, m: string, e: AllocateEnv, g: RefreshFaults)
    requires m in Reclaimed(w) && MarksVDevice(m) && ReusesIndex(cfg, w, e, m)
    requires Works(g) && Destroys(g.reclaim(m))
    ensures var w' := Allocated(cfg, w, e).world; !Spares(w', Refreshed(cfg, w', g))
  {
    hide IsMark, OwnerOf, IndexOf, Needed, Allocated, NextDevices, VDeviceFor, Destroys,
         Refreshed, Creates, DevicesPass;
    MadeIsOwned(cfg, w, e);
    var w1, w2, owner := Refreshed(cfg, w, e.refresh), Allocated(cfg, w, e).world, NextOwner(cfg, w, e);
    KeepsUnneededMark(cfg, w, e.refresh, m);
    AllocateChanges(cfg, w, e);
    RefreshKeepsPods(cfg, w, e.refresh);
    UnneededStays(w, w1, owner);
    UnneededStays(w1, w2, owner);
    UnneededStays(w1, w2, OwnerOf(m));
    DestroysMarked(cfg, w2, g, m);
    assert w2.live[IndexOf(m)].owner == Some(owner) && Needed(w2.pods, owner);
  }

  lemma ThreeSteps(cfg: Config, w: World, a: Step, b: Step, c: Step)
    ensures var run := [a, b, c];
            && After(cfg, w, run[..0]) == w
            && After(cfg, w, run[..1]) == Next(cfg, w, a)
            && After(cfg, w, run[..2]) == Next(cfg, Next(cfg, w, a), b)
            && After(cfg, w, run[..3]) == Next(cfg, Next(cfg, Next(cfg, w, a), b), c)
  {
    hide Next;
    var run := [a, b, c];
    AfterStep(cfg, w, run, 0);
    AfterStep(cfg, w, run, 1);
    AfterStep(cfg, w, run, 2);
    assert run[..0] == [];
  }

  /**
    Why dangling marks matter, from a sound state on: a refresh destroys a vHCU without being able
    to remove its mark, the driver hands the index out again, and the next refresh destroys the
    new vHCU although its container needs it.
   */
  lemma DanglingMarkHitsOthers(cfg: Config, w: World, m: string, f: RefreshFaults, e: AllocateEnv, g: RefreshFaults)
    requires Sound(w) && m in Reclaimed(w) && MarksVDevice(m)
    requires Works(f) && Destroys(f.reclaim(m)) && !f.reclaim(m).removed
    requires ReusesIndex(cfg, Refreshed(cfg, w, f), e, m)
    requires Works(g) && Destroys(g.reclaim(m))
    ensures var run := [Refresh(f), Allocate(e), Refresh(g)];
            && PossibleRun(cfg, w, run)
            && !Spares(After(cfg, w, run[..2]), After(cfg, w, run[..3]))
  {
    hide Spares, Reclaimed, MarksVDevice, Destroys, Refreshed, Allocated, Creates, Succeeds, Needed;
    KeepsUnneededMark(cfg, w, f, m);
    ReusedIsDestroyed(cfg, Refreshed(cfg, w, f), m, e, g);
    ThreeSteps(cfg, w, Refresh(f), Allocate(e), Refresh(g));
  }

  lemma RefreshKeepsPods(cfg: Config, w: World, f: RefreshFaults)
    ensures var w' := Refreshed(cfg, w, f);
            && w'.seen == w.seen && w'.pods.Keys <= w.pods.Keys
            && forall u :: u in w'.pods ==> w'.pods[u] == w.pods[u]
  {
  }

  lemma KeepsUnneededMark(cfg: Config, w: World, f: RefreshFaults, m: string)
    requires m in Reclaimed(w) && (Works(f) ==> !f.reclaim(m).removed)
    ensures m in Reclaimed(Refreshed(cfg, w, f))
  {
    hide IsMark, OwnerOf, Needed;
    RefreshKeepsPods(cfg, w, f);
    UnneededStays(w, Refreshed(cfg, w, f), OwnerOf(m));
  }

  lemma DestroysMarked(cfg: Config, w: World, f: RefreshFaults, m: string)
    requires m in Reclaimed(w) && MarksVDevice(m) && Works(f) && Destroys(f.reclaim(m))
    ensures IndexOf(m) !in Refreshed(cfg, w, f).live
  {
    hide IsMark, IndexOf;
  }

  lemma MadeIsOwned(cfg: Config, w: World, e: AllocateEnv)
    requires Creates(cfg, w, e)
    ensures Finds(cfg, w, e) && EffectOf(cfg, w, e).vdevice.owner == Some(NextOwner(cfg, w, e))
  {
    hide MarkName, F.FakeId, Capacity.GrantedCUs;
  }

  // ---------------------------------------------------------------- "not needed" is final

  lemma StepKeepsPods(cfg: Config, w: World, step: Step)
    requires PodsWellFormed(w) && Possible(cfg, w, step)
    ensures PodsWellFormed(Next(cfg, w, step))
  {
    hide Refreshed, Allocated, EffectOf, IsClassicInit, IsTerminated;
    match step
    case Refresh(f) => RefreshKeepsWellFormed(cfg, w, f);
    case Allocate(e) =>
      RefreshKeepsWellFormed(cfg, w, e.refresh);
      if e.requests != 1 {
        BadRequestChangesNothing(cfg, w, e);
      } else if !Finds(cfg, w, e) {
        NothingFound(cfg, w, e);
      } else {
        AllocateChanges(cfg, w, e);
      }
    case _ =>
  }

  lemma RefreshKeepsWellFormed(cfg: Config, w: World, f: RefreshFaults)
    requires PodsWellFormed(w)
    ensures PodsWellFormed(Refreshed(cfg, w, f))
  {
    RefreshKeepsPods(cfg, w, f);
  }

  lemma {:induction false} RunKeepsPods(cfg: Config, w: World, steps: seq<Step>, k: nat)
    requires PodsWellFormed(w) && PossibleRun(cfg, w, steps) && k <= |steps|
    ensures PodsWellFormed(After(cfg, w, steps[..k]))
  {
    hide PodsWellFormed, Possible, Next;
    if k > 0 {
      RunKeepsPods(cfg, w, steps, k - 1);
      AfterStep(cfg, w, steps, k - 1);
      StepKeepsPods(cfg, After(cfg, w, steps[..k - 1]), steps[k - 1]);
    } else {
      assert steps[..0] == [];
    }
  }

  /** Whatever fails, a step never forgets a UID and changes its pod only as Kubernetes does. */
  lemma StepEvolves(cfg: Config, w: World, step: Step)
    requires Possible(cfg, w, step)
    ensures w.seen <= Next(cfg, w, step).seen
    ensures forall uid :: uid in w.seen ==> UidEvolves(PodOf(w.pods, uid), PodOf(Next(cfg, w, step).pods, uid))
  {
    hide Refreshed, Allocated, EffectOf, MarksAfter, IsTerminated, IsClassicInit, Finds;
    match step
    case Refresh(f) => RefreshKeepsPods(cfg, w, f);
    case Allocate(e) =>
      RefreshKeepsPods(cfg, w, e.refresh);
      if e.requests != 1 {
        BadRequestChangesNothing(cfg, w, e);
      } else if !Finds(cfg, w, e) {
        NothingFound(cfg, w, e);
      } else {
        AllocateChanges(cfg, w, e);
      }
    case _ =>
  }

  lemma SeenStays(cfg: Config, w: World, steps: seq<Step>, k: nat)
    requires PossibleRun(cfg, w, steps) && k < |steps|
    ensures After(cfg, w, steps[..k]).seen <= After(cfg, w, steps[..k + 1]).seen
    ensures forall uid :: uid in After(cfg, w, steps[..k]).seen ==>
              UidEvolves(PodOf(After(cfg, w, steps[..k]).pods, uid), PodOf(After(cfg, w, steps[..k + 1]).pods, uid))
  {
    hide Next, UidEvolves;
    AfterStep(cfg, w, steps, k);
    StepEvolves(cfg, After(cfg, w, steps[..k]), steps[k]);
  }

  /** Over every run, whatever fails: a container that stopped needing its vHCU never needs it again. */
  lemma {:induction false} NotNeededForever(cfg: Config, w: World, steps: seq<Step>, owner: Owner, i: nat, j: nat)
    requires PossibleRun(cfg, w, steps) && i <= j <= |steps|
    requires owner.podUID in After(cfg, w, steps[..i]).seen
    requires !Needed(After(cfg, w, steps[..i]).pods, owner)
    ensures owner.podUID in After(cfg, w, steps[..j]).seen && !Needed(After(cfg, w, steps[..j]).pods, owner)
    decreases j
  {
    hide PossibleRun, UidEvolves, StillNeeded, After;
    if i < j {
      NotNeededForever(cfg, w, steps, owner, i, j - 1);
      SeenStays(cfg, w, steps, j - 1);
      NotNeededStep(PodOf(After(cfg, w, steps[..j - 1]).pods, owner.podUID),
                    PodOf(After(cfg, w, steps[..j]).pods, owner.podUID), owner.containerName);
    }
  }

  /** So a reclaim decision taken on an older list of pods is still right when it is carried out. */
  lemma StaleDecisionIsRight(cfg: Config, w: World, steps: seq<Step>, m: string, i: nat, j: nat)
    requires PossibleRun(cfg, w, steps) && i <= j <= |steps|
    requires m in Reclaimed(After(cfg, w, steps[..i])) && OwnerOf(m).podUID in After(cfg, w, steps[..i]).seen
    requires m in After(cfg, w, steps[..j]).marks
    ensures m in Reclaimed(After(cfg, w, steps[..j]))
  {
    hide PossibleRun, After, Needed, IsMark, OwnerOf;
    NotNeededForever(cfg, w, steps, OwnerOf(m), i, j);
  }
}
