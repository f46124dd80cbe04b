/**
  Mark files: their names, the decision whether a mark is still needed, and the test whether a
  running pod lacks one.
 */
module MarkFile {
  import opened GoNumbers
  import opened GoStrings
  import opened Kube

  datatype MarkInfo = MarkInfo(podUID: string, containerName: string, devIdx: Int64, vdevIdx: Int64)

  // ---------------------------------------------------------------- names

  /** The name CreateMarkFile gives: pod UID, container, card index, vHCU index (-1 for a whole card). */
  function MarkName(uid: string, container: string, devIdx: int, vdevIdx: int): string {
    uid + "_" + container + "_" + Itoa(devIdx) + "_" + Itoa(vdevIdx)
  }

  /** The start of every mark name of a container. */
  function MarkPrefix(uid: string, container: string): string {
    uid + "_" + container + "_"
  }

  function ParseMarkFileName(name: string): Option<MarkInfo> {
    var parts := Split(name, "_");
    var n := |parts|;
    if n < 4 then None
    else if !Atoi(parts[n - 1]).ok || !Atoi(parts[n - 2]).ok then None
    else Some(MarkInfo(parts[0], Join(parts[1..n - 2], "_"), Atoi(parts[n - 2]).value, Atoi(parts[n - 1]).value))
  }

  lemma MarkNameParts(uid: string, container: string, devIdx: int, vdevIdx: int)
    requires '_' !in uid
    ensures Split(MarkName(uid, container, devIdx, vdevIdx), "_")
            == [uid] + Split(container, "_") + [Itoa(devIdx), Itoa(vdevIdx)]
  {
    hide Split, Itoa;
    SplitName(uid, container, Itoa(devIdx), Itoa(vdevIdx));
  }

  /** Whatever the container is called, parsing returns what was printed. */
  lemma MarkNameRoundTrip(uid: string, container: string, devIdx: Int64, vdevIdx: Int64)
    requires '_' !in uid
    ensures ParseMarkFileName(MarkName(uid, container, devIdx, vdevIdx))
            == Some(MarkInfo(uid, container, devIdx, vdevIdx))
  {
    hide Split, Itoa, Join, ParseInt, MarkName;
    MarkNameParts(uid, container, devIdx, vdevIdx);
    var parts := Split(MarkName(uid, container, devIdx, vdevIdx), "_");
    assert parts[1..|parts| - 2] == Split(container, "_");
    JoinOfSplit(container, "_");
    ParseOfItoa(devIdx, 64);
    ParseOfItoa(vdevIdx, 64);
  }

  lemma MarkNameInjective(uid: string, container: string, dev: Int64, vdev: Int64,
                          uid': string, container': string, dev': Int64, vdev': Int64)
    requires '_' !in uid && '_' !in uid'
    requires MarkName(uid, container, dev, vdev) == MarkName(uid', container', dev', vdev')
    ensures uid == uid' && container == container' && dev == dev' && vdev == vdev'
  {
    MarkNameRoundTrip(uid, container, dev, vdev);
    MarkNameRoundTrip(uid', container', dev', vdev');
  }

  /** A prefix that ends in a character which `b` and `d` do not hold ends inside `a`, behind it, or behind `b`. */
  lemma PrefixEndsAtSeparator(p: string, a: string, b: string, d: string, c: char)
    requires c !in b && c !in d
    ensures HasPrefix(a + [c] + b + [c] + d, p + [c]) <==> HasPrefix(a, p + [c]) || p == a || p == a + [c] + b
  {
    var s := a + [c] + b + [c] + d;
    if HasPrefix(s, p + [c]) {
      assert s[|p|] == (p + [c])[|p|] == c && p == s[..|p|];
      assert forall j :: |a| < j < |s| && s[j] == c ==> j == |a| + 1 + |b|;
      if |p| < |a| {
        assert a[..|p| + 1] == s[..|p| + 1] == p + [c];
      }
    }
    assert p == a ==> s[..|p| + 1] == p + [c];
    assert p == a + [c] + b ==> s[..|p| + 1] == p + [c];
    assert HasPrefix(a, p + [c]) ==> s[..|p| + 1] == a[..|p| + 1];
  }

  /**
    Exactly which names are marks and what is read from them: three separators around a UID, a
    container name that may hold separators itself, and two numbers.
   */
  lemma ParsesExactly(name: string, info: MarkInfo)
    ensures ParseMarkFileName(name) == Some(info) <==>
              '_' !in info.podUID
              && exists dev, vdev ::
                   && '_' !in dev && '_' !in vdev
                   && Atoi(dev) == Parsed(info.devIdx, true) && Atoi(vdev) == Parsed(info.vdevIdx, true)
                   && name == info.podUID + "_" + info.containerName + "_" + dev + "_" + vdev
  {
    hide Split, Join, ParseInt;
    if ParseMarkFileName(name) == Some(info) {
      var parts := Split(name, "_");
      var n := |parts|;
      var dev, vdev := parts[n - 2], parts[n - 1];
      SplitPieces(name, '_');
      JoinOfSplit(name, "_");
      assert parts[0] in parts && dev in parts && vdev in parts;
      JoinEnds(parts, "_");
      assert name == info.podUID + "_" + info.containerName + "_" + dev + "_" + vdev;
    }
    if '_' !in info.podUID {
      forall dev, vdev |
        '_' !in dev && '_' !in vdev && Atoi(dev) == Parsed(info.devIdx, true)
        && Atoi(vdev) == Parsed(info.vdevIdx, true)
        && name == info.podUID + "_" + info.containerName + "_" + dev + "_" + vdev
        ensures ParseMarkFileName(name) == Some(info)
      {
        SplitName(info.podUID, info.containerName, dev, vdev);
        JoinOfSplit(info.containerName, "_");
        var parts := Split(name, "_");
        assert parts[1..|parts| - 2] == Split(info.containerName, "_");
      }
    }
  }

  lemma SplitName(uid: string, container: string, dev: string, vdev: string)
    requires '_' !in uid && '_' !in dev && '_' !in vdev
    ensures Split(uid + "_" + container + "_" + dev + "_" + vdev, "_") == [uid] + Split(container, "_") + [dev, vdev]
  {
    hide Split;
    SplitFirst(uid, '_', container + "_" + (dev + "_" + vdev));
    SplitAppend(container, '_', dev + "_" + vdev);
    SplitFirst(dev, '_', vdev);
    SplitWithout(vdev, '_');
    assert uid + "_" + container + "_" + dev + "_" + vdev == uid + "_" + (container + "_" + (dev + "_" + vdev));
  }

  lemma JoinEnds(parts: seq<string>, sep: string)
    requires |parts| >= 4
    ensures var n := |parts|;
            Join(parts, sep) == parts[0] + sep + Join(parts[1..n - 2], sep) + sep + parts[n - 2] + sep + parts[n - 1]
  {
    hide Join;
    var n := |parts|;
    var rest := parts[1..];
    JoinSnoc(rest[..n - 2], rest[n - 2], sep);
    JoinSnoc(rest[..n - 3], rest[n - 3], sep);
    assert rest == rest[..n - 2] + [rest[n - 2]] && rest[..n - 2] == rest[..n - 3] + [rest[n - 3]];
    assert rest[..n - 3] == parts[1..n - 2];
    JoinFirst(parts, sep);
    assert Join(parts, sep) == parts[0] + sep + (Join(parts[1..n - 2], sep) + sep + parts[n - 2] + sep + parts[n - 1]);
  }

  lemma JoinFirst(parts: seq<string>, sep: string)
    requires |parts| > 1
    ensures Join(parts, sep) == parts[0] + sep + Join(parts[1..], sep)
  {
  }

  /**
    What the raw prefix test decides on printed names, whatever the containers are called. The pod
    must match, and one of three: the container is the wanted one; its name goes on after the
    wanted one with an underscore; or the wanted name is its name, an underscore and the card.
   */
  lemma PrefixTest(uid: string, container: string, uid': string, container': string, devIdx: int, vdevIdx: int)
    requires '_' !in uid && '_' !in uid'
    ensures HasPrefix(MarkName(uid', container', devIdx, vdevIdx), MarkPrefix(uid, container)) <==>
              && uid == uid'
              && (|| container == container'
                  || HasPrefix(container', container + "_")
                  || container == container' + "_" + Itoa(devIdx))
  {
    hide Split, Itoa;
    var name, prefix := MarkName(uid', container', devIdx, vdevIdx), MarkPrefix(uid, container);
    var tail := container' + "_" + Itoa(devIdx) + "_" + Itoa(vdevIdx);
    assert name == uid' + "_" + tail && prefix == uid + "_" + (container + "_");
    if HasPrefix(name, prefix) {
      var rest := name[|prefix|..];
      assert name == uid + "_" + (container + "_" + rest);
      SplitFirst(uid, '_', container + "_" + rest);
      SplitFirst(uid', '_', tail);
      assert uid == Split(name, "_")[0] == uid';
    }
    if uid == uid' {
      SamePrefix(uid + "_", tail, container + "_");
      assert (uid + "_") + tail == name && (uid + "_") + (container + "_") == prefix;
      PrefixEndsAtSeparator(container, container', Itoa(devIdx), Itoa(vdevIdx), '_');
      assert tail == container' + ['_'] + Itoa(devIdx) + ['_'] + Itoa(vdevIdx);
      assert HasPrefix(tail, container + "_") <==>
               || HasPrefix(container', container + "_")
               || container == container'
               || container == container' + "_" + Itoa(devIdx);
    }
  }

  lemma SamePrefix(a: string, s: string, p: string)
    ensures HasPrefix(a + s, a + p) <==> HasPrefix(s, p)
  {
    if HasPrefix(a + s, a + p) {
      assert s[..|p|] == (a + s)[|a|..|a| + |p|] == (a + p)[|a|..] == p;
    }
    if HasPrefix(s, p) {
      assert (a + s)[..|a| + |p|] == a + s[..|p|];
    }
  }

  lemma PrefixChars(s: string, prefix: string)
    requires HasPrefix(s, prefix)
    ensures forall c :: c in prefix ==> c in s
  {
  }

  /** So without underscores in container names the prefix test and the parser agree. */
  lemma PrefixTestPlain(uid: string, container: string, uid': string, container': string, dev: Int64, vdev: Int64)
    requires '_' !in uid && '_' !in container && '_' !in uid' && '_' !in container'
    ensures var name := MarkName(uid', container', dev, vdev);
            && ParseMarkFileName(name).Some?
            && (HasPrefix(name, MarkPrefix(uid, container)) <==>
                ParseMarkFileName(name).value.podUID == uid && ParseMarkFileName(name).value.containerName == container)
  {
    hide Itoa, ParseMarkFileName, MarkName;
    PrefixTest(uid, container, uid', container', dev, vdev);
    MarkNameRoundTrip(uid', container', dev, vdev);
    if HasPrefix(container', container + "_") {
      PrefixChars(container', container + "_");
      assert false;
    }
    if container == container' + "_" + Itoa(dev) {
      PrefixChars(container, container' + "_");
      assert false;
    }
  }

  /**
    With them it does not, in two ways: the mark of container "a_b" also passes for container "a",
    and the mark of container "a" on card 0 passes for container "a_0".
   */
  lemma PrefixTestConfusesNames()
    ensures var name := MarkName("u", "a_b", 0, 1);
            HasPrefix(name, MarkPrefix("u", "a")) && ParseMarkFileName(name) == Some(MarkInfo("u", "a_b", 0, 1))
    ensures var name := MarkName("u", "a", 0, 1);
            HasPrefix(name, MarkPrefix("u", "a_0")) && ParseMarkFileName(name) == Some(MarkInfo("u", "a", 0, 1))
  {
    hide ParseMarkFileName, MarkName;
    MarkNameRoundTrip("u", "a_b", 0, 1);
    MarkNameRoundTrip("u", "a", 0, 1);
    PrefixTest("u", "a", "u", "a_b", 0, 1);
    assert Itoa(0) == "0";
    PrefixTest("u", "a_0", "u", "a", 0, 1);
  }

  // ---------------------------------------------------------------- lookups

  function FindStatus(statuses: seq<ContainerStatus>, name: string): Option<ContainerStatus> {
    if statuses == [] then None
    else if statuses[0].name == name then Some(statuses[0])
    else FindStatus(statuses[1..], name)
  }

  /** The entry at position i is the first of that name. */
  predicate StatusAt(statuses: seq<ContainerStatus>, name: string, i: int) {
    0 <= i < |statuses| && statuses[i].name == name && forall j :: 0 <= j < i ==> statuses[j].name != name
  }

  predicate ContainerAt(containers: seq<Container>, name: string, i: int) {
    0 <= i < |containers| && containers[i].name == name && forall j :: 0 <= j < i ==> containers[j].name != name
  }

  lemma {:induction false} FindStatusFinds(statuses: seq<ContainerStatus>, name: string)
    ensures forall i :: StatusAt(statuses, name, i) ==> FindStatus(statuses, name) == Some(statuses[i])
    ensures FindStatus(statuses, name).Some? ==> exists i :: StatusAt(statuses, name, i)
    ensures FindStatus(statuses, name).None? ==> forall i :: 0 <= i < |statuses| ==> statuses[i].name != name
  {
    if statuses != [] {
      var rest := statuses[1..];
      FindStatusFinds(rest, name);
      if statuses[0].name == name {
        assert StatusAt(statuses, name, 0);
      } else {
        forall i | StatusAt(statuses, name, i) ensures StatusAt(rest, name, i - 1) {
          assert forall j :: 0 <= j < i - 1 ==> rest[j] == statuses[j + 1];
        }
        if FindStatus(statuses, name).Some? {
          var i :| StatusAt(rest, name, i);
          assert forall j :: 0 < j < i + 1 ==> statuses[j] == rest[j - 1];
          assert StatusAt(statuses, name, i + 1);
        }
      }
    }
  }

  lemma {:induction false} FindContainerFinds(containers: seq<Container>, name: string)
    ensures forall i :: ContainerAt(containers, name, i) ==> FindContainer(containers, name) == Some(containers[i])
    ensures FindContainer(containers, name).Some? ==> exists i :: ContainerAt(containers, name, i)
    ensures FindContainer(containers, name).None? ==> forall i :: 0 <= i < |containers| ==> containers[i].name != name
  {
    if containers != [] {
      var rest := containers[1..];
      FindContainerFinds(rest, name);
      if containers[0].name == name {
        assert ContainerAt(containers, name, 0);
      } else {
        forall i | ContainerAt(containers, name, i) ensures ContainerAt(rest, name, i - 1) {
          assert forall j :: 0 <= j < i - 1 ==> rest[j] == containers[j + 1];
        }
        if FindContainer(containers, name).Some? {
          var i :| ContainerAt(rest, name, i);
          assert forall j :: 0 < j < i + 1 ==> containers[j] == rest[j - 1];
          assert ContainerAt(containers, name, i + 1);
        }
      }
    }
  }

  method FindContainerStatus(statuses: seq<ContainerStatus>, name: string) returns (r: Option<ContainerStatus>)
    ensures r == FindStatus(statuses, name)
    ensures r.Some? ==> exists i :: StatusAt(statuses, name, i) && r.value == statuses[i]
    ensures r.None? ==> forall i :: 0 <= i < |statuses| ==> statuses[i].name != name
  {
    FindStatusFinds(statuses, name);
    assert statuses[0..] == statuses;
    for i := 0 to |statuses|
      invariant FindStatus(statuses, name) == FindStatus(statuses[i..], name)
    {
      assert statuses[i..][1..] == statuses[i + 1..];
      if statuses[i].name == name {
        return Some(statuses[i]);
      }
    }
    return None;
  }

  function FindContainer(containers: seq<Container>, name: string): Option<Container> {
    if containers == [] then None
    else if containers[0].name == name then Some(containers[0])
    else FindContainer(containers[1..], name)
  }

  method InitContainerByName(pod: Pod, name: string) returns (r: Option<Container>)
    ensures r == FindContainer(pod.spec.initContainers, name)
    ensures var inits := pod.spec.initContainers;
            && (r.Some? ==> exists i :: ContainerAt(inits, name, i) && r.value == inits[i])
            && (r.None? ==> forall i :: 0 <= i < |inits| ==> inits[i].name != name)
  {
    FindContainerFinds(pod.spec.initContainers, name);
    var inits := pod.spec.initContainers;
    assert inits[0..] == inits;
    for i := 0 to |inits|
      invariant FindContainer(inits, name) == FindContainer(inits[i..], name)
    {
      assert inits[i..][1..] == inits[i + 1..];
      if inits[i].name == name {
        return Some(inits[i]);
      }
    }
    return None;
  }

  predicate IsRestartable(c: Option<Container>) {
    c.Some? && c.value.restartPolicy == Some(RESTART_ALWAYS)
  }

  /** A classic init container: it runs once and is then done. */
  predicate IsClassicInit(pod: Pod, name: string) {
    var init := FindContainer(pod.spec.initContainers, name);
    init.Some? && !IsRestartable(init)
  }

  predicate IsTerminated(statuses: seq<ContainerStatus>, name: string) {
    var st := FindStatus(statuses, name);
    st.Some? && st.value.terminated
  }

  // ---------------------------------------------------------------- decisions

  predicate StillNeeded(pod: Option<Pod>, name: string) {
    if pod.None? then false
    else if Terminal(pod.value.phase) then false
    else if FindContainer(pod.value.spec.initContainers, name).Some? then
      if IsRestartable(FindContainer(pod.value.spec.initContainers, name)) then true
      else !IsTerminated(pod.value.initStatuses, name)
    else true
  }

  /**
    The container is done for good: its pod has ended, or it is an init container that does not
    restart and is reported as terminated.
   */
  ghost predicate Finished(pod: Pod, name: string) {
    || pod.phase == Succeeded
    || pod.phase == Failed
    || exists i, j ::
         && ContainerAt(pod.spec.initContainers, name, i)
         && pod.spec.initContainers[i].restartPolicy != Some("Always")
         && StatusAt(pod.initStatuses, name, j) && pod.initStatuses[j].terminated
  }

  /** A mark is needed exactly until its pod is gone or its container is done. */
  lemma NeededUntilFinished(pod: Option<Pod>, name: string)
    ensures StillNeeded(pod, name) <==> pod.Some? && !Finished(pod.value, name)
  {
    if pod.Some? {
      var p := pod.value;
      FindContainerFinds(p.spec.initContainers, name);
      FindStatusFinds(p.initStatuses, name);
      if FindContainer(p.spec.initContainers, name).Some? && FindStatus(p.initStatuses, name).Some? {
        var i :| ContainerAt(p.spec.initContainers, name, i);
        var j :| StatusAt(p.initStatuses, name, j);
        assert FindContainer(p.spec.initContainers, name) == Some(p.spec.initContainers[i]);
        assert FindStatus(p.initStatuses, name) == Some(p.initStatuses[j]);
      }
    }
  }

  predicate IsVirtualLimit(resource: string, mem: string) {
    Contains(resource, "hygon.com") && Contains(resource, mem)
  }

  predicate RequestsVirtual(c: Container, mem: string) {
    exists name :: name in c.limits && IsVirtualLimit(name, mem) && c.limits[name] > 0
  }

  method ContainerRequestsVirtualHCU(c: Container, mem: string) returns (requests: bool)
    ensures requests == RequestsVirtual(c, mem)
    ensures requests <==>
              exists name :: name in c.limits && Contains(name, "hygon.com") && Contains(name, mem)
                && c.limits[name] > 0
  {
    hide Contains;
    var todo := c.limits.Keys;
    while todo != {}
      invariant todo <= c.limits.Keys
      invariant forall name :: name in c.limits && name !in todo ==> !(IsVirtualLimit(name, mem) && c.limits[name] > 0)
      decreases |todo|
    {
      var name :| name in todo;
      if Contains(name, "hygon.com") && Contains(name, mem) && c.limits[name] > 0 {
        return true;
      }
      todo := todo - {name};
    }
    return false;
  }

  predicate PodRequestsVirtual(pod: Pod, mem: string) {
    exists c :: c in AllPodContainers(pod) && RequestsVirtual(c, mem)
  }

  method RequestsVirtualHCU(pod: Pod, mem: string) returns (requests: bool)
    ensures requests == PodRequestsVirtual(pod, mem) == WantsVirtual(pod, mem)
  {
    hide RequestsVirtual, WantsVirtual;
    WantsExactly(pod, mem);
    var all := AllPodContainers(pod);
    for i := 0 to |all|
      invariant forall j :: 0 <= j < i ==> !RequestsVirtual(all[j], mem)
    {
      var r := ContainerRequestsVirtualHCU(all[i], mem);
      if r {
        return true;
      }
    }
    return false;
  }

  /** The container wants a vHCU, may not lose it yet, and no name in `marks` starts like its mark. */
  predicate LacksMark(pod: Pod, c: Container, mem: string, marks: set<string>) {
    && RequestsVirtual(c, mem)
    && StillNeeded(Some(pod), c.name)
    && forall name :: name in marks ==> !HasPrefix(name, MarkPrefix(pod.uid, c.name))
  }

  predicate MissingMark(pod: Pod, mem: string, marks: set<string>) {
    && (pod.phase == Running || pod.phase == Failed)
    && exists c :: c in AllPodContainers(pod) && LacksMark(pod, c, mem, marks)
  }

  /** A positive limit on a resource of the vendor that names the memory resource. */
  predicate LimitsVirtual(c: Container, mem: string) {
    exists name :: name in c.limits && Contains(name, "hygon.com") && Contains(name, mem) && c.limits[name] > 0
  }

  lemma LimitsExactly(c: Container, mem: string)
    ensures RequestsVirtual(c, mem) <==> LimitsVirtual(c, mem)
  {
    hide Contains;
    if RequestsVirtual(c, mem) {
      var name :| name in c.limits && IsVirtualLimit(name, mem) && c.limits[name] > 0;
      assert Contains(name, "hygon.com");
    }
    if LimitsVirtual(c, mem) {
      var name :| name in c.limits && Contains(name, "hygon.com") && Contains(name, mem) && c.limits[name] > 0;
      assert IsVirtualLimit(name, mem);
    }
  }

  /** A pod lacks a mark exactly if it runs and some container that wants a vHCU, and is not done, has none. */
  lemma MissingExactly(pod: Pod, mem: string, marks: set<string>)
    ensures MissingMark(pod, mem, marks) <==>
              && pod.phase == Running
              && exists c ::
                   && (c in pod.spec.initContainers || c in pod.spec.containers)
                   && LimitsVirtual(c, mem) && !Finished(pod, c.name)
                   && forall name :: name in marks ==> !HasPrefix(name, pod.uid + "_" + c.name + "_")
  {
    hide RequestsVirtual, StillNeeded, Finished, LimitsVirtual, HasPrefix;
    forall c: Container
      ensures c in AllPodContainers(pod) <==> c in pod.spec.initContainers || c in pod.spec.containers
      ensures LacksMark(pod, c, mem, marks) <==>
                && LimitsVirtual(c, mem) && !Finished(pod, c.name)
                && forall name :: name in marks ==> !HasPrefix(name, pod.uid + "_" + c.name + "_")
    {
      LimitsExactly(c, mem);
      NeededUntilFinished(Some(pod), c.name);
    }
    EndedIsFinished(pod);
  }

  lemma EndedIsFinished(pod: Pod)
    ensures pod.phase == Failed ==> forall name :: Finished(pod, name)
  {
  }

  method PodMissingRequiredMark(pod: Option<Pod>, mem: string, markNames: seq<string>) returns (missing: bool)
    ensures missing <==> pod.Some? && MissingMark(pod.value, mem, set name | name in markNames)
  {
    hide RequestsVirtual, StillNeeded, HasPrefix;
    if pod.None? {
      return false;
    }
    var p := pod.value;
    if p.phase != Running && p.phase != Failed {
      return false;
    }
    ghost var marks := set name | name in markNames;
    var all := p.spec.initContainers + p.spec.containers;
    for i := 0 to |all|
      invariant forall j :: 0 <= j < i ==> !LacksMark(p, all[j], mem, marks)
    {
      var c := all[i];
      var requests := ContainerRequestsVirtualHCU(c, mem);
      if requests && StillNeeded(Some(p), c.name) {
        var prefix := p.uid + "_" + c.name + "_";
        var found := false;
        for k := 0 to |markNames|
          invariant !found
          invariant forall j :: 0 <= j < k ==> !HasPrefix(markNames[j], prefix)
        {
          if HasPrefix(markNames[k], prefix) {
            found := true;
            assert markNames[k] in marks;
            break;
          }
        }
        if !found {
          assert LacksMark(p, c, mem, marks) && c in AllPodContainers(p);
          return true;
        }
      }
    }
    return false;
  }

  /** The status whose termination is news between two versions of a pod. */
  predicate NewlyDone(old': Pod, new': Pod, st: ContainerStatus) {
    && st.terminated
    && !IsRestartable(FindContainer(new'.spec.initContainers, st.name))
    && !IsTerminated(old'.initStatuses, st.name)
  }

  predicate TerminatedSince(old': Pod, new': Pod) {
    exists st :: st in new'.initStatuses && NewlyDone(old', new', st)
  }

  /**
    The i-th new status is terminated, its container is not a restartable init container, and the
    first old status of that name is missing or not terminated.
   */
  ghost predicate NewsAt(old': Pod, new': Pod, i: int) {
    && 0 <= i < |new'.initStatuses| && new'.initStatuses[i].terminated
    && var name, inits := new'.initStatuses[i].name, new'.spec.initContainers;
    && (forall k :: ContainerAt(inits, name, k) ==> inits[k].restartPolicy != Some("Always"))
    && (forall j :: StatusAt(old'.initStatuses, name, j) ==> !old'.initStatuses[j].terminated)
  }

  lemma NewlyDoneExactly(old': Pod, new': Pod, i: nat)
    requires i < |new'.initStatuses|
    ensures NewlyDone(old', new', new'.initStatuses[i]) <==> NewsAt(old', new', i)
  {
    var name := new'.initStatuses[i].name;
    FindContainerFinds(new'.spec.initContainers, name);
    FindStatusFinds(old'.initStatuses, name);
    if FindContainer(new'.spec.initContainers, name).Some? {
      var k :| ContainerAt(new'.spec.initContainers, name, k);
      assert FindContainer(new'.spec.initContainers, name) == Some(new'.spec.initContainers[k]);
    }
    if FindStatus(old'.initStatuses, name).Some? {
      var j :| StatusAt(old'.initStatuses, name, j);
      assert FindStatus(old'.initStatuses, name) == Some(old'.initStatuses[j]);
    }
  }

  lemma TerminatedSinceExactly(old': Pod, new': Pod)
    ensures TerminatedSince(old', new') <==> exists i :: NewsAt(old', new', i)
  {
    hide NewlyDone, NewsAt;
    if TerminatedSince(old', new') {
      var st :| st in new'.initStatuses && NewlyDone(old', new', st);
      var i :| 0 <= i < |new'.initStatuses| && new'.initStatuses[i] == st;
      NewlyDoneExactly(old', new', i);
    }
    if i :| NewsAt(old', new', i) {
      NewsIsStatus(old', new', i);
      NewlyDoneExactly(old', new', i);
      assert new'.initStatuses[i] in new'.initStatuses;
    }
  }

  lemma NewsIsStatus(old': Pod, new': Pod, i: int)
    requires NewsAt(old', new', i)
    ensures 0 <= i < |new'.initStatuses|
  {
  }

  /** Without a change of status there is nothing to do, however many init containers have finished. */
  lemma NoNewsNoReclaim(old': Pod, new': Pod)
    requires old'.initStatuses == new'.initStatuses
    requires forall i, j :: 0 <= i < j < |new'.initStatuses| ==> new'.initStatuses[i].name != new'.initStatuses[j].name
    ensures !TerminatedSince(old', new')
    ensures old'.phase == new'.phase ==> forall mem :: !HandlerReclaims(old', new', mem)
  {
    TerminatedSinceExactly(old', new');
    if i :| NewsAt(old', new', i) {
      assert StatusAt(old'.initStatuses, new'.initStatuses[i].name, i);
      assert false;
    }
  }

  method InitContainerTerminatedSince(oldPod: Option<Pod>, newPod: Option<Pod>) returns (done: bool)
    ensures done <==> oldPod.Some? && newPod.Some? && TerminatedSince(oldPod.value, newPod.value)
    ensures done <==> oldPod.Some? && newPod.Some? && exists i :: NewsAt(oldPod.value, newPod.value, i)
  {
    if oldPod.Some? && newPod.Some? {
      TerminatedSinceExactly(oldPod.value, newPod.value);
    }
    if oldPod.None? || newPod.None? {
      return false;
    }
    var statuses := newPod.value.initStatuses;
    for i := 0 to |statuses|
      invariant forall j :: 0 <= j < i ==> !NewlyDone(oldPod.value, newPod.value, statuses[j])
    {
      var st := statuses[i];
      if st.terminated {
        var init := InitContainerByName(newPod.value, st.name);
        if !IsRestartable(init) {
          var oldSt := FindContainerStatus(oldPod.value.initStatuses, st.name);
          if oldSt.None? || !oldSt.value.terminated {
            assert st in statuses && NewlyDone(oldPod.value, newPod.value, st);
            return true;
          }
        }
      }
    }
    return false;
  }

  // ---------------------------------------------------------------- what the decisions guarantee

  /** Only running pods can be found lacking a mark: a failed pod needs none. */
  lemma OnlyRunningPodsLackMarks(pod: Pod, mem: string, marks: set<string>)
    requires MissingMark(pod, mem, marks)
    ensures pod.phase == Running && PodRequestsVirtual(pod, mem)
  {
  }

  /** One update of a pod as Kubernetes allows it: fixed spec, final phases, finished classic inits. */
  ghost predicate Evolves(old': Pod, new': Pod) {
    && new'.uid == old'.uid && new'.spec == old'.spec
    && (Terminal(old'.phase) ==> Terminal(new'.phase))
    && forall name :: IsClassicInit(old', name) && IsTerminated(old'.initStatuses, name) ==>
         IsTerminated(new'.initStatuses, name)
  }

  /** Evolution of a UID: a pod may change or go; one that is gone stays gone. */
  ghost predicate UidEvolves(old': Option<Pod>, new': Option<Pod>) {
    if old'.None? then new'.None? else new'.Some? ==> Evolves(old'.value, new'.value)
  }

  /** Once a mark is not needed it never is again, over any number of updates. */
  lemma {:induction false} NotNeededIsStable(versions: seq<Option<Pod>>, name: string, i: nat, j: nat)
    requires i <= j < |versions|
    requires forall k :: 0 <= k < |versions| - 1 ==> UidEvolves(versions[k], versions[k + 1])
    requires !StillNeeded(versions[i], name)
    ensures !StillNeeded(versions[j], name)
    decreases j
  {
    if i < j {
      NotNeededIsStable(versions, name, i, j - 1);
      assert UidEvolves(versions[j - 1], versions[j - 1 + 1]);
      NotNeededStep(versions[j - 1], versions[j], name);
    }
  }

  lemma NotNeededStep(old': Option<Pod>, new': Option<Pod>, name: string)
    requires UidEvolves(old', new') && !StillNeeded(old', name)
    ensures !StillNeeded(new', name)
  {
    if old'.Some? && new'.Some? && !Terminal(old'.value.phase) {
      assert IsClassicInit(old'.value, name);
    }
  }

  /** The pod update handler reclaims: one of the pods asks for a vHCU and something finished. */
  predicate HandlerReclaims(old': Pod, new': Pod, mem: string) {
    && (PodRequestsVirtual(new', mem) || PodRequestsVirtual(old', mem))
    && ((old'.phase == Running && Terminal(new'.phase)) || TerminatedSince(old', new'))
  }

  /** The decision of the handler, on the two versions it is given. */
  method UpdateReclaims(oldPod: Pod, newPod: Pod, mem: string) returns (reclaims: bool)
    ensures reclaims == HandlerReclaims(oldPod, newPod, mem)
    ensures reclaims <==>
              && (WantsVirtual(newPod, mem) || WantsVirtual(oldPod, mem))
              && (|| (oldPod.phase == Running && (newPod.phase == Succeeded || newPod.phase == Failed))
                  || exists i :: NewsAt(oldPod, newPod, i))
  {
    hide PodRequestsVirtual, WantsVirtual, TerminatedSince, NewsAt;
    WantsExactly(newPod, mem);
    WantsExactly(oldPod, mem);
    var newRequests := RequestsVirtualHCU(newPod, mem);
    var oldRequests := RequestsVirtualHCU(oldPod, mem);
    if !newRequests && !oldRequests {
      return false;
    }
    var podTerminal := oldPod.phase == Running && (newPod.phase == Succeeded || newPod.phase == Failed);
    var initDone := InitContainerTerminatedSince(Some(oldPod), Some(newPod));
    if !podTerminal && !initDone {
      return false;
    }
    return true;
  }

  ghost predicate WantsVirtual(pod: Pod, mem: string) {
    exists c :: (c in pod.spec.initContainers || c in pod.spec.containers) && LimitsVirtual(c, mem)
  }

  lemma WantsExactly(pod: Pod, mem: string)
    ensures PodRequestsVirtual(pod, mem) <==> WantsVirtual(pod, mem)
  {
    hide RequestsVirtual, LimitsVirtual;
    forall c: Container
      ensures c in AllPodContainers(pod) <==> c in pod.spec.initContainers || c in pod.spec.containers
      ensures RequestsVirtual(c, mem) <==> LimitsVirtual(c, mem)
    {
      LimitsExactly(c, mem);
    }
  }

  lemma {:induction false} FoundStatus(statuses: seq<ContainerStatus>, name: string)
    requires FindStatus(statuses, name).Some?
    ensures FindStatus(statuses, name).value in statuses && FindStatus(statuses, name).value.name == name
  {
    if statuses[0].name != name {
      FoundStatus(statuses[1..], name);
    }
  }

  /**
    When a mark stops being needed between two versions of a pod, the handler reclaims if, and only
    if, the pod asks for a vHCU and did not end without having been seen Running, unless an init
    container finished in the same update.
   */
  lemma ReclaimEdge(old': Pod, new': Pod, mem: string, name: string)
    requires old'.spec == new'.spec
    requires StillNeeded(Some(old'), name) && !StillNeeded(Some(new'), name)
    ensures HandlerReclaims(old', new', mem) <==>
              && PodRequestsVirtual(new', mem)
              && (Terminal(new'.phase) ==> old'.phase == Running || TerminatedSince(old', new'))
  {
    hide RequestsVirtual;
    assert AllPodContainers(old') == AllPodContainers(new');
    if !Terminal(new'.phase) {
      FoundStatus(new'.initStatuses, name);
      assert NewlyDone(old', new', FindStatus(new'.initStatuses, name).value);
    }
  }

  /**
    Along any sequence of updates in which pods end only from Running, such a change is caught at
    some pair of versions if, and only if, the pod asks for a vHCU.
   */
  lemma {:induction false} NoMissedReclaim(versions: seq<Pod>, mem: string, name: string) returns (at: nat)
    requires |versions| >= 2
    requires forall i :: 0 <= i < |versions| ==> versions[i].spec == versions[0].spec
    requires forall i :: 0 <= i < |versions| - 1 ==>
               (Terminal(versions[i + 1].phase) && !Terminal(versions[i].phase) ==> versions[i].phase == Running)
    requires StillNeeded(Some(versions[0]), name) && !StillNeeded(Some(versions[|versions| - 1]), name)
    ensures at + 1 < |versions|
    ensures StillNeeded(Some(versions[at]), name) && !StillNeeded(Some(versions[at + 1]), name)
    ensures HandlerReclaims(versions[at], versions[at + 1], mem) <==> PodRequestsVirtual(versions[0], mem)
  {
    hide RequestsVirtual;
    var n := |versions|;
    assert forall i :: 0 <= i < n ==> AllPodContainers(versions[i]) == AllPodContainers(versions[0]);
    if StillNeeded(Some(versions[n - 2]), name) {
      at := n - 2;
      ReclaimEdge(versions[n - 2], versions[n - 1], mem, name);
    } else {
      at := NoMissedReclaim(versions[..n - 1], mem, name);
    }
  }

  /** One missed family, by example: a pending pod that fails before it ever runs. */
  lemma MissedWhenNeverRunning(pod: Pod, mem: string, name: string)
    requires pod.phase == Pending && pod.initStatuses == []
    ensures var failed := pod.(phase := Failed);
            && Evolves(pod, failed)
            && StillNeeded(Some(pod), name) && !StillNeeded(Some(failed), name)
            && !HandlerReclaims(pod, failed, mem)
  {
  }
}
