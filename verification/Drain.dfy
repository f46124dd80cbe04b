/**
  The consumption of the annotation: each Allocate call takes the first segment that still
  holds devices, blanks it and writes the whole layout back.
 */
module Drain {
  import opened GoStrings
  import opened Kube
  import opened PodDevices
  import opened Alignment

  /** The only key of the checklist: the device kind the plugin serves. */
  const HCU := "HCU"

  function GetPodContainerByIndex(pod: Pod, idx: int): (r: Result<Container>)
    ensures r.Ok? <==> 0 <= idx < |pod.spec.initContainers| + |pod.spec.containers|
    ensures 0 <= idx < |pod.spec.initContainers| ==> r.value == pod.spec.initContainers[idx]
    ensures |pod.spec.initContainers| <= idx < |pod.spec.initContainers| + |pod.spec.containers| ==>
              r.value == pod.spec.containers[idx - |pod.spec.initContainers|]
  {
    var nInit, nApp := |pod.spec.initContainers|, |pod.spec.containers|;
    if idx < 0 || idx >= nInit + nApp then Err(NotFound)
    else if idx < nInit then Ok(pod.spec.initContainers[idx])
    else Ok(pod.spec.containers[idx - nInit])
  }

  /** Position of the first segment that holds devices, or the length when none does. */
  function FirstSlot(pd: Layout): (k: nat)
    ensures k <= |pd|
    ensures forall j :: 0 <= j < k ==> pd[j] == []
    ensures k < |pd| ==> pd[k] != []
  {
    if pd == [] then 0 else if pd[0] != [] then 0 else FirstSlot(pd[1..]) + 1
  }

  function Blank(pd: Layout): (r: Layout)
    ensures |r| == |pd|
  {
    var k := FirstSlot(pd);
    if k < |pd| then pd[k := []] else pd
  }

  /** The layout that the pod's annotation stands for, one segment per container. */
  function PodLayout(checklist: map<string, string>, dtype: string, pod: Pod): (r: Result<Layout>)
    ensures r.Ok? ==> |r.value| == |AllPodContainers(pod)|
    ensures r.Ok? ==> dtype in checklist && checklist[dtype] in pod.annotations
  {
    match ReadPodDevices(checklist, pod.annotations)
    case Err(e) => Err(e)
    case Ok(pdevices) => if dtype !in pdevices then Err(NotFound) else Expand(pdevices[dtype], AllPodContainers(pod))
  }

  /** Where the layout of a pod comes from, and each way in which there is none. */
  lemma PodLayoutExactly(key: string, pod: Pod)
    ensures var r, annos := PodLayout(map["HCU" := key], "HCU", pod), pod.annotations;
            && (key !in annos ==> r == Err(NotFound))
            && (key in annos && ReadLayout(annos[key]).Err? ==> r == Err(FormatError))
            && (key in annos && ReadLayout(annos[key]).Ok? ==>
                  r == Expand(ReadLayout(annos[key]).value, AllPodContainers(pod)))
  {
    hide ReadLayout, Expand;
    var checklist := map["HCU" := key];
    assert "HCU" in checklist && checklist["HCU"] == key;
  }

  function NextRequest(checklist: map<string, string>, dtype: string, pod: Pod): (r: Result<(Container, Segment)>)
    ensures r.Ok? ==> r.value.1 != []
  {
    match PodLayout(checklist, dtype, pod)
    case Err(e) => Err(e)
    case Ok(pd) =>
      var k := FirstSlot(pd);
      if k == |pd| then Err(NotFound) else Ok((AllPodContainers(pod)[k], pd[k]))
  }

  /** The text that replaces the annotation once the next request has been taken. */
  function NextAnnotation(checklist: map<string, string>, dtype: string, pod: Pod): Result<string> {
    match PodLayout(checklist, dtype, pod)
    case Err(e) => Err(e)
    case Ok(pd) => Ok(LayoutText(Blank(pd)))
  }

  method GetNextDeviceRequest(checklist: map<string, string>, dtype: string, p: Pod)
    returns (r: Result<(Container, Segment)>)
    ensures r == NextRequest(checklist, dtype, p)
  {
    hide Expand, ReadPodDevices;
    var pdevices := DecodePodDevices(checklist, p.annotations);
    if pdevices.Err? {
      return Err(pdevices.error);
    }
    if dtype !in pdevices.value {
      return Err(NotFound);
    }
    var pd := ExpandPodDeviceSegments(pdevices.value[dtype], p);
    if pd.Err? {
      return Err(pd.error);
    }
    assert PodLayout(checklist, dtype, p) == pd;
    for ctridx := 0 to |pd.value|
      invariant forall j :: 0 <= j < ctridx ==> pd.value[j] == []
    {
      if |pd.value[ctridx]| != 0 {
        var ctr := GetPodContainerByIndex(p, ctridx);
        if ctr.Err? {
          assert false;
        }
        FirstSlotUnique(pd.value, ctridx);
        return Ok((ctr.value, pd.value[ctridx]));
      }
    }
    FirstSlotUnique(pd.value, |pd.value|);
    return Err(NotFound);
  }

  method EraseFirstDeviceSegment(pd: Layout) returns (res: Layout)
    ensures res == Blank(pd)
  {
    res := [];
    var found := false;
    for i := 0 to |pd|
      invariant |res| == i
      invariant found <==> FirstSlot(pd) < i
      invariant forall j :: 0 <= j < i ==> res[j] == if j == FirstSlot(pd) then [] else pd[j]
    {
      var val := pd[i];
      if found {
        res := res + [val];
      } else if |val| > 0 {
        found := true;
        res := res + [[]];
      } else {
        res := res + [val];
      }
    }
  }

  /** Returns the annotation to patch into the pod; patching is up to the caller. */
  method EraseNextDeviceType(checklist: map<string, string>, dtype: string, p: Pod)
    returns (r: Result<string>)
    ensures r == NextAnnotation(checklist, dtype, p)
  {
    var pdevices := DecodePodDevices(checklist, p.annotations);
    if pdevices.Err? {
      return Err(pdevices.error);
    }
    if dtype !in pdevices.value {
      return Err(NotFound);
    }
    var pd := ExpandPodDeviceSegments(pdevices.value[dtype], p);
    if pd.Err? {
      return Err(pd.error);
    }
    assert PodLayout(checklist, dtype, p) == pd;
    var res := EraseFirstDeviceSegment(pd.value);
    var text := EncodePodSingleDevice(res);
    return Ok(text);
  }

  // ---------------------------------------------------------------- one run of the protocol

  function Patched(pod: Pod, key: string, text: string): Pod {
    pod.(annotations := pod.annotations[key := text])
  }

  /** The pod after `k` calls that each took a request and wrote the annotation back. */
  function Drained(key: string, pod: Pod, k: nat): Pod {
    if k == 0 then pod
    else
      var p := Drained(key, pod, k - 1);
      match NextAnnotation(map[HCU := key], HCU, p)
      case Err(e) => p
      case Ok(text) => Patched(p, key, text)
  }

  /** The layout with its first `k` device segments blanked. */
  function BlankFirst(layout: Layout, k: nat): (r: Layout)
    ensures |r| == |layout|
  {
    seq(|layout|, i requires 0 <= i < |layout| => if Rank(layout, i) < k then [] else layout[i])
  }

  /** Position of the k-th segment that holds devices. */
  function Slot(layout: Layout, k: nat): (i: nat)
    requires k < |NonEmpty(layout)|
    ensures i < |layout| && layout[i] != [] && Rank(layout, i) == k && NonEmpty(layout)[k] == layout[i]
  {
    var n := |layout| - 1;
    if k < |NonEmpty(layout[..n])| then
      var i := Slot(layout[..n], k);
      assert layout[..n][..i] == layout[..i];
      i
    else n
  }

  lemma FirstSlotUnique(pd: Layout, k: nat)
    requires k <= |pd| && (forall j :: 0 <= j < k ==> pd[j] == []) && (k < |pd| ==> pd[k] != [])
    ensures FirstSlot(pd) == k
  {
  }

  /** After k steps the first device segment is the k-th of the original layout. */
  lemma FirstOfBlanked(layout: Layout, k: nat)
    requires k <= |NonEmpty(layout)|
    ensures FirstSlot(BlankFirst(layout, k)) == if k < |NonEmpty(layout)| then Slot(layout, k) else |layout|
  {
    hide NonEmpty, FirstSlot, Rank, Slot;
    var at := if k < |NonEmpty(layout)| then Slot(layout, k) else |layout|;
    assert at < |layout| ==> Rank(layout, at) == k && layout[at] != [];
    forall j | 0 <= j < at ensures BlankFirst(layout, k)[j] == [] {
      RankBelow(layout, j, at);
    }
    FirstSlotUnique(BlankFirst(layout, k), at);
  }

  lemma RankBelow(layout: Layout, j: nat, i: nat)
    requires j < i <= |layout|
    ensures layout[j] == [] || Rank(layout, j) < Rank(layout, i)
    ensures Rank(layout, |layout|) == |NonEmpty(layout)|
  {
    RankGrows(layout, j, i);
    assert layout[..|layout|] == layout;
  }

  lemma BlankStep(layout: Layout, k: nat)
    requires k < |NonEmpty(layout)|
    ensures Blank(BlankFirst(layout, k)) == BlankFirst(layout, k + 1)
  {
    hide NonEmpty, FirstSlot, Rank, Slot;
    var i := Slot(layout, k);
    FirstOfBlanked(layout, k);
    forall j | 0 <= j < |layout|
      ensures Blank(BlankFirst(layout, k))[j] == BlankFirst(layout, k + 1)[j]
    {
      if j < i {
        RankBelow(layout, j, i);
      } else if i < j {
        RankBelow(layout, i, j);
      }
    }
  }

  lemma BlankedCompletely(layout: Layout)
    ensures BlankFirst(layout, |NonEmpty(layout)|) == seq(|layout|, _ => [])
    ensures BlankFirst(layout, 0) == layout
  {
    hide NonEmpty, Rank;
    forall j | 0 <= j < |layout| ensures BlankFirst(layout, |NonEmpty(layout)|)[j] == [] {
      RankBelow(layout, j, |layout|);
    }
  }

  // ---------------------------------------------------------------- decoding what was written

  lemma ReadSingle(key: string, annos: map<string, string>, pd: Layout)
    requires key in annos && ReadLayout(annos[key]) == Ok(pd)
    ensures ReadPodDevices(map[HCU := key], annos) == Ok(map[HCU := pd])
  {
    hide ReadLayout;
    var checklist := map[HCU := key];
    assert HCU in checklist;
    assert (map id | id in checklist && checklist[id] in annos :: ReadLayout(annos[checklist[id]]).value)
        == map[HCU := pd];
  }

  lemma SameText(d: ContainerDevice)
    ensures DeviceText(Stored(d)) == DeviceText(d)
  {
  }

  lemma TextOfStored(pd: Layout)
    ensures LayoutText(StoredLayout(pd)) == LayoutText(pd)
    ensures Clean(pd) ==> Clean(StoredLayout(pd))
    ensures StoredLayout(StoredLayout(pd)) == StoredLayout(pd)
  {
    hide DelimiterFree, Join, DeviceText;
    assert forall d :: DeviceText(Stored(d)) == DeviceText(d) by {
      forall d ensures DeviceText(Stored(d)) == DeviceText(d) {
        SameText(d);
      }
    }
    forall i | 0 <= i < |pd| ensures SegmentText(StoredLayout(pd)[i]) == SegmentText(pd[i]) {
      assert DeviceTexts(StoredSegment(pd[i])) == DeviceTexts(pd[i]);
    }
    forall i | 0 <= i < |pd| ensures StoredLayout(StoredLayout(pd))[i] == StoredLayout(pd)[i] {
      assert StoredSegment(StoredSegment(pd[i])) == StoredSegment(pd[i]);
    }
    assert SegmentTexts(StoredLayout(pd)) == SegmentTexts(pd);
    if Clean(pd) {
      forall cd, d | cd in StoredLayout(pd) && d in cd ensures DelimiterFree(d.uuid) && DelimiterFree(d.devType) {
        var i :| 0 <= i < |pd| && cd == StoredSegment(pd[i]);
        var j :| 0 <= j < |cd| && d == Stored(pd[i][j]);
        assert pd[i] in pd && pd[i][j] in pd[i];
      }
    }
  }

  lemma {:induction false} StoredOmits(sub: Layout, layout: Layout)
    requires OmitsEmpty(sub, layout)
    ensures OmitsEmpty(StoredLayout(sub), StoredLayout(layout))
    ensures Clean(layout) ==> Clean(sub)
  {
    if layout != [] {
      var n := |layout| - 1;
      assert StoredLayout(layout)[..n] == StoredLayout(layout[..n]);
      if sub != [] && sub[|sub| - 1] == layout[n] && OmitsEmpty(sub[..|sub| - 1], layout[..n]) {
        StoredOmits(sub[..|sub| - 1], layout[..n]);
        assert StoredLayout(sub)[..|sub| - 1] == StoredLayout(sub[..|sub| - 1]);
        assert sub == sub[..|sub| - 1] + [sub[|sub| - 1]];
      } else {
        StoredOmits(sub, layout[..n]);
      }
    }
  }

  /** A pod annotated with a layout, less some of its empty segments, is read as that layout. */
  lemma ReadBack(key: string, pod: Pod, sub: Layout, layout: Layout)
    requires key in pod.annotations && pod.annotations[key] == LayoutText(sub)
    requires Clean(layout) && layout != [] && OmitsEmpty(sub, layout)
    requires Aligned(layout, AllPodContainers(pod))
    ensures PodLayout(map[HCU := key], HCU, pod) == Ok(StoredLayout(layout))
  {
    hide ReadLayout, OmitsEmpty, Expand, RequestsHygon, ReadPodDevices, Clean;
    StoredOmits(sub, layout);
    LayoutRoundTrip(sub);
    ReadSingle(key, pod.annotations, StoredLayout(sub));
    AlignmentReconstructs(StoredLayout(sub), StoredLayout(layout), AllPodContainers(pod));
  }

  /** A pod annotated with a full layout is read as it stands. */
  lemma ReadBackFull(key: string, pod: Pod, layout: Layout)
    requires key in pod.annotations && pod.annotations[key] == LayoutText(layout)
    requires Clean(layout) && layout != [] && |layout| == |AllPodContainers(pod)|
    ensures PodLayout(map[HCU := key], HCU, pod) == Ok(StoredLayout(layout))
  {
    LayoutRoundTrip(layout);
    ReadSingle(key, pod.annotations, StoredLayout(layout));
  }

  lemma CleanBlanked(layout: Layout, k: nat)
    requires Clean(layout)
    ensures Clean(BlankFirst(layout, k)) && StoredLayout(BlankFirst(layout, k)) == BlankFirst(StoredLayout(layout), k)
  {
    forall i | 0 <= i <= |layout| ensures Rank(StoredLayout(layout), i) == Rank(layout, i) {
      StoredRank(layout, i);
    }
    forall cd, d | cd in BlankFirst(layout, k) && d in cd ensures cd in layout {
      var i :| 0 <= i < |layout| && cd == BlankFirst(layout, k)[i];
    }
  }

  lemma {:induction false} StoredRank(layout: Layout, i: nat)
    requires i <= |layout|
    ensures Rank(StoredLayout(layout), i) == Rank(layout, i)
  {
    if i > 0 {
      StoredRank(layout, i - 1);
      RankStep(layout, i - 1);
      RankStep(StoredLayout(layout), i - 1);
    }
  }

  lemma {:induction false} DrainedReads(key: string, pod: Pod, sub: Layout, layout: Layout, k: nat)
    requires key in pod.annotations && pod.annotations[key] == LayoutText(sub)
    requires Clean(layout) && layout != [] && OmitsEmpty(sub, layout)
    requires Aligned(layout, AllPodContainers(pod))
    requires k <= |NonEmpty(layout)|
    ensures var p := Drained(key, pod, k);
            && key in p.annotations && p.spec == pod.spec
            && PodLayout(map[HCU := key], HCU, p) == Ok(BlankFirst(StoredLayout(layout), k))
            && (k > 0 ==> p.annotations[key] == LayoutText(BlankFirst(layout, k)))
  {
    hide PodLayout, LayoutText, Clean, Blank, NonEmpty, Rank, OmitsEmpty, BlankFirst, RequestsHygon;
    if k == 0 {
      ReadBack(key, pod, sub, layout);
      BlankedCompletely(StoredLayout(layout));
    } else {
      DrainedReads(key, pod, sub, layout, k - 1);
      var p := Drained(key, pod, k - 1);
      var next := BlankFirst(layout, k);
      StoredCount(layout);
      BlankStep(StoredLayout(layout), k - 1);
      CleanBlanked(layout, k);
      TextOfStored(next);
      ReadBackFull(key, Patched(p, key, LayoutText(next)), next);
    }
  }

  lemma StoredCount(layout: Layout)
    ensures |NonEmpty(StoredLayout(layout))| == |NonEmpty(layout)|
  {
    StoredRank(layout, |layout|);
    assert layout[..|layout|] == layout && StoredLayout(layout)[..|layout|] == StoredLayout(layout);
  }

  lemma {:induction false} TextOfEmpty(n: nat)
    ensures LayoutText(seq(n, _ => [])) == seq(n, _ => ';')
  {
    var pd: Layout := seq(n, _ => []);
    assert SegmentTexts(pd) == seq(n, _ => "");
    SemicolonsOnly(n);
  }

  lemma {:induction false} SemicolonsOnly(n: nat)
    ensures Terminated(seq(n, _ => ""), ";") == seq(n, _ => ';')
  {
    if n > 0 {
      SemicolonsOnly(n - 1);
      assert seq(n, _ => "")[1..] == seq(n - 1, _ => "");
      assert seq(n, _ => ';') == [';'] + seq(n - 1, _ => ';');
    }
  }

  /**
    The whole run. Start from any annotation that shows a layout aligned with the pod, with any
    of its empty segments left out. The k-th call gets the k-th requesting container, in
    init-then-app order, with exactly its devices; every segment is handed out once; afterwards
    the annotation is one ';' per container and nothing is left to take.
   */
  lemma DrainProtocol(key: string, pod: Pod, sub: Layout, layout: Layout, k: nat)
    requires key in pod.annotations && pod.annotations[key] == LayoutText(sub)
    requires Clean(layout) && layout != [] && OmitsEmpty(sub, layout)
    requires Aligned(layout, AllPodContainers(pod))
    requires k <= |NonEmpty(layout)|
    ensures |NonEmpty(layout)| == RequestCount(AllPodContainers(pod))
    ensures k < |NonEmpty(layout)| ==>
              var i, inits, apps := Slot(layout, k), pod.spec.initContainers, pod.spec.containers;
              && RequestsHygon(AllPodContainers(pod)[i]) && RequestCount(AllPodContainers(pod)[..i]) == k
              && (i < |inits| || i - |inits| < |apps|)
              && NextRequest(map[HCU := key], HCU, Drained(key, pod, k))
                 == Ok((if i < |inits| then inits[i] else apps[i - |inits|], StoredSegment(layout[i])))
    ensures k == |NonEmpty(layout)| ==>
              NextRequest(map[HCU := key], HCU, Drained(key, pod, k)) == Err(NotFound)
    ensures k == |NonEmpty(layout)| && k > 0 ==>
              var p := Drained(key, pod, k);
              key in p.annotations && p.annotations[key] == seq(|layout|, _ => ';')
  {
    hide PodLayout, LayoutText, Clean, NonEmpty, Rank, OmitsEmpty, RequestsHygon, RequestCount, Slot, Drained;
    var all := AllPodContainers(pod);
    PlaceReconstructs(layout, all);
    DrainedReads(key, pod, sub, layout, k);
    StoredCount(layout);
    FirstOfBlanked(StoredLayout(layout), k);
    if k < |NonEmpty(layout)| {
      var i := Slot(layout, k);
      AlignedRank(layout, all, i);
      StoredSlot(layout, k);
      ContainersInOrder(pod, i);
    } else {
      BlankedCompletely(layout);
      TextOfEmpty(|layout|);
    }
  }

  lemma StoredSlot(layout: Layout, k: nat)
    requires k < |NonEmpty(layout)|
    ensures |NonEmpty(StoredLayout(layout))| == |NonEmpty(layout)|
    ensures Slot(StoredLayout(layout), k) == Slot(layout, k)
  {
    hide NonEmpty, Rank, Slot;
    StoredCount(layout);
    var i, j := Slot(layout, k), Slot(StoredLayout(layout), k);
    StoredRank(layout, i);
    StoredRank(layout, j);
    if i < j {
      RankBelow(layout, i, j);
    } else if j < i {
      RankBelow(layout, j, i);
    }
  }

  /**
    The test for "devices are still waiting": if every UUID contains the device prefix, the
    annotation text contains it exactly as long as some segment still holds devices.
   */
  lemma PrefixShowsDevices(layout: Layout, prefix: string)
    requires forall cd, d :: cd in layout && d in cd ==> Contains(d.uuid, prefix)
    requires exists c :: c in prefix && c != ';'
    ensures Contains(LayoutText(layout), prefix) <==> NonEmpty(layout) != []
  {
    hide Contains, NonEmpty, Slot, Rank;
    if NonEmpty(layout) != [] {
      var i := Slot(layout, 0);
      var d := layout[i][0];
      assert layout[i] in layout && d in layout[i];
      var rest := "," + Join(DeviceFields(d)[1..], ",");
      ContainsInContext("", d.uuid, rest, prefix);
      assert DeviceText(d) == "" + d.uuid + rest;
      assert DeviceTexts(layout[i])[0] == DeviceText(d);
      TerminatedContains(DeviceTexts(layout[i]), ":", 0, prefix);
      assert SegmentTexts(layout)[i] == SegmentText(layout[i]);
      TerminatedContains(SegmentTexts(layout), ";", i, prefix);
    } else {
      BlankedCompletely(layout);
      TextOfEmpty(|layout|);
      if Contains(LayoutText(layout), prefix) {
        ContainedChars(LayoutText(layout), prefix);
        assert false;
      }
    }
  }
}
