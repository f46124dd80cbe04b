/**
  The device annotation of a pod: one segment per container, each ended by ';', and in a
  segment one record per device, each ended by ':'.
 */
module PodDevices {
  import opened GoNumbers
  import opened GoStrings
  import opened Kube

  /** `idx` and `containerName` exist in memory but are never written to the annotation. */
  datatype ContainerDevice = ContainerDevice(
    idx: Int64,
    uuid: string,
    devType: string,
    usedmem: Int32,
    usedcores: Int32,
    containerName: string)

  type Segment = seq<ContainerDevice>
  type Layout = seq<Segment>

  // ---------------------------------------------------------------- what is printed

  function DeviceFields(d: ContainerDevice): seq<string> {
    [d.uuid, d.devType, Itoa(d.usedmem), Itoa(d.usedcores)]
  }

  function DeviceText(d: ContainerDevice): string {
    Join(DeviceFields(d), ",")
  }

  lemma DeviceTextSpelledOut(d: ContainerDevice)
    ensures DeviceText(d) == d.uuid + "," + d.devType + "," + Itoa(d.usedmem) + "," + Itoa(d.usedcores)
  {
    JoinSnoc([d.uuid], d.devType, ",");
    JoinSnoc([d.uuid, d.devType], Itoa(d.usedmem), ",");
    JoinSnoc([d.uuid, d.devType, Itoa(d.usedmem)], Itoa(d.usedcores), ",");
    assert [d.uuid] + [d.devType] == [d.uuid, d.devType];
    assert [d.uuid, d.devType] + [Itoa(d.usedmem)] == [d.uuid, d.devType, Itoa(d.usedmem)];
    assert [d.uuid, d.devType, Itoa(d.usedmem)] + [Itoa(d.usedcores)] == DeviceFields(d);
  }

  function DeviceTexts(cd: Segment): (texts: seq<string>)
    ensures |texts| == |cd|
  {
    seq(|cd|, i requires 0 <= i < |cd| => DeviceText(cd[i]))
  }

  function SegmentText(cd: Segment): string {
    Terminated(DeviceTexts(cd), ":")
  }

  function SegmentTexts(pd: Layout): (texts: seq<string>)
    ensures |texts| == |pd|
  {
    seq(|pd|, i requires 0 <= i < |pd| => SegmentText(pd[i]))
  }

  function LayoutText(pd: Layout): string {
    Terminated(SegmentTexts(pd), ";")
  }

  /** The format, spelled out: one record after the other, and one segment after the other. */
  lemma SegmentTextSpelledOut(cd: Segment, d: ContainerDevice)
    ensures SegmentText([]) == ""
    ensures SegmentText(cd + [d])
            == SegmentText(cd) + d.uuid + "," + d.devType + "," + Itoa(d.usedmem) + "," + Itoa(d.usedcores) + ":"
  {
    hide Itoa;
    assert DeviceTexts(cd + [d]) == DeviceTexts(cd) + [DeviceText(d)];
    TerminatedSnoc(DeviceTexts(cd), DeviceText(d), ":");
    DeviceTextSpelledOut(d);
  }

  lemma LayoutTextSpelledOut(pd: Layout, cd: Segment)
    ensures LayoutText([]) == ""
    ensures LayoutText(pd + [cd]) == LayoutText(pd) + SegmentText(cd) + ";"
  {
    hide SegmentText;
    assert SegmentTexts(pd + [cd]) == SegmentTexts(pd) + [SegmentText(cd)];
    TerminatedSnoc(SegmentTexts(pd), SegmentText(cd), ";");
  }

  method EncodeContainerDevices(cd: Segment) returns (tmp: string)
    ensures tmp == SegmentText(cd)
  {
    tmp := "";
    for i := 0 to |cd|
      invariant tmp == Terminated(DeviceTexts(cd[..i]), ":")
    {
      assert DeviceTexts(cd[..i + 1]) == DeviceTexts(cd[..i]) + [DeviceText(cd[i])];
      TerminatedSnoc(DeviceTexts(cd[..i]), DeviceText(cd[i]), ":");
      DeviceTextSpelledOut(cd[i]);
      var val := cd[i];
      var text := val.uuid + "," + val.devType + "," + Itoa(val.usedmem) + "," + Itoa(val.usedcores);
      tmp := tmp + text + ":";
    }
    assert cd[..|cd|] == cd;
  }

  method EncodePodSingleDevice(pd: Layout) returns (res: string)
    ensures res == LayoutText(pd)
  {
    res := "";
    for i := 0 to |pd|
      invariant res == Terminated(SegmentTexts(pd[..i]), ";")
    {
      assert SegmentTexts(pd[..i + 1]) == SegmentTexts(pd[..i]) + [SegmentText(pd[i])];
      TerminatedSnoc(SegmentTexts(pd[..i]), SegmentText(pd[i]), ";");
      var segment := EncodeContainerDevices(pd[i]);
      res := res + segment;
      res := res + ";";
    }
    assert pd[..|pd|] == pd;
  }

  // ---------------------------------------------------------------- what is read back

  /** One record: fewer than four fields is an error, more than four are ignored. */
  function ReadRecord(part: string): Result<ContainerDevice> {
    var fields := Split(part, ",");
    if |fields| < 4 then Err(FormatError)
    else
      Ok(ContainerDevice(0, fields[0], fields[1], ToInt32(ParseInt(fields[2], 32).value),
                         ToInt32(ParseInt(fields[3], 32).value), ""))
  }

  /** Parts without a comma are skipped; the first bad record fails the whole segment. */
  function ReadDevices(parts: seq<string>): Result<Segment> {
    if parts == [] then Ok([])
    else if !Contains(parts[0], ",") then ReadDevices(parts[1..])
    else if ReadRecord(parts[0]).Err? then Err(FormatError)
    else
      match ReadDevices(parts[1..])
      case Err(e) => Err(e)
      case Ok(rest) => Ok([ReadRecord(parts[0]).value] + rest)
  }

  function ReadSegment(str: string): Result<Segment> {
    if str == "" then Ok([]) else ReadDevices(Split(str, ":"))
  }

  /** The parts that are records: those with a comma. */
  function Records(parts: seq<string>): (r: seq<string>)
    ensures forall p :: p in r <==> p in parts && ',' in p
  {
    if parts == [] then []
    else (if ',' in parts[0] then [parts[0]] else []) + Records(parts[1..])
  }

  /** The device that a record stands for: UUID, type, memory and cores, in this order. */
  predicate ReadsAs(part: string, d: ContainerDevice) {
    var fields := Split(part, ",");
    && |fields| >= 4 && d.uuid == fields[0] && d.devType == fields[1]
    && d.usedmem == ParseInt(fields[2], 32).value && d.usedcores == ParseInt(fields[3], 32).value
    && d.idx == 0 && d.containerName == ""
  }

  lemma ReadRecordExactly(part: string)
    ensures ReadRecord(part).Err? <==> |Split(part, ",")| < 4
    ensures ReadRecord(part).Ok? ==> ReadsAs(part, ReadRecord(part).value)
  {
    hide Split, ParseInt;
  }

  lemma {:induction false} ReadDevicesExactly(parts: seq<string>)
    ensures ReadDevices(parts).Err? <==> exists p :: p in parts && ',' in p && |Split(p, ",")| < 4
    ensures ReadDevices(parts).Ok? ==>
              && |ReadDevices(parts).value| == |Records(parts)|
              && forall k :: 0 <= k < |Records(parts)| ==> ReadsAs(Records(parts)[k], ReadDevices(parts).value[k])
  {
    hide Split, Contains, ReadRecord, ReadsAs;
    if parts != [] {
      ContainsChar(parts[0], ',');
      ReadRecordExactly(parts[0]);
      ReadDevicesExactly(parts[1..]);
      assert forall p :: p in parts <==> p == parts[0] || p in parts[1..];
    }
  }

  /** Reading a segment: nothing in an empty text, else one device for each record, or an error if one is short. */
  lemma ReadSegmentExactly(str: string)
    ensures str == "" ==> ReadSegment(str) == Ok([])
    ensures str != "" ==>
              (ReadSegment(str).Err? <==> exists p :: p in Split(str, ":") && ',' in p && |Split(p, ",")| < 4)
    ensures str != "" && ReadSegment(str).Ok? ==>
              var devs, records := ReadSegment(str).value, Records(Split(str, ":"));
              |devs| == |records| && forall k :: 0 <= k < |devs| ==> ReadsAs(records[k], devs[k])
  {
    hide Split, ReadDevices, Records, ReadsAs;
    if str != "" {
      ReadDevicesExactly(Split(str, ":"));
    }
  }

  function ReadSegments(segments: seq<string>): Result<Layout> {
    if segments == [] then Ok([])
    else
      match ReadSegment(segments[0])
      case Err(e) => Err(e)
      case Ok(cd) =>
        match ReadSegments(segments[1..])
        case Err(e) => Err(e)
        case Ok(rest) => Ok([cd] + rest)
  }

  /** Only the empty part behind the last ';' is dropped: empty segments in between count. */
  function SplitPodDeviceAnnotation(anno: string): seq<string> {
    if anno == "" then []
    else
      var parts := Split(anno, ";");
      if parts[|parts| - 1] == "" then parts[..|parts| - 1] else parts
  }

  /** Splitting the annotation loses nothing: every segment ends in ';', the last one perhaps not. */
  lemma SplitAnnotationExactly(anno: string)
    requires anno != ""
    ensures var parts := SplitPodDeviceAnnotation(anno);
            && (forall p :: p in parts ==> ';' !in p)
            && if anno[|anno| - 1] == ';' then Terminated(parts, ";") == anno
               else parts != [] && Join(parts, ";") == anno
  {
    hide Split, Join, Terminated;
    var parts := Split(anno, ";");
    var n := |parts| - 1;
    SplitPieces(anno, ';');
    JoinOfSplit(anno, ";");
    assert parts == parts[..n] + [parts[n]] && parts[n] in parts;
    JoinIsTerminated(parts[..n], parts[n], ";");
    var head := Terminated(parts[..n], ";");
    assert anno == head + parts[n];
    if parts[n] == "" {
      LastIsEnd(parts[..n], ";");
    } else {
      assert anno[|anno| - 1] == parts[n][|parts[n]| - 1];
    }
  }

  lemma {:induction false} JoinIsTerminated(parts: seq<string>, last: string, sep: string)
    ensures Join(parts + [last], sep) == Terminated(parts, sep) + last
  {
    if parts == [] {
      assert parts + [last] == [last];
    } else {
      JoinIsTerminated(parts[1..], last, sep);
      assert (parts + [last])[1..] == parts[1..] + [last];
    }
  }

  lemma {:induction false} LastIsEnd(parts: seq<string>, sep: string)
    requires |sep| == 1
    ensures Terminated(parts, sep) != "" ==> Terminated(parts, sep)[|Terminated(parts, sep)| - 1] == sep[0]
  {
    if parts != [] {
      LastIsEnd(parts[1..], sep);
    }
  }

  function ReadLayout(anno: string): Result<Layout> {
    ReadSegments(SplitPodDeviceAnnotation(anno))
  }

  /** A layout is read segment by segment and fails exactly if some segment does. */
  lemma {:induction false} ReadSegmentsExactly(segments: seq<string>)
    ensures ReadSegments(segments).Err? <==> exists s :: s in segments && ReadSegment(s).Err?
    ensures ReadSegments(segments).Ok? ==>
              && |ReadSegments(segments).value| == |segments|
              && forall i :: 0 <= i < |segments| ==> ReadSegment(segments[i]) == Ok(ReadSegments(segments).value[i])
  {
    hide ReadSegment;
    if segments != [] {
      ReadSegmentsExactly(segments[1..]);
    }
  }

  method DecodeContainerDevices(str: string) returns (r: Result<Segment>)
    ensures r == ReadSegment(str)
  {
    if |str| == 0 {
      return Ok([]);
    }
    var cd := Split(str, ":");
    var contdev: Segment := [];
    var tmpdev := ContainerDevice(0, "", "", 0, 0, "");
    assert cd[0..] == cd && forall rest: Segment :: contdev + rest == rest;
    for i := 0 to |cd|
      invariant tmpdev.idx == 0 && tmpdev.containerName == ""
      invariant ReadDevices(cd) == match ReadDevices(cd[i..])
                                   case Err(e) => Err(e)
                                   case Ok(rest) => Ok(contdev + rest)
    {
      assert cd[i..][1..] == cd[i + 1..];
      if Contains(cd[i], ",") {
        var tmpstr := Split(cd[i], ",");
        if |tmpstr| < 4 {
          return Err(FormatError);
        }
        tmpdev := tmpdev.(uuid := tmpstr[0]);
        tmpdev := tmpdev.(devType := tmpstr[1]);
        var devmem := ParseInt(tmpstr[2], 32).value;
        tmpdev := tmpdev.(usedmem := ToInt32(devmem));
        var devcores := ParseInt(tmpstr[3], 32).value;
        tmpdev := tmpdev.(usedcores := ToInt32(devcores));
        ghost var before := contdev;
        contdev := contdev + [tmpdev];
        assert forall rest: Segment :: before + ([tmpdev] + rest) == contdev + rest;
      }
    }
    assert cd[|cd|..] == [] && contdev + [] == contdev;
    return Ok(contdev);
  }

  /** The outcome of decoding every annotation that the checklist names and the pod carries. */
  function ReadPodDevices(checklist: map<string, string>, annos: map<string, string>): Result<map<string, Layout>> {
    if annos == map[] then Ok(map[])
    else if exists id :: id in checklist && checklist[id] in annos && ReadLayout(annos[checklist[id]]).Err? then
      Err(FormatError)
    else
      Ok(map id | id in checklist && checklist[id] in annos :: ReadLayout(annos[checklist[id]]).value)
  }

  /** Decoding fails exactly over an annotation that is bad; else every one that is there is decoded. */
  lemma ReadPodDevicesExactly(checklist: map<string, string>, annos: map<string, string>)
    ensures var r := ReadPodDevices(checklist, annos);
            && (r.Err? <==>
                  exists id :: id in checklist && checklist[id] in annos && ReadLayout(annos[checklist[id]]).Err?)
            && (r.Ok? ==>
                  && (forall id :: id in r.value <==> id in checklist && checklist[id] in annos)
                  && (forall id :: id in r.value ==> ReadLayout(annos[checklist[id]]) == Ok(r.value[id])))
  {
    hide ReadLayout;
  }

  method DecodePodDevices(checklist: map<string, string>, annos: map<string, string>)
    returns (r: Result<map<string, Layout>>)
    ensures r == ReadPodDevices(checklist, annos)
  {
    hide ReadLayout;
    if |annos| == 0 {
      return Ok(map[]);
    }
    var pd: map<string, Layout> := map[];
    var todo := checklist.Keys;
    while todo != {}
      invariant todo <= checklist.Keys
      invariant forall id :: id in pd <==> id in checklist && id !in todo && checklist[id] in annos
      invariant forall id :: id in pd ==> ReadLayout(annos[checklist[id]]) == Ok(pd[id])
      decreases |todo|
    {
      var devID :| devID in todo;
      todo := todo - {devID};
      if checklist[devID] in annos {
        var devs := DecodeSegments(annos[checklist[devID]]);
        if devs.Err? {
          return Err(FormatError);
        }
        pd := pd[devID := devs.value];
      }
    }
    assert forall id :: id in checklist && checklist[id] in annos ==> id in pd;
    assert pd == map id | id in checklist && checklist[id] in annos :: ReadLayout(annos[checklist[id]]).value;
    return Ok(pd);
  }

  /** The inner loop: the segments of one annotation. */
  method DecodeSegments(str: string) returns (r: Result<Layout>)
    ensures r == ReadLayout(str) || (r.Err? && ReadLayout(str).Err?)
  {
    hide ReadSegment, SplitPodDeviceAnnotation;
    var segments := SplitPodDeviceAnnotation(str);
    var devs: Layout := [];
    assert segments[0..] == segments && forall rest: Layout :: devs + rest == rest;
    for i := 0 to |segments|
      invariant ReadSegments(segments) == match ReadSegments(segments[i..])
                                          case Err(e) => Err(e)
                                          case Ok(rest) => Ok(devs + rest)
    {
      assert segments[i..][1..] == segments[i + 1..];
      var cd := DecodeContainerDevices(segments[i]);
      if cd.Err? {
        return Err(FormatError);
      }
      ghost var before := devs;
      devs := devs + [cd.value];
      assert forall rest: Layout :: before + ([cd.value] + rest) == devs + rest;
    }
    assert segments[|segments|..] == [] && devs + [] == devs;
    return Ok(devs);
  }

  // ---------------------------------------------------------------- round trip

  predicate DelimiterFree(s: string) {
    ',' !in s && ':' !in s && ';' !in s
  }

  predicate Clean(pd: Layout) {
    forall cd, d :: cd in pd && d in cd ==> DelimiterFree(d.uuid) && DelimiterFree(d.devType)
  }

  /** What the annotation keeps of a device. */
  function Stored(d: ContainerDevice): ContainerDevice {
    d.(idx := 0, containerName := "")
  }

  function StoredSegment(cd: Segment): (r: Segment)
    ensures |r| == |cd|
  {
    seq(|cd|, i requires 0 <= i < |cd| => Stored(cd[i]))
  }

  function StoredLayout(pd: Layout): (r: Layout)
    ensures |r| == |pd|
  {
    seq(|pd|, i requires 0 <= i < |pd| => StoredSegment(pd[i]))
  }

  lemma DeviceTextFields(d: ContainerDevice)
    requires DelimiterFree(d.uuid) && DelimiterFree(d.devType)
    ensures Split(DeviceText(d), ",") == DeviceFields(d)
    ensures ',' in DeviceText(d) && ':' !in DeviceText(d) && ';' !in DeviceText(d)
  {
    hide Split, Index;
    SplitOfJoin(DeviceFields(d), ',');
    JoinChars(DeviceFields(d), ",", ':');
    JoinChars(DeviceFields(d), ",", ';');
  }

  lemma RecordRoundTrip(d: ContainerDevice)
    requires DelimiterFree(d.uuid) && DelimiterFree(d.devType)
    ensures ReadRecord(DeviceText(d)) == Ok(Stored(d))
  {
    hide Split, Itoa, ParseInt, DeviceText;
    DeviceTextFields(d);
    ParseOfItoa(d.usedmem, 32);
    ParseOfItoa(d.usedcores, 32);
  }

  lemma ReadDevicesCons(d: ContainerDevice, part: string, rest: seq<string>)
    requires Contains(part, ",") && ReadRecord(part) == Ok(d) && ReadDevices(rest).Ok?
    ensures ReadDevices([part] + rest) == Ok([d] + ReadDevices(rest).value)
  {
    assert ([part] + rest)[1..] == rest;
  }

  lemma ReadNoDevices()
    ensures ReadDevices([""]) == Ok([])
  {
    ContainsChar("", ',');
    assert [""][1..] == [];
  }

  lemma {:induction false} ReadDeviceTexts(cd: Segment)
    requires forall d :: d in cd ==> DelimiterFree(d.uuid) && DelimiterFree(d.devType)
    ensures ReadDevices(DeviceTexts(cd) + [""]) == Ok(StoredSegment(cd))
  {
    hide Split, Index, Join, DeviceText, ReadRecord;
    if cd == [] {
      assert DeviceTexts(cd) + [""] == [""];
      ReadNoDevices();
    } else {
      var d, rest := cd[0], DeviceTexts(cd[1..]) + [""];
      ReadDeviceTexts(cd[1..]);
      RecordRoundTrip(d);
      DeviceTextFields(d);
      ContainsChar(DeviceText(d), ',');
      ReadDevicesCons(Stored(d), DeviceText(d), rest);
      assert DeviceTexts(cd) + [""] == [DeviceText(d)] + rest;
      assert StoredSegment(cd) == [Stored(d)] + StoredSegment(cd[1..]);
    }
  }

  lemma ReadOfSegmentText(cd: Segment)
    requires forall d :: d in cd ==> DelimiterFree(d.uuid) && DelimiterFree(d.devType)
    ensures ReadSegment(SegmentText(cd)) == Ok(StoredSegment(cd))
    ensures ';' !in SegmentText(cd)
    ensures SegmentText(cd) == "" <==> cd == []
  {
    forall t | t in DeviceTexts(cd) ensures ':' !in t && ';' !in t {
      var i :| 0 <= i < |cd| && t == DeviceText(cd[i]);
      DeviceTextFields(cd[i]);
    }
    TerminatedChars(DeviceTexts(cd), ":", ';');
    SplitTerminated(DeviceTexts(cd), ':');
    ReadDeviceTexts(cd);
  }

  lemma {:induction false} TerminatedChars(parts: seq<string>, end: string, c: char)
    requires c !in end && forall p :: p in parts ==> c !in p
    ensures c !in Terminated(parts, end)
  {
    if parts != [] {
      TerminatedChars(parts[1..], end, c);
    }
  }

  lemma ReadSegmentsCons(text: string, rest: seq<string>)
    requires ReadSegment(text).Ok? && ReadSegments(rest).Ok?
    ensures ReadSegments([text] + rest) == Ok([ReadSegment(text).value] + ReadSegments(rest).value)
  {
    assert ([text] + rest)[1..] == rest;
  }

  lemma {:induction false} ReadSegmentTexts(pd: Layout)
    requires Clean(pd)
    ensures ReadSegments(SegmentTexts(pd)) == Ok(StoredLayout(pd))
  {
    hide ReadSegment, SegmentText;
    if pd != [] {
      ReadOfSegmentText(pd[0]);
      ReadSegmentTexts(pd[1..]);
      assert SegmentTexts(pd) == [SegmentText(pd[0])] + SegmentTexts(pd[1..]);
      ReadSegmentsCons(SegmentText(pd[0]), SegmentTexts(pd[1..]));
      assert StoredLayout(pd) == [StoredSegment(pd[0])] + StoredLayout(pd[1..]);
    }
  }

  /**
    Decoding what the encoder printed returns the layout with every segment, empty or not, in
    its place, up to the two fields that are not stored.
   */
  lemma LayoutRoundTrip(pd: Layout)
    requires Clean(pd)
    ensures ReadLayout(LayoutText(pd)) == Ok(StoredLayout(pd))
  {
    var texts := SegmentTexts(pd);
    forall t | t in texts ensures ';' !in t {
      var i :| 0 <= i < |pd| && t == SegmentText(pd[i]);
      ReadOfSegmentText(pd[i]);
    }
    SplitTerminated(texts, ';');
    if pd != [] {
      assert (texts + [""])[..|texts|] == texts;
    } else {
      assert LayoutText(pd) == "";
    }
    ReadSegmentTexts(pd);
  }

  /** Hence two clean layouts print alike only if they agree on everything that is stored. */
  lemma LayoutTextInjective(pd: Layout, pd': Layout)
    requires Clean(pd) && Clean(pd') && LayoutText(pd) == LayoutText(pd')
    ensures StoredLayout(pd) == StoredLayout(pd')
  {
    LayoutRoundTrip(pd);
    LayoutRoundTrip(pd');
  }
}
