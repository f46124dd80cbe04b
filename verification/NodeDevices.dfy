/** The node annotation that announces the cards, and the decoder that does not match its encoder. */
module NodeDevices {
  import opened GoNumbers
  import opened GoStrings
  import opened Kube
  import PodDevices

  datatype DeviceInfo = DeviceInfo(
    index: Int64, id: string, count: Int32, devmem: Int32, devcore: Int32, devType: string, numa: Int64, health: bool)

  const MODE := "hami"

  function FormatBool(b: bool): string {
    if b then "true" else "false"
  }

  /** The value of `strconv.ParseBool`, whose error the decoder ignores. */
  function ParseBool(s: string): bool {
    s in ["1", "t", "T", "TRUE", "true", "True"]
  }

  function SevenFields(d: DeviceInfo): seq<string> {
    [d.id, Itoa(d.count), Itoa(d.devmem), Itoa(d.devcore), d.devType, Itoa(d.numa), FormatBool(d.health)]
  }

  function NineFields(d: DeviceInfo): seq<string> {
    SevenFields(d) + [Itoa(d.index), MODE]
  }

  function Texts(dlist: seq<DeviceInfo>, fields: DeviceInfo -> seq<string>): (texts: seq<string>)
    ensures |texts| == |dlist|
  {
    seq(|dlist|, i requires 0 <= i < |dlist| => Join(fields(dlist[i]), ","))
  }

  /** What the plugin writes: nine fields a device. */
  function NodeText(dlist: seq<DeviceInfo>): string {
    Terminated(Texts(dlist, NineFields), ":")
  }

  /** The format, spelled out. */
  lemma NineFieldsSpelledOut(d: DeviceInfo)
    ensures Join(NineFields(d), ",") ==
            d.id + "," + Itoa(d.count) + "," + Itoa(d.devmem) + "," + Itoa(d.devcore) + "," + d.devType + ","
            + Itoa(d.numa) + "," + FormatBool(d.health) + "," + Itoa(d.index) + "," + MODE
  {
    hide Itoa, FormatBool, Join;
    var f := NineFields(d);
    JoinOne(f[0], ",");
    JoinSnoc(f[..1], f[1], ",");
    JoinSnoc(f[..2], f[2], ",");
    JoinSnoc(f[..3], f[3], ",");
    JoinSnoc(f[..4], f[4], ",");
    JoinSnoc(f[..5], f[5], ",");
    JoinSnoc(f[..6], f[6], ",");
    JoinSnoc(f[..7], f[7], ",");
    JoinSnoc(f[..8], f[8], ",");
    assert f[..1] == [f[0]] && f[..9] == f;
    assert forall k :: 1 <= k < 9 ==> f[..k] + [f[k]] == f[..k + 1];
  }

  lemma JoinOne(s: string, sep: string)
    ensures Join([s], sep) == s
  {
  }

  method EncodeNodeDevices(dlist: seq<DeviceInfo>) returns (tmp: string)
    ensures tmp == NodeText(dlist)
  {
    hide Itoa, FormatBool, Join, NineFields;
    tmp := "";
    for i := 0 to |dlist|
      invariant tmp == NodeText(dlist[..i])
    {
      var val := dlist[i];
      NineFieldsSpelledOut(val);
      assert Texts(dlist[..i + 1], NineFields) == Texts(dlist[..i], NineFields) + [Join(NineFields(val), ",")];
      TerminatedSnoc(Texts(dlist[..i], NineFields), Join(NineFields(val), ","), ":");
      var text := val.id + "," + Itoa(val.count) + "," + Itoa(val.devmem) + "," + Itoa(val.devcore) + ","
              + val.devType + ","
        + Itoa(val.numa) + "," + FormatBool(val.health) + "," + Itoa(val.index) + "," + MODE;
      tmp := tmp + text + ":";
    }
    assert dlist[..|dlist|] == dlist;
  }

  function ReadDevice(part: string): Result<DeviceInfo> {
    var items := Split(part, ",");
    if |items| != 7 then Err(FormatError)
    else
      Ok(DeviceInfo(0, items[0], ToInt32(Atoi(items[1]).value), ToInt32(Atoi(items[2]).value),
                    ToInt32(Atoi(items[3]).value), items[4], Atoi(items[5]).value, ParseBool(items[6])))
  }

  function ReadDevices(parts: seq<string>): Result<seq<DeviceInfo>> {
    if parts == [] then Ok([])
    else if !Contains(parts[0], ",") then ReadDevices(parts[1..])
    else if ReadDevice(parts[0]).Err? then Err(FormatError)
    else
      match ReadDevices(parts[1..])
      case Err(e) => Err(e)
      case Ok(rest) => Ok([ReadDevice(parts[0]).value] + rest)
  }

  /** A text without any ':' is an error, even the empty one. */
  function ReadNode(str: string): Result<seq<DeviceInfo>> {
    if !Contains(str, ":") then Err(FormatError) else ReadDevices(Split(str, ":"))
  }

  /** The device that a part stands for: seven fields in this order, numbers cut to 32 bits. */
  predicate ReadsAs(part: string, d: DeviceInfo) {
    var fields := Split(part, ",");
    && |fields| == 7 && d.id == fields[0] && d.devType == fields[4] && d.index == 0
    && d.count == ToInt32(Atoi(fields[1]).value) && d.devmem == ToInt32(Atoi(fields[2]).value)
    && d.devcore == ToInt32(Atoi(fields[3]).value) && d.numa == Atoi(fields[5]).value
    && (d.health <==> fields[6] in {"1", "t", "T", "true", "TRUE", "True"})
  }

  lemma ReadDeviceExactly(part: string)
    ensures ReadDevice(part).Err? <==> |Split(part, ",")| != 7
    ensures ReadDevice(part).Ok? ==> ReadsAs(part, ReadDevice(part).value)
  {
    hide Split, ParseInt, ToInt32;
  }

  lemma {:induction false} ReadDevicesExactly(parts: seq<string>)
    ensures ReadDevices(parts).Err? <==> exists p :: p in parts && ',' in p && |Split(p, ",")| != 7
    ensures ReadDevices(parts).Ok? ==>
              var devs, records := ReadDevices(parts).value, PodDevices.Records(parts);
              |devs| == |records| && forall k :: 0 <= k < |records| ==> ReadsAs(records[k], devs[k])
  {
    hide Split, Contains, ReadDevice, ReadsAs;
    if parts != [] {
      ContainsChar(parts[0], ',');
      ReadDeviceExactly(parts[0]);
      ReadDevicesExactly(parts[1..]);
      assert forall p :: p in parts <==> p == parts[0] || p in parts[1..];
    }
  }

  /** Reading fails without any ':' and over a record that has not seven fields; else one device for each record. */
  lemma ReadNodeExactly(str: string)
    ensures ReadNode(str).Err? <==>
              ':' !in str || exists p :: p in Split(str, ":") && ',' in p && |Split(p, ",")| != 7
    ensures ReadNode(str).Ok? ==>
              var devs, records := ReadNode(str).value, PodDevices.Records(Split(str, ":"));
              |devs| == |records| && forall k :: 0 <= k < |devs| ==> ReadsAs(records[k], devs[k])
  {
    hide Split, Contains, ReadDevices, PodDevices.Records, ReadsAs;
    ContainsChar(str, ':');
    ReadDevicesExactly(Split(str, ":"));
  }

  method DecodeNodeDevices(str: string) returns (r: Result<seq<DeviceInfo>>)
    ensures r == ReadNode(str)
  {
    hide Split, Contains;
    if !Contains(str, ":") {
      return Err(FormatError);
    }
    var tmp := Split(str, ":");
    var retval: seq<DeviceInfo> := [];
    assert tmp[0..] == tmp && forall rest: seq<DeviceInfo> :: retval + rest == rest;
    for i := 0 to |tmp|
      invariant ReadDevices(tmp) == match ReadDevices(tmp[i..])
                                    case Err(e) => Err(e)
                                    case Ok(rest) => Ok(retval + rest)
    {
      assert tmp[i..][1..] == tmp[i + 1..];
      if Contains(tmp[i], ",") {
        var items := Split(tmp[i], ",");
        if |items| == 7 {
          var count, devmem, devcore := Atoi(items[1]).value, Atoi(items[2]).value, Atoi(items[3]).value;
          var device := DeviceInfo(0, items[0], ToInt32(count), ToInt32(devmem), ToInt32(devcore), items[4],
                                   Atoi(items[5]).value, ParseBool(items[6]));
          ghost var before := retval;
          retval := retval + [device];
          assert forall rest: seq<DeviceInfo> :: before + ([device] + rest) == retval + rest;
        } else {
          return Err(FormatError);
        }
      }
    }
    assert tmp[|tmp|..] == [] && retval + [] == retval;
    return Ok(retval);
  }

  // ---------------------------------------------------------------- they do not fit

  predicate Plain(d: DeviceInfo) {
    ',' !in d.id && ':' !in d.id && ',' !in d.devType && ':' !in d.devType
  }

  lemma FieldsArePlain(d: DeviceInfo)
    requires Plain(d)
    ensures forall f :: f in NineFields(d) ==> ',' !in f && ':' !in f
    ensures forall f :: f in SevenFields(d) ==> ',' !in f && ':' !in f
  {
    hide Itoa;
  }

  lemma FieldCount(fields: seq<string>)
    requires |fields| > 1 && forall f :: f in fields ==> ',' !in f && ':' !in f
    ensures Split(Join(fields, ","), ",") == fields && Contains(Join(fields, ","), ",") && ':' !in Join(fields, ",")
  {
    hide Index;
    SplitOfJoin(fields, ',');
    JoinChars(fields, ",", ':');
  }

  lemma PartsOf(dlist: seq<DeviceInfo>, fields: DeviceInfo -> seq<string>)
    requires forall d :: d in dlist ==> ':' !in Join(fields(d), ",")
    ensures Split(Terminated(Texts(dlist, fields), ":"), ":") == Texts(dlist, fields) + [""]
    ensures dlist != [] ==> Contains(Terminated(Texts(dlist, fields), ":"), ":")
  {
    hide Split, Contains, Join;
    var texts := Texts(dlist, fields);
    forall t | t in texts ensures ':' !in t {
      var i :| 0 <= i < |dlist| && t == Join(fields(dlist[i]), ",");
      assert dlist[i] in dlist;
    }
    SplitTerminated(texts, ':');
    ContainsChar(Terminated(texts, ":"), ':');
    if dlist != [] {
      assert Terminated(texts, ":")[|texts[0]|] == ':';
    }
  }

  /** The decoder rejects everything the encoder writes, from the empty list on. */
  lemma DecoderRejectsEncoder(dlist: seq<DeviceInfo>)
    requires forall d :: d in dlist ==> Plain(d)
    ensures ReadNode(NodeText(dlist)) == Err(FormatError)
  {
    hide Split, Index, Join, NineFields, SevenFields;
    forall d | d in dlist
      ensures Split(Join(NineFields(d), ","), ",") == NineFields(d) && Contains(Join(NineFields(d), ","), ",")
      ensures ':' !in Join(NineFields(d), ",") && |NineFields(d)| == 9
    {
      NineOfThem(d);
      FieldsArePlain(d);
      FieldCount(NineFields(d));
    }
    if dlist == [] {
      ContainsChar("", ':');
    } else {
      PartsOf(dlist, NineFields);
      assert dlist[0] in dlist;
      assert (Texts(dlist, NineFields) + [""])[0] == Join(NineFields(dlist[0]), ",");
    }
  }

  lemma NineOfThem(d: DeviceInfo)
    ensures |NineFields(d)| == 9 && |SevenFields(d)| == 7
  {
  }

  lemma SevenFieldsRead(d: DeviceInfo)
    requires Plain(d)
    ensures ReadDevice(Join(SevenFields(d), ",")) == Ok(d.(index := 0))
    ensures Contains(Join(SevenFields(d), ","), ",") && ':' !in Join(SevenFields(d), ",")
  {
    hide Split, Contains, Join, Itoa, ParseInt;
    FieldsArePlain(d);
    FieldCount(SevenFields(d));
    ParseOfItoa(d.count, 64);
    ParseOfItoa(d.devmem, 64);
    ParseOfItoa(d.devcore, 64);
    ParseOfItoa(d.numa, 64);
  }

  function WithoutIndex(dlist: seq<DeviceInfo>): seq<DeviceInfo> {
    seq(|dlist|, i requires 0 <= i < |dlist| => dlist[i].(index := 0))
  }

  lemma {:induction false} ReadSevenFields(dlist: seq<DeviceInfo>)
    requires forall d :: d in dlist ==> Plain(d)
    ensures ReadDevices(Texts(dlist, SevenFields) + [""]) == Ok(WithoutIndex(dlist))
  {
    hide Contains, Join, ReadDevice, SevenFields;
    var parts := Texts(dlist, SevenFields) + [""];
    if dlist == [] {
      ContainsChar("", ',');
      assert parts == [""] && parts[1..] == [];
    } else {
      SevenFieldsRead(dlist[0]);
      ReadSevenFields(dlist[1..]);
      assert parts[0] == Join(SevenFields(dlist[0]), ",");
      assert parts[1..] == Texts(dlist[1..], SevenFields) + [""];
      assert WithoutIndex(dlist) == [dlist[0].(index := 0)] + WithoutIndex(dlist[1..]);
    }
  }

  /** With the first seven of its fields the same list would come back, all but the index. */
  lemma SevenFieldsWouldRoundTrip(dlist: seq<DeviceInfo>)
    requires dlist != [] && forall d :: d in dlist ==> Plain(d)
    ensures ReadNode(Terminated(Texts(dlist, SevenFields), ":"))
            == Ok(WithoutIndex(dlist))
  {
    hide Split, Contains, Join, SevenFields;
    forall d | d in dlist ensures ':' !in Join(SevenFields(d), ",") {
      SevenFieldsRead(d);
    }
    PartsOf(dlist, SevenFields);
    ReadSevenFields(dlist);
  }

  /** What the decoder accepts holds no delimiters, whatever it reads. */
  lemma {:induction false} ReadIsPlain(parts: seq<string>)
    requires forall p :: p in parts ==> ':' !in p
    requires ReadDevices(parts).Ok?
    ensures forall d :: d in ReadDevices(parts).value ==> Plain(d)
  {
    hide Split, Contains, ParseInt, ToInt32;
    if parts != [] {
      SplitPieces(parts[0], ',');
      ReadIsPlain(parts[1..]);
    }
  }

  /** So no list at all comes back from its own encoding, delimiters or not. */
  lemma NeverRoundTrips(dlist: seq<DeviceInfo>)
    ensures ReadNode(NodeText(dlist)) != Ok(WithoutIndex(dlist))
  {
    hide Split, Contains, NodeText, ReadDevices;
    var text := NodeText(dlist);
    if ReadNode(text) == Ok(WithoutIndex(dlist)) {
      SplitPieces(text, ':');
      ReadIsPlain(Split(text, ":"));
      forall d | d in dlist ensures Plain(d) {
        var i :| 0 <= i < |dlist| && dlist[i] == d;
        assert WithoutIndex(dlist)[i] in WithoutIndex(dlist) && WithoutIndex(dlist)[i] == d.(index := 0);
      }
      DecoderRejectsEncoder(dlist);
    }
  }
}
