/** vHCUs split beforehand: grouped by size, one plugin per group. */
module Shares {
  import opened GoNumbers
  import opened GoStrings

  const GIB := 0x4000_0000

  datatype VInfo = VInfo(vdvInd: int, dvInd: int, computeUnits: int, memoryTotal: nat)

  /** `math.Round` of the memory in GiB: the nearest whole number, halves up. */
  function RoundGiB(bytes: nat): (gib: nat)
    ensures gib * 1024 * 1024 * 1024 - 512 * 1024 * 1024 <= bytes < gib * 1024 * 1024 * 1024 + 512 * 1024 * 1024
  {
    (bytes + GIB / 2) / GIB
  }

  function SizeText(v: VInfo): string {
    "-" + Itoa(v.computeUnits) + "c" + "-" + Itoa(RoundGiB(v.memoryTotal)) + "g"
  }

  function GroupKey(v: VInfo): string {
    "share" + SizeText(v)
  }

  /** The vHCUs of one size, in the order the driver lists them. */
  function Members(infos: seq<VInfo>, key: string): seq<VInfo> {
    if infos == [] then []
    else
      var n := |infos| - 1;
      Members(infos[..n], key) + if GroupKey(infos[n]) == key then [infos[n]] else []
  }

  lemma MembersStep(infos: seq<VInfo>, i: nat)
    requires i < |infos|
    ensures forall key :: Members(infos[..i + 1], key) == Members(infos[..i], key)
                                 + if GroupKey(infos[i]) == key then [infos[i]] else []
  {
    assert infos[..i + 1][..i] == infos[..i];
  }

  /** The key of a group spells out the size of its members. */
  method GetAllVirtualHCUs(infos: seq<VInfo>) returns (groups: map<string, seq<VInfo>>)
    ensures forall key :: key in groups <==> Members(infos, key) != []
    ensures forall key :: key in groups ==> groups[key] == Members(infos, key)
    ensures forall key, v :: key in groups && v in groups[key] ==>
              v in infos && key == "share-" + Itoa(v.computeUnits) + "c-" + Itoa(RoundGiB(v.memoryTotal)) + "g"
  {
    hide Members, GroupKey, Itoa, RoundGiB;
    groups := map[];
    NoMembers();
    for i := 0 to |infos|
      invariant forall key :: key in groups <==> Members(infos[..i], key) != []
      invariant forall key :: key in groups ==> groups[key] == Members(infos[..i], key)
    {
      MembersStep(infos, i);
      var virtualHCU := infos[i];
      SpellKey(virtualHCU);
      var vkey := "share-" + (Itoa(virtualHCU.computeUnits) + "c")
                  + "-" + (Itoa(RoundGiB(virtualHCU.memoryTotal)) + "g");
      if vkey in groups {
        groups := groups[vkey := groups[vkey] + [virtualHCU]];
      } else {
        groups := groups[vkey := [virtualHCU]];
      }
    }
    assert infos[..|infos|] == infos;
    forall key, v | key in groups && v in groups[key]
      ensures v in infos && key == "share-" + Itoa(v.computeUnits) + "c-" + Itoa(RoundGiB(v.memoryTotal)) + "g"
    {
      MemberHasKey(infos, key);
      SpellKey(v);
      SpellSize(Itoa(v.computeUnits), Itoa(RoundGiB(v.memoryTotal)));
    }
  }

  lemma SpellSize(units: string, memory: string)
    ensures "share-" + (units + "c") + "-" + (memory + "g") == "share-" + units + "c-" + memory + "g"
  {
  }

  lemma NoMembers()
    ensures forall key :: Members([], key) == []
  {
  }

  lemma SpellKey(v: VInfo)
    ensures GroupKey(v) == "share-" + (Itoa(v.computeUnits) + "c") + "-" + (Itoa(RoundGiB(v.memoryTotal)) + "g")
  {
    hide Itoa;
  }

  /** The groups are a partition: every vHCU is in the group of its size as often as it is listed, and in no other. */
  lemma {:induction false} GroupsPartition(infos: seq<VInfo>, key: string, v: VInfo)
    ensures multiset(Members(infos, key))[v] == if GroupKey(v) == key then multiset(infos)[v] else 0
  {
    hide GroupKey;
    if infos != [] {
      var n := |infos| - 1;
      GroupsPartition(infos[..n], key, v);
      assert infos == infos[..n] + [infos[n]];
    }
  }

  // ---------------------------------------------------------------- from resource name to group

  lemma SizeWithoutS(v: VInfo)
    ensures 's' !in SizeText(v)
  {
    hide Itoa;
  }

  lemma NotAcrossTheDash(prefix: string, tail: string, k: nat)
    requires !Contains(prefix, "share") && k <= |prefix|
    ensures !OccursAt(prefix + "-" + "share" + tail, "share", k)
  {
    var s := prefix + "-" + "share" + tail;
    if k + 5 <= |prefix| {
      assert s[k..k + 5] == prefix[k..k + 5];
      if OccursAt(prefix, "share", k) {
        IndexIsFirst(prefix, "share", k);
        assert false;
      }
    } else {
      assert s[|prefix|] == '-' && s[k..k + 5][|prefix| - k] == '-';
    }
  }

  /** A plugin started for a group finds that group's key in its resource name again. */
  lemma ResourceNameRecoversKey(prefix: string, v: VInfo)
    requires !Contains(prefix, "share")
    ensures var parts := Split(prefix + "-" + GroupKey(v), "share");
            |parts| == 2 && "share" + parts[1] == GroupKey(v)
  {
    var tail := SizeText(v);
    var s := prefix + "-" + "share" + tail;
    assert s == prefix + "-" + GroupKey(v);
    var at := |prefix| + 1;
    assert OccursAt(s, "share", at);
    IndexIsFirst(s, "share", at);
    var i := Index(s, "share");
    if i < at {
      NotAcrossTheDash(prefix, tail, i);
      assert false;
    }
    assert s[at + 5..] == tail;
    SizeWithoutS(v);
    if Contains(tail, "share") {
      ContainedChars(tail, "share");
      assert false;
    }
    assert Split(tail, "share") == [tail];
  }

  // ---------------------------------------------------------------- what a plugin advertises

  function DeviceId(v: VInfo): string {
    "vdev" + Itoa(v.vdvInd)
  }

  predicate DistinctIndices(infos: seq<VInfo>) {
    forall i, j :: 0 <= i < |infos| && 0 <= j < |infos| && infos[i].vdvInd == infos[j].vdvInd ==> i == j
  }

  /** The resource name must contain "share": only then is this method chosen. */
  method ListAndWatchVirtualHCUs(resource: string, infos: seq<VInfo>) returns (virtualHCUs: map<string, VInfo>)
    requires |Split(resource, "share")| > 1
    ensures forall id :: id in virtualHCUs <==>
              exists v :: v in Members(infos, "share" + Split(resource, "share")[1]) && id == DeviceId(v)
    ensures forall id :: id in virtualHCUs ==>
              && virtualHCUs[id] in Members(infos, "share" + Split(resource, "share")[1])
              && id == "vdev" + Itoa(virtualHCUs[id].vdvInd)
  {
    hide Members, Split, Itoa;
    var allVirtualHCUs := GetAllVirtualHCUs(infos);
    var resourceName := "share" + Split(resource, "share")[1];
    virtualHCUs := map[];
    if resourceName in allVirtualHCUs {
      var group := allVirtualHCUs[resourceName];
      for i := 0 to |group|
        invariant forall id :: id in virtualHCUs <==> exists j :: 0 <= j < i && id == DeviceId(group[j])
        invariant forall id :: id in virtualHCUs ==> virtualHCUs[id] in group && id == DeviceId(virtualHCUs[id])
      {
        virtualHCUs := virtualHCUs["vdev" + Itoa(group[i].vdvInd) := group[i]];
      }
      forall id
        ensures id in virtualHCUs <==> exists v :: v in Members(infos, resourceName) && id == DeviceId(v)
      {
      }
    }
  }

  lemma {:induction false} MemberHasKey(infos: seq<VInfo>, key: string)
    ensures forall v :: v in Members(infos, key) <==> v in infos && GroupKey(v) == key
  {
    if infos != [] {
      var n := |infos| - 1;
      MemberHasKey(infos[..n], key);
      assert infos == infos[..n] + [infos[n]];
    }
  }

  lemma DeviceIdInjective(v: VInfo, v': VInfo)
    requires DeviceId(v) == DeviceId(v')
    ensures v.vdvInd == v'.vdvInd
  {
    hide Itoa;
    assert DeviceId(v)[4..] == Itoa(v.vdvInd) && DeviceId(v')[4..] == Itoa(v'.vdvInd);
    ItoaInjective(v.vdvInd, v'.vdvInd);
  }

  /**
    Of the plugins that are started, one for each group, exactly the one for its own group
    advertises a vHCU.
   */
  lemma AdvertisedOnce(infos: seq<VInfo>, prefix: string, v: VInfo, other: VInfo)
    requires DistinctIndices(infos) && v in infos && other in infos && !Contains(prefix, "share")
    ensures var parts := Split(prefix + "-" + GroupKey(other), "share");
            && |parts| > 1
            && ((exists u :: u in Members(infos, "share" + parts[1]) && DeviceId(v) == DeviceId(u))
                <==> GroupKey(other) == GroupKey(v))
  {
    hide Split, Contains, GroupKey, Members, DeviceId;
    ResourceNameRecoversKey(prefix, other);
    MemberHasKey(infos, GroupKey(other));
    forall u | u in infos && DeviceId(v) == DeviceId(u) ensures u == v {
      DeviceIdInjective(v, u);
    }
  }
}
