/**
  Compute units and memory of one card: what the node reports as remaining and what an
  allocation then takes. Shares are whole percentages; the report rounds down, the grant up.
 */
module Capacity {
  import opened GoNumbers
  import opened Kube
  import opened ResourcePrefix

  const MIB := 0x10_0000

  function CeilDiv(a: nat, b: nat): nat
    requires b > 0
  {
    (a + b - 1) / b
  }

  /** Compute units of a vHCU for a share in percent; 0 asks for a memory-only vHCU. */
  function GrantedCUs(percent: int, computeUnit: nat): nat {
    if percent <= 0 then 0
    else
      var cus := CeilDiv(percent * computeUnit, 100);
      if cus < 1 then 1 else cus
  }

  /** What one device offers in the report: free slots, memory in MiB, share in percent. */
  datatype Report = Report(count: int, devmem: int, devcore: int)

  function ReportOf(remainCU: int, remainMem: int, computeUnit: nat, free: int): Report
    requires computeUnit > 0
  {
    Report(free, remainMem / MIB, remainCU * 100 / computeUnit)
  }

  /** The report as it is sent, in 32-bit fields. */
  function Narrowed(r: Report): Report {
    Report(ToInt32(r.count), ToInt32(r.devmem), ToInt32(r.devcore))
  }

  /**
    One physical card as the driver describes it. `named` is the normalised name that the driver
    gives on request, `remain` the remaining units and bytes; None when that query failed.
   */
  datatype Device = Device(
    dvInd: nat, deviceId: string, devTypeName: string, named: Option<string>, memoryTotal: nat, computeUnit: nat,
    numas: seq<int>, vdevices: nat, remain: Option<(nat, nat)>)

  datatype HealthStatus = HealthStatus(hcu: nat, status: string)

  datatype DeviceInfo = DeviceInfo(index: int, id: string, report: Report, numa: int, devType: string, health: bool)

  function ResolveDevTypeName(d: Device): string {
    if d.devTypeName != "" then d.devTypeName else if d.named.Some? then d.named.value else ""
  }

  /** The verdict on the card is the first one listed for it; a card that is not listed is not healthy. */
  predicate Healthy(statuses: seq<HealthStatus>, idx: nat) {
    exists i :: 0 <= i < |statuses| && statuses[i].hcu == idx && EqualFold(statuses[i].status, "Healthy")
                && forall j :: 0 <= j < i ==> statuses[j].hcu != idx
  }

  method SimpleHealthCheck(statuses: seq<HealthStatus>, idx: nat) returns (healthy: bool)
    ensures healthy <==> Healthy(statuses, idx)
    ensures forall i ::
              && 0 <= i < |statuses| && statuses[i].hcu == idx
              && (forall j :: 0 <= j < i ==> statuses[j].hcu != idx) ==>
                (healthy <==> ToLower(statuses[i].status) == ToLower("Healthy"))
    ensures (forall i :: 0 <= i < |statuses| ==> statuses[i].hcu != idx) ==> !healthy
  {
    hide ToLower;
    for i := 0 to |statuses|
      invariant forall j :: 0 <= j < i ==> statuses[j].hcu != idx
    {
      if statuses[i].hcu == idx {
        return EqualFold(statuses[i].status, "Healthy");
      }
    }
    return false;
  }

  /** The card is complete: it has memory, compute units, a type and a NUMA node. */
  predicate Reported(d: Device) {
    d.memoryTotal > 0 && d.computeUnit > 0 && ResolveDevTypeName(d) != "" && d.numas != []
  }

  /** With the remaining capacity unknown, the whole card is offered. */
  function RawReport(d: Device, split: nat): Report
    requires d.computeUnit > 0
  {
    var free := split - d.vdevices;
    if d.remain.None? then Report(free, d.memoryTotal / MIB, 100)
    else ReportOf(d.remain.value.0, d.remain.value.1, d.computeUnit, free)
  }

  function InfoOf(idPrefix: string, d: Device, split: nat, statuses: Option<seq<HealthStatus>>): DeviceInfo
    requires Reported(d)
  {
    DeviceInfo(d.dvInd, FormatDeviceUUID(idPrefix, d.deviceId), Narrowed(RawReport(d, split)), d.numas[0],
               FormatDeviceUUID(idPrefix, ResolveDevTypeName(d)), statuses.None? || Healthy(statuses.value, d.dvInd))
  }

  /** `res` lists what the complete ones among `devices` offer; `picks` are their positions. */
  ghost predicate Reports(res: seq<DeviceInfo>, picks: seq<nat>, idPrefix: string, devices: seq<Device>, split: nat,
                          statuses: Option<seq<HealthStatus>>)
  {
    && |picks| == |res|
    && (forall k :: 0 <= k < |picks| ==>
          && picks[k] < |devices| && Reported(devices[picks[k]])
          && res[k] == InfoOf(idPrefix, devices[picks[k]], split, statuses))
    && (forall k, l :: 0 <= k < l < |picks| ==> picks[k] < picks[l])
    && (forall i :: 0 <= i < |devices| && Reported(devices[i]) ==> i in picks)
  }

  /** Incomplete devices are left out of the report; the others keep their order. */
  method ApiDevicesRemain(idPrefix: string, hcus: seq<Device>, split: nat, healthList: Option<seq<HealthStatus>>)
    returns (res: seq<DeviceInfo>)
    ensures exists picks :: Reports(res, picks, idPrefix, hcus, split, healthList)
  {
    hide Healthy, InfoOf, ToInt32, Reported;
    res := [];
    ghost var picks: seq<nat> := [];
    for i := 0 to |hcus|
      invariant |picks| == |res|
      invariant forall k :: 0 <= k < |picks| ==>
                  picks[k] < i && Reported(hcus[picks[k]])
                  && res[k] == InfoOf(idPrefix, hcus[picks[k]], split, healthList)
      invariant forall k, l :: 0 <= k < l < |picks| ==> picks[k] < picks[l]
      invariant forall j :: 0 <= j < i && Reported(hcus[j]) ==> j in picks
    {
      var val := hcus[i];
      var devTypeName := ResolveDevTypeName(val);
      CompleteIsReported(val);
      if val.memoryTotal <= 0 || val.computeUnit <= 0 || devTypeName == "" {
        continue;
      }
      var health := true;
      if healthList.Some? {
        health := SimpleHealthCheck(healthList.value, val.dvInd);
      }
      if |val.numas| == 0 {
        continue;
      }
      InfoSpelledOut(idPrefix, val, split, healthList);
      var devmem, devcore := ToInt32(val.memoryTotal / 1024 / 1024), 100;
      if val.remain.Some? {
        devmem := ToInt32(val.remain.value.1 / 1024 / 1024);
        devcore := ToInt32(val.remain.value.0 * 100 / val.computeUnit);
      }
      res := res + [DeviceInfo(val.dvInd, FormatDeviceUUID(idPrefix, val.deviceId),
                               Report(ToInt32(split - val.vdevices), devmem, devcore), val.numas[0],
                               FormatDeviceUUID(idPrefix, devTypeName), health)];
      assert res[|res| - 1] == InfoOf(idPrefix, val, split, healthList);
      picks := picks + [i];
    }
    assert Reports(res, picks, idPrefix, hcus, split, healthList);
  }

  /** Reported is a card with memory, compute units, a NUMA node, and a type of its own or from the driver. */
  lemma CompleteIsReported(d: Device)
    ensures Reported(d) <==>
              && d.memoryTotal > 0 && d.computeUnit > 0 && d.numas != []
              && (d.devTypeName != "" || (d.named.Some? && d.named.value != ""))
  {
  }

  /** What the report says of a card, field by field. */
  lemma InfoSpelledOut(idPrefix: string, d: Device, split: nat, statuses: Option<seq<HealthStatus>>)
    requires Reported(d)
    ensures var info := InfoOf(idPrefix, d, split, statuses);
            && info.index == d.dvInd && info.id == idPrefix + "-" + d.deviceId && info.numa == d.numas[0]
            && info.devType == idPrefix + "-" + (if d.devTypeName != "" then d.devTypeName else d.named.value)
            && info.health == (statuses.None? || Healthy(statuses.value, d.dvInd))
            && info.report.count == ToInt32(split - d.vdevices)
            && (d.remain.None? ==>
                  info.report.devmem == ToInt32(d.memoryTotal / 1024 / 1024) && info.report.devcore == 100)
            && (d.remain.Some? ==>
                  && info.report.devmem == ToInt32(d.remain.value.1 / 1024 / 1024)
                  && info.report.devcore == ToInt32(d.remain.value.0 * 100 / d.computeUnit))
  {
    hide Healthy, ToInt32;
    assert ToInt32(100) == 100 by {
      SmallStays();
    }
  }

  lemma SmallStays()
    ensures ToInt32(100) == 100
  {
  }

  // ---------------------------------------------------------------- one grant

  lemma Mul(a: int, b: int, c: int)
    requires a <= b && c >= 0
    ensures a * c <= b * c
  {
  }

  /** A grant covers its share and exceeds it by less than one unit, within the card. */
  lemma GrantIsTight(percent: int, computeUnit: nat)
    requires 0 < percent <= 100 && computeUnit >= 1
    ensures var g := GrantedCUs(percent, computeUnit);
            && 1 <= g <= computeUnit
            && percent * computeUnit <= g * 100 < percent * computeUnit + 100
  {
    Mul(1, percent, computeUnit);
    Mul(percent, 100, computeUnit);
    CeilBounds(percent * computeUnit, 100);
  }

  lemma CeilBounds(a: nat, b: nat)
    requires b > 0
    ensures a <= CeilDiv(a, b) * b < a + b
  {
    var q := (a + b - 1) / b;
    assert a + b - 1 == q * b + (a + b - 1) % b;
  }

  /**
    Rounding down in the report and up in the grant fit together: a request fits the report
    exactly when it takes no more than what remains, in units and in bytes.
   */
  lemma ReportAndGrantCompose(percent: int, mem: int, remainCU: nat, remainMem: nat, computeUnit: nat, free: int)
    requires computeUnit >= 1
    ensures var r := ReportOf(remainCU, remainMem, computeUnit, free);
            && (percent <= r.devcore <==> GrantedCUs(percent, computeUnit) <= remainCU)
            && (mem <= r.devmem <==> mem * MIB <= remainMem)
  {
    FloorBounds(percent, remainCU * 100, computeUnit);
    FloorBounds(mem, remainMem, MIB);
    GrantFits(percent, remainCU, computeUnit);
  }

  lemma FloorBounds(x: int, a: nat, b: nat)
    requires b > 0
    ensures x <= a / b <==> x * b <= a
  {
    var q := a / b;
    assert a == q * b + a % b;
    if x <= q {
      Mul(x, q, b);
    } else {
      Mul(q + 1, x, b);
    }
  }

  lemma GrantFits(percent: int, remainCU: nat, computeUnit: nat)
    requires computeUnit >= 1
    ensures GrantedCUs(percent, computeUnit) <= remainCU <==> percent * computeUnit <= remainCU * 100
  {
    if percent > 0 {
      Mul(1, percent, computeUnit);
      CeilBounds(percent * computeUnit, 100);
    } else {
      Mul(percent, 0, computeUnit);
    }
  }

  // ---------------------------------------------------------------- several grants

  function Sum(xs: seq<nat>): nat {
    if xs == [] then 0 else xs[0] + Sum(xs[1..])
  }

  function Grants(percents: seq<nat>, computeUnit: nat): (gs: seq<nat>)
    ensures |gs| == |percents|
  {
    seq(|percents|, i requires 0 <= i < |percents| => GrantedCUs(percents[i], computeUnit))
  }

  /** What rounding up costs a share, in hundredths of a compute unit. */
  function Loss(percent: nat, computeUnit: nat): (h: nat)
    ensures h < 100
  {
    (100 - percent * computeUnit % 100) % 100
  }

  function Losses(percents: seq<nat>, computeUnit: nat): (hs: seq<nat>)
    ensures |hs| == |percents|
  {
    seq(|percents|, i requires 0 <= i < |percents| => Loss(percents[i], computeUnit))
  }

  lemma GrantLoss(percent: nat, computeUnit: nat)
    requires computeUnit >= 1
    ensures GrantedCUs(percent, computeUnit) * 100 == percent * computeUnit + Loss(percent, computeUnit)
  {
    if percent > 0 {
      Mul(1, percent, computeUnit);
      CeilBounds(percent * computeUnit, 100);
    }
  }

  /** Exactly what several shares take together. */
  lemma {:induction false} GrantsSum(percents: seq<nat>, computeUnit: nat)
    requires computeUnit >= 1
    ensures Sum(Grants(percents, computeUnit)) * 100 == Sum(percents) * computeUnit + Sum(Losses(percents, computeUnit))
    ensures Sum(Losses(percents, computeUnit)) <= 99 * |percents|
  {
    hide GrantedCUs, Loss;
    if percents != [] {
      var p, rest := percents[0], percents[1..];
      GrantLoss(p, computeUnit);
      GrantsSum(rest, computeUnit);
      var gs, hs := Grants(percents, computeUnit), Losses(percents, computeUnit);
      assert gs[0] == GrantedCUs(p, computeUnit) && gs[1..] == Grants(rest, computeUnit);
      assert hs[0] == Loss(p, computeUnit) && hs[1..] == Losses(rest, computeUnit);
      Distribute(p, Sum(rest), computeUnit);
    }
  }

  lemma Distribute(a: int, b: int, c: int)
    ensures (a + b) * c == a * c + b * c
  {
  }

  /**
    Several placements against one and the same report. They fit exactly when their percentages
    and what rounding up costs them fit together; so the report must cover the percentages, and
    that is enough for shares of whole units. For other shares it is not: the card can then be
    over-committed, by at most one unit for every share but one. Memory and slots add up exactly.
   */
  lemma PlacementsAgainstOneReport(percents: seq<nat>, mems: seq<nat>, remainCU: nat, remainMem: nat,
                                   computeUnit: nat, free: int)
    requires computeUnit >= 1 && percents != []
    ensures var r := ReportOf(remainCU, remainMem, computeUnit, free);
            var taken, lost := Sum(Grants(percents, computeUnit)), Sum(Losses(percents, computeUnit));
            && (taken <= remainCU <==> Sum(percents) * computeUnit + lost <= remainCU * 100)
            && (taken <= remainCU ==> Sum(percents) <= r.devcore)
            && (lost == 0 && Sum(percents) <= r.devcore ==> taken <= remainCU)
            && (Sum(percents) <= r.devcore ==> taken <= remainCU + |percents| - 1)
            && (Sum(mems) <= r.devmem <==> Sum(mems) * MIB <= remainMem)
  {
    hide Sum, Grants, Losses;
    GrantsSum(percents, computeUnit);
    FloorBounds(Sum(percents), remainCU * 100, computeUnit);
    FloorBounds(Sum(mems), remainMem, MIB);
  }

  /** Rounding up alone over-commits a card by at most one unit for every share but one. */
  lemma OvercommitBound(percents: seq<nat>, computeUnit: nat)
    requires computeUnit >= 1 && percents != []
    requires (forall p :: p in percents ==> p > 0) && Sum(percents) <= 100
    ensures Sum(Grants(percents, computeUnit)) <= computeUnit + |percents| - 1
  {
    hide Sum, Grants, Losses;
    FloorBounds(100, computeUnit * 100, computeUnit);
    PlacementsAgainstOneReport(percents, [], computeUnit, 0, computeUnit, 0);
  }

  lemma {:induction false} SumOfOnes(n: nat)
    ensures Sum(seq(n, _ => 1)) == n
  {
    if n > 0 {
      assert seq(n, _ => 1)[1..] == seq(n - 1, _ => 1);
      SumOfOnes(n - 1);
    }
  }

  /** The bound cannot be improved for any number of shares that 100 percent can be cut into. */
  lemma OvercommitBoundAttained(k: nat) returns (percents: seq<nat>, computeUnit: nat)
    requires 1 <= k <= 100
    ensures |percents| == k && (forall p :: p in percents ==> p > 0) && Sum(percents) <= 100 && computeUnit >= 1
    ensures Sum(Grants(percents, computeUnit)) == computeUnit + k - 1
  {
    percents, computeUnit := seq(k, _ => 1), 1;
    SumOfOnes(k);
    assert GrantedCUs(1, 1) == 1;
    assert Grants(percents, 1) == seq(k, _ => 1);
  }

  /**
    So a report is good for one placement only: any k shares that it covers together may take
    up to k - 1 units more than remain, and for every k there is a card on which they do.
   */
  lemma StaleReportOvercommits(k: nat) returns (percents: seq<nat>, remainCU: nat, computeUnit: nat)
    requires 2 <= k <= 100
    ensures |percents| == k && computeUnit >= 1 && (forall p :: p in percents ==> p > 0)
    ensures var r := ReportOf(remainCU, k * MIB, computeUnit, k);
            && Sum(percents) <= r.devcore && r.count == r.devmem == k
            && Sum(Grants(percents, computeUnit)) == remainCU + k - 1
  {
    percents, computeUnit := OvercommitBoundAttained(k);
    remainCU := computeUnit;
    FloorBounds(100, computeUnit * 100, computeUnit);
    FloorBounds(k, k * MIB, MIB);
    FloorBounds(k + 1, k * MIB, MIB);
  }
}
