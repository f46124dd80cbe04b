/**
  No card is ever over-committed over a run of the life cycle, as long as the scheduler places
  each vHCU by a report that no other placement on that card came after.
 */
module Commitment {
  import opened Kube
  import opened PodDevices
  import opened Capacity
  import opened Lifecycle
  import opened Safety
  import F = FakeIds

  // ---------------------------------------------------------------- sums over vHCUs

  ghost function Total(m: map<int, VDevice>, f: VDevice -> int): int
    decreases |m|
  {
    if forall i :: i !in m then 0
    else
      var i :| i in m;
      f(m[i]) + Total(m - {i}, f)
  }

  lemma {:induction false} TotalWithout(m: map<int, VDevice>, f: VDevice -> int, i: int)
    requires i in m
    ensures Total(m, f) == f(m[i]) + Total(m - {i}, f)
    decreases |m|
  {
    var j :| j in m && Total(m, f) == f(m[j]) + Total(m - {j}, f);
    if j != i {
      TotalWithout(m - {j}, f, i);
      TotalWithout(m - {i}, f, j);
      assert m - {i} - {j} == m - {j} - {i};
    }
  }

  /** The values of `m` all stand in `n` under the same index. */
  predicate Within(m: map<int, VDevice>, n: map<int, VDevice>) {
    forall i :: i in m ==> i in n && m[i] == n[i]
  }

  lemma TotalEmpty(m: map<int, VDevice>, f: VDevice -> int)
    requires forall i :: i !in m
    ensures Total(m, f) == 0
  {
  }

  lemma CountWithout(m: map<int, VDevice>, i: int)
    requires i in m
    ensures |m - {i}| == |m| - 1
  {
    assert (m - {i}).Keys == m.Keys - {i};
  }

  lemma {:induction false} TotalGrows(m: map<int, VDevice>, n: map<int, VDevice>, f: VDevice -> int)
    requires Within(m, n) && forall i :: i in n ==> f(n[i]) >= 0
    ensures Total(m, f) <= Total(n, f)
    decreases |n|
  {
    hide Total;
    if i :| i in n {
      TotalWithout(n, f, i);
      CountWithout(n, i);
      if i in m {
        TotalWithout(m, f, i);
        TotalGrows(m - {i}, n - {i}, f);
      } else {
        TotalGrows(m, n - {i}, f);
      }
    } else {
      TotalEmpty(m, f);
      TotalEmpty(n, f);
    }
  }

  // ---------------------------------------------------------------- one card

  function OnCard(live: map<int, VDevice>, card: F.Card): map<int, VDevice> {
    map i | i in live && live[i].card == card.dvInd :: live[i]
  }

  const CUS: VDevice -> int := (v: VDevice) => v.cus
  const ONE: VDevice -> int := (v: VDevice) => 1
  const MIBS: VDevice -> int := (v: VDevice) => v.mib

  /** Compute units, memory and number of the vHCUs on the card stay within what it has. */
  ghost predicate Fits(live: map<int, VDevice>, card: F.Card, split: nat) {
    var on := OnCard(live, card);
    && (forall i :: i in on ==> on[i].mib >= 0)
    && Total(on, CUS) <= card.computeUnit
    && Total(on, MIBS) * Capacity.MIB <= card.memoryTotal
    && Total(on, ONE) <= split
  }

  /** What the plugin reports for the card in this state. */
  ghost function ReportFor(live: map<int, VDevice>, card: F.Card, split: nat): Report
    requires card.computeUnit > 0
  {
    var on := OnCard(live, card);
    ReportOf(card.computeUnit - Total(on, CUS), card.memoryTotal - Total(on, MIBS) * Capacity.MIB, card.computeUnit,
             split - Total(on, ONE))
  }

  /** What it reports when the driver does not tell what remains. */
  ghost function FallbackFor(live: map<int, VDevice>, card: F.Card, split: nat): Report {
    Report(split - Total(OnCard(live, card), ONE), card.memoryTotal / Capacity.MIB, 100)
  }

  predicate FitsReport(d: ContainerDevice, r: Report) {
    r.count >= 1 && d.usedcores <= r.devcore && 0 <= d.usedmem <= r.devmem
  }

  /** The step asks for a vHCU on this card. */
  predicate PlacesOn(cfg: Config, w: World, step: Step, card: F.Card) {
    && step.Allocate?
    && WantsVDevice(cfg, NextDevices(cfg, w, step.e))
    && CardOf(cfg, NextDevices(cfg, w, step.e)[0]).dvInd == card.dvInd
  }

  /** The table knows this card under its device index only. */
  predicate KnowsCard(cfg: Config, card: F.Card) {
    card.computeUnit > 0 && forall key :: key in cfg.hcus && cfg.hcus[key].dvInd == card.dvInd ==> cfg.hcus[key] == card
  }

  /** So does the table that the plugin builds, for every card, if no two share a device index. */
  lemma TableKnowsCard(cfg: Config, cards: map<string, F.Card>, split: nat, bus: string)
    requires F.Lists(cfg.hcus, cfg.idPrefix, cards, split, cards.Keys, "", 0)
    requires forall b, b' :: b in cards && b' in cards && cards[b].dvInd == cards[b'].dvInd ==> b == b'
    requires bus in cards && cards[bus].computeUnit > 0
    ensures KnowsCard(cfg, cards[bus])
  {
    hide F.FakeId;
    forall key | key in cfg.hcus && cfg.hcus[key].dvInd == cards[bus].dvInd ensures cfg.hcus[key] == cards[bus] {
      var b, i: nat :| b in cards && i < split && key == F.KeyOf(cfg.idPrefix, cards[b], i);
    }
  }

  lemma FitsWithin(live: map<int, VDevice>, live': map<int, VDevice>, card: F.Card, split: nat)
    requires Fits(live, card, split) && Within(OnCard(live', card), OnCard(live, card))
    ensures Fits(live', card, split)
  {
    TotalGrows(OnCard(live', card), OnCard(live, card), CUS);
    TotalGrows(OnCard(live', card), OnCard(live, card), MIBS);
    TotalGrows(OnCard(live', card), OnCard(live, card), ONE);
  }

  lemma RefreshAddsNothing(cfg: Config, w: World, f: RefreshFaults)
    ensures Within(Refreshed(cfg, w, f).live, w.live)
  {
    hide IsMark, OwnerOf, IndexOf, Needed;
  }

  /** The step makes a vHCU that is still there when it ends. */
  predicate LeavesVDevice(cfg: Config, w: World, step: Step) {
    step.Allocate? && Creates(cfg, w, step.e) && VDeviceStays(step.e)
  }

  /** The step leaves a new vHCU on this card. */
  predicate AddsTo(cfg: Config, w: World, step: Step, card: F.Card) {
    LeavesVDevice(cfg, w, step) && PlacesOn(cfg, w, step, card)
  }

  /** Whatever fails, a step adds at most the one vHCU that it was asked for. */
  lemma LiveAfter(cfg: Config, w: World, step: Step)
    requires Possible(cfg, w, step)
    ensures LeavesVDevice(cfg, w, step) ==>
              var e := step.e;
              && Finds(cfg, w, e) && WantsVDevice(cfg, NextDevices(cfg, w, e))
              && e.created.Some? && e.created.value !in Refreshed(cfg, w, e.refresh).live
              && Within(Refreshed(cfg, w, e.refresh).live, w.live)
              && Next(cfg, w, step).live
                 == Refreshed(cfg, w, e.refresh).live[e.created.value :=
                      VDeviceFor(cfg, NextOwner(cfg, w, e), NextDevices(cfg, w, e)[0])]
    ensures !LeavesVDevice(cfg, w, step) ==> Within(Next(cfg, w, step).live, w.live)
  {
    hide Refreshed, Allocated, NextDevices, NextOwner, VDeviceFor, DevicesPass, VDeviceStays, MarkStays, Finds;
    match step
    case Refresh(f) => RefreshAddsNothing(cfg, w, f);
    case Allocate(e) =>
      RefreshAddsNothing(cfg, w, e.refresh);
      if Creates(cfg, w, e) {
        CreatesFinds(cfg, w, e);
      }
      if e.requests != 1 {
        BadRequestChangesNothing(cfg, w, e);
        NotOneFindsNothing(cfg, w, e);
      } else if Finds(cfg, w, e) {
        AllocateChanges(cfg, w, e);
      } else {
        NothingFound(cfg, w, e);
      }
    case _ =>
  }

  lemma NotOneFindsNothing(cfg: Config, w: World, e: AllocateEnv)
    requires e.requests != 1
    ensures !Finds(cfg, w, e)
  {
  }

  /** A step that leaves no vHCU on the card adds nothing to it, whatever it was asked for. */
  lemma OtherStepsAddNothing(cfg: Config, w: World, step: Step, card: F.Card)
    requires Possible(cfg, w, step) && !AddsTo(cfg, w, step, card)
    ensures Within(OnCard(Next(cfg, w, step).live, card), OnCard(w.live, card))
  {
    hide Next, Refreshed, NextDevices, NextOwner, Creates, VDeviceStays, Possible, GrantedCUs, Finds;
    LiveAfter(cfg, w, step);
  }

  /** A placement by a report that still bounds the card from above keeps the card within limits. */
  lemma PlacementFits(cfg: Config, reported: map<int, VDevice>, w: World, step: Step, card: F.Card, split: nat)
    requires Possible(cfg, w, step) && KnowsCard(cfg, card)
    requires Fits(reported, card, split) && Within(OnCard(w.live, card), OnCard(reported, card))
    requires PlacesOn(cfg, w, step, card)
    requires FitsReport(NextDevices(cfg, w, step.e)[0], ReportFor(reported, card, split))
    ensures Fits(Next(cfg, w, step).live, card, split)
  {
    hide Next, Refreshed, NextDevices, NextOwner, Creates, VDeviceStays, Possible, Fits, GrantedCUs, FitsReport;
    hide ReportFor, Finds;
    LiveAfter(cfg, w, step);
    if LeavesVDevice(cfg, w, step) {
      var w1, d := Refreshed(cfg, w, step.e.refresh), NextDevices(cfg, w, step.e)[0];
      AddedFits(reported, w1.live, card, split, step.e.created.value, VDeviceFor(cfg, NextOwner(cfg, w, step.e), d), d);
    } else {
      FitsWithin(reported, Next(cfg, w, step).live, card, split);
    }
  }

  /** Against the state it meets, a placement keeps the card within limits if, and only if, it fits the report. */
  lemma PlacementFitsExactly(cfg: Config, w: World, step: Step, card: F.Card, split: nat)
    requires Possible(cfg, w, step) && KnowsCard(cfg, card)
    requires LeavesVDevice(cfg, w, step) && PlacesOn(cfg, w, step, card)
    requires Fits(Refreshed(cfg, w, step.e.refresh).live, card, split)
    ensures Fits(Next(cfg, w, step).live, card, split) <==>
            FitsReport(NextDevices(cfg, w, step.e)[0], ReportFor(Refreshed(cfg, w, step.e.refresh).live, card, split))
  {
    hide Next, Refreshed, NextDevices, NextOwner, Creates, VDeviceStays, Possible, Fits, GrantedCUs, FitsReport;
    hide ReportFor, Finds;
    LiveAfter(cfg, w, step);
    var w1, d := Refreshed(cfg, w, step.e.refresh), NextDevices(cfg, w, step.e)[0];
    AddedFitsExactly(w1.live, card, split, step.e.created.value, VDeviceFor(cfg, NextOwner(cfg, w, step.e), d), d);
  }

  lemma AddedTotals(live: map<int, VDevice>, card: F.Card, i: int, v: VDevice)
    requires i !in live && v.card == card.dvInd
    ensures var before, now := OnCard(live, card), OnCard(live[i := v], card);
            && Total(now, CUS) == Total(before, CUS) + v.cus
            && Total(now, MIBS) == Total(before, MIBS) + v.mib
            && Total(now, ONE) == Total(before, ONE) + 1
            && ((forall j :: j in now ==> now[j].mib >= 0)
                <==> v.mib >= 0 && forall j :: j in before ==> before[j].mib >= 0)
  {
    hide Total, OnCard;
    var now := OnCard(live[i := v], card);
    OnCardAdds(live, card, i, v);
    TotalWithout(now, CUS, i);
    TotalWithout(now, MIBS, i);
    TotalWithout(now, ONE, i);
  }

  lemma AddedFits(reported: map<int, VDevice>, live: map<int, VDevice>, card: F.Card, split: nat,
                  i: int, v: VDevice, d: ContainerDevice)
    requires card.computeUnit > 0 && Fits(reported, card, split) && Within(OnCard(live, card), OnCard(reported, card))
    requires i !in live && v.card == card.dvInd
    requires v.cus == GrantedCUs(d.usedcores, card.computeUnit) && v.mib == d.usedmem
    requires FitsReport(d, ReportFor(reported, card, split))
    ensures Fits(live[i := v], card, split)
  {
    hide GrantedCUs, Total, OnCard, FitsReport, ReportFor;
    var on, before := OnCard(reported, card), OnCard(live, card);
    TotalGrows(before, on, CUS);
    TotalGrows(before, on, MIBS);
    TotalGrows(before, on, ONE);
    AddedTotals(live, card, i, v);
    RoomLeft(reported, card, split, d);
  }

  lemma AddedFitsExactly(live: map<int, VDevice>, card: F.Card, split: nat, i: int, v: VDevice, d: ContainerDevice)
    requires card.computeUnit > 0 && Fits(live, card, split)
    requires i !in live && v.card == card.dvInd
    requires v.cus == GrantedCUs(d.usedcores, card.computeUnit) && v.mib == d.usedmem
    ensures Fits(live[i := v], card, split) <==> FitsReport(d, ReportFor(live, card, split))
  {
    hide GrantedCUs, Total, OnCard, FitsReport, ReportFor;
    AddedTotals(live, card, i, v);
    RoomLeft(live, card, split, d);
  }

  /** What a fitting request can count on, and what a request that does not fit lacks. */
  lemma RoomLeft(live: map<int, VDevice>, card: F.Card, split: nat, d: ContainerDevice)
    requires card.computeUnit > 0 && Fits(live, card, split)
    ensures var on := OnCard(live, card);
            FitsReport(d, ReportFor(live, card, split)) <==>
              && d.usedmem >= 0
              && Total(on, CUS) + GrantedCUs(d.usedcores, card.computeUnit) <= card.computeUnit
              && (Total(on, MIBS) + d.usedmem) * Capacity.MIB <= card.memoryTotal
              && Total(on, ONE) + 1 <= split
  {
    hide GrantedCUs, Total, OnCard;
    var on := OnCard(live, card);
    ReportAndGrantCompose(d.usedcores, d.usedmem, card.computeUnit - Total(on, CUS),
                          card.memoryTotal - Total(on, MIBS) * Capacity.MIB, card.computeUnit, split - Total(on, ONE));
  }

  lemma OnCardAdds(live: map<int, VDevice>, card: F.Card, i: int, v: VDevice)
    requires i !in live && v.card == card.dvInd
    ensures var now := OnCard(live[i := v], card);
            && i in now && now[i] == v && now - {i} == OnCard(live, card)
            && forall j :: j in now ==> j == i || (j in OnCard(live, card) && now[j] == OnCard(live, card)[j])
  {
    var now, before := OnCard(live[i := v], card), OnCard(live, card);
    assert now == before[i := v] && now - {i} == before;
  }

  // ---------------------------------------------------------------- the report as it is sent

  lemma TotalNonNegative(m: map<int, VDevice>, f: VDevice -> int)
    requires forall i :: i in m ==> f(m[i]) >= 0
    ensures Total(m, f) >= 0
  {
    TotalEmpty(map[], f);
    TotalGrows(map[], m, f);
  }

  /**
    What the driver says of the card is the state of its vHCUs, except that `remain` may be unknown.
    Nothing is said of `vdevices`: an error of that query is ignored and its number used as it is.
   */
  ghost predicate DriverAgrees(d: Device, live: map<int, VDevice>, card: F.Card) {
    var on := OnCard(live, card);
    && d.memoryTotal == card.memoryTotal && d.computeUnit == card.computeUnit
    && (d.remain.Some? ==>
          && d.remain.value.0 == card.computeUnit - Total(on, CUS)
          && d.remain.value.1 == card.memoryTotal - Total(on, MIBS) * Capacity.MIB)
  }

  /** The report when `counted` vHCUs were counted and the driver told what remains, or did not. */
  ghost function SentFor(live: map<int, VDevice>, card: F.Card, split: nat, counted: nat, known: bool): Report
    requires card.computeUnit > 0
  {
    (if known then ReportFor(live, card, split) else FallbackFor(live, card, split)).(count := split - counted)
  }

  /** Within the limits of the card nothing is lost in the 32-bit fields of the report. */
  lemma ReportIsSent(d: Device, live: map<int, VDevice>, card: F.Card, split: nat,
                     idPrefix: string, statuses: Option<seq<HealthStatus>>)
    requires Reported(d) && DriverAgrees(d, live, card) && Fits(live, card, split)
    requires split < 0x8000_0000 && d.vdevices < 0x8000_0000
    ensures InfoOf(idPrefix, d, split, statuses).report == SentFor(live, card, split, d.vdevices, d.remain.Some?)
    ensures d.vdevices == Total(OnCard(live, card), ONE) && d.remain.Some? ==>
              InfoOf(idPrefix, d, split, statuses).report == ReportFor(live, card, split)
  {
    hide Total, OnCard, Narrowed, Healthy;
    var on := OnCard(live, card);
    TotalNonNegative(on, CUS);
    TotalNonNegative(on, MIBS);
    var r := RawReport(d, split);
    assert -0x8000_0000 <= r.count < 0x8000_0000;
    assert 0 <= r.devmem < 0x8000_0000 && 0 <= r.devcore <= 100 by {
      if d.remain.Some? {
        FloorBounds(101, d.remain.value.0 * 100, d.computeUnit);
        FloorBounds(0, d.remain.value.0 * 100, d.computeUnit);
        FloorBounds(0x8000_0000, d.remain.value.1, Capacity.MIB);
      }
    }
    NarrowedStays(r);
  }

  lemma NarrowedStays(r: Report)
    requires -0x8000_0000 <= r.count < 0x8000_0000 && 0 <= r.devmem < 0x8000_0000 && 0 <= r.devcore < 0x8000_0000
    ensures Narrowed(r) == r
  {
  }

  /** A vHCU request that fits the report that was sent, but not what the card has left. */
  ghost predicate FitsSentOnly(d: ContainerDevice, live: map<int, VDevice>, card: F.Card, split: nat,
                               counted: nat, known: bool)
    requires card.computeUnit > 0
  {
    && FitsReport(d, SentFor(live, card, split, counted, known)) && d.usedmem < F.TotalMiB(card)
    && !FitsReport(d, ReportFor(live, card, split))
  }

  /**
    When a query of the driver fails, the report offers too much: the whole card, or slots that are
    taken. By PlacementFitsExactly a vHCU placed by it over-commits the card exactly if it fits the
    report that was sent only. Such requests exist if, and only if, the report shows a free slot and
    either all slots are taken, or what remains is unknown while some compute units or more than one
    MiB are in use.
   */
  lemma FallbackOvercommits(live: map<int, VDevice>, card: F.Card, split: nat, counted: nat, known: bool)
    requires card.computeUnit > 0 && Fits(live, card, split)
    ensures var on := OnCard(live, card);
            (exists d :: FitsSentOnly(d, live, card, split, counted, known)) <==>
              && counted < split && F.TotalMiB(card) > 0
              && (Total(on, ONE) == split || (!known && (Total(on, CUS) > 0 || Total(on, MIBS) > 1)))
  {
    hide Total, OnCard;
    var on := OnCard(live, card);
    var cu, mem := card.computeUnit - Total(on, CUS), card.memoryTotal - Total(on, MIBS) * Capacity.MIB;
    TotalNonNegative(on, CUS);
    TotalNonNegative(on, MIBS);
    FloorBounds(100, cu * 100, card.computeUnit);
    FloorBounds(0, cu * 100, card.computeUnit);
    assert mem / Capacity.MIB == F.TotalMiB(card) - Total(on, MIBS);
    if counted < split && F.TotalMiB(card) > 0 {
      var none, cores := ContainerDevice(0, "", "", 0, 0, ""), ContainerDevice(0, "", "", 0, 100, "");
      var most := ContainerDevice(0, "", "", F.TotalMiB(card) - 1, 0, "");
      if Total(on, ONE) == split {
        assert FitsSentOnly(none, live, card, split, counted, known);
      } else if !known && Total(on, CUS) > 0 {
        assert FitsSentOnly(cores, live, card, split, counted, known);
      } else if !known && Total(on, MIBS) > 1 {
        assert FitsSentOnly(most, live, card, split, counted, known);
      }
    }
  }

  // ---------------------------------------------------------------- every run

  /** Step k's request fits the report on state r, and no vHCU was left on the card in between. */
  ghost predicate PlacedBy(cfg: Config, w: World, steps: seq<Step>, card: F.Card, split: nat, r: nat, k: nat)
    requires r <= k < |steps| && card.computeUnit > 0
    requires AddsTo(cfg, After(cfg, w, steps[..k]), steps[k], card)
  {
    && (forall j :: r <= j < k ==> !AddsTo(cfg, After(cfg, w, steps[..j]), steps[j], card))
    && FitsReport(NextDevices(cfg, After(cfg, w, steps[..k]), steps[k].e)[0],
                  ReportFor(After(cfg, w, steps[..r]).live, card, split))
  }

  lemma {:induction false} OnlyShrinks(cfg: Config, w: World, steps: seq<Step>, card: F.Card, r: nat, k: nat)
    requires PossibleRun(cfg, w, steps) && r <= k <= |steps|
    requires forall j :: r <= j < k ==> !AddsTo(cfg, After(cfg, w, steps[..j]), steps[j], card)
    ensures Within(OnCard(After(cfg, w, steps[..k]).live, card), OnCard(After(cfg, w, steps[..r]).live, card))
    decreases k
  {
    hide Possible, Next, After, AddsTo;
    if r < k {
      OnlyShrinks(cfg, w, steps, card, r, k - 1);
      AfterStep(cfg, w, steps, k - 1);
      OtherStepsAddNothing(cfg, After(cfg, w, steps[..k - 1]), steps[k - 1], card);
    }
  }

  /**
    Over every run in which each vHCU that stays on the card was placed by the latest report on it,
    the card never carries more compute units, memory or vHCUs than it has. Destroys, and calls that
    fail or take back what they made, may come at any time and with any request.
   */
  lemma {:induction false} NeverOvercommitted(cfg: Config, w: World, steps: seq<Step>, card: F.Card, split: nat, k: nat)
    requires PossibleRun(cfg, w, steps) && k <= |steps|
    requires KnowsCard(cfg, card) && Fits(w.live, card, split)
    requires forall i :: 0 <= i < |steps| && AddsTo(cfg, After(cfg, w, steps[..i]), steps[i], card) ==>
               exists r: nat :: r <= i && PlacedBy(cfg, w, steps, card, split, r, i)
    ensures Fits(After(cfg, w, steps[..k]).live, card, split)
    decreases k
  {
    hide Possible, Next, After, AddsTo, PlacesOn, Fits, FitsReport, ReportFor, NextDevices, KnowsCard;
    if k == 0 {
      assert steps[..0] == [];
      Start(cfg, w);
    } else {
      var i := k - 1;
      var now := After(cfg, w, steps[..i]);
      AfterStep(cfg, w, steps, i);
      if AddsTo(cfg, now, steps[i], card) {
        assert PlacesOn(cfg, now, steps[i], card) by {
          AddingPlaces(cfg, now, steps[i], card);
        }
        assert card.computeUnit > 0 by {
          Positive(cfg, card);
        }
        var r: nat :| r <= i && PlacedBy(cfg, w, steps, card, split, r, i);
        NeverOvercommitted(cfg, w, steps, card, split, r);
        OnlyShrinks(cfg, w, steps, card, r, i);
        PlacementFits(cfg, After(cfg, w, steps[..r]).live, now, steps[i], card, split);
      } else {
        NeverOvercommitted(cfg, w, steps, card, split, i);
        OtherStepsAddNothing(cfg, now, steps[i], card);
        FitsWithin(now.live, After(cfg, w, steps[..k]).live, card, split);
      }
    }
  }

  lemma AddingPlaces(cfg: Config, w: World, step: Step, card: F.Card)
    requires AddsTo(cfg, w, step, card)
    ensures PlacesOn(cfg, w, step, card)
  {
  }

  lemma Start(cfg: Config, w: World)
    ensures After(cfg, w, []) == w
  {
  }

  lemma Positive(cfg: Config, card: F.Card)
    requires KnowsCard(cfg, card)
    ensures card.computeUnit > 0
  {
  }
}
