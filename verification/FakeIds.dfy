/** The table from advertised device ids to physical cards: each card under several fake ids. */
module FakeIds {
  import opened GoNumbers
  import opened GoStrings
  import opened ResourcePrefix
  import Capacity

  datatype DeviceInfo = DeviceInfo(dvInd: Int64, pciBus: string, deviceId: string, memoryTotal: nat, computeUnit: nat)

  /** A card whose memory in MiB fits the 32 bits that the annotation has for it. */
  type Card = d: DeviceInfo | d.memoryTotal / Capacity.MIB < 0x8000_0000 witness DeviceInfo(0, "", "", 0, 0)

  function TotalMiB(card: Card): Int32 {
    card.memoryTotal / Capacity.MIB
  }

  function FakeId(uuid: string, idx: nat): string {
    uuid + "-fake-" + Itoa(idx)
  }

  lemma FakeIdInjective(uuid: string, idx: nat, uuid': string, idx': nat)
    requires FakeId(uuid, idx) == FakeId(uuid', idx')
    ensures uuid == uuid' && idx == idx'
  {
    hide Itoa;
    var n, n' := Itoa(idx), Itoa(idx');
    assert FakeId(uuid, idx) == uuid + "-fake" + "-" + n && FakeId(uuid', idx') == uuid' + "-fake" + "-" + n';
    SameTail(uuid + "-fake", n, uuid' + "-fake", n');
    ItoaInjective(idx, idx');
    assert uuid == (uuid + "-fake")[..|uuid|];
    assert uuid' == (uuid' + "-fake")[..|uuid'|];
  }

  /** Two texts that agree and end in '-' and digits have the same digits there. */
  lemma SameTail(a: string, n: string, b: string, m: string)
    requires a + "-" + n == b + "-" + m
    requires (forall c :: c in n ==> IsDigit(c)) && (forall c :: c in m ==> IsDigit(c))
    ensures a == b && n == m
  {
    hide Split;
    SplitAppend(a, '-', n);
    SplitAppend(b, '-', m);
    SplitWithout(n, '-');
    SplitWithout(m, '-');
    var s := a + "-" + n;
    assert Split(s, "-")[|Split(s, "-")| - 1] == n == m;
    assert a == s[..|a|] == b;
  }

  // ---------------------------------------------------------------- the table

  /** Cards by PCI bus, as the driver lists them, with distinct serials. */
  predicate DistinctSerials(cards: map<string, Card>) {
    forall b, b' :: b in cards && b' in cards && cards[b].deviceId == cards[b'].deviceId ==> b == b'
  }

  function KeyOf(idPrefix: string, card: Card, idx: nat): string {
    FakeId(FormatDeviceUUID(idPrefix, card.deviceId), idx)
  }

  /** The table holds the ids of the cards in `done` and the first `upTo` ids of the card at `bus`, no others. */
  predicate Lists(table: map<string, Card>, idPrefix: string, cards: map<string, Card>, split: nat,
                  done: set<string>, bus: string, upTo: nat)
  {
    && (forall b, i: nat :: b in cards && i < split && (b in done || (b == bus && i < upTo)) ==>
          KeyOf(idPrefix, cards[b], i) in table && table[KeyOf(idPrefix, cards[b], i)] == cards[b])
    && (forall key :: key in table ==>
          exists b, i: nat :: b in cards && i < split && (b in done || (b == bus && i < upTo))
                              && key == KeyOf(idPrefix, cards[b], i))
  }

  lemma AddEntry(table: map<string, Card>, idPrefix: string, cards: map<string, Card>, split: nat,
                 done: set<string>, bus: string, idx: nat)
    requires DistinctSerials(cards) && bus in cards && bus !in done && idx < split
    requires Lists(table, idPrefix, cards, split, done, bus, idx)
    ensures var key := KeyOf(idPrefix, cards[bus], idx);
            && key !in table
            && Lists(table[key := cards[bus]], idPrefix, cards, split, done, bus, idx + 1)
  {
    hide FakeId;
    var key := KeyOf(idPrefix, cards[bus], idx);
    forall b, i: nat | b in cards && i < split && KeyOf(idPrefix, cards[b], i) == key ensures b == bus && i == idx {
      KeyInjective(idPrefix, cards[b], i, cards[bus], idx);
    }
  }

  lemma StartCard(table: map<string, Card>, idPrefix: string, cards: map<string, Card>, split: nat,
                  done: set<string>, bus: string)
    ensures Lists(table, idPrefix, cards, split, done, "", 0) ==> Lists(table, idPrefix, cards, split, done, bus, 0)
    ensures Lists(map[], idPrefix, cards, split, {}, "", 0)
  {
    if Lists(table, idPrefix, cards, split, done, "", 0) {
      forall key | key in table
        ensures exists b, i: nat :: b in cards && i < split && b in done && key == KeyOf(idPrefix, cards[b], i)
      {
      }
    }
  }

  lemma FinishCard(table: map<string, Card>, idPrefix: string, cards: map<string, Card>, split: nat,
                   done: set<string>, bus: string)
    requires Lists(table, idPrefix, cards, split, done, bus, split)
    ensures Lists(table, idPrefix, cards, split, done + {bus}, "", 0)
  {
    forall key | key in table
      ensures exists b, i: nat :: b in cards && i < split && b in done + {bus} && key == KeyOf(idPrefix, cards[b], i)
    {
    }
  }

  lemma KeyInjective(idPrefix: string, card: Card, idx: nat, card': Card, idx': nat)
    requires KeyOf(idPrefix, card, idx) == KeyOf(idPrefix, card', idx')
    ensures card.deviceId == card'.deviceId && idx == idx'
  {
    FakeIdInjective(FormatDeviceUUID(idPrefix, card.deviceId), idx, FormatDeviceUUID(idPrefix, card'.deviceId), idx');
    SameUUID(idPrefix, card.deviceId, card'.deviceId);
  }

  lemma SameUUID(idPrefix: string, serial: string, serial': string)
    requires FormatDeviceUUID(idPrefix, serial) == FormatDeviceUUID(idPrefix, serial')
    ensures serial == serial'
  {
    var n := |idPrefix + "-"|;
    assert serial == FormatDeviceUUID(idPrefix, serial)[n..];
    assert serial' == FormatDeviceUUID(idPrefix, serial')[n..];
  }

  /** An id spelled out. */
  lemma SpellKey(idPrefix: string, card: Card, idx: nat)
    ensures KeyOf(idPrefix, card, idx) == FormatDeviceUUID(idPrefix, card.deviceId) + "-fake-" + Itoa(idx)
    ensures KeyOf(idPrefix, card, idx) == idPrefix + "-" + card.deviceId + "-fake-" + Itoa(idx)
  {
  }

  predicate Sized(table: map<string, Card>, n: nat, split: nat) {
    |table| == n * split
  }

  lemma SizedEmpty(split: nat)
    ensures Sized(map[], 0, split)
  {
  }

  lemma SizedStep(before: map<string, Card>, table: map<string, Card>, n: nat, split: nat)
    requires Sized(before, n, split) && |table| == |before| + split
    ensures Sized(table, n + 1, split)
  {
  }

  /** Exactly split ids for every card, each leading to its own card. */
  method ListHAMiHCUs(idPrefix: string, cards: map<string, Card>, split: nat) returns (table: map<string, Card>)
    requires DistinctSerials(cards)
    ensures Lists(table, idPrefix, cards, split, cards.Keys, "", 0)
    ensures Sized(table, |cards|, split)
  {
    hide Lists, DistinctSerials, Sized;
    table := map[];
    StartCard(table, idPrefix, cards, split, {}, "");
    SizedEmpty(split);
    var todo := cards.Keys;
    ghost var done: set<string>, n := {}, 0;
    while todo != {}
      invariant done !! todo && done + todo == cards.Keys
      invariant Lists(table, idPrefix, cards, split, done, "", 0)
      invariant Sized(table, n, split) && n + |todo| == |cards|
      decreases |todo|
    {
      var bus :| bus in todo;
      table := ListCard(table, idPrefix, cards, split, bus, done, n);
      todo := todo - {bus};
      done, n := done + {bus}, n + 1;
    }
    assert done == cards.Keys;
  }

  /** The inner loop: the ids of one card. */
  method ListCard(before: map<string, Card>, idPrefix: string, cards: map<string, Card>, split: nat, bus: string,
                  ghost done: set<string>, ghost n: nat)
    returns (table: map<string, Card>)
    requires DistinctSerials(cards) && bus in cards && bus !in done
    requires Lists(before, idPrefix, cards, split, done, "", 0) && Sized(before, n, split)
    ensures Lists(table, idPrefix, cards, split, done + {bus}, "", 0)
    ensures Sized(table, n + 1, split)
  {
    hide Lists, DistinctSerials, FakeId, Sized;
    table := before;
    StartCard(table, idPrefix, cards, split, done, bus);
    for idx := 0 to split
      invariant Lists(table, idPrefix, cards, split, done, bus, idx)
      invariant |table| == |before| + idx
    {
      AddEntry(table, idPrefix, cards, split, done, bus, idx);
      SpellKey(idPrefix, cards[bus], idx);
      table := table[FormatDeviceUUID(idPrefix, cards[bus].deviceId) + "-fake-" + Itoa(idx) := cards[bus]];
    }
    FinishCard(table, idPrefix, cards, split, done, bus);
    SizedStep(before, table, n, split);
  }

  /** Allocate's lookup finds the card that has this UUID, and nothing for any other text. */
  lemma LookupIsExact(table: map<string, Card>, idPrefix: string, cards: map<string, Card>, split: nat, uuid: string)
    requires Lists(table, idPrefix, cards, split, cards.Keys, "", 0) && split >= 1
    ensures FakeId(uuid, 0) in table <==>
            exists b :: b in cards && uuid == FormatDeviceUUID(idPrefix, cards[b].deviceId)
    ensures forall b :: b in cards && uuid == FormatDeviceUUID(idPrefix, cards[b].deviceId) ==>
              FakeId(uuid, 0) in table && table[FakeId(uuid, 0)] == cards[b]
  {
    hide FakeId, FormatDeviceUUID;
    if FakeId(uuid, 0) in table {
      var b, i: nat :| b in cards && i < split && FakeId(uuid, 0) == KeyOf(idPrefix, cards[b], i);
      FakeIdInjective(uuid, 0, FormatDeviceUUID(idPrefix, cards[b].deviceId), i);
    }
    forall b | b in cards && uuid == FormatDeviceUUID(idPrefix, cards[b].deviceId)
      ensures FakeId(uuid, 0) in table && table[FakeId(uuid, 0)] == cards[b]
    {
      assert KeyOf(idPrefix, cards[b], 0) == FakeId(uuid, 0);
    }
  }
}
