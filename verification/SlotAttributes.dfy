/**
 Marking a slot as successful or unbootable: one bit set in the entries of every listed
 partition of the slot, in both tables, on whatever devices the partitions are.
 */
module SlotAttributes {
  import opened Wrappers
  import opened ByteBuffers
  import opened GptEntries
  import opened SlotSwitch

  // The attributes that the module marks slots with.
  type SlotMark = a: Attr | a != SlotActive witness BootSuccessful

  function Flagged(e: Entry, a: SlotMark): (r: Entry)
    ensures |r| == |e|
  {
    e[FLAG := With(e[FLAG], a)]
  }

  // One bit of one byte is set, and setting it again does nothing.
  lemma FlaggedIs(e: Entry, a: SlotMark)
    ensures var r := Flagged(e, a);
      && (forall c :: Has(r[FLAG], c) <==> c == a || Has(e[FLAG], c))
      && (forall i :: 0 <= i < |e| && i != FLAG ==> r[i] == e[i])
      && (a == BootSuccessful ==> r[54] == if (e[54] / 64) % 2 == 1 then e[54] else e[54] + 64)
      && (a == Unbootable ==> r[54] == if e[54] >= 128 then e[54] else e[54] + 128)
      && EntryName(r) == EntryName(e) && Guid(r) == Guid(e)
      && Flagged(r, a) == r
  {
    assert Name8(Flagged(e, a)) == Name8(e);
    TopBit(e[FLAG]);
  }

  lemma TopBit(b: byte)
    ensures Has(b, Unbootable) <==> b >= 128
  {}

  function FlagIn(es: seq<Entry>, name: Name, a: SlotMark): (r: seq<Entry>)
    requires Found(es, name)
    ensures |r| == |es|
  {
    es[Seek(es, name, 0) := Flagged(Lookup(es, name), a)]
  }

  lemma FlagKeepsPlaces(es: seq<Entry>, name: Name, a: SlotMark, other: Name)
    requires Found(es, name)
    ensures Seek(FlagIn(es, name, a), other, 0) == Seek(es, other, 0)
  {
    FlaggedIs(Lookup(es, name), a);
    SameSeek(es, FlagIn(es, name, a), other, 0);
  }

  function FlagBoth(t: Image, name: Name, a: SlotMark): Image
    requires FoundIn(t, name)
  {
    Image(FlagIn(t.prim, name, a), FlagIn(t.back, name, a))
  }

  // Whether the loop has gone through, and the devices it leaves.
  datatype Outcome = Outcome(ok: bool, disks: seq<Image>)

  // The loop of update_slot_attribute over the full names of the partitions that have
  // both versions; place tells the device of each, or a number beyond the devices.
  function FlagAll(disks: seq<Image>, names: seq<Name>, place: Name -> nat, a: SlotMark): (o: Outcome)
    ensures |o.disks| == |disks|
    decreases names
  {
    if names == [] then Outcome(true, disks)
    else if !IsThere(disks, place, names[0]) then Outcome(false, disks)
    else FlagAll(FlagOne(disks, place, names[0], a), names[1..], place, a)
  }

  // The partition is on one of the devices, in both tables.
  predicate IsThere(disks: seq<Image>, place: Name -> nat, name: Name) {
    place(name) < |disks| && FoundIn(disks[place(name)], name)
  }

  function FlagOne(disks: seq<Image>, place: Name -> nat, name: Name, a: SlotMark): (r: seq<Image>)
    requires IsThere(disks, place, name)
    ensures |r| == |disks|
  {
    disks[place(name) := FlagBoth(disks[place(name)], name, a)]
  }

  // Entry i of a table on device j is that of a listed partition.
  ghost predicate Listed(es: seq<Entry>, names: seq<Name>, place: Name -> nat, j: nat, i: nat) {
    exists k :: 0 <= k < |names| && place(names[k]) == j && Seek(es, names[k], 0) == i
  }

  // The entries of listed partitions have the bit set, all others are as they were.
  ghost predicate JustFlagged(es0: seq<Entry>, es: seq<Entry>, names: seq<Name>, place: Name -> nat, j: nat,
                              a: SlotMark) {
    && |es| == |es0|
    && forall i :: 0 <= i < |es| ==> es[i] == if Listed(es0, names, place, j, i) then Flagged(es0[i], a) else es0[i]
  }

  lemma ListedFirst(es: seq<Entry>, names: seq<Name>, place: Name -> nat, j: nat, i: nat)
    requires names != []
    ensures Listed(es, names, place, j, i) <==>
      (place(names[0]) == j && Seek(es, names[0], 0) == i) || Listed(es, names[1..], place, j, i)
  {
    if Listed(es, names, place, j, i) {
      var k :| 0 <= k < |names| && place(names[k]) == j && Seek(es, names[k], 0) == i;
      assert k > 0 ==> names[1..][k - 1] == names[k];
    }
    if Listed(es, names[1..], place, j, i) {
      var k :| 0 <= k < |names| - 1 && place(names[1..][k]) == j && Seek(es, names[1..][k], 0) == i;
      assert names[k + 1] == names[1..][k];
    }
  }

  lemma ListedSame(es: seq<Entry>, fs: seq<Entry>, names: seq<Name>, place: Name -> nat, j: nat, i: nat)
    requires forall n :: Seek(es, n, 0) == Seek(fs, n, 0)
    ensures Listed(es, names, place, j, i) <==> Listed(fs, names, place, j, i)
  {}

  // One table: the first name and then the others.
  lemma FlaggedFirst(es0: seq<Entry>, es1: seq<Entry>, es: seq<Entry>, names: seq<Name>, place: Name -> nat, j: nat,
                     a: SlotMark)
    requires names != [] && (place(names[0]) == j ==> Found(es0, names[0]))
    requires es1 == if place(names[0]) == j then FlagIn(es0, names[0], a) else es0
    requires JustFlagged(es1, es, names[1..], place, j, a)
    ensures JustFlagged(es0, es, names, place, j, a)
  {
    forall n ensures Seek(es1, n, 0) == Seek(es0, n, 0) {
      if place(names[0]) == j {
        FlagKeepsPlaces(es0, names[0], a, n);
      }
    }
    forall i | 0 <= i < |es0| ensures es[i] == if Listed(es0, names, place, j, i) then Flagged(es0[i], a) else es0[i] {
      ListedFirst(es0, names, place, j, i);
      ListedSame(es0, es1, names[1..], place, j, i);
      FlaggedIs(es0[i], a);
    }
  }

  // If the loop goes through, every table of every device has just the bits of the
  // listed partitions set.
  lemma {:induction false} FlagAllSetsBits(disks: seq<Image>, names: seq<Name>, place: Name -> nat, a: SlotMark, j: nat)
    requires j < |disks| && FlagAll(disks, names, place, a).ok
    ensures JustFlagged(disks[j].prim, FlagAll(disks, names, place, a).disks[j].prim, names, place, j, a)
    ensures JustFlagged(disks[j].back, FlagAll(disks, names, place, a).disks[j].back, names, place, j, a)
    decreases names
  {
    if names != [] {
      var next := FlagOne(disks, place, names[0], a);
      FlagAllSetsBits(next, names[1..], place, a, j);
      var last := FlagAll(disks, names, place, a).disks[j];
      FlaggedFirst(disks[j].prim, next[j].prim, last.prim, names, place, j, a);
      FlaggedFirst(disks[j].back, next[j].back, last.back, names, place, j, a);
    }
  }

  ghost predicate AllThere(disks: seq<Image>, names: seq<Name>, place: Name -> nat) {
    forall k :: 0 <= k < |names| ==> IsThere(disks, place, names[k])
  }

  lemma StillThere(disks: seq<Image>, name: Name, place: Name -> nat, a: SlotMark, other: Name)
    requires IsThere(disks, place, name)
    ensures IsThere(FlagOne(disks, place, name, a), place, other) <==> IsThere(disks, place, other)
  {
    FlagKeepsPlaces(disks[place(name)].prim, name, a, other);
    FlagKeepsPlaces(disks[place(name)].back, name, a, other);
  }

  // The loop goes through just when both tables have every listed partition.
  lemma {:induction false} FlagAllGoesThrough(disks: seq<Image>, names: seq<Name>, place: Name -> nat, a: SlotMark)
    ensures FlagAll(disks, names, place, a).ok <==> AllThere(disks, names, place)
    decreases names
  {
    if names != [] && IsThere(disks, place, names[0]) {
      var next := FlagOne(disks, place, names[0], a);
      FlagAllGoesThrough(next, names[1..], place, a);
      forall k | 0 <= k < |names| ensures IsThere(next, place, names[k]) <==> IsThere(disks, place, names[k]) {
        StillThere(disks, names[0], place, a, names[k]);
      }
      assert forall k :: 0 <= k < |names| - 1 ==> names[1..][k] == names[k + 1];
      if AllThere(next, names[1..], place) {
        forall k | 0 <= k < |names| ensures IsThere(disks, place, names[k]) {
          assert k > 0 ==> names[k] == names[1..][k - 1];
        }
      }
    }
  }

  lemma {:induction false} FlagAllKeepsPlaces(disks: seq<Image>, names: seq<Name>, place: Name -> nat, a: SlotMark,
                                              j: nat, other: Name)
    requires j < |disks|
    ensures var last := FlagAll(disks, names, place, a).disks[j];
      && |last.prim| == |disks[j].prim| && Seek(last.prim, other, 0) == Seek(disks[j].prim, other, 0)
      && |last.back| == |disks[j].back| && Seek(last.back, other, 0) == Seek(disks[j].back, other, 0)
    decreases names
  {
    if names != [] && IsThere(disks, place, names[0]) {
      var i := place(names[0]);
      FlagKeepsPlaces(disks[i].prim, names[0], a, other);
      FlagKeepsPlaces(disks[i].back, names[0], a, other);
      FlagAllKeepsPlaces(FlagOne(disks, place, names[0], a), names[1..], place, a, j, other);
    }
  }

  /* Slots. */

  // The names of the listed partitions in a slot.
  function InSlot(ps: seq<Name>, slotA: bool): (names: seq<Name>)
    ensures |names| == |ps| && forall k :: 0 <= k < |ps| ==> names[k] == ps[k] + Suffix(slotA)
  {
    seq(|ps|, k requires 0 <= k < |ps| => ps[k] + Suffix(slotA))
  }

  // The other slot is left alone, in both tables of every device.
  lemma OtherSlotKept(disks: seq<Image>, ps: seq<Name>, slotA: bool, place: Name -> nat, a: SlotMark, q: Name)
    requires FlagAll(disks, InSlot(ps, slotA), place, a).ok
    requires IsThere(disks, place, q + Suffix(!slotA))
    ensures var name := q + Suffix(!slotA); var was := disks[place(name)]; var last :=
      FlagAll(disks, InSlot(ps, slotA), place, a).disks[place(name)];
      FoundIn(last, name) && Lookup(last.prim, name) == Lookup(was.prim, name) &&
        Lookup(last.back, name) == Lookup(was.back, name)
  {
    var name := q + Suffix(!slotA);
    var names, j := InSlot(ps, slotA), place(name);
    FlagAllSetsBits(disks, names, place, a, j);
    FlagAllKeepsPlaces(disks, names, place, a, j, name);
    NotListed(disks[j].prim, ps, slotA, place, j, q);
    NotListed(disks[j].back, ps, slotA, place, j, q);
  }

  lemma NotListed(es: seq<Entry>, ps: seq<Name>, slotA: bool, place: Name -> nat, j: nat, q: Name)
    requires Found(es, q + Suffix(!slotA))
    ensures !Listed(es, InSlot(ps, slotA), place, j, Seek(es, q + Suffix(!slotA), 0))
  {
    var i := Seek(es, q + Suffix(!slotA), 0);
    forall k | 0 <= k < |ps| ensures Seek(es, InSlot(ps, slotA)[k], 0) != i {
      VersionsApart(q, !slotA, ps[k], slotA);
      ApartMatches(q + Suffix(!slotA), ps[k] + Suffix(slotA), es[i]);
    }
  }

  // get_partition_attribute: nothing if the partition is not found
  function Attribute(disks: seq<Image>, place: Name -> nat, name: Name, a: Attr): int {
    if place(name) >= |disks| || !Found(disks[place(name)].prim, name) then -1
    else if Reports(disks[place(name)], name, a) then 1
    else 0
  }

  const BOOT := "boot"

  // is_slot_bootable and is_slot_marked_successful, of so many slots
  function IsSlotBootable(slots: nat, slot: nat, disks: seq<Image>, place: Name -> nat): int {
    if slot >= slots || slot > 1 then -1
    else
      var attr := Attribute(disks, place, BOOT + Suffix(slot == 0), Unbootable);
      if attr < 0 then -1 else 1 - attr
  }

  function IsSlotMarkedSuccessful(slots: nat, slot: nat, disks: seq<Image>, place: Name -> nat): int {
    if slot >= slots || slot > 1 then -1 else Attribute(disks, place, BOOT + Suffix(slot == 0), BootSuccessful)
  }

  // The flag byte of the boot partition of a slot, if there is such a slot and its boot
  // partition is found.
  function BootFlag(slots: nat, slot: nat, disks: seq<Image>, place: Name -> nat): Option<byte> {
    var name := if slot == 0 then "boot_a" else "boot_b";
    if slot >= slots || slot >= 2 || place(name) >= |disks| || !Found(disks[place(name)].prim, name) then None
    else Some(Lookup(disks[place(name)].prim, name)[54])
  }

  // What the answers mean: bit 7 of the flag byte says that the slot is not bootable, and
  // bit 6 that it has been booted successfully.
  lemma AnswersAre(slots: nat, slot: nat, disks: seq<Image>, place: Name -> nat)
    ensures var flag := BootFlag(slots, slot, disks, place);
      var bootable, successful :=
        IsSlotBootable(slots, slot, disks, place), IsSlotMarkedSuccessful(slots, slot, disks, place);
      && (bootable == 1 <==> flag.Some? && flag.value < 128)
      && (bootable == 0 <==> flag.Some? && flag.value >= 128)
      && (bootable == -1 <==> flag.None?)
      && (successful == 1 <==> flag.Some? && (flag.value / 64) % 2 == 1)
      && (successful == 0 <==> flag.Some? && (flag.value / 64) % 2 == 0)
      && (successful == -1 <==> flag.None?)
  {
    BootNames();
    var flag := BootFlag(slots, slot, disks, place);
    if flag.Some? {
      TopBit(flag.value);
    }
  }

  lemma BootNames()
    ensures BOOT + Suffix(true) == "boot_a" && BOOT + Suffix(false) == "boot_b"
  {}

  // After a switch of slots that has gone through, the chosen slot is bootable and not yet
  // successful, whatever it was before.
  lemma ChosenSlotAnswers(a0: Image, b0: Image, parts: seq<Name>, present: Name -> bool, slotA: bool, k: nat,
                          place: Name -> nat, r: Switched)
    requires LongEnough(parts) && Distinct(Prefixes(parts, present))
    requires k < |Prefixes(parts, present)| && Prefixes(parts, present)[k] == BOOT
    requires r == SwitchAll(a0, b0, parts, present, slotA, a0, b0) && r.Switched?
    requires place("boot_a") == 0 && place("boot_b") == 1
    ensures var slot := if slotA then 0 else 1;
      && IsSlotBootable(2, slot, [r.a, r.b], place) == 1
      && IsSlotMarkedSuccessful(2, slot, [r.a, r.b], place) == 0
  {
    BootNames();
    SwitchTurns(a0, b0, parts, present, slotA);
    assert PairSwitched(a0, b0, r.a, r.b, Prefixes(parts, present)[k], slotA);
    var slot := if slotA then 0 else 1;
    assert BootFlag(2, slot, [r.a, r.b], place) == Some(0x3F);
    AnswersAre(2, slot, [r.a, r.b], place);
  }

  // What is asked about a listed partition of the slot: the mark is there, and what
  // other marks there are has not changed.
  lemma MarkIsReported(disks: seq<Image>, ps: seq<Name>, slotA: bool, place: Name -> nat, a: SlotMark, k: nat, c: Attr)
    requires FlagAll(disks, InSlot(ps, slotA), place, a).ok && k < |ps|
    ensures var name := ps[k] + Suffix(slotA); var last := FlagAll(disks, InSlot(ps, slotA), place, a).disks;
      Attribute(last, place, name, c) == if c == a then 1 else Attribute(disks, place, name, c)
  {
    var name := ps[k] + Suffix(slotA);
    var names, j := InSlot(ps, slotA), place(name);
    FlagAllGoesThrough(disks, names, place, a);
    assert names[k] == name && IsThere(disks, place, names[k]);
    FlagAllSetsBits(disks, names, place, a, j);
    FlagAllKeepsPlaces(disks, names, place, a, j, name);
    assert Listed(disks[j].prim, names, place, j, Seek(disks[j].prim, name, 0));
    FlaggedIs(Lookup(disks[j].prim, name), a);
  }

  // Marking slots and asking about them: a slot marked unbootable is not bootable, one
  // marked successful is so, and neither changes the answer of the other question or
  // about the other slot.
  lemma SlotQueries(slots: nat, slot: nat, disks: seq<Image>, ps: seq<Name>, place: Name -> nat, a: SlotMark, k: nat)
    requires slot < slots && slot < 2 && k < |ps| && ps[k] == BOOT
    requires FlagAll(disks, InSlot(ps, slot == 0), place, a).ok
    ensures var last := FlagAll(disks, InSlot(ps, slot == 0), place, a).disks;
      && (a == Unbootable ==> IsSlotBootable(slots, slot, last, place) == 0)
      && (a == BootSuccessful ==> IsSlotMarkedSuccessful(slots, slot, last, place) == 1)
      && (a != Unbootable ==> IsSlotBootable(slots, slot, last, place) == IsSlotBootable(slots, slot, disks, place))
      && (a != BootSuccessful ==>
          IsSlotMarkedSuccessful(slots, slot, last, place) == IsSlotMarkedSuccessful(slots, slot, disks, place))
      && IsSlotBootable(slots, 1 - slot, last, place) == IsSlotBootable(slots, 1 - slot, disks, place)
      && IsSlotMarkedSuccessful(slots, 1 - slot, last, place) == IsSlotMarkedSuccessful(slots, 1 - slot, disks, place)
  {
    MarkIsReported(disks, ps, slot == 0, place, a, k, Unbootable);
    MarkIsReported(disks, ps, slot == 0, place, a, k, BootSuccessful);
    OtherSlotReports(disks, ps, slot == 0, place, a, BOOT, Unbootable);
    OtherSlotReports(disks, ps, slot == 0, place, a, BOOT, BootSuccessful);
  }

  // What is asked about the other slot.
  lemma OtherSlotReports(disks: seq<Image>, ps: seq<Name>, slotA: bool, place: Name -> nat, a: SlotMark, q: Name,
                         c: Attr)
    requires FlagAll(disks, InSlot(ps, slotA), place, a).ok
    ensures var name := q + Suffix(!slotA);
      Attribute(FlagAll(disks, InSlot(ps, slotA), place, a).disks, place, name, c) == Attribute(disks, place, name, c)
  {
    var name := q + Suffix(!slotA);
    var names, j := InSlot(ps, slotA), place(name);
    if j < |disks| {
      FlagAllKeepsPlaces(disks, names, place, a, j, name);
      if Found(disks[j].prim, name) {
        FlagAllSetsBits(disks, names, place, a, j);
        NotListed(disks[j].prim, ps, slotA, place, j, q);
      }
    }
  }

  /* The partitions of the source. */

  const AB_ONLY: seq<Name> :=
    ["boot", "system", "vendor", "odm", "modem", "bluetooth", "fsg", "logo", "mdm1m9kefs3", "prov", "spss", "storsec",
     "vbmeta_system", "vendor_boot"]

  const AB_PTN_LIST: seq<Name> := PTN_SWAP_LIST + AB_ONLY

  lemma AbOnlyDistinct()
    ensures Distinct(AB_ONLY)
  {}

  lemma NotInSwapList(k: nat)
    requires k < |AB_ONLY|
    ensures forall i :: 0 <= i < |PTN_SWAP_LIST| ==> PTN_SWAP_LIST[i] != AB_ONLY[k]
  {}

  // No partition is listed twice.
  lemma AbListDistinct()
    ensures Distinct(AB_PTN_LIST)
  {
    AbOnlyDistinct();
    SwapListDistinct();
    forall i, j | 0 <= i < j < |AB_PTN_LIST| ensures AB_PTN_LIST[i] != AB_PTN_LIST[j] {
      var n := |PTN_SWAP_LIST|;
      if i < n <= j {
        NotInSwapList(j - n);
        assert AB_PTN_LIST[i] == PTN_SWAP_LIST[i] && AB_PTN_LIST[j] == AB_ONLY[j - n];
      }
    }
  }

  function Filtered(ps: seq<Name>, present: Name -> bool): (r: seq<Name>)
    ensures forall p :: p in r <==> p in ps && present(p)
    decreases ps
  {
    if ps == [] then []
    else
      var rest := Filtered(ps[1..], present);
      if present(ps[0]) then [ps[0]] + rest else rest
  }

  lemma {:induction false} FilteredDistinct(ps: seq<Name>, present: Name -> bool)
    requires Distinct(ps)
    ensures Distinct(Filtered(ps, present))
    decreases ps
  {
    if ps != [] {
      FilteredDistinct(ps[1..], present);
      assert ps[0] !in ps[1..];
    }
  }

  // The names that set_active_boot_slot makes of the list lead back to it.
  lemma {:induction false} PrefixesOfVersions(ps: seq<Name>, present: Name -> bool, slotA: bool)
    requires forall k :: 0 <= k < |ps| ==> ps[k] != []
    ensures LongEnough(InSlot(ps, slotA)) && Prefixes(InSlot(ps, slotA), present) == Filtered(ps, present)
    decreases ps
  {
    if ps != [] {
      PrefixesOfVersions(ps[1..], present, slotA);
      assert InSlot(ps, slotA)[1..] == InSlot(ps[1..], slotA);
      assert Prefix(InSlot(ps, slotA)[0]) == ps[0];
    }
  }

  // So the list of the source, or a part of it that is on one device, can be switched.
  lemma ListCanBeSwitched(ps: seq<Name>, present: Name -> bool, slotA: bool)
    requires Distinct(ps) && forall k :: 0 <= k < |ps| ==> ps[k] in AB_PTN_LIST
    ensures LongEnough(InSlot(ps, slotA)) && Distinct(Prefixes(InSlot(ps, slotA), present))
  {
    forall k | 0 <= k < |ps| ensures ps[k] != [] {
      ListedNotEmpty(ps[k]);
    }
    PrefixesOfVersions(ps, present, slotA);
    FilteredDistinct(ps, present);
  }

  lemma ListedNotEmpty(p: Name)
    requires p in AB_PTN_LIST
    ensures p != []
  {
    var k :| 0 <= k < |AB_PTN_LIST| && AB_PTN_LIST[k] == p;
    if k < |PTN_SWAP_LIST| {
      SwapListEndings(k);
    } else {
      assert p == AB_ONLY[k - |PTN_SWAP_LIST|];
    }
  }
}
