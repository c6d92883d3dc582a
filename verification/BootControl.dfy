/**
 The boot control HAL of boot_control.cpp on devices of bytes: attribute queries, marks
 on a slot, and the switch of the active slot through two in-memory images.
 */
module BootControl {
  import opened Wrappers
  import opened ByteBuffers
  import opened GptHeader
  import opened GptEntries
  import opened EntryArray
  import opened FailsafeUpdate
  import opened GptDevice
  import opened GptCommit
  import opened SlotSwitch
  import opened SlotAttributes

  // The entries of both tables.
  function ImageOf(t: Tables): (m: Image)
    requires WellFormed(t)
    ensures |m.prim| == |m.back| == Get4(t.ph, COUNT)
  {
    var n, esz := Get4(t.ph, COUNT), EntrySize(t.ph);
    Image(Entries(t.pa, esz, n), Entries(t.sa, esz, n))
  }

  // Names that gpt_pentry_seek can be given.
  predicate Seekable(name: Name) {
    IsCName(name) && |name| < MAX_NAME
  }

  // The flag byte of an entry written.
  lemma PatchFlag(buf: Bytes, esz: nat, n: nat, i: nat, f: byte)
    requires esz >= PTN_ENTRY_SIZE && |buf| == Size(n, esz) && i < n
    ensures Size(i, esz) + esz <= |buf|
    ensures Entries(buf[Size(i, esz) + FLAG := f], esz, n) ==
      Entries(buf, esz, n)[i := EntryAt(buf, esz, n, i)[FLAG := f]]
  {
    SizeMonotone(i, n, esz);
    Patch(buf, esz, n, i, FLAG, [f]);
    assert Splice(buf, Size(i, esz) + FLAG, [f]) == buf[Size(i, esz) + FLAG := f];
    assert Splice(EntryAt(buf, esz, n, i), FLAG, [f]) == EntryAt(buf, esz, n, i)[FLAG := f];
  }

  // UPDATE_SLOT at the position of entry i
  method UpdateSlot(a: array<byte>, esz: nat, ghost n: nat, ghost i: nat, at: nat, guid: TypeGuid, active: bool)
    requires esz >= PTN_ENTRY_SIZE && a.Length == Size(n, esz) && i < n && at == Size(i, esz)
    modifies a
    ensures Entries(a[..], esz, n) ==
      Entries(old(a[..]), esz, n)[i := SlotUpdated(EntryAt(old(a[..]), esz, n, i), guid, active)]
  {
    ghost var buf := a[..];
    EntryStarts(buf, esz, n, i);
    MemCpy(a, at, guid);
    ghost var once := a[..];
    var f := if active then ACTIVE_VAL else Without(a[at + FLAG], SlotActive);
    a[at + FLAG] := f;
    SlotPatched(buf, once, a[..], esz, n, i, guid, active);
  }

  lemma SlotPatched(buf: Bytes, once: Bytes, last: Bytes, esz: nat, n: nat, i: nat, guid: TypeGuid, active: bool)
    requires esz >= PTN_ENTRY_SIZE && |buf| == Size(n, esz) && i < n && Size(i, esz) + esz <= |buf|
    requires once == Splice(buf, Size(i, esz), guid)
    requires last == once[Size(i, esz) + FLAG :=
      if active then ACTIVE_VAL else Without(once[Size(i, esz) + FLAG], SlotActive)]
    ensures Entries(last, esz, n) == Entries(buf, esz, n)[i := SlotUpdated(EntryAt(buf, esz, n, i), guid, active)]
  {
    var f := last[Size(i, esz) + FLAG];
    var e1: Entry := Splice(EntryAt(buf, esz, n, i), 0, guid);
    Patch(buf, esz, n, i, 0, guid);
    assert EntryAt(once, esz, n, i) == Entries(once, esz, n)[i] == e1;
    FlagByte(buf, once, esz, n, i, guid);
    PatchFlag(once, esz, n, i, f);
  }

  lemma FlagByte(buf: Bytes, once: Bytes, esz: nat, n: nat, i: nat, guid: TypeGuid)
    requires esz >= PTN_ENTRY_SIZE && |buf| == Size(n, esz) && i < n && Size(i, esz) + esz <= |buf|
    requires once == Splice(buf, Size(i, esz), guid)
    ensures once[Size(i, esz) + FLAG] == EntryAt(buf, esz, n, i)[FLAG]
  {}

  // The partition is not in the array of so many entries.
  lemma NotFoundAtEnd(es: seq<Entry>, name: Name, esz: nat, at: nat, size: nat)
    requires esz > 0 && at == Size(Seek(es, name, 0), esz) && size == Size(|es|, esz)
    ensures at == size <==> !Found(es, name)
  {
    EndOfEntries(Seek(es, name, 0), |es|, esz);
  }

  // The type of the entry at a position.
  method ReadGuid(a: array<byte>, esz: nat, ghost n: nat, ghost i: nat, at: nat) returns (guid: TypeGuid)
    requires esz >= PTN_ENTRY_SIZE && a.Length == Size(n, esz) && i < n && at == Size(i, esz)
    ensures guid == Guid(Entries(a[..], esz, n)[i])
  {
    EntryStarts(a[..], esz, n, i);
    guid := a[at..at + GUID_SIZE];
    assert guid == a[..][at..at + PTN_ENTRY_SIZE][..GUID_SIZE];
  }

  method ReadFlag(a: array<byte>, esz: nat, ghost n: nat, ghost i: nat, at: nat) returns (flag: byte)
    requires esz >= PTN_ENTRY_SIZE && a.Length == Size(n, esz) && i < n && at == Size(i, esz)
    ensures flag == Entries(a[..], esz, n)[i][FLAG]
  {
    EntryStarts(a[..], esz, n, i);
    flag := a[at + FLAG];
    assert flag == a[..][at..at + PTN_ENTRY_SIZE][FLAG];
  }

  /* What devices and images hold. */

  // Tables with the layout that their headers tell, which an image can be made of.
  ghost predicate Good(l: Layout, v: Tables) {
    Fields(l, v) && Committable(v)
  }

  ghost predicate Holds(d: GptDisk, t: Tables)
    reads d.hdr, d.hdrBak, d.pentryArr, d.pentryArrBak
  {
    d.Valid() && d.Image() == t
  }

  ghost function Buffers(d: GptDisk): set<array<byte>> {
    {d.hdr, d.hdrBak, d.pentryArr, d.pentryArrBak}
  }

  // Two images that share no buffer.
  ghost predicate Separate(x: GptDisk, y: GptDisk) {
    Buffers(x) !! Buffers(y)
  }

  // An image with the layout of the tables it has been loaded from.
  ghost predicate Sibling(t: Tables, v: Tables) {
    SameShape(t.ph, v.ph) && SameShape(t.sh, v.sh) && |t.pa| == |v.pa| && |t.sa| == |v.sa| && Committable(t)
  }

  lemma SiblingGood(t: Tables, v: Tables, l: Layout)
    requires Sibling(t, v) && Good(l, v)
    ensures Good(l, t) && Sized(v, t) && (EqualSizes(t) <==> EqualSizes(v))
  {
    ShapeFields(t.ph, v.ph, l.blk);
    ShapeFields(t.sh, v.sh, l.blk);
  }

  // The primary table passes all its checks, and the backup table too where the headers
  // have one size.
  ghost predicate Checked(crc: Checksum, t: Tables) {
    WellFormed(t) && PrimaryWhole(crc, t) && (EqualSizes(t) ==> SecondaryWhole(crc, t))
  }

  // The image of these entries, with its checksums up to date.
  ghost predicate Final(crc: Checksum, v: Tables, t: Tables, m: Image) {
    Sibling(t, v) && Checked(crc, t) && ImageOf(t) == m
  }

  // Only entries have changed.
  ghost predicate Edited(t: Tables, u: Tables) {
    u.ph == t.ph && u.sh == t.sh && |u.pa| == |t.pa| && |u.sa| == |t.sa|
  }

  // Bringing the checksums up to date after a change of entries.
  lemma UpdatedFinal(crc: Checksum, v: Tables, t: Tables, u: Tables, w: Tables, m: Image)
    requires Sibling(t, v) && Edited(t, u) && ImageOf(u) == m && w == Updated(crc, u)
    ensures Final(crc, v, w, m)
  {
    UpdatedPrimary(crc, u, w);
    UpdatedBackup(crc, u, w);
    SameCounts(w.ph, u.ph);
    SameCounts(w.sh, u.sh);
    assert Signed(w.ph);
  }

  // boot_ctl_get_disk_info
  method GetDiskInfo(dev: BlockDevice, ghost l: Layout, ghost v: Tables) returns (d: GptDisk)
    requires dev.Shows(l, v) && Good(l, v)
    ensures fresh(Buffers(d)) && Holds(d, v)
  {
    d := new GptDisk(dev, l, v);
  }

  method Refresh(d: GptDisk, crc: Checksum, ghost t: Tables)
    requires Holds(d, t) && WellFormed(t)
    modifies d.hdr, d.hdrBak
    ensures |t.sh| == |t.ph| && Holds(d, Updated(crc, t))
  {
    d.UpdateCrc(crc);
  }

  /* Looking entries up. */

  // get_partition_attribute of a partition on a device
  method GetPartitionAttribute(dev: BlockDevice, ghost l: Layout, name: Name, attr: Attr, ghost v: Tables)
    returns (r: int)
    requires dev.Shows(l, v) && Good(l, v) && Seekable(name)
    ensures var m := ImageOf(v); r == if !Found(m.prim, name) then -1 else if Reports(m, name, attr) then 1 else 0
  {
    ghost var m := ImageOf(v);
    var d := GetDiskInfo(dev, l, v);
    var at := d.GetPentry(name, true);
    var esz := EntrySize(d.hdr[..]);
    NotFoundAtEnd(m.prim, name, esz, at, d.pentryArr.Length);
    if at == d.pentryArr.Length {
      return -1;
    }
    var flag := ReadFlag(d.pentryArr, esz, |m.prim|, Seek(m.prim, name, 0), at);
    r := if Has(flag, attr) then 1 else 0;
  }

  // is_slot_bootable and is_slot_marked_successful, with the device of the boot partition.
  method QuerySlotBootable(slots: nat, slot: nat, dev: BlockDevice, ghost l: Layout, ghost v: Tables) returns (r: int)
    requires dev.Shows(l, v) && Good(l, v)
    ensures r == IsSlotBootable(slots, slot, [ImageOf(v)], _ => 0)
  {
    if slot >= slots || slot > 1 {
      return -1;
    }
    SeekableVersion(BOOT, slot == 0);
    var attr := GetPartitionAttribute(dev, l, BOOT + Suffix(slot == 0), Unbootable, v);
    r := if attr >= 0 then (if attr == 0 then 1 else 0) else -1;
  }

  method QuerySlotSuccessful(slots: nat, slot: nat, dev: BlockDevice, ghost l: Layout, ghost v: Tables) returns (r: int)
    requires dev.Shows(l, v) && Good(l, v)
    ensures r == IsSlotMarkedSuccessful(slots, slot, [ImageOf(v)], _ => 0)
  {
    if slot >= slots || slot > 1 {
      return -1;
    }
    SeekableVersion(BOOT, slot == 0);
    var attr := GetPartitionAttribute(dev, l, BOOT + Suffix(slot == 0), BootSuccessful, v);
    r := if attr >= 0 then attr else -1;
  }

  // The positions of a partition in both tables of an image.
  ghost predicate Located(t: Tables, name: Name, at: nat, atBak: nat)
    requires WellFormed(t)
  {
    var m := ImageOf(t);
    at == Size(Seek(m.prim, name, 0), EntrySize(t.ph)) && atBak == Size(Seek(m.back, name, 0), EntrySize(t.ph))
  }

  method Locate(d: GptDisk, name: Name, ghost t: Tables) returns (found: bool, at: nat, atBak: nat)
    requires Holds(d, t) && WellFormed(t) && Seekable(name)
    ensures found == FoundIn(ImageOf(t), name) && Located(t, name, at, atBak)
  {
    ghost var m := ImageOf(t);
    at := d.GetPentry(name, true);
    atBak := d.GetPentry(name, false);
    var esz := EntrySize(d.hdr[..]);
    NotFoundAtEnd(m.prim, name, esz, at, d.pentryArr.Length);
    NotFoundAtEnd(m.back, name, esz, atBak, d.pentryArrBak.Length);
    found := at != d.pentryArr.Length && atBak != d.pentryArrBak.Length;
  }

  // The type of a partition in the primary table of an image.
  method PrimaryGuid(d: GptDisk, name: Name, at: nat, atBak: nat, ghost t: Tables) returns (guid: TypeGuid)
    requires Holds(d, t) && WellFormed(t) && FoundIn(ImageOf(t), name) && Located(t, name, at, atBak)
    ensures guid == Guid(Lookup(ImageOf(t).prim, name))
  {
    ghost var m := ImageOf(t);
    guid := ReadGuid(d.pentryArr, EntrySize(d.hdr[..]), |m.prim|, Seek(m.prim, name, 0), at);
  }

  // Which of two versions is active on the devices: A, B or none of them.
  datatype Version = A | B | Neither

  method ActiveVersion(devA: BlockDevice, ghost lA: Layout, devB: BlockDevice, ghost lB: Layout, nA: Name, nB: Name,
                       ghost vA: Tables, ghost vB: Tables) returns (v: Version)
    requires devA.Shows(lA, vA) && Good(lA, vA) && devB.Shows(lB, vB) && Good(lB, vB) && Seekable(nA) && Seekable(nB)
    ensures v ==
      if Reports(ImageOf(vA), nA, SlotActive) then A
      else if Reports(ImageOf(vB), nB, SlotActive) then B
      else Neither
  {
    var attr := GetPartitionAttribute(devA, lA, nA, SlotActive, vA);
    if attr == 1 {
      return A;
    }
    attr := GetPartitionAttribute(devB, lB, nB, SlotActive, vB);
    v := if attr == 1 then B else Neither;
  }

  /* Switching. */

  // An entry of both tables of an image marked.
  method MarkSlot(d: GptDisk, name: Name, at: nat, atBak: nat, guid: TypeGuid, active: bool, ghost t: Tables)
    returns (ghost u: Tables)
    requires Holds(d, t) && WellFormed(t) && FoundIn(ImageOf(t), name) && Located(t, name, at, atBak)
    modifies d.pentryArr, d.pentryArrBak
    ensures Holds(d, u) && Edited(t, u) && WellFormed(u)
    ensures ImageOf(u) == MarkBoth(ImageOf(t), Work(name, guid), active)
  {
    var esz := EntrySize(d.hdr[..]);
    ghost var n, m := Get4(t.ph, COUNT), ImageOf(t);
    UpdateSlot(d.pentryArr, esz, n, Seek(m.prim, name, 0), at, guid, active);
    UpdateSlot(d.pentryArrBak, esz, n, Seek(m.back, name, 0), atBak, guid, active);
    u := d.Image();
  }

  method MarkPair(diskA: GptDisk, diskB: GptDisk, nA: Name, nB: Name, pentryA: nat, pentryABak: nat, pentryB: nat,
                  pentryBBak: nat,
                  active: TypeGuid, inactive: TypeGuid, slotA: bool, ghost tA: Tables, ghost tB: Tables,
                  ghost s: Switched)
    returns (ghost uA: Tables, ghost uB: Tables)
    requires Separate(diskA, diskB) && Holds(diskA, tA) && Holds(diskB, tB) && WellFormed(tA) && WellFormed(tB)
    requires FoundIn(ImageOf(tA), nA) && Located(tA, nA, pentryA, pentryABak)
    requires FoundIn(ImageOf(tB), nB) && Located(tB, nB, pentryB, pentryBBak)
    requires s == Marked(ImageOf(tA), ImageOf(tB), nA, nB, active, inactive, slotA)
    modifies diskA.pentryArr, diskA.pentryArrBak, diskB.pentryArr, diskB.pentryArrBak
    ensures Holds(diskA, uA) && Edited(tA, uA) && WellFormed(uA) && ImageOf(uA) == s.a
    ensures Holds(diskB, uB) && Edited(tB, uB) && WellFormed(uB) && ImageOf(uB) == s.b
  {
    if slotA {
      uA := MarkSlot(diskA, nA, pentryA, pentryABak, active, true, tA);
      uB := MarkSlot(diskB, nB, pentryB, pentryBBak, inactive, false, tB);
    } else {
      uB := MarkSlot(diskB, nB, pentryB, pentryBBak, active, true, tB);
      uA := MarkSlot(diskA, nA, pentryA, pentryABak, inactive, false, tA);
    }
  }

  // One turn of the loop of boot_ctl_set_active_slot_for_partitions, on the images.
  method SwitchPair(diskA: GptDisk, diskB: GptDisk, p: Name, slotA: bool,
                    devA: BlockDevice, ghost lA: Layout, devB: BlockDevice, ghost lB: Layout,
                    ghost vA: Tables, ghost vB: Tables, ghost tA: Tables, ghost tB: Tables, ghost s: Switched)
    returns (ok: bool, ghost uA: Tables, ghost uB: Tables)
    requires Separate(diskA, diskB) && Holds(diskA, tA) && Holds(diskB, tB) && WellFormed(tA) && WellFormed(tB)
    requires devA.Shows(lA, vA) && Good(lA, vA) && devB.Shows(lB, vB) && Good(lB, vB)
    requires IsCName(p) && |p| + 2 < MAX_NAME
    requires s == SwitchOne(ImageOf(tA), ImageOf(tB), p, slotA, ImageOf(vA), ImageOf(vB))
    modifies diskA.pentryArr, diskA.pentryArrBak, diskB.pentryArr, diskB.pentryArrBak
    ensures ok == s.Switched?
    ensures ok ==> Holds(diskA, uA) && Edited(tA, uA) && WellFormed(uA) && ImageOf(uA) == s.a
    ensures ok ==> Holds(diskB, uB) && Edited(tB, uB) && WellFormed(uB) && ImageOf(uB) == s.b
  {
    uA, uB := tA, tB;
    var nA, nB := p + SUFFIX_A, p + SUFFIX_B;
    var foundA, pentryA, pentryABak := Locate(diskA, nA, tA);
    var foundB, pentryB, pentryBBak := Locate(diskB, nB, tB);
    if !foundA || !foundB {
      return false, uA, uB;
    }
    var version := ActiveVersion(devA, lA, devB, lB, nA, nB, vA, vB);
    if version == Neither {
      return false, uA, uB;
    }
    var gA := PrimaryGuid(diskA, nA, pentryA, pentryABak, tA);
    var gB := PrimaryGuid(diskB, nB, pentryB, pentryBBak, tB);
    var active, inactive := if version == A then gA else gB, if version == A then gB else gA;
    uA, uB := MarkPair(diskA, diskB, nA, nB, pentryA, pentryABak, pentryB, pentryBBak, active, inactive, slotA, tA,
      tB, s);
    ok := true;
  }

  // Both images are up to date.
  ghost predicate Prepared(x: GptDisk, y: GptDisk, tX: Tables, tY: Tables)
    reads x.hdr, x.hdrBak, x.pentryArr, x.pentryArrBak, y.hdr, y.hdrBak, y.pentryArr, y.pentryArrBak
  {
    Separate(x, y) && Holds(x, tX) && Holds(y, tY)
  }

  method RefreshBoth(x: GptDisk, y: GptDisk, crcX: Checksum, crcY: Checksum, ghost tX: Tables, ghost tY: Tables)
    requires Prepared(x, y, tX, tY) && WellFormed(tX) && WellFormed(tY)
    modifies x.hdr, x.hdrBak, y.hdr, y.hdrBak
    ensures |tX.sh| == |tX.ph| && |tY.sh| == |tY.ph| && Prepared(x, y, Updated(crcX, tX), Updated(crcY, tY))
  {
    Refresh(x, crcX, tX);
    Refresh(y, crcY, tY);
  }

  // Entries switched and checksums updated.
  method Turn(diskA: GptDisk, diskB: GptDisk, p: Name, slotA: bool,
              devA: BlockDevice, ghost lA: Layout, devB: BlockDevice, ghost lB: Layout,
              ghost vA: Tables, ghost vB: Tables, ghost tA: Tables, ghost tB: Tables, ghost s: Switched)
    returns (ok: bool, ghost wA: Tables, ghost wB: Tables)
    requires Prepared(diskA, diskB, tA, tB) && Sibling(tA, vA) && Sibling(tB, vB)
    requires devA.Shows(lA, vA) && Good(lA, vA) && devB.Shows(lB, vB) && Good(lB, vB)
    requires IsCName(p) && |p| + 2 < MAX_NAME
    requires s == SwitchOne(ImageOf(tA), ImageOf(tB), p, slotA, ImageOf(vA), ImageOf(vB))
    modifies Buffers(diskA), Buffers(diskB)
    ensures ok == s.Switched?
    ensures ok ==> Prepared(diskA, diskB, wA, wB)
    ensures ok ==> Final(devA.crc, vA, wA, s.a) && Final(devB.crc, vB, wB, s.b)
  {
    ghost var uA, uB;
    ok, uA, uB := SwitchPair(diskA, diskB, p, slotA, devA, lA, devB, lB, vA, vB, tA, tB, s);
    wA, wB := uA, uB;
    if !ok {
      return;
    }
    RefreshBoth(diskA, diskB, devA.crc, devB.crc, uA, uB);
    wA, wB := Updated(devA.crc, uA), Updated(devB.crc, uB);
    UpdatedFinal(devA.crc, vA, tA, uA, wA, s.a);
    UpdatedFinal(devB.crc, vB, tB, uB, wB, s.b);
  }

  ghost predicate Seekables(parts: seq<Name>) {
    forall k :: 0 <= k < |parts| ==> Seekable(parts[k])
  }

  // boot_ctl_set_active_slot_for_partitions, up to the commits: the images to be
  // written, if there is anything to write.
  method SwitchImages(parts: seq<Name>, present: Name -> bool, slotA: bool,
                      devA: BlockDevice, ghost lA: Layout, devB: BlockDevice, ghost lB: Layout,
                      ghost vA: Tables, ghost vB: Tables, ghost a0: Image, ghost b0: Image, ghost s: Switched)
    returns (ok: bool, diskA: GptDisk?, diskB: GptDisk?, ghost tA: Tables, ghost tB: Tables)
    requires devA.Shows(lA, vA) && Good(lA, vA) && devB.Shows(lB, vB) && Good(lB, vB) && Seekables(parts)
    requires a0 == ImageOf(vA) && b0 == ImageOf(vB) && s == SwitchAll(a0, b0, parts, present, slotA, a0, b0)
    ensures ok == s.Switched?
    ensures (diskA == null) == (diskB == null)
    ensures ok && diskA == null ==> s == Switched(a0, b0)
    ensures ok && diskA != null ==> Prepared(diskA, diskB, tA, tB)
    ensures ok && diskA != null ==> Final(devA.crc, vA, tA, s.a) && Final(devB.crc, vB, tB, s.b)
  {
    ghost var a, b := a0, b0;
    RestStart(a, b, parts, present, slotA, a0, b0);
    diskA, diskB, tA, tB := null, null, vA, vB;
    var k := 0;
    while k < |parts|
      invariant k <= |parts|
      invariant (diskA == null) == (diskB == null)
      invariant diskA == null ==> a == a0 && b == b0
      invariant diskA != null ==> fresh(Buffers(diskA)) && fresh(Buffers(diskB)) && Prepared(diskA, diskB, tA, tB)
      invariant diskA != null ==> Final(devA.crc, vA, tA, a) && Final(devB.crc, vB, tB, b)
      invariant Rest(a, b, parts, k, present, slotA, a0, b0) == s
    {
      assert Seekable(parts[k]);
      ghost var one := OneStep(a, b, parts[k], present, slotA, a0, b0);
      RestStep(a, b, parts, k, present, slotA, a0, b0, one);
      var done;
      done, diskA, diskB, tA, tB :=
        SwitchPart(parts[k], present, slotA, diskA, diskB, devA, lA, devB, lB, vA, vB, tA, tB, a0, b0, a, b, one);
      if !done {
        return false, null, null, tA, tB;
      }
      a, b := one.a, one.b;
      k := k + 1;
    }
    RestEnd(a, b, parts, present, slotA, a0, b0);
    ok := true;
  }

  method LoadBoth(devA: BlockDevice, ghost lA: Layout, devB: BlockDevice, ghost lB: Layout, ghost vA: Tables,
                  ghost vB: Tables)
    returns (diskA: GptDisk, diskB: GptDisk)
    requires devA.Shows(lA, vA) && Good(lA, vA) && devB.Shows(lB, vB) && Good(lB, vB)
    ensures fresh(Buffers(diskA)) && fresh(Buffers(diskB)) && Prepared(diskA, diskB, vA, vB)
  {
    diskA := GetDiskInfo(devA, lA, vA);
    diskB := GetDiskInfo(devB, lB, vB);
  }

  // The loop body: the images are loaded when the first pair comes.
  method SwitchPart(part: Name, present: Name -> bool, slotA: bool, diskA0: GptDisk?, diskB0: GptDisk?,
                    devA: BlockDevice, ghost lA: Layout, devB: BlockDevice, ghost lB: Layout,
                    ghost vA: Tables, ghost vB: Tables, ghost tA0: Tables, ghost tB0: Tables,
                    ghost a0: Image, ghost b0: Image, ghost a: Image, ghost b: Image, ghost one: Switched)
    returns (ok: bool, diskA: GptDisk?, diskB: GptDisk?, ghost tA: Tables, ghost tB: Tables)
    requires devA.Shows(lA, vA) && Good(lA, vA) && devB.Shows(lB, vB) && Good(lB, vB) && Seekable(part)
    requires (diskA0 == null) == (diskB0 == null)
    requires a0 == ImageOf(vA) && b0 == ImageOf(vB) && (diskA0 == null ==> a == a0 && b == b0)
    requires diskA0 != null ==> Prepared(diskA0, diskB0, tA0, tB0)
    requires diskA0 != null ==> Final(devA.crc, vA, tA0, a) && Final(devB.crc, vB, tB0, b)
    requires one == OneStep(a, b, part, present, slotA, a0, b0)
    modifies if diskA0 == null then {} else Buffers(diskA0), if diskB0 == null then {} else Buffers(diskB0)
    ensures ok == one.Switched?
    ensures (diskA == null) == (diskB == null)
    ensures diskA != null ==> (diskA == diskA0 && diskB == diskB0) || (fresh(Buffers(diskA)) && fresh(Buffers(diskB)))
    ensures ok && diskA == null ==> one == Switched(a, b) && diskA0 == null
    ensures ok && diskA != null ==> Prepared(diskA, diskB, tA, tB)
    ensures ok && diskA != null ==> Final(devA.crc, vA, tA, one.a) && Final(devB.crc, vB, tB, one.b)
  {
    ok, diskA, diskB, tA, tB := true, diskA0, diskB0, tA0, tB0;
    if |part| < 3 {
      return false, null, null, tA, tB;
    }
    var p := part[..|part| - 2];
    if !present(p) {
      return;
    }
    if diskA == null {
      diskA, diskB := LoadBoth(devA, lA, devB, lB, vA, vB);
      tA, tB := vA, vB;
    }
    ok, tA, tB := Turn(diskA, diskB, p, slotA, devA, lA, devB, lB, vA, vB, tA, tB, one);
  }

  // What one name on the list does, and the rest of the list from a position on.
  function OneStep(a: Image, b: Image, part: Name, present: Name -> bool, slotA: bool, a0: Image, b0: Image): Switched {
    if |part| < 3 then Refused
    else if !present(part[..|part| - 2]) then Switched(a, b)
    else SwitchOne(a, b, part[..|part| - 2], slotA, a0, b0)
  }

  ghost function Rest(a: Image, b: Image, parts: seq<Name>, k: nat, present: Name -> bool, slotA: bool, a0: Image,
                      b0: Image): Switched
    requires k <= |parts|
  {
    SwitchAll(a, b, parts[k..], present, slotA, a0, b0)
  }

  lemma RestStep(a: Image, b: Image, parts: seq<Name>, k: nat, present: Name -> bool, slotA: bool, a0: Image,
                 b0: Image, one: Switched)
    requires k < |parts| && one == OneStep(a, b, parts[k], present, slotA, a0, b0)
    ensures Rest(a, b, parts, k, present, slotA, a0, b0) ==
      if one.Refused? then Refused else Rest(one.a, one.b, parts, k + 1, present, slotA, a0, b0)
  {
    assert parts[k..][0] == parts[k] && parts[k..][1..] == parts[k + 1..];
  }

  lemma RestStart(a: Image, b: Image, parts: seq<Name>, present: Name -> bool, slotA: bool, a0: Image, b0: Image)
    ensures Rest(a, b, parts, 0, present, slotA, a0, b0) == SwitchAll(a, b, parts, present, slotA, a0, b0)
  {
    assert parts[0..] == parts;
  }

  lemma RestEnd(a: Image, b: Image, parts: seq<Name>, present: Name -> bool, slotA: bool, a0: Image, b0: Image)
    ensures Rest(a, b, parts, |parts|, present, slotA, a0, b0) == Switched(a, b)
  {}

  /* Commits. */

  // A commit of u over v, cut off or not, leaves the old secondary table or the new
  // primary table.
  ghost predicate Survives(w: Tables, v: Tables, u: Tables) {
    (w.sh == v.sh && w.sa == v.sa) || (w.ph == u.ph && w.pa == u.pa)
  }

  method CommitOne(d: GptDisk, dev: BlockDevice, ghost l: Layout, ghost v: Tables, ghost t: Tables)
    returns (r: int, ghost w: Tables)
    requires dev.Shows(l, v) && Good(l, v) && Holds(d, t) && Fields(l, t) && Sized(v, t)
    modifies dev
    ensures r == if old(dev.fault).at < 4 then -1 else 0
    ensures r == 0 ==> w == t && dev.fault.at == old(dev.fault).at - 4
    ensures dev.Shows(l, w) && Survives(w, v, t)
  {
    CommitCut(v, t, dev.fault);
    r, w := d.Commit(dev, l, v, t);
  }

  // Both images written, one after the other.
  method CommitBoth(diskA: GptDisk, diskB: GptDisk,
                    devA: BlockDevice, ghost lA: Layout, devB: BlockDevice, ghost lB: Layout,
                    ghost vA: Tables, ghost vB: Tables, ghost tA: Tables, ghost tB: Tables)
    returns (r: int, ghost wA: Tables, ghost wB: Tables)
    requires devA.Shows(lA, vA) && Good(lA, vA) && devB.Shows(lB, vB) && Good(lB, vB) && (devA == devB ==> lA == lB)
    requires Holds(diskA, tA) && Good(lA, tA) && Sized(vA, tA)
    requires Holds(diskB, tB) && Good(lB, tB) && Sized(vB, tB)
    modifies devA, devB
    ensures r == 0 || r == -1
    ensures old(devA.fault).at >= 8 && old(devB.fault).at >= 8 ==> r == 0
    ensures devA.Shows(lA, wA) && devB.Shows(lB, wB)
    ensures r == 0 ==> wB == tB && (devA != devB ==> wA == tA)
    ensures devA != devB ==> Survives(wA, vA, tA) && Survives(wB, vB, tB)
    ensures devA == devB ==> wA == wB && (Survives(wB, vA, tA) || Survives(wB, tA, tB))
  {
    r, wA := CommitOne(diskA, devA, lA, vA, tA);
    wB := if devA == devB then wA else vB;
    if r != 0 {
      return;
    }
    r, wB := CommitOne(diskB, devB, lB, wB, tB);
    if devA == devB {
      wA := wB;
    }
  }

  // One of the tables passes all its checks.
  ghost predicate HasWhole(crc: Checksum, w: Tables) {
    || (HeaderSize(w.ph) <= |w.ph| && Whole(crc, w.ph, w.pa))
    || (HeaderSize(w.sh) <= |w.sh| && Whole(crc, w.sh, w.sa))
  }

  // The secondary table is the old one, or the primary one is whole with new entries.
  ghost predicate OldOrNewTable(crc: Checksum, w: Tables, v: Tables, m: Image) {
    || (w.sh == v.sh && w.sa == v.sa)
    || (HeaderSize(w.ph) <= |w.ph| && Whole(crc, w.ph, w.pa) && HasEntries(w.ph, w.pa, m.prim))
  }

  ghost predicate HasEntries(h: Header, arr: Bytes, es: seq<Entry>) {
    var n, esz := Get4(h, COUNT), EntrySize(h);
    esz >= PTN_ENTRY_SIZE && |arr| == Size(n, esz) && Entries(arr, esz, n) == es
  }

  lemma SurvivesCut(crc: Checksum, w: Tables, v: Tables, u: Tables, m: Image)
    requires Checked(crc, u) && ImageOf(u) == m
    ensures Survives(w, v, u) ==> OldOrNewTable(crc, w, v, m)
    ensures Survives(w, v, u) && HeaderSize(v.sh) <= |v.sh| && Whole(crc, v.sh, v.sa) ==> HasWhole(crc, w)
  {}

  lemma SurvivesBoth(crcA: Checksum, crcB: Checksum, lA: Layout, same: bool, wA: Tables, wB: Tables, vA: Tables,
                     vB: Tables,
                     tA: Tables, tB: Tables, a: Image, b: Image)
    requires Final(crcA, vA, tA, a) && Final(crcB, vB, tB, b) && Good(lA, vA) && WellFormed(vB)
    requires if same then crcA == crcB && wA == wB && (Survives(wB, vA, tA) || Survives(wB, tA, tB))
             else Survives(wA, vA, tA) && Survives(wB, vB, tB)
    ensures !same ==> OldOrNewTable(crcA, wA, vA, a) && OldOrNewTable(crcB, wB, vB, b)
    ensures SecondaryWhole(crcA, vA) && SecondaryWhole(crcB, vB) && EqualSizes(vA) ==>
      HasWhole(crcA, wA) && HasWhole(crcB, wB)
  {
    SiblingGood(tA, vA, lA);
    SurvivesCut(crcA, wA, vA, tA, a);
    SurvivesCut(crcB, wB, vB, tB, b);
    SurvivesCut(crcB, wB, tA, tB, b);
  }

  // The entries that are left, in tables that are checked if they were before.
  ghost predicate Leaves(l: Layout, crc: Checksum, v: Tables, w: Tables, m: Image) {
    Good(l, w) && ImageOf(w) == m && (Checked(crc, v) ==> Checked(crc, w))
  }

  lemma FinalLeaves(l: Layout, crc: Checksum, v: Tables, t: Tables, m: Image)
    requires Final(crc, v, t, m) && Good(l, v)
    ensures Leaves(l, crc, v, t, m) && Sized(v, t)
  {
    SiblingGood(t, v, l);
  }

  // boot_ctl_set_active_slot_for_partitions: the active slot of the listed partitions
  // switched on the devices of their versions A and B, which hold vA and vB before and
  // wA and wB after it. A refused switch writes nothing. Where both are one device, what
  // is left is the second image alone. Wherever a commit is cut off, each of two devices
  // has its old secondary table or a whole new primary one, and a device with whole
  // tables has one left.
  method SetActiveSlotForPartitions(parts: seq<Name>, present: Name -> bool, slotA: bool,
                                    devA: BlockDevice, ghost lA: Layout, devB: BlockDevice, ghost lB: Layout,
                                    ghost vA: Tables, ghost vB: Tables, ghost s: Switched)
    returns (r: int, ghost wA: Tables, ghost wB: Tables)
    requires devA.Shows(lA, vA) && Good(lA, vA) && devB.Shows(lB, vB) && Good(lB, vB)
    requires (devA == devB ==> lA == lB) && Seekables(parts)
    requires s == SwitchAll(ImageOf(vA), ImageOf(vB), parts, present, slotA, ImageOf(vA), ImageOf(vB))
    modifies devA, devB
    ensures r == 0 || r == -1
    ensures s.Refused? ==> r == -1 && devA.data == old(devA.data) && devB.data == old(devB.data)
    ensures s.Switched? && old(devA.fault).at >= 8 && old(devB.fault).at >= 8 ==> r == 0
    ensures devA.Shows(lA, wA) && devB.Shows(lB, wB)
    ensures r == 0 ==> s.Switched? && Leaves(lB, devB.crc, vB, wB, s.b)
    ensures r == 0 && devA != devB ==> Leaves(lA, devA.crc, vA, wA, s.a)
    ensures s.Switched? && devA != devB ==>
      OldOrNewTable(devA.crc, wA, vA, s.a) && OldOrNewTable(devB.crc, wB, vB, s.b)
    ensures SecondaryWhole(devA.crc, vA) && SecondaryWhole(devB.crc, vB) && EqualSizes(vA) ==>
      HasWhole(devA.crc, wA) && HasWhole(devB.crc, wB)
  {
    wA, wB := vA, vB;
    var ok, diskA, diskB, tA, tB :=
      SwitchImages(parts, present, slotA, devA, lA, devB, lB, vA, vB, ImageOf(vA), ImageOf(vB), s);
    if !ok {
      return -1, wA, wB;
    }
    if diskA == null {
      return 0, wA, wB;
    }
    FinalLeaves(lA, devA.crc, vA, tA, s.a);
    FinalLeaves(lB, devB.crc, vB, tB, s.b);
    r, wA, wB := CommitBoth(diskA, diskB, devA, lA, devB, lB, vA, vB, tA, tB);
    SurvivesBoth(devA.crc, devB.crc, lA, devA == devB, wA, wB, vA, vB, tA, tB, s.a, s.b);
  }

  /* Marks on a slot. */

  method SetFlag(a: array<byte>, esz: nat, ghost n: nat, ghost i: nat, at: nat, attr: SlotMark)
    requires esz >= PTN_ENTRY_SIZE && a.Length == Size(n, esz) && i < n && at == Size(i, esz)
    modifies a
    ensures Entries(a[..], esz, n) == Entries(old(a[..]), esz, n)[i := Flagged(Entries(old(a[..]), esz, n)[i], attr)]
  {
    ghost var buf := a[..];
    var flag := ReadFlag(a, esz, n, i, at);
    PatchFlag(buf, esz, n, i, With(flag, attr));
    a[at + FLAG] := With(flag, attr);
    assert a[..] == buf[at + FLAG := With(flag, attr)];
  }

  method FlagImage(d: GptDisk, name: Name, at: nat, atBak: nat, attr: SlotMark, ghost t: Tables)
    returns (ghost u: Tables)
    requires Holds(d, t) && WellFormed(t) && FoundIn(ImageOf(t), name) && Located(t, name, at, atBak)
    modifies d.pentryArr, d.pentryArrBak
    ensures Holds(d, u) && Edited(t, u) && WellFormed(u) && ImageOf(u) == FlagBoth(ImageOf(t), name, attr)
  {
    var esz := EntrySize(d.hdr[..]);
    ghost var n, m := Get4(t.ph, COUNT), ImageOf(t);
    SetFlag(d.pentryArr, esz, n, Seek(m.prim, name, 0), at, attr);
    SetFlag(d.pentryArrBak, esz, n, Seek(m.back, name, 0), atBak, attr);
    u := d.Image();
  }

  // One partition marked on its device.
  method FlagPartition(dev: BlockDevice, ghost l: Layout, name: Name, attr: SlotMark, ghost v: Tables)
    returns (r: int, ghost w: Tables)
    requires dev.Shows(l, v) && Good(l, v) && Seekable(name)
    modifies dev
    ensures dev.Shows(l, w)
    ensures r == if FoundIn(ImageOf(v), name) && old(dev.fault).at >= 4 then 0 else -1
    ensures r == 0 ==> dev.fault.at == old(dev.fault).at - 4
    ensures r == 0 ==> Good(l, w) && Checked(dev.crc, w) && ImageOf(w) == FlagBoth(ImageOf(v), name, attr)
    ensures !FoundIn(ImageOf(v), name) ==> w == v
  {
    var d := GetDiskInfo(dev, l, v);
    var found, at, atBak := Locate(d, name, v);
    w := v;
    if !found {
      return -1, w;
    }
    ghost var u := FlagImage(d, name, at, atBak, attr, v);
    Refresh(d, dev.crc, u);
    ghost var t, m := Updated(dev.crc, u), FlagBoth(ImageOf(v), name, attr);
    UpdatedFinal(dev.crc, v, v, u, t, m);
    FinalLeaves(l, dev.crc, v, t, m);
    r, w := CommitOne(d, dev, l, v, t);
  }

  // The full names of the partitions from a position of the list on that have both
  // versions.
  function Listing(ps: seq<Name>, k: nat, present: Name -> bool, slotA: bool): seq<Name>
    requires k <= |ps|
    decreases |ps| - k
  {
    if k == |ps| then []
    else
      var rest := Listing(ps, k + 1, present, slotA);
      if present(ps[k]) then [ps[k] + Suffix(slotA)] + rest else rest
  }

  // They are the names in the slot of the partitions that have both versions.
  lemma {:induction false} ListingInSlot(ps: seq<Name>, k: nat, present: Name -> bool, slotA: bool)
    requires k <= |ps|
    ensures Listing(ps, k, present, slotA) == InSlot(Filtered(ps[k..], present), slotA)
    decreases |ps| - k
  {
    if k < |ps| {
      ListingInSlot(ps, k + 1, present, slotA);
      assert ps[k..][0] == ps[k] && ps[k..][1..] == ps[k + 1..];
    }
  }

  lemma ListingStep(ps: seq<Name>, k: nat, present: Name -> bool, slotA: bool)
    requires k < |ps|
    ensures var rest := Listing(ps, k + 1, present, slotA);
      Listing(ps, k, present, slotA) == if present(ps[k]) then [ps[k] + Suffix(slotA)] + rest else rest
  {}

  // A device holds these tables of these entries, checked if asked for.
  ghost predicate Keeps(dev: BlockDevice, l: Layout, v: Tables, m: Image, intact: bool)
    reads dev
  {
    Kept(dev.crc, dev.blk, dev.data, l, v, m, intact)
  }

  ghost predicate Kept(crc: Checksum, blk: nat, data: Bytes, l: Layout, v: Tables, m: Image, intact: bool) {
    && blk == l.blk && Geometry(l) && |data| == l.size && View(l, data) == v
    && Good(l, v) && ImageOf(v) == m && (intact ==> Checked(crc, v))
  }

  ghost function Datas(devs: seq<BlockDevice>): (ds: seq<Bytes>)
    reads devs
    ensures |ds| == |devs| && forall j :: 0 <= j < |devs| ==> ds[j] == devs[j].data
  {
    seq(|devs|, j requires 0 <= j < |devs| reads devs => devs[j].data)
  }

  // All devices with these bytes do so.
  ghost predicate AllKept(devs: seq<BlockDevice>, ds: seq<Bytes>, ls: seq<Layout>, vs: seq<Tables>, disks: seq<Image>,
                          intact: bool) {
    && |ds| == |devs| && |ls| == |devs| && |vs| == |devs| && |disks| == |devs|
    && forall j :: 0 <= j < |devs| ==> Kept(devs[j].crc, devs[j].blk, ds[j], ls[j], vs[j], disks[j], intact)
  }

  ghost predicate World(devs: seq<BlockDevice>, ls: seq<Layout>, vs: seq<Tables>, disks: seq<Image>, intact: bool)
    reads devs
  {
    AllKept(devs, Datas(devs), ls, vs, disks, intact)
  }

  lemma KeptOne(devs: seq<BlockDevice>, ds: seq<Bytes>, ls: seq<Layout>, vs: seq<Tables>, disks: seq<Image>,
                intact: bool, j: nat)
    requires AllKept(devs, ds, ls, vs, disks, intact) && j < |devs|
    ensures Kept(devs[j].crc, devs[j].blk, ds[j], ls[j], vs[j], disks[j], intact)
  {}

  // A change of one device leaves the others.
  lemma KeptButOne(devs: seq<BlockDevice>, ds: seq<Bytes>, ls: seq<Layout>, vs: seq<Tables>, disks: seq<Image>,
                   intact: bool,
                   j: nat, data: Bytes, w: Tables, m: Image)
    requires AllKept(devs, ds, ls, vs, disks, intact) && j < |devs|
    requires Kept(devs[j].crc, devs[j].blk, data, ls[j], w, m, intact)
    ensures AllKept(devs, ds[j := data], ls, vs[j := w], disks[j := m], intact)
  {}

  lemma FlagAllFirst(disks: seq<Image>, name: Name, rest: seq<Name>, place: Name -> nat, a: SlotMark)
    ensures FlagAll(disks, [name] + rest, place, a) ==
      if !IsThere(disks, place, name) then SlotAttributes.Outcome(false, disks)
      else FlagAll(FlagOne(disks, place, name, a), rest, place, a)
  {
    assert ([name] + rest)[0] == name && ([name] + rest)[1..] == rest;
  }

  ghost function Next(disks: seq<Image>, j: nat, name: Name, a: SlotMark): (r: seq<Image>)
    requires j < |disks| && FoundIn(disks[j], name)
    ensures |r| == |disks|
  {
    disks[j := FlagBoth(disks[j], name, a)]
  }

  lemma SeekableVersion(p: Name, slotA: bool)
    requires IsCName(p) && |p| + 2 < MAX_NAME
    ensures Seekable(p + Suffix(slotA))
  {
    assert '\0' !in Suffix(slotA);
  }

  ghost predicate AllDifferent(devs: seq<BlockDevice>) {
    forall i, j :: 0 <= i < j < |devs| ==> devs[i] != devs[j]
  }

  // No write is cut off while so many commits are made.
  ghost predicate Lasting(devs: seq<BlockDevice>, commits: int)
    reads devs
  {
    forall j :: 0 <= j < |devs| ==> devs[j].fault.at >= 4 * commits
  }

  method FlagOn(devs: seq<BlockDevice>, ghost ls: seq<Layout>, j: nat, name: Name, attr: SlotMark,
                ghost vs: seq<Tables>, ghost cur: seq<Image>, ghost intact: bool, ghost left: nat)
    returns (r: int, ghost ws: seq<Tables>, ghost next: seq<Image>)
    requires World(devs, ls, vs, cur, intact) && AllDifferent(devs) && j < |devs| && Seekable(name)
    modifies devs[j]
    ensures r == 0 || r == -1
    ensures |next| == |devs| && (r == 0 ==> FoundIn(cur[j], name) && next == Next(cur, j, name, attr))
    ensures old(Lasting(devs, 1)) && r != 0 ==> !FoundIn(cur[j], name) && next == cur
    ensures r == 0 || old(Lasting(devs, 1)) ==> World(devs, ls, ws, next, intact)
    ensures old(Lasting(devs, left + 1)) && r == 0 ==> Lasting(devs, left)
  {
    ghost var ds := Datas(devs);
    KeptOne(devs, ds, ls, vs, cur, intact, j);
    ghost var w;
    r, w := FlagKept(devs[j], ls[j], name, attr, vs[j], cur[j], intact);
    ghost var m := if r == 0 then FlagBoth(cur[j], name, attr) else cur[j];
    ws, next := vs[j := w], cur[j := m];
    assert Datas(devs) == ds[j := devs[j].data];
    if r == 0 || !FoundIn(cur[j], name) {
      KeptButOne(devs, ds, ls, vs, cur, intact, j, devs[j].data, w, m);
    }
  }

  method FlagKept(dev: BlockDevice, ghost l: Layout, name: Name, attr: SlotMark, ghost v: Tables, ghost m: Image,
                  ghost intact: bool)
    returns (r: int, ghost w: Tables)
    requires Keeps(dev, l, v, m, intact) && Seekable(name)
    modifies dev
    ensures r == if FoundIn(m, name) && old(dev.fault).at >= 4 then 0 else -1
    ensures r == 0 ==> dev.fault.at == old(dev.fault).at - 4 && Keeps(dev, l, w, FlagBoth(m, name, attr), intact)
    ensures !FoundIn(m, name) ==> Keeps(dev, l, w, m, intact)
  {
    r, w := FlagPartition(dev, l, name, attr, v);
  }

  // The loop body for one name on the list, up to the tables and entries it leaves.
  method FlagListed(name: Name, j: nat, attr: SlotMark, devs: seq<BlockDevice>, ghost ls: seq<Layout>,
                    ghost vs: seq<Tables>, ghost cur: seq<Image>, ghost left: nat, ghost intact: bool)
    returns (r: int, ghost ws: seq<Tables>, ghost next: seq<Image>)
    requires World(devs, ls, vs, cur, intact) && AllDifferent(devs) && Seekable(name)
    modifies devs
    ensures |next| == |devs| && (r == 0 || r == -1)
    ensures r == 0 ==> j < |devs| && FoundIn(cur[j], name) && next == Next(cur, j, name, attr)
    ensures r != 0 && old(Lasting(devs, 1)) ==> !(j < |devs| && FoundIn(cur[j], name)) && next == cur
    ensures r == 0 || old(Lasting(devs, 1)) ==> World(devs, ls, ws, next, intact)
    ensures old(Lasting(devs, left + 1)) && r == 0 ==> Lasting(devs, left)
  {
    if j >= |devs| {
      return -1, vs, cur;
    }
    r, ws, next := FlagOn(devs, ls, j, name, attr, vs, cur, intact, left);
  }

  method FlagTurn(ps: seq<Name>, k: nat, present: Name -> bool, slotA: bool, attr: SlotMark,
                  devs: seq<BlockDevice>, ghost ls: seq<Layout>, place: Name -> nat,
                  ghost vs: seq<Tables>, ghost cur: seq<Image>, ghost names: seq<Name>, ghost o: SlotAttributes.Outcome,
                  ghost left: nat, ghost intact: bool)
    returns (r: int, ghost ws: seq<Tables>, ghost next: seq<Image>, ghost rest: seq<Name>)
    requires World(devs, ls, vs, cur, intact) && AllDifferent(devs)
    requires k < |ps| && IsCName(ps[k]) && |ps[k]| + 2 < MAX_NAME
    requires names == Listing(ps, k, present, slotA) && FlagAll(cur, names, place, attr) == o
    modifies devs
    ensures r == 0 || r == -1
    ensures old(Lasting(devs, left + 1)) && r == 0 ==> Lasting(devs, left)
    ensures r == 0 || old(Lasting(devs, 1)) ==> World(devs, ls, ws, next, intact)
    ensures r != 0 && old(Lasting(devs, 1)) ==> o == SlotAttributes.Outcome(false, next)
    ensures rest == Listing(ps, k + 1, present, slotA) && (r == 0 ==> FlagAll(next, rest, place, attr) == o)
  {
    r, ws, next, rest := 0, vs, cur, Listing(ps, k + 1, present, slotA);
    ListingStep(ps, k, present, slotA);
    if present(ps[k]) {
      var name := ps[k] + Suffix(slotA);
      var j := place(name);
      FlagAllFirst(cur, name, rest, place, attr);
      SeekableVersion(ps[k], slotA);
      r, ws, next := FlagListed(name, j, attr, devs, ls, vs, cur, left, intact);
    }
  }

  // update_slot_attribute: every listed partition of the slot that has both versions
  // marked on its device. Tables that are checked before are so after.
  method UpdateSlotAttribute(ps: seq<Name>, present: Name -> bool, slotA: bool, attr: SlotMark,
                             devs: seq<BlockDevice>, ghost ls: seq<Layout>, place: Name -> nat,
                             ghost vs: seq<Tables>, ghost disks: seq<Image>, ghost intact: bool,
                             ghost o: SlotAttributes.Outcome)
    returns (r: int, ghost ws: seq<Tables>)
    requires World(devs, ls, vs, disks, intact) && AllDifferent(devs)
    requires forall k :: 0 <= k < |ps| ==> IsCName(ps[k]) && |ps[k]| + 2 < MAX_NAME
    requires o == FlagAll(disks, Listing(ps, 0, present, slotA), place, attr)
    modifies devs
    ensures r == 0 || r == -1
    ensures r == 0 ==> o.ok && World(devs, ls, ws, o.disks, intact)
    ensures old(Lasting(devs, |ps|)) ==> World(devs, ls, ws, o.disks, intact) && (r == 0 <==> o.ok)
  {
    ghost var cur, rest := disks, Listing(ps, 0, present, slotA);
    ws := vs;
    var k := 0;
    while k < |ps|
      invariant k <= |ps| && World(devs, ls, ws, cur, intact)
      invariant rest == Listing(ps, k, present, slotA) && FlagAll(cur, rest, place, attr) == o
      invariant old(Lasting(devs, |ps|)) ==> Lasting(devs, |ps| - k)
    {
      ghost var left := |ps| - k - 1;
      assert old(Lasting(devs, |ps|)) ==> Lasting(devs, left + 1) && Lasting(devs, 1);
      assert IsCName(ps[k]);
      r, ws, cur, rest := FlagTurn(ps, k, present, slotA, attr, devs, ls, place, ws, cur, rest, o, left, intact);
      if r != 0 {
        return;
      }
      k := k + 1;
    }
    assert rest == [];
    r := 0;
  }
}
