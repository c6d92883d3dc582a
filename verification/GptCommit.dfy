/**
 Writing a whole partition table back: the in-memory image of gpt-utils.cpp, its
 checksums brought up to date, and the four writes of a commit.
 */
module GptCommit {
  import opened ByteBuffers
  import opened GptHeader
  import opened GptEntries
  import opened EntryArray
  import opened FailsafeUpdate
  import opened FailsafeResume
  import opened GptDevice

  // The header sealed over a given number of bytes.
  function SealedOver(crc: Checksum, h: Header, size: nat): (r: Header)
    requires size <= |h|
    ensures |r| == |h|
  {
    Put4(h, HEADER_CRC, crc(Put4(h, HEADER_CRC, 0)[..size]))
  }

  // gpt_disk_update_crc takes the size of the primary header for both headers.
  function Updated(crc: Checksum, t: Tables): (r: Tables)
    requires HeaderSize(t.ph) <= |t.ph| && |t.sh| == |t.ph|
    ensures r.pa == t.pa && r.sa == t.sa && |r.ph| == |t.ph| && |r.sh| == |t.sh|
  {
    var size := HeaderSize(t.ph);
    t.(ph := Reheaded(crc, t.ph, t.pa, size), sh := Reheaded(crc, t.sh, t.sa, size))
  }

  // Two tables that a commit can be made of: a block size in common and entry arrays of
  // the size that both headers tell.
  ghost predicate Committable(t: Tables) {
    WellFormed(t) && |t.sh| == |t.ph| && ArraySize(t.sh) == ArraySize(t.ph) && Signed(t.ph) && Signed(t.sh)
  }

  predicate EqualSizes(t: Tables) {
    HeaderSize(t.sh) == HeaderSize(t.ph)
  }

  // A header sealed over some number of bytes has a good checksum just when that many
  // bytes have the checksum of the whole header.
  lemma SealedOverOk(crc: Checksum, h: Header, size: nat)
    requires HeaderSize(h) <= |h| && size <= |h|
    ensures var s, z := SealedOver(crc, h, size), Put4(h, HEADER_CRC, 0);
      && SameShape(s, h) && s[88..92] == h[88..92] && HeaderSize(s) == HeaderSize(h)
      && (Signed(s) <==> Signed(h))
      && (StateOf(crc, s) != BadCrc <==> crc(z[..size]) == crc(z[..HeaderSize(h)]))
  {
    var z := Put4(h, HEADER_CRC, 0);
    var sum := crc(z[..size]);
    var s := Put4(h, HEADER_CRC, sum);
    ShapeFields(s, h, 1);
    GetPut(h, HEADER_CRC, sum);
    PutSame(h, HEADER_CRC, sum, 0);
    SpliceReads(h, HEADER_CRC, ToLE(sum, 4), 88, 92);
    SpliceReads(h, HEADER_CRC, ToLE(sum, 4), 0, 9);
  }

  // The header with the checksum of its array, and sealed over some number of bytes.
  function Reheaded(crc: Checksum, h: Header, arr: Bytes, size: nat): (r: Header)
    requires size <= |h|
    ensures |r| == |h|
  {
    SealedOver(crc, Put4(h, ARRAY_CRC, crc(arr)), size)
  }

  // The bytes that the checksum of such a header is taken of.
  function Cleared(crc: Checksum, h: Header, arr: Bytes): (z: Header)
    ensures |z| == |h|
  {
    Put4(Put4(h, ARRAY_CRC, crc(arr)), HEADER_CRC, 0)
  }

  lemma ReheadedOk(crc: Checksum, h: Header, arr: Bytes, size: nat, s: Header)
    requires HeaderSize(h) <= |h| && size <= |h| && Signed(h) && s == Reheaded(crc, h, arr, size)
    ensures SameShape(s, h) && HeaderSize(s) == HeaderSize(h) && Signed(s)
    ensures Get4(s, ARRAY_CRC) == crc(arr)
    ensures var z := Cleared(crc, h, arr); StateOf(crc, s) == Ok <==> crc(z[..size]) == crc(z[..HeaderSize(h)])
  {
    var g := Put4(h, ARRAY_CRC, crc(arr));
    ShapeFields(g, h, 1);
    GetPut(h, ARRAY_CRC, crc(arr));
    SpliceReads(h, ARRAY_CRC, ToLE(crc(arr), 4), 0, 9);
    SealedOverOk(crc, g, size);
  }

  // The primary table is whole after the update, and the layout of both is kept.
  lemma UpdatedPrimary(crc: Checksum, t: Tables, u: Tables)
    requires WellFormed(t) && |t.sh| == |t.ph| && Signed(t.ph) && u == Updated(crc, t)
    ensures SameShape(u.ph, t.ph) && SameShape(u.sh, t.sh)
    ensures WellFormed(u) && PrimaryWhole(crc, u)
  {
    ReheadedOk(crc, t.ph, t.pa, HeaderSize(t.ph), u.ph);
    UpdatedShape(crc, t.sh, t.sa, HeaderSize(t.ph), u.sh);
    SameCounts(u.ph, t.ph);
    SameCounts(u.sh, t.sh);
  }

  lemma UpdatedShape(crc: Checksum, h: Header, arr: Bytes, size: nat, s: Header)
    requires size <= |h| && s == Reheaded(crc, h, arr, size)
    ensures SameShape(s, h)
  {}

  lemma SameCounts(h: Header, g: Header)
    requires SameShape(h, g)
    ensures Get4(h, COUNT) == Get4(g, COUNT) && EntrySize(h) == EntrySize(g)
    ensures HeaderSize(h) == HeaderSize(g) && ArraySize(h) == ArraySize(g)
  {
    ShapeFields(h, g, 1);
    assert h[80..84] == g[80..84];
  }

  // The backup table is whole after the update just when as many bytes of its header as
  // the primary header has carry the checksum of the whole header; which they do when
  // the two headers have one size.
  lemma UpdatedBackup(crc: Checksum, t: Tables, u: Tables)
    requires WellFormed(t) && |t.sh| == |t.ph| && Signed(t.ph) && Signed(t.sh) && u == Updated(crc, t)
    ensures WellFormed(u) && Signed(u.sh)
    ensures var z := Cleared(crc, t.sh, t.sa);
      SecondaryWhole(crc, u) <==> crc(z[..HeaderSize(t.ph)]) == crc(z[..HeaderSize(t.sh)])
    ensures EqualSizes(t) ==> SecondaryWhole(crc, u)
  {
    UpdatedPrimary(crc, t, u);
    ReheadedOk(crc, t.sh, t.sa, HeaderSize(t.ph), u.sh);
  }

  function PrimaryWrites(t: Tables): seq<Write> {
    [FailsafeUpdate.Write(PrimaryHeader, t.ph), FailsafeUpdate.Write(PrimaryArray, t.pa)]
  }

  function SecondaryWrites(t: Tables): seq<Write> {
    [FailsafeUpdate.Write(SecondaryHeader, t.sh), FailsafeUpdate.Write(SecondaryArray, t.sa)]
  }

  // gpt_disk_commit
  function CommitPlan(t: Tables): seq<Write> {
    PrimaryWrites(t) + SecondaryWrites(t)
  }

  // The image has the sizes of what is on the device.
  ghost predicate Sized(v: Tables, t: Tables) {
    |t.ph| == |v.ph| && |t.pa| == |v.pa| && |t.sh| == |v.sh| && |t.sa| == |v.sa|
  }

  lemma CommitFits(v: Tables, t: Tables)
    requires Sized(v, t)
    ensures Fits(v, CommitPlan(t))
  {}

  // The device after a commit of an image that a fault may have cut off.
  function Committed(v: Tables, t: Tables, f: Fault): Tables
    requires Sized(v, t)
  {
    CommitFits(v, t);
    Perform(v, CommitPlan(t), f)
  }

  // Up to the third write the secondary table is as it was, and from then on the
  // primary table is the new one.
  lemma CommitCut(v: Tables, t: Tables, f: Fault)
    requires Sized(v, t)
    ensures f.at < 2 ==> Committed(v, t, f).sh == v.sh && Committed(v, t, f).sa == v.sa
    ensures f.at >= 2 ==> Committed(v, t, f).ph == t.ph && Committed(v, t, f).pa == t.pa
    ensures f.at >= 4 ==> Committed(v, t, f) == t
  {
    var p, q := PrimaryWrites(t), SecondaryWrites(t);
    CutOfTwo(v, p[0], p[1], f);
    AllOfTwo(v, p[0], p[1]);
    var v1 := All(v, p);
    var g := if f.at < 2 then f else f.(at := f.at - 2);
    CutOfTwo(v1, q[0], q[1], g);
    assert FitsIn(v, p[0]) && FitsIn(v, p[1]) && FitsIn(v, q[0]) && FitsIn(v, q[1]);
    PerformSplit(v, p, q, f);
  }

  // What a region holds when a plan that writes it at position k is cut off.
  function Cut(before: Bytes, after: Bytes, k: nat, f: Fault): Bytes
    requires |before| == |after|
  {
    if k < f.at then after else if k == f.at then Mix(before, after, f.tear) else before
  }

  lemma CutPair(v: Tables, h: FailsafeUpdate.Write, a: FailsafeUpdate.Write, plan: seq<FailsafeUpdate.Write>,
                f: Fault)
    requires h.region != a.region && FitsIn(v, h) && FitsIn(v, a) && plan == [h, a]
    ensures Fits(v, plan) && Perform(v, plan, f) ==
      Put(Put(v, h.region, Cut(At(v, h.region), h.data, 0, f)), a.region, Cut(At(v, a.region), a.data, 1, f))
  {
    assert plan[0] == h && plan[1..] == [a] && [a][0] == a && [a][1..] == [];
    var v1 := Put(v, h.region, Cut(At(v, h.region), h.data, 0, f));
    assert At(v1, a.region) == At(v, a.region);
    assert Put(v1, a.region, At(v1, a.region)) == v1;
    if f.at > 0 {
      var g := f.(at := f.at - 1);
      assert Perform(v, plan, f) == Perform(v1, [a], g);
      assert Perform(v1, [a], g) == Put(v1, a.region, Cut(At(v, a.region), a.data, 0, g));
    }
  }

  // At every cut: primary header, primary array, secondary header, secondary array, in
  // this order, are new before the cut, torn at it and old behind it.
  lemma CommitExact(v: Tables, t: Tables, f: Fault)
    requires Sized(v, t)
    ensures Committed(v, t, f) ==
      Tables(Cut(v.ph, t.ph, 0, f), Cut(v.pa, t.pa, 1, f), Cut(v.sh, t.sh, 2, f), Cut(v.sa, t.sa, 3, f))
  {
    var p, q := PrimaryWrites(t), SecondaryWrites(t);
    assert FitsIn(v, q[0]) && FitsIn(v, q[1]);
    CutPair(v, p[0], p[1], p, f);
    AllOfTwo(v, p[0], p[1]);
    PerformSplit(v, p, q, f);
    if f.at >= 2 {
      var v1, g := All(v, p), f.(at := f.at - 2);
      CutPair(v1, q[0], q[1], q, g);
    }
  }

  // Old or new: a commit of any image, wherever it is cut off and however the write
  // there is torn, leaves a whole table. Either the secondary one still is the complete
  // old table, or the primary one is the complete new one, as the place of the cut
  // tells. A commit that is not cut off leaves the image, whose backup table is whole
  // just as UpdatedBackup says.
  lemma OldOrNew(crc: Checksum, v: Tables, t: Tables, u: Tables, f: Fault)
    requires WellFormed(v) && SecondaryWhole(crc, v)
    requires WellFormed(t) && |t.sh| == |t.ph| && Signed(t.ph) && Sized(v, t) && u == Updated(crc, t)
    ensures WellFormed(u) && u.pa == t.pa && u.sa == t.sa
    ensures f.at < 2 ==> Committed(v, u, f).sh == v.sh && Committed(v, u, f).sa == v.sa && SecondaryWhole(crc, v)
    ensures f.at >= 2 ==> Committed(v, u, f).ph == u.ph && Committed(v, u, f).pa == u.pa && PrimaryWhole(crc, u)
    ensures f.at >= 4 ==> Committed(v, u, f) == u
    ensures f.at >= 4 && Signed(t.sh) && EqualSizes(t) ==> SecondaryWhole(crc, u)
  {
    UpdatedPrimary(crc, t, u);
    CommitCut(v, u, f);
    if Signed(t.sh) {
      UpdatedBackup(crc, t, u);
    }
  }

  // The in-memory copy of both tables of a device.
  class GptDisk {
    const hdr: array<byte>
    const hdrBak: array<byte>
    const pentryArr: array<byte>
    const pentryArrBak: array<byte>

    ghost predicate Valid() {
      && hdr.Length >= MIN_BLOCK && hdrBak.Length == hdr.Length && hdr != hdrBak
      && pentryArr != pentryArrBak && pentryArr !in {hdr, hdrBak} && pentryArrBak !in {hdr, hdrBak}
    }

    ghost function Image(): (t: Tables)
      requires Valid()
      reads hdr, hdrBak, pentryArr, pentryArrBak
    {
      Tables(hdr[..], pentryArr[..], hdrBak[..], pentryArrBak[..])
    }

    // gpt_disk_get_disk_info
    constructor (dev: BlockDevice, ghost l: Layout, ghost v: Tables)
      requires dev.Shows(l, v) && Fields(l, v) && ArraySize(v.sh) == l.arraySize
      ensures Valid() && Image() == v
      ensures fresh(hdr) && fresh(hdrBak) && fresh(pentryArr) && fresh(pentryArrBak)
    {
      var h := dev.ReadHeader(l, true, v);
      var hb := dev.ReadHeader(l, false, v);
      assert Within(l, PrimaryArray) && Within(l, SecondaryArray);
      var a := dev.Read(EntriesOffset(h[..], dev.blk), ArraySize(h[..]));
      var ab := dev.Read(EntriesOffset(hb[..], dev.blk), ArraySize(hb[..]));
      hdr, hdrBak, pentryArr, pentryArrBak := h, hb, a, ab;
    }

    // gpt_disk_get_pentry: the position of the entry, or the end of the array
    method GetPentry(name: Name, primary: bool) returns (at: nat)
      requires Valid() && WellFormed(Image()) && IsCName(name) && |name| < MAX_NAME
      ensures var t := Image(); var n, esz := Get4(t.ph, COUNT), EntrySize(t.ph);
        at == Size(Seek(Entries(if primary then t.pa else t.sa, esz, n), name, 0), esz)
    {
      var arr := if primary then pentryArr else pentryArrBak;
      at := PentrySeek(name, arr[..], EntrySize(hdr[..]), Get4(hdr[..], COUNT), 0, 0);
    }

    // gpt_disk_update_crc
    method UpdateCrc(crc: Checksum)
      requires Valid() && HeaderSize(hdr[..]) <= hdr.Length
      modifies hdr, hdrBak
      ensures Image() == Updated(crc, old(Image()))
    {
      ghost var h, hb := hdr[..], hdrBak[..];
      PutWord(hdr, ARRAY_CRC, crc(pentryArr[..]));
      PutWord(hdrBak, ARRAY_CRC, crc(pentryArrBak[..]));
      ghost var h1, hb1 := hdr[..], hdrBak[..];
      ShapeFields(h1, h, 1);
      var size := HeaderSize(hdr[..]);
      PutWord(hdr, HEADER_CRC, 0);
      PutWord(hdrBak, HEADER_CRC, 0);
      var hdrCrc, hdrBakCrc := crc(hdr[..][..size]), crc(hdrBak[..][..size]);
      PutWord(hdr, HEADER_CRC, hdrCrc);
      PutWord(hdrBak, HEADER_CRC, hdrBakCrc);
      PutSame(h1, HEADER_CRC, 0, hdrCrc);
      PutSame(hb1, HEADER_CRC, 0, hdrBakCrc);
    }

    // gpt_disk_commit, over the tables v of the device
    method Commit(dev: BlockDevice, ghost l: Layout, ghost v: Tables, ghost t: Tables) returns (r: int, ghost w: Tables)
      requires Valid() && t == Image() && dev.Shows(l, v) && Sized(v, t) && Fields(l, t)
      modifies dev
      ensures SameOutside(l, dev.data, old(dev.data)) && dev.Shows(l, w)
      ensures w == Committed(v, t, old(dev.fault))
      ensures r == if old(dev.fault).at < 4 then -1 else 0
      ensures r == 0 ==> w == t && dev.fault.at == old(dev.fault).at - 4
    {
      ghost var f := dev.fault;
      ghost var plan := CommitPlan(t);
      CommitFits(v, t);
      CommitCut(v, t, f);
      assert plan[..0] == [] && plan[..4] == plan;
      assert Within(l, PrimaryHeader) && Within(l, SecondaryHeader);
      r := WriteTable(dev, l, v, plan, 0, f, dev.blk, hdr[..], pentryArr[..]);
      w := View(l, dev.data);
      if r != 0 {
        return;
      }
      ghost var before := dev.data;
      r := WriteTable(dev, l, v, plan, 2, f, |dev.data| - dev.blk, hdrBak[..], pentryArrBak[..]);
      w := View(l, dev.data);
      OutsideChain(l, dev.data, before, old(dev.data));
    }
  }

  // gpt_set_header and gpt_set_pentry_arr, two writes of a plan.
  method WriteTable(dev: BlockDevice, ghost l: Layout, ghost v: Tables, ghost plan: seq<Write>, ghost k: nat,
                    ghost f: Fault,
                    off: nat, hdr: Header, arr: Bytes) returns (r: int)
    requires Geometry(l) && |dev.data| == l.size && dev.blk == l.blk && Fits(v, plan) && k + 1 < |plan| && k <= f.at
    requires View(l, dev.data) == Perform(v, plan[..k], f) && dev.fault == Left(f, plan[..k])
    requires plan[k].data == hdr && Off(l, plan[k].region) == off && |hdr| == Len(l, plan[k].region)
    requires plan[k + 1].data == arr && Off(l, plan[k + 1].region) == EntriesOffset(hdr, l.blk) &&
      |arr| == Len(l, plan[k + 1].region)
    modifies dev
    ensures |dev.data| == l.size && SameOutside(l, dev.data, old(dev.data))
    ensures r == if f.at < k + 2 then -1 else 0
    ensures r == 0 ==> View(l, dev.data) == Perform(v, plan[..k + 2], f) && dev.fault == Left(f, plan[..k + 2])
    ensures r != 0 ==> View(l, dev.data) == Perform(v, plan, f)
  {
    r := dev.WriteNext(l, v, plan, k, f, off, hdr);
    if r != 0 {
      return;
    }
    ghost var before := dev.data;
    r := dev.WriteNext(l, v, plan, k + 1, f, EntriesOffset(hdr, dev.blk), arr);
    OutsideChain(l, dev.data, before, old(dev.data));
  }
}
