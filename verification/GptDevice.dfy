/**
 A block device with two partition tables on it, read and written by gpt-utils.cpp at
 byte offsets found in the headers. What it does to the bytes is the write plan of the
 failsafe update, and nothing outside of the four regions changes.
 */
module GptDevice {
  import opened Wrappers
  import opened ByteBuffers
  import opened GptHeader
  import opened GptEntries
  import opened EntryArray
  import opened FailsafeUpdate
  import opened FailsafeResume

  // Where the four regions of a device of a given size are.
  datatype Layout = Layout(blk: nat, size: nat, primary: nat, secondary: nat, arraySize: nat)

  function Off(l: Layout, r: Region): int {
    match r
    case PrimaryHeader => l.blk
    case PrimaryArray => l.primary
    case SecondaryHeader => l.size - l.blk
    case SecondaryArray => l.secondary
  }

  function Len(l: Layout, r: Region): nat {
    if OfHeader(r) then l.blk else l.arraySize
  }

  predicate Disjoint(l: Layout, r: Region, s: Region) {
    Off(l, r) + Len(l, r) <= Off(l, s) || Off(l, s) + Len(l, s) <= Off(l, r)
  }

  predicate Within(l: Layout, r: Region) {
    0 <= Off(l, r) && Off(l, r) + Len(l, r) <= l.size
  }

  predicate Geometry(l: Layout) {
    && l.blk >= MIN_BLOCK
    && (forall r :: Within(l, r))
    && forall r, s :: r != s ==> Disjoint(l, r, s)
  }

  function Slice(l: Layout, data: Bytes, r: Region): (b: Bytes)
    requires Geometry(l) && |data| == l.size
    ensures |b| == Len(l, r)
  {
    assert Within(l, r);
    data[Off(l, r)..Off(l, r) + Len(l, r)]
  }

  function View(l: Layout, data: Bytes): (v: Tables)
    requires Geometry(l) && |data| == l.size
    ensures forall r :: At(v, r) == Slice(l, data, r)
  {
    Tables(Slice(l, data, PrimaryHeader), Slice(l, data, PrimaryArray), Slice(l, data, SecondaryHeader),
      Slice(l, data, SecondaryArray))
  }

  // The headers tell the layout.
  predicate Fields(l: Layout, v: Tables) {
    && WellFormed(v)
    && EntriesOffset(v.ph, l.blk) == l.primary && ArraySize(v.ph) == l.arraySize
    && EntriesOffset(v.sh, l.blk) == l.secondary
  }

  // The same bytes outside of the four regions.
  ghost predicate SameOutside(l: Layout, a: Bytes, b: Bytes) {
    |a| == |b| && forall i :: 0 <= i < |a| && (forall r :: !Inside(l, r, i)) ==> a[i] == b[i]
  }

  lemma OutsideChain(l: Layout, a: Bytes, b: Bytes, c: Bytes)
    requires SameOutside(l, a, b) && SameOutside(l, b, c)
    ensures SameOutside(l, a, c)
  {}

  predicate Inside(l: Layout, r: Region, i: int) {
    Off(l, r) <= i < Off(l, r) + Len(l, r)
  }

  lemma FieldsKept(l: Layout, v: Tables, w: Tables)
    requires Fields(l, v) && Kept(w, v)
    ensures Fields(l, w)
  {
    ShapeFields(w.ph, v.ph, l.blk);
    ShapeFields(w.sh, v.sh, l.blk);
    assert w.ph[80..84] == v.ph[80..84];
  }

  lemma StretchWritten(data: Bytes, p: nat, x: Bytes, lo: nat, hi: nat)
    requires p + |x| <= |data| && lo <= hi <= |data|
    requires hi <= p || p + |x| <= lo || (lo == p && hi == p + |x|)
    ensures Splice(data, p, x)[lo..hi] == if lo == p && hi == p + |x| then x else data[lo..hi]
  {
    SpliceReads(data, p, x, lo, hi);
  }

  lemma SliceIs(l: Layout, data: Bytes, s: Region, lo: int, hi: int)
    requires Geometry(l) && |data| == l.size && lo == Off(l, s) && hi == lo + Len(l, s)
    ensures 0 <= lo <= hi <= |data| && Slice(l, data, s) == data[lo..hi]
  {
    assert Within(l, s);
  }

  lemma RegionsApart(l: Layout, r: Region, s: Region)
    requires Geometry(l)
    ensures r != s ==> Off(l, r) + Len(l, r) <= Off(l, s) || Off(l, s) + Len(l, s) <= Off(l, r)
  {
    assert r != s ==> Disjoint(l, r, s);
  }

  lemma SliceWritten(l: Layout, data: Bytes, r: Region, x: Bytes, s: Region)
    requires Geometry(l) && |data| == l.size && |x| == Len(l, r) && Within(l, r)
    ensures Slice(l, Splice(data, Off(l, r), x), s) == if s == r then x else Slice(l, data, s)
  {
    var p, lo, hi := Off(l, r), Off(l, s), Off(l, s) + Len(l, s);
    var written := Splice(data, p, x);
    RegionsApart(l, r, s);
    SliceIs(l, data, s, lo, hi);
    SliceIs(l, written, s, lo, hi);
    StretchWritten(data, p, x, lo, hi);
  }

  // Writing over one region changes just that region.
  lemma RegionWritten(l: Layout, data: Bytes, r: Region, x: Bytes)
    requires Geometry(l) && |data| == l.size && |x| == Len(l, r) && Within(l, r)
    ensures View(l, Splice(data, Off(l, r), x)) == Put(View(l, data), r, x)
    ensures SameOutside(l, Splice(data, Off(l, r), x), data)
  {
    SliceWritten(l, data, r, x, PrimaryHeader);
    SliceWritten(l, data, r, x, PrimaryArray);
    SliceWritten(l, data, r, x, SecondaryHeader);
    SliceWritten(l, data, r, x, SecondaryArray);
    forall i | 0 <= i < |data| && (forall s :: !Inside(l, s, i)) ensures Splice(data, Off(l, r), x)[i] == data[i] {
      assert !Inside(l, r, i);
    }
  }

  // The same for a write that may be cut off.
  lemma RegionCut(l: Layout, data: Bytes, r: Region, off: nat, x: Bytes, f: Fault, now: Bytes, w: Write)
    requires Geometry(l) && |data| == l.size && |x| == Len(l, r) && off == Off(l, r) && off + |x| <= |data|
    requires now == Splice(data, off, if f.at == 0 then Mix(data[off..off + |x|], x, f.tear) else x)
    requires w == FailsafeUpdate.Write(r, x)
    ensures Fits(View(l, data), [w]) && View(l, now) == Perform(View(l, data), [w], f) && SameOutside(l, now, data)
  {
    assert Within(l, r);
    RegionWritten(l, data, r, if f.at == 0 then Mix(data[off..off + |x|], x, f.tear) else x);
    CutOfOne(View(l, data), w, f);
  }

  // The fault that is left after the writes of a plan, and what they return.
  function Left(f: Fault, plan: seq<Write>): Fault {
    f.(at := if f.at < |plan| then 0 else f.at - |plan|)
  }

  function Returned(f: Fault, plan: seq<Write>, code: int): int {
    if f.at < |plan| then -1 else code
  }

  // PUT_4_BYTES
  method PutWord(h: array<byte>, off: nat, w: Word)
    requires h.Length >= MIN_BLOCK && off + 4 <= h.Length
    modifies h
    ensures h[..] == Put4(old(h[..]), off, w)
  {
    MemCpy(h, off, ToLE(w, 4));
  }

  // The checksum of a header brought up to date in place.
  method Seal(crc: Checksum, h: array<byte>)
    requires h.Length >= MIN_BLOCK && HeaderSize(h[..]) <= h.Length
    modifies h
    ensures h[..] == Sealed(crc, old(h[..]))
  {
    ghost var was := h[..];
    var size := HeaderSize(h[..]);
    PutWord(h, HEADER_CRC, 0);
    var sum := crc(h[..size]);
    assert h[..size] == h[..][..size];
    PutWord(h, HEADER_CRC, sum);
    PutSame(was, HEADER_CRC, 0, sum);
  }

  // The state of a header just read.
  method CheckHeader(crc: Checksum, h: array<byte>) returns (s: State)
    requires h.Length >= MIN_BLOCK && HeaderSize(h[..]) <= h.Length
    modifies h
    ensures s == StateOf(crc, old(h[..]))
  {
    ghost var was := h[..];
    s := if h[..9] == SIGNATURE then Ok else BadSignature;
    assert h[..9] == was[..9];
    var size, sum := HeaderSize(h[..]), Get4(h[..], HEADER_CRC);
    PutWord(h, HEADER_CRC, 0);
    assert h[..size] == h[..][..size];
    if crc(h[..size]) != sum {
      s := BadCrc;
    }
  }

  // A header just read, repaired or corrupted.
  method Restate(crc: Checksum, h: array<byte>, good: bool)
    requires h.Length >= MIN_BLOCK && HeaderSize(h[..]) <= h.Length
    modifies h
    ensures h[..] == WithState(crc, old(h[..]), good)
  {
    ghost var was := h[..];
    if good {
      MemCpy(h, 0, SIGNATURE);
      assert h[..] == Repaired(was);
    } else {
      h[0] := 0;
      assert h[..] == Corrupted(was);
    }
    ShapeFields(h[..], was, 1);
    Seal(crc, h);
  }

  // A header just read, adapted to another entry array.
  method Readdress(crc: Checksum, h: array<byte>, arr: Bytes)
    requires h.Length >= MIN_BLOCK && HeaderSize(h[..]) <= h.Length
    modifies h
    ensures h[..] == WithArray(crc, old(h[..]), arr)
  {
    ghost var was := h[..];
    PutWord(h, ARRAY_CRC, crc(arr));
    ShapeFields(h[..], was, 1);
    Seal(crc, h);
  }

  // The one write of gpt_set_state.
  function StateWrite(crc: Checksum, v: Tables, primary: bool, good: bool): Write
    requires WellFormed(v)
  {
    if primary then FailsafeUpdate.Write(PrimaryHeader, WithState(crc, v.ph, good))
    else FailsafeUpdate.Write(SecondaryHeader, WithState(crc, v.sh, good))
  }

  // A write that keeps what is to be kept leaves the layout.
  lemma WriteKeepsFields(l: Layout, v: Tables, w: Write, f: Fault)
    requires Fields(l, v) && Harmless(w, v)
    ensures Fits(v, [w]) && Fields(l, Perform(v, [w], f))
  {
    HarmlessKept(v, v, w, f.tear);
    CutOfOne(v, w, f);
    FieldsKept(l, v, Perform(v, [w], f));
  }

  lemma StateWriteHarmless(crc: Checksum, l: Layout, v: Tables, primary: bool, good: bool, f: Fault)
    requires Fields(l, v)
    ensures var w := StateWrite(crc, v, primary, good);
      Harmless(w, v) && Fits(v, [w]) && Fields(l, Perform(v, [w], f))
  {
    WithStateOk(crc, v.ph, good);
    WithStateOk(crc, v.sh, good);
    WriteKeepsFields(l, v, StateWrite(crc, v, primary, good), f);
  }

  // What gpt2_set_boot_chain returns and writes.
  function ChainWrites(crc: Checksum, v: Tables, arr: Bytes): (plan: seq<Write>)
    requires WellFormed(v) && |arr| == |v.sa|
    ensures Fits(v, plan)
  {
    var w0 := FailsafeUpdate.Write(SecondaryHeader, WithArray(crc, v.sh, arr));
    var w1 := FailsafeUpdate.Write(SecondaryArray, arr);
    FitsAll(v, w0, w1, w1);
    [w0, w1]
  }

  function ChainOutcome(crc: Checksum, v: Tables, target: Option<Bytes>): (o: Outcome)
    requires WellFormed(v) && (target.Some? ==> |target.value| == |v.pa|)
    ensures Fits(v, o.plan)
  {
    if !ArrayOk(crc, v) then Outcome(-1, [])
    else
      match target
      case None => Outcome(1, [])
      case Some(arr) => Outcome(0, ChainWrites(crc, v, arr))
  }

  function Target(v: Tables, backup: bool, names: seq<Name>, ufs: bool): (t: Option<Bytes>)
    requires WellFormed(v)
    ensures t.Some? ==> |t.value| == |v.pa|
  {
    if backup then ChainOf(v.pa, EntrySize(v.ph), Get4(v.ph, COUNT), names, ufs) else Some(v.pa)
  }

  lemma {:induction false} PerformAll(v: Tables, p: seq<Write>, f: Fault)
    requires Fits(v, p) && |p| <= f.at
    ensures Perform(v, p, f) == All(v, p)
    decreases p
  {
    if p != [] {
      PerformAll(One(v, p[0]), p[1..], f.(at := f.at - 1));
    }
  }

  lemma {:induction false} StillFits(v: Tables, p: seq<Write>, w: Write)
    requires Fits(v, p) && FitsIn(v, w)
    ensures FitsIn(All(v, p), w)
    decreases p
  {
    if p != [] {
      StillFits(One(v, p[0]), p[1..], w);
    }
  }

  // A plan cut off within its first writes.
  lemma {:induction false} CutEarly(v: Tables, plan: seq<Write>, k: nat, f: Fault)
    requires Fits(v, plan) && k <= |plan| && f.at < k
    ensures Fits(v, plan[..k]) && Perform(v, plan, f) == Perform(v, plan[..k], f)
    decreases plan
  {
    assert plan[..k][0] == plan[0] && plan[..k][1..] == plan[1..][..k - 1];
    if f.at > 0 {
      CutEarly(One(v, plan[0]), plan[1..], k - 1, f.(at := f.at - 1));
    }
  }

  // One more write, if those before it have not been cut off.
  lemma OneMore(v: Tables, p: seq<Write>, w: Write, f: Fault)
    requires Fits(v, p) && FitsIn(v, w)
    ensures Fits(v, p + [w])
    ensures f.at < |p| ==> Perform(v, p + [w], f) == Perform(v, p, f)
    ensures f.at >= |p| ==>
      Fits(Perform(v, p, f), [w]) && Perform(v, p + [w], f) == Perform(Perform(v, p, f), [w], Left(f, p))
  {
    StillFits(v, p, w);
    if f.at >= |p| {
      PerformAll(v, p, f);
    }
    PerformSplit(v, p, [w], f);
  }

  // The entries just read become those of the boot chain to switch to.
  method ChooseChain(ghost v: Tables, pentries: array<byte>, esz: nat,
                     backup: bool, names: seq<Name>, ufs: bool, ghost target: Option<Bytes>) returns (found: bool)
    requires WellFormed(v) && Listable(names) && target == Target(v, backup, names, ufs) && pentries[..] == v.pa &&
      esz == EntrySize(v.ph)
    modifies pentries
    ensures found == target.Some?
    ensures found ==> pentries[..] == target.value
  {
    found := true;
    if backup {
      var backupNotFound := SwapListed(names, pentries, esz, Get4(v.ph, COUNT), ufs);
      found := !backupNotFound;
    }
  }

  lemma MainIsChainAndState(crc: Checksum, v: Tables, arr: Bytes, p: seq<Write>, w: Write)
    requires WellFormed(v) && |arr| == |v.pa| && p == ChainWrites(crc, v, arr) && w == StateWrite(crc, v, true, false)
    ensures p + [w] == MainWrites(crc, v, arr) && FitsIn(v, w) && |p| == 2
  {}

  lemma ChainEnds(v: Tables, g: Header, arr: Bytes, p: seq<Write>, f: Fault)
    requires |g| == |v.sh| && |arr| == |v.sa| &&
      p == [FailsafeUpdate.Write(SecondaryHeader, g), FailsafeUpdate.Write(SecondaryArray, arr)]
    requires f.at >= 2
    ensures Fits(v, p) && Perform(v, p, f) == v.(sh := g, sa := arr)
  {
    CutOfTwo(v, p[0], p[1], f);
  }

  // What follows from what gpt2_set_boot_chain returns in the first stage, ...
  lemma MainSteps(crc: Checksum, v: Tables, chain: Option<Bytes>, c: Outcome, sw: Write, o: Outcome, f: Fault, rc: int)
    requires WellFormed(v) && (chain.Some? ==> |chain.value| == |v.pa|) && rc == Returned(f, c.plan, c.code)
    requires c == ChainOutcome(crc, v, chain) && sw == StateWrite(crc, v, true, false) && o == Due(crc, v, Main, chain)
    ensures rc != 0 ==> Perform(v, o.plan, f) == Perform(v, c.plan, f)
    ensures rc != 0 ==> Returned(f, o.plan, o.code) == if rc > 0 then 0 else rc
    ensures rc == 0 ==> o == Outcome(0, c.plan + [sw]) && |c.plan| == 2 <= f.at && FitsIn(v, sw)
    ensures rc == 0 ==> Perform(v, c.plan, f).ph == v.ph
  {
    if c.code == 0 {
      var arr := chain.value;
      MainIsChainAndState(crc, v, arr, c.plan, sw);
      OneMore(v, c.plan, sw, f);
      if f.at >= 2 {
        ChainEnds(v, WithArray(crc, v.sh, arr), arr, c.plan, f);
      }
    }
  }

  // ... and in the last.
  lemma FinalizeSteps(crc: Checksum, v: Tables, c: Outcome, h: Header, sw: Write, o: Outcome, f: Fault, rc: int)
    requires WellFormed(v) && rc == Returned(f, c.plan, c.code) && c == ChainOutcome(crc, v, Some(v.pa))
    requires h == WithArray(crc, v.sh, v.pa) && HeaderSize(h) <= |h|
    requires sw == FailsafeUpdate.Write(SecondaryHeader, WithState(crc, h, true)) && o == Due(crc, v, Finalize, None)
    ensures rc == 0 || rc == -1
    ensures rc != 0 ==> Perform(v, o.plan, f) == Perform(v, c.plan, f) && Returned(f, o.plan, o.code) == rc
    ensures rc == 0 ==> o == Outcome(0, c.plan + [sw]) && |c.plan| == 2 <= f.at && FitsIn(v, sw)
    ensures rc == 0 ==> Perform(v, c.plan, f).sh == h
  {
    if c.code == 0 {
      FinalizeIsChainAndState(crc, v, c.plan, sw);
      OneMore(v, c.plan, sw, f);
      if f.at >= 2 {
        ChainEnds(v, h, v.pa, c.plan, f);
      }
    }
  }

  lemma FinalizeIsChainAndState(crc: Checksum, v: Tables, p: seq<Write>, w: Write)
    requires WellFormed(v) && p == ChainWrites(crc, v, v.pa)
    requires w.region.SecondaryHeader?
    requires var h := WithArray(crc, v.sh, v.pa); HeaderSize(h) <= |h| && w.data == WithState(crc, h, true)
    ensures p + [w] == FinalizeWrites(crc, v) && FitsIn(v, w) && |p| == 2
  {}

  lemma BackupIsTwoStates(crc: Checksum, v: Tables, p: seq<Write>, w: Write)
    requires WellFormed(v) && p == [StateWrite(crc, v, true, true)] && w == StateWrite(crc, v, false, false)
    ensures p + [w] == BackupWrites(crc, v) && FitsIn(v, w) && |p| == 1
  {}

  // The stage that is due needs another boot LUN, and cannot get it.
  predicate LunFails(crc: Checksum, v: Tables, stage: Stage, lun: int)
    requires WellFormed(v)
  {
    StageOf(crc, v) == Some(stage) && stage != Finalize && lun != 0
  }

  // That is: MAIN on two good headers, BACKUP on a broken primary one.
  lemma LunFailsIs(crc: Checksum, v: Tables, stage: Stage, lun: int)
    requires WellFormed(v)
    ensures LunFails(crc, v, stage, lun) <==>
      && lun != 0 && StateOf(crc, v.sh) == Ok
      && ((stage == Main && StateOf(crc, v.ph) == Ok) || (stage == Backup && StateOf(crc, v.ph) == BadSignature))
  {}

  class BlockDevice {
    const crc: Checksum
    const blk: nat
    var data: Bytes
    var fault: Fault

    constructor (crc: Checksum, blk: nat, data: Bytes, fault: Fault)
      ensures this.crc == crc && this.blk == blk && this.data == data && this.fault == fault
    {
      this.crc, this.blk, this.data, this.fault := crc, blk, data, fault;
    }

    // The device has the layout and these tables, in whatever state they are.
    ghost predicate Shows(l: Layout, v: Tables)
      reads this
    {
      blk == l.blk && Geometry(l) && |data| == l.size && View(l, data) == v
    }

    // blk_rw for reading into a new buffer
    method Read(off: nat, len: nat) returns (b: array<byte>)
      requires off + len <= |data|
      ensures fresh(b) && b[..] == data[off..off + len]
    {
      var x := data[off..off + len];
      b := new byte[len](i requires 0 <= i < len => x[i]);
    }

    // blk_rw for writing, which may be cut off
    method Write(off: nat, x: Bytes) returns (r: int)
      requires off + |x| <= |data|
      modifies this
      ensures r == if old(fault).at == 0 then -1 else 0
      ensures fault == if r == 0 then old(fault).(at := old(fault).at - 1) else old(fault)
      ensures data == Splice(old(data), off, if r == 0 then x else Mix(old(data)[off..off + |x|], x, old(fault).tear))
    {
      if fault.at == 0 {
        data := Splice(data, off, Mix(data[off..off + |x|], x, fault.tear));
        return -1;
      }
      data := Splice(data, off, x);
      fault := fault.(at := fault.at - 1);
      r := 0;
    }

    // A write over a region, which is told from its offset.
    method WriteRegion(ghost l: Layout, ghost region: Region, off: nat, x: Bytes) returns (r: int)
      requires Geometry(l) && |data| == l.size && off == Off(l, region) && |x| == Len(l, region)
      modifies this
      ensures |data| == l.size && SameOutside(l, data, old(data))
      ensures Fits(View(l, old(data)), [FailsafeUpdate.Write(region, x)])
      ensures View(l, data) == Perform(View(l, old(data)), [FailsafeUpdate.Write(region, x)], old(fault))
      ensures r == Returned(old(fault), [FailsafeUpdate.Write(region, x)], 0)
      ensures fault == Left(old(fault), [FailsafeUpdate.Write(region, x)])
    {
      assert Within(l, region);
      ghost var was := data;
      r := Write(off, x);
      RegionCut(l, was, region, off, x, old(fault), data, FailsafeUpdate.Write(region, x));
    }

    // The next write of a plan.
    method WriteNext(ghost l: Layout, ghost v: Tables, ghost plan: seq<Write>, ghost k: nat, ghost f: Fault, off: nat,
                     x: Bytes) returns (r: int)
      requires Geometry(l) && |data| == l.size && Fits(v, plan) && k < |plan| && k <= f.at
      requires View(l, data) == Perform(v, plan[..k], f) && fault == Left(f, plan[..k])
      requires x == plan[k].data && off == Off(l, plan[k].region) && |x| == Len(l, plan[k].region)
      modifies this
      ensures |data| == l.size && SameOutside(l, data, old(data))
      ensures r == if f.at == k then -1 else 0
      ensures r == 0 ==> View(l, data) == Perform(v, plan[..k + 1], f) && fault == Left(f, plan[..k + 1])
      ensures r != 0 ==> View(l, data) == Perform(v, plan, f)
    {
      assert FitsIn(v, plan[k]);
      OneMore(v, plan[..k], plan[k], f);
      assert plan[..k + 1] == plan[..k] + [plan[k]];
      if f.at == k {
        CutEarly(v, plan, k + 1, f);
      }
      r := WriteRegion(l, plan[k].region, off, x);
    }

    function HeaderOff(primary: bool): (off: int)
      reads this
    {
      if primary then blk else |data| - blk
    }

    method ReadHeader(ghost l: Layout, primary: bool, ghost v: Tables) returns (h: array<byte>)
      requires Shows(l, v)
      ensures fresh(h) && h[..] == (if primary then v.ph else v.sh)
    {
      assert Within(l, PrimaryHeader) && Within(l, SecondaryHeader);
      h := Read(HeaderOff(primary), blk);
    }

    // gpt_get_state
    method GetState(ghost l: Layout, primary: bool, ghost v: Tables) returns (s: State)
      requires Shows(l, v) && Fields(l, v)
      ensures s == StateOf(crc, if primary then v.ph else v.sh)
    {
      var h := ReadHeader(l, primary, v);
      s := CheckHeader(crc, h);
    }

    // gpt_set_state with GPT_OK or GPT_BAD_SIGNATURE
    method SetState(ghost l: Layout, primary: bool, good: bool, ghost v: Tables, ghost plan: seq<Write>)
      returns (r: int, ghost w: Tables)
      requires Shows(l, v) && Fields(l, v) && plan == [StateWrite(crc, v, primary, good)]
      modifies this
      ensures SameOutside(l, data, old(data)) && Shows(l, w) && Fields(l, w)
      ensures Fits(v, plan) && w == Perform(v, plan, old(fault))
      ensures r == Returned(old(fault), plan, 0) && fault == Left(old(fault), plan)
    {
      ghost var region := plan[0].region;
      StateWriteHarmless(crc, l, v, primary, good, fault);
      var h := ReadHeader(l, primary, v);
      Restate(crc, h, good);
      assert Within(l, region);
      r := WriteRegion(l, region, HeaderOff(primary), h[..]);
      w := View(l, data);
    }

    // gpt2_set_boot_chain
    method SetBootChain(ghost l: Layout, backup: bool, names: seq<Name>, ufs: bool,
                        ghost v: Tables, ghost target: Option<Bytes>, ghost o: Outcome)
    returns (r: int, ghost w: Tables)
      requires Shows(l, v) && Fields(l, v) && Listable(names)
      requires target == Target(v, backup, names, ufs) && o == ChainOutcome(crc, v, target)
      modifies this
      ensures SameOutside(l, data, old(data)) && Shows(l, w) && Fields(l, w) && w == Perform(v, o.plan, old(fault))
      ensures r == Returned(old(fault), o.plan, o.code) && fault == Left(old(fault), o.plan)
    {
      w := v;
      var ok, esz, pentries := ReadPrimary(l, v);
      if !ok {
        return -1, w;
      }
      var found := ChooseChain(v, pentries, esz, backup, names, ufs, target);
      if !found {
        return 1, w;
      }
      r, w := WriteSecondary(l, v, pentries[..], o.plan);
    }

    method WriteSecondary(ghost l: Layout, ghost v: Tables, arr: Bytes, ghost plan: seq<Write>)
      returns (r: int, ghost w: Tables)
      requires Shows(l, v) && Fields(l, v) && |arr| == |v.pa| && plan == ChainWrites(crc, v, arr)
      modifies this
      ensures SameOutside(l, data, old(data)) && Shows(l, w) && Fields(l, w) && w == Perform(v, plan, old(fault))
      ensures r == Returned(old(fault), plan, 0) && fault == Left(old(fault), plan)
    {
      var g := ReadHeader(l, false, v);
      var off := EntriesOffset(g[..], blk);
      Readdress(crc, g, arr);
      WithArrayOk(crc, v.sh, arr);
      r, w := WriteChain(l, v, g[..], off, arr, plan);
    }

    // The primary entry array, with its checksum checked.
    method ReadPrimary(ghost l: Layout, ghost v: Tables) returns (ok: bool, esz: Word, pentries: array<byte>)
      requires Shows(l, v) && Fields(l, v)
      ensures fresh(pentries) && pentries[..] == v.pa && esz == EntrySize(v.ph) && ok == ArrayOk(crc, v)
    {
      var h := ReadHeader(l, true, v);
      esz := EntrySize(h[..]);
      assert Within(l, PrimaryArray);
      pentries := Read(EntriesOffset(h[..], blk), ArraySize(h[..]));
      ok := Get4(h[..], ARRAY_CRC) == crc(pentries[..]);
    }

    // The two writes at the end of gpt2_set_boot_chain.
    method WriteChain(ghost l: Layout, ghost v: Tables, g: Header, off: nat, arr: Bytes, ghost plan: seq<Write>)
      returns (r: int, ghost w: Tables)
      requires Shows(l, v) && Fields(l, v) && |arr| == |v.pa| && SameShape(g, v.sh) && off == l.secondary
      requires plan == [FailsafeUpdate.Write(SecondaryHeader, g), FailsafeUpdate.Write(SecondaryArray, arr)]
      modifies this
      ensures SameOutside(l, data, old(data)) && Shows(l, w) && Fields(l, w)
      ensures Fits(v, plan) && w == Perform(v, plan, old(fault))
      ensures r == Returned(old(fault), plan, 0) && fault == Left(old(fault), plan)
    {
      ghost var w0, w1 := FailsafeUpdate.Write(SecondaryHeader, g), FailsafeUpdate.Write(SecondaryArray, arr);
      WriteKeepsFields(l, v, w0, fault);
      OneMore(v, [w0], w1, fault);
      assert [w0] + [w1] == plan;
      assert Within(l, SecondaryHeader);
      r := WriteRegion(l, SecondaryHeader, |data| - blk, g);
      w := View(l, data);
      if r == 0 {
        WriteKeepsFields(l, w, w1, fault);
        ghost var before := data;
        r := WriteRegion(l, SecondaryArray, off, arr);
        w := View(l, data);
        OutsideChain(l, data, before, old(data));
      }
    }

    // A write of the state after others that have gone well and left v1.
    method ThenSetState(ghost l: Layout, ghost v: Tables, ghost p: seq<Write>, ghost f: Fault, primary: bool,
                        good: bool,
                        ghost v1: Tables, ghost sw: Write) returns (r: int, ghost w: Tables)
      requires Shows(l, v1) && Fields(l, v1) && Fits(v, p) && |p| <= f.at && v1 == Perform(v, p, f) &&
        fault == Left(f, p)
      requires FitsIn(v, sw) && sw == StateWrite(crc, v1, primary, good)
      modifies this
      ensures SameOutside(l, data, old(data)) && Shows(l, w) && Fields(l, w)
      ensures Fits(v, p + [sw]) && w == Perform(v, p + [sw], f)
      ensures r == Returned(f, p + [sw], 0) && fault == Left(f, p + [sw])
    {
      OneMore(v, p, sw, f);
      r, w := SetState(l, primary, good, v1, [sw]);
    }

    method UpdateMain(ghost l: Layout, names: seq<Name>, ufs: bool, ghost v: Tables, ghost o: Outcome,
                      ghost chain: Option<Bytes>)
      returns (r: int, ghost w: Tables)
      requires Shows(l, v) && Fields(l, v) && Listable(names)
      requires chain == Target(v, true, names, ufs) && o == Due(crc, v, Main, chain)
      modifies this
      ensures SameOutside(l, data, old(data)) && Shows(l, w) && Fields(l, w)
      ensures w == Perform(v, o.plan, old(fault)) && r == Returned(old(fault), o.plan, o.code)
    {
      ghost var c := ChainOutcome(crc, v, chain);
      ghost var sw := StateWrite(crc, v, true, false);
      ghost var f := fault;
      MainSteps(crc, v, chain, c, sw, o, f, Returned(f, c.plan, c.code));
      r, w := SetBootChain(l, true, names, ufs, v, chain, c);
      if r != 0 {
        if r > 0 {
          r := 0;
        }
        return;
      }
      ghost var before := data;
      r, w := ThenSetState(l, v, c.plan, f, true, false, w, sw);
      OutsideChain(l, data, before, old(data));
    }

    method UpdateBackup(ghost l: Layout, ghost v: Tables, ghost o: Outcome) returns (r: int, ghost w: Tables)
      requires Shows(l, v) && Fields(l, v) && o == Due(crc, v, Backup, None)
      modifies this
      ensures SameOutside(l, data, old(data)) && Shows(l, w) && Fields(l, w)
      ensures w == Perform(v, o.plan, old(fault)) && r == Returned(old(fault), o.plan, o.code)
    {
      ghost var p, sw := [StateWrite(crc, v, true, true)], StateWrite(crc, v, false, false);
      ghost var f := fault;
      BackupIsTwoStates(crc, v, p, sw);
      OneMore(v, p, sw, f);
      CutOfOne(v, p[0], f);
      r, w := SetState(l, true, true, v, p);
      if r != 0 {
        return;
      }
      ghost var before := data;
      r, w := ThenSetState(l, v, p, f, false, false, w, sw);
      OutsideChain(l, data, before, old(data));
    }

    method UpdateFinalize(ghost l: Layout, ghost v: Tables, ghost o: Outcome) returns (r: int, ghost w: Tables)
      requires Shows(l, v) && Fields(l, v) && o == Due(crc, v, Finalize, None)
      modifies this
      ensures SameOutside(l, data, old(data)) && Shows(l, w) && Fields(l, w)
      ensures w == Perform(v, o.plan, old(fault)) && r == Returned(old(fault), o.plan, o.code)
    {
      ghost var c := ChainOutcome(crc, v, Some(v.pa));
      ghost var h := WithArray(crc, v.sh, v.pa);
      WithArrayOk(crc, v.sh, v.pa);
      ghost var sw := FailsafeUpdate.Write(SecondaryHeader, WithState(crc, h, true));
      ghost var f := fault;
      FinalizeSteps(crc, v, c, h, sw, o, f, Returned(f, c.plan, c.code));
      r, w := SetBootChain(l, false, [], false, v, Some(v.pa), c);
      if r < 0 {
        return;
      }
      ghost var before := data;
      r, w := ThenSetState(l, v, c.plan, f, false, true, w, sw);
      OutsideChain(l, data, before, old(data));
    }

    // The stage that is due, read from the headers.
    method DueStage(ghost l: Layout, ghost v: Tables) returns (internal: Option<Stage>)
      requires Shows(l, v) && Fields(l, v)
      ensures internal == StageOf(crc, v)
    {
      var prim := GetState(l, true, v);
      var second := GetState(l, false, v);
      if prim == BadCrc || second == BadCrc {
        return None;
      }
      if prim == BadSignature && second == BadSignature {
        return None;
      }
      internal := Some(if prim == Ok && second == Ok then Main else if prim == BadSignature then Backup else Finalize);
    }

    method Update(ghost l: Layout, stage: Stage, names: seq<Name>, ufs: bool,
                  ghost v: Tables, ghost o: Outcome, ghost chain: Option<Bytes>) returns (r: int, ghost w: Tables)
      requires Shows(l, v) && Fields(l, v) && Listable(names)
      requires chain == Target(v, true, names, ufs) && o == Due(crc, v, stage, chain)
      modifies this
      ensures SameOutside(l, data, old(data)) && Shows(l, w) && Fields(l, w)
      ensures w == Perform(v, o.plan, old(fault)) && r == Returned(old(fault), o.plan, o.code)
    {
      match stage
      case Main => r, w := UpdateMain(l, names, ufs, v, o, chain);
      case Backup => r, w := UpdateBackup(l, v, o);
      case Finalize => r, w := UpdateFinalize(l, v, o);
    }

    // The switch of the boot LUN of a UFS device comes first; what it returns is an input.
    method CheckAndUpdate(ghost l: Layout, stage: Stage, names: seq<Name>, ufs: bool, lun: int,
                          ghost v: Tables, ghost o: Outcome, ghost chain: Option<Bytes>)
    returns (r: int, ghost w: Tables)
      requires Shows(l, v) && Fields(l, v) && Listable(names) && chain == Target(v, true, names, ufs)
      requires o == if LunFails(crc, v, stage, lun) then Outcome(lun, []) else Prepare(crc, v, stage, chain)
      modifies this
      ensures SameOutside(l, data, old(data)) && Shows(l, w) && Fields(l, w)
      ensures w == Perform(v, o.plan, old(fault)) && r == Returned(old(fault), o.plan, o.code)
    {
      w := v;
      var internal := DueStage(l, v);
      if internal == None {
        return -1, w;
      }
      if Number(stage) == Number(internal.value) - 1 {
        return 0, w;
      }
      if stage != internal.value {
        return -1, w;
      }
      if stage != Finalize && lun != 0 {
        return lun, w;
      }
      r, w := Update(l, stage, names, ufs, v, o, chain);
    }

    // prepare_partitions: one step of the protocol, from tables v to tables w on the
    // bytes of the device, unless the boot LUN cannot be switched.
    method PreparePartitions(ghost l: Layout, stage: Stage, ufs: bool, lun: int, ghost v: Tables)
      returns (r: int, ghost w: Tables)
      requires Shows(l, v) && Fields(l, v)
      modifies this
      ensures SameOutside(l, data, old(data)) && Shows(l, w) && Fields(l, w)
      ensures LunFails(crc, v, stage, lun) ==> w == v && r == lun
      ensures !LunFails(crc, v, stage, lun) ==> w == Step(crc, v, stage, ufs, old(fault))
      ensures !LunFails(crc, v, stage, lun) ==>
        r == Returned(old(fault), Prepare(crc, v, stage, BackupChain(v, ufs)).plan, Code(crc, v, stage, ufs))
    {
      ghost var chain := BackupChain(v, ufs);
      ghost var o := if LunFails(crc, v, stage, lun) then Outcome(lun, []) else Prepare(crc, v, stage, chain);
      SwapListIsListable();
      r, w := CheckAndUpdate(l, stage, PTN_SWAP_LIST, ufs, lun, v, o, chain);
    }
  }
}
