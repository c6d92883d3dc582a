/**
 A device that everything said about partition tables applies to: two equal tables of a
 partition and its backup, under a checksum that is always zero.
 */
module GptExample {
  import opened Wrappers
  import opened ByteBuffers
  import opened GptHeader
  import opened GptEntries
  import opened EntryArray
  import opened FailsafeUpdate
  import opened FailsafeResume
  import opened GptDevice
  import opened GptCommit

  const SUM: Checksum := (b: Bytes) => 0

  // A header of some size in a block of some length, for two entries of 128 bytes at a
  // block number.
  function Block(len: nat, size: byte, lba: byte, sum: byte): (h: Header)
    requires len >= MIN_BLOCK
    ensures |h| == len
  {
    seq(len, i requires 0 <= i < len =>
      if i < 8 then "EFI PART"[i] as int
      else if i == 12 then size
      else if i == 16 then sum
      else if i == 72 then lba
      else if i == 80 then 2
      else if i == 84 then 128
      else 0)
  }

  lemma {:induction false} SmallNumber(b: Bytes)
    requires |b| > 0 && forall i :: 0 < i < |b| ==> b[i] == 0
    ensures FromLE(b) == b[0]
    decreases |b|
  {
    if |b| > 1 {
      SmallNumber(b[1..]);
    }
  }

  lemma BlockFields(len: nat, size: byte, lba: byte, sum: byte)
    requires len >= MIN_BLOCK
    ensures var h := Block(len, size, lba, sum);
      && HeaderSize(h) == size && Get4(h, COUNT) == 2 && EntrySize(h) == 128 && ArraySize(h) == 256
      && Get4(h, HEADER_CRC) == sum && Get4(h, ARRAY_CRC) == 0
      && FromLE(h[ENTRIES..ENTRIES + 8]) == lba && Signed(h)
  {
    var h := Block(len, size, lba, sum);
    SmallNumber(h[HEADER_SIZE..HEADER_SIZE + 4]);
    SmallNumber(h[COUNT..COUNT + 4]);
    SmallNumber(h[ENTRY_SIZE..ENTRY_SIZE + 4]);
    SmallNumber(h[HEADER_CRC..HEADER_CRC + 4]);
    SmallNumber(h[ARRAY_CRC..ARRAY_CRC + 4]);
    SmallNumber(h[ENTRIES..ENTRIES + 8]);
  }

  function Header92(lba: byte): (h: Header)
    ensures |h| == 92
  {
    Block(92, 92, lba, 0)
  }

  function Tz(): (e: Entry)
    ensures |e| == 128 && EntryName(e) == "tz"
  {
    NewEntry("tz", 1, 0)
  }

  function TzBak(): (e: Entry)
    ensures |e| == 128 && EntryName(e) == "tzbak"
  {
    NewEntry("tzbak", 2, 0)
  }

  function Pair(): (b: Bytes)
    ensures |b| == 256
  {
    Tz() + TzBak()
  }

  function Example(): Tables {
    Tables(Header92(2), Pair(), Header92(5), Pair())
  }

  lemma PairSize()
    ensures Size(2, 128) == 256
  {
    assert Size(0, 128) == 0 && Size(1, 128) == 128;
  }

  lemma PairEntries()
    ensures |Pair()| == Size(2, 128)
    ensures Entries(Pair(), 128, 2) == [Tz(), TzBak()]
  {
    PairSize();
    assert Size(0, 128) == 0 && Size(1, 128) == 128;
    assert EntryAt(Pair(), 128, 2, 0) == Tz();
    assert EntryAt(Pair(), 128, 2, 1) == TzBak();
  }

  lemma {:induction false} UnskippedAll(names: seq<Name>)
    ensures Unskipped(names, false) == names
    decreases names
  {
    if names != [] {
      UnskippedAll(names[1..]);
    }
  }

  lemma TwoTwins(es: seq<Entry>, name: Name)
    requires |es| == 2 && Matches(name, es[0]) && Matches(name, es[1])
    ensures HasTwins(es, Twins(es, name))
  {
    assert Seek(es, name, 0) == 0 && Seek(es, name, 1) == 1;
  }

  lemma FoundByName(es: seq<Entry>, names: seq<Name>, n: nat)
    requires AllApart(names) && n < |names| && HasTwins(es, Twins(es, names[n]))
    ensures FindsTwins(es, names)
  {
    FindsTwinsAtOnce(es, names);
  }

  lemma TzIsListed()
    ensures |PTN_SWAP_LIST| > 4 && PTN_SWAP_LIST[4] == "tz"
  {}

  lemma PairMatches(es: seq<Entry>)
    requires es == [Tz(), TzBak()]
    ensures HasTwins(es, Twins(es, "tz"))
  {
    assert "tz" + BAK == "tzbak";
    TwoTwins(es, "tz");
  }

  // The partition has its backup twin.
  lemma PairHasBackup(es: seq<Entry>, names: seq<Name>)
    requires |Pair()| == Size(2, 128) && es == Entries(Pair(), 128, 2) && names == PTN_SWAP_LIST
    ensures FindsTwins(es, Unskipped(names, false))
  {
    PairEntries();
    PairMatches(es);
    UnskippedAll(names);
    SwapListApart();
    TzIsListed();
    FoundByName(es, names, 4);
  }

  lemma PairChain()
    ensures |Pair()| == Size(2, 128) && ChainOf(Pair(), 128, 2, PTN_SWAP_LIST, false).Some?
  {
    PairEntries();
    PairHasBackup(Entries(Pair(), 128, 2), PTN_SWAP_LIST);
  }

  // An array of a partition and its twin is swapped to the pair the other way round.
  lemma TwoSwapped(buf: Bytes, esz: nat, names: seq<Name>, a: Entry, b: Entry, name: Name, r: Bytes)
    requires esz == 128 && |a| == 128 && |b| == 128 && |buf| == Size(2, esz) && Entries(buf, esz, 2) == [a, b]
    requires names == PTN_SWAP_LIST && Swappable(name, false) && FirstTwo([a, b], name, 0, 1)
    requires r == Swapped(buf, esz, 2, names, false)
    ensures r == b + a
  {
    SwappedExact(buf, esz, 2, names, false);
    var rs := Entries(r, esz, 2);
    assert TakesHead([a, b], rs, 0, 1) && TakesHead([a, b], rs, 1, 0);
    HeadIsAll(rs[0], b);
    HeadIsAll(rs[1], a);
    TwoEntries(r, esz, rs);
  }

  lemma HeadIsAll(e: Entry, f: Entry)
    requires |e| == 128 && |f| == 128 && e[..PTN_ENTRY_SIZE] == f[..PTN_ENTRY_SIZE]
    ensures e == f
  {
    assert e == e[..128] && f == f[..128];
  }

  lemma TwoEntries(r: Bytes, esz: nat, rs: seq<Entry>)
    requires esz == 128 && |r| == Size(2, esz) && rs == Entries(r, esz, 2)
    ensures r == rs[0] + rs[1]
  {
    PairSize();
    assert Size(0, 128) == 0 && Size(1, 128) == 128;
    assert r == r[0..128] + r[128..256];
  }

  lemma PairIsFirstTwo(es: seq<Entry>)
    requires es == [Tz(), TzBak()]
    ensures Swappable("tz", false) && FirstTwo(es, "tz", 0, 1)
  {
    TzIsListed();
    assert PTN_SWAP_LIST[4] in PTN_SWAP_LIST && "tz" + BAK == "tzbak";
  }

  lemma PairChainIs(names: seq<Name>)
    requires names == PTN_SWAP_LIST
    ensures |Pair()| == Size(2, 128)
    ensures ChainOf(Pair(), 128, 2, names, false) == Some(TzBak() + Tz())
  {
    var a, b := Tz(), TzBak();
    PairChain();
    PairEntries();
    PairIsFirstTwo([a, b]);
    TwoSwapped(Pair(), 128, names, a, b, "tz", Swapped(Pair(), 128, 2, names, false));
  }

  // The array that boots the backup of the example.
  lemma ExampleChainIs()
    ensures WellFormed(Example())
    ensures BackupChain(Example(), false) == Some(TzBak() + Tz())
  {
    ExampleFits();
    BlockFields(92, 92, 2, 0);
    PairChainIs(PTN_SWAP_LIST);
    assert BackupChain(Example(), false) == ChainOf(Pair(), 128, 2, PTN_SWAP_LIST, false);
  }

  lemma HeaderWhole(lba: byte)
    ensures HeaderSize(Header92(lba)) <= 92 && Whole(SUM, Header92(lba), Pair())
  {
    BlockFields(92, 92, lba, 0);
  }

  lemma ExampleFits()
    ensures WellFormed(Example()) && Committable(Example())
  {
    BlockFields(92, 92, 2, 0);
    BlockFields(92, 92, 5, 0);
    PairSize();
  }

  // Everything that the update and the commit are stated for.
  lemma ExampleIsGood()
    ensures var v := Example();
      && GoodStart(SUM, v) && SecondaryWhole(SUM, v) && v.sa == v.pa
      && BackupChain(v, false).Some?
      && Committable(v)
  {
    ExampleFits();
    HeaderWhole(2);
    HeaderWhole(5);
    ExampleChain();
  }

  lemma ExampleChain()
    ensures WellFormed(Example()) && BackupChain(Example(), false).Some?
  {
    ExampleFits();
    BlockFields(92, 92, 2, 0);
    PairChain();
    assert BackupChain(Example(), false) == ChainOf(Pair(), 128, 2, PTN_SWAP_LIST, false);
  }

  lemma GoodSwitches(crc: Checksum, v: Tables, ufs: bool, f: Fault, w: Tables)
    requires GoodStart(crc, v) && SecondaryWhole(crc, v) && BackupChain(v, ufs).Some? && Late(f)
    requires w == Step(crc, v, Main, ufs, f)
    ensures StageOf(crc, v) == Some(Main) && WellFormed(w) && StageOf(crc, w) == Some(Backup)
  {
    ResumableStage(crc, v, v);
    AfterMain(crc, v, v, ufs, f);
  }

  // So the update does switch there.
  lemma ExampleSwitches(f: Fault)
    requires Late(f)
    ensures WellFormed(Example()) && WellFormed(Step(SUM, Example(), Main, false, f))
    ensures StageOf(SUM, Example()) == Some(Main)
    ensures StageOf(SUM, Step(SUM, Example(), Main, false, f)) == Some(Backup)
  {
    ExampleIsGood();
    GoodSwitches(SUM, Example(), false, f, Step(SUM, Example(), Main, false, f));
  }

  const LAYOUT := Layout(92, 828, 184, 460, 256)

  // A device with these tables on it.
  function ExampleBytes(): (d: Bytes)
    ensures |d| == 828
  {
    var gap: Bytes := seq(20, i => 0);
    var start: Bytes := seq(92, i => 0);
    start + Header92(2) + Pair() + gap + Pair() + gap + Header92(5)
  }

  lemma ExampleGeometry()
    ensures Geometry(LAYOUT)
  {
    forall r: Region ensures Within(LAYOUT, r) {}
    forall r: Region, s: Region | r != s ensures Disjoint(LAYOUT, r, s) {}
  }

  lemma ExampleView()
    ensures Geometry(LAYOUT) && View(LAYOUT, ExampleBytes()) == Example()
  {
    ExampleGeometry();
    var d := ExampleBytes();
    assert d[92..184] == Header92(2) && d[184..440] == Pair();
    assert d[460..716] == Pair() && d[736..828] == Header92(5);
  }

  lemma BlockOffset(h: Header, lba: byte)
    requires FromLE(h[ENTRIES..ENTRIES + 8]) == lba
    ensures EntriesOffset(h, 92) == lba * 92
  {}

  lemma ExampleFields()
    ensures Fields(LAYOUT, Example()) && ArraySize(Example().sh) == LAYOUT.arraySize
  {
    ExampleFits();
    BlockFields(92, 92, 2, 0);
    BlockFields(92, 92, 5, 0);
    BlockOffset(Header92(2), 2);
    BlockOffset(Header92(5), 5);
  }

  // The device has the layout that its headers tell.
  lemma ExampleIsLaid()
    ensures Geometry(LAYOUT) && View(LAYOUT, ExampleBytes()) == Example() && Fields(LAYOUT, Example())
  {
    ExampleView();
    ExampleFields();
  }

  /* Two good headers of different sizes. */

  const LENGTH: Checksum := (b: Bytes) => |b| % 256

  function Uneven(): Tables {
    Tables(Block(96, 92, 2, 92), Pair(), Block(96, 96, 5, 96), Pair())
  }

  lemma BlockGood(size: byte, lba: byte, h: Header)
    requires size <= 96 && h == Block(96, size, lba, size)
    ensures HeaderSize(h) == size && Whole(LENGTH, h, Pair())
  {
    BlockFields(96, size, lba, size);
  }

  lemma UnevenIsGood(t: Tables)
    requires t == Uneven()
    ensures WellFormed(t) && Committable(t) && HeaderSize(t.ph) == 92 && HeaderSize(t.sh) == 96
    ensures PrimaryWhole(LENGTH, t) && SecondaryWhole(LENGTH, t)
  {
    BlockFields(96, 92, 2, 92);
    BlockFields(96, 96, 5, 96);
    BlockGood(92, 2, t.ph);
    BlockGood(96, 5, t.sh);
    PairSize();
  }

  lemma UnequalSizesBreak(t: Tables, u: Tables)
    requires WellFormed(t) && Committable(t) && HeaderSize(t.ph) == 92 && HeaderSize(t.sh) == 96 &&
      u == Updated(LENGTH, t)
    ensures WellFormed(u) && PrimaryWhole(LENGTH, u) && !SecondaryWhole(LENGTH, u)
  {
    UpdatedPrimary(LENGTH, t, u);
    UpdatedBackup(LENGTH, t, u);
    var z := Cleared(LENGTH, t.sh, t.sa);
    LengthIs(z[..92], 92);
    LengthIs(z[..96], 96);
  }

  lemma LengthIs(b: Bytes, n: nat)
    requires |b| == n < 256
    ensures LENGTH(b) == n
  {}

  // Both tables are good, and an update of their checksums breaks the backup header.
  lemma UnevenIsBroken(t: Tables, u: Tables)
    requires t == Uneven() && WellFormed(t) && |t.ph| == |t.sh| && u == Updated(LENGTH, t)
    ensures PrimaryWhole(LENGTH, t) && SecondaryWhole(LENGTH, t)
    ensures WellFormed(u) && PrimaryWhole(LENGTH, u) && !SecondaryWhole(LENGTH, u)
  {
    UnevenIsGood(t);
    UnequalSizesBreak(t, u);
  }
}
