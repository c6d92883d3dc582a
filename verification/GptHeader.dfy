/**
 The GPT header block of gpt-utils: its fields, its state, and the ways in which
 gpt-utils.cpp rewrites it. The checksum is any function from bytes to 32-bit words.
 */
module GptHeader {
  import opened ByteBuffers

  type Word = x: int | 0 <= x < 0x1_0000_0000

  type Checksum = Bytes -> Word

  // "EFI PART" with the terminating zero that sizeof counts in.
  const SIGNATURE: Bytes := [0x45, 0x46, 0x49, 0x20, 0x50, 0x41, 0x52, 0x54, 0]

  const MIN_BLOCK := 92

  // A block that can hold a header.
  type Header = h: Bytes | |h| >= MIN_BLOCK witness seq(MIN_BLOCK, i => 0)

  function Get4(h: Header, off: nat): Word
    requires off + 4 <= |h|
  {
    assert Pow256(4) == 0x1_0000_0000;
    FromLE(h[off..off + 4])
  }

  function Put4(h: Header, off: nat, w: Word): (r: Header)
    requires off + 4 <= |h|
    ensures |r| == |h|
  {
    Splice(h, off, ToLE(w, 4))
  }

  lemma GetPut(h: Header, off: nat, w: Word)
    requires off + 4 <= |h|
    ensures Get4(Put4(h, off, w), off) == w
  {
    SpliceReads(h, off, ToLE(w, 4), 0, 0);
    assert Pow256(4) == 0x1_0000_0000;
    FromToLE(w, 4);
  }

  lemma PutSame(h: Header, off: nat, v: Word, w: Word)
    requires off + 4 <= |h|
    ensures Put4(Put4(h, off, v), off, w) == Put4(h, off, w)
  {
  }

  lemma LowByte(x: byte, m: nat)
    ensures (x + 256 * m) % 256 == x && (x + 256 * m) / 256 == m
  {}

  lemma {:induction false} ToFromLE(b: Bytes)
    ensures ToLE(FromLE(b), |b|) == b
  {
    if b != [] {
      var rest := b[1..];
      ToFromLE(rest);
      LowByte(b[0], FromLE(rest));
      assert b == [b[0]] + rest;
    }
  }

  lemma PutGet(h: Header, off: nat)
    requires off + 4 <= |h|
    ensures Put4(h, off, Get4(h, off)) == h
  {
    ToFromLE(h[off..off + 4]);
  }

  /* Fields. */

  const HEADER_SIZE := 12
  const HEADER_CRC := 16
  const ENTRIES := 72
  const COUNT := 80
  const ENTRY_SIZE := 84
  const ARRAY_CRC := 88

  function HeaderSize(h: Header): Word { Get4(h, HEADER_SIZE) }

  function EntrySize(h: Header): Word { Get4(h, ENTRY_SIZE) }

  // A product of 32-bit numbers.
  function ArraySize(h: Header): Word {
    (Get4(h, COUNT) * EntrySize(h)) % 0x1_0000_0000
  }

  // The byte offset of the entry array on a device with blocks of the given size.
  function EntriesOffset(h: Header, blk: nat): nat {
    (FromLE(h[ENTRIES..ENTRIES + 8]) * blk) % 0x1_0000_0000_0000_0000
  }

  predicate Signed(h: Header) {
    h[..9] == SIGNATURE
  }

  // The checksum of the header is taken with its own field cleared.
  function HeaderSum(crc: Checksum, h: Header): Word
    requires HeaderSize(h) <= |h|
  {
    crc(Put4(h, HEADER_CRC, 0)[..HeaderSize(h)])
  }

  datatype State = Ok | BadSignature | BadCrc

  // gpt_get_state
  function StateOf(crc: Checksum, h: Header): State
    requires HeaderSize(h) <= |h|
  {
    if HeaderSum(crc, h) != Get4(h, HEADER_CRC) then BadCrc
    else if !Signed(h) then BadSignature
    else Ok
  }

  /* Rewriting. */

  // Bytes that no rewriting touches: all but the signature and the two checksums.
  ghost predicate SameShape(h: Header, g: Header) {
    |h| == |g| && forall i :: 9 <= i < 16 || 20 <= i < 88 || 92 <= i < |h| ==> h[i] == g[i]
  }

  lemma ShapeFields(h: Header, g: Header, blk: nat)
    requires SameShape(h, g)
    ensures HeaderSize(h) == HeaderSize(g) && EntrySize(h) == EntrySize(g) && ArraySize(h) == ArraySize(g)
    ensures EntriesOffset(h, blk) == EntriesOffset(g, blk)
  {
    assert h[12..16] == g[12..16] && h[72..80] == g[72..80] && h[80..84] == g[80..84] && h[84..88] == g[84..88];
  }

  // The header with its checksum brought up to date.
  function Sealed(crc: Checksum, h: Header): (r: Header)
    requires HeaderSize(h) <= |h|
    ensures |r| == |h|
  {
    Put4(h, HEADER_CRC, HeaderSum(crc, h))
  }

  function Corrupted(h: Header): Header {
    h[0 := 0]
  }

  function Repaired(h: Header): Header {
    Splice(h, 0, SIGNATURE)
  }

  // gpt_set_state with GPT_OK or GPT_BAD_SIGNATURE
  function WithState(crc: Checksum, h: Header, good: bool): (r: Header)
    requires HeaderSize(h) <= |h|
    ensures |r| == |h|
  {
    var g := if good then Repaired(h) else Corrupted(h);
    ShapeFields(g, h, 1);
    Sealed(crc, g)
  }

  // The header for another entry array.
  function WithArray(crc: Checksum, h: Header, arr: Bytes): (r: Header)
    requires HeaderSize(h) <= |h|
    ensures |r| == |h|
  {
    var g := Put4(h, ARRAY_CRC, crc(arr));
    ShapeFields(g, h, 1);
    Sealed(crc, g)
  }

  lemma SealedOk(crc: Checksum, h: Header)
    requires HeaderSize(h) <= |h|
    ensures SameShape(Sealed(crc, h), h) && HeaderSize(Sealed(crc, h)) <= |h|
    ensures StateOf(crc, Sealed(crc, h)) == if Signed(h) then Ok else BadSignature
    ensures Sealed(crc, h)[88..92] == h[88..92]
  {
    var s := Sealed(crc, h);
    ShapeFields(s, h, 1);
    GetPut(h, HEADER_CRC, HeaderSum(crc, h));
    PutSame(h, HEADER_CRC, HeaderSum(crc, h), 0);
    SpliceReads(h, HEADER_CRC, ToLE(HeaderSum(crc, h), 4), 88, 92);
    SpliceReads(h, HEADER_CRC, ToLE(HeaderSum(crc, h), 4), 0, 9);
  }

  // Sealing depends on everything but the checksum itself, and does nothing to a
  // header whose checksum is right.
  lemma SealedAgain(crc: Checksum, h: Header, g: Header)
    requires HeaderSize(h) <= |h| && HeaderSize(g) <= |g|
    requires Put4(h, HEADER_CRC, 0) == Put4(g, HEADER_CRC, 0)
    ensures Sealed(crc, h) == Sealed(crc, g)
    ensures StateOf(crc, g) != BadCrc ==> Sealed(crc, g) == g
  {
    var z, y := Put4(h, HEADER_CRC, 0), Put4(g, HEADER_CRC, 0);
    ShapeFields(z, h, 1);
    ShapeFields(y, g, 1);
    PutSame(h, HEADER_CRC, 0, HeaderSum(crc, h));
    PutSame(g, HEADER_CRC, 0, HeaderSum(crc, g));
    PutGet(g, HEADER_CRC);
  }

  lemma SignatureSet(h: Header)
    ensures Signed(Repaired(h)) && SameShape(Repaired(h), h) && Repaired(h)[88..92] == h[88..92]
    ensures !Signed(Corrupted(h)) && SameShape(Corrupted(h), h) && Corrupted(h)[88..92] == h[88..92]
  {
    SpliceReads(h, 0, SIGNATURE, 88, 92);
    assert Corrupted(h)[..9][0] != SIGNATURE[0];
  }

  lemma WithStateOk(crc: Checksum, h: Header, good: bool)
    requires HeaderSize(h) <= |h|
    ensures var s := WithState(crc, h, good);
      && SameShape(s, h) && HeaderSize(s) <= |s|
      && StateOf(crc, s) == (if good then Ok else BadSignature)
      && s[88..92] == h[88..92]
  {
    var g := if good then Repaired(h) else Corrupted(h);
    SignatureSet(h);
    ShapeFields(g, h, 1);
    SealedOk(crc, g);
  }

  // Which bytes a change of state changes: the signature, or its first byte, and the
  // checksum.
  lemma WithStateBytes(crc: Checksum, h: Header, good: bool, i: nat)
    requires HeaderSize(h) <= |h| && i < |h| && !(16 <= i < 20)
    ensures WithState(crc, h, good)[i] ==
      if good && i < 8 then "EFI PART"[i] as int else if i == 0 || (good && i == 8) then 0 else h[i]
  {
    assert SIGNATURE == seq(9, j requires 0 <= j < 9 => if j < 8 then "EFI PART"[j] as int else 0);
  }

  lemma WithArrayOk(crc: Checksum, h: Header, arr: Bytes)
    requires HeaderSize(h) <= |h|
    ensures var s := WithArray(crc, h, arr);
      && SameShape(s, h) && HeaderSize(s) <= |s|
      && StateOf(crc, s) == (if Signed(h) then Ok else BadSignature)
      && Get4(s, ARRAY_CRC) == crc(arr)
  {
    var g := Put4(h, ARRAY_CRC, crc(arr));
    ShapeFields(g, h, 1);
    SealedOk(crc, g);
    GetPut(h, ARRAY_CRC, crc(arr));
    SpliceReads(h, ARRAY_CRC, ToLE(crc(arr), 4), 0, 9);
  }

  lemma RepairUndoes(h: Header, s: Word, b: Header, r: Header)
    requires Signed(h) && b == Put4(Corrupted(h), HEADER_CRC, s) && r == Repaired(b)
    ensures SameShape(r, h) && Put4(r, HEADER_CRC, 0) == Put4(h, HEADER_CRC, 0)
  {
    var y, z := Put4(r, HEADER_CRC, 0), Put4(h, HEADER_CRC, 0);
    forall i | 0 <= i < |h| ensures y[i] == z[i] {
      if i < 9 {
        assert h[i] == h[..9][i];
      }
    }
  }

  lemma RepairedSame(h: Header)
    requires Signed(h)
    ensures Repaired(h) == h
  {}

  lemma WithArrayFits(crc: Checksum, h: Header, arr: Bytes)
    requires HeaderSize(h) <= |h|
    ensures HeaderSize(WithArray(crc, h, arr)) <= |h|
  {
    WithArrayOk(crc, h, arr);
  }

  // Breaking the signature of a good header and repairing it gives the header back.
  lemma BreakAndRepair(crc: Checksum, h: Header)
    requires HeaderSize(h) <= |h| && StateOf(crc, h) == Ok
    ensures HeaderSize(WithState(crc, h, false)) <= |h|
    ensures WithState(crc, WithState(crc, h, false), true) == h
    ensures WithState(crc, h, true) == h
  {
    WithStateOk(crc, h, false);
    var b := WithState(crc, h, false);
    var r := Repaired(b);
    RepairUndoes(h, HeaderSum(crc, Corrupted(h)), b, r);
    ShapeFields(r, h, 1);
    SealedAgain(crc, r, h);
    RepairedSame(h);
  }
}
