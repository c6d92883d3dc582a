/**
 The entry array as the bytes it is: entries of equal size one after the other, sought
 and swapped in place as gpt-utils.cpp does.
 */
module EntryArray {
  import opened ByteBuffers
  import opened GptEntries

  // The size of n entries.
  function Size(n: nat, esz: nat): nat {
    if n == 0 then 0 else Size(n - 1, esz) + esz
  }

  lemma {:induction false} SizeMonotone(k: nat, n: nat, esz: nat)
    requires k < n
    ensures Size(k, esz) + esz <= Size(n, esz)
    decreases n
  {
    if k < n - 1 {
      SizeMonotone(k, n - 1, esz);
    }
  }

  function EntryAt(buf: Bytes, esz: nat, n: nat, k: nat): (e: Entry)
    requires esz >= PTN_ENTRY_SIZE && |buf| == Size(n, esz) && k < n
    ensures |e| == esz
  {
    SizeMonotone(k, n, esz);
    buf[Size(k, esz)..Size(k, esz) + esz]
  }

  function Entries(buf: Bytes, esz: nat, n: nat): (es: seq<Entry>)
    requires esz >= PTN_ENTRY_SIZE && |buf| == Size(n, esz)
    ensures |es| == n && forall k :: 0 <= k < n ==> es[k] == EntryAt(buf, esz, n, k)
  {
    seq(n, k requires 0 <= k < n => EntryAt(buf, esz, n, k))
  }

  lemma {:induction false} EntriesDisjoint(j: nat, k: nat, n: nat, esz: nat)
    requires j < n && k < n
    ensures Size(j, esz) + esz <= Size(n, esz) && Size(k, esz) + esz <= Size(n, esz)
    ensures j < k ==> Size(j, esz) + esz <= Size(k, esz)
    ensures k < j ==> Size(k, esz) + esz <= Size(j, esz)
  {
    SizeMonotone(k, n, esz);
    SizeMonotone(j, n, esz);
    if j < k {
      SizeMonotone(j, k, esz);
    } else if k < j {
      SizeMonotone(k, j, esz);
    }
  }

  lemma PatchAt(buf: Bytes, esz: nat, n: nat, k: nat, o: nat, x: Bytes, j: nat)
    requires esz >= PTN_ENTRY_SIZE && |buf| == Size(n, esz) && k < n && o + |x| <= esz && j < n
    ensures Size(k, esz) + o + |x| <= |buf|
    ensures EntryAt(Splice(buf, Size(k, esz) + o, x), esz, n, j) ==
      if j == k then Splice(EntryAt(buf, esz, n, k), o, x) else EntryAt(buf, esz, n, j)
  {
    EntriesDisjoint(j, k, n, esz);
    PatchSlice(buf, Size(k, esz), Size(j, esz), esz, o, x);
  }

  lemma PatchSlice(buf: Bytes, p: nat, q: nat, esz: nat, o: nat, x: Bytes)
    requires p + esz <= |buf| && q + esz <= |buf| && o + |x| <= esz
    requires p == q || p + esz <= q || q + esz <= p
    ensures p == q ==> Splice(buf, p + o, x)[q..q + esz] == Splice(buf[q..q + esz], o, x)
    ensures p != q ==> Splice(buf, p + o, x)[q..q + esz] == buf[q..q + esz]
  {
    if p == q {
      SpliceWithin(buf, p + o, x, q, q + esz);
    } else {
      SpliceReads(buf, p + o, x, q, q + esz);
    }
  }

  // Writing within one entry changes that entry alone.
  lemma Patch(buf: Bytes, esz: nat, n: nat, k: nat, o: nat, x: Bytes)
    requires esz >= PTN_ENTRY_SIZE && |buf| == Size(n, esz) && k < n && o + |x| <= esz
    ensures Size(k, esz) + o + |x| <= |buf|
    ensures Entries(Splice(buf, Size(k, esz) + o, x), esz, n) ==
      Entries(buf, esz, n)[k := Splice(EntryAt(buf, esz, n, k), o, x)]
  {
    PatchAt(buf, esz, n, k, o, x, k);
    forall j | 0 <= j < n
      ensures EntryAt(Splice(buf, Size(k, esz) + o, x), esz, n, j) ==
        if j == k then Splice(EntryAt(buf, esz, n, k), o, x) else EntryAt(buf, esz, n, j)
    {
      PatchAt(buf, esz, n, k, o, x, j);
    }
  }

  lemma EntryStarts(buf: Bytes, esz: nat, n: nat, j: nat)
    requires esz >= PTN_ENTRY_SIZE && |buf| == Size(n, esz) && j < n
    ensures Size(j, esz) + esz <= |buf|
    ensures buf[Size(j, esz)..Size(j, esz) + PTN_ENTRY_SIZE] == EntryAt(buf, esz, n, j)[..PTN_ENTRY_SIZE]
  {
    SizeMonotone(j, n, esz);
  }

  // The name field of the entry at a position, every other byte of it.
  method ReadName(buf: Bytes, at: nat, ghost e: Entry) returns (name8: string)
    requires at + PTN_ENTRY_SIZE <= |buf| && buf[at..at + PTN_ENTRY_SIZE] == e[..PTN_ENTRY_SIZE]
    ensures name8 == Name8(e)
  {
    var i := 0;
    name8 := seq(MAX_NAME, _ => '\0');
    while i < MAX_NAME / 2
      invariant 0 <= i <= MAX_NAME / 2 && |name8| == MAX_NAME
      invariant forall j :: 0 <= j < i ==> name8[j] == buf[at + NAME_OFFSET + 2 * j] as char
      invariant forall j :: i <= j < MAX_NAME ==> name8[j] == '\0'
    {
      name8 := name8[i := buf[at + NAME_OFFSET + 2 * i] as char];
      i := i + 1;
    }
    assert forall j :: 0 <= j < PTN_ENTRY_SIZE ==> e[..PTN_ENTRY_SIZE][j] == buf[at..at + PTN_ENTRY_SIZE][j];
  }

  // gpt_pentry_seek from entry k on: the position of the first entry that matches, or
  // the end of the array.
  method PentrySeek(name: Name, buf: Bytes, esz: nat, ghost n: nat, ghost k: nat, start: nat) returns (at: nat)
    requires esz >= PTN_ENTRY_SIZE && |buf| == Size(n, esz) && k <= n && start == Size(k, esz)
    requires IsCName(name) && |name| < MAX_NAME
    ensures at == Size(Seek(Entries(buf, esz, n), name, k), esz)
  {
    ghost var es := Entries(buf, esz, n);
    at := start;
    ghost var j := k;
    while at < |buf|
      invariant k <= j <= n && at == Size(j, esz)
      invariant Seek(es, name, j) == Seek(es, name, k)
      decreases n - j
    {
      assert j < n;
      EntryStarts(buf, esz, n, j);
      var name8 := ReadName(buf, at, EntryAt(buf, esz, n, j));
      ComparisonFindsName(name, name8);
      if ComparesEqual(name, name8) {
        return;
      }
      at, j := at + esz, j + 1;
    }
    if j < n { SizeMonotone(j, n, esz); }
  }

  method MemCpy(a: array<byte>, at: nat, x: Bytes)
    requires at + |x| <= a.Length
    modifies a
    ensures a[..] == Splice(old(a[..]), at, x)
  {
    var i := 0;
    while i < |x|
      invariant 0 <= i <= |x|
      invariant forall j :: 0 <= j < a.Length ==> a[j] == if at <= j < at + i then x[j - at] else old(a[j])
    {
      a[at + i] := x[i];
      i := i + 1;
    }
  }

  lemma PatchHead(buf: Bytes, esz: nat, n: nat, i: nat, f: Entry)
    requires esz >= PTN_ENTRY_SIZE && |buf| == Size(n, esz) && i < n
    ensures Size(i, esz) + esz <= |buf|
    ensures Entries(Splice(buf, Size(i, esz), f[..PTN_ENTRY_SIZE]), esz, n) ==
      Entries(buf, esz, n)[i := WithHead(EntryAt(buf, esz, n, i), f)]
  {
    SizeMonotone(i, n, esz);
    Patch(buf, esz, n, i, 0, f[..PTN_ENTRY_SIZE]);
    var e := EntryAt(buf, esz, n, i);
    assert Splice(e, 0, f[..PTN_ENTRY_SIZE]) == WithHead(e, f);
  }

  lemma ExchangeBytes(buf: Bytes, esz: nat, n: nat, i: nat, j: nat, once: Bytes)
    requires esz >= PTN_ENTRY_SIZE && |buf| == Size(n, esz) && i < j < n
    requires Size(i, esz) + esz <= |buf| && Size(j, esz) + esz <= |buf|
    requires once == Splice(buf, Size(i, esz), EntryAt(buf, esz, n, j)[..PTN_ENTRY_SIZE])
    ensures Entries(Splice(once, Size(j, esz), EntryAt(buf, esz, n, i)[..PTN_ENTRY_SIZE]), esz, n) ==
      Exchange(Entries(buf, esz, n), i, j)
  {
    PatchHead(buf, esz, n, i, EntryAt(buf, esz, n, j));
    PatchHead(once, esz, n, j, EntryAt(buf, esz, n, i));
    assert EntryAt(once, esz, n, j) == Entries(once, esz, n)[j];
  }

  method SwapHeads(a: array<byte>, esz: nat, ghost n: nat, ghost i: nat, ghost j: nat, p: nat, q: nat)
    requires esz >= PTN_ENTRY_SIZE && a.Length == Size(n, esz) && i < j < n && p == Size(i, esz) && q == Size(j, esz)
    modifies a
    ensures Entries(a[..], esz, n) == Exchange(Entries(old(a[..]), esz, n), i, j)
  {
    ghost var buf := a[..];
    EntryStarts(buf, esz, n, i);
    EntryStarts(buf, esz, n, j);
    var swap, other := a[p..p + PTN_ENTRY_SIZE], a[q..q + PTN_ENTRY_SIZE];
    assert swap == buf[p..p + PTN_ENTRY_SIZE] && other == buf[q..q + PTN_ENTRY_SIZE];
    MemCpy(a, p, other);
    ExchangeBytes(buf, esz, n, i, j, a[..]);
    MemCpy(a, q, swap);
  }

  // A position is the end of the array just when it is that of no entry.
  lemma EndOfEntries(k: nat, n: nat, esz: nat)
    requires k <= n && esz > 0
    ensures Size(k, esz) == Size(n, esz) <==> k == n
  {
    if k < n {
      SizeMonotone(k, n, esz);
    }
  }

  // One turn of the loop of gpt_boot_chain_swap.
  method SwapTwins(name: Name, a: array<byte>, esz: nat, ghost n: nat) returns (found: bool)
    requires esz >= PTN_ENTRY_SIZE && a.Length == Size(n, esz)
    requires IsCName(name) && |name| < MAX_NAME
    modifies a
    ensures Entries(a[..], esz, n) == SwapOne(Entries(old(a[..]), esz, n), name)
    ensures found == HasTwins(Entries(old(a[..]), esz, n), Twins(Entries(old(a[..]), esz, n), name))
  {
    found := false;
    ghost var es := Entries(a[..], esz, n);
    ghost var i := Seek(es, name, 0);
    var entry := PentrySeek(name, a[..], esz, n, 0, 0);
    EndOfEntries(i, n, esz);
    if entry == a.Length {
      return;
    }
    ghost var j := Seek(es, name, i + 1);
    var twin := PentrySeek(name, a[..], esz, n, i + 1, entry + esz);
    EndOfEntries(j, n, esz);
    if twin == a.Length {
      return;
    }
    SwapHeads(a, esz, n, i, j, entry, twin);
    found := true;
  }

  ghost predicate Listable(names: seq<Name>) {
    forall k :: 0 <= k < |names| ==> IsCName(names[k]) && |names[k]| < MAX_NAME
  }

  // gpt_boot_chain_swap: the twins of every listed partition exchanged in place.
  method BootChainSwap(names: seq<Name>, a: array<byte>, esz: nat, ghost n: nat, ufs: bool)
    returns (backupNotFound: bool)
    requires esz >= PTN_ENTRY_SIZE && a.Length == Size(n, esz) && Listable(names)
    modifies a
    ensures Entries(a[..], esz, n) == SwapAll(Entries(old(a[..]), esz, n), Unskipped(names, ufs))
    ensures backupNotFound == !FindsTwins(Entries(old(a[..]), esz, n), Unskipped(names, ufs))
  {
    backupNotFound := true;
    ghost var es := Entries(a[..], esz, n);
    ghost var cur := es;
    var i := 0;
    while i < |names|
      invariant i <= |names| && cur == Entries(a[..], esz, n)
      invariant SwapAll(cur, Unskipped(names[i..], ufs)) == SwapAll(es, Unskipped(names, ufs))
      invariant (!backupNotFound || FindsTwins(cur, Unskipped(names[i..], ufs))) ==
        FindsTwins(es, Unskipped(names, ufs))
    {
      UnskippedStep(names, i, ufs);
      SwapCons(cur, names[i], Unskipped(names[i + 1..], ufs));
      if !Skipped(ufs, names[i]) {
        var found := SwapTwins(names[i], a, esz, n);
        if found {
          backupNotFound := false;
        }
        cur := SwapOne(cur, names[i]);
      }
      i := i + 1;
    }
  }

  lemma SwapCons(es: seq<Entry>, name: Name, rest: seq<Name>)
    ensures SwapAll(es, [name] + rest) == SwapAll(SwapOne(es, name), rest)
    ensures FindsTwins(es, [name] + rest) == (HasTwins(es, Twins(es, name)) || FindsTwins(SwapOne(es, name), rest))
  {
    assert ([name] + rest)[0] == name && ([name] + rest)[1..] == rest;
  }

  lemma UnskippedStep(names: seq<Name>, i: nat, ufs: bool)
    requires i < |names|
    ensures var rest := Unskipped(names[i + 1..], ufs);
      Unskipped(names[i..], ufs) == if Skipped(ufs, names[i]) then rest else [names[i]] + rest
  {
    assert names[i..][0] == names[i] && names[i..][1..] == names[i + 1..];
  }

  lemma ListedName(k: nat)
    requires k < |PTN_SWAP_LIST|
    ensures IsCName(PTN_SWAP_LIST[k]) && |PTN_SWAP_LIST[k]| < MAX_NAME
  {}

  lemma SwapListIsListable()
    ensures Listable(PTN_SWAP_LIST)
  {
    forall k | 0 <= k < |PTN_SWAP_LIST| ensures IsCName(PTN_SWAP_LIST[k]) && |PTN_SWAP_LIST[k]| < MAX_NAME {
      ListedName(k);
    }
  }

  /* An array put together from its entries. */

  function Joined(es: seq<Entry>): Bytes {
    if es == [] then [] else Joined(es[..|es| - 1]) + es[|es| - 1]
  }

  lemma FrontEntry(buf: Bytes, front: Bytes, esz: nat, n: nat, k: nat)
    requires esz >= PTN_ENTRY_SIZE && n > 0 && |buf| == Size(n, esz) && k < n - 1
    requires |front| == Size(n - 1, esz) && front == buf[..|front|]
    ensures EntryAt(buf, esz, n, k) == EntryAt(front, esz, n - 1, k)
  {
    SizeMonotone(k, n - 1, esz);
    SizeMonotone(k, n, esz);
  }

  lemma FrontEntries(buf: Bytes, front: Bytes, last: Entry, esz: nat, n: nat)
    requires esz >= PTN_ENTRY_SIZE && n > 0 && |buf| == Size(n, esz)
    requires |front| == Size(n - 1, esz) && front == buf[..|front|] && last == buf[|front|..]
    ensures Entries(buf, esz, n) == Entries(front, esz, n - 1) + [last]
  {
    forall k | 0 <= k < n - 1 ensures Entries(buf, esz, n)[k] == Entries(front, esz, n - 1)[k] {
      FrontEntry(buf, front, esz, n, k);
    }
    assert EntryAt(buf, esz, n, n - 1) == last;
  }

  lemma JoinedStep(es: seq<Entry>, e: Entry)
    ensures Joined(es + [e]) == Joined(es) + e
  {
    assert (es + [e])[..|es|] == es;
  }

  lemma {:induction false} JoinEntries(buf: Bytes, esz: nat, n: nat)
    requires esz >= PTN_ENTRY_SIZE && |buf| == Size(n, esz)
    ensures Joined(Entries(buf, esz, n)) == buf
    decreases n
  {
    if n > 0 {
      var k := Size(n - 1, esz);
      var front, last := buf[..k], buf[k..];
      assert buf == front + last;
      JoinEntries(front, esz, n - 1);
      var es := Entries(front, esz, n - 1);
      FrontEntries(buf, front, last, esz, n);
      JoinedStep(es, last);
    }
  }

  lemma {:induction false} JoinedSize(es: seq<Entry>, esz: nat)
    requires forall k :: 0 <= k < |es| ==> |es[k]| == esz
    ensures |Joined(es)| == Size(|es|, esz)
  {
    if es != [] {
      JoinedSize(es[..|es| - 1], esz);
    }
  }

  lemma JoinedLast(es: seq<Entry>, esz: nat)
    requires es != [] && forall k :: 0 <= k < |es| ==> |es[k]| == esz
    ensures |Joined(es)| == Size(|es|, esz) && Size(|es|, esz) == Size(|es| - 1, esz) + esz
    ensures Joined(es)[..Size(|es| - 1, esz)] == Joined(es[..|es| - 1])
    ensures Joined(es)[Size(|es| - 1, esz)..] == es[|es| - 1]
  {
    JoinedSize(es, esz);
    JoinedSize(es[..|es| - 1], esz);
  }

  // The entries of an array put together from entries are those.
  lemma {:induction false} EntriesJoined(es: seq<Entry>, esz: nat)
    requires esz >= PTN_ENTRY_SIZE && forall k :: 0 <= k < |es| ==> |es[k]| == esz
    ensures |Joined(es)| == Size(|es|, esz) && Entries(Joined(es), esz, |es|) == es
  {
    JoinedSize(es, esz);
    if es != [] {
      var front, last := es[..|es| - 1], es[|es| - 1];
      EntriesJoined(front, esz);
      JoinedLast(es, esz);
      FrontEntries(Joined(es), Joined(front), last, esz, |es|);
    }
  }

  // The array with every listed partition and its twin exchanged.
  function Swapped(buf: Bytes, esz: nat, n: nat, names: seq<Name>, ufs: bool): (r: Bytes)
    requires esz >= PTN_ENTRY_SIZE && |buf| == Size(n, esz)
    ensures |r| == |buf|
  {
    var es := SwapAll(Entries(buf, esz, n), Unskipped(names, ufs));
    SwapAllPermutes(Entries(buf, esz, n), Unskipped(names, ufs));
    JoinedSize(es, esz);
    Joined(es)
  }

  predicate HasBackups(buf: Bytes, esz: nat, n: nat, names: seq<Name>, ufs: bool)
    requires esz >= PTN_ENTRY_SIZE && |buf| == Size(n, esz)
  {
    FindsTwins(Entries(buf, esz, n), Unskipped(names, ufs))
  }

  // gpt_boot_chain_swap on the whole array.
  method SwapListed(names: seq<Name>, a: array<byte>, esz: nat, ghost n: nat, ufs: bool) returns (backupNotFound: bool)
    requires esz >= PTN_ENTRY_SIZE && a.Length == Size(n, esz) && Listable(names)
    modifies a
    ensures a[..] == Swapped(old(a[..]), esz, n, names, ufs)
    ensures backupNotFound == !HasBackups(old(a[..]), esz, n, names, ufs)
  {
    backupNotFound := BootChainSwap(names, a, esz, n, ufs);
    JoinEntries(a[..], esz, n);
  }

  lemma SwappedEntries(buf: Bytes, esz: nat, n: nat, names: seq<Name>, ufs: bool)
    requires esz >= PTN_ENTRY_SIZE && |buf| == Size(n, esz)
    ensures Entries(Swapped(buf, esz, n, names, ufs), esz, n) == SwapAll(Entries(buf, esz, n), Unskipped(names, ufs))
  {
    var es := SwapAll(Entries(buf, esz, n), Unskipped(names, ufs));
    SwapAllPermutes(Entries(buf, esz, n), Unskipped(names, ufs));
    EntriesJoined(es, esz);
  }

  // What the bytes of the swapped array are, for the list of the source.
  lemma SwappedExact(buf: Bytes, esz: nat, n: nat, names: seq<Name>, ufs: bool)
    requires esz >= PTN_ENTRY_SIZE && |buf| == Size(n, esz) && names == PTN_SWAP_LIST
    ensures ChainSwapped(Entries(buf, esz, n), Entries(Swapped(buf, esz, n, names, ufs), esz, n), ufs)
    ensures HasBackups(buf, esz, n, names, ufs) <==> HasPair(Entries(buf, esz, n), ufs)
  {
    var unskipped := Unskipped(names, ufs);
    SwapListApart();
    UnskippedApart(names, ufs);
    SwappedEntries(buf, esz, n, names, ufs);
    BootChainSwapExact(Entries(buf, esz, n), unskipped, ufs);
    FindsTwinsIsHasPair(Entries(buf, esz, n), unskipped, ufs);
  }
}
