/**
 The partition entry array of gpt-utils: entries found by name, and the boot chain
 swap, which exchanges every listed partition with its backup twin.
 */
module GptEntries {
  import opened ByteBuffers

  const PTN_ENTRY_SIZE := 128
  const NAME_OFFSET := 56
  const MAX_NAME := 72
  const BAK := "bak"
  const GUID_SIZE := 16
  const FLAG := 54

  type Name = string

  const PTN_SWAP_LIST: seq<Name> :=
    ["xbl", "xbl_config", "sbl1", "rpm", "tz", "aboot", "abl", "hyp", "lksecapp", "keymaster", "cmnlib", "cmnlib32",
     "cmnlib64", "pmic", "apdp", "devcfg", "hosd", "keystore", "msadp", "mdtp", "mdtpsecapp", "dsp", "aop", "qupfw",
     "vbmeta", "dtbo", "imagefv", "ImageFv", "multiimgoem", "multiimgqti", "uefisecapp", "shrm", "cpucp"]

  type Entry = e: Bytes | |e| >= PTN_ENTRY_SIZE witness seq(PTN_ENTRY_SIZE, i => 0)

  /* Names. */

  // A string as C reads it, up to the first zero.
  function CString(s: string): string {
    if s == [] || s[0] == '\0' then [] else [s[0]] + CString(s[1..])
  }

  // Every other byte of the name field, in a zeroed buffer.
  function Name8(e: Entry): (s: string)
    ensures |s| == MAX_NAME
  {
    seq(MAX_NAME, i requires 0 <= i < MAX_NAME => if i < MAX_NAME / 2 then e[NAME_OFFSET + 2 * i] as char else '\0')
  }

  function EntryName(e: Entry): Name {
    CString(Name8(e))
  }

  // The entry belongs to the partition or is its backup twin.
  predicate Matches(name: Name, e: Entry) {
    EntryName(e) == name || EntryName(e) == name + BAK
  }

  // The comparison of the source: strncmp over the length of the name, then nothing
  // more or the rest by strcmp.
  predicate ComparesEqual(name: Name, s: string)
    requires |name| < |s|
  {
    s[..|name|] == name && (s[|name|] == '\0' || CString(s[|name|..]) == BAK)
  }

  predicate IsCName(name: Name) {
    '\0' !in name
  }

  lemma {:induction false} CStringPrefix(name: Name, s: string)
    requires IsCName(name) && name <= s
    ensures CString(s) == name + CString(s[|name|..])
  {
    if name != [] {
      assert s[0] == name[0] && name[1..] <= s[1..];
      CStringPrefix(name[1..], s[1..]);
      assert s[1..][|name| - 1..] == s[|name|..];
    }
  }

  lemma {:induction false} CStringIsPrefix(s: string)
    ensures CString(s) <= s && IsCName(CString(s))
  {
    if s != [] && s[0] != '\0' {
      CStringIsPrefix(s[1..]);
    }
  }

  lemma ComparisonFindsName(name: Name, s: string)
    requires IsCName(name) && |name| < |s|
    ensures ComparesEqual(name, s) <==> CString(s) == name || CString(s) == name + BAK
  {
    CStringIsPrefix(s);
    if name <= s {
      CStringPrefix(name, s);
      var rest := CString(s[|name|..]);
      assert name + rest == name <==> rest == [];
      assert name + rest == name + BAK ==> (name + rest)[|name|..] == rest && (name + BAK)[|name|..] == BAK;
    } else {
      assert name + BAK == CString(s) ==> name <= s;
    }
  }

  // An entry of a given name, type and flags.
  function NewEntry(name: Name, kind: byte, flags: byte): (e: Entry)
    requires |name| <= MAX_NAME / 2 && forall k :: 0 <= k < |name| ==> 0 < name[k] as int < 256
    ensures |e| == 128 && e[..GUID_SIZE] == seq(GUID_SIZE, _ => kind) && e[FLAG] == flags && EntryName(e) == name
  {
    var e := seq(128, i requires 0 <= i < 128 =>
      if i < 16 then kind
      else if i == 54 then flags
      else if 56 <= i < 56 + 2 * |name| && i % 2 == 0 then name[(i - 56) / 2] as int
      else 0);
    NewEntryName(e, name);
    assert e[..GUID_SIZE] == seq(GUID_SIZE, _ => kind);
    e
  }

  lemma NewEntryName(e: Entry, name: Name)
    requires |name| <= MAX_NAME / 2 && IsCName(name)
    requires forall k :: 0 <= k < |name| ==> e[NAME_OFFSET + 2 * k] == name[k] as int
    requires forall i :: NAME_OFFSET + 2 * |name| <= i < PTN_ENTRY_SIZE ==> e[i] == 0
    ensures EntryName(e) == name
  {
    var s := Name8(e);
    forall k | 0 <= k < |name| ensures s[k] == name[k] {
      assert e[NAME_OFFSET + 2 * k] == name[k] as int;
    }
    assert s[|name|] == '\0';
    CStringPrefix(name, s);
    assert s[|name|..][0] == '\0';
  }

  /* Entries by position. */

  // The first entry at or after from that matches, or the number of entries.
  function Seek(es: seq<Entry>, name: Name, from: nat): (k: nat)
    requires from <= |es|
    ensures from <= k <= |es|
    ensures k < |es| ==> Matches(name, es[k])
    ensures forall i :: from <= i < k ==> !Matches(name, es[i])
    decreases |es| - from
  {
    if from == |es| || Matches(name, es[from]) then from else Seek(es, name, from + 1)
  }

  // The heads, that is the 128 bytes the source copies, of two entries exchanged.
  function Exchange(es: seq<Entry>, i: nat, j: nat): (r: seq<Entry>)
    requires i < |es| && j < |es|
    ensures |r| == |es|
  {
    es[i := WithHead(es[i], es[j])][j := WithHead(es[j], es[i])]
  }

  function WithHead(e: Entry, f: Entry): (r: Entry)
    ensures |r| == |e|
  {
    f[..PTN_ENTRY_SIZE] + e[PTN_ENTRY_SIZE..]
  }

  // The positions of a partition and its twin, if both are there.
  function Twins(es: seq<Entry>, name: Name): (p: (nat, nat))
    ensures p.0 <= |es| && p.1 <= |es|
    ensures HasTwins(es, p) ==> p.0 < p.1
  {
    var k := Seek(es, name, 0);
    if k == |es| then (k, k) else (k, Seek(es, name, k + 1))
  }

  predicate HasTwins(es: seq<Entry>, p: (nat, nat)) {
    p.0 < |es| && p.1 < |es|
  }

  function SwapOne(es: seq<Entry>, name: Name): (r: seq<Entry>)
    ensures |r| == |es|
  {
    var p := Twins(es, name);
    if HasTwins(es, p) then Exchange(es, p.0, p.1) else es
  }

  function SwapAll(es: seq<Entry>, names: seq<Name>): (r: seq<Entry>)
    ensures |r| == |es|
    decreases names
  {
    if names == [] then es else SwapAll(SwapOne(es, names[0]), names[1..])
  }

  // Some listed partition has a twin when its turn comes.
  predicate FindsTwins(es: seq<Entry>, names: seq<Name>)
    decreases names
  {
    names != [] && (HasTwins(es, Twins(es, names[0])) || FindsTwins(SwapOne(es, names[0]), names[1..]))
  }

  /* The swap is its own inverse. */

  // No entry can match both names.
  predicate Apart(a: Name, b: Name) {
    a != b && a != b + BAK && b != a + BAK
  }

  ghost predicate AllApart(names: seq<Name>) {
    forall i, j :: 0 <= i < j < |names| ==> Apart(names[i], names[j])
  }

  lemma ApartMatches(a: Name, b: Name, e: Entry)
    requires Apart(a, b)
    ensures !(Matches(a, e) && Matches(b, e))
  {
    BakInjective(a, b);
  }

  lemma BakInjective(a: Name, b: Name)
    ensures a + BAK == b + BAK ==> a == b
  {
    if a + BAK == b + BAK {
      assert a == (a + BAK)[..|a|] && b == (b + BAK)[..|b|];
    }
  }

  lemma HeadNames(e: Entry, f: Entry)
    ensures EntryName(WithHead(e, f)) == EntryName(f)
  {
    assert Name8(WithHead(e, f)) == Name8(f);
  }

  // Both lists have matching entries at the same positions.
  ghost predicate SameMatches(es: seq<Entry>, fs: seq<Entry>, name: Name) {
    |es| == |fs| && forall k :: 0 <= k < |es| ==> (Matches(name, es[k]) <==> Matches(name, fs[k]))
  }

  lemma {:induction false} SameSeek(es: seq<Entry>, fs: seq<Entry>, name: Name, from: nat)
    requires SameMatches(es, fs, name) && from <= |es|
    ensures Seek(es, name, from) == Seek(fs, name, from)
    decreases |es| - from
  {
    if from < |es| && !Matches(name, es[from]) {
      SameSeek(es, fs, name, from + 1);
    }
  }

  lemma SameTwins(es: seq<Entry>, fs: seq<Entry>, name: Name)
    requires SameMatches(es, fs, name)
    ensures Twins(es, name) == Twins(fs, name)
  {
    SameSeek(es, fs, name, 0);
    var k := Seek(es, name, 0);
    if k < |es| {
      SameSeek(es, fs, name, k + 1);
    }
  }

  lemma SwapKeepsMatches(es: seq<Entry>, a: Name, b: Name)
    requires a == b || Apart(a, b)
    ensures SameMatches(es, SwapOne(es, a), b)
  {
    var p := Twins(es, a);
    if HasTwins(es, p) {
      HeadNames(es[p.0], es[p.1]);
      HeadNames(es[p.1], es[p.0]);
      if a != b {
        ApartMatches(a, b, es[p.0]);
        ApartMatches(a, b, es[p.1]);
      }
    }
  }

  lemma ExchangeTwice(es: seq<Entry>, i: nat, j: nat)
    requires i < j < |es|
    ensures Exchange(Exchange(es, i, j), i, j) == es
  {
    var x := Exchange(es, i, j);
    assert WithHead(x[i], x[j]) == es[i] && WithHead(x[j], x[i]) == es[j];
  }

  lemma SwapOneTwice(es: seq<Entry>, name: Name)
    ensures SwapOne(SwapOne(es, name), name) == es
  {
    SwapKeepsMatches(es, name, name);
    SameTwins(es, SwapOne(es, name), name);
    var p := Twins(es, name);
    if HasTwins(es, p) {
      ExchangeTwice(es, p.0, p.1);
    }
  }

  lemma SwapOnesCommute(es: seq<Entry>, a: Name, b: Name)
    requires Apart(a, b)
    ensures SwapOne(SwapOne(es, a), b) == SwapOne(SwapOne(es, b), a)
  {
    SwapKeepsMatches(es, a, b);
    SwapKeepsMatches(es, b, a);
    SameTwins(es, SwapOne(es, a), b);
    SameTwins(es, SwapOne(es, b), a);
    var p, q := Twins(es, a), Twins(es, b);
    if HasTwins(es, p) && HasTwins(es, q) {
      ApartMatches(a, b, es[p.0]);
      ApartMatches(a, b, es[p.1]);
      ExchangesCommute(es, p.0, p.1, q.0, q.1);
    }
  }

  lemma ExchangesCommute(es: seq<Entry>, i: nat, j: nat, k: nat, l: nat)
    requires i < |es| && j < |es| && k < |es| && l < |es|
    requires i != j && k != l && i != k && i != l && j != k && j != l
    ensures Exchange(Exchange(es, i, j), k, l) == Exchange(Exchange(es, k, l), i, j)
  {}

  lemma {:induction false} SwapCommutes(es: seq<Entry>, a: Name, names: seq<Name>)
    requires forall n :: 0 <= n < |names| ==> Apart(a, names[n])
    ensures SwapAll(SwapOne(es, a), names) == SwapOne(SwapAll(es, names), a)
    decreases names
  {
    if names != [] {
      SwapOnesCommute(es, a, names[0]);
      SwapCommutes(SwapOne(es, names[0]), a, names[1..]);
    }
  }

  lemma {:induction false} SwapAllTwice(es: seq<Entry>, names: seq<Name>)
    requires AllApart(names)
    ensures SwapAll(SwapAll(es, names), names) == es
    decreases names
  {
    if names != [] {
      var a, rest := names[0], names[1..];
      var once := SwapAll(SwapOne(es, a), rest);
      SwapCommutes(SwapOne(es, a), a, rest);
      SwapOneTwice(es, a);
      SwapAllTwice(es, rest);
    }
  }

  // Whether twins are found can be seen from the array before the swap.
  lemma {:induction false} FindsTwinsAtOnce(es: seq<Entry>, names: seq<Name>)
    requires AllApart(names)
    ensures FindsTwins(es, names) <==> exists n :: 0 <= n < |names| && HasTwins(es, Twins(es, names[n]))
    decreases names
  {
    if names != [] {
      var fs, rest := SwapOne(es, names[0]), names[1..];
      FindsTwinsAtOnce(fs, rest);
      forall n | 0 <= n < |rest| ensures Twins(fs, rest[n]) == Twins(es, rest[n]) && rest[n] == names[n + 1] {
        SwapKeepsMatches(es, names[0], rest[n]);
        SameTwins(es, fs, rest[n]);
      }
    }
  }

  /* The swap is a permutation. */

  function Heads(es: seq<Entry>): seq<Bytes> {
    seq(|es|, k requires 0 <= k < |es| => es[k][..PTN_ENTRY_SIZE])
  }

  // Only heads move, and each stays among the heads.
  ghost predicate Permutes(es: seq<Entry>, fs: seq<Entry>) {
    && |es| == |fs| && multiset(Heads(es)) == multiset(Heads(fs))
    && forall k :: 0 <= k < |es| ==> |es[k]| == |fs[k]| && es[k][PTN_ENTRY_SIZE..] == fs[k][PTN_ENTRY_SIZE..]
  }

  lemma ExchangePermutes(es: seq<Entry>, i: nat, j: nat)
    requires i < j < |es|
    ensures Permutes(es, Exchange(es, i, j))
  {
    var h, x := Heads(es), Exchange(es, i, j);
    assert Heads(x) == h[i := h[j]][j := h[i]];
  }

  lemma {:induction false} SwapAllPermutes(es: seq<Entry>, names: seq<Name>)
    ensures Permutes(es, SwapAll(es, names))
    decreases names
  {
    if names != [] {
      var p := Twins(es, names[0]);
      if HasTwins(es, p) {
        ExchangePermutes(es, p.0, p.1);
      }
      SwapAllPermutes(SwapOne(es, names[0]), names[1..]);
    }
  }

  /* The list of the source. */

  lemma SwapListDistinct()
    ensures forall i, j :: 0 <= i < j < |PTN_SWAP_LIST| ==> PTN_SWAP_LIST[i] != PTN_SWAP_LIST[j]
  {}

  lemma SwapListEndings(n: nat)
    requires n < |PTN_SWAP_LIST|
    ensures var s := PTN_SWAP_LIST[n]; |s| > 0 && s[|s| - 1] != 'k'
  {}

  lemma SwapListApart()
    ensures AllApart(PTN_SWAP_LIST)
  {
    SwapListDistinct();
    forall i, j | 0 <= i < j < |PTN_SWAP_LIST| ensures Apart(PTN_SWAP_LIST[i], PTN_SWAP_LIST[j]) {
      SwapListEndings(i);
      SwapListEndings(j);
      NoTwinOf(PTN_SWAP_LIST[i], PTN_SWAP_LIST[j]);
      NoTwinOf(PTN_SWAP_LIST[j], PTN_SWAP_LIST[i]);
    }
  }

  lemma NoTwinOf(a: Name, b: Name)
    requires |a| > 0 && a[|a| - 1] != 'k'
    ensures a != b + BAK
  {
    assert (b + BAK)[|b + BAK| - 1] == 'k';
  }

  const PTN_XBL := "xbl"

  // On UFS devices the boot loader partitions are not swapped here.
  predicate Skipped(ufs: bool, name: Name) {
    ufs && PTN_XBL <= name
  }

  function Unskipped(names: seq<Name>, ufs: bool): seq<Name> {
    if names == [] then []
    else if Skipped(ufs, names[0]) then Unskipped(names[1..], ufs)
    else [names[0]] + Unskipped(names[1..], ufs)
  }

  lemma {:induction false} UnskippedApart(names: seq<Name>, ufs: bool)
    requires AllApart(names)
    ensures AllApart(Unskipped(names, ufs))
    ensures forall n :: n in Unskipped(names, ufs) ==> n in names
  {
    if names != [] {
      UnskippedApart(names[1..], ufs);
      var rest := Unskipped(names[1..], ufs);
      forall i | 0 <= i < |rest| ensures Apart(names[0], rest[i]) {
        assert rest[i] in rest;
        assert rest[i] in names[1..];
      }
    }
  }

  /* What the swap does, entry by entry. */

  // The first two entries that match the name.
  ghost predicate FirstTwo(es: seq<Entry>, name: Name, i: nat, j: nat) {
    && i < j < |es| && Matches(name, es[i]) && Matches(name, es[j])
    && forall k :: 0 <= k < j && k != i ==> !Matches(name, es[k])
  }

  lemma TwinsAreFirstTwo(es: seq<Entry>, name: Name, i: nat, j: nat)
    ensures FirstTwo(es, name, i, j) <==> HasTwins(es, Twins(es, name)) && Twins(es, name) == (i, j)
  {}

  // Entry i has the head that entry j had.
  ghost predicate TakesHead(es: seq<Entry>, r: seq<Entry>, i: nat, j: nat) {
    && i < |es| && j < |es| && |r| == |es| && |r[i]| == |es[i]|
    && r[i][..128] == es[j][..128] && r[i][128..] == es[i][128..]
  }

  ghost predicate IsTwin(es: seq<Entry>, name: Name, k: nat) {
    exists i, j :: FirstTwo(es, name, i, j) && (k == i || k == j)
  }

  lemma SwapOneExact(es: seq<Entry>, name: Name, i: nat, j: nat)
    requires FirstTwo(es, name, i, j)
    ensures var r := SwapOne(es, name);
      && TakesHead(es, r, i, j) && TakesHead(es, r, j, i)
      && forall k :: 0 <= k < |es| && k != i && k != j ==> r[k] == es[k]
  {
    TwinsAreFirstTwo(es, name, i, j);
  }

  lemma SwapOneOthers(es: seq<Entry>, name: Name, k: nat)
    requires k < |es| && !IsTwin(es, name, k)
    ensures SwapOne(es, name)[k] == es[k]
  {
    var p := Twins(es, name);
    if HasTwins(es, p) {
      TwinsAreFirstTwo(es, name, p.0, p.1);
    }
  }

  lemma SameFirstTwo(es: seq<Entry>, fs: seq<Entry>, name: Name, i: nat, j: nat)
    requires SameMatches(es, fs, name)
    ensures FirstTwo(es, name, i, j) <==> FirstTwo(fs, name, i, j)
  {}

  lemma TwinMatches(es: seq<Entry>, a: Name, b: Name, k: nat)
    requires k < |es| && Apart(a, b) && Matches(b, es[k])
    ensures !IsTwin(es, a, k)
  {
    ApartMatches(a, b, es[k]);
  }

  // Every listed partition that has a twin changes places with it ...
  lemma {:induction false} SwapAllExact(es: seq<Entry>, names: seq<Name>, n: nat, i: nat, j: nat)
    requires AllApart(names) && n < |names| && FirstTwo(es, names[n], i, j)
    ensures TakesHead(es, SwapAll(es, names), i, j) && TakesHead(es, SwapAll(es, names), j, i)
    decreases names
  {
    var a, rest := names[0], names[1..];
    var fs := SwapOne(es, a);
    if n == 0 {
      SwapOneExact(es, a, i, j);
      SwapKeepsMatches(es, a, a);
      forall m | 0 <= m < |rest| ensures !IsTwin(fs, rest[m], i) && !IsTwin(fs, rest[m], j) {
        assert Apart(names[0], names[m + 1]) && Matches(a, fs[i]) && Matches(a, fs[j]);
        TwinMatches(fs, rest[m], a, i);
        TwinMatches(fs, rest[m], a, j);
      }
      SwapAllOthers(fs, rest, i);
      SwapAllOthers(fs, rest, j);
    } else {
      assert rest[n - 1] == names[n] && Apart(names[0], names[n]);
      SwapKeepsMatches(es, a, names[n]);
      SameFirstTwo(es, fs, names[n], i, j);
      TwinMatches(es, a, names[n], i);
      TwinMatches(es, a, names[n], j);
      SwapOneOthers(es, a, i);
      SwapOneOthers(es, a, j);
      SwapAllExact(fs, rest, n - 1, i, j);
    }
  }

  // ... and every other entry stays.
  lemma {:induction false} SwapAllOthers(es: seq<Entry>, names: seq<Name>, k: nat)
    requires AllApart(names) && k < |es| && forall n :: 0 <= n < |names| ==> !IsTwin(es, names[n], k)
    ensures SwapAll(es, names)[k] == es[k]
    decreases names
  {
    if names != [] {
      var a, rest := names[0], names[1..];
      var fs := SwapOne(es, a);
      SwapOneOthers(es, a, k);
      forall n | 0 <= n < |rest| ensures !IsTwin(fs, rest[n], k) {
        assert Apart(names[0], names[n + 1]) && rest[n] == names[n + 1];
        SwapKeepsMatches(es, a, rest[n]);
        SameTwin(es, fs, rest[n], k);
      }
      SwapAllOthers(fs, rest, k);
    }
  }

  lemma SameTwin(es: seq<Entry>, fs: seq<Entry>, name: Name, k: nat)
    requires SameMatches(es, fs, name) && !IsTwin(es, name, k)
    ensures !IsTwin(fs, name, k)
  {
    forall i, j | FirstTwo(fs, name, i, j) ensures k != i && k != j {
      SameFirstTwo(es, fs, name, i, j);
    }
  }

  // A listed partition, but for the boot loader on UFS devices.
  predicate Swappable(name: Name, ufs: bool) {
    name in PTN_SWAP_LIST && !(ufs && |name| >= 3 && name[..3] == "xbl")
  }

  lemma {:induction false} UnskippedIs(names: seq<Name>, ufs: bool, name: Name)
    ensures name in Unskipped(names, ufs) <==> name in names && !(ufs && |name| >= 3 && name[..3] == "xbl")
    decreases names
  {
    if names != [] {
      UnskippedIs(names[1..], ufs, name);
      assert PTN_XBL <= names[0] <==> |names[0]| >= 3 && names[0][..3] == "xbl";
      assert name in names <==> name == names[0] || name in names[1..];
    }
  }

  // The entries of every swappable partition and its twin have changed places, and no
  // other entry is different.
  ghost predicate ChainSwapped(es: seq<Entry>, r: seq<Entry>, ufs: bool) {
    && |r| == |es|
    && (forall name, i, j :: Swappable(name, ufs) && FirstTwo(es, name, i, j) ==>
        TakesHead(es, r, i, j) && TakesHead(es, r, j, i))
    && forall k :: 0 <= k < |es| && !IsSwappable(es, k, ufs) ==> r[k] == es[k]
  }

  ghost predicate IsSwappable(es: seq<Entry>, k: nat, ufs: bool) {
    exists name :: Swappable(name, ufs) && IsTwin(es, name, k)
  }

  // Some swappable partition has a twin.
  ghost predicate HasPair(es: seq<Entry>, ufs: bool) {
    exists name, i, j :: Swappable(name, ufs) && FirstTwo(es, name, i, j)
  }

  lemma NameAt(names: seq<Name>, name: Name) returns (n: nat)
    requires name in names
    ensures n < |names| && names[n] == name
  {
    n :| n < |names| && names[n] == name;
  }

  lemma BootChainSwapExact(es: seq<Entry>, names: seq<Name>, ufs: bool)
    requires names == Unskipped(PTN_SWAP_LIST, ufs) && AllApart(names)
    ensures ChainSwapped(es, SwapAll(es, names), ufs)
  {
    forall name, i, j | Swappable(name, ufs) && FirstTwo(es, name, i, j)
      ensures TakesHead(es, SwapAll(es, names), i, j) && TakesHead(es, SwapAll(es, names), j, i)
    {
      UnskippedIs(PTN_SWAP_LIST, ufs, name);
      var n := NameAt(names, name);
      SwapAllExact(es, names, n, i, j);
    }
    forall k | 0 <= k < |es| && !IsSwappable(es, k, ufs) ensures SwapAll(es, names)[k] == es[k] {
      forall n | 0 <= n < |names| ensures !IsTwin(es, names[n], k) {
        UnskippedIs(PTN_SWAP_LIST, ufs, names[n]);
        assert names[n] in names;
      }
      SwapAllOthers(es, names, k);
    }
  }

  lemma FindsTwinsIsHasPair(es: seq<Entry>, names: seq<Name>, ufs: bool)
    requires names == Unskipped(PTN_SWAP_LIST, ufs) && AllApart(names)
    ensures FindsTwins(es, names) <==> HasPair(es, ufs)
  {
    FindsTwinsAtOnce(es, names);
    if FindsTwins(es, names) {
      var n :| 0 <= n < |names| && HasTwins(es, Twins(es, names[n]));
      var p := Twins(es, names[n]);
      assert names[n] in names;
      UnskippedIs(PTN_SWAP_LIST, ufs, names[n]);
      TwinsAreFirstTwo(es, names[n], p.0, p.1);
    }
    if HasPair(es, ufs) {
      var name, i, j :| Swappable(name, ufs) && FirstTwo(es, name, i, j);
      UnskippedIs(PTN_SWAP_LIST, ufs, name);
      var n := NameAt(names, name);
      TwinsAreFirstTwo(es, name, i, j);
      assert HasTwins(es, Twins(es, names[n]));
    }
  }

  // The boot chain swap is a permutation of the entries and its own inverse, for every
  // entry array.
  lemma BootChainSwapInvolution(es: seq<Entry>, ufs: bool)
    ensures var names := Unskipped(PTN_SWAP_LIST, ufs);
      Permutes(es, SwapAll(es, names)) && SwapAll(SwapAll(es, names), names) == es
  {
    SwapListApart();
    UnskippedApart(PTN_SWAP_LIST, ufs);
    SwapAllTwice(es, Unskipped(PTN_SWAP_LIST, ufs));
    SwapAllPermutes(es, Unskipped(PTN_SWAP_LIST, ufs));
  }
}
