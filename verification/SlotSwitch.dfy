/**
 The A/B slots of boot_control.cpp on partition tables as lists of entries: the
 attribute bits of an entry, marking partitions active or inactive, and switching
 from one slot to the other.
 */
module SlotSwitch {
  import opened ByteBuffers
  import opened GptEntries

  const ACTIVE_VAL: byte := 0x3F

  /* Attribute bits. */

  datatype Attr = SlotActive | BootSuccessful | Unbootable

  function Mask(a: Attr): (m: byte)
    ensures m > 0
  {
    match a
    case SlotActive => 4
    case BootSuccessful => 64
    case Unbootable => 128
  }

  predicate Has(b: byte, a: Attr) {
    (b / Mask(a)) % 2 == 1
  }

  lemma AddActive(b: int, q: int, r: int)
    requires 0 <= b < 256 && b == 8 * q + r && 0 <= r < 8 && (b / 4) % 2 == 0
    ensures b + 4 < 256 && (b + 4) / 4 == b / 4 + 1 && (b + 4) / 64 == b / 64 && (b + 4) / 128 == b / 128
  {
    assert b / 4 == 2 * q + r / 4;
    assert r < 4;
    assert b / 64 == q / 8 && (b + 4) / 64 == q / 8;
    assert b / 128 == q / 16 && (b + 4) / 128 == q / 16;
  }

  lemma AddSuccessful(b: int, q: int, r: int)
    requires 0 <= b < 256 && b == 128 * q + r && 0 <= r < 128 && (b / 64) % 2 == 0
    ensures b + 64 < 256 && (b + 64) / 4 == b / 4 + 16 && (b + 64) / 64 == b / 64 + 1 && (b + 64) / 128 == b / 128
  {
    assert b / 64 == 2 * q + r / 64;
    assert r < 64;
  }

  lemma AddUnbootable(b: int)
    requires 0 <= b < 256 && (b / 128) % 2 == 0
    ensures b + 128 < 256 && (b + 128) / 4 == b / 4 + 32 && (b + 128) / 64 == b / 64 + 2 &&
      (b + 128) / 128 == b / 128 + 1
  {
    assert b / 128 == 0;
  }

  lemma SameParity(x: int, k: int)
    ensures (x + 2 * k) % 2 == x % 2 && (x + 1) % 2 != x % 2
  {}

  // Setting a bit that is not set changes no other.
  lemma AddBit(b: int, a: Attr, c: Attr)
    requires 0 <= b < 256 && !Has(b, a)
    ensures b + Mask(a) < 256 && (Has(b + Mask(a), c) <==> c == a || Has(b, c))
  {
    match a
    case SlotActive =>
      AddActive(b, b / 8, b % 8);
      SameParity(b / 4, 0);
    case BootSuccessful =>
      AddSuccessful(b, b / 128, b % 128);
      SameParity(b / 4, 8);
      SameParity(b / 64, 0);
    case Unbootable =>
      AddUnbootable(b);
      SameParity(b / 4, 16);
      SameParity(b / 64, 1);
      SameParity(b / 128, 0);
  }

  // The byte or'ed with the mask.
  function With(b: byte, a: Attr): (r: byte)
    ensures forall c :: Has(r, c) <==> c == a || Has(b, c)
  {
    WithBits(b, a);
    if Has(b, a) then b else b + Mask(a)
  }

  lemma WithBits(b: byte, a: Attr)
    ensures !Has(b, a) ==> b + Mask(a) < 256 && forall c :: Has(b + Mask(a), c) <==> c == a || Has(b, c)
  {
    if !Has(b, a) {
      forall c ensures b + Mask(a) < 256 && (Has(b + Mask(a), c) <==> c == a || Has(b, c)) {
        AddBit(b, a, c);
      }
    }
  }

  // The byte and'ed with the complement of the mask.
  function Without(b: byte, a: Attr): (r: byte)
    ensures forall c :: Has(r, c) <==> c != a && Has(b, c)
  {
    WithoutBits(b, a);
    if Has(b, a) then b - Mask(a) else b
  }

  lemma WithoutBits(b: byte, a: Attr)
    ensures Has(b, a) ==> b - Mask(a) >= 0 && forall c :: Has(b - Mask(a), c) <==> c != a && Has(b, c)
  {
    if Has(b, a) {
      BitBelow(b, a);
      WithBits(b - Mask(a), a);
    }
  }

  lemma BitBelow(b: byte, a: Attr)
    requires Has(b, a)
    ensures b - Mask(a) >= 0 && !Has(b - Mask(a), a)
  {
    var m := Mask(a);
    match a
    case SlotActive => assert (b - 4) / 4 == b / 4 - 1;
    case BootSuccessful => assert (b - 64) / 64 == b / 64 - 1;
    case Unbootable => assert (b - 128) / 128 == b / 128 - 1;
  }

  /* Entries. */

  function Guid(e: Entry): (g: Bytes)
    ensures |g| == 16
  {
    e[..GUID_SIZE]
  }

  type TypeGuid = g: Bytes | |g| == GUID_SIZE witness seq(GUID_SIZE, i => 0)

  // UPDATE_SLOT
  function SlotUpdated(e: Entry, guid: TypeGuid, active: bool): (r: Entry)
    ensures |r| == |e|
  {
    Splice(e, 0, guid)[FLAG := if active then ACTIVE_VAL else Without(e[FLAG], SlotActive)]
  }

  // The flag byte of an entry that has become active or inactive.
  function TurnedFlag(flag: byte, active: bool): byte {
    if active then 0x3F else if flag % 8 >= 4 then flag - 4 else flag
  }

  lemma TurnedFlagIs(flag: byte)
    ensures flag % 8 >= 4 <==> Has(flag, SlotActive)
    ensures Without(flag, SlotActive) == TurnedFlag(flag, false)
  {
    assert flag == 8 * (flag / 8) + flag % 8 && flag / 4 == 2 * (flag / 8) + (flag % 8) / 4;
  }

  // An active entry has no other mark, an inactive one keeps its other marks; all
  // bytes but the type and the flags stay.
  lemma SlotUpdatedIs(e: Entry, guid: TypeGuid, active: bool)
    ensures var r := SlotUpdated(e, guid, active);
      && Guid(r) == guid && EntryName(r) == EntryName(e)
      && (Has(r[FLAG], SlotActive) <==> active)
      && (active ==> !Has(r[FLAG], BootSuccessful) && !Has(r[FLAG], Unbootable))
      && (!active ==> forall c :: c != SlotActive ==> (Has(r[FLAG], c) <==> Has(e[FLAG], c)))
      && r[FLAG] == TurnedFlag(e[FLAG], active)
      && forall i :: GUID_SIZE <= i < |e| && i != FLAG ==> r[i] == e[i]
  {
    var r := SlotUpdated(e, guid, active);
    TurnedFlagIs(e[FLAG]);
    assert Name8(r) == Name8(e);
  }

  /* Marking listed partitions. */

  predicate Found(es: seq<Entry>, name: Name) {
    Seek(es, name, 0) < |es|
  }

  function Lookup(es: seq<Entry>, name: Name): (e: Entry)
    requires Found(es, name)
  {
    es[Seek(es, name, 0)]
  }

  // A partition to be marked and its new type.
  datatype Work = Work(name: Name, guid: TypeGuid)

  function Mark(es: seq<Entry>, w: Work, active: bool): (r: seq<Entry>)
    requires Found(es, w.name)
    ensures |r| == |es|
  {
    es[Seek(es, w.name, 0) := SlotUpdated(Lookup(es, w.name), w.guid, active)]
  }

  lemma MarkKeepsMatches(es: seq<Entry>, w: Work, active: bool, name: Name)
    requires Found(es, w.name)
    ensures Seek(Mark(es, w, active), name, 0) == Seek(es, name, 0)
    ensures Apart(w.name, name) && Found(es, name) ==> Lookup(Mark(es, w, active), name) == Lookup(es, name)
  {
    SlotUpdatedIs(Lookup(es, w.name), w.guid, active);
    SameSeek(es, Mark(es, w, active), name, 0);
    if Apart(w.name, name) && Found(es, name) {
      ApartMatches(w.name, name, Lookup(es, name));
    }
  }

  ghost predicate AllFound(es: seq<Entry>, ws: seq<Work>) {
    forall k :: 0 <= k < |ws| ==> Found(es, ws[k].name)
  }

  ghost predicate WorksApart(ws: seq<Work>) {
    forall j, k :: 0 <= j < k < |ws| ==> Apart(ws[j].name, ws[k].name)
  }

  lemma MarkKeepsFound(es: seq<Entry>, ws: seq<Work>, w: Work, active: bool)
    requires AllFound(es, ws) && Found(es, w.name)
    ensures AllFound(Mark(es, w, active), ws)
  {
    forall k | 0 <= k < |ws| ensures Found(Mark(es, w, active), ws[k].name) {
      MarkKeepsMatches(es, w, active, ws[k].name);
    }
  }

  function MarkAll(es: seq<Entry>, ws: seq<Work>, active: bool): (r: seq<Entry>)
    requires AllFound(es, ws)
    ensures |r| == |es|
    decreases ws
  {
    if ws == [] then es
    else
      MarkKeepsFound(es, ws[1..], ws[0], active);
      MarkAll(Mark(es, ws[0], active), ws[1..], active)
  }

  // Marking leaves every partition where it is and changes no other entry.
  lemma {:induction false} MarkAllKeeps(es: seq<Entry>, ws: seq<Work>, active: bool, name: Name)
    requires AllFound(es, ws)
    ensures Seek(MarkAll(es, ws, active), name, 0) == Seek(es, name, 0)
    ensures Found(es, name) && (forall k :: 0 <= k < |ws| ==> Apart(ws[k].name, name)) ==>
      Lookup(MarkAll(es, ws, active), name) == Lookup(es, name)
    decreases ws
  {
    if ws != [] {
      MarkKeepsMatches(es, ws[0], active, name);
      MarkKeepsFound(es, ws[1..], ws[0], active);
      MarkAllKeeps(Mark(es, ws[0], active), ws[1..], active, name);
    }
  }

  lemma {:induction false} MarkAllFrame(es: seq<Entry>, ws: seq<Work>, active: bool, i: nat)
    requires AllFound(es, ws) && i < |es|
    requires forall k :: 0 <= k < |ws| ==> Seek(es, ws[k].name, 0) != i
    ensures MarkAll(es, ws, active)[i] == es[i]
    decreases ws
  {
    if ws != [] {
      var fs := Mark(es, ws[0], active);
      MarkKeepsFound(es, ws[1..], ws[0], active);
      forall k | 0 <= k < |ws| - 1 ensures Seek(fs, ws[1..][k].name, 0) != i {
        MarkKeepsMatches(es, ws[0], active, ws[k + 1].name);
      }
      MarkAllFrame(fs, ws[1..], active, i);
    }
  }

  // Every listed partition is marked once.
  lemma {:induction false} MarkAllMarks(es: seq<Entry>, ws: seq<Work>, active: bool, k: nat)
    requires AllFound(es, ws) && WorksApart(ws) && k < |ws|
    ensures var name := ws[k].name;
      && Found(MarkAll(es, ws, active), name)
      && Lookup(MarkAll(es, ws, active), name) == SlotUpdated(Lookup(es, name), ws[k].guid, active)
    decreases ws
  {
    var name := ws[k].name;
    var fs, rest := Mark(es, ws[0], active), ws[1..];
    MarkKeepsFound(es, rest, ws[0], active);
    MarkKeepsMatches(es, ws[0], active, name);
    if k == 0 {
      forall j | 0 <= j < |rest| ensures Apart(rest[j].name, name) {
        assert rest[j] == ws[j + 1] && Apart(ws[0].name, ws[j + 1].name);
      }
      MarkAllKeeps(fs, rest, active, name);
    } else {
      assert Apart(ws[0].name, ws[k].name) && rest[k - 1] == ws[k];
      MarkAllMarks(fs, rest, active, k - 1);
    }
  }

  /* Switching. */

  // The primary and the backup table of a device.
  datatype Image = Image(prim: seq<Entry>, back: seq<Entry>)

  const SUFFIX_A := "_a"
  const SUFFIX_B := "_b"

  function Suffix(a: bool): Name {
    if a then SUFFIX_A else SUFFIX_B
  }

  predicate FoundIn(t: Image, name: Name) {
    Found(t.prim, name) && Found(t.back, name)
  }

  function MarkBoth(t: Image, w: Work, active: bool): Image
    requires FoundIn(t, w.name)
  {
    Image(Mark(t.prim, w, active), Mark(t.back, w, active))
  }

  // get_partition_attribute, which reads the primary table
  predicate Reports(t: Image, name: Name, a: Attr) {
    Found(t.prim, name) && Has(Lookup(t.prim, name)[FLAG], a)
  }

  datatype Switched = Refused | Switched(a: Image, b: Image)

  // One turn of the loop of boot_ctl_set_active_slot_for_partitions: types are taken
  // from the images a and b, what is active from the devices onA and onB.
  function SwitchOne(a: Image, b: Image, p: Name, slotA: bool, onA: Image, onB: Image): Switched {
    var nA, nB := p + SUFFIX_A, p + SUFFIX_B;
    if !FoundIn(a, nA) || !FoundIn(b, nB) then Refused
    else
      var gA, gB := Guid(Lookup(a.prim, nA)), Guid(Lookup(b.prim, nB));
      if Reports(onA, nA, SlotActive) then Marked(a, b, nA, nB, gA, gB, slotA)
      else if Reports(onB, nB, SlotActive) then Marked(a, b, nA, nB, gB, gA, slotA)
      else Refused
  }

  function Marked(a: Image, b: Image, nA: Name, nB: Name, active: TypeGuid, inactive: TypeGuid, slotA: bool): Switched
    requires FoundIn(a, nA) && FoundIn(b, nB)
  {
    if slotA then Switched(MarkBoth(a, Work(nA, active), true), MarkBoth(b, Work(nB, inactive), false))
    else Switched(MarkBoth(a, Work(nA, inactive), false), MarkBoth(b, Work(nB, active), true))
  }

  // The loop, over partition names with their suffix. present tells of which partitions
  // there are both versions; the others are passed over.
  function SwitchAll(a: Image, b: Image, parts: seq<Name>, present: Name -> bool, slotA: bool, onA: Image,
                     onB: Image): Switched
    decreases parts
  {
    if parts == [] then Switched(a, b)
    else if |parts[0]| < 3 then Refused
    else if !present(Prefix(parts[0])) then SwitchAll(a, b, parts[1..], present, slotA, onA, onB)
    else
      match SwitchOne(a, b, Prefix(parts[0]), slotA, onA, onB)
      case Refused => Refused
      case Switched(a', b') => SwitchAll(a', b', parts[1..], present, slotA, onA, onB)
  }

  function Prefix(part: Name): Name
    requires |part| >= 3
  {
    part[..|part| - 2]
  }

  predicate LongEnough(parts: seq<Name>) {
    forall k :: 0 <= k < |parts| ==> |parts[k]| >= 3
  }

  // The partitions that are switched.
  function Prefixes(parts: seq<Name>, present: Name -> bool): seq<Name>
    requires LongEnough(parts)
    decreases parts
  {
    if parts == [] then []
    else
      var rest := Prefixes(parts[1..], present);
      if present(Prefix(parts[0])) then [Prefix(parts[0])] + rest else rest
  }

  // Both versions are in both tables, and one of them is active.
  predicate Ready(onA: Image, onB: Image, p: Name) {
    && FoundIn(onA, p + SUFFIX_A) && FoundIn(onB, p + SUFFIX_B)
    && (Reports(onA, p + SUFFIX_A, SlotActive) || Reports(onB, p + SUFFIX_B, SlotActive))
  }

  // The type of the active version, or that of the other.
  function SlotGuid(onA: Image, onB: Image, p: Name, ofActive: bool): TypeGuid
    requires Ready(onA, onB, p)
  {
    if Reports(onA, p + SUFFIX_A, SlotActive) == ofActive then Guid(Lookup(onA.prim, p + SUFFIX_A))
    else Guid(Lookup(onB.prim, p + SUFFIX_B))
  }

  ghost predicate AllReady(onA: Image, onB: Image, ps: seq<Name>) {
    forall k :: 0 <= k < |ps| ==> Ready(onA, onB, ps[k])
  }

  // What is marked in the image of slot A, or in that of slot B.
  function Works(onA: Image, onB: Image, ps: seq<Name>, ofA: bool, slotA: bool): (ws: seq<Work>)
    requires AllReady(onA, onB, ps)
    ensures |ws| == |ps|
    ensures forall k :: 0 <= k < |ps| ==> ws[k] == Work(ps[k] + Suffix(ofA), SlotGuid(onA, onB, ps[k], ofA == slotA))
  {
    seq(|ps|, k requires 0 <= k < |ps| => Work(ps[k] + Suffix(ofA), SlotGuid(onA, onB, ps[k], ofA == slotA)))
  }

  ghost predicate Distinct(ps: seq<Name>) {
    forall j, k :: 0 <= j < k < |ps| ==> ps[j] != ps[k]
  }

  // Versions of different partitions, and the two versions of one, are different entries.
  lemma VersionsApart(p: Name, a: bool, q: Name, b: bool)
    requires p != q || a != b
    ensures Apart(p + Suffix(a), q + Suffix(b))
  {
    var m, n := p + Suffix(a), q + Suffix(b);
    assert m[|m| - 1] == (if a then 'a' else 'b') && n[|n| - 1] == (if b then 'a' else 'b');
    NoTwinOf(m, n);
    NoTwinOf(n, m);
    assert p == m[..|m| - 2] && q == n[..|n| - 2];
  }

  predicate AllFoundIn(t: Image, ws: seq<Work>) {
    forall k :: 0 <= k < |ws| ==> FoundIn(t, ws[k].name)
  }

  function MarkImage(t: Image, ws: seq<Work>, active: bool): Image
    requires AllFoundIn(t, ws)
  {
    Image(MarkAll(t.prim, ws, active), MarkAll(t.back, ws, active))
  }

  // The image still has a partition where the device has it, with the same type.
  ghost predicate Alike(t: Image, on: Image, name: Name) {
    && |t.prim| == |on.prim| && |t.back| == |on.back|
    && Seek(t.prim, name, 0) == Seek(on.prim, name, 0) && Seek(t.back, name, 0) == Seek(on.back, name, 0)
    && (Found(on.prim, name) ==> Lookup(t.prim, name) == Lookup(on.prim, name))
  }

  lemma MarkBothAlike(t: Image, on: Image, w: Work, active: bool, name: Name)
    requires FoundIn(t, w.name) && Alike(t, on, name) && Apart(w.name, name)
    ensures Alike(MarkBoth(t, w, active), on, name)
  {
    MarkKeepsMatches(t.prim, w, active, name);
    MarkKeepsMatches(t.back, w, active, name);
  }

  ghost predicate AllAlike(t: Image, on: Image, ps: seq<Name>, ofA: bool) {
    forall k :: 0 <= k < |ps| ==> Alike(t, on, ps[k] + Suffix(ofA))
  }

  lemma AlikeAfter(t: Image, on: Image, ps: seq<Name>, ofA: bool, w: Work, active: bool)
    requires Distinct(ps) && ps != [] && AllAlike(t, on, ps, ofA) && w.name == ps[0] + Suffix(ofA) && FoundIn(t, w.name)
    ensures AllAlike(MarkBoth(t, w, active), on, ps[1..], ofA)
  {
    forall k | 0 <= k < |ps| - 1 ensures Alike(MarkBoth(t, w, active), on, ps[1..][k] + Suffix(ofA)) {
      VersionsApart(ps[0], ofA, ps[k + 1], ofA);
      MarkBothAlike(t, on, w, active, ps[k + 1] + Suffix(ofA));
    }
  }

  // One turn marks both versions with the types that are on the devices.
  lemma SwitchOneIs(a: Image, b: Image, p: Name, slotA: bool, onA: Image, onB: Image)
    requires Alike(a, onA, p + SUFFIX_A) && Alike(b, onB, p + SUFFIX_B)
    ensures SwitchOne(a, b, p, slotA, onA, onB).Switched? <==> Ready(onA, onB, p)
    ensures Ready(onA, onB, p) ==>
      && FoundIn(a, p + SUFFIX_A) && FoundIn(b, p + SUFFIX_B)
      && SwitchOne(a, b, p, slotA, onA, onB) == Switched(
          MarkBoth(a, Work(p + SUFFIX_A, SlotGuid(onA, onB, p, slotA)), slotA),
          MarkBoth(b, Work(p + SUFFIX_B, SlotGuid(onA, onB, p, !slotA)), !slotA))
  {
  }

  lemma WorksTail(onA: Image, onB: Image, ps: seq<Name>, ofA: bool, slotA: bool)
    requires AllReady(onA, onB, ps) && ps != []
    ensures AllReady(onA, onB, ps[1..])
    ensures Works(onA, onB, ps, ofA, slotA)[0] == Work(ps[0] + Suffix(ofA), SlotGuid(onA, onB, ps[0], ofA == slotA))
    ensures Works(onA, onB, ps, ofA, slotA)[1..] == Works(onA, onB, ps[1..], ofA, slotA)
  {}

  lemma AlikeFound(t: Image, on: Image, ps: seq<Name>, ofA: bool, ws: seq<Work>)
    requires AllAlike(t, on, ps, ofA) && |ws| == |ps|
    requires forall k :: 0 <= k < |ps| ==> ws[k].name == ps[k] + Suffix(ofA) && FoundIn(on, ps[k] + Suffix(ofA))
    ensures AllFoundIn(t, ws)
  {
    forall k | 0 <= k < |ws| ensures FoundIn(t, ws[k].name) {
      assert Alike(t, on, ps[k] + Suffix(ofA));
    }
  }

  // The loop over the partitions that are switched marks each in its image, with the
  // types found on the devices; it goes through just when all of them are ready.
  function SwitchEach(a: Image, b: Image, ps: seq<Name>, slotA: bool, onA: Image, onB: Image): Switched
    decreases ps
  {
    if ps == [] then Switched(a, b)
    else
      match SwitchOne(a, b, ps[0], slotA, onA, onB)
      case Refused => Refused
      case Switched(a', b') => SwitchEach(a', b', ps[1..], slotA, onA, onB)
  }

  lemma {:induction false} SwitchAllIsEach(a: Image, b: Image, parts: seq<Name>, present: Name -> bool, slotA: bool,
                                           onA: Image, onB: Image)
    ensures LongEnough(parts) ==>
      SwitchAll(a, b, parts, present, slotA, onA, onB) == SwitchEach(a, b, Prefixes(parts, present), slotA, onA, onB)
    ensures !LongEnough(parts) ==> SwitchAll(a, b, parts, present, slotA, onA, onB) == Refused
    decreases parts
  {
    if parts != [] && |parts[0]| >= 3 {
      var rest := parts[1..];
      assert LongEnough(parts) <==> LongEnough(rest) by {
        assert forall k :: 0 <= k < |rest| ==> rest[k] == parts[k + 1];
        if LongEnough(rest) {
          forall k | 0 <= k < |parts| ensures |parts[k]| >= 3 {
            assert k > 0 ==> parts[k] == rest[k - 1];
          }
        }
      }
      var p := Prefix(parts[0]);
      if !present(p) {
        SwitchAllIsEach(a, b, rest, present, slotA, onA, onB);
      } else {
        if LongEnough(rest) {
          assert ([p] + Prefixes(rest, present))[1..] == Prefixes(rest, present);
        }
        match SwitchOne(a, b, p, slotA, onA, onB)
        case Refused =>
        case Switched(a', b') => SwitchAllIsEach(a', b', rest, present, slotA, onA, onB);
      }
    }
  }

  lemma ReadyTail(onA: Image, onB: Image, ps: seq<Name>)
    requires ps != []
    ensures AllReady(onA, onB, ps) <==> Ready(onA, onB, ps[0]) && AllReady(onA, onB, ps[1..])
  {
    assert forall k :: 0 <= k < |ps| - 1 ==> ps[1..][k] == ps[k + 1];
    if Ready(onA, onB, ps[0]) && AllReady(onA, onB, ps[1..]) {
      forall k | 0 <= k < |ps| ensures Ready(onA, onB, ps[k]) {
        assert k > 0 ==> ps[k] == ps[1..][k - 1];
      }
    }
  }

  lemma {:induction false} SwitchEachIs(a: Image, b: Image, ps: seq<Name>, slotA: bool, onA: Image, onB: Image)
    requires Distinct(ps) && AllAlike(a, onA, ps, true) && AllAlike(b, onB, ps, false)
    ensures SwitchEach(a, b, ps, slotA, onA, onB).Switched? <==> AllReady(onA, onB, ps)
    ensures AllReady(onA, onB, ps) ==>
      var wa, wb := Works(onA, onB, ps, true, slotA), Works(onA, onB, ps, false, slotA);
      && AllFoundIn(a, wa) && AllFoundIn(b, wb)
      && SwitchEach(a, b, ps, slotA, onA, onB) == Switched(MarkImage(a, wa, slotA), MarkImage(b, wb, !slotA))
    decreases ps
  {
    if ps != [] {
      var p, rest := ps[0], ps[1..];
      assert Alike(a, onA, p + Suffix(true)) && Alike(b, onB, p + Suffix(false));
      SwitchOneIs(a, b, p, slotA, onA, onB);
      ReadyTail(onA, onB, ps);
      if Ready(onA, onB, p) {
        var wA, wB := Work(p + SUFFIX_A, SlotGuid(onA, onB, p, slotA)),
          Work(p + SUFFIX_B, SlotGuid(onA, onB, p, !slotA));
        var a', b' := MarkBoth(a, wA, slotA), MarkBoth(b, wB, !slotA);
        AlikeAfter(a, onA, ps, true, wA, slotA);
        AlikeAfter(b, onB, ps, false, wB, !slotA);
        SwitchEachIs(a', b', rest, slotA, onA, onB);
        if AllReady(onA, onB, ps) {
          WorksTail(onA, onB, ps, true, slotA);
          WorksTail(onA, onB, ps, false, slotA);
          AlikeFound(a, onA, ps, true, Works(onA, onB, ps, true, slotA));
          AlikeFound(b, onB, ps, false, Works(onA, onB, ps, false, slotA));
        }
      }
    }
  }

  /* What a switch does. */

  // An entry has become active or inactive under a type: active means without any other
  // mark, inactive means with the other marks it had; nothing else of it has changed.
  ghost predicate Turned(e0: Entry, e: Entry, guid: TypeGuid, active: bool) {
    && |e| == |e0| && Guid(e) == guid && e[FLAG] == TurnedFlag(e0[FLAG], active)
    && (Has(e[FLAG], SlotActive) <==> active)
    && (forall c :: c != SlotActive ==> (Has(e[FLAG], c) <==> !active && Has(e0[FLAG], c)))
    && forall i :: GUID_SIZE <= i < |e| && i != FLAG ==> e[i] == e0[i]
  }

  ghost predicate TurnedIn(es0: seq<Entry>, es: seq<Entry>, name: Name, guid: TypeGuid, active: bool) {
    && |es| == |es0| && Found(es0, name) && Seek(es, name, 0) == Seek(es0, name, 0)
    && Turned(Lookup(es0, name), Lookup(es, name), guid, active)
  }

  // In both tables of both devices, the chosen version is active under the type of the
  // version that was active, and the other one is inactive under the other type.
  ghost predicate PairSwitched(a0: Image, b0: Image, a: Image, b: Image, p: Name, slotA: bool) {
    && Ready(a0, b0, p)
    && (var g := SlotGuid(a0, b0, p, slotA);
        TurnedIn(a0.prim, a.prim, p + SUFFIX_A, g, slotA) && TurnedIn(a0.back, a.back, p + SUFFIX_A, g, slotA))
    && (var g := SlotGuid(a0, b0, p, !slotA);
        TurnedIn(b0.prim, b.prim, p + SUFFIX_B, g, !slotA) && TurnedIn(b0.back, b.back, p + SUFFIX_B, g, !slotA))
  }

  // Every partition is where it was, and those that are not switched are as they were.
  ghost predicate OthersKept(es0: seq<Entry>, es: seq<Entry>, ps: seq<Name>, ofA: bool) {
    && |es| == |es0|
    && (forall name :: Seek(es, name, 0) == Seek(es0, name, 0))
    && forall i :: 0 <= i < |es| && !Hit(es0, ps, ofA, i) ==> es[i] == es0[i]
  }

  ghost predicate Hit(es0: seq<Entry>, ps: seq<Name>, ofA: bool, i: int) {
    exists k :: 0 <= k < |ps| && Seek(es0, ps[k] + Suffix(ofA), 0) == i
  }

  lemma MarkAllTurns(es: seq<Entry>, ws: seq<Work>, active: bool, k: nat)
    requires AllFound(es, ws) && WorksApart(ws) && k < |ws|
    ensures TurnedIn(es, MarkAll(es, ws, active), ws[k].name, ws[k].guid, active)
  {
    MarkAllMarks(es, ws, active, k);
    MarkAllKeeps(es, ws, active, ws[k].name);
    SlotUpdatedIs(Lookup(es, ws[k].name), ws[k].guid, active);
  }

  lemma MarkAllOthers(es: seq<Entry>, ws: seq<Work>, active: bool, ps: seq<Name>, ofA: bool)
    requires AllFound(es, ws) && |ws| == |ps| && forall k :: 0 <= k < |ps| ==> ws[k].name == ps[k] + Suffix(ofA)
    ensures OthersKept(es, MarkAll(es, ws, active), ps, ofA)
  {
    forall i | 0 <= i < |es| && !Hit(es, ps, ofA, i) ensures MarkAll(es, ws, active)[i] == es[i] {
      MarkAllFrame(es, ws, active, i);
    }
    forall name ensures Seek(MarkAll(es, ws, active), name, 0) == Seek(es, name, 0) {
      MarkAllKeeps(es, ws, active, name);
    }
  }

  lemma WorksAreApart(ws: seq<Work>, ps: seq<Name>, ofA: bool)
    requires Distinct(ps) && |ws| == |ps| && forall k :: 0 <= k < |ps| ==> ws[k].name == ps[k] + Suffix(ofA)
    ensures WorksApart(ws)
  {
    forall j, k | 0 <= j < k < |ws| ensures Apart(ws[j].name, ws[k].name) {
      VersionsApart(ps[j], ofA, ps[k], ofA);
    }
  }

  // The images after the loop, one by one.
  lemma MarkImageTurns(t: Image, ws: seq<Work>, active: bool, ps: seq<Name>, ofA: bool)
    requires AllFoundIn(t, ws) && Distinct(ps)
    requires |ws| == |ps| && forall k :: 0 <= k < |ps| ==> ws[k].name == ps[k] + Suffix(ofA)
    ensures var r := MarkImage(t, ws, active);
      && OthersKept(t.prim, r.prim, ps, ofA) && OthersKept(t.back, r.back, ps, ofA)
      && forall k :: 0 <= k < |ps| ==>
        && TurnedIn(t.prim, r.prim, ws[k].name, ws[k].guid, active)
        && TurnedIn(t.back, r.back, ws[k].name, ws[k].guid, active)
  {
    WorksAreApart(ws, ps, ofA);
    MarkAllOthers(t.prim, ws, active, ps, ofA);
    MarkAllOthers(t.back, ws, active, ps, ofA);
    forall k | 0 <= k < |ps|
      ensures TurnedIn(t.prim, MarkAll(t.prim, ws, active), ws[k].name, ws[k].guid, active)
      ensures TurnedIn(t.back, MarkAll(t.back, ws, active), ws[k].name, ws[k].guid, active)
    {
      MarkAllTurns(t.prim, ws, active, k);
      MarkAllTurns(t.back, ws, active, k);
    }
  }

  ghost predicate AllSwitched(a0: Image, b0: Image, a: Image, b: Image, ps: seq<Name>, slotA: bool) {
    && (forall k :: 0 <= k < |ps| ==> PairSwitched(a0, b0, a, b, ps[k], slotA))
    && OthersKept(a0.prim, a.prim, ps, true) && OthersKept(a0.back, a.back, ps, true)
    && OthersKept(b0.prim, b.prim, ps, false) && OthersKept(b0.back, b.back, ps, false)
  }

  lemma EachTurns(a0: Image, b0: Image, ps: seq<Name>, slotA: bool, wa: seq<Work>, wb: seq<Work>, a: Image, b: Image)
    requires Distinct(ps) && AllReady(a0, b0, ps)
    requires wa == Works(a0, b0, ps, true, slotA) && wb == Works(a0, b0, ps, false, slotA)
    requires AllFoundIn(a0, wa) && AllFoundIn(b0, wb) && a == MarkImage(a0, wa, slotA) && b == MarkImage(b0, wb, !slotA)
    ensures AllSwitched(a0, b0, a, b, ps, slotA)
  {
    MarkImageTurns(a0, wa, slotA, ps, true);
    MarkImageTurns(b0, wb, !slotA, ps, false);
    forall k | 0 <= k < |ps| ensures PairSwitched(a0, b0, a, b, ps[k], slotA) {
      assert Ready(a0, b0, ps[k]);
      assert wa[k].name == ps[k] + SUFFIX_A && wb[k].name == ps[k] + SUFFIX_B;
    }
  }

  // A switch goes through just when every pair is ready, and then every pair is
  // switched in its images and no other entry has changed. On two devices the images
  // are what they hold after the commits.
  lemma SwitchTurns(a0: Image, b0: Image, parts: seq<Name>, present: Name -> bool, slotA: bool)
    requires LongEnough(parts) && Distinct(Prefixes(parts, present))
    ensures var ps := Prefixes(parts, present); var r := SwitchAll(a0, b0, parts, present, slotA, a0, b0);
      && (r.Switched? <==> AllReady(a0, b0, ps))
      && (r.Switched? ==> AllSwitched(a0, b0, r.a, r.b, ps, slotA))
  {
    var ps := Prefixes(parts, present);
    SwitchAllIsEach(a0, b0, parts, present, slotA, a0, b0);
    SwitchEachIs(a0, b0, ps, slotA, a0, b0);
    if AllReady(a0, b0, ps) {
      var wa, wb := Works(a0, b0, ps, true, slotA), Works(a0, b0, ps, false, slotA);
      EachTurns(a0, b0, ps, slotA, wa, wb, MarkImage(a0, wa, slotA), MarkImage(b0, wb, !slotA));
    }
  }

  // A switched pair is ready again, with the chosen version active and the types
  // exchanged or not as it was active before or not.
  lemma ReadyAgain(a0: Image, b0: Image, a: Image, b: Image, p: Name, slotA: bool)
    requires PairSwitched(a0, b0, a, b, p, slotA)
    ensures Ready(a, b, p) && (Reports(a, p + SUFFIX_A, SlotActive) <==> slotA) &&
      (Reports(b, p + SUFFIX_B, SlotActive) <==> !slotA)
    ensures SlotGuid(a, b, p, true) == SlotGuid(a0, b0, p, true) &&
      SlotGuid(a, b, p, false) == SlotGuid(a0, b0, p, false)
  {}

  // The pair still has its two types, and has them as before if it is the active
  // version that is chosen.
  lemma TypesConserved(a0: Image, b0: Image, a: Image, b: Image, p: Name, slotA: bool)
    requires PairSwitched(a0, b0, a, b, p, slotA)
    ensures var gA0, gB0 := Guid(Lookup(a0.prim, p + SUFFIX_A)), Guid(Lookup(b0.prim, p + SUFFIX_B));
      var gA, gB := Guid(Lookup(a.prim, p + SUFFIX_A)), Guid(Lookup(b.prim, p + SUFFIX_B));
      && multiset{gA, gB} == multiset{gA0, gB0}
      && (Reports(a0, p + SUFFIX_A, SlotActive) == slotA ==> gA == gA0 && gB == gB0)
      && (Reports(a0, p + SUFFIX_A, SlotActive) != slotA ==> gA == gB0 && gB == gA0)
      && Guid(Lookup(a.back, p + SUFFIX_A)) == gA && Guid(Lookup(b.back, p + SUFFIX_B)) == gB
  {}

  // From one slot to the other and back: the second switch cannot be refused, and the
  // types are where they were.
  lemma ThereAndBack(a0: Image, b0: Image, parts: seq<Name>, present: Name -> bool, slotA: bool, k: nat)
    requires LongEnough(parts) && Distinct(Prefixes(parts, present)) && k < |Prefixes(parts, present)|
    requires SwitchAll(a0, b0, parts, present, !slotA, a0, b0).Switched?
    requires Reports(a0, Prefixes(parts, present)[k] + SUFFIX_A, SlotActive) == slotA
    ensures var r := SwitchAll(a0, b0, parts, present, !slotA, a0, b0);
      var q := SwitchAll(r.a, r.b, parts, present, slotA, r.a, r.b);
      var nA, nB := Prefixes(parts, present)[k] + SUFFIX_A, Prefixes(parts, present)[k] + SUFFIX_B;
      && q.Switched?
      && FoundIn(a0, nA) && FoundIn(b0, nB) && FoundIn(q.a, nA) && FoundIn(q.b, nB)
      && Guid(Lookup(q.a.prim, nA)) == Guid(Lookup(q.a.back, nA)) == Guid(Lookup(a0.prim, nA))
      && Guid(Lookup(q.b.prim, nB)) == Guid(Lookup(q.b.back, nB)) == Guid(Lookup(b0.prim, nB))
  {
    var ps := Prefixes(parts, present);
    var r := SwitchAll(a0, b0, parts, present, !slotA, a0, b0);
    SwitchTurns(a0, b0, parts, present, !slotA);
    forall j | 0 <= j < |ps| ensures Ready(r.a, r.b, ps[j]) {
      ReadyAgain(a0, b0, r.a, r.b, ps[j], !slotA);
    }
    SwitchTurns(r.a, r.b, parts, present, slotA);
    var q := SwitchAll(r.a, r.b, parts, present, slotA, r.a, r.b);
    BackAgain(a0, b0, r.a, r.b, q.a, q.b, ps[k], slotA);
  }

  lemma BackAgain(a0: Image, b0: Image, a1: Image, b1: Image, a2: Image, b2: Image, p: Name, slotA: bool)
    requires PairSwitched(a0, b0, a1, b1, p, !slotA) && PairSwitched(a1, b1, a2, b2, p, slotA)
    requires Reports(a0, p + SUFFIX_A, SlotActive) == slotA
    ensures Guid(Lookup(a2.prim, p + SUFFIX_A)) == Guid(Lookup(a2.back, p + SUFFIX_A)) ==
      Guid(Lookup(a0.prim, p + SUFFIX_A))
    ensures Guid(Lookup(b2.prim, p + SUFFIX_B)) == Guid(Lookup(b2.back, p + SUFFIX_B)) ==
      Guid(Lookup(b0.prim, p + SUFFIX_B))
  {
    ReadyAgain(a0, b0, a1, b1, p, !slotA);
    TypesConserved(a0, b0, a1, b1, p, !slotA);
    TypesConserved(a1, b1, a2, b2, p, slotA);
  }

  /* Both slots on one device. */

  // Exactly the chosen version is active.
  predicate Chosen(d: Image, p: Name, slotA: bool) {
    (Reports(d, p + SUFFIX_A, SlotActive) <==> slotA) && (Reports(d, p + SUFFIX_B, SlotActive) <==> !slotA)
  }

  lemma OtherSuffixKept(es0: seq<Entry>, es: seq<Entry>, ps: seq<Name>, p: Name)
    requires OthersKept(es0, es, ps, false) && Found(es0, p + SUFFIX_A)
    ensures Found(es, p + SUFFIX_A) && Lookup(es, p + SUFFIX_A) == Lookup(es0, p + SUFFIX_A)
  {
    var i := Seek(es0, p + SUFFIX_A, 0);
    forall k | 0 <= k < |ps| ensures Seek(es0, ps[k] + Suffix(false), 0) != i {
      VersionsApart(p, true, ps[k], false);
      ApartMatches(p + SUFFIX_A, ps[k] + SUFFIX_B, es0[i]);
    }
  }

  // An entry that a slot update would leave as it is.
  predicate Already(e: Entry, guid: TypeGuid, active: bool) {
    Guid(e) == guid && if active then e[FLAG] == 0x3F else !Has(e[FLAG], SlotActive)
  }

  lemma AlreadyTurned(e: Entry, guid: TypeGuid, active: bool)
    ensures Turned(e, e, guid, active) <==> Already(e, guid, active)
  {
    TurnedFlagIs(e[FLAG]);
    ActiveMarks();
  }

  lemma ActiveMarks()
    ensures Has(0x3F, SlotActive) && !Has(0x3F, BootSuccessful) && !Has(0x3F, Unbootable)
  {}

  // The commit of the second image takes back what the first one has changed: version A
  // is as it was in both tables. So a pair is switched just when version A has already
  // been all that it should become, in both tables.
  lemma SameDevice(d: Image, parts: seq<Name>, present: Name -> bool, slotA: bool, k: nat)
    requires LongEnough(parts) && Distinct(Prefixes(parts, present)) && k < |Prefixes(parts, present)|
    requires SwitchAll(d, d, parts, present, slotA, d, d).Switched?
    ensures var left := SwitchAll(d, d, parts, present, slotA, d, d).b; var p := Prefixes(parts, present)[k];
      && Ready(d, d, p) && AKept(d, left, p)
      && (PairSwitched(d, d, left, left, p, slotA) <==> AReady(d, p, slotA))
      && (Chosen(left, p, slotA) <==> Reports(d, p + SUFFIX_A, SlotActive) == slotA)
  {
    var ps := Prefixes(parts, present);
    SwitchTurns(d, d, parts, present, slotA);
    var r := SwitchAll(d, d, parts, present, slotA, d, d);
    OnlyBTurned(d, r.a, r.b, ps, ps[k], slotA);
  }

  // Version A is the same entry in both tables.
  ghost predicate AKept(d: Image, left: Image, p: Name) {
    && FoundIn(d, p + SUFFIX_A) && FoundIn(left, p + SUFFIX_A)
    && Lookup(left.prim, p + SUFFIX_A) == Lookup(d.prim, p + SUFFIX_A)
    && Lookup(left.back, p + SUFFIX_A) == Lookup(d.back, p + SUFFIX_A)
  }

  // Version A is what it should become, in both tables.
  predicate AReady(d: Image, p: Name, slotA: bool)
    requires Ready(d, d, p)
  {
    var g := SlotGuid(d, d, p, slotA);
    Already(Lookup(d.prim, p + SUFFIX_A), g, slotA) && Already(Lookup(d.back, p + SUFFIX_A), g, slotA)
  }

  lemma OnlyBTurned(d: Image, a: Image, b: Image, ps: seq<Name>, p: Name, slotA: bool)
    requires PairSwitched(d, d, a, b, p, slotA)
    requires OthersKept(d.prim, b.prim, ps, false) && OthersKept(d.back, b.back, ps, false)
    ensures AKept(d, b, p)
    ensures PairSwitched(d, d, b, b, p, slotA) <==> AReady(d, p, slotA)
    ensures Chosen(b, p, slotA) <==> Reports(d, p + SUFFIX_A, SlotActive) == slotA
  {
    OtherSuffixKept(d.prim, b.prim, ps, p);
    OtherSuffixKept(d.back, b.back, ps, p);
    var g := SlotGuid(d, d, p, slotA);
    AlreadyTurned(Lookup(d.prim, p + SUFFIX_A), g, slotA);
    AlreadyTurned(Lookup(d.back, p + SUFFIX_A), g, slotA);
  }

  // A boot pair with these flags, the same in both tables.
  function BootPair(flagsA: byte, flagsB: byte): Image {
    var es := [NewEntry("boot_a", 1, flagsA), NewEntry("boot_b", 2, flagsB)];
    Image(es, es)
  }

  lemma BootPairFound(flagsA: byte, flagsB: byte)
    ensures var d := BootPair(flagsA, flagsB);
      && "boot" + SUFFIX_A == "boot_a" && "boot" + SUFFIX_B == "boot_b"
      && FoundIn(d, "boot_a") && Lookup(d.prim, "boot_a") == d.prim[0]
      && FoundIn(d, "boot_b") && Lookup(d.prim, "boot_b") == d.prim[1]
  {
    var es := BootPair(flagsA, flagsB).prim;
    assert Matches("boot_a", es[0]) && Matches("boot_b", es[1]);
    assert !Matches("boot_b", es[0]) by {
      VersionsApart("boot", true, "boot", false);
      ApartMatches("boot_a", "boot_b", es[0]);
    }
  }

  lemma BootParts(part: Name, present: Name -> bool)
    requires (part == "boot_a" || part == "boot_b") && present("boot")
    ensures LongEnough([part]) && Prefixes([part], present) == ["boot"]
  {
    assert [part][1..] == [] && Prefix(part) == "boot";
  }

  // A switch of a boot pair on one device.
  lemma BootSwitch(d: Image, part: Name, present: Name -> bool, slotA: bool, r: Switched)
    requires (part == "boot_a" || part == "boot_b") && present("boot") && Ready(d, d, "boot")
    requires r == SwitchAll(d, d, [part], present, slotA, d, d)
    ensures r.Switched? && PairSwitched(d, d, r.a, r.b, "boot", slotA) && AKept(d, r.b, "boot")
    ensures PairSwitched(d, d, r.b, r.b, "boot", slotA) <==> AReady(d, "boot", slotA)
    ensures Chosen(r.b, "boot", slotA) <==> Reports(d, "boot" + SUFFIX_A, SlotActive) == slotA
  {
    BootParts(part, present);
    var ps := Prefixes([part], present);
    assert ps[0] == "boot";
    SwitchTurns(d, d, [part], present, slotA);
    SameDevice(d, [part], present, slotA, 0);
    assert PairSwitched(d, d, r.a, r.b, ps[0], slotA);
  }

  // So a switch to slot B from slot A on one device leaves both versions active, and
  // both under the type of the active one, ...
  lemma BothStayActive(d: Image, present: Name -> bool, r: Switched)
    requires present("boot") && FoundIn(d, "boot_a") && FoundIn(d, "boot_b") && Reports(d, "boot_a", SlotActive)
    requires r == SwitchAll(d, d, ["boot_b"], present, false, d, d)
    ensures r.Switched? && Reports(r.b, "boot_a", SlotActive) && Reports(r.b, "boot_b", SlotActive)
    ensures Guid(Lookup(r.b.prim, "boot_a")) == Guid(Lookup(r.b.prim, "boot_b"))
  {
    assert "boot" + SUFFIX_A == "boot_a" && "boot" + SUFFIX_B == "boot_b";
    BootSwitch(d, "boot_b", present, false, r);
  }

  // ... and a switch to slot A, active but marked unbootable, leaves it unbootable.
  lemma StaysUnbootable(d: Image, present: Name -> bool, r: Switched)
    requires present("boot") && FoundIn(d, "boot_a") && FoundIn(d, "boot_b")
    requires Reports(d, "boot_a", SlotActive) && Reports(d, "boot_a", Unbootable)
    requires r == SwitchAll(d, d, ["boot_a"], present, true, d, d)
    ensures r.Switched? && Chosen(r.b, "boot", true) && Reports(r.b, "boot_a", Unbootable)
    ensures !PairSwitched(d, d, r.b, r.b, "boot", true)
  {
    assert "boot" + SUFFIX_A == "boot_a" && "boot" + SUFFIX_B == "boot_b";
    BootSwitch(d, "boot_a", present, true, r);
  }

  lemma BootPairReports(d: Image, flagsA: byte, flagsB: byte, a: Attr)
    requires d == BootPair(flagsA, flagsB)
    ensures FoundIn(d, "boot_a") && FoundIn(d, "boot_b") && (Reports(d, "boot_a", a) <==> Has(flagsA, a))
  {
    BootPairFound(flagsA, flagsB);
  }

  // Concrete devices of both kinds.
  lemma SameDeviceLosesSwitch(d: Image, present: Name -> bool, r: Switched)
    requires present("boot") && d == BootPair(ACTIVE_VAL, 0)
    requires r == SwitchAll(d, d, ["boot_b"], present, false, d, d)
    ensures r.Switched? && Reports(r.b, "boot_a", SlotActive) && Reports(r.b, "boot_b", SlotActive)
    ensures Guid(Lookup(r.b.prim, "boot_a")) == Guid(Lookup(r.b.prim, "boot_b"))
  {
    BootPairReports(d, ACTIVE_VAL, 0, SlotActive);
    BothStayActive(d, present, r);
  }

  lemma SameDeviceStaysUnbootable(d: Image, present: Name -> bool, r: Switched)
    requires present("boot") && d == BootPair(0x84, 0)
    requires r == SwitchAll(d, d, ["boot_a"], present, true, d, d)
    ensures r.Switched? && Chosen(r.b, "boot", true) && Reports(r.b, "boot_a", Unbootable)
    ensures !PairSwitched(d, d, r.b, r.b, "boot", true)
  {
    BootPairReports(d, 0x84, 0, SlotActive);
    BootPairReports(d, 0x84, 0, Unbootable);
    StaysUnbootable(d, present, r);
  }
}
