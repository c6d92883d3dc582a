/**
 The failsafe update of gpt-utils.cpp: three stages that switch the boot chain by
 rewriting the secondary table and by breaking and repairing header signatures, on a
 device whose power may fail in the middle of any write.
 */
module FailsafeUpdate {
  import opened Wrappers
  import opened ByteBuffers
  import opened GptHeader
  import opened GptEntries
  import opened EntryArray

  /* The two tables and writes to them. */

  datatype Tables = Tables(ph: Header, pa: Bytes, sh: Header, sa: Bytes)

  datatype Region = PrimaryHeader | PrimaryArray | SecondaryHeader | SecondaryArray

  datatype Write = Write(region: Region, data: Bytes)

  function At(v: Tables, r: Region): Bytes {
    match r
    case PrimaryHeader => v.ph
    case PrimaryArray => v.pa
    case SecondaryHeader => v.sh
    case SecondaryArray => v.sa
  }

  function Put(v: Tables, r: Region, data: Bytes): Tables
    requires |data| == |At(v, r)|
  {
    match r
    case PrimaryHeader => v.(ph := data)
    case PrimaryArray => v.(pa := data)
    case SecondaryHeader => v.(sh := data)
    case SecondaryArray => v.(sa := data)
  }

  predicate Fits(v: Tables, plan: seq<Write>) {
    forall i :: 0 <= i < |plan| ==> FitsIn(v, plan[i])
  }

  predicate FitsIn(v: Tables, w: Write) {
    |w.data| == |At(v, w.region)|
  }

  lemma FitsAll(v: Tables, a: Write, b: Write, c: Write)
    requires FitsIn(v, a) && FitsIn(v, b) && FitsIn(v, c)
    ensures Fits(v, [a, b]) && Fits(v, [a, b, c])
  {}

  // The power fails, or the write does, in write number at; tear says which bytes of it
  // have got through. No write fails if there are fewer.
  datatype Fault = Fault(at: nat, tear: nat -> bool)

  function Perform(v: Tables, plan: seq<Write>, f: Fault): Tables
    requires Fits(v, plan)
    decreases plan
  {
    if plan == [] then v
    else
      var w := plan[0];
      if f.at == 0 then Put(v, w.region, Mix(At(v, w.region), w.data, f.tear))
      else
        var v' := Put(v, w.region, w.data);
        assert forall i :: 0 <= i < |plan[1..]| ==> plan[1..][i] == plan[i + 1];
        Perform(v', plan[1..], f.(at := f.at - 1))
  }

  // A table that passes all its checks.
  predicate Whole(crc: Checksum, h: Header, arr: Bytes)
    requires HeaderSize(h) <= |h|
  {
    StateOf(crc, h) == Ok && Get4(h, ARRAY_CRC) == crc(arr)
  }

  // Header sizes that fit into the block, entries of at least 128 bytes, and a whole
  // number of them in both arrays.
  predicate WellFormed(v: Tables) {
    && HeaderSize(v.ph) <= |v.ph| && HeaderSize(v.sh) <= |v.sh|
    && EntrySize(v.ph) >= PTN_ENTRY_SIZE
    && |v.pa| == |v.sa| == Size(Get4(v.ph, COUNT), EntrySize(v.ph))
  }

  /* The stages. */

  datatype Stage = Main | Backup | Finalize

  function Number(s: Stage): int {
    match s
    case Main => 1
    case Backup => 2
    case Finalize => 3
  }

  // The stage the headers are in; nothing for the combinations that abort.
  function Derived(p: State, s: State): Option<Stage> {
    if p == BadCrc || s == BadCrc then None
    else if p == BadSignature && s == BadSignature then None
    else if p == Ok && s == Ok then Some(Main)
    else if p == BadSignature then Some(Backup)
    else Some(Finalize)
  }

  function StageOf(crc: Checksum, v: Tables): Option<Stage>
    requires WellFormed(v)
  {
    Derived(StateOf(crc, v.ph), StateOf(crc, v.sh))
  }

  // What a request returns when all its writes succeed, and the writes.
  datatype Outcome = Outcome(code: int, plan: seq<Write>)

  // The secondary table gets another array and is then the only good one.
  function MainWrites(crc: Checksum, v: Tables, arr: Bytes): (plan: seq<Write>)
    requires WellFormed(v) && |arr| == |v.sa|
    ensures Fits(v, plan)
  {
    var w0 := Write(SecondaryHeader, WithArray(crc, v.sh, arr));
    var w1 := Write(SecondaryArray, arr);
    var w2 := Write(PrimaryHeader, WithState(crc, v.ph, false));
    FitsAll(v, w0, w1, w2);
    [w0, w1, w2]
  }

  // The primary table is repaired and is then the only good one.
  function BackupWrites(crc: Checksum, v: Tables): (plan: seq<Write>)
    requires WellFormed(v)
    ensures Fits(v, plan)
  {
    var w0 := Write(PrimaryHeader, WithState(crc, v.ph, true));
    var w1 := Write(SecondaryHeader, WithState(crc, v.sh, false));
    FitsAll(v, w0, w1, w1);
    [w0, w1]
  }

  // The secondary table becomes a copy of the primary one and is repaired.
  function FinalizeWrites(crc: Checksum, v: Tables): (plan: seq<Write>)
    requires WellFormed(v)
    ensures Fits(v, plan)
  {
    var h := WithArray(crc, v.sh, v.pa);
    WithArrayFits(crc, v.sh, v.pa);
    var w0 := Write(SecondaryHeader, h);
    var w1 := Write(SecondaryArray, v.pa);
    var w2 := Write(SecondaryHeader, WithState(crc, h, true));
    FitsAll(v, w0, w1, w2);
    [w0, w1, w2]
  }

  // The entry array that boots the backup partitions, if there are any.
  function ChainOf(arr: Bytes, esz: nat, n: nat, names: seq<Name>, ufs: bool): (r: Option<Bytes>)
    requires esz >= PTN_ENTRY_SIZE && |arr| == Size(n, esz)
    ensures r.Some? ==> |r.value| == |arr|
  {
    if HasBackups(arr, esz, n, names, ufs) then Some(Swapped(arr, esz, n, names, ufs)) else None
  }

  function BackupChain(v: Tables, ufs: bool): (r: Option<Bytes>)
    requires WellFormed(v)
    ensures r.Some? ==> |r.value| == |v.pa|
  {
    ChainOf(v.pa, EntrySize(v.ph), Get4(v.ph, COUNT), PTN_SWAP_LIST, ufs)
  }

  predicate ArrayOk(crc: Checksum, v: Tables) {
    crc(v.pa) == Get4(v.ph, ARRAY_CRC)
  }

  // What the stage that is due does, given the array that boots the backup partitions.
  function Due(crc: Checksum, v: Tables, stage: Stage, chain: Option<Bytes>): (o: Outcome)
    requires WellFormed(v) && (chain.Some? ==> |chain.value| == |v.pa|)
    ensures Fits(v, o.plan)
  {
    match stage
    case Backup => Outcome(0, BackupWrites(crc, v))
    case Finalize => if ArrayOk(crc, v) then Outcome(0, FinalizeWrites(crc, v)) else Outcome(-1, [])
    case Main =>
      if !ArrayOk(crc, v) then Outcome(-1, [])
      else
        match chain
        case None => Outcome(0, [])
        case Some(arr) => Outcome(0, MainWrites(crc, v, arr))
  }

  // prepare_partitions: a stage is carried out when it is due, is already set when the
  // one after it is due, and is refused otherwise.
  function Prepare(crc: Checksum, v: Tables, stage: Stage, chain: Option<Bytes>): (o: Outcome)
    requires WellFormed(v) && (chain.Some? ==> |chain.value| == |v.pa|)
    ensures Fits(v, o.plan)
  {
    match StageOf(crc, v)
    case None => Outcome(-1, [])
    case Some(internal) =>
      if stage == internal then Due(crc, v, stage, chain)
      else if Number(stage) == Number(internal) - 1 then Outcome(0, [])
      else Outcome(-1, [])
  }

  // A request, its writes cut off by the fault.
  function Step(crc: Checksum, v: Tables, stage: Stage, ufs: bool, f: Fault): Tables
    requires WellFormed(v)
  {
    Perform(v, Prepare(crc, v, stage, BackupChain(v, ufs)).plan, f)
  }

  /* Crash safety. */

  // What no request and no fault changes, from the tables v0 at the start.
  ghost predicate Kept(v: Tables, v0: Tables) {
    && SameShape(v.ph, v0.ph) && SameShape(v.sh, v0.sh)
    && v.ph[ARRAY_CRC..ARRAY_CRC + 4] == v0.ph[ARRAY_CRC..ARRAY_CRC + 4]
    && v.pa == v0.pa && |v.sa| == |v0.sa|
  }

  predicate PrimaryWhole(crc: Checksum, v: Tables)
    requires WellFormed(v)
  {
    Whole(crc, v.ph, v.pa)
  }

  predicate SecondaryWhole(crc: Checksum, v: Tables)
    requires WellFormed(v)
  {
    Whole(crc, v.sh, v.sa)
  }

  ghost predicate Start(crc: Checksum, v0: Tables) {
    WellFormed(v0) && ArrayOk(crc, v0)
  }

  // One of the two tables passes all its checks.
  ghost predicate Safe(crc: Checksum, v: Tables, v0: Tables) {
    Start(crc, v0) && Kept(v, v0) && WellFormed(v) && (PrimaryWhole(crc, v) || SecondaryWhole(crc, v))
  }

  lemma KeptFields(crc: Checksum, v: Tables, v0: Tables)
    requires Start(crc, v0) && Kept(v, v0)
    ensures WellFormed(v) && ArrayOk(crc, v)
  {
    ShapeFields(v.ph, v0.ph, 1);
    ShapeFields(v.sh, v0.sh, 1);
    assert v.ph[80..84] == v0.ph[80..84];
  }

  lemma MixShape(h: Header, g: Header, tear: nat -> bool)
    requires SameShape(h, g)
    ensures |Mix(h, g, tear)| >= MIN_BLOCK && SameShape(Mix(h, g, tear), h)
    ensures h[88..92] == g[88..92] ==> Mix(h, g, tear)[88..92] == h[88..92]
  {
    var m := Mix(h, g, tear);
    if h[88..92] == g[88..92] {
      forall i | 88 <= i < 92 ensures m[i] == h[i] {
        assert h[i] == h[88..92][i - 88] && g[i] == g[88..92][i - 88];
      }
    }
  }

  // A write that keeps what is to be kept.
  ghost predicate Harmless(w: Write, v0: Tables) {
    match w.region
    case PrimaryHeader => |w.data| >= MIN_BLOCK && SameShape(w.data, v0.ph) && w.data[88..92] == v0.ph[88..92]
    case PrimaryArray => false
    case SecondaryHeader => |w.data| >= MIN_BLOCK && SameShape(w.data, v0.sh)
    case SecondaryArray => |w.data| == |v0.sa|
  }

  function One(v: Tables, w: Write): Tables
    requires FitsIn(v, w)
  {
    Put(v, w.region, w.data)
  }

  function Torn(v: Tables, w: Write, tear: nat -> bool): Tables
    requires FitsIn(v, w)
  {
    Put(v, w.region, Mix(At(v, w.region), w.data, tear))
  }

  lemma HarmlessKept(v: Tables, v0: Tables, w: Write, tear: nat -> bool)
    requires Kept(v, v0) && Harmless(w, v0)
    ensures FitsIn(v, w) && Kept(One(v, w), v0) && Kept(Torn(v, w, tear), v0)
  {
    if w.region.PrimaryHeader? {
      MixShape(v.ph, w.data, tear);
    } else if w.region.SecondaryHeader? {
      MixShape(v.sh, w.data, tear);
    }
  }

  predicate OfPrimary(r: Region) {
    r.PrimaryHeader? || r.PrimaryArray?
  }

  // The tables after all writes of a plan.
  function All(v: Tables, plan: seq<Write>): Tables
    requires Fits(v, plan)
    decreases plan
  {
    if plan == [] then v
    else
      assert forall i :: 0 <= i < |plan[1..]| ==> plan[1..][i] == plan[i + 1];
      All(One(v, plan[0]), plan[1..])
  }

  lemma AllOfOne(v: Tables, a: Write)
    requires FitsIn(v, a)
    ensures All(v, [a]) == One(v, a)
  {
    assert [a][1..] == [];
  }

  lemma AllOfTwo(v: Tables, a: Write, b: Write)
    requires FitsIn(v, a) && FitsIn(v, b)
    ensures FitsIn(One(v, a), b) && Fits(v, [a, b]) && All(v, [a, b]) == One(One(v, a), b)
  {
    assert [a, b][0] == a && [a, b][1] == b && [a, b][1..] == [b];
    AllOfOne(One(v, a), b);
  }

  // A plan for one table leaves the other alone, whether it is cut off or not.
  lemma {:induction false} OneSided(v: Tables, v0: Tables, plan: seq<Write>, f: Fault, primary: bool)
    requires Kept(v, v0) && forall i :: 0 <= i < |plan| ==>
      Harmless(plan[i], v0) && OfPrimary(plan[i].region) == primary
    ensures Fits(v, plan) && Kept(All(v, plan), v0) && Kept(Perform(v, plan, f), v0)
    ensures primary ==> Perform(v, plan, f).sh == v.sh && Perform(v, plan, f).sa == v.sa
    ensures !primary ==> Perform(v, plan, f).ph == v.ph
    decreases plan
  {
    if plan != [] {
      forall i | 0 <= i < |plan| ensures FitsIn(v, plan[i]) {
        HarmlessKept(v, v0, plan[i], f.tear);
      }
      HarmlessKept(v, v0, plan[0], f.tear);
      OneSided(One(v, plan[0]), v0, plan[1..], if f.at == 0 then f else f.(at := f.at - 1), primary);
    }
  }

  lemma {:induction false} PerformSplit(v: Tables, p: seq<Write>, q: seq<Write>, f: Fault)
    requires Fits(v, p + q) && Fits(v, p) && Fits(All(v, p), q)
    ensures Perform(v, p + q, f) == if f.at < |p| then Perform(v, p, f) else Perform(All(v, p), q, f.(at := f.at - |p|))
    decreases p
  {
    if p == [] {
      assert p + q == q;
    } else {
      assert (p + q)[0] == p[0] && (p + q)[1..] == p[1..] + q;
      if f.at > 0 {
        PerformSplit(One(v, p[0]), p[1..], q, f.(at := f.at - 1));
      }
    }
  }

  // Rewriting one table while the other is whole is safe ...
  lemma OneSidedSafe(crc: Checksum, v: Tables, v0: Tables, plan: seq<Write>, f: Fault, primary: bool)
    requires Start(crc, v0) && Kept(v, v0) && WellFormed(v)
    requires forall i :: 0 <= i < |plan| ==> Harmless(plan[i], v0) && OfPrimary(plan[i].region) == primary
    requires if primary then SecondaryWhole(crc, v) else PrimaryWhole(crc, v)
    ensures Fits(v, plan) && Safe(crc, Perform(v, plan, f), v0)
  {
    OneSided(v, v0, plan, f, primary);
    KeptFields(crc, Perform(v, plan, f), v0);
  }

  // ... and so is going on to the other one when the first is whole again.
  lemma TwoSidedSafe(crc: Checksum, v: Tables, v0: Tables, p: seq<Write>, q: seq<Write>, f: Fault, primary: bool)
    requires Start(crc, v0) && Kept(v, v0) && WellFormed(v) && Fits(v, p + q) && Fits(v, p)
    requires forall i :: 0 <= i < |p| ==> Harmless(p[i], v0) && OfPrimary(p[i].region) == primary
    requires forall i :: 0 <= i < |q| ==> Harmless(q[i], v0) && OfPrimary(q[i].region) != primary
    requires if primary then SecondaryWhole(crc, v) else PrimaryWhole(crc, v)
    requires WellFormed(All(v, p)) && if primary then PrimaryWhole(crc, All(v, p)) else SecondaryWhole(crc, All(v, p))
    ensures Safe(crc, Perform(v, p + q, f), v0)
  {
    OneSidedSafe(crc, v, v0, p, f, primary);
    OneSided(v, v0, p, f, primary);
    var f' := if f.at < |p| then f else f.(at := f.at - |p|);
    OneSidedSafe(crc, All(v, p), v0, q, f', !primary);
    PerformSplit(v, p, q, f);
  }

  // The order of the writes is safe whatever good headers are written.
  lemma MainOrder(crc: Checksum, v: Tables, v0: Tables, h: Header, arr: Bytes, g: Header, f: Fault)
    requires Safe(crc, v, v0) && PrimaryWhole(crc, v)
    requires SameShape(h, v.sh) && HeaderSize(h) <= |h| && Whole(crc, h, arr) && |arr| == |v.sa|
    requires SameShape(g, v.ph) && g[88..92] == v.ph[88..92]
    ensures var w := [Write(SecondaryHeader, h), Write(SecondaryArray, arr), Write(PrimaryHeader, g)];
      Fits(v, w) && Safe(crc, Perform(v, w, f), v0)
  {
    var w0, w1, w2 := Write(SecondaryHeader, h), Write(SecondaryArray, arr), Write(PrimaryHeader, g);
    FitsAll(v, w0, w1, w2);
    HarmlessKept(v, v0, w0, f.tear);
    HarmlessKept(One(v, w0), v0, w1, f.tear);
    AllOfTwo(v, w0, w1);
    KeptFields(crc, All(v, [w0, w1]), v0);
    assert [w0, w1] + [w2] == [w0, w1, w2];
    TwoSidedSafe(crc, v, v0, [w0, w1], [w2], f, false);
  }

  lemma BackupOrder(crc: Checksum, v: Tables, v0: Tables, g: Header, h: Header, f: Fault)
    requires Safe(crc, v, v0) && SecondaryWhole(crc, v)
    requires SameShape(g, v.ph) && HeaderSize(g) <= |g| && StateOf(crc, g) == Ok && g[88..92] == v.ph[88..92]
    requires SameShape(h, v.sh)
    ensures var w := [Write(PrimaryHeader, g), Write(SecondaryHeader, h)];
      Fits(v, w) && Safe(crc, Perform(v, w, f), v0)
  {
    var w0, w1 := Write(PrimaryHeader, g), Write(SecondaryHeader, h);
    FitsAll(v, w0, w1, w1);
    HarmlessKept(v, v0, w0, f.tear);
    AllOfOne(v, w0);
    KeptFields(crc, All(v, [w0]), v0);
    assert [w0] + [w1] == [w0, w1];
    TwoSidedSafe(crc, v, v0, [w0], [w1], f, true);
  }

  lemma FinalizeOrder(crc: Checksum, v: Tables, v0: Tables, h: Header, arr: Bytes, g: Header, f: Fault)
    requires Safe(crc, v, v0) && PrimaryWhole(crc, v)
    requires SameShape(h, v.sh) && SameShape(g, v.sh) && |arr| == |v.sa|
    ensures var w := [Write(SecondaryHeader, h), Write(SecondaryArray, arr), Write(SecondaryHeader, g)];
      Fits(v, w) && Safe(crc, Perform(v, w, f), v0)
  {
    OneSidedSafe(crc, v, v0, [Write(SecondaryHeader, h), Write(SecondaryArray, arr), Write(SecondaryHeader, g)], f,
      false);
  }

  lemma MainSafe(crc: Checksum, v: Tables, v0: Tables, arr: Bytes, plan: seq<Write>, f: Fault)
    requires Safe(crc, v, v0) && StateOf(crc, v.ph) == Ok && StateOf(crc, v.sh) == Ok && |arr| == |v.sa|
    requires plan == MainWrites(crc, v, arr)
    ensures Safe(crc, Perform(v, plan, f), v0)
  {
    KeptFields(crc, v, v0);
    WithArrayOk(crc, v.sh, arr);
    WithStateOk(crc, v.ph, false);
    MainOrder(crc, v, v0, WithArray(crc, v.sh, arr), arr, WithState(crc, v.ph, false), f);
  }

  lemma BackupSafe(crc: Checksum, v: Tables, v0: Tables, plan: seq<Write>, f: Fault)
    requires Safe(crc, v, v0) && StateOf(crc, v.ph) == BadSignature
    requires plan == BackupWrites(crc, v)
    ensures Safe(crc, Perform(v, plan, f), v0)
  {
    KeptFields(crc, v, v0);
    WithStateOk(crc, v.ph, true);
    WithStateOk(crc, v.sh, false);
    BackupOrder(crc, v, v0, WithState(crc, v.ph, true), WithState(crc, v.sh, false), f);
  }

  lemma FinalizeSafe(crc: Checksum, v: Tables, v0: Tables, plan: seq<Write>, f: Fault)
    requires Safe(crc, v, v0) && StateOf(crc, v.sh) == BadSignature
    requires plan == FinalizeWrites(crc, v)
    ensures Safe(crc, Perform(v, plan, f), v0)
  {
    KeptFields(crc, v, v0);
    var h := WithArray(crc, v.sh, v.pa);
    WithArrayOk(crc, v.sh, v.pa);
    WithStateOk(crc, h, true);
    FinalizeOrder(crc, v, v0, h, v.pa, WithState(crc, h, true), f);
  }

  lemma NoWritesSafe(crc: Checksum, v: Tables, v0: Tables, plan: seq<Write>, f: Fault)
    requires Safe(crc, v, v0) && plan == []
    ensures Safe(crc, Perform(v, plan, f), v0)
  {
    assert Perform(v, plan, f) == v;
  }

  lemma DueStates(crc: Checksum, v: Tables, stage: Stage)
    requires WellFormed(v) && StageOf(crc, v) == Some(stage)
    ensures stage == Main ==> StateOf(crc, v.ph) == Ok && StateOf(crc, v.sh) == Ok
    ensures stage == Backup ==> StateOf(crc, v.ph) == BadSignature
    ensures stage == Finalize ==> StateOf(crc, v.sh) == BadSignature
  {}

  lemma DueSafe(crc: Checksum, v: Tables, v0: Tables, stage: Stage, chain: Option<Bytes>, plan: seq<Write>, f: Fault)
    requires Safe(crc, v, v0) && StageOf(crc, v) == Some(stage)
    requires (chain.Some? ==> |chain.value| == |v.pa|) && plan == Due(crc, v, stage, chain).plan
    ensures Safe(crc, Perform(v, plan, f), v0)
  {
    DueStates(crc, v, stage);
    if plan == [] {
      NoWritesSafe(crc, v, v0, plan, f);
    } else {
      match stage
      case Main => MainSafe(crc, v, v0, chain.value, plan, f);
      case Backup => BackupSafe(crc, v, v0, plan, f);
      case Finalize => FinalizeSafe(crc, v, v0, plan, f);
    }
  }

  lemma PrepareSafe(crc: Checksum, v: Tables, v0: Tables, stage: Stage, chain: Option<Bytes>, plan: seq<Write>,
                    f: Fault)
    requires Safe(crc, v, v0)
    requires (chain.Some? ==> |chain.value| == |v.pa|) && plan == Prepare(crc, v, stage, chain).plan
    ensures Safe(crc, Perform(v, plan, f), v0)
  {
    if StageOf(crc, v) == Some(stage) {
      DueSafe(crc, v, v0, stage, chain, plan, f);
    } else {
      NoWritesSafe(crc, v, v0, plan, f);
    }
  }

  lemma StepSafe(crc: Checksum, v: Tables, v0: Tables, stage: Stage, ufs: bool, f: Fault)
    requires Safe(crc, v, v0)
    ensures Safe(crc, Step(crc, v, stage, ufs, f), v0)
  {
    var chain := BackupChain(v, ufs);
    PrepareSafe(crc, v, v0, stage, chain, Prepare(crc, v, stage, chain).plan, f);
  }

  datatype Request = Request(stage: Stage, ufs: bool, fault: Fault)

  function Run(crc: Checksum, v: Tables, v0: Tables, rs: seq<Request>): Tables
    requires Safe(crc, v, v0)
    decreases rs
  {
    if rs == [] then v
    else
      StepSafe(crc, v, v0, rs[0].stage, rs[0].ufs, rs[0].fault);
      Run(crc, Step(crc, v, rs[0].stage, rs[0].ufs, rs[0].fault), v0, rs[1..])
  }

  // Whatever is requested in whatever order, and wherever each request is cut off, even
  // in the middle of a write: one table is whole, the primary array is untouched, and
  // the headers still describe the same layout.
  lemma {:induction false} RunSafe(crc: Checksum, v: Tables, v0: Tables, rs: seq<Request>)
    requires Safe(crc, v, v0)
    ensures Safe(crc, Run(crc, v, v0, rs), v0)
    decreases rs
  {
    if rs != [] {
      var r := rs[0];
      StepSafe(crc, v, v0, r.stage, r.ufs, r.fault);
      RunSafe(crc, Step(crc, v, r.stage, r.ufs, r.fault), v0, rs[1..]);
    }
  }
}
