/**
 Resuming the failsafe update. Where a header block is written all at once or not at
 all, every power cut leaves headers from which the stage that is due is derived, and
 the stages from there on bring both tables back.
 */
module FailsafeResume {
  import opened Wrappers
  import opened ByteBuffers
  import opened GptHeader
  import opened GptEntries
  import opened EntryArray
  import opened FailsafeUpdate

  /* Writes that are all or nothing. */

  predicate OfHeader(r: Region) {
    r.PrimaryHeader? || r.SecondaryHeader?
  }

  ghost predicate AllOrNothing(tear: nat -> bool) {
    (forall i :: tear(i)) || (forall i :: !tear(i))
  }

  // The fault does not tear a header.
  ghost predicate Atomic(plan: seq<Write>, f: Fault) {
    f.at < |plan| && OfHeader(plan[f.at].region) ==> AllOrNothing(f.tear)
  }

  lemma TornAtomic(v: Tables, w: Write, tear: nat -> bool)
    requires FitsIn(v, w) && AllOrNothing(tear)
    ensures Torn(v, w, tear) == v || Torn(v, w, tear) == One(v, w)
  {
    var m := Mix(At(v, w.region), w.data, tear);
    if forall i :: tear(i) {
      assert m == w.data;
    } else {
      assert m == At(v, w.region);
    }
  }

  lemma CutOfOne(v: Tables, a: Write, f: Fault)
    requires FitsIn(v, a)
    ensures Perform(v, [a], f) == if f.at == 0 then Torn(v, a, f.tear) else One(v, a)
  {
    assert [a][1..] == [];
  }

  lemma CutOfTwo(v: Tables, a: Write, b: Write, f: Fault)
    requires FitsIn(v, a) && FitsIn(v, b)
    ensures FitsIn(One(v, a), b) && Fits(v, [a, b])
    ensures Perform(v, [a, b], f) ==
      if f.at == 0 then Torn(v, a, f.tear)
      else if f.at == 1 then Torn(One(v, a), b, f.tear)
      else One(One(v, a), b)
  {
    assert [a, b][0] == a && [a, b][1] == b && [a, b][1..] == [b];
    if f.at > 0 {
      CutOfOne(One(v, a), b, f.(at := f.at - 1));
    }
  }

  lemma CutOfThree(v: Tables, a: Write, b: Write, c: Write, f: Fault)
    requires FitsIn(v, a) && FitsIn(v, b) && FitsIn(v, c)
    ensures FitsIn(One(v, a), b) && FitsIn(One(One(v, a), b), c) && Fits(v, [a, b, c])
    ensures Perform(v, [a, b, c], f) ==
      if f.at == 0 then Torn(v, a, f.tear)
      else if f.at == 1 then Torn(One(v, a), b, f.tear)
      else if f.at == 2 then Torn(One(One(v, a), b), c, f.tear)
      else One(One(One(v, a), b), c)
  {
    FitsAll(v, a, b, c);
    assert [a, b, c][0] == a && [a, b, c][1..] == [b, c];
    if f.at > 0 {
      CutOfTwo(One(v, a), b, c, f.(at := f.at - 1));
    }
  }

  /* What every cut leaves. */

  ghost predicate GoodStart(crc: Checksum, v0: Tables) {
    WellFormed(v0) && PrimaryWhole(crc, v0) && StateOf(crc, v0.sh) != BadCrc
  }

  // The primary table is the one of the start, or that with its signature broken and
  // then the secondary table is whole; the secondary header has a good checksum.
  ghost predicate Resumable(crc: Checksum, v: Tables, v0: Tables) {
    && GoodStart(crc, v0) && WellFormed(v)
    && v.pa == v0.pa && |v.sa| == |v0.sa| && SameShape(v.sh, v0.sh)
    && StateOf(crc, v.sh) != BadCrc
    && (v.ph == v0.ph || (v.ph == WithState(crc, v0.ph, false) && SecondaryWhole(crc, v)))
  }

  lemma BrokenShape(crc: Checksum, h: Header, b: Header)
    requires HeaderSize(h) <= |h| && b == WithState(crc, h, false)
    ensures |b| == |h| && HeaderSize(b) == HeaderSize(h) && EntrySize(b) == EntrySize(h) &&
      Get4(b, COUNT) == Get4(h, COUNT)
    ensures StateOf(crc, b) == BadSignature && Get4(b, ARRAY_CRC) == Get4(h, ARRAY_CRC)
  {
    WithStateOk(crc, h, false);
    ShapeFields(b, h, 1);
    assert b[80..84] == h[80..84];
  }

  // So a stage is due in it, and which one it is tells the case.
  lemma ResumableStage(crc: Checksum, v: Tables, v0: Tables)
    requires Resumable(crc, v, v0)
    ensures StageOf(crc, v).Some? && ArrayOk(crc, v)
    ensures StageOf(crc, v) == Some(Backup) <==> v.ph != v0.ph
    ensures StageOf(crc, v) == Some(Main) <==> v.ph == v0.ph && StateOf(crc, v.sh) == Ok
    ensures PrimaryWhole(crc, v) || SecondaryWhole(crc, v)
  {
    if v.ph != v0.ph {
      BrokenStage(crc, v, v0);
    } else {
      StageByStates(crc, v, Ok, StateOf(crc, v.sh));
    }
  }

  lemma BrokenFacts(crc: Checksum, v: Tables, v0: Tables)
    requires Resumable(crc, v, v0) && v.ph != v0.ph
    ensures StateOf(crc, v.ph) == BadSignature && Get4(v.ph, ARRAY_CRC) == Get4(v0.ph, ARRAY_CRC)
    ensures SecondaryWhole(crc, v) && v.pa == v0.pa && crc(v0.pa) == Get4(v0.ph, ARRAY_CRC)
  {
    BrokenShape(crc, v0.ph, v.ph);
  }

  lemma BrokenStage(crc: Checksum, v: Tables, v0: Tables)
    requires Resumable(crc, v, v0) && v.ph != v0.ph
    ensures StageOf(crc, v) == Some(Backup) && ArrayOk(crc, v) && SecondaryWhole(crc, v)
  {
    BrokenFacts(crc, v, v0);
    StageOfBroken(crc, v);
  }

  lemma StageOfBroken(crc: Checksum, v: Tables)
    requires WellFormed(v) && StateOf(crc, v.ph) == BadSignature && StateOf(crc, v.sh) == Ok
    ensures StageOf(crc, v) == Some(Backup)
  {}

  lemma StageByStates(crc: Checksum, v: Tables, p: State, s: State)
    requires WellFormed(v) && StateOf(crc, v.ph) == p && StateOf(crc, v.sh) == s
    ensures StageOf(crc, v) == Derived(p, s)
  {}

  lemma ResumableWith(crc: Checksum, v: Tables, v0: Tables, w: Tables)
    requires Resumable(crc, v, v0) && v.ph == v0.ph
    requires w.pa == v.pa && |w.sa| == |v.sa| && SameShape(w.sh, v.sh)
    requires HeaderSize(w.sh) <= |w.sh| && StateOf(crc, w.sh) != BadCrc && w.ph == v0.ph
    ensures Resumable(crc, w, v0)
  {
  }

  lemma ResumableBroken(crc: Checksum, v: Tables, v0: Tables, w: Tables)
    requires Resumable(crc, v, v0) && v.ph == v0.ph
    requires w.ph == WithState(crc, v0.ph, false) && w.pa == v.pa && |w.sa| == |v.sa| && SameShape(w.sh, v.sh)
    requires HeaderSize(w.sh) <= |w.sh| && Whole(crc, w.sh, w.sa)
    ensures Resumable(crc, w, v0)
  {
    BrokenShape(crc, v0.ph, w.ph);
  }

  lemma ResumableRepaired(crc: Checksum, v: Tables, v0: Tables, w: Tables)
    requires Resumable(crc, v, v0) && w == v.(ph := v0.ph)
    ensures Resumable(crc, w, v0)
  {
  }

  lemma PrimaryFits(crc: Checksum, v: Tables, v0: Tables)
    requires Resumable(crc, v, v0)
    ensures |v.ph| == |v0.ph|
  {
  }

  lemma MainResumes(crc: Checksum, v: Tables, v0: Tables, h: Header, arr: Bytes, g: Header, plan: seq<Write>, f: Fault)
    requires Resumable(crc, v, v0) && v.ph == v0.ph
    requires SameShape(h, v.sh) && HeaderSize(h) <= |h| && Whole(crc, h, arr) && |arr| == |v.sa|
    requires g == WithState(crc, v0.ph, false)
    requires plan == [Write(SecondaryHeader, h), Write(SecondaryArray, arr), Write(PrimaryHeader, g)] && Atomic(plan, f)
    ensures Fits(v, plan) && Resumable(crc, Perform(v, plan, f), v0)
  {
    var a, b, c := Write(SecondaryHeader, h), Write(SecondaryArray, arr), Write(PrimaryHeader, g);
    CutOfThree(v, a, b, c, f);
    var v1 := One(v, a);
    ResumableWith(crc, v, v0, v1);
    var v2 := One(v1, b);
    ResumableWith(crc, v1, v0, v2);
    ResumableBroken(crc, v2, v0, One(v2, c));
    if f.at == 0 {
      TornAtomic(v, a, f.tear);
    } else if f.at == 1 {
      ResumableWith(crc, v1, v0, Torn(v1, b, f.tear));
    } else if f.at == 2 {
      TornAtomic(v2, c, f.tear);
    }
  }

  lemma BackupResumes(crc: Checksum, v: Tables, v0: Tables, g: Header, h: Header, plan: seq<Write>, f: Fault)
    requires Resumable(crc, v, v0) && g == v0.ph
    requires SameShape(h, v.sh) && HeaderSize(h) <= |h| && StateOf(crc, h) != BadCrc
    requires plan == [Write(PrimaryHeader, g), Write(SecondaryHeader, h)] && Atomic(plan, f)
    ensures Fits(v, plan) && Resumable(crc, Perform(v, plan, f), v0)
  {
    PrimaryFits(crc, v, v0);
    var a, b := Write(PrimaryHeader, g), Write(SecondaryHeader, h);
    CutOfTwo(v, a, b, f);
    var v1 := One(v, a);
    ResumableRepaired(crc, v, v0, v1);
    ResumableWith(crc, v1, v0, One(v1, b));
    if f.at == 0 {
      TornAtomic(v, a, f.tear);
    } else if f.at == 1 {
      TornAtomic(v1, b, f.tear);
    }
  }

  lemma FinalizeResumes(crc: Checksum, v: Tables, v0: Tables, h: Header, arr: Bytes, g: Header, plan: seq<Write>,
                        f: Fault)
    requires Resumable(crc, v, v0) && v.ph == v0.ph
    requires SameShape(h, v.sh) && HeaderSize(h) <= |h| && StateOf(crc, h) != BadCrc && |arr| == |v.sa|
    requires SameShape(g, v.sh) && HeaderSize(g) <= |g| && StateOf(crc, g) != BadCrc
    requires plan == [Write(SecondaryHeader, h), Write(SecondaryArray, arr), Write(SecondaryHeader, g)] &&
      Atomic(plan, f)
    ensures Fits(v, plan) && Resumable(crc, Perform(v, plan, f), v0)
  {
    var a, b, c := Write(SecondaryHeader, h), Write(SecondaryArray, arr), Write(SecondaryHeader, g);
    CutOfThree(v, a, b, c, f);
    var v1 := One(v, a);
    ResumableWith(crc, v, v0, v1);
    var v2 := One(v1, b);
    ResumableWith(crc, v1, v0, v2);
    ResumableWith(crc, v2, v0, One(v2, c));
    if f.at == 0 {
      TornAtomic(v, a, f.tear);
    } else if f.at == 1 {
      ResumableWith(crc, v1, v0, Torn(v1, b, f.tear));
    } else if f.at == 2 {
      TornAtomic(v2, c, f.tear);
    }
  }

  lemma DueResumes(crc: Checksum, v: Tables, v0: Tables, stage: Stage, chain: Option<Bytes>, plan: seq<Write>, f: Fault)
    requires Resumable(crc, v, v0) && StageOf(crc, v) == Some(stage)
    requires (chain.Some? ==> |chain.value| == |v.pa|) && plan == Due(crc, v, stage, chain).plan && Atomic(plan, f)
    ensures Resumable(crc, Perform(v, plan, f), v0)
  {
    ResumableStage(crc, v, v0);
    if plan == [] {
      assert Perform(v, plan, f) == v;
    } else {
      match stage
      case Main =>
        WithArrayOk(crc, v.sh, chain.value);
        MainResumes(crc, v, v0, WithArray(crc, v.sh, chain.value), chain.value, WithState(crc, v.ph, false), plan, f);
      case Backup =>
        BreakAndRepair(crc, v0.ph);
        WithStateOk(crc, v.sh, false);
        BackupResumes(crc, v, v0, WithState(crc, v.ph, true), WithState(crc, v.sh, false), plan, f);
      case Finalize =>
        var h := WithArray(crc, v.sh, v.pa);
        WithArrayOk(crc, v.sh, v.pa);
        WithStateOk(crc, h, true);
        FinalizeResumes(crc, v, v0, h, v.pa, WithState(crc, h, true), plan, f);
    }
  }

  lemma StepResumes(crc: Checksum, v: Tables, v0: Tables, stage: Stage, chain: Option<Bytes>, plan: seq<Write>,
                    f: Fault)
    requires Resumable(crc, v, v0)
    requires (chain.Some? ==> |chain.value| == |v.pa|) && plan == Prepare(crc, v, stage, chain).plan && Atomic(plan, f)
    ensures Resumable(crc, Perform(v, plan, f), v0)
  {
    if StageOf(crc, v) == Some(stage) {
      DueResumes(crc, v, v0, stage, chain, plan, f);
    } else {
      assert plan == [] && Perform(v, plan, f) == v;
    }
  }

  // No request of the run has a header torn.
  ghost predicate AtomicRun(crc: Checksum, v: Tables, v0: Tables, rs: seq<Request>)
    requires Safe(crc, v, v0)
    decreases rs
  {
    rs != [] ==>
      var r := rs[0];
      StepSafe(crc, v, v0, r.stage, r.ufs, r.fault);
      && Atomic(Prepare(crc, v, r.stage, BackupChain(v, r.ufs)).plan, r.fault)
      && AtomicRun(crc, Step(crc, v, r.stage, r.ufs, r.fault), v0, rs[1..])
  }

  // Whatever is requested in whatever order and wherever each request is cut off: the
  // tables can be resumed.
  lemma {:induction false} RunResumes(crc: Checksum, v: Tables, v0: Tables, rs: seq<Request>)
    requires Resumable(crc, v, v0) && Safe(crc, v, v0) && AtomicRun(crc, v, v0, rs)
    ensures Resumable(crc, Run(crc, v, v0, rs), v0)
    decreases rs
  {
    if rs != [] {
      var r := rs[0];
      var chain := BackupChain(v, r.ufs);
      StepResumes(crc, v, v0, r.stage, chain, Prepare(crc, v, r.stage, chain).plan, r.fault);
      StepSafe(crc, v, v0, r.stage, r.ufs, r.fault);
      RunResumes(crc, Step(crc, v, r.stage, r.ufs, r.fault), v0, rs[1..]);
    }
  }

  /* Going on to the end. */

  // A fault that comes after all writes of any stage.
  predicate Late(f: Fault) {
    f.at >= 3
  }

  lemma MainEnds(v: Tables, h: Header, arr: Bytes, g: Header, plan: seq<Write>, f: Fault)
    requires |h| == |v.sh| && |arr| == |v.sa| && |g| == |v.ph| && Late(f)
    requires plan == [Write(SecondaryHeader, h), Write(SecondaryArray, arr), Write(PrimaryHeader, g)]
    ensures Fits(v, plan) && Perform(v, plan, f) == v.(sh := h, sa := arr, ph := g)
  {
    CutOfThree(v, plan[0], plan[1], plan[2], f);
  }

  lemma BackupEnds(v: Tables, g: Header, h: Header, plan: seq<Write>, f: Fault)
    requires |h| == |v.sh| && |g| == |v.ph| && Late(f)
    requires plan == [Write(PrimaryHeader, g), Write(SecondaryHeader, h)]
    ensures Fits(v, plan) && Perform(v, plan, f) == v.(ph := g, sh := h)
  {
    CutOfTwo(v, plan[0], plan[1], f);
  }

  lemma FinalizeEnds(v: Tables, h: Header, arr: Bytes, g: Header, plan: seq<Write>, f: Fault)
    requires |h| == |v.sh| == |g| && |arr| == |v.sa| && Late(f)
    requires plan == [Write(SecondaryHeader, h), Write(SecondaryArray, arr), Write(SecondaryHeader, g)]
    ensures Fits(v, plan) && Perform(v, plan, f) == v.(sa := arr, sh := g)
  {
    CutOfThree(v, plan[0], plan[1], plan[2], f);
  }

  lemma MainDone(crc: Checksum, v: Tables, v0: Tables, arr: Bytes, plan: seq<Write>, f: Fault)
    requires Resumable(crc, v, v0) && StageOf(crc, v) == Some(Main) && Late(f) && |arr| == |v.pa|
    requires plan == MainWrites(crc, v, arr)
    ensures Perform(v, plan, f).ph == WithState(crc, v.ph, false)
  {
    MainEnds(v, WithArray(crc, v.sh, arr), arr, WithState(crc, v.ph, false), plan, f);
  }

  lemma BackupDone(crc: Checksum, v: Tables, v0: Tables, plan: seq<Write>, f: Fault)
    requires Resumable(crc, v, v0) && StageOf(crc, v) == Some(Backup) && Late(f)
    requires plan == BackupWrites(crc, v)
    ensures Perform(v, plan, f).ph == v0.ph && Perform(v, plan, f).sh == WithState(crc, v.sh, false)
  {
    ResumableStage(crc, v, v0);
    BackupEnds(v, WithState(crc, v.ph, true), WithState(crc, v.sh, false), plan, f);
    BreakAndRepair(crc, v0.ph);
  }

  // The primary table of the start and a whole secondary table with the same entries.
  ghost predicate Restored(crc: Checksum, v: Tables, v0: Tables) {
    && Resumable(crc, v, v0)
    && v.ph == v0.ph && v.pa == v0.pa && v.sa == v.pa
    && SecondaryWhole(crc, v)
  }

  lemma FinalizeDone(crc: Checksum, v: Tables, v0: Tables, plan: seq<Write>, f: Fault)
    requires Resumable(crc, v, v0) && StageOf(crc, v) == Some(Finalize) && Late(f)
    requires plan == FinalizeWrites(crc, v)
    ensures var w := Perform(v, plan, f);
      && w.ph == v.ph && w.pa == v.pa && w.sa == v.pa
      && HeaderSize(w.sh) <= |w.sh| && Whole(crc, w.sh, v.pa)
  {
    var h := WithArray(crc, v.sh, v.pa);
    WithArrayOk(crc, v.sh, v.pa);
    WithStateOk(crc, h, true);
    FinalizeEnds(v, h, v.pa, WithState(crc, h, true), plan, f);
  }

  // A good header is known from its shape and the checksum of its array.
  lemma SameHeader(crc: Checksum, h: Header, g: Header)
    requires SameShape(h, g) && HeaderSize(h) <= |h| && HeaderSize(g) <= |g|
    requires StateOf(crc, h) == Ok && StateOf(crc, g) == Ok && Get4(h, ARRAY_CRC) == Get4(g, ARRAY_CRC)
    ensures h == g
  {
    ToFromLE(h[88..92]);
    ToFromLE(g[88..92]);
    var y, z := Put4(h, HEADER_CRC, 0), Put4(g, HEADER_CRC, 0);
    forall i | 0 <= i < |h| ensures y[i] == z[i] {
      if i < 9 {
        assert h[i] == h[..9][i] && g[i] == g[..9][i];
      } else if 88 <= i < 92 {
        assert h[i] == h[88..92][i - 88] && g[i] == g[88..92][i - 88];
      }
    }
    assert y == z;
    SealedAgain(crc, h, g);
    SealedAgain(crc, g, h);
  }

  lemma RestoredIsStart(crc: Checksum, v: Tables, v0: Tables)
    requires Restored(crc, v, v0) && SecondaryWhole(crc, v0) && v0.sa == v0.pa
    ensures v == v0
  {
    SameHeader(crc, v.sh, v0.sh);
  }

  lemma BrokenDiffers(crc: Checksum, h: Header)
    requires HeaderSize(h) <= |h| && StateOf(crc, h) == Ok
    ensures WithState(crc, h, false) != h
  {
    WithStateOk(crc, h, false);
  }

  lemma StageIsBackup(crc: Checksum, w: Tables, v0: Tables)
    requires Resumable(crc, w, v0) && w.ph == WithState(crc, v0.ph, false)
    ensures StageOf(crc, w) == Some(Backup)
  {
    BrokenDiffers(crc, v0.ph);
    ResumableStage(crc, w, v0);
  }

  lemma StageIsFinalize(crc: Checksum, w: Tables, v0: Tables)
    requires Resumable(crc, w, v0) && w.ph == v0.ph && StateOf(crc, w.sh) == BadSignature
    ensures StageOf(crc, w) == Some(Finalize)
  {
  }

  lemma StageMain(crc: Checksum, v: Tables, v0: Tables, chain: Option<Bytes>, plan: seq<Write>, f: Fault)
    requires Resumable(crc, v, v0) && Late(f) && chain.Some? && |chain.value| == |v.pa|
    requires plan == Prepare(crc, v, Main, chain).plan
    ensures Resumable(crc, Perform(v, plan, f), v0)
    ensures StageOf(crc, Perform(v, plan, f)) == if StageOf(crc, v) == Some(Main) then Some(Backup) else StageOf(crc, v)
  {
    ResumableStage(crc, v, v0);
    StepResumes(crc, v, v0, Main, chain, plan, f);
    if StageOf(crc, v) == Some(Main) {
      MainDone(crc, v, v0, chain.value, plan, f);
      StageIsBackup(crc, Perform(v, plan, f), v0);
    }
  }

  lemma StageBackup(crc: Checksum, v: Tables, v0: Tables, chain: Option<Bytes>, plan: seq<Write>, f: Fault)
    requires Resumable(crc, v, v0) && Late(f) && chain.Some? && |chain.value| == |v.pa|
    requires plan == Prepare(crc, v, Backup, chain).plan
    ensures Resumable(crc, Perform(v, plan, f), v0)
    ensures StageOf(crc, Perform(v, plan, f)) == if StageOf(crc, v) ==
      Some(Backup) then Some(Finalize) else StageOf(crc, v)
  {
    StepResumes(crc, v, v0, Backup, chain, plan, f);
    if StageOf(crc, v) == Some(Backup) {
      BackupDone(crc, v, v0, plan, f);
      WithStateOk(crc, v.sh, false);
      StageIsFinalize(crc, Perform(v, plan, f), v0);
    }
  }

  lemma StageFinalize(crc: Checksum, v: Tables, v0: Tables, chain: Option<Bytes>, plan: seq<Write>, f: Fault)
    requires Resumable(crc, v, v0) && Late(f) && chain.Some? && |chain.value| == |v.pa|
    requires plan == Prepare(crc, v, Finalize, chain).plan && StageOf(crc, v) == Some(Finalize)
    ensures Restored(crc, Perform(v, plan, f), v0)
  {
    ResumableStage(crc, v, v0);
    StepResumes(crc, v, v0, Finalize, chain, plan, f);
    FinalizeDone(crc, v, v0, plan, f);
  }

  // The entries and their size stay, so the same backup partitions are found.
  lemma SameCount(crc: Checksum, v: Tables, v0: Tables)
    requires Resumable(crc, v, v0)
    ensures Get4(v.ph, COUNT) == Get4(v0.ph, COUNT) && EntrySize(v.ph) == EntrySize(v0.ph)
  {
    BrokenShape(crc, v0.ph, WithState(crc, v0.ph, false));
  }

  lemma SameChain(crc: Checksum, v: Tables, v0: Tables, ufs: bool)
    requires Resumable(crc, v, v0)
    ensures BackupChain(v, ufs) == BackupChain(v0, ufs)
  {
    SameCount(crc, v, v0);
    var n, esz := Get4(v.ph, COUNT), EntrySize(v.ph);
    assert BackupChain(v, ufs) == ChainOf(v.pa, esz, n, PTN_SWAP_LIST, ufs);
  }

  // What a request returns when all its writes succeed.
  function Code(crc: Checksum, v: Tables, stage: Stage, ufs: bool): int
    requires WellFormed(v)
  {
    Prepare(crc, v, stage, BackupChain(v, ufs)).code
  }

  // The stage after this one; none comes after the last.
  function Next(s: Stage): (r: Stage)
    ensures Number(r) == Number(s) + 1 || r == s == Finalize
  {
    match s
    case Main => Backup
    case _ => Finalize
  }

  // The code and whether there is anything to write, for any headers: nothing is
  // written and -1 returned if a checksum is bad, both signatures are, the stage is not
  // due and not just passed, or the primary array is bad where it is needed.
  lemma PrepareIs(crc: Checksum, v: Tables, stage: Stage, chain: Option<Bytes>)
    requires WellFormed(v) && (chain.Some? ==> |chain.value| == |v.pa|)
    ensures var p, s, o := StateOf(crc, v.ph), StateOf(crc, v.sh), Prepare(crc, v, stage, chain);
      var main, backup, finalize := p == Ok && s == Ok, p == BadSignature && s == Ok, p == Ok && s == BadSignature;
      && (o.code == 0 <==>
          match stage
          case Main => (main && crc(v.pa) == Get4(v.ph, ARRAY_CRC)) || backup
          case Backup => backup || finalize
          case Finalize => finalize && crc(v.pa) == Get4(v.ph, ARRAY_CRC))
      && (o.code == 0 || (o.code == -1 && o.plan == []))
      && (o.plan != [] <==>
          match stage
          case Main => main && crc(v.pa) == Get4(v.ph, ARRAY_CRC) && chain.Some?
          case Backup => backup
          case Finalize => finalize && crc(v.pa) == Get4(v.ph, ARRAY_CRC))
  {
    match stage
    case Main =>
    case Backup =>
    case Finalize =>
  }

  lemma PrepareCodes(crc: Checksum, v: Tables, stage: Stage, internal: Stage, chain: Option<Bytes>)
    requires WellFormed(v) && (chain.Some? ==> |chain.value| == |v.pa|) && ArrayOk(crc, v) &&
      StageOf(crc, v) == Some(internal)
    ensures Prepare(crc, v, stage, chain).code == if internal == stage || internal == Next(stage) then 0 else -1
  {
  }

  // The stage that is due is carried out and the one before it is already set; any
  // other is refused.
  lemma Codes(crc: Checksum, v: Tables, v0: Tables, stage: Stage, ufs: bool)
    requires Resumable(crc, v, v0)
    ensures StageOf(crc, v).Some?
    ensures Code(crc, v, stage, ufs) == if StageOf(crc, v).value == stage ||
      StageOf(crc, v).value == Next(stage) then 0 else -1
  {
    ResumableStage(crc, v, v0);
    PrepareCodes(crc, v, stage, StageOf(crc, v).value, BackupChain(v, ufs));
  }

  lemma AfterMain(crc: Checksum, v: Tables, v0: Tables, ufs: bool, f: Fault)
    requires Resumable(crc, v, v0) && BackupChain(v0, ufs).Some? && Late(f)
    ensures var w := Step(crc, v, Main, ufs, f);
      && Resumable(crc, w, v0)
      && StageOf(crc, w) == (if StageOf(crc, v) == Some(Main) then Some(Backup) else StageOf(crc, v))
  {
    SameChain(crc, v, v0, ufs);
    var chain := BackupChain(v, ufs);
    StageMain(crc, v, v0, chain, Prepare(crc, v, Main, chain).plan, f);
  }

  lemma AfterBackup(crc: Checksum, v: Tables, v0: Tables, ufs: bool, f: Fault)
    requires Resumable(crc, v, v0) && BackupChain(v0, ufs).Some? && Late(f) && StageOf(crc, v) != Some(Main)
    ensures var w := Step(crc, v, Backup, ufs, f); Resumable(crc, w, v0) && StageOf(crc, w) == Some(Finalize)
  {
    SameChain(crc, v, v0, ufs);
    var chain := BackupChain(v, ufs);
    StageBackup(crc, v, v0, chain, Prepare(crc, v, Backup, chain).plan, f);
    ResumableStage(crc, v, v0);
  }

  lemma AfterFinalize(crc: Checksum, v: Tables, v0: Tables, ufs: bool, f: Fault)
    requires Resumable(crc, v, v0) && BackupChain(v0, ufs).Some? && Late(f) && StageOf(crc, v) == Some(Finalize)
    ensures Restored(crc, Step(crc, v, Finalize, ufs, f), v0)
  {
    SameChain(crc, v, v0, ufs);
    var chain := BackupChain(v, ufs);
    StageFinalize(crc, v, v0, chain, Prepare(crc, v, Finalize, chain).plan, f);
  }

  // The three stages in order, from wherever a cut has left the tables, bring both
  // back; one that is behind the stage that is due is passed over.
  lemma Finish(crc: Checksum, v: Tables, v0: Tables, ufs: bool, f: Fault)
    requires Resumable(crc, v, v0) && BackupChain(v0, ufs).Some? && Late(f)
    ensures WellFormed(Step(crc, v, Main, ufs, f))
    ensures WellFormed(Step(crc, Step(crc, v, Main, ufs, f), Backup, ufs, f))
    ensures Restored(crc, Step(crc, Step(crc, Step(crc, v, Main, ufs, f), Backup, ufs, f), Finalize, ufs, f), v0)
  {
    AfterMain(crc, v, v0, ufs, f);
    var v1 := Step(crc, v, Main, ufs, f);
    AfterBackup(crc, v1, v0, ufs, f);
    var v2 := Step(crc, v1, Backup, ufs, f);
    AfterFinalize(crc, v2, v0, ufs, f);
  }

  // The tables after the three stages.
  function Finished(crc: Checksum, v: Tables, v0: Tables, ufs: bool, f: Fault): Tables
    requires Resumable(crc, v, v0) && BackupChain(v0, ufs).Some? && Late(f)
  {
    Finish(crc, v, v0, ufs, f);
    Step(crc, Step(crc, Step(crc, v, Main, ufs, f), Backup, ufs, f), Finalize, ufs, f)
  }

  // Any run from two good tables, cut off anywhere but inside a header, is in a stage
  // and can be finished, after which both tables are good, the primary one is as it was
  // byte for byte and the secondary one has its entries; if it had them at the start
  // it is as it was too.
  lemma EveryRunCanFinish(crc: Checksum, v0: Tables, rs: seq<Request>, ufs: bool, f: Fault)
    requires GoodStart(crc, v0) && Safe(crc, v0, v0) && AtomicRun(crc, v0, v0, rs)
    requires BackupChain(v0, ufs).Some? && Late(f)
    ensures var v := Run(crc, v0, v0, rs);
      && Resumable(crc, v, v0)
      && StageOf(crc, v).Some?
      && Restored(crc, Finished(crc, v, v0, ufs, f), v0)
      && (SecondaryWhole(crc, v0) && v0.sa == v0.pa ==> Finished(crc, v, v0, ufs, f) == v0)
  {
    RunResumes(crc, v0, v0, rs);
    var v := Run(crc, v0, v0, rs);
    ResumableStage(crc, v, v0);
    Finish(crc, v, v0, ufs, f);
    if SecondaryWhole(crc, v0) && v0.sa == v0.pa {
      RestoredIsStart(crc, Finished(crc, v, v0, ufs, f), v0);
    }
  }

  /* What the secondary table boots while the primary one is broken. */

  // In the array the partitions of the start that have twins have changed places with
  // them, and there are some.
  ghost predicate BootsTwins(v0: Tables, arr: Bytes, ufs: bool)
    requires WellFormed(v0)
  {
    var n, esz := Get4(v0.ph, COUNT), EntrySize(v0.ph);
    && |arr| == |v0.pa| && HasPair(Entries(v0.pa, esz, n), ufs)
    && ChainSwapped(Entries(v0.pa, esz, n), Entries(arr, esz, n), ufs)
  }

  ghost predicate BootsBackups(v: Tables, v0: Tables)
    requires WellFormed(v0)
  {
    v.ph == v0.ph || exists ufs :: BootsTwins(v0, v.sa, ufs)
  }

  lemma ChainBootsTwins(v0: Tables, ufs: bool)
    requires WellFormed(v0)
    ensures BackupChain(v0, ufs).Some? ==> BootsTwins(v0, BackupChain(v0, ufs).value, ufs)
  {
    SwappedExact(v0.pa, EntrySize(v0.ph), Get4(v0.ph, COUNT), PTN_SWAP_LIST, ufs);
  }

  lemma MainCuts(v: Tables, h: Header, arr: Bytes, g: Header, plan: seq<Write>, f: Fault)
    requires |h| == |v.sh| && |arr| == |v.sa| && |g| == |v.ph|
    requires plan == [Write(SecondaryHeader, h), Write(SecondaryArray, arr), Write(PrimaryHeader, g)]
    ensures Fits(v, plan) && (Perform(v, plan, f).ph == v.ph || Perform(v, plan, f).sa == arr)
  {
    CutOfThree(v, plan[0], plan[1], plan[2], f);
  }

  lemma BackupCuts(v: Tables, g: Header, h: Header, plan: seq<Write>, f: Fault)
    requires |h| == |v.sh| && |g| == |v.ph| && plan == [Write(PrimaryHeader, g), Write(SecondaryHeader, h)]
    ensures Fits(v, plan) && Perform(v, plan, f).sa == v.sa
  {
    CutOfTwo(v, plan[0], plan[1], f);
  }

  lemma FinalizeCuts(v: Tables, h: Header, arr: Bytes, g: Header, plan: seq<Write>, f: Fault)
    requires |h| == |v.sh| == |g| && |arr| == |v.sa|
    requires plan == [Write(SecondaryHeader, h), Write(SecondaryArray, arr), Write(SecondaryHeader, g)]
    ensures Fits(v, plan) && Perform(v, plan, f).ph == v.ph
  {
    CutOfThree(v, plan[0], plan[1], plan[2], f);
  }

  // What the stages do to it, wherever they are cut off.
  lemma DueCuts(crc: Checksum, v: Tables, stage: Stage, chain: Option<Bytes>, plan: seq<Write>, f: Fault)
    requires WellFormed(v) && (chain.Some? ==> |chain.value| == |v.pa|) && plan == Due(crc, v, stage, chain).plan
    ensures stage == Main ==> Perform(v, plan, f).ph == v.ph || chain == Some(Perform(v, plan, f).sa)
    ensures stage == Backup ==> Perform(v, plan, f).sa == v.sa
    ensures stage == Finalize ==> Perform(v, plan, f).ph == v.ph
  {
    if plan != [] {
      match stage
      case Main =>
        MainCuts(v, WithArray(crc, v.sh, chain.value), chain.value, WithState(crc, v.ph, false), plan, f);
      case Backup => BackupCuts(v, WithState(crc, v.ph, true), WithState(crc, v.sh, false), plan, f);
      case Finalize =>
        var h := WithArray(crc, v.sh, v.pa);
        WithArrayOk(crc, v.sh, v.pa);
        FinalizeCuts(v, h, v.pa, WithState(crc, h, true), plan, f);
    }
  }

  lemma PrepareCuts(crc: Checksum, v: Tables, v0: Tables, stage: Stage, chain: Option<Bytes>, plan: seq<Write>,
                    f: Fault)
    requires Resumable(crc, v, v0)
    requires (chain.Some? ==> |chain.value| == |v.pa|) && plan == Prepare(crc, v, stage, chain).plan
    ensures var w := Perform(v, plan, f);
      w.ph == v0.ph || (v.ph != v0.ph && w.sa == v.sa) || chain == Some(w.sa)
  {
    ResumableStage(crc, v, v0);
    if StageOf(crc, v) == Some(stage) {
      DueCuts(crc, v, stage, chain, plan, f);
    } else {
      assert plan == [] && Perform(v, plan, f) == v;
    }
  }

  lemma StepBoots(crc: Checksum, v: Tables, v0: Tables, stage: Stage, ufs: bool, plan: seq<Write>, f: Fault)
    requires Resumable(crc, v, v0) && BootsBackups(v, v0)
    requires plan == Prepare(crc, v, stage, BackupChain(v, ufs)).plan
    ensures BootsBackups(Perform(v, plan, f), v0)
  {
    SameChain(crc, v, v0, ufs);
    ChainBootsTwins(v0, ufs);
    PrepareCuts(crc, v, v0, stage, BackupChain(v, ufs), plan, f);
  }

  // While the primary header is broken the secondary table is whole and its entries are
  // those of the start with every listed partition and its backup exchanged.
  lemma {:induction false} RunBootsBackups(crc: Checksum, v: Tables, v0: Tables, rs: seq<Request>)
    requires Resumable(crc, v, v0) && Safe(crc, v, v0) && AtomicRun(crc, v, v0, rs) && BootsBackups(v, v0)
    ensures Resumable(crc, Run(crc, v, v0, rs), v0) && BootsBackups(Run(crc, v, v0, rs), v0)
    decreases rs
  {
    if rs != [] {
      var r := rs[0];
      var chain := BackupChain(v, r.ufs);
      var plan := Prepare(crc, v, r.stage, chain).plan;
      StepResumes(crc, v, v0, r.stage, chain, plan, r.fault);
      StepBoots(crc, v, v0, r.stage, r.ufs, plan, r.fault);
      StepSafe(crc, v, v0, r.stage, r.ufs, r.fault);
      RunBootsBackups(crc, Step(crc, v, r.stage, r.ufs, r.fault), v0, rs[1..]);
    }
  }

  lemma CutAfterFirst(v: Tables, g: Header, h: Header, plan: seq<Write>, f: Fault)
    requires |g| == |v.ph| && |h| == |v.sh| && plan == [Write(PrimaryHeader, g), Write(SecondaryHeader, h)]
    requires f.at == 1 && forall i :: !f.tear(i)
    ensures Fits(v, plan) && Perform(v, plan, f) == v.(ph := g)
  {
    CutOfTwo(v, plan[0], plan[1], f);
    assert Mix(v.sh, h, f.tear) == v.sh;
  }

  // A cut between the two writes of the second stage leaves both headers good, so that
  // the first stage is due again and not the second.
  lemma CutBetweenIsMain(crc: Checksum, v: Tables, v0: Tables, plan: seq<Write>, f: Fault)
    requires Resumable(crc, v, v0) && StageOf(crc, v) == Some(Backup)
    requires plan == BackupWrites(crc, v) && f.at == 1 && forall i :: !f.tear(i)
    ensures Perform(v, plan, f) == v.(ph := v0.ph) && Resumable(crc, v.(ph := v0.ph), v0)
    ensures StageOf(crc, v.(ph := v0.ph)) == Some(Main)
  {
    ResumableStage(crc, v, v0);
    BreakAndRepair(crc, v0.ph);
    CutAfterFirst(v, WithState(crc, v.ph, true), WithState(crc, v.sh, false), plan, f);
    ResumableRepaired(crc, v, v0, v.(ph := v0.ph));
    ResumableStage(crc, v.(ph := v0.ph), v0);
  }

  lemma SecondTorn(v: Tables, h: Header, arr: Bytes, c: Write, plan: seq<Write>, f: Fault)
    requires |h| == |v.sh| && |arr| == |v.sa| && FitsIn(v, c) && f.at == 1 && forall i :: !f.tear(i)
    requires plan == [Write(SecondaryHeader, h), Write(SecondaryArray, arr), c]
    ensures Fits(v, plan) && Perform(v, plan, f) == v.(sh := h)
  {
    CutOfThree(v, plan[0], plan[1], c, f);
    assert Mix(v.sa, arr, f.tear) == v.sa;
  }

  // The order of the writes: a cut after the first write of the first stage, or of the
  // last one, leaves the new secondary header and the old secondary array.
  lemma MainHeaderFirst(crc: Checksum, v: Tables, arr: Bytes, plan: seq<Write>, f: Fault)
    requires WellFormed(v) && |arr| == |v.sa| && f.at == 1 && forall i :: !f.tear(i)
    requires plan == MainWrites(crc, v, arr)
    ensures Perform(v, plan, f) == v.(sh := WithArray(crc, v.sh, arr))
  {
    SecondTorn(v, WithArray(crc, v.sh, arr), arr, plan[2], plan, f);
  }

  lemma FinalizeHeaderFirst(crc: Checksum, v: Tables, plan: seq<Write>, f: Fault)
    requires WellFormed(v) && f.at == 1 && (forall i :: !f.tear(i)) && plan == FinalizeWrites(crc, v)
    ensures Perform(v, plan, f) == v.(sh := WithArray(crc, v.sh, v.pa))
  {
    SecondTorn(v, WithArray(crc, v.sh, v.pa), v.pa, plan[2], plan, f);
  }

  // Without backup partitions nothing is ever written to two good tables.
  lemma NothingToSwitch(crc: Checksum, v: Tables, stage: Stage, ufs: bool, f: Fault)
    requires WellFormed(v) && StageOf(crc, v) == Some(Main) && BackupChain(v, ufs).None?
    ensures Step(crc, v, stage, ufs, f) == v
  {
    assert Prepare(crc, v, stage, None).plan == [];
  }

  lemma {:induction false} NothingEverWritten(crc: Checksum, v: Tables, v0: Tables, rs: seq<Request>)
    requires Safe(crc, v, v0) && StageOf(crc, v) == Some(Main) && forall ufs :: BackupChain(v, ufs).None?
    ensures Run(crc, v, v0, rs) == v
    decreases rs
  {
    if rs != [] {
      NothingToSwitch(crc, v, rs[0].stage, rs[0].ufs, rs[0].fault);
      NothingEverWritten(crc, v, v0, rs[1..]);
    }
  }
}
