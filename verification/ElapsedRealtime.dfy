/**
 ElapsedRealtimeEstimator of gps/core/LocApiBase.cpp: an integrator over the wall clock
 and the boot clock, shown to give what a simple history of fixes gives, in which the
 wall clock does not occur.
 */
module ElapsedRealtime {

  // The two clocks as getCurrentTime reads them together, or its failure.
  datatype Clocks = Failed | Clocks(utc: int, boot: int)

  datatype Call =
    | Reset
    | Estimate(data: int, trusted: bool, tbf: int, clocks: Clocks)

  const SETTLE := 5

  /* The estimator. */

  datatype State = State(clockDiff: int, prevUtc: int, prevBoot: int, prevData: int, threshold: int)

  const FRESH := State(0, 0, 0, 0, SETTLE)

  // The data time has moved by something other than the time between fixes.
  predicate Jumped(prevData: int, c: Call)
    requires c.Estimate?
  {
    c.tbf > 0 && c.tbf != c.data - prevData
  }

  function Trust(s: State, c: Call, travel: int): (State, int)
    requires c.Estimate? && c.clocks.Clocks?
  {
    var utc, boot := c.clocks.utc, c.clocks.boot;
    var threshold := if Jumped(s.prevData, c) then SETTLE else s.threshold;
    if threshold == 0 then
      (State(utc - c.data - travel, utc, boot, c.data, -1), boot - travel)
    else if threshold < 0 then
      var diff := s.clockDiff + (utc - boot) - (s.prevUtc - s.prevBoot);
      (State(diff, utc, boot, c.data, threshold - 1), boot - (utc - c.data - diff))
    else
      (State(s.clockDiff, utc, boot, c.data, threshold - 1), boot - travel)
  }

  // travel is the travel time assumed until the clocks have been calibrated.
  function Step(s: State, c: Call, travel: int): (State, int) {
    if c.Reset? then (FRESH, 0)
    else if c.clocks.Failed? then (s, -1)
    else if !c.trusted then (s, c.clocks.boot - travel)
    else Trust(s, c, travel)
  }

  function Run(s: State, calls: seq<Call>, travel: int): (State, seq<int>)
    decreases calls
  {
    if calls == [] then (s, [])
    else
      var (s', out) := Step(s, calls[0], travel);
      var (end, outs) := Run(s', calls[1..], travel);
      (end, [out] + outs)
  }

  class ElapsedRealtimeEstimator {
    var mCurrentClockDiff: int
    var mPrevUtcTimeNanos: int
    var mPrevBootTimeNanos: int
    var mFixTimeStablizationThreshold: int
    var mPrevDataTimeNanos: int
    const mInitialTravelTime: int

    ghost function Model(): State
      reads this
    {
      State(mCurrentClockDiff, mPrevUtcTimeNanos, mPrevBootTimeNanos, mPrevDataTimeNanos, mFixTimeStablizationThreshold)
    }

    constructor (travelTimeNanosEstimate: int)
      ensures Model() == FRESH && mInitialTravelTime == travelTimeNanosEstimate
    {
      mInitialTravelTime := travelTimeNanosEstimate;
      new;
      ResetAll();
    }

    method ResetAll()
      modifies this
      ensures Model() == FRESH
    {
      mCurrentClockDiff := 0;
      mPrevDataTimeNanos := 0;
      mPrevUtcTimeNanos := 0;
      mPrevBootTimeNanos := 0;
      mFixTimeStablizationThreshold := 5;
    }

    method GetElapsedRealtimeEstimateNanos(data: int, trusted: bool, tbf: int, clocks: Clocks) returns (elapsed: int)
      modifies this
      ensures (Model(), elapsed) == Step(old(Model()), Estimate(data, trusted, tbf, clocks), mInitialTravelTime)
    {
      var travel := mInitialTravelTime;
      if clocks.Failed? {
        return -1;
      }
      if trusted {
        if tbf > 0 && tbf != data - mPrevDataTimeNanos {
          mFixTimeStablizationThreshold := 5;
        }
        if mFixTimeStablizationThreshold == 0 {
          mCurrentClockDiff := clocks.utc - data - travel;
        } else if mFixTimeStablizationThreshold < 0 {
          mCurrentClockDiff :=
            mCurrentClockDiff + (clocks.utc - clocks.boot) - (mPrevUtcTimeNanos - mPrevBootTimeNanos);
          travel := clocks.utc - data - mCurrentClockDiff;
        }
        mPrevUtcTimeNanos := clocks.utc;
        mPrevBootTimeNanos := clocks.boot;
        mPrevDataTimeNanos := data;
        mFixTimeStablizationThreshold := mFixTimeStablizationThreshold - 1;
      }
      return clocks.boot - travel;
    }
  }

  /* The history. */

  datatype Fix = Fix(data: int, boot: int)

  // The trusted fixes since the data time last jumped, and the data time of the last one.
  datatype History = History(fixes: seq<Fix>, prevData: int)

  const BLANK := History([], 0)

  // The fix comes when it is due, or no due time is known.
  predicate InStep(h: History, c: Call)
    requires c.Estimate?
  {
    c.tbf <= 0 || c.data == h.prevData + c.tbf
  }

  // The sixth fix calibrates: later ones are as far from it in elapsed time as they
  // are in data time.
  function Told(fixes: seq<Fix>, travel: int): int
    requires fixes != []
  {
    var last := fixes[|fixes| - 1];
    if |fixes| <= SETTLE + 1 then last.boot - travel
    else fixes[SETTLE].boot - travel + (last.data - fixes[SETTLE].data)
  }

  function HistoryStep(h: History, c: Call, travel: int): (History, int) {
    if c.Reset? then (BLANK, 0)
    else if c.clocks.Failed? then (h, -1)
    else if !c.trusted then (h, c.clocks.boot - travel)
    else
      var fixes := (if InStep(h, c) then h.fixes else []) + [Fix(c.data, c.clocks.boot)];
      (History(fixes, c.data), Told(fixes, travel))
  }

  function HistoryRun(h: History, calls: seq<Call>, travel: int): (History, seq<int>)
    decreases calls
  {
    if calls == [] then (h, [])
    else
      var (h', out) := HistoryStep(h, calls[0], travel);
      var (end, outs) := HistoryRun(h', calls[1..], travel);
      (end, [out] + outs)
  }

  ghost predicate Represents(s: State, h: History, travel: int) {
    && s.prevData == h.prevData
    && s.threshold == SETTLE - |h.fixes|
    && (|h.fixes| > SETTLE ==>
          s.prevUtc - s.prevBoot - s.clockDiff == h.fixes[SETTLE].data + travel - h.fixes[SETTLE].boot)
  }

  lemma StepRepresents(s: State, h: History, c: Call, travel: int)
    requires Represents(s, h, travel)
    ensures Represents(Step(s, c, travel).0, HistoryStep(h, c, travel).0, travel)
    ensures Step(s, c, travel).1 == HistoryStep(h, c, travel).1
  {}

  // Every run of the estimator tells what the history tells.
  lemma {:induction false} RunTellsHistory(s: State, h: History, calls: seq<Call>, travel: int)
    requires Represents(s, h, travel)
    ensures Run(s, calls, travel).1 == HistoryRun(h, calls, travel).1
    ensures Represents(Run(s, calls, travel).0, HistoryRun(h, calls, travel).0, travel)
    decreases calls
  {
    if calls != [] {
      StepRepresents(s, h, calls[0], travel);
      RunTellsHistory(Step(s, calls[0], travel).0, HistoryStep(h, calls[0], travel).0, calls[1..], travel);
    }
  }

  lemma EveryRun(calls: seq<Call>, travel: int)
    ensures Run(FRESH, calls, travel).1 == HistoryRun(BLANK, calls, travel).1
  {
    RunTellsHistory(FRESH, BLANK, calls, travel);
  }

  ghost predicate SameButWallClock(c: Call, d: Call) {
    c == d || (c.Estimate? && d.Estimate? && c.clocks.Clocks? && d.clocks.Clocks? &&
      d == c.(clocks := c.clocks.(utc := d.clocks.utc)))
  }

  // The wall clock may jump as it likes.
  lemma {:induction false} WallClockDoesNotMatter(s: State, t: State, h: History, c: seq<Call>, d: seq<Call>,
        travel: int)
    requires Represents(s, h, travel) && Represents(t, h, travel)
    requires |c| == |d| && forall i :: 0 <= i < |c| ==> SameButWallClock(c[i], d[i])
    ensures Run(s, c, travel).1 == Run(t, d, travel).1
    decreases c
  {
    if c != [] {
      assert SameButWallClock(c[0], d[0]);
      StepRepresents(s, h, c[0], travel);
      StepRepresents(t, h, d[0], travel);
      WallClockDoesNotMatter(
        Step(s, c[0], travel).0, Step(t, d[0], travel).0, HistoryStep(h, c[0], travel).0, c[1..], d[1..], travel);
    }
  }

  // No call takes the estimator out of step.
  ghost predicate Steady(h: History, calls: seq<Call>, travel: int)
    decreases calls
  {
    calls != [] ==>
      && calls[0].Estimate?
      && (calls[0].trusted && calls[0].clocks.Clocks? ==> InStep(h, calls[0]))
      && Steady(HistoryStep(h, calls[0], travel).0, calls[1..], travel)
  }

  lemma {:induction false} SteadyKeepsFixes(h: History, calls: seq<Call>, travel: int)
    requires Steady(h, calls, travel)
    ensures h.fixes <= HistoryRun(h, calls, travel).0.fixes
    decreases calls
  {
    if calls != [] {
      SteadyKeepsFixes(HistoryStep(h, calls[0], travel).0, calls[1..], travel);
    }
  }

  // After the calibrating fix k, and however many other calls come between that do not
  // take it out of step, a trusted fix n gives boot_k - travel + (data_n - data_k).
  lemma ClosedForm(s: State, h: History, k: Call, between: seq<Call>, n: Call, travel: int)
    requires Represents(s, h, travel) && |h.fixes| == 5
    requires Steady(h, [k] + between + [n], travel)
    requires k.Estimate? && k.trusted && k.clocks.Clocks?
    requires n.Estimate? && n.trusted && n.clocks.Clocks?
    ensures var s' := Run(Step(s, k, travel).0, between, travel).0;
      Step(s', n, travel).1 == k.clocks.boot - travel + (n.data - k.data)
  {
    var s1, h1 := Step(s, k, travel).0, HistoryStep(h, k, travel).0;
    StepRepresents(s, h, k, travel);
    assert ([k] + between + [n])[1..] == between + [n];
    SteadySplit(h1, between, n, travel);
    SteadyKeepsFixes(h1, between, travel);
    RunTellsHistory(s1, h1, between, travel);
    var s2, h2 := Run(s1, between, travel).0, HistoryRun(h1, between, travel).0;
    StepRepresents(s2, h2, n, travel);
    assert h2.fixes[SETTLE] == h1.fixes[SETTLE] == Fix(k.data, k.clocks.boot);
  }

  lemma {:induction false} SteadySplit(h: History, a: seq<Call>, n: Call, travel: int)
    requires Steady(h, a + [n], travel)
    ensures Steady(h, a, travel) && Steady(HistoryRun(h, a, travel).0, [n], travel)
    decreases a
  {
    if a == [] {
      assert a + [n] == [n];
    } else {
      assert (a + [n])[1..] == a[1..] + [n];
      SteadySplit(HistoryStep(h, a[0], travel).0, a[1..], n, travel);
    }
  }

  predicate IsFix(c: Call) {
    c.Estimate? && c.trusted && c.clocks.Clocks?
  }

  function Fixes(calls: seq<Call>): nat {
    if calls == [] then 0 else (if IsFix(calls[0]) then 1 else 0) + Fixes(calls[1..])
  }

  // The answer without a calibration.
  function Plain(c: Call, travel: int): int {
    match c
    case Reset => 0
    case Estimate(_, _, _, Failed) => -1
    case Estimate(_, _, _, Clocks(_, boot)) => boot - travel
  }

  ghost predicate PlainAnswers(calls: seq<Call>, outs: seq<int>, travel: int) {
    |outs| == |calls| && forall n :: 0 <= n < |calls| ==> outs[n] == Plain(calls[n], travel)
  }

  lemma {:induction false} SettlesPlainly(h: History, calls: seq<Call>, travel: int)
    requires |h.fixes| + Fixes(calls) <= SETTLE + 1
    ensures PlainAnswers(calls, HistoryRun(h, calls, travel).1, travel)
    decreases calls
  {
    if calls != [] {
      SettlesPlainly(HistoryStep(h, calls[0], travel).0, calls[1..], travel);
    }
  }

  // A fix out of its time starts the settling anew: it and up to five more fixes are
  // answered without a calibration, whatever the estimator had calibrated before.
  lemma JumpRestarts(s: State, h: History, c: Call, calls: seq<Call>, travel: int)
    requires Represents(s, h, travel)
    requires IsFix(c) && c.tbf > 0 && c.tbf != c.data - s.prevData && Fixes(calls) <= 5
    ensures Step(s, c, travel).1 == Plain(c, travel)
    ensures PlainAnswers(calls, Run(Step(s, c, travel).0, calls, travel).1, travel)
  {
    var s', h' := Step(s, c, travel).0, HistoryStep(h, c, travel).0;
    StepRepresents(s, h, c, travel);
    RunTellsHistory(s', h', calls, travel);
    SettlesPlainly(h', calls, travel);
  }
}
