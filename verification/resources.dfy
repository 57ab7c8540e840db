// Host samples, their assessment, and the guard of a run.
module Resources {
  import opened Wrappers

  datatype Sample = Sample(
    darwinSensor: bool, boot: string,
    beganNs: int, endedNs: int, physicalBytes: int, pageBytes: int, freePages: int, speculativePages: int,
    pressureBefore: int, pressureAfter: int, swapOutPages: int, swapUsedBeforeBytes: int, swapUsedBytes: int)
  {
    function Free(): int { freePages * pageBytes }
  }

  datatype GuardCode =
    | SensorProfile
    | BootEncoding
    | CounterEncoding
    | PageOrPhysicalEncoding
    | ImpossibleFreePages
    | SensorTiming
    | MemoryPressure
    | ActiveSwapUsage
    | TwoSamplesRequired
    | InsufficientHeadroom
    | HostIdentityChanged
    | SampleGap
    | AdmissionSpacing
    | SwapOutput
    | SensorFailed

  datatype Decision = Decision(runtime: bool, minimumObservedFreeBytes: int, requiredFreeBytes: int, physicalBytes: int)

  // Durations are nanoseconds; on integers the source's float comparisons with 0.25, 0.9 and 2 seconds are exact.
  const SECOND: int := 1000000000
  const MAXIMUM_SAMPLE: int := 250000000
  const MAXIMUM_GAP: int := 2 * SECOND
  const ADMISSION_GAP: int := 900000000
  const NORMAL_PRESSURE: int := 1
  const RUNTIME_FREE: int := 1342177280
  const ADMISSION_FREE: int := 5637144576
  const RUNTIME_SPACING: real := 0.25

  predicate IsCounter(n: int) {
    0 <= n <= 0xffff_ffff_ffff_ffff
  }

  predicate CountersEncoded(s: Sample) {
    && IsCounter(s.beganNs) && IsCounter(s.endedNs) && IsCounter(s.physicalBytes) && IsCounter(s.pageBytes)
    && IsCounter(s.freePages) && IsCounter(s.speculativePages) && IsCounter(s.pressureBefore) && IsCounter(s.pressureAfter)
    && IsCounter(s.swapOutPages) && IsCounter(s.swapUsedBeforeBytes) && IsCounter(s.swapUsedBytes)
  }

  function ValidateSample(s: Sample): Result<(), GuardCode> {
    if !s.darwinSensor then Err(SensorProfile)
    else if !(0 < |s.boot| <= 128) then Err(BootEncoding)
    else if !CountersEncoded(s) then Err(CounterEncoding)
    else if !((s.pageBytes == 4096 || s.pageBytes == 16384) && s.physicalBytes > 0) then Err(PageOrPhysicalEncoding)
    else if !(s.Free() <= s.physicalBytes && s.speculativePages <= s.freePages) then Err(ImpossibleFreePages)
    else if !(0 < s.beganNs < s.endedNs && s.endedNs - s.beganNs <= MAXIMUM_SAMPLE) then Err(SensorTiming)
    else if !(s.pressureBefore == s.pressureAfter == NORMAL_PRESSURE) then Err(MemoryPressure)
    else if !(s.swapUsedBytes <= s.swapUsedBeforeBytes) then Err(ActiveSwapUsage)
    else Ok(())
  }

  function Threshold(runtime: bool): int {
    if runtime then RUNTIME_FREE else ADMISSION_FREE
  }

  function CheckOne(s: Sample, runtime: bool): Result<(), GuardCode> {
    var _ :- ValidateSample(s);
    if s.Free() < Threshold(runtime) then Err(InsufficientHeadroom) else Ok(())
  }

  function CheckPair(x: Sample, y: Sample, runtime: bool): Result<(), GuardCode> {
    var gap := y.beganNs - x.endedNs;
    if !(x.boot == y.boot && x.pageBytes == y.pageBytes && x.physicalBytes == y.physicalBytes) then Err(HostIdentityChanged)
    else if !(0 < gap <= MAXIMUM_GAP) then Err(SampleGap)
    else if !runtime && gap < ADMISSION_GAP then Err(AdmissionSpacing)
    else if y.swapOutPages != x.swapOutPages then Err(SwapOutput)
    else if !(y.swapUsedBeforeBytes <= x.swapUsedBytes) then Err(ActiveSwapUsage)
    else Ok(())
  }

  function CheckSamples(samples: seq<Sample>, runtime: bool): Result<(), GuardCode> {
    if samples == [] then Ok(())
    else
      var _ :- CheckOne(samples[0], runtime);
      CheckSamples(samples[1..], runtime)
  }

  function CheckPairs(samples: seq<Sample>, runtime: bool): Result<(), GuardCode> {
    if |samples| < 2 then Ok(())
    else
      var _ :- CheckPair(samples[0], samples[1], runtime);
      CheckPairs(samples[1..], runtime)
  }

  function MinimumFree(samples: seq<Sample>): (least: int)
    requires samples != []
    ensures exists i :: 0 <= i < |samples| && least == samples[i].Free()
    ensures forall i :: 0 <= i < |samples| ==> least <= samples[i].Free()
  {
    if |samples| == 1 then samples[0].Free()
    else
      var rest := MinimumFree(samples[1..]);
      assert forall i :: 0 < i < |samples| ==> samples[i] == samples[1..][i - 1];
      if samples[0].Free() <= rest then samples[0].Free() else rest
  }

  function Assessment(samples: seq<Sample>, runtime: bool): Result<Decision, GuardCode> {
    if |samples| < 2 then Err(TwoSamplesRequired)
    else
      var _ :- CheckSamples(samples, runtime);
      var _ :- CheckPairs(samples, runtime);
      Ok(Decision(runtime, MinimumFree(samples), Threshold(runtime), samples[|samples| - 1].physicalBytes))
  }

  // ----- acceptance -------------------------------------------------------------------------------------------

  ghost predicate EachAccepted(samples: seq<Sample>, runtime: bool) {
    forall i :: 0 <= i < |samples| ==> CheckOne(samples[i], runtime).Ok?
  }

  ghost predicate NeighboursAccepted(samples: seq<Sample>, runtime: bool) {
    forall i :: 0 <= i < |samples| - 1 ==> CheckPair(samples[i], samples[i + 1], runtime).Ok?
  }

  lemma {:induction false} SamplesAccepted(samples: seq<Sample>, runtime: bool)
    ensures CheckSamples(samples, runtime).Ok? <==> EachAccepted(samples, runtime)
  {
    if samples != [] {
      var rest := samples[1..];
      SamplesAccepted(rest, runtime);
      if CheckOne(samples[0], runtime).Ok? && EachAccepted(rest, runtime) {
        forall i | 0 <= i < |samples|
          ensures CheckOne(samples[i], runtime).Ok?
        {
          if i > 0 {
            assert samples[i] == rest[i - 1];
          }
        }
      }
    }
  }

  lemma {:induction false} PairsAccepted(samples: seq<Sample>, runtime: bool)
    ensures CheckPairs(samples, runtime).Ok? <==> NeighboursAccepted(samples, runtime)
  {
    if |samples| >= 2 {
      var rest := samples[1..];
      PairsAccepted(rest, runtime);
      if CheckPair(samples[0], samples[1], runtime).Ok? && NeighboursAccepted(rest, runtime) {
        forall i | 0 <= i < |samples| - 1
          ensures CheckPair(samples[i], samples[i + 1], runtime).Ok?
        {
          if i > 0 {
            assert samples[i] == rest[i - 1] && samples[i + 1] == rest[i];
          }
        }
      }
      if NeighboursAccepted(samples, runtime) {
        forall i | 0 <= i < |rest| - 1
          ensures CheckPair(rest[i], rest[i + 1], runtime).Ok?
        {
          assert rest[i] == samples[i + 1] && rest[i + 1] == samples[i + 2];
        }
      }
    }
  }

  lemma AssessmentAccepts(samples: seq<Sample>, runtime: bool)
    ensures Assessment(samples, runtime).Ok? <==>
            |samples| >= 2 && EachAccepted(samples, runtime) && NeighboursAccepted(samples, runtime)
  {
    SamplesAccepted(samples, runtime);
    PairsAccepted(samples, runtime);
  }

  ghost predicate EveryPairPasses(samples: seq<Sample>, runtime: bool) {
    forall i :: 0 <= i < |samples| - 1 ==> Assessment([samples[i], samples[i + 1]], runtime).Ok?
  }

  lemma PairPasses(x: Sample, y: Sample, runtime: bool)
    ensures Assessment([x, y], runtime).Ok? <==> CheckOne(x, runtime).Ok? && CheckOne(y, runtime).Ok? && CheckPair(x, y, runtime).Ok?
  {
    AssessmentAccepts([x, y], runtime);
  }

  // Assessing every neighbouring pair is assessing the whole run.
  lemma PairByPairIsWhole(samples: seq<Sample>, runtime: bool)
    requires |samples| >= 2
    ensures EveryPairPasses(samples, runtime) <==> Assessment(samples, runtime).Ok?
  {
    AssessmentAccepts(samples, runtime);
    forall i | 0 <= i < |samples| - 1
      ensures Assessment([samples[i], samples[i + 1]], runtime).Ok? <==>
              CheckOne(samples[i], runtime).Ok? && CheckOne(samples[i + 1], runtime).Ok? && CheckPair(samples[i], samples[i + 1], runtime).Ok?
    {
      PairPasses(samples[i], samples[i + 1], runtime);
    }
    if EveryPairPasses(samples, runtime) {
      forall i | 0 <= i < |samples|
        ensures CheckOne(samples[i], runtime).Ok?
      {
        if i < |samples| - 1 {
          assert Assessment([samples[i], samples[i + 1]], runtime).Ok?;
        } else {
          assert Assessment([samples[i - 1], samples[i - 1 + 1]], runtime).Ok?;
        }
      }
    }
  }

  // Samples admitted before the run also pass the weaker runtime mode.
  lemma AdmissionImpliesRuntime(samples: seq<Sample>)
    requires Assessment(samples, false).Ok?
    ensures Assessment(samples, true).Ok?
  {
    AssessmentAccepts(samples, false);
    AssessmentAccepts(samples, true);
  }

  // ----- what an accepted run guarantees ----------------------------------------------------------------------

  // What one sample and one pair of neighbours contribute.
  predicate Steady(s: Sample) {
    && s.Free() >= RUNTIME_FREE && s.beganNs < s.endedNs <= s.beganNs + MAXIMUM_SAMPLE && s.swapUsedBytes <= s.swapUsedBeforeBytes
  }

  predicate Follows(x: Sample, y: Sample) {
    && x.boot == y.boot && x.physicalBytes == y.physicalBytes && x.swapOutPages == y.swapOutPages
    && y.swapUsedBeforeBytes <= x.swapUsedBytes && x.endedNs < y.beganNs <= x.endedNs + MAXIMUM_GAP
  }

  lemma AcceptedIsSteady(samples: seq<Sample>, i: nat)
    requires Assessment(samples, true).Ok? && i < |samples|
    ensures Steady(samples[i])
    ensures i + 1 < |samples| ==> Follows(samples[i], samples[i + 1])
  {
    AssessmentAccepts(samples, true);
    assert CheckOne(samples[i], true).Ok?;
    if i + 1 < |samples| {
      assert CheckPair(samples[i], samples[i + 1], true).Ok?;
    }
  }

  // Swap output stays constant, swap use never rises, the host stays the same, free memory stays above the threshold.
  lemma {:induction false} AcceptedRun(samples: seq<Sample>, i: nat, j: nat)
    requires Assessment(samples, true).Ok? && i <= j < |samples|
    ensures samples[i].swapOutPages == samples[j].swapOutPages
    ensures samples[j].swapUsedBytes <= samples[i].swapUsedBytes && samples[j].swapUsedBeforeBytes <= samples[i].swapUsedBeforeBytes
    ensures samples[i].boot == samples[j].boot && samples[i].physicalBytes == samples[j].physicalBytes
    ensures samples[j].Free() >= RUNTIME_FREE
  {
    AcceptedIsSteady(samples, j);
    if i < j {
      AcceptedIsSteady(samples, j - 1);
      AcceptedRun(samples, i, j - 1);
    }
  }

  // Time passes, and no faster than the number of samples allows.
  lemma {:induction false} ElapsedIsBounded(samples: seq<Sample>, i: nat, j: nat)
    requires Assessment(samples, true).Ok? && i <= j < |samples|
    ensures i < j ==> samples[i].endedNs < samples[j].beganNs
    ensures samples[j].endedNs - samples[i].beganNs <= (j - i + 1) * MAXIMUM_SAMPLE + (j - i) * MAXIMUM_GAP
  {
    AcceptedIsSteady(samples, j);
    if i < j {
      AcceptedIsSteady(samples, j - 1);
      ElapsedIsBounded(samples, i, j - 1);
    }
  }

  // ----- the run as a whole -----------------------------------------------------------------------------------

  // A sample of an idle machine with the memory its mode asks for.
  predicate Healthy(s: Sample, runtime: bool) {
    && s.darwinSensor && 1 <= |s.boot| <= 128 && CountersEncoded(s) && s.pageBytes in {4096, 16384} && s.physicalBytes > 0
    && Threshold(runtime) <= s.Free() <= s.physicalBytes && s.speculativePages <= s.freePages
    && 0 < s.beganNs < s.endedNs <= s.beganNs + MAXIMUM_SAMPLE
    && s.pressureBefore == NORMAL_PRESSURE && s.pressureAfter == NORMAL_PRESSURE && s.swapUsedBytes <= s.swapUsedBeforeBytes
  }

  // One machine that wrote nothing to swap in between.
  predicate SameMachine(x: Sample, y: Sample) {
    x.boot == y.boot && x.pageBytes == y.pageBytes && x.physicalBytes == y.physicalBytes && x.swapOutPages == y.swapOutPages
  }

  // In time, and with no more swap in use.
  predicate InTime(x: Sample, y: Sample, runtime: bool) {
    && (if runtime then x.endedNs < y.beganNs else x.endedNs + ADMISSION_GAP <= y.beganNs)
    && y.beganNs <= x.endedNs + MAXIMUM_GAP && y.swapUsedBeforeBytes <= x.swapUsedBytes
  }

  lemma {:induction false} OneMachine(samples: seq<Sample>, i: nat, j: nat)
    requires i <= j < |samples| && forall k, l :: 0 <= k && l == k + 1 && l < |samples| ==> SameMachine(samples[k], samples[l])
    ensures SameMachine(samples[i], samples[j])
  {
    if i < j {
      OneMachine(samples, i, j - 1);
    }
  }

  // A run is accepted exactly when it has two samples, each healthy, all of one machine, and each in time after the last.
  lemma AcceptedExactly(samples: seq<Sample>, runtime: bool)
    ensures Assessment(samples, runtime).Ok? <==>
            && |samples| >= 2
            && (forall i :: 0 <= i < |samples| ==> Healthy(samples[i], runtime))
            && (forall i, j :: 0 <= i < j < |samples| ==> SameMachine(samples[i], samples[j]))
            && (forall i, j :: 0 <= i && j == i + 1 && j < |samples| ==> InTime(samples[i], samples[j], runtime))
  {
    AssessmentAccepts(samples, runtime);
    forall i | 0 <= i < |samples|
      ensures CheckOne(samples[i], runtime).Ok? <==> Healthy(samples[i], runtime)
    {
    }
    forall i, j | 0 <= i && j == i + 1 && j < |samples|
      ensures CheckPair(samples[i], samples[j], runtime).Ok? <==> SameMachine(samples[i], samples[j]) && InTime(samples[i], samples[j], runtime)
    {
    }
    if NeighboursAccepted(samples, runtime) {
      forall k, l | 0 <= k && l == k + 1 && l < |samples|
        ensures SameMachine(samples[k], samples[l])
      {
        assert CheckPair(samples[k], samples[k + 1], runtime).Ok?;
      }
      forall i, j | 0 <= i < j < |samples|
        ensures SameMachine(samples[i], samples[j])
      {
        OneMachine(samples, i, j);
      }
    }
  }

  // ----- the loops --------------------------------------------------------------------------------------------

  lemma {:induction false} FirstFailingSample(samples: seq<Sample>, runtime: bool, i: nat)
    requires i < |samples| && EachAccepted(samples[..i], runtime) && CheckOne(samples[i], runtime).Err?
    ensures CheckSamples(samples, runtime) == CheckOne(samples[i], runtime)
  {
    if i > 0 {
      assert samples[..i][0] == samples[0];
      assert samples[1..][..i - 1] == samples[..i][1..];
      FirstFailingSample(samples[1..], runtime, i - 1);
    }
  }

  lemma {:induction false} FirstFailingPair(samples: seq<Sample>, runtime: bool, i: nat)
    requires i + 1 < |samples| && NeighboursAccepted(samples[..i + 1], runtime)
    requires CheckPair(samples[i], samples[i + 1], runtime).Err?
    ensures CheckPairs(samples, runtime) == CheckPair(samples[i], samples[i + 1], runtime)
  {
    if i > 0 {
      var front := samples[..i + 1];
      assert CheckPair(front[0], front[0 + 1], runtime).Ok?;
      assert samples[1..][..i] == front[1..];
      forall k | 0 <= k < |front[1..]| - 1
        ensures CheckPair(front[1..][k], front[1..][k + 1], runtime).Ok?
      {
        assert CheckPair(front[k + 1], front[k + 1 + 1], runtime).Ok?;
      }
      FirstFailingPair(samples[1..], runtime, i - 1);
    }
  }

  lemma LeastIsMinimum(samples: seq<Sample>, least: int)
    requires samples != [] && (exists k :: 0 <= k < |samples| && least == samples[k].Free())
    requires forall k :: 0 <= k < |samples| ==> least <= samples[k].Free()
    ensures least == MinimumFree(samples)
  {
    var k :| 0 <= k < |samples| && least == samples[k].Free();
    var m := MinimumFree(samples);
    var l :| 0 <= l < |samples| && m == samples[l].Free();
    assert m <= samples[k].Free() && least <= samples[l].Free();
  }

  method LeastFree(samples: seq<Sample>) returns (least: int)
    requires samples != []
    ensures least == MinimumFree(samples)
  {
    least := samples[0].Free();
    for i := 1 to |samples|
      invariant exists k :: 0 <= k < |samples| && least == samples[k].Free()
      invariant forall k :: 0 <= k < i ==> least <= samples[k].Free()
    {
      if samples[i].Free() < least {
        least := samples[i].Free();
      }
    }
    LeastIsMinimum(samples, least);
  }

  method CheckEach(samples: seq<Sample>, runtime: bool) returns (r: Result<(), GuardCode>)
    ensures r == CheckSamples(samples, runtime)
  {
    for i := 0 to |samples|
      invariant EachAccepted(samples[..i], runtime)
    {
      var checked := CheckOne(samples[i], runtime);
      if checked.Err? {
        FirstFailingSample(samples, runtime, i);
        return checked;
      }
      assert samples[..i + 1] == samples[..i] + [samples[i]];
    }
    assert samples[..|samples|] == samples;
    SamplesAccepted(samples, runtime);
    assert CheckSamples(samples, runtime).value == ();
    return Ok(());
  }

  method CheckNeighbours(samples: seq<Sample>, runtime: bool) returns (r: Result<(), GuardCode>)
    requires samples != []
    ensures r == CheckPairs(samples, runtime)
  {
    for i := 0 to |samples| - 1
      invariant NeighboursAccepted(samples[..i + 1], runtime)
    {
      var checked := CheckPair(samples[i], samples[i + 1], runtime);
      if checked.Err? {
        FirstFailingPair(samples, runtime, i);
        return checked;
      }
    }
    assert samples[..|samples| - 1 + 1] == samples;
    PairsAccepted(samples, runtime);
    assert CheckPairs(samples, runtime).value == ();
    return Ok(());
  }

  method Assess(samples: seq<Sample>, runtime: bool) returns (r: Result<Decision, GuardCode>)
    ensures r == Assessment(samples, runtime)
  {
    if |samples| < 2 {
      return Err(TwoSamplesRequired);
    }
    var each := CheckEach(samples, runtime);
    if each.Err? {
      return Err(each.error);
    }
    var neighbours := CheckNeighbours(samples, runtime);
    if neighbours.Err? {
      return Err(neighbours.error);
    }
    var least := LeastFree(samples);
    return Ok(Decision(runtime, least, Threshold(runtime), samples[|samples| - 1].physicalBytes));
  }

  // ----- the guard --------------------------------------------------------------------------------------------

  // Why a pair of samples is refused at runtime.
  function Refusal(x: Sample, y: Sample): GuardCode {
    var r := Assessment([x, y], true);
    if r.Err? then r.error else SensorFailed
  }

  class RuntimeGuard {
    var previous: Sample
    var last: real
    var count: nat
    var stopped: bool          // a STOP record was written
    ghost var seen: seq<Sample>  // the sample before the run and every accepted one since

    ghost predicate Valid()
      reads this
    {
      && |seen| == count + 1 && seen[count] == previous
      && (count > 0 ==> Assessment(seen, true).Ok?)
    }

    constructor (before: Sample)
      ensures Valid() && seen == [before] && !stopped && last == 0.0
    {
      previous, last, count, stopped := before, 0.0, 0, false;
      seen := [before];
    }

    // `now` and `later` are the clock before and after sampling; the sensor may fail. A refusal is recorded and
    // leaves the chain as it was.
    method Poll(force: bool, now: real, sensor: Option<Sample>, later: real) returns (r: Result<bool, GuardCode>)
      requires Valid()
      modifies this
      ensures Valid()
      ensures
        if !force && now - old(last) < RUNTIME_SPACING then
          r == Ok(false) && seen == old(seen) && last == old(last) && stopped == old(stopped)
        else if sensor.Some? && ValidateSample(sensor.value).Ok? && Assessment(old(seen) + [sensor.value], true).Ok? then
          r == Ok(true) && seen == old(seen) + [sensor.value] && last == later && stopped == old(stopped)
        else
          && seen == old(seen) && last == old(last) && stopped
          && r == Err(if sensor.None? then SensorFailed
                      else if ValidateSample(sensor.value).Err? then ValidateSample(sensor.value).error
                      else Refusal(old(previous), sensor.value))
    {
      if !force && now - last < RUNTIME_SPACING {
        return Ok(false);
      }
      if sensor.None? {
        stopped := true;
        return Err(SensorFailed);
      }
      var current := sensor.value;
      var valid := ValidateSample(current);
      if valid.Err? {
        stopped := true;
        return Err(valid.error);
      }
      var decision := Assess([previous, current], true);
      OneMoreSample(seen, current);
      if decision.Err? {
        stopped := true;
        return Err(decision.error);
      }
      previous, last, count := current, later, count + 1;
      seen := seen + [current];
      return Ok(true);
    }
  }

  // Extending an accepted run by one sample needs only the last pair.
  lemma OneMoreSample(seen: seq<Sample>, current: Sample)
    requires seen != [] && (|seen| > 1 ==> Assessment(seen, true).Ok?)
    ensures Assessment(seen + [current], true).Ok? <==> Assessment([seen[|seen| - 1], current], true).Ok?
  {
    var all, last := seen + [current], |seen| - 1;
    PairByPairIsWhole(all, true);
    if |seen| > 1 {
      PairByPairIsWhole(seen, true);
    }
    assert all[last] == seen[last] && all[last + 1] == current;
    if Assessment([seen[last], current], true).Ok? {
      forall i | 0 <= i < |all| - 1
        ensures Assessment([all[i], all[i + 1]], true).Ok?
      {
        if i < last {
          assert all[i] == seen[i] && all[i + 1] == seen[i + 1];
          assert Assessment([seen[i], seen[i + 1]], true).Ok?;
        }
      }
    }
  }

  // The two admission samples and everything a guard accepted after them pass as one run.
  lemma WholeRunPasses(before: seq<Sample>, seen: seq<Sample>)
    requires Assessment(before, false).Ok? && seen != [] && seen[0] == before[|before| - 1]
    requires |seen| > 1 ==> Assessment(seen, true).Ok?
    ensures Assessment(before + seen[1..], true).Ok?
  {
    AdmissionImpliesRuntime(before);
    AssessmentAccepts(before, true);
    if |seen| > 1 {
      AssessmentAccepts(seen, true);
    }
    var all, n := before + seen[1..], |before|;
    forall i | 0 <= i < |all|
      ensures CheckOne(all[i], true).Ok?
    {
      assert all[i] == if i < n then before[i] else seen[i - n + 1];
    }
    forall i | 0 <= i < |all| - 1
      ensures CheckPair(all[i], all[i + 1], true).Ok?
    {
      if i + 1 < n {
        assert all[i] == before[i] && all[i + 1] == before[i + 1];
      } else {
        assert all[i] == seen[i - n + 1] && all[i + 1] == seen[i - n + 1 + 1];
      }
    }
    AssessmentAccepts(all, true);
  }
}
