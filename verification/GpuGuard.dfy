/** The GPU guard of daemon/src/gpu_guard.cpp: a hysteresis state machine fed with the
    answers of NVML.  Each poll yields a new state and the `throttleRequested` signals it
    emits; utilisation is a whole percent, thresholds are real numbers. */
module GpuGuardModel {
  const BYTES_PER_MB: nat := 1024 * 1024
  const HYSTERESIS: real := 10.0
  const TOTAL_LAYERS: nat := 32

  /** What one poll gets back: a failing call, or both answers. */
  datatype NvmlReply =
    | UtilizationFailed
    | MemoryFailed
    | Sample(percent: nat, freeBytes: nat, totalBytes: nat)

  datatype Guard = Guard(
    hasDevice: bool,
    threshold: real,
    headroomMb: nat,
    utilization: real,
    vramFreeMb: nat,
    vramTotalMb: nat,
    throttled: bool,
    nvmlAvailable: bool
  )

  datatype Outcome = Outcome(guard: Guard, signals: seq<bool>)

  function Fresh(hasDevice: bool, threshold: real, headroomMb: nat): Guard {
    Guard(hasDevice, threshold, headroomMb, 0.0, 0, 0, false, false)
  }

  function Fail(g: Guard): Outcome {
    Outcome(g.(nvmlAvailable := false, throttled := true), [true])
  }

  function Initialize(g: Guard): Outcome {
    if !g.hasDevice then Fail(g) else Outcome(g.(nvmlAvailable := true), [])
  }

  function Stored(g: Guard, r: NvmlReply): Guard
    requires r.Sample?
  {
    g.(utilization := r.percent as real,
       vramFreeMb := r.freeBytes / BYTES_PER_MB,
       vramTotalMb := r.totalBytes / BYTES_PER_MB)
  }

  predicate Overloaded(g: Guard) {
    g.utilization > g.threshold || g.vramFreeMb <= g.headroomMb
  }

  /** The stored figures allow a throttled guard to resume. */
  predicate Relaxed(g: Guard) {
    g.utilization < g.threshold - HYSTERESIS && g.vramFreeMb > g.headroomMb
  }

  datatype Limits = Limits(threshold: real, headroomMb: nat)

  function LimitsOf(g: Guard): Limits {
    Limits(g.threshold, g.headroomMb)
  }

  /** The same conditions on a reply, in bytes. */
  predicate Overloads(l: Limits, r: NvmlReply) {
    r.Sample? && (r.percent as real > l.threshold || r.freeBytes < (l.headroomMb + 1) * 1048576)
  }

  predicate Relaxes(l: Limits, r: NvmlReply) {
    r.Sample? && (r.percent as real) < l.threshold - 10.0 && r.freeBytes >= (l.headroomMb + 1) * 1048576
  }

  /** Strictly inside the limits. */
  predicate Suits(l: Limits, r: NvmlReply) {
    r.Sample? && (r.percent as real) < l.threshold && r.freeBytes >= (l.headroomMb + 1) * 1048576
  }

  function Poll(g: Guard, r: NvmlReply): Outcome {
    if !g.nvmlAvailable then Outcome(g, [])
    else if !r.Sample? then Fail(g)
    else
      var s := Stored(g, r);
      if Overloaded(s) && !s.throttled then Outcome(s.(throttled := true), [true])
      else if s.throttled && Relaxed(s) then Outcome(s.(throttled := false), [false])
      else Outcome(s, [])
  }

  predicate CanAcceptWork(g: Guard) {
    g.nvmlAvailable && g.utilization < g.threshold && g.vramFreeMb > g.headroomMb
  }

  /** A run of polls, with every signal emitted on the way. */
  function PollRun(g: Guard, rs: seq<NvmlReply>): Outcome {
    if rs == [] then Outcome(g, [])
    else
      var before := PollRun(g, rs[..|rs| - 1]);
      var last := Poll(before.guard, rs[|rs| - 1]);
      Outcome(last.guard, before.signals + last.signals)
  }

  // ---- One poll, in bytes --------------------------------------------------------

  lemma {:induction false} Megabytes(bytes: nat, mb: nat)
    ensures bytes / BYTES_PER_MB * 1048576 <= bytes < (bytes / BYTES_PER_MB + 1) * 1048576
    ensures bytes / BYTES_PER_MB <= mb <==> bytes < (mb + 1) * 1048576
  {
  }

  lemma {:induction false} StoredFigures(g: Guard, r: NvmlReply)
    requires r.Sample?
    ensures Overloaded(Stored(g, r)) <==> Overloads(LimitsOf(g), r)
    ensures Relaxed(Stored(g, r)) <==> Relaxes(LimitsOf(g), r)
    ensures g.nvmlAvailable ==> (CanAcceptWork(Stored(g, r)) <==> Suits(LimitsOf(g), r))
  {
    Megabytes(r.freeBytes, g.headroomMb);
  }

  /** Work is accepted iff NVML answers and the latest figures are strictly inside the limits. */
  lemma {:induction false} VerdictInBytes(g: Guard, r: NvmlReply)
    requires g.nvmlAvailable
    ensures CanAcceptWork(Poll(g, r).guard) <==>
              && r.Sample?
              && (r.percent as real) < g.threshold && r.freeBytes >= (g.headroomMb + 1) * 1048576
  {
    if r.Sample? {
      StoredFigures(g, r);
    }
  }

  /** After a successful poll the flag and the verdict can differ in two ways only: an
      unthrottled guard refuses work exactly at the threshold, and a throttled guard would
      accept work exactly inside the hysteresis band. */
  lemma VerdictAfterPoll(g: Guard, r: NvmlReply)
    requires g.nvmlAvailable && r.Sample?
    ensures var g' := Poll(g, r).guard;
            && (!g'.throttled && !CanAcceptWork(g') <==>
                !g'.throttled && g'.utilization == g'.threshold)
            && (g'.throttled && CanAcceptWork(g') <==>
                && g.throttled && g'.vramFreeMb > g'.headroomMb
                && g'.threshold - 10.0 <= g'.utilization < g'.threshold)
  {
  }

  /** The verdict turns true without a signal exactly when an unthrottled guard that was
      refusing work gets figures strictly inside its limits. */
  predicate SilentRise(g: Guard, r: NvmlReply) {
    && g.nvmlAvailable && !g.throttled && !CanAcceptWork(g)
    && r.Sample? && CanAcceptWork(Stored(g, r))
  }

  lemma SilentRiseIsExact(g: Guard, r: NvmlReply)
    ensures var o := Poll(g, r);
            SilentRise(g, r) <==> !g.throttled && !CanAcceptWork(g) && CanAcceptWork(o.guard)
    ensures var o := Poll(g, r);
            !CanAcceptWork(g) && CanAcceptWork(o.guard) && !SilentRise(g, r) ==> g.throttled
  {
  }

  /** Where silent rises come from: a guard that no successful poll has updated yet, or one
      whose last poll was exactly at the threshold. */
  lemma SilentRiseOrigin(g: Guard, before: NvmlReply, r: NvmlReply)
    requires g.nvmlAvailable && SilentRise(Poll(g, before).guard, r)
    ensures before.Sample? && before.percent as real == g.threshold
  {
  }

  /** The first poll of a freshly initialised guard rises silently whenever it finds the
      GPU inside its limits. */
  lemma FirstPollRisesSilently(threshold: real, headroomMb: nat, r: NvmlReply)
    ensures var g := Initialize(Fresh(true, threshold, headroomMb)).guard;
            SilentRise(g, r) <==>
              r.Sample? && r.percent as real < threshold && r.freeBytes >= (headroomMb + 1) * 1048576
  {
    if r.Sample? {
      StoredFigures(Initialize(Fresh(true, threshold, headroomMb)).guard, r);
    }
  }

  // ---- Shape of the signal log -------------------------------------------------

  /** true, false, true, ... */
  function Alternating(n: nat): seq<bool> {
    seq(n, i => i % 2 == 0)
  }

  ghost predicate LogShape(o: Outcome) {
    if o.guard.nvmlAvailable then
      && o.signals == Alternating(|o.signals|)
      && (o.guard.throttled <==> |o.signals| % 2 == 1)
    else
      && |o.signals| > 0
      && o.signals == Alternating(|o.signals| - 1) + [true]
      && o.guard.throttled
  }

  lemma LogShapeKept(o: Outcome, r: NvmlReply)
    requires LogShape(o)
    ensures var next := Poll(o.guard, r);
            LogShape(Outcome(next.guard, o.signals + next.signals))
  {
  }

  /** After one `initialize`, the signals of any run alternate, starting with true, until
      an NVML failure adds one last true. */
  lemma {:induction false} SignalsAlternate(hasDevice: bool, threshold: real, headroomMb: nat, rs: seq<NvmlReply>)
    ensures var start := Initialize(Fresh(hasDevice, threshold, headroomMb));
            var run := PollRun(start.guard, rs);
            LogShape(Outcome(run.guard, start.signals + run.signals))
  {
    var start := Initialize(Fresh(hasDevice, threshold, headroomMb));
    if rs == [] {
      assert start.signals + [] == start.signals;
      assert start.signals == if hasDevice then Alternating(0) else Alternating(0) + [true];
    } else {
      SignalsAlternate(hasDevice, threshold, headroomMb, rs[..|rs| - 1]);
      var before := PollRun(start.guard, rs[..|rs| - 1]);
      LogShapeKept(Outcome(before.guard, start.signals + before.signals), rs[|rs| - 1]);
      var last := Poll(before.guard, rs[|rs| - 1]);
      assert start.signals + (before.signals + last.signals) == (start.signals + before.signals) + last.signals;
    }
  }

  /** A failed guard never signals again and never accepts work again. */
  lemma {:induction false} FailureIsFinal(g: Guard, rs: seq<NvmlReply>)
    requires !g.nvmlAvailable
    ensures PollRun(g, rs) == Outcome(g, [])
    ensures !CanAcceptWork(PollRun(g, rs).guard)
  {
    if rs != [] {
      FailureIsFinal(g, rs[..|rs| - 1]);
    }
  }

  /** A guard stays available exactly as long as NVML answers. */
  lemma {:induction false} AvailableIffAllAnswered(g: Guard, rs: seq<NvmlReply>)
    ensures PollRun(g, rs).guard.nvmlAvailable <==>
            g.nvmlAvailable && forall i :: 0 <= i < |rs| ==> rs[i].Sample?
  {
    if rs != [] {
      var before := rs[..|rs| - 1];
      AvailableIffAllAnswered(g, before);
      assert rs == before + [rs[|rs| - 1]];
    }
  }

  /** Without a device, the guard signals a throttle once and for all: it refuses work and is
      throttled after any replies. */
  lemma {:induction false} WithoutDevice(threshold: real, headroomMb: nat, rs: seq<NvmlReply>)
    ensures var start := Initialize(Fresh(false, threshold, headroomMb));
            var run := PollRun(start.guard, rs);
            && start.signals + run.signals == [true]
            && !run.guard.nvmlAvailable && run.guard.throttled && !CanAcceptWork(run.guard)
  {
    FailureIsFinal(Initialize(Fresh(false, threshold, headroomMb)).guard, rs);
  }

  // ---- Anti-flapping -----------------------------------------------------------

  function Abs(x: int): nat {
    if x < 0 then -x else x
  }

  /** Total variation of the polled utilisation. */
  function Variation(rs: seq<NvmlReply>): nat
    requires forall i :: 0 <= i < |rs| ==> rs[i].Sample?
  {
    if |rs| < 2 then 0
    else Variation(rs[..|rs| - 1]) + Abs(rs[|rs| - 1].percent - rs[|rs| - 2].percent)
  }

  /** Percents are whole, so two samples on either side of the band are this far apart. */
  function Swing(threshold: real): nat {
    if threshold == threshold.Floor as real then 12 else 11
  }

  lemma SwingAcrossBand(threshold: real, high: nat, low: nat)
    requires high as real > threshold && (low as real) < threshold - 10.0
    ensures high - low >= Swing(threshold)
  {
    assert (high - low) as real > 10.0;
    if threshold == threshold.Floor as real {
      assert high >= threshold.Floor + 1;
      assert low <= threshold.Floor - 11;
    }
  }

  /** Every reply is a sample that leaves more free memory than the headroom. */
  ghost predicate AmpleMemory(g: Guard, rs: seq<NvmlReply>) {
    forall i :: 0 <= i < |rs| ==> rs[i].Sample? && rs[i].freeBytes >= (g.headroomMb + 1) * 1048576
  }

  /** The utilisation at the last poll that emitted a signal. */
  function LastSwitch(g: Guard, rs: seq<NvmlReply>): nat
    requires forall i :: 0 <= i < |rs| ==> rs[i].Sample?
  {
    if rs == [] then 0
    else if Poll(PollRun(g, rs[..|rs| - 1]).guard, rs[|rs| - 1]).signals != [] then rs[|rs| - 1].percent
    else LastSwitch(g, rs[..|rs| - 1])
  }

  ghost predicate SwitchSide(o: Outcome, at: nat) {
    if o.guard.throttled then at as real > o.guard.threshold
    else (at as real) < o.guard.threshold - 10.0
  }

  lemma {:induction false} PollRunKeepsLimits(g: Guard, rs: seq<NvmlReply>)
    requires g.nvmlAvailable && AmpleMemory(g, rs)
    ensures var o := PollRun(g, rs);
            o.guard.nvmlAvailable && o.guard.threshold == g.threshold && o.guard.headroomMb == g.headroomMb
  {
    if rs != [] {
      PollRunKeepsLimits(g, rs[..|rs| - 1]);
    }
  }

  lemma OneSignalStep(o: Outcome, r: NvmlReply, at: nat)
    requires o.guard.nvmlAvailable && r.Sample? && r.freeBytes >= (o.guard.headroomMb + 1) * 1048576
    requires o.signals != [] ==> SwitchSide(o, at)
    ensures var next := Poll(o.guard, r);
            && |next.signals| <= 1
            && (next.signals != [] ==>
                && SwitchSide(next, r.percent)
                && (o.signals != [] ==> Abs(r.percent - at) >= Swing(o.guard.threshold)))
            && (next.signals == [] ==> next.guard.throttled == o.guard.throttled)
  {
    var next := Poll(o.guard, r);
    if next.signals != [] && o.signals != [] {
      if o.guard.throttled {
        SwingAcrossBand(o.guard.threshold, at, r.percent);
      } else {
        SwingAcrossBand(o.guard.threshold, r.percent, at);
      }
    }
  }

  /** What the variation `v` of the samples up to `now` has paid for: every switch but the
      first, and the way from the last switch to here. */
  ghost predicate Paid(v: nat, switches: nat, swing: nat, way: nat) {
    switches > 0 ==> v >= swing * (switches - 1) + way
  }

  lemma PaidOnward(v: nat, switches: nat, swing: nat, at: nat, last: nat, now: nat)
    requires Paid(v, switches, swing, Abs(last - at))
    ensures Paid(v + Abs(now - last), switches, swing, Abs(now - at))
    ensures switches > 0 && Abs(now - at) >= swing ==> Paid(v + Abs(now - last), switches + 1, swing, 0)
  {
  }

  /** One more sample, given what the samples before it have paid for. */
  lemma {:induction false} VariationStep(g: Guard, before: seq<NvmlReply>, r: NvmlReply)
    requires g.nvmlAvailable && AmpleMemory(g, before) && before != []
    requires r.Sample? && r.freeBytes >= (g.headroomMb + 1) * 1048576
    requires var o := PollRun(g, before);
             && (o.signals != [] ==> SwitchSide(o, LastSwitch(g, before)))
             && Paid(Variation(before), |o.signals|, Swing(g.threshold),
                     Abs(before[|before| - 1].percent - LastSwitch(g, before)))
    ensures var o := PollRun(g, before);
            var next := Poll(o.guard, r);
            var at := if next.signals != [] then r.percent else LastSwitch(g, before);
            Paid(Variation(before) + Abs(r.percent - before[|before| - 1].percent),
                 |o.signals + next.signals|, Swing(g.threshold), Abs(r.percent - at))
  {
    var o, at := PollRun(g, before), LastSwitch(g, before);
    PollRunKeepsLimits(g, before);
    OneSignalStep(o, r, at);
    PaidOnward(Variation(before), |o.signals|, Swing(g.threshold), at, before[|before| - 1].percent, r.percent);
  }

  /** The claim about a run: the last switch was on its side of the band, and the variation
      has paid for every switch. */
  ghost predicate Covered(g: Guard, rs: seq<NvmlReply>)
    requires rs != [] && forall i :: 0 <= i < |rs| ==> rs[i].Sample?
  {
    var o := PollRun(g, rs);
    && (o.signals != [] ==> SwitchSide(o, LastSwitch(g, rs)))
    && Paid(Variation(rs), |o.signals|, Swing(g.threshold), Abs(rs[|rs| - 1].percent - LastSwitch(g, rs)))
  }

  lemma {:induction false} FirstSampleCovered(g: Guard, r: NvmlReply)
    requires g.nvmlAvailable && AmpleMemory(g, [r])
    ensures Covered(g, [r])
  {
    assert [r][..0] == [];
    assert r == [r][0];
    OneSignalStep(PollRun(g, []), r, 0);
  }

  lemma {:induction false} NextSampleCovered(g: Guard, before: seq<NvmlReply>, r: NvmlReply)
    requires g.nvmlAvailable && AmpleMemory(g, before) && before != [] && Covered(g, before)
    requires r.Sample? && r.freeBytes >= (g.headroomMb + 1) * 1048576
    ensures forall i :: 0 <= i < |before + [r]| ==> (before + [r])[i].Sample?
    ensures Covered(g, before + [r])
  {
    var rs := before + [r];
    assert rs[..|rs| - 1] == before && rs[|rs| - 1] == r && rs[|rs| - 2] == before[|before| - 1];
    PollRunKeepsLimits(g, before);
    VariationStep(g, before, r);
    OneSignalStep(PollRun(g, before), r, LastSwitch(g, before));
  }

  lemma {:induction false} VariationCoversSwitches(g: Guard, rs: seq<NvmlReply>)
    requires g.nvmlAvailable && AmpleMemory(g, rs) && rs != []
    ensures Covered(g, rs)
  {
    var before, r := rs[..|rs| - 1], rs[|rs| - 1];
    if before == [] {
      assert rs == [r];
      FirstSampleCovered(g, r);
    } else {
      VariationCoversSwitches(g, before);
      NextSampleCovered(g, before, r);
      assert rs == before + [r];
    }
  }

  /** Anti-flapping: while memory is ample, m switches of the throttle cost a total
      variation of utilisation of at least 11 (m - 1) percent, 12 (m - 1) when the
      threshold is a whole number. */
  lemma {:induction false} FlappingCostsVariation(g: Guard, rs: seq<NvmlReply>)
    requires g.nvmlAvailable && AmpleMemory(g, rs)
    ensures var m := |PollRun(g, rs).signals|;
            m > 0 ==> Variation(rs) >= Swing(g.threshold) * (m - 1)
  {
    if rs != [] {
      VariationCoversSwitches(g, rs);
    }
  }

  /** Samples that jump over the band and back, as narrowly as whole percents allow. */
  function Zigzag(threshold: real, freeBytes: nat, n: nat): (rs: seq<NvmlReply>)
    requires threshold >= 11.0
    ensures |rs| == n
  {
    var high := threshold.Floor + 1;
    seq(n, i => Sample(if i % 2 == 0 then high else high - Swing(threshold), freeBytes, freeBytes))
  }

  ghost predicate Zigzagged(g: Guard, o: Outcome, n: nat) {
    && o.guard.nvmlAvailable && o.guard.threshold == g.threshold && o.guard.headroomMb == g.headroomMb
    && |o.signals| == n && (o.guard.throttled <==> n % 2 == 1)
  }

  lemma ZigzagStep(g: Guard, o: Outcome, n: nat, freeBytes: nat)
    requires Zigzagged(g, o, n) && g.threshold >= 11.0
    requires freeBytes >= (g.headroomMb + 1) * 1048576
    ensures var high := g.threshold.Floor + 1;
            var percent := if n % 2 == 0 then high else high - Swing(g.threshold);
            var next := Poll(o.guard, Sample(percent, freeBytes, freeBytes));
            Zigzagged(g, Outcome(next.guard, o.signals + next.signals), n + 1)
  {
  }

  /** Zigzag samples switch the throttle at every poll. */
  lemma {:induction false} ZigzagSwitches(g: Guard, freeBytes: nat, n: nat)
    requires g.nvmlAvailable && !g.throttled && g.threshold >= 11.0
    requires freeBytes >= (g.headroomMb + 1) * 1048576
    ensures Zigzagged(g, PollRun(g, Zigzag(g.threshold, freeBytes, n)), n)
  {
    var rs := Zigzag(g.threshold, freeBytes, n);
    if n > 0 {
      assert rs[..n - 1] == Zigzag(g.threshold, freeBytes, n - 1);
      ZigzagSwitches(g, freeBytes, n - 1);
      ZigzagStep(g, PollRun(g, rs[..n - 1]), n - 1, freeBytes);
    }
  }

  lemma {:induction false} ZigzagVariation(threshold: real, freeBytes: nat, n: nat)
    requires threshold >= 11.0 && n > 0
    ensures Variation(Zigzag(threshold, freeBytes, n)) == Swing(threshold) * (n - 1)
  {
    var rs := Zigzag(threshold, freeBytes, n);
    if n > 1 {
      assert rs[..n - 1] == Zigzag(threshold, freeBytes, n - 1);
      ZigzagVariation(threshold, freeBytes, n - 1);
      assert Swing(threshold) * (n - 1) == Swing(threshold) * (n - 2) + Swing(threshold);
    }
  }

  /** No larger bound holds: for every number of switches there is a run, with ample
      memory, that costs exactly the variation of the bound. */
  lemma FlappingBoundIsTight(g: Guard, freeBytes: nat, m: nat)
    requires g.nvmlAvailable && !g.throttled && g.threshold >= 11.0
    requires freeBytes >= (g.headroomMb + 1) * 1048576
    requires m > 0
    ensures var rs := Zigzag(g.threshold, freeBytes, m);
            && AmpleMemory(g, rs)
            && |PollRun(g, rs).signals| == m
            && Variation(rs) == Swing(g.threshold) * (m - 1)
  {
    ZigzagSwitches(g, freeBytes, m);
    ZigzagVariation(g.threshold, freeBytes, m);
  }

  // ---- Layers ------------------------------------------------------------------

  /** `static_cast<int>` of an unsigned value: two's complement, 32 bits. */
  function ToInt32(n: nat): int {
    var low := n % 0x1_0000_0000;
    if low < 0x8000_0000 then low else low - 0x1_0000_0000
  }

  function PerLayer(modelSizeMb: nat): nat {
    var perLayer := modelSizeMb / TOTAL_LAYERS;
    if perLayer == 0 then 1 else perLayer
  }

  function Usable(g: Guard): nat {
    if g.vramFreeMb <= g.headroomMb then 0 else g.vramFreeMb - g.headroomMb
  }

  function Clamp(layers: int): int {
    if layers > TOTAL_LAYERS then TOTAL_LAYERS
    else if layers < 0 then 0
    else layers
  }

  function OptimalLayers(g: Guard, modelSizeMb: nat): int {
    if !g.nvmlAvailable || modelSizeMb == 0 then 0
    else if g.vramFreeMb <= g.headroomMb then 0
    else
      Clamp(ToInt32((g.vramFreeMb - g.headroomMb) / PerLayer(modelSizeMb)))
  }

  /** `n` layers fit, and no larger number up to 32 does. */
  ghost predicate MostLayers(n: int, perLayer: nat, usable: nat) {
    && 0 <= n <= 32
    && n * perLayer <= usable
    && forall m :: n < m <= 32 ==> m * perLayer > usable
  }

  /** The quotient survives the cast to a 32-bit int, or at least its clamping to 32. */
  predicate CastIsHarmless(q: nat) {
    q < 0x8000_0000 || 32 <= q % 0x1_0000_0000 < 0x8000_0000
  }

  lemma MostLayersOfQuotient(perLayer: nat, usable: nat)
    requires perLayer > 0
    ensures var q := usable / perLayer;
            MostLayers(if q > 32 then 32 else q, perLayer, usable)
  {
    var q := usable / perLayer;
    assert usable == q * perLayer + usable % perLayer;
    if q > 32 {
      ProductMonotone(32, q, perLayer);
    }
    forall m | q < m <= 32 ensures m * perLayer > usable {
      ProductMonotone(q + 1, m, perLayer);
      assert (q + 1) * perLayer == q * perLayer + perLayer;
    }
  }

  lemma ProductMonotone(a: nat, b: nat, c: nat)
    requires a <= b
    ensures a * c <= b * c
  {
  }

  lemma MostLayersUnique(n: int, m: int, perLayer: nat, usable: nat)
    requires MostLayers(n, perLayer, usable) && MostLayers(m, perLayer, usable)
    ensures n == m
  {
  }

  lemma MostLayersIffQuotient(n: int, perLayer: nat, usable: nat)
    requires perLayer > 0
    ensures var q := usable / perLayer;
            MostLayers(n, perLayer, usable) <==> n == if q > 32 then 32 else q
  {
    var q := usable / perLayer;
    MostLayersOfQuotient(perLayer, usable);
    if MostLayers(n, perLayer, usable) {
      MostLayersUnique(n, if q > 32 then 32 else q, perLayer, usable);
    }
  }

  lemma ClampedCast(q: nat)
    ensures Clamp(ToInt32(q)) == (if q > 32 then 32 else q) <==> CastIsHarmless(q)
  {
  }

  lemma LayersOfQuotient(g: Guard, modelSizeMb: nat)
    requires g.nvmlAvailable && modelSizeMb >= 1
    ensures OptimalLayers(g, modelSizeMb) == Clamp(ToInt32(Usable(g) / PerLayer(modelSizeMb)))
  {
    if g.vramFreeMb <= g.headroomMb {
      assert Usable(g) / PerLayer(modelSizeMb) == 0;
    }
  }

  /** The layer count is the best one exactly when the cast does no harm; without headroom
      it is zero. */
  lemma LayersAreOptimal(g: Guard, modelSizeMb: nat)
    requires g.nvmlAvailable && modelSizeMb >= 1
    ensures MostLayers(OptimalLayers(g, modelSizeMb), PerLayer(modelSizeMb), Usable(g)) <==>
            CastIsHarmless(Usable(g) / PerLayer(modelSizeMb))
  {
    LayersOfQuotient(g, modelSizeMb);
    ClampedCast(Usable(g) / PerLayer(modelSizeMb));
    MostLayersIffQuotient(OptimalLayers(g, modelSizeMb), PerLayer(modelSizeMb), Usable(g));
  }

  /** The cast can cost all layers: when a poll reports this much free memory, all 32 layers
      of a model of one megabyte fit, and none is chosen. */
  lemma CastLosesAllLayers(threshold: real, headroomMb: nat, percent: nat)
    ensures var freeBytes := (headroomMb + 0x8000_0000) * 1048576;
            var start := Initialize(Fresh(true, threshold, headroomMb)).guard;
            var g := Poll(start, Sample(percent, freeBytes, freeBytes)).guard;
            && OptimalLayers(g, 1) == 0
            && MostLayers(32, PerLayer(1), Usable(g))
            && (headroomMb < 0x1_0000_0000 ==> freeBytes < 0x1_0000_0000_0000_0000)
  {
  }

  /** No layers without NVML, without a model, or without headroom. */
  lemma NoLayers(g: Guard, modelSizeMb: nat)
    requires !g.nvmlAvailable || modelSizeMb == 0 || g.vramFreeMb <= g.headroomMb
    ensures OptimalLayers(g, modelSizeMb) == 0
  {
  }

  /** All 32 layers when the model fits, and at least one megabyte for each layer. */
  lemma {:induction false} AllLayers(g: Guard, modelSizeMb: nat)
    requires g.nvmlAvailable && 1 <= modelSizeMb && g.vramFreeMb < g.headroomMb + 0x8000_0000
    requires g.vramFreeMb >= g.headroomMb + modelSizeMb && g.vramFreeMb >= g.headroomMb + 32
    ensures OptimalLayers(g, modelSizeMb) == 32
  {
    EnoughForAll(PerLayer(modelSizeMb), Usable(g));
  }

  lemma {:induction false} EnoughForAll(perLayer: nat, usable: nat)
    requires perLayer > 0 && 32 * perLayer <= usable < 0x8000_0000
    ensures 32 <= usable / perLayer < 0x8000_0000
  {
    var q := usable / perLayer;
    assert usable == q * perLayer + usable % perLayer;
    if q < 32 {
      ProductMonotone(q + 1, 32, perLayer);
    }
    ProductMonotone(1, perLayer, q);
  }

  lemma RoundedShare(n: nat, modelSizeMb: nat, perLayer: nat, usable: nat)
    requires n * perLayer <= usable && modelSizeMb <= 32 * perLayer + 31
    ensures n * modelSizeMb <= 32 * usable + 31 * n
  {
    ProductMonotone(modelSizeMb, 32 * perLayer + 31, n);
    assert (32 * perLayer + 31) * n == 32 * (n * perLayer) + 31 * n;
  }

  /** Real memory bound, despite the rounded size per layer: the chosen share of the model
      exceeds the usable memory by less than one megabyte per chosen layer. */
  lemma LayersFitInMemory(g: Guard, modelSizeMb: nat)
    requires g.nvmlAvailable && modelSizeMb >= 1
    requires CastIsHarmless(Usable(g) / PerLayer(modelSizeMb))
    ensures var n := OptimalLayers(g, modelSizeMb);
            n * modelSizeMb <= 32 * Usable(g) + 31 * n
  {
    LayersAreOptimal(g, modelSizeMb);
    RoundedShare(OptimalLayers(g, modelSizeMb), modelSizeMb, PerLayer(modelSizeMb), Usable(g));
  }

  lemma {:induction false} NotRoundedAway(n: nat, modelSizeMb: nat, perLayer: nat, usable: nat)
    requires (n + 1) * perLayer > usable && 32 * perLayer <= modelSizeMb
    ensures (n + 1) * modelSizeMb > 32 * usable
  {
    ProductMonotone(32 * perLayer, modelSizeMb, n + 1);
    assert (32 * perLayer) * (n + 1) == 32 * ((n + 1) * perLayer);
  }

  /** No memory is wasted by the rounding either: unless all layers are chosen, the share of
      one more layer would not fit. */
  lemma LayersUseTheMemory(g: Guard, modelSizeMb: nat)
    requires g.nvmlAvailable && modelSizeMb >= 1
    requires CastIsHarmless(Usable(g) / PerLayer(modelSizeMb))
    requires OptimalLayers(g, modelSizeMb) < 32
    ensures var n := OptimalLayers(g, modelSizeMb);
            if modelSizeMb >= 32 then (n + 1) * modelSizeMb > 32 * Usable(g)
            else n == Usable(g)
  {
    LayersAreOptimal(g, modelSizeMb);
    var n, perLayer := OptimalLayers(g, modelSizeMb), PerLayer(modelSizeMb);
    assert (n + 1) * perLayer > Usable(g);
    if modelSizeMb >= 32 {
      NotRoundedAway(n, modelSizeMb, perLayer, Usable(g));
    }
  }

  /** More free memory, a smaller model or a smaller headroom never yields fewer layers. */
  lemma LayersAreMonotone(g: Guard, h: Guard, modelG: nat, modelH: nat)
    requires g.nvmlAvailable && h.nvmlAvailable && 1 <= modelH <= modelG
    requires g.vramFreeMb <= h.vramFreeMb && h.headroomMb <= g.headroomMb
    requires CastIsHarmless(Usable(g) / PerLayer(modelG))
    requires CastIsHarmless(Usable(h) / PerLayer(modelH))
    ensures OptimalLayers(g, modelG) <= OptimalLayers(h, modelH)
  {
    LayersAreOptimal(g, modelG);
    LayersAreOptimal(h, modelH);
    var n, m := OptimalLayers(g, modelG), OptimalLayers(h, modelH);
    ProductMonotone(PerLayer(modelH), PerLayer(modelG), n);
    assert m < n ==> n * PerLayer(modelH) > Usable(h);
  }

  // ---- The object ----------------------------------------------------------------

  /** The fields of the guard, updated in place; `signals` is the log of what it emitted. */
  class GpuGuard {
    const hasDevice: bool
    const utilThreshold: real
    const vramHeadroomMb: nat
    var utilization: real
    var vramFreeMb: nat
    var vramTotalMb: nat
    var throttled: bool
    var nvmlAvailable: bool
    var signals: seq<bool>

    function State(): Guard
      reads this
    {
      Guard(hasDevice, utilThreshold, vramHeadroomMb, utilization, vramFreeMb, vramTotalMb, throttled, nvmlAvailable)
    }

    constructor (hasDevice: bool, utilThreshold: real, vramHeadroomMb: nat)
      ensures State() == Fresh(hasDevice, utilThreshold, vramHeadroomMb) && signals == []
      ensures utilization == 0.0 && vramFreeMb == 0 && vramTotalMb == 0 && !throttled && !nvmlAvailable
    {
      this.hasDevice, this.utilThreshold, this.vramHeadroomMb := hasDevice, utilThreshold, vramHeadroomMb;
      utilization, vramFreeMb, vramTotalMb := 0.0, 0, 0;
      throttled, nvmlAvailable, signals := false, false, [];
    }

    method Start() returns (ok: bool)
      modifies this
      ensures ok == hasDevice == nvmlAvailable
      ensures signals == old(signals) + if hasDevice then [] else [true]
      ensures throttled == if hasDevice then old(throttled) else true
      ensures Outcome(State(), signals) ==
              var o := Initialize(old(State())); Outcome(o.guard, old(signals) + o.signals)
    {
      if !hasDevice {
        nvmlAvailable := false;
        throttled := true;
        signals := signals + [true];
        return false;
      }
      nvmlAvailable := true;
      return true;
    }

    /** One timer tick. */
    method PollGpu(reply: NvmlReply)
      modifies this
      ensures Outcome(State(), signals) ==
              var o := Poll(old(State()), reply); Outcome(o.guard, old(signals) + o.signals)
      ensures old(nvmlAvailable) && reply.Sample? ==>
                && nvmlAvailable && utilization == reply.percent as real
                && vramFreeMb * 1048576 <= reply.freeBytes < (vramFreeMb + 1) * 1048576
                && vramTotalMb * 1048576 <= reply.totalBytes < (vramTotalMb + 1) * 1048576
      ensures old(nvmlAvailable) && reply.Sample? ==>
                (throttled <==>
                  || reply.percent as real > utilThreshold
                  || reply.freeBytes < (vramHeadroomMb + 1) * 1048576
                  || (old(throttled) && reply.percent as real >= utilThreshold - 10.0))
      ensures old(nvmlAvailable) && reply.Sample? ==>
                signals == old(signals) + if throttled == old(throttled) then [] else [throttled]
      ensures old(nvmlAvailable) && !reply.Sample? ==>
                !nvmlAvailable && throttled && signals == old(signals) + [true]
      ensures !old(nvmlAvailable) ==> unchanged(this)
    {
      if !nvmlAvailable {
        return;
      }
      if reply.UtilizationFailed? || reply.MemoryFailed? {
        nvmlAvailable := false;
        throttled := true;
        signals := signals + [true];
        return;
      }
      Megabytes(reply.freeBytes, vramHeadroomMb);
      Megabytes(reply.totalBytes, 0);
      utilization := reply.percent as real;
      vramFreeMb := reply.freeBytes / BYTES_PER_MB;
      vramTotalMb := reply.totalBytes / BYTES_PER_MB;
      var shouldThrottle := utilization > utilThreshold || vramFreeMb <= vramHeadroomMb;
      if shouldThrottle && !throttled {
        throttled := true;
        signals := signals + [true];
      } else if throttled && utilization < utilThreshold - HYSTERESIS && vramFreeMb > vramHeadroomMb {
        throttled := false;
        signals := signals + [false];
      }
    }
  }
}
