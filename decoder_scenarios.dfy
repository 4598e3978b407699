/**
 * Runs of teeth through the decoder, and the unit tests of src/decoder.c as
 * lemmas about such runs.
 *
 * Each test drives a freshly initialised decoder (every field zero before
 * decoder_init) with a table of edges: it latches an edge and calls the
 * configured decode function, then checks state, loss reason, angle and
 * expiry. rpm_from_time_diff is not part of this model, so each lemma assumes
 * only what the tooth pattern of the test implies about it: teeth arriving at
 * a constant rate give the same slice and window rpm, above trigger_min_rpm.
 * The tests hold for every length of the shift register that lets the tooth
 * counter reach required_triggers_rpm.
 */
module DecoderScenarios {
  import opened Platform
  import opened DecoderSpec

  /** What validate_decoder_sequence does for one edge: latch it, then decode. */
  function Feed(d: Decoder, trigger: int, t: Time, rpmOf: RpmFn): (r: Decoder)
    requires Inv(d) && d.output.decode != NoDecoder
    ensures Inv(r) && r.output.decode == d.output.decode && r.config == d.config
  {
    DecodeKeepsInv(LatchEdge(d, trigger, t), rpmOf);
    Decode(LatchEdge(d, trigger, t), rpmOf)
  }

  /**
   * A row of a test table (`struct decoder_event`): the edges to latch, their
   * time, and the state the decoder is expected to be in after decoding them.
   */
  datatype Event = Event(t0: bool, t1: bool, time: Time, state: DecoderState, valid: bool, reason: LossReason)

  /** A row with a primary edge only. */
  function Tooth(t: Time, state: DecoderState, valid: bool, reason: LossReason): Event {
    Event(true, false, t, state, valid, reason)
  }

  /** A row with a sync edge only. */
  function SyncEdge(t: Time, state: DecoderState, valid: bool, reason: LossReason): Event {
    Event(false, true, t, state, valid, reason)
  }

  /** The loop body of validate_decoder_sequence: latch the row's edges, then decode. */
  function Apply(d: Decoder, ev: Event, rpmOf: RpmFn): (r: Decoder)
    requires Inv(d) && d.output.decode != NoDecoder
    ensures Inv(r) && r.output.decode == d.output.decode && r.config == d.config
  {
    var l0 := if ev.t0 then LatchEdge(d, 0, ev.time) else d;
    var l := if ev.t1 then LatchEdge(l0, 1, ev.time) else l0;
    DecodeKeepsInv(l, rpmOf);
    Decode(l, rpmOf)
  }

  /**
   * The check of validate_decoder_sequence after a row: the state is the
   * expected one, and so is the loss reason when the row expects an invalid
   * decoder. The validity flag itself is checked too.
   */
  predicate Meets(d: Decoder, ev: Event) {
    && d.internal.state == ev.state && d.output.valid == ev.valid
    && (!ev.valid ==> d.debug.loss == ev.reason)
  }

  /** The decoder after all rows of evs. */
  function Replay(d: Decoder, evs: seq<Event>, rpmOf: RpmFn): (r: Decoder)
    requires Inv(d) && d.output.decode != NoDecoder
    ensures Inv(r) && r.output.decode == d.output.decode && r.config == d.config
    decreases |evs|
  {
    if evs == [] then d else Replay(Apply(d, evs[0], rpmOf), evs[1..], rpmOf)
  }

  /** validate_decoder_sequence passes: every row's expectation holds once that row is decoded. */
  predicate Validates(d: Decoder, evs: seq<Event>, rpmOf: RpmFn)
    requires Inv(d) && d.output.decode != NoDecoder
    decreases |evs|
  {
    evs == [] || (Meets(Apply(d, evs[0], rpmOf), evs[0]) && Validates(Apply(d, evs[0], rpmOf), evs[1..], rpmOf))
  }

  /** A table split in two is validated by validating its halves in turn. */
  lemma {:induction false} ReplayAppend(d: Decoder, a: seq<Event>, b: seq<Event>, rpmOf: RpmFn)
    requires Inv(d) && d.output.decode != NoDecoder
    ensures Replay(d, a + b, rpmOf) == Replay(Replay(d, a, rpmOf), b, rpmOf)
    ensures Validates(d, a + b, rpmOf) <==> Validates(d, a, rpmOf) && Validates(Replay(d, a, rpmOf), b, rpmOf)
    decreases |a|
  {
    if a == [] {
      assert a + b == b;
    } else {
      assert (a + b)[0] == a[0];
      assert (a + b)[1..] == a[1..] + b;
      ReplayAppend(Apply(d, a[0], rpmOf), a[1..], b, rpmOf);
    }
  }

  /** Rows for k primary teeth delta apart from t, each expecting (state, valid, reason). */
  function Teeth(t: int, delta: nat, k: nat, state: DecoderState, valid: bool, reason: LossReason): (evs: seq<Event>)
    requires 0 <= t && t + k * delta < WORD
    ensures |evs| == k
    decreases k
  {
    if k == 0 then []
    else [Tooth(t, state, valid, reason)] + Teeth(t + delta, delta, k - 1, state, valid, reason)
  }

  /** The tooth counter after one more primary edge. */
  function NextCount(d: Decoder): nat {
    if d.internal.currentTriggersRpm < |d.times| then d.internal.currentTriggersRpm + 1
    else d.internal.currentTriggersRpm
  }

  /** Entry i of a shift register: the time of the i-th newest edge. */
  function TimeAt(ts: seq<Time>, i: nat): Time
    requires i < |ts|
  {
    ts[i]
  }

  /** The n newest entries of ts are teeth spaced delta apart, the newest at `last`. */
  predicate Uniform(ts: seq<Time>, last: int, delta: int, n: nat) {
    n <= |ts| && forall i {:trigger TimeAt(ts, i)} :: 0 <= i < n ==> TimeAt(ts, i) == last - i * delta
  }

  /**
   * A tooth at t that continues a constant tooth rate: the rpm window is full
   * after it, the window holds teeth delta apart, the tooth count since sync
   * stays within num_triggers, and rpm_from_time_diff gives one tooth and the
   * whole window the same rpm, above trigger_min_rpm.
   */
  predicate SteadyTooth(d: Decoder, t: Time, delta: int, rpmOf: RpmFn) {
    var c := d.config;
    var w := c.rpmWindowSize;
    && WellFormed(d)
    && 2 <= w <= |d.times| && NextCount(d) >= w
    && 0 < delta <= t && (w - 1) * delta <= t
    && Uniform(d.times, t - delta, delta, w - 1)
    && c.triggerMaxRpmChange >= 0.0
    && d.internal.triggersSinceLastSync < c.numTriggers < WORD
    && rpmOf(delta, c.degreesPerTrigger) == rpmOf((w - 1) * delta, c.degreesPerTrigger * (w - 1))
    && rpmOf(delta, c.degreesPerTrigger) > c.triggerMinRpm
  }

  lemma PushKeepsUniform(ts: seq<Time>, t: Time, delta: int, n: nat)
    requires |ts| > 0 && Uniform(ts, t - delta, delta, n)
    ensures Uniform(PushTime(ts, t), t, delta, if n < |ts| then n + 1 else n)
  {
    var r := PushTime(ts, t);
    var m := if n < |ts| then n + 1 else n;
    forall i | 0 <= i < m
      ensures TimeAt(r, i) == t - i * delta
    {
      if i > 0 {
        assert TimeAt(r, i) == TimeAt(ts, i - 1) == (t - delta) - (i - 1) * delta;
      }
    }
  }

  /** The crank angle after n teeth in SYNC, each advancing it as trigger_update does. */
  function AngleAfter(angle: int, degrees: int, n: nat): (r: int)
    requires 0 <= angle < 720 && 0 <= degrees <= 720
    ensures 0 <= r < 720
    decreases n
  {
    if n == 0 then angle else AdvanceAngle(AngleAfter(angle, degrees, n - 1), degrees)
  }

  lemma ModShift(x: int, y: int)
    ensures ((x % 720) + y) % 720 == (x + y) % 720
  {
    var q := x / 720;
    assert x == 720 * q + x % 720;
    assert x + y == 720 * q + (x % 720 + y);
  }

  /** One tooth in SYNC advances the angle modulo 720. */
  lemma AdvanceIsMod(angle: int, degrees: int)
    requires 0 <= angle < 720 && 0 <= degrees <= 720
    ensures AdvanceAngle(angle, degrees) == (angle + degrees) % 720
  {
    if angle + degrees >= 720 {
      assert angle + degrees == 720 + (angle + degrees - 720);
    }
  }

  /** n teeth in SYNC advance the angle by n * degrees_per_trigger, modulo 720. */
  lemma {:induction false} AngleAfterIsMod(angle: int, degrees: int, n: nat)
    requires 0 <= angle < 720 && 0 <= degrees <= 720
    ensures AngleAfter(angle, degrees, n) == (angle + n * degrees) % 720
    decreases n
  {
    if n > 0 {
      AngleAfterIsMod(angle, degrees, n - 1);
      AdvanceFromMod(AngleAfter(angle, degrees, n - 1), angle + (n - 1) * degrees, degrees);
      OneMore(n, degrees);
    }
  }

  lemma OneMore(n: int, degrees: int)
    ensures (n - 1) * degrees + degrees == n * degrees
  {
  }

  /** Advancing an angle that is x modulo 720 gives x + degrees modulo 720. */
  lemma AdvanceFromMod(a: int, x: int, degrees: int)
    requires 0 <= a < 720 && 0 <= degrees <= 720 && a == x % 720
    ensures AdvanceAngle(a, degrees) == (x + degrees) % 720
  {
    AdvanceIsMod(a, degrees);
    ModShift(x, degrees);
  }

  // ---------------------------------------------------------------------------
  // Single edges
  // ---------------------------------------------------------------------------

  /** On a tooth at a constant rate the newest tooth and the whole window give the same rpm, so no variation loss. */
  lemma SteadyRates(d: Decoder, t: Time, delta: int, rpmOf: RpmFn)
    requires SteadyTooth(d, t, delta, rpmOf)
    requires d.internal.state != NoSync || NextCount(d) >= d.config.requiredTriggersRpm
    ensures var d3 := AdvanceInSync(ReachRpm(CountTooth(d, t)));
      && d3.internal.state != NoSync && d3.times[0] == t && Sub32(d3.times[0], d3.times[1]) == delta
      && SliceRpm(d3, rpmOf) == rpmOf(delta, d.config.degreesPerTrigger)
      && WindowRpm(d3, rpmOf) == rpmOf(delta, d.config.degreesPerTrigger)
      && !ExcessiveVariation(SliceRpm(d3, rpmOf), WindowRpm(d3, rpmOf), d.config.triggerMinRpm, d.config.triggerMaxRpmChange)
  {
    var d3 := AdvanceInSync(ReachRpm(CountTooth(d, t)));
    var w := d.config.rpmWindowSize;
    assert d3.times == PushTime(d.times, t) && d3.config == d.config;
    assert d3.internal.currentTriggersRpm == NextCount(d);
    assert CurrentRpmWindowSize(NextCount(d), w) == w;
    assert TimeAt(d.times, 0) == t - delta;
    assert TimeAt(d.times, w - 2) == t - (w - 1) * delta;
    assert d3.times[0] == t && d3.times[1] == d.times[0] && d3.times[w - 1] == d.times[w - 2];
    assert Sub32(d3.times[0], d3.times[1]) == delta;
    assert Sub32(d3.times[0], d3.times[w - 1]) == (w - 1) * delta;
  }

  /** trigger_update on a tooth that continues a constant rate: no sync loss, rpm is the tooth rpm. */
  lemma SteadyToothUpdate(d: Decoder, t: Time, delta: int, rpmOf: RpmFn)
    requires SteadyTooth(d, t, delta, rpmOf)
    requires d.internal.state != NoSync || NextCount(d) >= d.config.requiredTriggersRpm
    ensures var r := TriggerUpdate(d, t, rpmOf);
      && r.internal == Internal(if d.internal.state == NoSync then Rpm else d.internal.state,
                                NextCount(d), d.internal.triggersSinceLastSync + 1)
      && r.output == d.output.(rpm := rpmOf(delta, d.config.degreesPerTrigger),
                               lastTriggerAngle := if d.internal.state == Sync
                                                   then AdvanceAngle(d.output.lastTriggerAngle, d.config.degreesPerTrigger)
                                                   else d.output.lastTriggerAngle,
                               expiration := ExpirationAfter(t, delta))
      && r.times == PushTime(d.times, t)
      && r.config == d.config && r.capture == d.capture && r.debug.loss == d.debug.loss
  {
    var d3 := AdvanceInSync(ReachRpm(CountTooth(d, t)));
    SteadyRates(d, t, delta, rpmOf);
    TriggerUpdateRpmOutcome(d3, rpmOf);
  }

  /** A primary edge in NOSYNC that does not yet complete the bootstrap count only counts. */
  lemma NoSyncTooth(d: Decoder, t: Time, rpmOf: RpmFn)
    requires Inv(d) && d.output.decode != NoDecoder && !d.capture.needsDecodingT1
    requires d.internal.state == NoSync && NextCount(d) < d.config.requiredTriggersRpm
    ensures Feed(d, 0, t, rpmOf) == CountTooth(d, t).(capture := d.capture.(lastT0 := t, needsDecodingT0 := false))
  {
  }

  /** cam_nplusone_decoder on a primary tooth at a constant rate: RPM is reached or kept, SYNC kept and published. */
  lemma CamTooth(d: Decoder, t: Time, delta: int, rpmOf: RpmFn)
    requires Inv(d) && d.output.decode == CamNPlusOneDecoder && !d.capture.needsDecodingT1
    requires SteadyTooth(d, t, delta, rpmOf)
    requires d.internal.state != NoSync || NextCount(d) >= d.config.requiredTriggersRpm
    ensures var r := Feed(d, 0, t, rpmOf);
      var s := if d.internal.state == NoSync then Rpm else d.internal.state;
      && r.internal == Internal(s, NextCount(d), d.internal.triggersSinceLastSync + 1)
      && r.output == d.output.(rpm := rpmOf(delta, d.config.degreesPerTrigger),
                               lastTriggerAngle := if d.internal.state == Sync
                                                   then AdvanceAngle(d.output.lastTriggerAngle, d.config.degreesPerTrigger)
                                                   else d.output.lastTriggerAngle,
                               expiration := ExpirationAfter(t, delta),
                               valid := s == Sync || d.output.valid,
                               lastTriggerTime := if s == Sync then t else d.output.lastTriggerTime)
      && r.times == PushTime(d.times, t)
      && r.debug.loss == d.debug.loss
      && r.capture == d.capture.(lastT0 := t, needsDecodingT0 := false)
  {
    SteadyToothUpdate(LatchEdge(d, 0, t), t, delta, rpmOf);
  }

  /** tfi_pip_decoder on a tooth at a constant rate: SYNC, published, with the sync count cleared. */
  lemma TfiTooth(d: Decoder, t: Time, delta: int, rpmOf: RpmFn)
    requires Inv(d) && d.output.decode == TfiPipDecoder
    requires SteadyTooth(d, t, delta, rpmOf)
    requires d.internal.state != NoSync || NextCount(d) >= d.config.requiredTriggersRpm
    ensures var r := Feed(d, 0, t, rpmOf);
      && r.internal == Internal(Sync, NextCount(d), 0)
      && r.output == d.output.(rpm := rpmOf(delta, d.config.degreesPerTrigger),
                               lastTriggerAngle := if d.internal.state == Sync
                                                   then AdvanceAngle(d.output.lastTriggerAngle, d.config.degreesPerTrigger)
                                                   else d.output.lastTriggerAngle,
                               expiration := ExpirationAfter(t, delta),
                               valid := true, lastTriggerTime := t)
      && r.times == PushTime(d.times, t)
      && r.debug.loss == d.debug.loss
  {
    var l := LatchEdge(d, 0, t);
    SteadyToothUpdate(l.(capture := l.capture.(needsDecodingT0 := false)), t, delta, rpmOf);
  }

  /**
   * tfi_pip_decoder in SYNC on a tooth whose rpm is too far from the window's:
   * SYNC is lost with VARIATION and the decoder invalidated.
   */
  lemma TfiVariationTooth(d: Decoder, t: Time, rpmOf: RpmFn)
    requires Inv(d) && d.output.decode == TfiPipDecoder && d.internal.state == Sync
    requires d.internal.triggersSinceLastSync < d.config.numTriggers
    requires var c := CountTooth(d, t);
      ExcessiveVariation(SliceRpm(c, rpmOf), WindowRpm(c, rpmOf), d.config.triggerMinRpm, d.config.triggerMaxRpmChange)
    ensures var r := Feed(d, 0, t, rpmOf);
      r.internal == Internal(NoSync, 0, 0) && !r.output.valid && r.debug.loss == Variation
  {
    var l := LatchEdge(d, 0, t);
    var d3 := AdvanceInSync(ReachRpm(CountTooth(l.(capture := l.capture.(needsDecodingT0 := false)), t)));
    TriggerUpdateRpmOutcome(d3, rpmOf);
  }

  /**
   * cam_nplusone_decoder on a sync edge: RPM, or SYNC after exactly
   * num_triggers teeth, is (re)synchronised at angle 0 and published; SYNC
   * after any other tooth count is lost with TRIGGERCOUNT_LOW.
   */
  lemma CamSyncEdge(d: Decoder, t: Time, rpmOf: RpmFn)
    requires Inv(d) && d.output.decode == CamNPlusOneDecoder && !d.capture.needsDecodingT0
    ensures var r := Feed(d, 1, t, rpmOf);
      var s := d.internal;
      && r.times == d.times && r.capture == d.capture.(lastT1 := t, needsDecodingT1 := false)
      && (s.state == Rpm || (s.state == Sync && s.triggersSinceLastSync == d.config.numTriggers) ==>
            && r.internal == Internal(Sync, s.currentTriggersRpm, 0)
            && r.output == d.output.(lastTriggerAngle := 0, valid := true, lastTriggerTime := d.capture.lastT0))
      && (s.state == Sync && s.triggersSinceLastSync != d.config.numTriggers ==>
            && r.internal == Internal(NoSync, 0, 0) && !r.output.valid && r.debug.loss == TriggerCountLow)
  {
  }

  /** cam_nplusone_decoder on tooth num_triggers + 1 after a sync: SYNC is lost with TRIGGERCOUNT_HIGH. */
  lemma CamTooManyTeeth(d: Decoder, t: Time, rpmOf: RpmFn)
    requires Inv(d) && d.output.decode == CamNPlusOneDecoder && !d.capture.needsDecodingT1
    requires d.internal.state == Sync && d.internal.triggersSinceLastSync == d.config.numTriggers < WORD - 1
    ensures var r := Feed(d, 0, t, rpmOf);
      && r.internal == Internal(NoSync, 0, 0) && !r.output.valid && r.debug.loss == TriggerCountHigh
      && !r.capture.needsDecodingT1 && r.times == PushTime(d.times, t)
  {
    var l := LatchEdge(d, 0, t);
    var d3 := AdvanceInSync(ReachRpm(CountTooth(l, t)));
    TriggerUpdateRpmOutcome(d3, rpmOf);
  }

  /** A synchronised 24+1 decoder, no edge pending, about to see a tooth at t that continues a constant rate. */
  predicate CamSynced(d: Decoder, t: Time, delta: int, rpmOf: RpmFn) {
    && Inv(d) && d.output.decode == CamNPlusOneDecoder
    && !d.capture.needsDecodingT0 && !d.capture.needsDecodingT1
    && d.internal.state == Sync && d.output.valid
    && SteadyTooth(d, t, delta, rpmOf)
  }

  /** cam_nplusone_decoder on a tooth at a constant rate in SYNC: SYNC kept, angle advanced, tooth published. */
  lemma CamSyncedTooth(d: Decoder, t: Time, delta: int, rpmOf: RpmFn)
    requires CamSynced(d, t, delta, rpmOf)
    ensures var r := Apply(d, Tooth(t, Sync, true, Variation), rpmOf);
      && r.config == d.config && r.internal.state == Sync && r.output.valid
      && !r.capture.needsDecodingT0 && !r.capture.needsDecodingT1 && |r.times| == |d.times|
      && r.internal.triggersSinceLastSync == d.internal.triggersSinceLastSync + 1
      && r.output.lastTriggerAngle == AdvanceAngle(d.output.lastTriggerAngle, d.config.degreesPerTrigger)
      && r.output.lastTriggerTime == t && r.output.expiration == ExpirationAfter(t, delta)
      && NextCount(r) >= d.config.rpmWindowSize
      && Uniform(r.times, t, delta, d.config.rpmWindowSize - 1)
  {
    CamTooth(d, t, delta, rpmOf);
    PushKeepsUniform(d.times, t, delta, d.config.rpmWindowSize - 1);
  }

  /** A TFI decoder, in or about to reach RPM, about to see a tooth at t that continues a constant rate. */
  predicate TfiSteady(d: Decoder, t: Time, delta: int, rpmOf: RpmFn) {
    && Inv(d) && d.output.decode == TfiPipDecoder
    && (d.internal.state == Sync || NextCount(d) >= d.config.requiredTriggersRpm)
    && SteadyTooth(d, t, delta, rpmOf)
  }

  /** What tfi_pip_decoder leaves after a tooth at t at a constant rate from d: SYNC, published, the angle advanced if it was SYNC already. */
  predicate TfiToothDone(d: Decoder, r: Decoder, t: Time, delta: int)
    requires 0 <= delta < WORD
  {
    && r.config == d.config && r.internal.state == Sync && r.output.valid && r.internal.triggersSinceLastSync == 0
    && |r.times| == |d.times|
    && r.output.lastTriggerAngle == (if d.internal.state == Sync
                                     then AdvanceAngle(d.output.lastTriggerAngle, d.config.degreesPerTrigger)
                                     else d.output.lastTriggerAngle)
    && r.output.lastTriggerTime == t && r.output.expiration == ExpirationAfter(t, delta)
    && NextCount(r) >= d.config.rpmWindowSize >= 1
    && Uniform(r.times, t, delta, d.config.rpmWindowSize - 1)
  }

  /** tfi_pip_decoder on a tooth at a constant rate: SYNC, the angle advanced if it was SYNC already. */
  lemma TfiSteadyTooth(d: Decoder, t: Time, delta: int, rpmOf: RpmFn)
    requires TfiSteady(d, t, delta, rpmOf)
    ensures TfiToothDone(d, Apply(d, Tooth(t, Sync, true, Variation), rpmOf), t, delta)
  {
    TfiTooth(d, t, delta, rpmOf);
    PushKeepsUniform(d.times, t, delta, d.config.rpmWindowSize - 1);
  }

  // ---------------------------------------------------------------------------
  // Runs of teeth
  // ---------------------------------------------------------------------------

  /**
   * Induction over a table: a property P of the decoder and the row index
   * that holds before row j, and that every later row keeps while meeting
   * its expectation, validates the rest of the table and holds at its end.
   */
  lemma {:induction false} ReplayKeeps(d: Decoder, evs: seq<Event>, j: nat, rpmOf: RpmFn, P: (Decoder, nat) -> bool)
    requires Inv(d) && d.output.decode != NoDecoder && j <= |evs| && P(d, j)
    requires forall x: Decoder, i: nat | j <= i < |evs| && Inv(x) && x.output.decode == d.output.decode && P(x, i) ::
               Meets(Apply(x, evs[i], rpmOf), evs[i]) && P(Apply(x, evs[i], rpmOf), i + 1)
    ensures Validates(d, evs[j..], rpmOf) && P(Replay(d, evs[j..], rpmOf), |evs|)
    decreases |evs| - j
  {
    if j < |evs| {
      var d1 := Apply(d, evs[j], rpmOf);
      assert evs[j..][0] == evs[j] && evs[j..][1..] == evs[j + 1..];
      ReplayKeeps(d1, evs, j + 1, rpmOf, P);
    } else {
      assert evs[j..] == [];
    }
  }

  /** ReplayKeeps from the first row on. */
  lemma ReplayKeepsAll(d: Decoder, evs: seq<Event>, rpmOf: RpmFn, P: (Decoder, nat) -> bool)
    requires Inv(d) && d.output.decode != NoDecoder && P(d, 0)
    requires forall x: Decoder, i: nat | 0 <= i < |evs| && Inv(x) && x.output.decode == d.output.decode && P(x, i) ::
               Meets(Apply(x, evs[i], rpmOf), evs[i]) && P(Apply(x, evs[i], rpmOf), i + 1)
    ensures Validates(d, evs, rpmOf) && P(Replay(d, evs, rpmOf), |evs|)
  {
    ReplayKeeps(d, evs, 0, rpmOf, P);
    assert evs[0..] == evs;
  }

  lemma {:induction false} TeethAt(t: int, delta: nat, k: nat, state: DecoderState, valid: bool, reason: LossReason, i: nat)
    requires 0 <= t && t + k * delta < WORD && i < k
    ensures 0 <= t + i * delta < WORD
    ensures Teeth(t, delta, k, state, valid, reason)[i] == Tooth(t + i * delta, state, valid, reason)
    decreases k
  {
    if i > 0 {
      Shift(t, delta, k);
      Shift(t, delta, i);
      TeethAt(t + delta, delta, k - 1, state, valid, reason, i - 1);
    }
  }

  /** Tooth k of a run from t is tooth k - 1 of the run from the next tooth. */
  lemma Shift(t: int, delta: int, k: int)
    ensures t + (k - 1) * delta == (t + delta) + (k - 2) * delta
    ensures t + k * delta == (t + delta) + (k - 1) * delta
  {
  }

  /** The decoder after i of the teeth of NoSyncRun, started in d0. */
  predicate NoSyncAt(d0: Decoder, t: int, delta: nat, m: nat, x: Decoder, i: nat) {
    if i == 0 then x == d0
    else
      && x.config == d0.config && !x.capture.needsDecodingT1
      && x.internal.state == NoSync
      && x.internal.currentTriggersRpm == d0.internal.currentTriggersRpm + i
      && x.internal.triggersSinceLastSync == d0.internal.triggersSinceLastSync + i
      && x.output == d0.output && x.debug.loss == d0.debug.loss
      && |x.times| == |d0.times|
      && Uniform(x.times, t + (i - 1) * delta, delta, if m + i < |d0.times| then m + i else |d0.times|)
  }

  /** A tooth before the bootstrap count, as a row of a table: only counted. */
  lemma NoSyncCounted(x: Decoder, u: Time, reason: LossReason, rpmOf: RpmFn)
    requires Inv(x) && x.output.decode != NoDecoder && !x.capture.needsDecodingT1
    requires x.internal.state == NoSync && NextCount(x) < x.config.requiredTriggersRpm
    requires x.internal.currentTriggersRpm < |x.times| && x.internal.triggersSinceLastSync + 1 < WORD
    ensures var r := Apply(x, Tooth(u, NoSync, false, reason), rpmOf);
      && r.internal == x.internal.(triggersSinceLastSync := x.internal.triggersSinceLastSync + 1,
                                   currentTriggersRpm := x.internal.currentTriggersRpm + 1)
      && r.output == x.output && r.debug.loss == x.debug.loss && r.times == PushTime(x.times, u)
      && !r.capture.needsDecodingT1
  {
    NoSyncTooth(x, u, rpmOf);
  }

  /** One tooth of NoSyncRun. */
  lemma NoSyncStep(d0: Decoder, t: int, delta: nat, m: nat, x: Decoder, i: nat, reason: LossReason, rpmOf: RpmFn)
    requires Inv(x) && x.output.decode != NoDecoder && NoSyncAt(d0, t, delta, m, x, i)
    requires !d0.capture.needsDecodingT1 && d0.internal.state == NoSync && !d0.output.valid && d0.debug.loss == reason
    requires d0.internal.currentTriggersRpm + i + 1 < d0.config.requiredTriggersRpm
    requires d0.internal.currentTriggersRpm + i < |d0.times|
    requires d0.internal.triggersSinceLastSync + i + 1 < WORD
    requires 0 <= t + i * delta < WORD
    requires Uniform(d0.times, t - delta, delta, m)
    ensures var r := Apply(x, Tooth(t + i * delta, NoSync, false, reason), rpmOf);
      Meets(r, Tooth(t + i * delta, NoSync, false, reason)) && NoSyncAt(d0, t, delta, m, r, i + 1)
  {
    var u := t + i * delta;
    var n := if m + i < |d0.times| then m + i else |d0.times|;
    assert x.internal.state == NoSync && !x.capture.needsDecodingT1
        && x.internal.currentTriggersRpm == d0.internal.currentTriggersRpm + i
        && x.internal.triggersSinceLastSync == d0.internal.triggersSinceLastSync + i
        && x.output == d0.output && x.debug.loss == reason && x.config == d0.config
        && |x.times| == |d0.times| && Uniform(x.times, u - delta, delta, n) by {
      Shift(t, delta, i + 1);
    }
    NoSyncCounted(x, u, reason, rpmOf);
    PushKeepsUniform(x.times, u, delta, n);
  }

  /** Every tooth of NoSyncRun keeps its invariant. */
  lemma NoSyncSteps(d: Decoder, t: int, delta: nat, k: nat, m: nat, rpmOf: RpmFn)
    requires Inv(d) && d.output.decode != NoDecoder && !d.capture.needsDecodingT1
    requires d.internal.state == NoSync && !d.output.valid
    requires d.internal.currentTriggersRpm + k < d.config.requiredTriggersRpm
    requires d.internal.currentTriggersRpm + k <= |d.times|
    requires d.internal.triggersSinceLastSync + k < WORD
    requires 0 <= t && t + k * delta < WORD
    requires Uniform(d.times, t - delta, delta, m)
    ensures var evs := Teeth(t, delta, k, NoSync, false, d.debug.loss);
      forall x: Decoder, i: nat | 0 <= i < |evs| && Inv(x) && x.output.decode == d.output.decode && NoSyncAt(d, t, delta, m, x, i) ::
        Meets(Apply(x, evs[i], rpmOf), evs[i]) && NoSyncAt(d, t, delta, m, Apply(x, evs[i], rpmOf), i + 1)
  {
    var evs := Teeth(t, delta, k, NoSync, false, d.debug.loss);
    forall x: Decoder, i: nat | 0 <= i < |evs| && Inv(x) && x.output.decode == d.output.decode && NoSyncAt(d, t, delta, m, x, i)
      ensures Meets(Apply(x, evs[i], rpmOf), evs[i]) && NoSyncAt(d, t, delta, m, Apply(x, evs[i], rpmOf), i + 1)
    {
      TeethAt(t, delta, k, NoSync, false, d.debug.loss, i);
      NoSyncStep(d, t, delta, m, x, i, d.debug.loss, rpmOf);
    }
  }

  /** Teeth before the bootstrap count is reached: NOSYNC throughout, only counted. */
  lemma NoSyncRun(d: Decoder, t: int, delta: nat, k: nat, m: nat, rpmOf: RpmFn)
    requires Inv(d) && d.output.decode != NoDecoder && !d.capture.needsDecodingT1
    requires d.internal.state == NoSync && !d.output.valid
    requires d.internal.currentTriggersRpm + k < d.config.requiredTriggersRpm
    requires d.internal.currentTriggersRpm + k <= |d.times|
    requires d.internal.triggersSinceLastSync + k < WORD
    requires 0 <= t && t + k * delta < WORD
    requires Uniform(d.times, t - delta, delta, m)
    ensures var evs := Teeth(t, delta, k, NoSync, false, d.debug.loss);
      Validates(d, evs, rpmOf) && NoSyncAt(d, t, delta, m, Replay(d, evs, rpmOf), k)
  {
    var evs := Teeth(t, delta, k, NoSync, false, d.debug.loss);
    var P := (x: Decoder, i: nat) => NoSyncAt(d, t, delta, m, x, i);
    NoSyncSteps(d, t, delta, k, m, rpmOf);
    ReplayKeepsAll(d, evs, rpmOf, P);
  }

  /** The decoder after i of the teeth of CamSyncedRun, started in d0. */
  predicate CamAt(d0: Decoder, t: int, delta: nat, x: Decoder, i: nat) {
    if i == 0 then x == d0
    else
      && x.config == d0.config && delta < WORD
      && !x.capture.needsDecodingT0 && !x.capture.needsDecodingT1
      && x.internal.state == Sync && x.output.valid && |x.times| == |d0.times|
      && x.internal.triggersSinceLastSync == d0.internal.triggersSinceLastSync + i
      && 0 <= d0.output.lastTriggerAngle < 720 && 0 <= d0.config.degreesPerTrigger <= 720
      && x.output.lastTriggerAngle == AngleAfter(d0.output.lastTriggerAngle, d0.config.degreesPerTrigger, i)
      && NextCount(x) >= d0.config.rpmWindowSize >= 2
      && Uniform(x.times, t + (i - 1) * delta, delta, d0.config.rpmWindowSize - 1)
      && x.output.lastTriggerTime == t + (i - 1) * delta
      && x.output.expiration == ExpirationAfter(x.output.lastTriggerTime, delta)
  }

  /** Every decoder of CamSyncedRun is ready for the next tooth. */
  lemma CamAtSynced(d0: Decoder, t: Time, delta: nat, x: Decoder, i: nat, rpmOf: RpmFn)
    requires CamSynced(d0, t, delta, rpmOf)
    requires Inv(x) && x.output.decode == CamNPlusOneDecoder && CamAt(d0, t, delta, x, i)
    requires d0.internal.triggersSinceLastSync + i < d0.config.numTriggers
    requires t + i * delta < WORD
    ensures CamSynced(x, t + i * delta, delta, rpmOf)
  {
    Shift(t, delta, i + 1);
  }

  /** One tooth of CamSyncedRun. */
  lemma CamStep(d0: Decoder, t: Time, delta: nat, x: Decoder, i: nat, rpmOf: RpmFn)
    requires CamSynced(d0, t, delta, rpmOf)
    requires Inv(x) && x.output.decode == CamNPlusOneDecoder && CamAt(d0, t, delta, x, i)
    requires d0.internal.triggersSinceLastSync + i < d0.config.numTriggers
    requires t + i * delta < WORD
    ensures var r := Apply(x, Tooth(t + i * delta, Sync, true, Variation), rpmOf);
      Meets(r, Tooth(t + i * delta, Sync, true, Variation)) && CamAt(d0, t, delta, r, i + 1)
  {
    var u := t + i * delta;
    CamAtSynced(d0, t, delta, x, i, rpmOf);
    CamSyncedTooth(x, u, delta, rpmOf);
    CamAtNext(d0, t, delta, x, Apply(x, Tooth(u, Sync, true, Variation), rpmOf), i, rpmOf);
  }

  /** What CamSyncedTooth says of the decoder after tooth i puts it at position i + 1. */
  lemma CamAtNext(d0: Decoder, t: Time, delta: nat, x: Decoder, r: Decoder, i: nat, rpmOf: RpmFn)
    requires t + i * delta < WORD && delta < WORD
    requires CamSynced(d0, t, delta, rpmOf) && CamAt(d0, t, delta, x, i)
    requires CamSynced(x, t + i * delta, delta, rpmOf)
    requires r.config == x.config
    requires && r.internal.state == Sync && r.output.valid
      && !r.capture.needsDecodingT0 && !r.capture.needsDecodingT1 && |r.times| == |x.times|
      && r.internal.triggersSinceLastSync == x.internal.triggersSinceLastSync + 1
      && r.output.lastTriggerAngle == AdvanceAngle(x.output.lastTriggerAngle, x.config.degreesPerTrigger)
      && r.output.lastTriggerTime == t + i * delta && r.output.expiration == ExpirationAfter(t + i * delta, delta)
      && NextCount(r) >= x.config.rpmWindowSize
      && Uniform(r.times, t + i * delta, delta, x.config.rpmWindowSize - 1)
    ensures CamAt(d0, t, delta, r, i + 1)
  {
    assert t + (i + 1 - 1) * delta == t + i * delta;
  }

  /** Every tooth of CamSyncedRun keeps its invariant. */
  lemma CamSteps(d: Decoder, t: Time, delta: nat, k: nat, rpmOf: RpmFn)
    requires CamSynced(d, t, delta, rpmOf)
    requires d.internal.triggersSinceLastSync + k <= d.config.numTriggers
    requires t + k * delta < WORD
    ensures var evs := Teeth(t, delta, k, Sync, true, Variation);
      forall x: Decoder, i: nat | 0 <= i < |evs| && Inv(x) && x.output.decode == d.output.decode && CamAt(d, t, delta, x, i) ::
        Meets(Apply(x, evs[i], rpmOf), evs[i]) && CamAt(d, t, delta, Apply(x, evs[i], rpmOf), i + 1)
  {
    var evs := Teeth(t, delta, k, Sync, true, Variation);
    forall x: Decoder, i: nat | 0 <= i < |evs| && Inv(x) && x.output.decode == d.output.decode && CamAt(d, t, delta, x, i)
      ensures Meets(Apply(x, evs[i], rpmOf), evs[i]) && CamAt(d, t, delta, Apply(x, evs[i], rpmOf), i + 1)
    {
      TeethAt(t, delta, k, Sync, true, Variation, i);
      CamStep(d, t, delta, x, i, rpmOf);
    }
  }

  /**
   * Teeth at a constant rate through a synchronised 24+1 decoder, up to
   * num_triggers of them since the sync: SYNC and valid throughout, the angle
   * advancing by degrees_per_trigger per tooth.
   */
  lemma CamSyncedRun(d: Decoder, t: Time, delta: nat, k: nat, rpmOf: RpmFn)
    requires CamSynced(d, t, delta, rpmOf)
    requires d.internal.triggersSinceLastSync + k <= d.config.numTriggers
    requires t + k * delta < WORD
    ensures var evs := Teeth(t, delta, k, Sync, true, Variation);
      Validates(d, evs, rpmOf) && CamAt(d, t, delta, Replay(d, evs, rpmOf), k)
  {
    var evs := Teeth(t, delta, k, Sync, true, Variation);
    var P := (x: Decoder, i: nat) => CamAt(d, t, delta, x, i);
    CamSteps(d, t, delta, k, rpmOf);
    ReplayKeepsAll(d, evs, rpmOf, P);
  }

  /** The decoder after i of the teeth of TfiRun, started in d0. */
  predicate TfiAt(d0: Decoder, t: int, delta: nat, x: Decoder, i: nat) {
    if i == 0 then x == d0
    else
      && x.config == d0.config && delta < WORD
      && x.internal.state == Sync && x.output.valid && x.internal.triggersSinceLastSync == 0
      && |x.times| == |d0.times|
      && 0 <= d0.output.lastTriggerAngle < 720 && 0 <= d0.config.degreesPerTrigger <= 720
      && x.output.lastTriggerAngle
         == AngleAfter(d0.output.lastTriggerAngle, d0.config.degreesPerTrigger, if d0.internal.state == Sync then i else i - 1)
      && NextCount(x) >= d0.config.rpmWindowSize >= 2
      && Uniform(x.times, t + (i - 1) * delta, delta, d0.config.rpmWindowSize - 1)
      && x.output.lastTriggerTime == t + (i - 1) * delta
      && x.output.expiration == ExpirationAfter(x.output.lastTriggerTime, delta)
  }

  /** Every decoder of TfiRun is ready for the next tooth. */
  lemma TfiAtSteady(d0: Decoder, t: Time, delta: nat, x: Decoder, i: nat, rpmOf: RpmFn)
    requires TfiSteady(d0, t, delta, rpmOf)
    requires Inv(x) && x.output.decode == TfiPipDecoder && TfiAt(d0, t, delta, x, i)
    requires t + i * delta < WORD
    ensures TfiSteady(x, t + i * delta, delta, rpmOf)
  {
    Shift(t, delta, i + 1);
  }

  /** The decoder after tooth i of TfiRun, from what TfiSteadyTooth says about it. */
  lemma TfiNext(d0: Decoder, t: Time, delta: nat, x: Decoder, i: nat, r: Decoder, rpmOf: RpmFn)
    requires t + i * delta < WORD && delta < WORD
    requires TfiSteady(d0, t, delta, rpmOf) && TfiAt(d0, t, delta, x, i)
    requires TfiSteady(x, t + i * delta, delta, rpmOf)
    requires TfiToothDone(x, r, t + i * delta, delta)
    ensures TfiAt(d0, t, delta, r, i + 1)
  {
  }

  /** One tooth of TfiRun. */
  lemma TfiStep(d0: Decoder, t: Time, delta: nat, x: Decoder, i: nat, rpmOf: RpmFn)
    requires TfiSteady(d0, t, delta, rpmOf)
    requires Inv(x) && x.output.decode == TfiPipDecoder && TfiAt(d0, t, delta, x, i)
    requires t + i * delta < WORD
    ensures var r := Apply(x, Tooth(t + i * delta, Sync, true, Variation), rpmOf);
      Meets(r, Tooth(t + i * delta, Sync, true, Variation)) && TfiAt(d0, t, delta, r, i + 1)
  {
    var u := t + i * delta;
    TfiAtSteady(d0, t, delta, x, i, rpmOf);
    TfiSteadyTooth(x, u, delta, rpmOf);
    TfiNext(d0, t, delta, x, i, Apply(x, Tooth(u, Sync, true, Variation), rpmOf), rpmOf);
  }

  /** Every tooth of TfiRun keeps its invariant. */
  lemma TfiSteps(d: Decoder, t: Time, delta: nat, k: nat, rpmOf: RpmFn)
    requires TfiSteady(d, t, delta, rpmOf)
    requires t + k * delta < WORD
    ensures var evs := Teeth(t, delta, k, Sync, true, Variation);
      forall x: Decoder, i: nat | 0 <= i < |evs| && Inv(x) && x.output.decode == d.output.decode && TfiAt(d, t, delta, x, i) ::
        Meets(Apply(x, evs[i], rpmOf), evs[i]) && TfiAt(d, t, delta, Apply(x, evs[i], rpmOf), i + 1)
  {
    var evs := Teeth(t, delta, k, Sync, true, Variation);
    forall x: Decoder, i: nat | 0 <= i < |evs| && Inv(x) && x.output.decode == d.output.decode && TfiAt(d, t, delta, x, i)
      ensures Meets(Apply(x, evs[i], rpmOf), evs[i]) && TfiAt(d, t, delta, Apply(x, evs[i], rpmOf), i + 1)
    {
      TeethAt(t, delta, k, Sync, true, Variation, i);
      TfiStep(d, t, delta, x, i, rpmOf);
    }
  }

  /**
   * Teeth at a constant rate through a TFI decoder that has, or is about to
   * reach, RPM: every tooth is a sync, so SYNC and valid throughout, the angle
   * advancing from the second SYNC tooth on.
   */
  lemma TfiRun(d: Decoder, t: Time, delta: nat, k: nat, rpmOf: RpmFn)
    requires TfiSteady(d, t, delta, rpmOf)
    requires t + k * delta < WORD
    ensures var evs := Teeth(t, delta, k, Sync, true, Variation);
      Validates(d, evs, rpmOf) && TfiAt(d, t, delta, Replay(d, evs, rpmOf), k)
  {
    var evs := Teeth(t, delta, k, Sync, true, Variation);
    var P := (x: Decoder, i: nat) => TfiAt(d, t, delta, x, i);
    TfiSteps(d, t, delta, k, rpmOf);
    ReplayKeepsAll(d, evs, rpmOf, P);
  }

  // ---------------------------------------------------------------------------
  // The unit tests of src/decoder.c
  // ---------------------------------------------------------------------------

  /** A row with a primary edge is Feed on trigger 0. */
  lemma ApplyTooth(d: Decoder, t: Time, state: DecoderState, valid: bool, reason: LossReason, rpmOf: RpmFn)
    requires Inv(d) && d.output.decode != NoDecoder
    ensures Apply(d, Tooth(t, state, valid, reason), rpmOf) == Feed(d, 0, t, rpmOf)
  {
  }

  /** A row with a sync edge is Feed on trigger 1. */
  lemma ApplySync(d: Decoder, t: Time, state: DecoderState, valid: bool, reason: LossReason, rpmOf: RpmFn)
    requires Inv(d) && d.output.decode != NoDecoder
    ensures Apply(d, SyncEdge(t, state, valid, reason), rpmOf) == Feed(d, 1, t, rpmOf)
  {
  }

  /** A one-row table. */
  lemma Single(d: Decoder, ev: Event, rpmOf: RpmFn)
    requires Inv(d) && d.output.decode != NoDecoder
    ensures Replay(d, [ev], rpmOf) == Apply(d, ev, rpmOf)
    ensures Validates(d, [ev], rpmOf) <==> Meets(Apply(d, ev, rpmOf), ev)
  {
    assert [ev][1..] == [];
  }

  /**
   * prepare_decoder: the zeroed global with the trigger type set, then
   * decoder_init. The shift register has n entries and the variation settings
   * come from the configuration.
   */
  function Prepared(triggerType: TriggerType, n: nat, maxChange: real, minRpm: nat): (d: Decoder)
    requires n >= 2
    ensures Inv(d) && d.output.decode == DecoderFor(triggerType) && d.config == Profile(Zeroed(triggerType, n, maxChange, minRpm).config)
  {
    DecoderInitKeepsInv(Zeroed(triggerType, n, maxChange, minRpm));
    DecoderInit(Zeroed(triggerType, n, maxChange, minRpm))
  }

  /** The 24+1 tests: prepare_decoder, then required_triggers_rpm set to 9. */
  function CamPrepared(n: nat, maxChange: real, minRpm: nat): (d: Decoder)
    requires n >= 2
    ensures Inv(d) && d.output.decode == CamNPlusOneDecoder
  {
    var d := Prepared(Toyota24Plus1Cas, n, maxChange, minRpm);
    d.(config := d.config.(requiredTriggersRpm := 9))
  }

  /** tfi_startup_events */
  const TfiStartupEvents: seq<Event> := [
    Tooth(18000, NoSync, false, Variation),
    Tooth(25000, NoSync, false, Variation),
    Tooth(50000, NoSync, false, Variation),
    Tooth(75000, Sync, true, Variation),
    Tooth(100000, Sync, true, Variation),
    Tooth(125000, Sync, true, Variation)
  ]

  /** The first three rows of tfi_startup_events leave the TFI decoder one tooth short of RPM. */
  lemma TfiBoot(n: nat, maxChange: real, minRpm: nat, rpmOf: RpmFn)
    requires n >= 4 && maxChange >= 0.0
    requires rpmOf(25000, 90) == rpmOf(50000, 180) > minRpm
    ensures var d := Prepared(FordTfi, n, maxChange, minRpm);
      var r := Replay(d, TfiStartupEvents[..3], rpmOf);
      && Validates(d, TfiStartupEvents[..3], rpmOf)
      && TfiSteady(r, 75000, 25000, rpmOf) && r.internal.state == NoSync && r.output.lastTriggerAngle == 0
  {
    var d := Prepared(FordTfi, n, maxChange, minRpm);
    var a := Teeth(18000, 7000, 1, NoSync, false, Variation);
    var b := Teeth(25000, 25000, 2, NoSync, false, Variation);
    assert TfiStartupEvents[..3] == a + b;
    NoSyncRun(d, 18000, 7000, 1, 0, rpmOf);
    var d1 := Replay(d, a, rpmOf);
    NoSyncRun(d1, 25000, 25000, 2, 0, rpmOf);
    ReplayAppend(d, a, b, rpmOf);
  }

  /** The TFI decoder after the first three rows of tfi_startup_events and k regular teeth from 75000. */
  lemma TfiTeeth(n: nat, maxChange: real, minRpm: nat, rpmOf: RpmFn, k: nat)
    requires n >= 4 && maxChange >= 0.0 && 1 <= k <= 4
    requires rpmOf(25000, 90) == rpmOf(50000, 180) > minRpm
    ensures var d := Prepared(FordTfi, n, maxChange, minRpm);
      var evs := TfiStartupEvents[..3] + Teeth(75000, 25000, k, Sync, true, Variation);
      var r := Replay(d, evs, rpmOf);
      var last := 75000 + (k - 1) * 25000;
      && Validates(d, evs, rpmOf)
      && r.internal.state == Sync && r.output.valid && r.internal.triggersSinceLastSync == 0
      && r.output.lastTriggerAngle == AngleAfter(0, 90, k - 1) && r.output.lastTriggerTime == last
      && r.output.expiration == last + 37500
      && TfiSteady(r, last + 25000, 25000, rpmOf)
  {
    var d := Prepared(FordTfi, n, maxChange, minRpm);
    var a := TfiStartupEvents[..3];
    TfiBoot(n, maxChange, minRpm, rpmOf);
    var d1 := Replay(d, a, rpmOf);
    TfiRun(d1, 75000, 25000, k, rpmOf);
    ReplayAppend(d, a, Teeth(75000, 25000, k, Sync, true, Variation), rpmOf);
  }

  /** check_tfi_decoder_startup_normal: SYNC from the fourth edge on, at 180 degrees after the sixth. */
  lemma TfiStartupNormal(n: nat, maxChange: real, minRpm: nat, rpmOf: RpmFn)
    requires n >= 4 && maxChange >= 0.0
    requires rpmOf(25000, 90) == rpmOf(50000, 180) > minRpm
    ensures var d := Prepared(FordTfi, n, maxChange, minRpm);
      && Validates(d, TfiStartupEvents, rpmOf)
      && Replay(d, TfiStartupEvents, rpmOf).output.lastTriggerAngle == 180
  {
    TfiTeeth(n, maxChange, minRpm, rpmOf, 3);
    assert TfiStartupEvents == TfiStartupEvents[..3] + Teeth(75000, 25000, 3, Sync, true, Variation);
  }

  /** Scaling by a positive factor keeps a strict order. */
  lemma ScaleLess(r: real, a: real, b: real)
    requires r > 0.0 && a < b
    ensures r * a < r * b
  {
  }

  /** A tooth three times as fast as the window fails the variation test for any tolerance below 200%. */
  lemma TripleRateVaries(sliceRpm: nat, rpm: nat, minRpm: nat, maxChange: real)
    requires rpm > 0 && sliceRpm == 3 * rpm && maxChange < 2.0
    ensures ExcessiveVariation(sliceRpm, rpm, minRpm, maxChange)
  {
    ScaleLess(rpm as real, maxChange, 2.0);
    assert sliceRpm as real == 3.0 * rpm as real;
  }

  /**
   * check_tfi_decoder_syncloss_variation: a tooth 5000 ticks after the last
   * loses sync with VARIATION and clears the counter. Its rpm (90 degrees in
   * 5000 ticks) is three times that of the window (180 degrees in 30000
   * ticks), which any tolerance below 200% rejects.
   */
  lemma TfiSyncLossVariation(n: nat, maxChange: real, minRpm: nat, rpmOf: RpmFn)
    requires n >= 4 && maxChange >= 0.0
    requires rpmOf(25000, 90) == rpmOf(50000, 180) > minRpm
    requires rpmOf(30000, 180) > 0 && rpmOf(5000, 90) == 3 * rpmOf(30000, 180)
    requires maxChange < 2.0
    ensures var d := Prepared(FordTfi, n, maxChange, minRpm);
      var evs := TfiStartupEvents + [Tooth(150000, Sync, true, Variation), Tooth(155000, NoSync, false, Variation)];
      && Validates(d, evs, rpmOf)
      && Replay(d, evs, rpmOf).internal.currentTriggersRpm == 0
  {
    var d := Prepared(FordTfi, n, maxChange, minRpm);
    var a := TfiStartupEvents[..3] + Teeth(75000, 25000, 4, Sync, true, Variation);
    var last := Tooth(155000, NoSync, false, Variation);
    TfiTeeth(n, maxChange, minRpm, rpmOf, 4);
    assert TfiStartupEvents + [Tooth(150000, Sync, true, Variation), last] == a + [last];
    var x := Replay(d, a, rpmOf);
    assert TimeAt(x.times, 0) == 150000 && TimeAt(x.times, 1) == 125000;
    TripleRateVaries(rpmOf(5000, 90), rpmOf(30000, 180), minRpm, maxChange);
    TfiVariationTooth(x, 155000, rpmOf);
    ApplyTooth(x, 155000, NoSync, false, Variation, rpmOf);
    Single(x, last, rpmOf);
    ReplayAppend(d, a, [last], rpmOf);
  }

  /**
   * check_tfi_decoder_syncloss_expire: after the start-up the expiry deadline
   * is 162500, and the expiry callback drops the decoder with EXPIRED.
   */
  lemma TfiSyncLossExpire(n: nat, maxChange: real, minRpm: nat, rpmOf: RpmFn)
    requires n >= 4 && maxChange >= 0.0
    requires rpmOf(25000, 90) == rpmOf(50000, 180) > minRpm
    ensures var d := Prepared(FordTfi, n, maxChange, minRpm);
      var r := Replay(d, TfiStartupEvents, rpmOf);
      var e := HandleDecoderExpire(r);
      && Validates(d, TfiStartupEvents, rpmOf) && r.output.expiration == 162500
      && e.internal.currentTriggersRpm == 0 && !e.output.valid && e.debug.loss == Expired
  {
    TfiTeeth(n, maxChange, minRpm, rpmOf, 3);
    assert TfiStartupEvents == TfiStartupEvents[..3] + Teeth(75000, 25000, 3, Sync, true, Variation);
  }

  /** The start-up table shared by the 24+1 tests (cam_nplusone_startup_events). */
  const CamStartupEvents: seq<Event> := [
    Tooth(18000, NoSync, false, Variation),
    Tooth(25000, NoSync, false, Variation),
    Tooth(50000, NoSync, false, Variation),
    Tooth(75000, NoSync, false, Variation),
    Tooth(100000, NoSync, false, Variation),
    Tooth(125000, NoSync, false, Variation),
    Tooth(150000, NoSync, false, Variation),
    Tooth(175000, NoSync, false, Variation),
    Tooth(200000, Rpm, false, Variation),
    SyncEdge(200500, Sync, true, Variation),
    Tooth(225000, Sync, true, Variation)
  ]

  /** The first eight rows of cam_nplusone_startup_events as runs of teeth. */
  lemma CamBootRows()
    ensures CamStartupEvents[..8]
            == Teeth(18000, 7000, 1, NoSync, false, Variation) + Teeth(25000, 25000, 7, NoSync, false, Variation)
  {
  }

  /** The first eight rows: teeth counted in NOSYNC. */
  lemma CamCounted(n: nat, maxChange: real, minRpm: nat, rpmOf: RpmFn)
    requires n >= 9 && maxChange >= 0.0
    ensures var d := CamPrepared(n, maxChange, minRpm);
      var r := Replay(d, CamStartupEvents[..8], rpmOf);
      && Validates(d, CamStartupEvents[..8], rpmOf)
      && r.internal == Internal(NoSync, 8, 8) && r.output == d.output && r.debug.loss == Variation
      && !r.capture.needsDecodingT1 && |r.times| == n
      && Uniform(r.times, 175000, 25000, 7)
  {
    var d := CamPrepared(n, maxChange, minRpm);
    var a := Teeth(18000, 7000, 1, NoSync, false, Variation);
    var b := Teeth(25000, 25000, 7, NoSync, false, Variation);
    CamBootRows();
    NoSyncRun(d, 18000, 7000, 1, 0, rpmOf);
    var d1 := Replay(d, a, rpmOf);
    NoSyncRun(d1, 25000, 25000, 7, 0, rpmOf);
    ReplayAppend(d, a, b, rpmOf);
  }

  /** The first nine rows: RPM on the ninth tooth. */
  lemma CamBootTeeth(n: nat, maxChange: real, minRpm: nat, rpmOf: RpmFn)
    requires n >= 9 && maxChange >= 0.0
    requires rpmOf(25000, 30) == rpmOf(175000, 210) > minRpm
    ensures var d := CamPrepared(n, maxChange, minRpm);
      var r := Replay(d, CamStartupEvents[..9], rpmOf);
      && Validates(d, CamStartupEvents[..9], rpmOf)
      && r.internal == Internal(Rpm, 9, 9) && r.output.lastTriggerAngle == 0
      && !r.capture.needsDecodingT0 && !r.capture.needsDecodingT1 && |r.times| == n
      && Uniform(r.times, 200000, 25000, 8)
  {
    var d := CamPrepared(n, maxChange, minRpm);
    var a := CamStartupEvents[..8];
    var c := Tooth(200000, Rpm, false, Variation);
    assert CamStartupEvents[..9] == a + [c];
    CamCounted(n, maxChange, minRpm, rpmOf);
    var x := Replay(d, a, rpmOf);
    CamTooth(x, 200000, 25000, rpmOf);
    ApplyTooth(x, 200000, Rpm, false, Variation, rpmOf);
    Single(x, c, rpmOf);
    PushKeepsUniform(x.times, 200000, 25000, 7);
    ReplayAppend(d, a, [c], rpmOf);
  }

  /** The first ten rows: the sync edge in RPM synchronises the 24+1 decoder at angle 0. */
  lemma CamBoot(n: nat, maxChange: real, minRpm: nat, rpmOf: RpmFn)
    requires n >= 9 && maxChange >= 0.0
    requires rpmOf(25000, 30) == rpmOf(175000, 210) > minRpm
    ensures var d := CamPrepared(n, maxChange, minRpm);
      var r := Replay(d, CamStartupEvents[..10], rpmOf);
      && Validates(d, CamStartupEvents[..10], rpmOf)
      && CamSynced(r, 225000, 25000, rpmOf)
      && r.output.lastTriggerAngle == 0 && r.internal.triggersSinceLastSync == 0
  {
    var d := CamPrepared(n, maxChange, minRpm);
    var a := CamStartupEvents[..9];
    var e := SyncEdge(200500, Sync, true, Variation);
    assert CamStartupEvents[..10] == a + [e];
    CamBootTeeth(n, maxChange, minRpm, rpmOf);
    var x := Replay(d, a, rpmOf);
    CamSyncEdge(x, 200500, rpmOf);
    ApplySync(x, 200500, Sync, true, Variation, rpmOf);
    Single(x, e, rpmOf);
    ReplayAppend(d, a, [e], rpmOf);
  }

  /** All of cam_nplusone_startup_events: SYNC at 30 degrees, the expiry deadline 1.5 teeth on. */
  lemma CamStartup(n: nat, maxChange: real, minRpm: nat, rpmOf: RpmFn)
    requires n >= 9 && maxChange >= 0.0
    requires rpmOf(25000, 30) == rpmOf(175000, 210) > minRpm
    ensures var d := CamPrepared(n, maxChange, minRpm);
      var r := Replay(d, CamStartupEvents, rpmOf);
      && Validates(d, CamStartupEvents, rpmOf)
      && r.internal.state == Sync && r.internal.triggersSinceLastSync == 1 && !r.capture.needsDecodingT0
      && r.output.lastTriggerAngle == 30 && r.output.expiration == 262500
  {
    var d := CamPrepared(n, maxChange, minRpm);
    var a := CamStartupEvents[..10];
    var e := Tooth(225000, Sync, true, Variation);
    assert CamStartupEvents == a + [e];
    CamBoot(n, maxChange, minRpm, rpmOf);
    var x := Replay(d, a, rpmOf);
    CamSyncedTooth(x, 225000, 25000, rpmOf);
    Single(x, e, rpmOf);
    ReplayAppend(d, a, [e], rpmOf);
  }

  /** check_cam_nplusone_startup_normal: RPM on the ninth tooth, SYNC on the sync edge, 30 degrees one tooth later. */
  lemma CamStartupNormal(n: nat, maxChange: real, minRpm: nat, rpmOf: RpmFn)
    requires n >= 9 && maxChange >= 0.0
    requires rpmOf(25000, 30) == rpmOf(175000, 210) > minRpm
    ensures var d := CamPrepared(n, maxChange, minRpm);
      && Validates(d, CamStartupEvents, rpmOf)
      && Replay(d, CamStartupEvents, rpmOf).output.lastTriggerAngle == 30
  {
    CamStartup(n, maxChange, minRpm, rpmOf);
  }

  /** check_nplusone_decoder_syncloss_expire: after the start-up the expiry deadline is 262500. */
  lemma CamSyncLossExpire(n: nat, maxChange: real, minRpm: nat, rpmOf: RpmFn)
    requires n >= 9 && maxChange >= 0.0
    requires rpmOf(25000, 30) == rpmOf(175000, 210) > minRpm
    ensures var d := CamPrepared(n, maxChange, minRpm);
      && Validates(d, CamStartupEvents, rpmOf)
      && Replay(d, CamStartupEvents, rpmOf).output.expiration == 262500
  {
    CamStartup(n, maxChange, minRpm, rpmOf);
  }

  /** check_cam_nplusone_startup_normal_then_die: a sync edge one tooth after the last loses SYNC with TRIGGERCOUNT_LOW. */
  lemma CamStartupThenDie(n: nat, maxChange: real, minRpm: nat, rpmOf: RpmFn)
    requires n >= 9 && maxChange >= 0.0
    requires rpmOf(25000, 30) == rpmOf(175000, 210) > minRpm
    ensures var d := CamPrepared(n, maxChange, minRpm);
      Validates(d, CamStartupEvents + [SyncEdge(250000, NoSync, false, TriggerCountLow)], rpmOf)
  {
    var d := CamPrepared(n, maxChange, minRpm);
    var e := SyncEdge(250000, NoSync, false, TriggerCountLow);
    CamStartup(n, maxChange, minRpm, rpmOf);
    var x := Replay(d, CamStartupEvents, rpmOf);
    CamSyncEdge(x, 250000, rpmOf);
    ApplySync(x, 250000, NoSync, false, TriggerCountLow, rpmOf);
    Single(x, e, rpmOf);
    ReplayAppend(d, CamStartupEvents, [e], rpmOf);
  }

  /** The first ten start-up rows, then k teeth in SYNC from 225000. */
  lemma CamTeethAfterBoot(n: nat, maxChange: real, minRpm: nat, rpmOf: RpmFn, k: nat)
    requires n >= 9 && maxChange >= 0.0 && 1 <= k <= 24
    requires rpmOf(25000, 30) == rpmOf(175000, 210) > minRpm
    ensures var d := CamPrepared(n, maxChange, minRpm);
      var evs := CamStartupEvents[..10] + Teeth(225000, 25000, k, Sync, true, Variation);
      var r := Replay(d, evs, rpmOf);
      && Validates(d, evs, rpmOf)
      && r.internal.state == Sync && r.internal.triggersSinceLastSync == k
      && !r.capture.needsDecodingT0 && !r.capture.needsDecodingT1
      && r.output.lastTriggerAngle == AngleAfter(0, 30, k)
      && NextCount(r) >= 8 && Uniform(r.times, 225000 + (k - 1) * 25000, 25000, 7) && r.output.valid
  {
    var d := CamPrepared(n, maxChange, minRpm);
    var a := CamStartupEvents[..10];
    CamBoot(n, maxChange, minRpm, rpmOf);
    var x := Replay(d, a, rpmOf);
    CamSyncedRun(x, 225000, 25000, k, rpmOf);
    ReplayAppend(d, a, Teeth(225000, 25000, k, Sync, true, Variation), rpmOf);
  }

  /** Teeth that together cover one 720-degree cycle bring the angle back to where it was. */
  lemma FullRevolution(angle: int, degrees: int, n: nat)
    requires 0 <= angle < 720 && 0 <= degrees <= 720 && n * degrees == 720
    ensures AngleAfter(angle, degrees, n) == angle
  {
    AngleAfterIsMod(angle, degrees, n);
    assert (angle + 720) % 720 == angle;
  }

  /** The first ten start-up rows, then the 24 teeth of a full revolution from 225000. */
  lemma CamRevolution(n: nat, maxChange: real, minRpm: nat, rpmOf: RpmFn)
    requires n >= 9 && maxChange >= 0.0
    requires rpmOf(25000, 30) == rpmOf(175000, 210) > minRpm
    ensures var d := CamPrepared(n, maxChange, minRpm);
      var evs := CamStartupEvents[..10] + Teeth(225000, 25000, 24, Sync, true, Variation);
      var r := Replay(d, evs, rpmOf);
      && Validates(d, evs, rpmOf)
      && r.internal.state == Sync && r.internal.triggersSinceLastSync == 24
      && !r.capture.needsDecodingT0 && !r.capture.needsDecodingT1
      && r.output.lastTriggerAngle == 0
      && NextCount(r) >= 8 && Uniform(r.times, 800000, 25000, 7) && r.output.valid
  {
    CamTeethAfterBoot(n, maxChange, minRpm, rpmOf, 24);
    FullRevolution(0, 30, 24);
  }

  /** The rows of cam_nplusone_startup_events in check_cam_nplusone_startup_normal_sustained. */
  const CamSustainedEvents: seq<Event> :=
    CamStartupEvents[..10] + Teeth(225000, 25000, 24, Sync, true, Variation)
    + [SyncEdge(800500, Sync, true, Variation)] + Teeth(825000, 25000, 2, Sync, true, Variation)

  /**
   * check_cam_nplusone_startup_normal_sustained: a sync edge after exactly
   * num_triggers teeth keeps SYNC and resets the angle; two teeth later it is 60.
   */
  lemma CamStartupSustained(n: nat, maxChange: real, minRpm: nat, rpmOf: RpmFn)
    requires n >= 9 && maxChange >= 0.0
    requires rpmOf(25000, 30) == rpmOf(175000, 210) > minRpm
    ensures var d := CamPrepared(n, maxChange, minRpm);
      && Validates(d, CamSustainedEvents, rpmOf)
      && Replay(d, CamSustainedEvents, rpmOf).output.lastTriggerAngle == 60
  {
    var d := CamPrepared(n, maxChange, minRpm);
    var a := CamStartupEvents[..10] + Teeth(225000, 25000, 24, Sync, true, Variation);
    var e := SyncEdge(800500, Sync, true, Variation);
    var b := Teeth(825000, 25000, 2, Sync, true, Variation);
    CamRevolution(n, maxChange, minRpm, rpmOf);
    var x := Replay(d, a, rpmOf);
    CamSyncEdge(x, 800500, rpmOf);
    ApplySync(x, 800500, Sync, true, Variation, rpmOf);
    Single(x, e, rpmOf);
    var y := Apply(x, e, rpmOf);
    assert CamSynced(y, 825000, 25000, rpmOf);
    CamSyncedRun(y, 825000, 25000, 2, rpmOf);
    ReplayAppend(d, a, [e], rpmOf);
    ReplayAppend(d, a + [e], b, rpmOf);
  }

  /** The rows of check_cam_nplusone_startup_normal_no_second_trigger. */
  const CamNoSecondTriggerEvents: seq<Event> :=
    CamStartupEvents[..10] + Teeth(225000, 25000, 24, Sync, true, Variation)
    + [Tooth(825000, NoSync, false, TriggerCountHigh), Tooth(850000, NoSync, false, TriggerCountHigh)]

  /**
   * check_cam_nplusone_startup_normal_no_second_trigger: tooth num_triggers + 1
   * without a sync edge loses SYNC with TRIGGERCOUNT_HIGH, and the next tooth
   * is only counted again.
   */
  lemma CamNoSecondTrigger(n: nat, maxChange: real, minRpm: nat, rpmOf: RpmFn)
    requires n >= 9 && maxChange >= 0.0
    requires rpmOf(25000, 30) == rpmOf(175000, 210) > minRpm
    ensures Validates(CamPrepared(n, maxChange, minRpm), CamNoSecondTriggerEvents, rpmOf)
  {
    var d := CamPrepared(n, maxChange, minRpm);
    var a := CamStartupEvents[..10] + Teeth(225000, 25000, 24, Sync, true, Variation);
    var e1 := Tooth(825000, NoSync, false, TriggerCountHigh);
    var e2 := Tooth(850000, NoSync, false, TriggerCountHigh);
    CamRevolution(n, maxChange, minRpm, rpmOf);
    var x := Replay(d, a, rpmOf);
    CamTooManyTeeth(x, 825000, rpmOf);
    ApplyTooth(x, 825000, NoSync, false, TriggerCountHigh, rpmOf);
    Single(x, e1, rpmOf);
    var y := Apply(x, e1, rpmOf);
    NoSyncTooth(y, 850000, rpmOf);
    ApplyTooth(y, 850000, NoSync, false, TriggerCountHigh, rpmOf);
    Single(y, e2, rpmOf);
    ReplayAppend(d, a, [e1], rpmOf);
    ReplayAppend(d, a + [e1], [e2], rpmOf);
    assert CamNoSecondTriggerEvents == (a + [e1]) + [e2];
  }
}
