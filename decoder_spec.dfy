/**
 * The trigger decoder of src/decoder.c as pure functions over a value that
 * mirrors `struct decoder` (src/decoder.h). Each function is the effect of the
 * C function of the same name on the struct; the class in module TriggerDecoders
 * performs the same steps in place and is proved to agree with these.
 *
 * The calls the decoder makes into the scheduler (schedule_callback,
 * invalidate_scheduled_events, schedule_event) are recorded, in order, in the
 * field `calls`.
 */
module DecoderSpec {
  import opened Platform

  datatype DecoderState = NoSync | Rpm | Sync

  datatype LossReason = Variation | TriggerCountHigh | TriggerCountLow | Expired

  datatype TriggerType = FordTfi | Toyota24Plus1Cas

  /** The `decode` function pointer: unset (NULL) until decoder_init. */
  datatype DecodeFunc = NoDecoder | TfiPipDecoder | CamNPlusOneDecoder

  /** A call from the decoder into the scheduler, which is not part of this model. */
  datatype SchedulerCall =
    | ScheduleCallback(deadline: Time)   // schedule_callback(&expire_event, deadline)
    | InvalidateScheduledEvents          // invalidate_scheduled_events(config.events, ...)
    | ScheduleEvent(event: nat)          // schedule_event(&config.events[event])

  /** rpm_from_time_diff(ticks, degrees) of util.c, which is not part of this model. */
  type RpmFn = (Time, int) -> nat

  /** The interrupt-written section of `struct decoder`: the latched edges. */
  datatype Capture = Capture(lastT0: Time, lastT1: Time, needsDecodingT0: bool, needsDecodingT1: bool)

  /** The section only the main loop writes, read by the scheduler. */
  datatype Output = Output(decode: DecodeFunc, valid: bool, rpm: nat, lastTriggerTime: Time,
                           lastTriggerAngle: int, expiration: Time)

  /** The configuration section, filled in from the configuration and by decoder_init. */
  datatype Config = Config(triggerType: TriggerType, triggerMaxRpmChange: real, triggerMinRpm: nat,
                           requiredTriggersRpm: nat, numTriggers: nat, degreesPerTrigger: int,
                           rpmWindowSize: nat)

  /** The debug section: edge counters and the reason sync was last lost. */
  datatype Debug = Debug(t0Count: Uint32, t1Count: Uint32, loss: LossReason)

  /** The internal sync state. */
  datatype Internal = Internal(state: DecoderState, currentTriggersRpm: nat, triggersSinceLastSync: Uint32)

  /**
   * `struct decoder`, one field per commented section of the C struct, the
   * edge shift register `times` (newest first), and the scheduler calls made
   * so far.
   */
  datatype Decoder = Decoder(
    capture: Capture,
    output: Output,
    config: Config,
    debug: Debug,
    internal: Internal,
    times: seq<Time>,
    calls: seq<SchedulerCall>)

  /**
   * What the functions below need of a decoder: the shift register holds at
   * least two entries (times[0] and times[1] are read), and the saturating
   * tooth counter never exceeds its length, MAX_TRIGGERS.
   */
  predicate WellFormed(d: Decoder) {
    |d.times| >= 2 && d.internal.currentTriggersRpm <= |d.times|
  }

  /**
   * The invariant the decoder keeps: besides WellFormed, the crank angle lies
   * in [0,720) and RPM or SYNC is only ever held with the bootstrap tooth count
   * reached.
   */
  predicate Inv(d: Decoder) {
    && WellFormed(d)
    && 0 <= d.config.degreesPerTrigger <= 720
    && 0 <= d.output.lastTriggerAngle < 720
    && (d.internal.state != NoSync ==> d.internal.currentTriggersRpm >= d.config.requiredTriggersRpm)
  }

  /** The zero-initialised global `config.decoder` before decoder_init. */
  function Zeroed(triggerType: TriggerType, maxTriggers: nat, maxRpmChange: real, minRpm: nat): (d: Decoder)
    ensures |d.times| == maxTriggers && d.internal.state == NoSync && !d.output.valid
  {
    Decoder(Capture(0, 0, false, false), Output(NoDecoder, false, 0, 0, 0, 0),
            Config(triggerType, maxRpmChange, minRpm, 0, 0, 0, 0), Debug(0, 0, Variation),
            Internal(NoSync, 0, 0), seq(maxTriggers, _ => 0), [])
  }

  /** push_time: shift the edge times up one place and put t in front. */
  function PushTime(times: seq<Time>, t: Time): (r: seq<Time>)
    requires |times| > 0
    ensures |r| == |times| && r[0] == t
    ensures forall i :: 0 < i < |r| ==> r[i] == times[i - 1]
  {
    [t] + times[..|times| - 1]
  }

  /** current_rpm_window_size: the smaller of the teeth seen and the configured window. */
  function CurrentRpmWindowSize(currentTriggers: nat, normalWindowSize: nat): (r: nat)
    ensures r <= currentTriggers && r <= normalWindowSize
    ensures r == currentTriggers || r == normalWindowSize
    ensures currentTriggers == 0 ==> r == 0
  {
    if currentTriggers == 0 then 0
    else if currentTriggers < normalWindowSize then currentTriggers
    else normalWindowSize
  }

  /** `times[0] + diff * 1.5`, truncated to a 32-bit tick count. */
  function ExpirationAfter(t0: Time, diff: Uint32): (r: Time)
    ensures t0 + diff + diff / 2 < WORD ==> r == t0 + diff + diff / 2
  {
    (t0 + (3 * diff) / 2) % WORD
  }

  /** The per-tooth variation test of trigger_update_rpm. */
  predicate ExcessiveVariation(sliceRpm: nat, rpm: nat, minRpm: nat, maxChange: real) {
    || sliceRpm <= minRpm
    || sliceRpm as real > rpm as real + rpm as real * maxChange
    || (sliceRpm as real) < rpm as real - rpm as real * maxChange
  }

  /** The windowed rpm of trigger_update_rpm, 0 with fewer than two teeth in the window. */
  function WindowRpm(d: Decoder, rpmOf: RpmFn): nat
    requires WellFormed(d)
  {
    var w := CurrentRpmWindowSize(d.internal.currentTriggersRpm, d.config.rpmWindowSize);
    if w > 1 then rpmOf(Sub32(d.times[0], d.times[w - 1]), d.config.degreesPerTrigger * (w - 1))
    else 0
  }

  /** The rpm of the newest tooth alone. */
  function SliceRpm(d: Decoder, rpmOf: RpmFn): nat
    requires |d.times| >= 2
  {
    rpmOf(Sub32(d.times[0], d.times[1]), d.config.degreesPerTrigger)
  }

  /** trigger_update_rpm: rpm, variation and tooth-count checks, and the expiry deadline. */
  function TriggerUpdateRpm(d: Decoder, rpmOf: RpmFn): Decoder
    requires WellFormed(d)
  {
    var diff := Sub32(d.times[0], d.times[1]);
    var rpm := WindowRpm(d, rpmOf);
    var varied := ExcessiveVariation(SliceRpm(d, rpmOf), rpm, d.config.triggerMinRpm, d.config.triggerMaxRpmChange);
    var high := d.internal.triggersSinceLastSync > d.config.numTriggers;
    var state := if varied || high then NoSync else d.internal.state;
    var loss := if high then TriggerCountHigh else if varied then Variation else d.debug.loss;
    var exp := ExpirationAfter(d.times[0], diff);
    d.(output := d.output.(rpm := rpm, expiration := exp),
       internal := d.internal.(state := state),
       debug := d.debug.(loss := loss),
       calls := d.calls + [ScheduleCallback(exp)])
  }

  /** `angle += degrees; if (angle >= 720) angle -= 720;` */
  function AdvanceAngle(angle: int, degrees: int): (r: int)
    ensures 0 <= angle < 720 && 0 <= degrees <= 720 ==> 0 <= r < 720
    ensures angle + degrees < 720 ==> r == angle + degrees
  {
    var a := angle + degrees;
    if a >= 720 then a - 720 else a
  }

  /** The bookkeeping at the start of trigger_update: push the time, count the tooth. */
  function CountTooth(d: Decoder, t: Time): (r: Decoder)
    requires WellFormed(d)
    ensures WellFormed(r)
  {
    var n := d.internal.currentTriggersRpm;
    d.(times := PushTime(d.times, t),
       debug := d.debug.(t0Count := Inc32(d.debug.t0Count)),
       internal := d.internal.(triggersSinceLastSync := Inc32(d.internal.triggersSinceLastSync),
                               currentTriggersRpm := if n < |d.times| then n + 1 else n))
  }

  /** NOSYNC becomes RPM once enough teeth have been counted. */
  function ReachRpm(d: Decoder): Decoder {
    if d.internal.state == NoSync && d.internal.currentTriggersRpm >= d.config.requiredTriggersRpm
    then d.(internal := d.internal.(state := Rpm)) else d
  }

  /** In SYNC a tooth advances the angle. */
  function AdvanceInSync(d: Decoder): Decoder {
    if d.internal.state == Sync
    then d.(output := d.output.(lastTriggerAngle := AdvanceAngle(d.output.lastTriggerAngle, d.config.degreesPerTrigger)))
    else d
  }

  /** trigger_update: bookkeeping for one primary edge at time t. */
  function TriggerUpdate(d: Decoder, t: Time, rpmOf: RpmFn): Decoder
    requires WellFormed(d)
  {
    var d3 := AdvanceInSync(ReachRpm(CountTooth(d, t)));
    if d3.internal.state == Rpm || d3.internal.state == Sync then TriggerUpdateRpm(d3, rpmOf) else d3
  }

  /** sync_update: one sync (cam) edge. */
  function SyncUpdate(d: Decoder): Decoder {
    var s := d.internal;
    var debug := d.debug.(t1Count := Inc32(d.debug.t1Count));
    if s.state == Rpm || (s.state == Sync && s.triggersSinceLastSync == d.config.numTriggers) then
      d.(debug := debug, internal := s.(state := Sync, triggersSinceLastSync := 0),
         output := d.output.(lastTriggerAngle := 0))
    else if s.state == Sync then
      d.(debug := debug.(loss := TriggerCountLow), internal := s.(state := NoSync, triggersSinceLastSync := 0))
    else
      d.(debug := debug, internal := s.(triggersSinceLastSync := 0))
  }

  /** invalidate_decoder: drop to NOSYNC and cancel every scheduled event. */
  function InvalidateDecoder(d: Decoder): Decoder {
    d.(output := d.output.(valid := false), internal := Internal(NoSync, 0, 0),
       calls := d.calls + [InvalidateScheduledEvents])
  }

  /** handle_decoder_expire: the expiry callback. */
  function HandleDecoderExpire(d: Decoder): Decoder {
    InvalidateDecoder(d.(debug := d.debug.(loss := Expired)))
  }

  /** The common tail of both decoders: publish SYNC, or invalidate on losing it. */
  function Publish(d: Decoder, oldState: DecoderState, t0: Time): Decoder {
    if d.internal.state == Sync then d.(output := d.output.(valid := true, lastTriggerTime := t0))
    else if oldState == Sync then InvalidateDecoder(d)
    else d
  }

  /** The edge handling of cam_nplusone_decoder, before the common tail. */
  function CamEdges(d: Decoder, rpmOf: RpmFn): (r: Decoder)
    requires WellFormed(d)
  {
    var t0 := d.capture.lastT0;
    var d1 := if d.capture.needsDecodingT0
              then var u := TriggerUpdate(d, t0, rpmOf); u.(capture := u.capture.(needsDecodingT0 := false))
              else d;
    if d1.capture.needsDecodingT1
    then var u := SyncUpdate(d1); u.(capture := u.capture.(needsDecodingT1 := false))
    else d1
  }

  /** cam_nplusone_decoder: a 24+1 wheel, primary edges on t0 and a sync edge on t1. */
  function CamNPlusOne(d: Decoder, rpmOf: RpmFn): Decoder
    requires WellFormed(d)
  {
    Publish(CamEdges(d, rpmOf), d.internal.state, d.capture.lastT0)
  }

  /** tfi_pip_decoder: a single-channel wheel; every tooth in RPM or SYNC is a sync. */
  function TfiPip(d: Decoder, rpmOf: RpmFn): Decoder
    requires WellFormed(d)
  {
    var t0 := d.capture.lastT0;
    var d1 := TriggerUpdate(d.(capture := d.capture.(needsDecodingT0 := false)), t0, rpmOf);
    if d1.internal.state == Rpm || d1.internal.state == Sync then
      d1.(internal := d1.internal.(state := Sync, triggersSinceLastSync := 0),
          output := d1.output.(valid := true, lastTriggerTime := t0))
    else if d.internal.state == Sync then InvalidateDecoder(d1)
    else d1
  }

  /** `d->decode(d)` */
  function Decode(d: Decoder, rpmOf: RpmFn): Decoder
    requires WellFormed(d) && d.output.decode != NoDecoder
  {
    match d.output.decode
    case TfiPipDecoder => TfiPip(d, rpmOf)
    case CamNPlusOneDecoder => CamNPlusOne(d, rpmOf)
  }

  /** The wheel profile decoder_init selects for a trigger type. */
  function Profile(c: Config): (r: Config)
    ensures r.triggerType == c.triggerType
    ensures r.triggerMaxRpmChange == c.triggerMaxRpmChange && r.triggerMinRpm == c.triggerMinRpm
  {
    match c.triggerType
    case FordTfi =>
      c.(requiredTriggersRpm := 4, degreesPerTrigger := 90, rpmWindowSize := 3, numTriggers := 8)
    case Toyota24Plus1Cas =>
      c.(requiredTriggersRpm := 8, degreesPerTrigger := 30, rpmWindowSize := 8, numTriggers := 24)
  }

  /** The decode function decoder_init selects for a trigger type. */
  function DecoderFor(t: TriggerType): (r: DecodeFunc)
    ensures r != NoDecoder
  {
    match t
    case FordTfi => TfiPipDecoder
    case Toyota24Plus1Cas => CamNPlusOneDecoder
  }

  /** decoder_init: the profile of the configured trigger type, and a reset state. */
  function DecoderInit(d: Decoder): Decoder {
    d.(capture := Capture(0, 0, false, false),
       output := Output(DecoderFor(d.config.triggerType), false, 0, 0, 0, 0),
       config := Profile(d.config),
       internal := Internal(NoSync, 0, 0))
  }

  /** The edge latch of decoder_update_scheduling: trigger 0 is primary, 1 is sync. */
  function LatchEdge(d: Decoder, trigger: int, time: Time): Decoder {
    if trigger == 0 then d.(capture := d.capture.(lastT0 := time, needsDecodingT0 := true))
    else if trigger == 1 then d.(capture := d.capture.(lastT1 := time, needsDecodingT1 := true))
    else d
  }

  /** schedule_event for each configured event, in index order. */
  function ScheduleAll(numEvents: nat): (r: seq<SchedulerCall>)
    ensures |r| == numEvents
    ensures forall e :: 0 <= e < numEvents ==> r[e] == ScheduleEvent(e)
  {
    seq(numEvents, (e: nat) => ScheduleEvent(e))
  }

  /** decoder_update_scheduling: latch, decode, and reschedule everything while valid. */
  function UpdateScheduling(d: Decoder, trigger: int, time: Time, numEvents: nat, rpmOf: RpmFn): Decoder
    requires WellFormed(d) && d.output.decode != NoDecoder
  {
    var d1 := Decode(LatchEdge(d, trigger, time), rpmOf);
    if d1.output.valid then d1.(calls := d1.calls + ScheduleAll(numEvents)) else d1
  }

  /** An edge as the platform reports it to decoder_update_scheduling. */
  datatype Edge = Edge(trigger: int, time: Time)

  /** A run of decoder_update_scheduling over a sequence of edges. */
  function Run(d: Decoder, edges: seq<Edge>, numEvents: nat, rpmOf: RpmFn): Decoder
    requires Inv(d) && d.output.decode != NoDecoder
    decreases |edges|
  {
    if edges == [] then d
    else
      UpdateSchedulingKeepsInv(d, edges[0].trigger, edges[0].time, numEvents, rpmOf);
      Run(UpdateScheduling(d, edges[0].trigger, edges[0].time, numEvents, rpmOf), edges[1..], numEvents, rpmOf)
  }

  // ---------------------------------------------------------------------------
  // Properties of the single steps
  // ---------------------------------------------------------------------------

  /**
   * The outcome of trigger_update_rpm: the windowed rpm, NOSYNC with reason
   * VARIATION or TRIGGERCOUNT_HIGH (the latter checked second, so it wins),
   * the expiry callback re-armed, and no other field touched.
   */
  lemma TriggerUpdateRpmOutcome(d: Decoder, rpmOf: RpmFn)
    requires WellFormed(d)
    ensures var r := TriggerUpdateRpm(d, rpmOf);
      var varied := ExcessiveVariation(SliceRpm(d, rpmOf), WindowRpm(d, rpmOf), d.config.triggerMinRpm, d.config.triggerMaxRpmChange);
      var high := d.internal.triggersSinceLastSync > d.config.numTriggers;
      && r.output.rpm == WindowRpm(d, rpmOf)
      && (varied || high ==> r.internal.state == NoSync)
      && (!varied && !high ==> r.internal.state == d.internal.state && r.debug.loss == d.debug.loss)
      && (high ==> r.debug.loss == TriggerCountHigh)
      && (varied && !high ==> r.debug.loss == Variation)
      && r.calls == d.calls + [ScheduleCallback(r.output.expiration)]
      && r.capture == d.capture && r.config == d.config && r.times == d.times
      && r.output.(rpm := d.output.rpm, expiration := d.output.expiration) == d.output
      && r.internal.(state := d.internal.state) == d.internal
      && r.debug.(loss := d.debug.loss) == d.debug
  {
  }

  /** The rpm of trigger_update_rpm is 0 with fewer than two teeth in the window. */
  lemma RpmZeroForShortWindow(d: Decoder, rpmOf: RpmFn)
    requires WellFormed(d)
    requires CurrentRpmWindowSize(d.internal.currentTriggersRpm, d.config.rpmWindowSize) <= 1
    ensures TriggerUpdateRpm(d, rpmOf).output.rpm == 0
  {
  }

  /**
   * The expiry deadline is 1.5 inter-tooth intervals after the newest edge
   * (rounded down), as long as no 32-bit wrap-around occurs.
   */
  lemma ExpirationIsOneAndAHalfTeeth(d: Decoder, rpmOf: RpmFn)
    requires WellFormed(d)
    requires d.times[1] <= d.times[0]
    requires d.times[0] + 2 * (d.times[0] - d.times[1]) < WORD
    ensures var e := TriggerUpdateRpm(d, rpmOf).output.expiration - d.times[0];
      && 2 * e <= 3 * (d.times[0] - d.times[1]) < 2 * e + 2
  {
  }

  /**
   * One primary edge: the push into the shift register, the counters (the
   * tooth counter saturating at MAX_TRIGGERS), and the NOSYNC to RPM step,
   * after which the rpm checks run on the new state.
   */
  lemma TriggerUpdateCounters(d: Decoder, t: Time, rpmOf: RpmFn)
    requires WellFormed(d)
    ensures var r := TriggerUpdate(d, t, rpmOf);
      var n := if d.internal.currentTriggersRpm < |d.times| then d.internal.currentTriggersRpm + 1
               else d.internal.currentTriggersRpm;
      && r.times == PushTime(d.times, t)
      && r.debug.t0Count == Inc32(d.debug.t0Count)
      && r.internal.triggersSinceLastSync == Inc32(d.internal.triggersSinceLastSync)
      && r.internal.currentTriggersRpm == n
      && WellFormed(r)
      && (d.internal.state == NoSync && n < d.config.requiredTriggersRpm ==> r == CountTooth(d, t))
      && (d.internal.state == NoSync && n >= d.config.requiredTriggersRpm ==>
            r == TriggerUpdateRpm(ReachRpm(CountTooth(d, t)), rpmOf))
  {
    var d3 := AdvanceInSync(ReachRpm(CountTooth(d, t)));
    if d3.internal.state == Rpm || d3.internal.state == Sync {
      TriggerUpdateRpmOutcome(d3, rpmOf);
    }
  }

  /** Only in SYNC does a primary edge move the angle, by degrees_per_trigger mod 720. */
  lemma TriggerUpdateAngle(d: Decoder, t: Time, rpmOf: RpmFn)
    requires WellFormed(d)
    ensures var r := TriggerUpdate(d, t, rpmOf);
      && (d.internal.state == Sync ==>
            r.output.lastTriggerAngle == AdvanceAngle(d.output.lastTriggerAngle, d.config.degreesPerTrigger))
      && (d.internal.state != Sync ==> r.output.lastTriggerAngle == d.output.lastTriggerAngle)
  {
    var d3 := AdvanceInSync(ReachRpm(CountTooth(d, t)));
    if d3.internal.state == Rpm || d3.internal.state == Sync {
      TriggerUpdateRpmOutcome(d3, rpmOf);
    }
  }

  /** sync_update: RPM becomes SYNC at angle 0; SYNC is kept exactly when the tooth count matched. */
  lemma SyncUpdateOutcome(d: Decoder)
    ensures var r := SyncUpdate(d);
      && r.internal.triggersSinceLastSync == 0
      && r.debug.t1Count == Inc32(d.debug.t1Count)
      && (d.internal.state == Rpm ==> r.internal.state == Sync && r.output.lastTriggerAngle == 0)
      && (d.internal.state == Sync ==>
            (r.internal.state == Sync <==> d.internal.triggersSinceLastSync == d.config.numTriggers))
      && (d.internal.state == Sync && r.internal.state == Sync ==> r.output.lastTriggerAngle == 0)
      && (d.internal.state == Sync && r.internal.state != Sync ==>
            r.internal.state == NoSync && r.debug.loss == TriggerCountLow)
      && (d.internal.state == NoSync ==> r.internal.state == NoSync && r.debug.loss == d.debug.loss)
  {
  }

  /** invalidate_decoder resets exactly the sync bookkeeping and cancels the events. */
  lemma InvalidateResets(d: Decoder)
    ensures var r := InvalidateDecoder(d);
      && !r.output.valid && r.internal.state == NoSync
      && r.internal.currentTriggersRpm == 0 && r.internal.triggersSinceLastSync == 0
      && r.calls == d.calls + [InvalidateScheduledEvents]
      && r.output.(valid := d.output.valid) == d.output
      && r.(output := d.output, internal := d.internal, calls := d.calls) == d
  {
  }

  /** The expiry callback also records the loss reason EXPIRED. */
  lemma ExpireSetsLoss(d: Decoder)
    ensures var r := HandleDecoderExpire(d);
      && r.debug.loss == Expired && !r.output.valid && r.internal.state == NoSync
      && r.internal.currentTriggersRpm == 0 && r.internal.triggersSinceLastSync == 0
      && r.calls == d.calls + [InvalidateScheduledEvents]
  {
  }

  /** tfi_pip_decoder: RPM or SYNC is promoted to SYNC, published, and the sync count cleared. */
  lemma TfiPipPromotes(d: Decoder, rpmOf: RpmFn)
    requires WellFormed(d)
    ensures var u := TriggerUpdate(d.(capture := d.capture.(needsDecodingT0 := false)), d.capture.lastT0, rpmOf);
      var r := TfiPip(d, rpmOf);
      && (u.internal.state != NoSync ==>
            && r.internal == u.internal.(state := Sync, triggersSinceLastSync := 0)
            && r.output == u.output.(valid := true, lastTriggerTime := d.capture.lastT0))
      && (u.internal.state == NoSync && d.internal.state == Sync ==> r == InvalidateDecoder(u))
      && (u.internal.state == NoSync && d.internal.state != Sync ==> r == u)
  {
  }

  /** The tail shared by both decoders: published in SYNC, invalidated on leaving SYNC. */
  lemma PublishOutcome(d: Decoder, oldState: DecoderState, t0: Time)
    ensures var r := Publish(d, oldState, t0);
      && (d.internal.state == Sync ==>
            r.internal.state == Sync && r.output.valid && r.output.lastTriggerTime == t0)
      && (d.internal.state != Sync && oldState == Sync ==> r == InvalidateDecoder(d))
      && (d.internal.state != Sync && oldState != Sync ==> r == d)
  {
  }

  /**
   * A decoder is invalidated exactly when it falls out of SYNC: a SYNC result
   * is published, a drop from SYNC invalidates, and an edge that neither
   * starts nor ends in SYNC (a drop from RPM, say) leaves `valid` alone.
   */
  lemma InvalidatesOnlyFromSync(d: Decoder, rpmOf: RpmFn)
    requires WellFormed(d) && d.output.decode != NoDecoder
    ensures var r := Decode(d, rpmOf);
      && (r.internal.state == Sync ==> r.output.valid && r.output.lastTriggerTime == d.capture.lastT0)
      && (d.internal.state == Sync && r.internal.state != Sync ==>
            && !r.output.valid && r.internal.currentTriggersRpm == 0 && r.internal.triggersSinceLastSync == 0
            && r.calls[|r.calls| - 1] == InvalidateScheduledEvents)
      && (d.internal.state != Sync && r.internal.state != Sync ==> r.output.valid == d.output.valid)
  {
    if d.output.decode == TfiPipDecoder {
      TfiPipPromotes(d, rpmOf);
    } else {
      PublishOutcome(CamEdges(d, rpmOf), d.internal.state, d.capture.lastT0);
    }
  }

  // ---------------------------------------------------------------------------
  // The invariant
  // ---------------------------------------------------------------------------

  lemma ToothStepsKeepInv(d: Decoder, t: Time)
    requires Inv(d)
    ensures Inv(AdvanceInSync(ReachRpm(CountTooth(d, t))))
  {
  }

  lemma TriggerUpdateRpmKeepsInv(d: Decoder, rpmOf: RpmFn)
    requires Inv(d)
    ensures Inv(TriggerUpdateRpm(d, rpmOf))
  {
  }

  /** Every primary edge preserves the decoder invariant and the configuration. */
  lemma TriggerUpdateKeepsInv(d: Decoder, t: Time, rpmOf: RpmFn)
    requires Inv(d)
    ensures Inv(TriggerUpdate(d, t, rpmOf))
    ensures TriggerUpdate(d, t, rpmOf).config == d.config
    ensures TriggerUpdate(d, t, rpmOf).output.decode == d.output.decode
  {
    ToothStepsKeepInv(d, t);
    var d3 := AdvanceInSync(ReachRpm(CountTooth(d, t)));
    if d3.internal.state == Rpm || d3.internal.state == Sync {
      TriggerUpdateRpmKeepsInv(d3, rpmOf);
    }
  }

  lemma SyncUpdateKeepsInv(d: Decoder)
    requires Inv(d)
    ensures Inv(SyncUpdate(d))
    ensures SyncUpdate(d).config == d.config && SyncUpdate(d).output.decode == d.output.decode
  {
  }

  lemma PublishKeepsInv(d: Decoder, oldState: DecoderState, t0: Time)
    requires Inv(d)
    ensures Inv(Publish(d, oldState, t0))
    ensures Publish(d, oldState, t0).config == d.config
    ensures Publish(d, oldState, t0).output.decode == d.output.decode
  {
  }

  lemma CamEdgesKeepInv(d: Decoder, rpmOf: RpmFn)
    requires Inv(d)
    ensures Inv(CamEdges(d, rpmOf))
    ensures CamEdges(d, rpmOf).config == d.config && CamEdges(d, rpmOf).output.decode == d.output.decode
  {
    var t0 := d.capture.lastT0;
    if d.capture.needsDecodingT0 {
      TriggerUpdateKeepsInv(d, t0, rpmOf);
    }
    var d1 := if d.capture.needsDecodingT0
              then var u := TriggerUpdate(d, t0, rpmOf); u.(capture := u.capture.(needsDecodingT0 := false))
              else d;
    SyncUpdateKeepsInv(d1);
  }

  lemma CamNPlusOneKeepsInv(d: Decoder, rpmOf: RpmFn)
    requires Inv(d)
    ensures Inv(CamNPlusOne(d, rpmOf))
    ensures CamNPlusOne(d, rpmOf).config == d.config && CamNPlusOne(d, rpmOf).output.decode == d.output.decode
  {
    CamEdgesKeepInv(d, rpmOf);
    PublishKeepsInv(CamEdges(d, rpmOf), d.internal.state, d.capture.lastT0);
  }

  lemma TfiPipKeepsInv(d: Decoder, rpmOf: RpmFn)
    requires Inv(d)
    ensures Inv(TfiPip(d, rpmOf))
    ensures TfiPip(d, rpmOf).config == d.config && TfiPip(d, rpmOf).output.decode == d.output.decode
  {
    TriggerUpdateKeepsInv(d.(capture := d.capture.(needsDecodingT0 := false)), d.capture.lastT0, rpmOf);
  }

  /** Every decode (either profile) preserves the decoder invariant. */
  lemma DecodeKeepsInv(d: Decoder, rpmOf: RpmFn)
    requires Inv(d) && d.output.decode != NoDecoder
    ensures Inv(Decode(d, rpmOf))
    ensures Decode(d, rpmOf).config == d.config && Decode(d, rpmOf).output.decode == d.output.decode
  {
    if d.output.decode == TfiPipDecoder {
      TfiPipKeepsInv(d, rpmOf);
    } else {
      CamNPlusOneKeepsInv(d, rpmOf);
    }
  }

  /** decoder_update_scheduling preserves the invariant and never changes the configuration. */
  lemma UpdateSchedulingKeepsInv(d: Decoder, trigger: int, time: Time, numEvents: nat, rpmOf: RpmFn)
    requires Inv(d) && d.output.decode != NoDecoder
    ensures var r := UpdateScheduling(d, trigger, time, numEvents, rpmOf);
      && Inv(r) && r.config == d.config && r.output.decode == d.output.decode
  {
    DecodeKeepsInv(LatchEdge(d, trigger, time), rpmOf);
  }

  /** decoder_init produces an initialised decoder satisfying the invariant. */
  lemma DecoderInitKeepsInv(d: Decoder)
    requires WellFormed(d)
    ensures var r := DecoderInit(d);
      && Inv(r) && r.output.decode != NoDecoder && r.internal.state == NoSync && !r.output.valid
      && r.times == d.times && r.calls == d.calls && r.debug == d.debug
  {
  }

  /**
   * After any run of edges the angle is in [0,720), RPM or SYNC are only held
   * with at least required_triggers_rpm teeth counted since the last reset, and
   * the configuration is the one decoder_init chose.
   */
  lemma {:induction false} RunKeepsInv(d: Decoder, edges: seq<Edge>, numEvents: nat, rpmOf: RpmFn)
    requires Inv(d) && d.output.decode != NoDecoder
    ensures var r := Run(d, edges, numEvents, rpmOf);
      && Inv(r) && r.config == d.config && r.output.decode == d.output.decode
      && 0 <= r.output.lastTriggerAngle < 720
      && (r.internal.state != NoSync ==> r.internal.currentTriggersRpm >= r.config.requiredTriggersRpm)
    decreases |edges|
  {
    if edges != [] {
      UpdateSchedulingKeepsInv(d, edges[0].trigger, edges[0].time, numEvents, rpmOf);
      RunKeepsInv(UpdateScheduling(d, edges[0].trigger, edges[0].time, numEvents, rpmOf), edges[1..], numEvents, rpmOf);
    }
  }
}
