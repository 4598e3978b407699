/**
 * `struct decoder` (src/decoder.h) as an object whose methods update its
 * fields in place, step by step, as src/decoder.c does. Every method is
 * proved to have exactly the effect of its specification function in module
 * DecoderSpec, on the value View() of all the fields: the function that bears
 * its name, DecoderInit for Init, and ScheduleAll for ScheduleEvents.
 */
module TriggerDecoders {
  import opened Platform
  import opened DecoderSpec

  /**
   * `struct decoder`, its five commented sections held as five fields, and
   * the edge shift register `times` as an array whose length, MAX_TRIGGERS,
   * the constructor takes as `maxTriggers`.
   */
  class TriggerDecoder {
    var capture: Capture
    var output: Output
    var config: Config
    var debug: Debug
    var internal: Internal
    /** The edge shift register, newest first. */
    const times: array<Time>
    /** Calls made into the scheduler, in order. */
    ghost var calls: seq<SchedulerCall>
    /** rpm_from_time_diff of util.c. */
    const rpmOf: RpmFn

    ghost function View(): Decoder
      reads this, times
    {
      Decoder(capture, output, config, debug, internal, times[..], calls)
    }

    ghost predicate Valid()
      reads this, times
    {
      Inv(View())
    }

    /** The zero-initialised global, before decoder_init runs. */
    constructor (triggerType: TriggerType, maxTriggers: nat, maxRpmChange: real, minRpm: nat, rpmOf: RpmFn)
      requires maxTriggers >= 2
      ensures Valid() && fresh(times)
      ensures View() == Zeroed(triggerType, maxTriggers, maxRpmChange, minRpm)
      ensures this.rpmOf == rpmOf
    {
      capture := Capture(0, 0, false, false);
      output := Output(NoDecoder, false, 0, 0, 0, 0);
      config := Config(triggerType, maxRpmChange, minRpm, 0, 0, 0, 0);
      debug := Debug(0, 0, Variation);
      internal := Internal(NoSync, 0, 0);
      times := new Time[maxTriggers](_ => 0);
      calls := [];
      this.rpmOf := rpmOf;
    }

    /** push_time */
    method PushTime(t: Time)
      requires times.Length > 0
      modifies times
      ensures times[..] == DecoderSpec.PushTime(old(times[..]), t)
    {
      var i := times.Length - 1;
      while i > 0
        invariant 0 <= i < times.Length
        invariant forall k :: i < k < times.Length ==> times[k] == old(times[k - 1])
        invariant forall k :: 0 <= k <= i ==> times[k] == old(times[k])
      {
        times[i] := times[i - 1];
        i := i - 1;
      }
      times[0] := t;
    }

    /** trigger_update_rpm */
    method TriggerUpdateRpm()
      requires Valid()
      modifies this
      ensures Valid()
      ensures View() == DecoderSpec.TriggerUpdateRpm(old(View()), rpmOf)
    {
      TriggerUpdateRpmKeepsInv(View(), rpmOf);
      var diff := Sub32(times[0], times[1]);
      var sliceRpm := rpmOf(diff, config.degreesPerTrigger);
      var windowSize := CurrentRpmWindowSize(internal.currentTriggersRpm, config.rpmWindowSize);
      var rpm := 0;
      if windowSize > 1 {
        rpm := rpmOf(Sub32(times[0], times[windowSize - 1]), config.degreesPerTrigger * (windowSize - 1));
      }
      var st := internal.state;
      var loss := debug.loss;
      if ExcessiveVariation(sliceRpm, rpm, config.triggerMinRpm, config.triggerMaxRpmChange) {
        st, loss := NoSync, Variation;
      }
      if internal.triggersSinceLastSync > config.numTriggers {
        st, loss := NoSync, TriggerCountHigh;
      }
      var expiration := ExpirationAfter(times[0], diff);
      output := output.(rpm := rpm, expiration := expiration);
      internal := internal.(state := st);
      debug := debug.(loss := loss);
      calls := calls + [ScheduleCallback(expiration)];
    }

    /** The counting part of trigger_update: push the time, count the tooth. */
    method CountTooth(t: Time)
      requires Valid()
      modifies this, times
      ensures View() == DecoderSpec.CountTooth(old(View()), t)
    {
      PushTime(t);
      debug := debug.(t0Count := Inc32(debug.t0Count));
      var n := internal.currentTriggersRpm;
      if n < times.Length {
        n := n + 1;
      }
      internal := internal.(triggersSinceLastSync := Inc32(internal.triggersSinceLastSync),
                            currentTriggersRpm := n);
    }

    /** trigger_update */
    method TriggerUpdate(t: Time)
      requires Valid()
      modifies this, times
      ensures Valid()
      ensures View() == DecoderSpec.TriggerUpdate(old(View()), t, rpmOf)
    {
      ghost var d := View();
      ToothStepsKeepInv(d, t);
      CountTooth(t);
      if internal.state == NoSync && internal.currentTriggersRpm >= config.requiredTriggersRpm {
        internal := internal.(state := Rpm);
      }
      if internal.state == Sync {
        output := output.(lastTriggerAngle := AdvanceAngle(output.lastTriggerAngle, config.degreesPerTrigger));
      }
      assert View() == AdvanceInSync(ReachRpm(DecoderSpec.CountTooth(d, t)));
      if internal.state == Rpm || internal.state == Sync {
        TriggerUpdateRpm();
      }
    }

    /** sync_update */
    method SyncUpdate()
      requires Valid()
      modifies this
      ensures Valid()
      ensures View() == DecoderSpec.SyncUpdate(old(View()))
    {
      SyncUpdateKeepsInv(View());
      debug := debug.(t1Count := Inc32(debug.t1Count));
      if internal.state == Rpm {
        internal := internal.(state := Sync);
        output := output.(lastTriggerAngle := 0);
      } else if internal.state == Sync {
        if internal.triggersSinceLastSync == config.numTriggers {
          internal := internal.(state := Sync);
          output := output.(lastTriggerAngle := 0);
        } else {
          internal := internal.(state := NoSync);
          debug := debug.(loss := TriggerCountLow);
        }
      }
      internal := internal.(triggersSinceLastSync := 0);
    }

    /** invalidate_decoder */
    method InvalidateDecoder()
      requires Valid()
      modifies this
      ensures Valid()
      ensures View() == DecoderSpec.InvalidateDecoder(old(View()))
    {
      output := output.(valid := false);
      internal := Internal(NoSync, 0, 0);
      calls := calls + [InvalidateScheduledEvents];
    }

    /** handle_decoder_expire: the callback of the expiry timer. */
    method HandleDecoderExpire()
      requires Valid()
      modifies this
      ensures Valid()
      ensures View() == DecoderSpec.HandleDecoderExpire(old(View()))
    {
      debug := debug.(loss := Expired);
      InvalidateDecoder();
    }

    /** The edge handling of cam_nplusone_decoder: a pending primary edge, then a pending sync edge. */
    method CamEdges()
      requires Valid()
      modifies this, times
      ensures Valid()
      ensures View() == DecoderSpec.CamEdges(old(View()), rpmOf)
    {
      CamEdgesKeepInv(View(), rpmOf);
      if capture.needsDecodingT0 {
        TriggerUpdate(capture.lastT0);
        capture := capture.(needsDecodingT0 := false);
      }
      if capture.needsDecodingT1 {
        SyncUpdate();
        capture := capture.(needsDecodingT1 := false);
      }
    }

    /** cam_nplusone_decoder */
    method CamNPlusOne()
      requires Valid()
      modifies this, times
      ensures Valid()
      ensures View() == DecoderSpec.CamNPlusOne(old(View()), rpmOf)
    {
      var t0 := capture.lastT0;
      var oldState := internal.state;
      CamEdges();
      PublishKeepsInv(View(), oldState, t0);
      if internal.state == Sync {
        output := output.(valid := true, lastTriggerTime := t0);
      } else if oldState == Sync {
        InvalidateDecoder();
      }
    }

    /** tfi_pip_decoder */
    method TfiPip()
      requires Valid()
      modifies this, times
      ensures Valid()
      ensures View() == DecoderSpec.TfiPip(old(View()), rpmOf)
    {
      TfiPipKeepsInv(View(), rpmOf);
      var t0 := capture.lastT0;
      var oldState := internal.state;
      capture := capture.(needsDecodingT0 := false);
      TriggerUpdate(t0);
      if internal.state == Rpm || internal.state == Sync {
        internal := internal.(state := Sync, triggersSinceLastSync := 0);
        output := output.(valid := true, lastTriggerTime := t0);
      } else if oldState == Sync {
        InvalidateDecoder();
      }
    }

    /** `d->decode(d)` */
    method Decode()
      requires Valid() && output.decode != NoDecoder
      modifies this, times
      ensures Valid()
      ensures View() == DecoderSpec.Decode(old(View()), rpmOf)
    {
      if output.decode == TfiPipDecoder {
        TfiPip();
      } else {
        CamNPlusOne();
      }
    }

    /** decoder_init */
    method Init()
      requires Valid()
      modifies this
      ensures Valid()
      ensures View() == DecoderInit(old(View()))
    {
      DecoderInitKeepsInv(View());
      capture := Capture(0, 0, false, false);
      var decode;
      match config.triggerType {
        case FordTfi =>
          decode := TfiPipDecoder;
          config := config.(requiredTriggersRpm := 4, degreesPerTrigger := 90,
                            rpmWindowSize := 3, numTriggers := 8);
        case Toyota24Plus1Cas =>
          decode := CamNPlusOneDecoder;
          config := config.(requiredTriggersRpm := 8, degreesPerTrigger := 30,
                            rpmWindowSize := 8, numTriggers := 24);
      }
      output := Output(decode, false, 0, 0, 0, 0);
      internal := Internal(NoSync, 0, 0);
    }

    /** The edge latch of decoder_update_scheduling. */
    method LatchEdge(trigger: int, time: Time)
      requires Valid()
      modifies this
      ensures Valid()
      ensures View() == DecoderSpec.LatchEdge(old(View()), trigger, time)
    {
      if trigger == 0 {
        capture := capture.(lastT0 := time, needsDecodingT0 := true);
      } else if trigger == 1 {
        capture := capture.(lastT1 := time, needsDecodingT1 := true);
      }
    }

    /** The loop of decoder_update_scheduling: schedule_event for every configured event. */
    method ScheduleEvents(numEvents: nat)
      requires Valid()
      modifies this
      ensures Valid()
      ensures View() == old(View()).(calls := old(calls) + ScheduleAll(numEvents))
    {
      ghost var before := View();
      for e := 0 to numEvents
        invariant View() == before.(calls := before.calls + ScheduleAll(e))
      {
        calls := calls + [ScheduleEvent(e)];
      }
    }

    /**
     * decoder_update_scheduling: latch the edge, decode it, and while the
     * decoder is valid, schedule every configured event in index order.
     */
    method UpdateScheduling(trigger: int, time: Time, numEvents: nat)
      requires Valid() && output.decode != NoDecoder
      modifies this, times
      ensures Valid()
      ensures View() == DecoderSpec.UpdateScheduling(old(View()), trigger, time, numEvents, rpmOf)
    {
      LatchEdge(trigger, time);
      Decode();
      if output.valid {
        ScheduleEvents(numEvents);
      }
    }
  }
}
