/**
 * The periodic tasks of src/tasks.c: the fuel pump, which runs while the
 * engine turns and primes for four seconds otherwise, and the boost and
 * idle controls, which do nothing yet.
 *
 * time_diff and time_from_us (util.c) are not part of this model; they are
 * parameters. current_time() is the parameter `now`.
 */
module FuelPump {
  import opened Platform
  import opened DecoderSpec

  /** time_diff of util.c. */
  type TimeDiffFn = (Time, Time) -> Time

  /** time_from_us of util.c. */
  type FromUsFn = Uint32 -> Time

  /** How long the pump primes without engine rotation: four seconds. */
  const PrimeUs: Uint32 := 4000000

  /** How far behind `now` last_valid is put when the pump turns off: five seconds. */
  const BackdateUs: Uint32 := 5000000

  /** The static `last_valid` of handle_fuel_pump and the level last driven on the pump pin. */
  datatype Pump = Pump(lastValid: Time, on: bool)

  /** Before the first call: last_valid is 0 and the pin is low. */
  const PumpAtReset: Pump := Pump(0, false)

  /** Whether the decoder reports rotation: RPM or SYNC. */
  predicate Turning(engine: DecoderState) {
    engine == Rpm || engine == Sync
  }

  /** handle_fuel_pump as a function of the previous state: the state after one call. */
  function NextPump(p: Pump, engine: DecoderState, now: Time, timeDiff: TimeDiffFn, fromUs: FromUsFn): (r: Pump)
    ensures Turning(engine) ==> r == Pump(now, true)
    ensures !Turning(engine) && timeDiff(now, p.lastValid) < fromUs(PrimeUs) ==> r == p.(on := true)
    ensures !Turning(engine) && timeDiff(now, p.lastValid) >= fromUs(PrimeUs) ==>
              r == Pump(Sub32(now, fromUs(BackdateUs)), false)
    ensures r.on <==> Turning(engine) || timeDiff(now, p.lastValid) < fromUs(PrimeUs)
  {
    if Turning(engine) then Pump(now, true)
    else if timeDiff(now, p.lastValid) < fromUs(PrimeUs) then p.(on := true)
    else Pump(Sub32(now, fromUs(BackdateUs)), false)
  }

  /** The pump is off and last_valid was put five seconds behind `since`. */
  predicate OffSince(p: Pump, since: Time, fromUs: FromUsFn) {
    !p.on && p.lastValid == Sub32(since, fromUs(BackdateUs))
  }

  /**
   * Once off, the pump stays off on later calls without rotation: last_valid
   * trails the time by at least five seconds, more than the four of priming,
   * as long as less than one clock period (minus five seconds) has passed
   * since `since`, whether or not the 32-bit clock wrapped in between.
   */
  lemma StaysOff(p: Pump, since: Time, now: Time, timeDiff: TimeDiffFn, fromUs: FromUsFn)
    requires forall a: Time, b: Time :: timeDiff(a, b) == Sub32(a, b)
    requires fromUs(PrimeUs) <= fromUs(BackdateUs)
    requires OffSince(p, since, fromUs)
    requires Sub32(now, since) + fromUs(BackdateUs) < WORD
    ensures var r := NextPump(p, NoSync, now, timeDiff, fromUs);
      OffSince(r, now, fromUs)
  {
    var b := fromUs(BackdateUs);
    assert timeDiff(now, p.lastValid) == Sub32(now, p.lastValid);
    if since >= b {
      assert p.lastValid == since - b;
    } else {
      assert p.lastValid == since - b + WORD;
    }
    if now >= since {
      assert Sub32(now, since) == now - since;
    } else {
      assert Sub32(now, since) == now - since + WORD;
    }
  }

  /** StaysOff across a clock wrap: off at 2^32 - 1000, still off at 1000. */
  lemma StaysOffAcrossWrap(p: Pump, timeDiff: TimeDiffFn, fromUs: FromUsFn)
    requires forall a: Time, b: Time :: timeDiff(a, b) == Sub32(a, b)
    requires forall us: Uint32 :: us < 0x4000_0000 ==> fromUs(us) == 4 * us
    requires OffSince(p, WORD - 1000, fromUs)
    ensures OffSince(NextPump(p, NoSync, 1000, timeDiff, fromUs), 1000, fromUs)
  {
    assert fromUs(PrimeUs) == 16000000 && fromUs(BackdateUs) == 20000000;
    StaysOff(p, WORD - 1000, 1000, timeDiff, fromUs);
  }

  /** Priming: without rotation the pump is on while less than four seconds have passed since last_valid, measured modulo the clock period. */
  lemma PrimesFromLastValid(p: Pump, now: Time, timeDiff: TimeDiffFn, fromUs: FromUsFn)
    requires forall a: Time, b: Time :: timeDiff(a, b) == Sub32(a, b)
    requires Sub32(now, p.lastValid) < fromUs(PrimeUs)
    ensures NextPump(p, NoSync, now, timeDiff, fromUs) == p.(on := true)
  {
    assert timeDiff(now, p.lastValid) == Sub32(now, p.lastValid);
  }

  /** The calls of check_tasks_handle_fuel_pump: the decoder state and time of each call. */
  datatype Call = Call(engine: DecoderState, us: Uint32)

  /** A run of handle_fuel_pump calls, and the pin level after each. */
  function Levels(p: Pump, calls: seq<Call>, timeDiff: TimeDiffFn, fromUs: FromUsFn): (r: seq<bool>)
    ensures |r| == |calls|
    decreases |calls|
  {
    if calls == [] then []
    else
      var q := NextPump(p, calls[0].engine, fromUs(calls[0].us), timeDiff, fromUs);
      [q.on] + Levels(q, calls[1..], timeDiff, fromUs)
  }

  /**
   * check_tasks_handle_fuel_pump, with 4 ticks per microsecond: on while
   * priming at 500 us, off at 4 s and still at 8 s, on in RPM at 8 s and
   * 18 s, still on at 19 s just after rotation stops, off at 25 s and 40 s.
   */
  lemma FuelPumpTest(timeDiff: TimeDiffFn, fromUs: FromUsFn)
    requires forall a: Time, b: Time :: timeDiff(a, b) == Sub32(a, b)
    requires forall us: Uint32 :: us < 0x4000_0000 ==> fromUs(us) == 4 * us
    ensures Levels(PumpAtReset, [Call(NoSync, 500), Call(NoSync, 4000000), Call(NoSync, 8000000),
                                 Call(Rpm, 8000000), Call(Rpm, 18000000), Call(NoSync, 19000000),
                                 Call(NoSync, 25000000), Call(NoSync, 40000000)], timeDiff, fromUs)
            == [true, false, false, true, true, true, false, false]
  {
    assert fromUs(PrimeUs) == 16000000 && fromUs(BackdateUs) == 20000000;
    var p1 := NextPump(PumpAtReset, NoSync, fromUs(500), timeDiff, fromUs);
    assert fromUs(500) == 2000 && p1 == Pump(0, true);
    var p2 := NextPump(p1, NoSync, fromUs(4000000), timeDiff, fromUs);
    assert fromUs(4000000) == 16000000 && p2 == Pump(WORD - 4000000, false);
    var p3 := NextPump(p2, NoSync, fromUs(8000000), timeDiff, fromUs);
    assert fromUs(8000000) == 32000000 && p3 == Pump(12000000, false);
    var p4 := NextPump(p3, Rpm, fromUs(8000000), timeDiff, fromUs);
    assert p4 == Pump(32000000, true);
    var p5 := NextPump(p4, Rpm, fromUs(18000000), timeDiff, fromUs);
    assert fromUs(18000000) == 72000000 && p5 == Pump(72000000, true);
    var p6 := NextPump(p5, NoSync, fromUs(19000000), timeDiff, fromUs);
    assert fromUs(19000000) == 76000000 && p6 == Pump(72000000, true);
    var p7 := NextPump(p6, NoSync, fromUs(25000000), timeDiff, fromUs);
    assert fromUs(25000000) == 100000000 && p7 == Pump(80000000, false);
    var p8 := NextPump(p7, NoSync, fromUs(40000000), timeDiff, fromUs);
    assert fromUs(40000000) == 160000000 && p8 == Pump(140000000, false);
  }

  /** The task state: the static last_valid of handle_fuel_pump and the fuel pump pin. */
  class Tasks {
    var lastValid: Time
    var pumpPin: bool

    function View(): Pump
      reads this
    {
      Pump(lastValid, pumpPin)
    }

    constructor ()
      ensures View() == PumpAtReset
    {
      lastValid := 0;
      pumpPin := false;
    }

    /** handle_fuel_pump: keep last_valid and drive the pump pin. */
    method HandleFuelPump(engine: DecoderState, now: Time, timeDiff: TimeDiffFn, fromUs: FromUsFn)
      modifies this
      ensures View() == NextPump(old(View()), engine, now, timeDiff, fromUs)
    {
      if engine == Rpm || engine == Sync {
        lastValid := now;
        pumpPin := true;
        return;
      }
      if timeDiff(now, lastValid) < fromUs(PrimeUs) {
        pumpPin := true;
      } else {
        pumpPin := false;
        lastValid := Sub32(now, fromUs(BackdateUs));
      }
    }

    /** handle_boost_control: no effect. */
    method HandleBoostControl()
      ensures View() == old(View())
    {
    }

    /** handle_idle_control: no effect. */
    method HandleIdleControl()
      ensures View() == old(View())
    {
    }
  }
}
