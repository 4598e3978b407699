# tfi-computer engine controller: decoder, sensors, tasks, rpm limit, hosted outputs

This project is a Dafny model of the sequential, integer-valued core of the
tfi-computer engine-control firmware, with proofs about that model.

- **The trigger decoder (`src/decoder.c`).** It is a three-state machine (NOSYNC, RPM, SYNC) driven by primary-tooth and sync-tooth edges. Its parts:
  - a shift register of edge times;
  - a saturating tooth counter and a teeth-since-sync counter;
  - a crank angle that wraps at 720;
  - windowed rpm with per-tooth variation rejection;
  - too-many and too-few teeth checks;
  - an expiry deadline 1.5 tooth intervals on;
  - two wheel profiles, TFI (single channel) and Toyota 24+1 (cam sync), chosen by `decoder_init`.

  It is modelled twice:
  - as pure functions over a `Decoder` value (module `DecoderSpec`);
  - as a class `TriggerDecoders.TriggerDecoder` whose methods update fields in place, step by step as the C does. Each method is proved to have exactly the effect of its specification function: the function of the same name, `DecoderInit` for `Init`, and `ScheduleAll` for `ScheduleEvents`.

  The unit tests of `src/decoder.c` are lemmas about runs of edge tables (module `DecoderScenarios`). The calls into the scheduler are recorded, in order, in a log field `calls`.
- **Sensors (`src/sensors.c`).**
  - Range-fault latching.
  - The fault value and the constant-source branches of `sensor_convert`.
  - Source filtering in `sensors_process`.
  - The fault bitmask of `sensor_fault_status`.
  - The angle-window test `current_angle_in_window` (module `Sensors`).
- **The fuel-pump task (`src/tasks.c`).**
  - A 4 s prime without rotation.
  - A 5 s back-dating of `last_valid` once the prime runs out.
  - The do-nothing boost and idle tasks (module `FuelPump`).
- **The rpm limiter (`src/calculations.c`).** `ignition_cut` and `fuel_cut` latch a cut flag with hysteresis between `rpm_start` and `rpm_stop` (module `RpmLimit`).
- **The hosted output thread (`src/platforms/hosted.c`).**
  - `set_output`, `init_output_thread` and the two index getters.
  - The slot, buffer-swap and mask part of the timer tick (module `HostedOutputs`). It is proved both per tick and over any number of ticks.

**Shared arithmetic.** `timeval_t` is a 32-bit unsigned tick count. Its wrap-around, and that of the decoder's unsigned counters, is written out explicitly (module `Platform`).

**Parameters.** Functions of `util.c`, which is not part of this model, are parameters:
- `rpm_from_time_diff`;
- `time_diff` and `time_from_us`;
- `clamp_angle`.

So are the current time, `sensor_convert_freq`, and the numeric conversion path of the sensors. Lemmas that reproduce a unit test assume only what that test's input implies about these parameters; for example, teeth at a constant rate give the same rpm for one tooth and for the whole window.

## Model

| member | source | states |
|---|---|---|
| Platform.Inc32 | src/decoder.c:96-97 | an unsigned 32-bit increment is x + 1 below 2^32 - 1 and wraps to 0 at the top |
| Platform.Sub32 | src/decoder.c:55 | the unsigned difference of two tick counts is a - b when b <= a, and a - b + 2^32 when the clock wrapped |
| DecoderSpec.Zeroed | src/decoder.h:28-64 | the zero-initialised global decoder has a shift register of MAX_TRIGGERS entries, is in NOSYNC and is not valid |
| DecoderSpec.PushTime | src/decoder.c:29-34 | push_time keeps the length, puts t in front and moves every older entry up by one, dropping the oldest |
| DecoderSpec.CurrentRpmWindowSize | src/decoder.c:36-51 | the window is 0 with no teeth, and otherwise min(current_triggers, normal_window_size) |
| DecoderSpec.ExpirationAfter | src/decoder.c:87-88 | the expiry deadline is t0 + diff + diff/2 (rounded down) when that fits in 32 bits |
| DecoderSpec.AdvanceAngle | src/decoder.c:110-115 | the angle step keeps the angle in [0,720) when degrees_per_trigger <= 720, and is a plain addition below 720 |
| DecoderSpec.CountTooth | src/decoder.c:95-102 | the bookkeeping of a primary edge keeps the shift register at least two long and the saturating counter within its length |
| DecoderSpec.Profile | src/decoder.c:192-209 | decoder_init keeps the trigger type and the variation settings from the configuration |
| DecoderSpec.DecoderFor | src/decoder.c:192-209 | decoder_init selects a decode function for every trigger type |
| DecoderSpec.ScheduleAll | src/decoder.c:246-248 | the event loop schedules exactly events 0 .. num_events-1, in index order |
| DecoderSpec.SliceRpm | src/decoder.c:55-56 | the rpm of the newest tooth alone, from the two newest edge times; used by DecoderSpec.TriggerUpdateRpmOutcome and DecoderScenarios.SteadyRates |
| DecoderSpec.WindowRpm | src/decoder.c:57-69 | the rpm over the current window, 0 with fewer than two teeth; stated by DecoderSpec.TriggerUpdateRpmOutcome and RpmZeroForShortWindow |
| DecoderSpec.ExcessiveVariation | src/decoder.c:71-77 | the per-tooth variation test: the tooth rpm at or below trigger_min_rpm, or outside the window rpm plus or minus trigger_max_rpm_change of it; stated by DecoderSpec.TriggerUpdateRpmOutcome, DecoderScenarios.SteadyRates and TripleRateVaries |
| DecoderSpec.TriggerUpdateRpm | src/decoder.c:54-90 | trigger_update_rpm on the decoder value; what it does is stated by DecoderSpec.TriggerUpdateRpmOutcome, RpmZeroForShortWindow and ExpirationIsOneAndAHalfTeeth, and that it keeps the invariant by TriggerUpdateRpmKeepsInv |
| DecoderSpec.ReachRpm | src/decoder.c:104-108 | NOSYNC becomes RPM once required_triggers_rpm teeth are counted; stated by DecoderSpec.TriggerUpdateCounters |
| DecoderSpec.AdvanceInSync | src/decoder.c:110-115 | in SYNC a tooth advances the angle by degrees_per_trigger; stated by DecoderSpec.TriggerUpdateAngle and ToothStepsKeepInv |
| DecoderSpec.TriggerUpdate | src/decoder.c:93-121 | trigger_update on the decoder value; stated by DecoderSpec.TriggerUpdateCounters, TriggerUpdateAngle and TriggerUpdateKeepsInv |
| DecoderSpec.SyncUpdate | src/decoder.c:123-138 | sync_update on the decoder value; stated by DecoderSpec.SyncUpdateOutcome and SyncUpdateKeepsInv |
| DecoderSpec.InvalidateDecoder | src/decoder.c:12-18 | invalidate_decoder on the decoder value; stated by DecoderSpec.InvalidateResets |
| DecoderSpec.HandleDecoderExpire | src/decoder.c:20-23 | handle_decoder_expire on the decoder value; stated by DecoderSpec.ExpireSetsLoss |
| DecoderSpec.Publish | src/decoder.c:153-161 | the publish/invalidate tail of cam_nplusone_decoder; stated by DecoderSpec.PublishOutcome and PublishKeepsInv |
| DecoderSpec.CamEdges | src/decoder.c:140-151 | the pending-edge handling of cam_nplusone_decoder; stated by DecoderSpec.CamEdgesKeepInv and, on concrete teeth, DecoderScenarios.CamTooth and CamSyncEdge |
| DecoderSpec.CamNPlusOne | src/decoder.c:140-162 | cam_nplusone_decoder on the decoder value; stated by DecoderSpec.PublishOutcome, InvalidatesOnlyFromSync and CamNPlusOneKeepsInv |
| DecoderSpec.TfiPip | src/decoder.c:164-185 | tfi_pip_decoder on the decoder value; stated by DecoderSpec.TfiPipPromotes, InvalidatesOnlyFromSync and TfiPipKeepsInv |
| DecoderSpec.Decode | src/decoder.c:240 | the call through the decode function pointer; stated by DecoderSpec.InvalidatesOnlyFromSync and DecodeKeepsInv |
| DecoderSpec.DecoderInit | src/decoder.c:187-220 | decoder_init on the decoder value; stated by DecoderSpec.DecoderInitKeepsInv, Profile and DecoderFor |
| DecoderSpec.LatchEdge | src/decoder.c:226-235 | the edge latch of decoder_update_scheduling; its effect is stated by the contract of TriggerDecoders.TriggerDecoder.LatchEdge, which implements it |
| DecoderSpec.UpdateScheduling | src/decoder.c:223-252 | decoder_update_scheduling on the decoder value: latch, decode, then schedule every event while valid; stated by DecoderSpec.UpdateSchedulingKeepsInv |
| DecoderSpec.Run | src/decoder.c:223-252 | a sequence of decoder_update_scheduling calls, one per edge; stated by DecoderSpec.RunKeepsInv |
| DecoderSpec.TriggerUpdateRpmOutcome | src/decoder.c:54-90 | the rpm is the windowed rpm; variation gives NOSYNC/VARIATION and too many teeth give NOSYNC/TRIGGERCOUNT_HIGH (checked second, so it wins); otherwise state and loss are kept; the expiry callback is scheduled at the new deadline; no other field changes |
| DecoderSpec.RpmZeroForShortWindow | src/decoder.c:60-69 | rpm is 0 when the window holds at most one tooth |
| DecoderSpec.ExpirationIsOneAndAHalfTeeth | src/decoder.c:87-89 | without wrap-around the deadline lies 1.5 tooth intervals (rounded down) after the newest edge |
| DecoderSpec.TriggerUpdateCounters | src/decoder.c:93-108 | a primary edge pushes its time, increments t0_count and triggers_since_last_sync (mod 2^32) and current_triggers_rpm only below the register length; in NOSYNC it only counts below required_triggers_rpm and from there reaches RPM and runs trigger_update_rpm |
| DecoderSpec.TriggerUpdateAngle | src/decoder.c:110-115 | only in SYNC does a primary edge move the angle, by degrees_per_trigger with 720 subtracted on reaching 720 |
| DecoderSpec.SyncUpdateOutcome | src/decoder.c:123-138 | RPM becomes SYNC at angle 0; SYNC stays SYNC at angle 0 exactly when triggers_since_last_sync == num_triggers, else NOSYNC/TRIGGERCOUNT_LOW; NOSYNC stays; the sync count is always cleared and t1_count incremented |
| DecoderSpec.InvalidateResets | src/decoder.c:12-18 | invalidate_decoder clears valid, state and both counters, cancels the events and changes nothing else |
| DecoderSpec.ExpireSetsLoss | src/decoder.c:20-23 | the expiry callback invalidates the decoder with loss EXPIRED |
| DecoderSpec.TfiPipPromotes | src/decoder.c:164-185 | tfi_pip_decoder promotes RPM or SYNC to SYNC, sets valid and last_trigger_time and clears the sync count; falling out of SYNC invalidates; otherwise the trigger_update result stands |
| DecoderSpec.PublishOutcome | src/decoder.c:153-161 | the cam decoder's tail publishes SYNC (valid, last_trigger_time = t0), invalidates on leaving SYNC, and otherwise changes nothing |
| DecoderSpec.InvalidatesOnlyFromSync | src/decoder.c:153-161 | for either decoder, a SYNC result is valid with last_trigger_time the latched edge; a drop from SYNC clears valid and both counters with invalidate_scheduled_events as the last scheduler call; an edge that neither starts nor ends in SYNC leaves valid as it was |
| DecoderSpec.ToothStepsKeepInv | src/decoder.c:95-115 | the tooth bookkeeping keeps the decoder invariant (angle in [0,720), RPM or SYNC only with the bootstrap count reached) |
| DecoderSpec.TriggerUpdateRpmKeepsInv | src/decoder.c:54-90 | trigger_update_rpm keeps the decoder invariant |
| DecoderSpec.TriggerUpdateKeepsInv | src/decoder.c:93-121 | trigger_update keeps the invariant, the configuration and the decode function |
| DecoderSpec.SyncUpdateKeepsInv | src/decoder.c:123-138 | sync_update keeps the invariant and the configuration |
| DecoderSpec.PublishKeepsInv | src/decoder.c:153-161 | the publish/invalidate tail keeps the invariant and the configuration |
| DecoderSpec.CamEdgesKeepInv | src/decoder.c:140-151 | the edge handling of cam_nplusone_decoder keeps the invariant and the configuration |
| DecoderSpec.CamNPlusOneKeepsInv | src/decoder.c:140-162 | cam_nplusone_decoder keeps the invariant and the configuration |
| DecoderSpec.TfiPipKeepsInv | src/decoder.c:164-185 | tfi_pip_decoder keeps the invariant and the configuration |
| DecoderSpec.DecodeKeepsInv | src/decoder.c:240 | either decode function keeps the invariant, the configuration and the decode function |
| DecoderSpec.UpdateSchedulingKeepsInv | src/decoder.c:223-252 | decoder_update_scheduling keeps the invariant and never changes the configuration |
| DecoderSpec.DecoderInitKeepsInv | src/decoder.c:187-220 | decoder_init yields NOSYNC, not valid, a decode function set and the invariant, and keeps the shift register, the scheduler log and the debug counters |
| DecoderSpec.RunKeepsInv | src/decoder.c:223-252 | after any sequence of edges the angle is in [0,720), RPM or SYNC is held only with required_triggers_rpm teeth counted, and the configuration is the one decoder_init chose |
| TriggerDecoders.TriggerDecoder.constructor | src/decoder.h:28-64 | the object starts as the zero-initialised global |
| TriggerDecoders.TriggerDecoder.PushTime | src/decoder.c:29-34 | the in-place shift loop leaves the array equal to DecoderSpec.PushTime of its old contents |
| TriggerDecoders.TriggerDecoder.TriggerUpdateRpm | src/decoder.c:54-90 | the in-place update has exactly the effect of DecoderSpec.TriggerUpdateRpm and keeps the invariant |
| TriggerDecoders.TriggerDecoder.CountTooth | src/decoder.c:95-102 | the in-place bookkeeping equals DecoderSpec.CountTooth |
| TriggerDecoders.TriggerDecoder.TriggerUpdate | src/decoder.c:93-121 | the in-place trigger_update equals DecoderSpec.TriggerUpdate and keeps the invariant |
| TriggerDecoders.TriggerDecoder.SyncUpdate | src/decoder.c:123-138 | the in-place sync_update equals DecoderSpec.SyncUpdate and keeps the invariant |
| TriggerDecoders.TriggerDecoder.InvalidateDecoder | src/decoder.c:12-18 | equals DecoderSpec.InvalidateDecoder and keeps the invariant |
| TriggerDecoders.TriggerDecoder.HandleDecoderExpire | src/decoder.c:20-23 | equals DecoderSpec.HandleDecoderExpire and keeps the invariant |
| TriggerDecoders.TriggerDecoder.CamEdges | src/decoder.c:140-151 | the pending-edge handling equals DecoderSpec.CamEdges |
| TriggerDecoders.TriggerDecoder.CamNPlusOne | src/decoder.c:140-162 | equals DecoderSpec.CamNPlusOne and keeps the invariant |
| TriggerDecoders.TriggerDecoder.TfiPip | src/decoder.c:164-185 | equals DecoderSpec.TfiPip and keeps the invariant |
| TriggerDecoders.TriggerDecoder.Decode | src/decoder.c:240 | dispatching through the decode function equals DecoderSpec.Decode |
| TriggerDecoders.TriggerDecoder.Init | src/decoder.c:187-220 | the in-place decoder_init equals DecoderSpec.DecoderInit and keeps the invariant |
| TriggerDecoders.TriggerDecoder.LatchEdge | src/decoder.c:226-235 | the edge latch equals DecoderSpec.LatchEdge: trigger 0 sets last_t0 and its flag, trigger 1 last_t1 and its flag |
| TriggerDecoders.TriggerDecoder.ScheduleEvents | src/decoder.c:246-248 | the event loop appends schedule_event for events 0 .. num_events-1 to the scheduler log and changes nothing else |
| TriggerDecoders.TriggerDecoder.UpdateScheduling | src/decoder.c:223-252 | latch, decode, and schedule all events while valid: exactly DecoderSpec.UpdateScheduling |
| DecoderScenarios.Feed | src/decoder.c:280-293 | one latched edge and its decode keep the invariant, the decode function and the configuration |
| DecoderScenarios.Apply | src/decoder.c:282-293 | one table row (its edge, then decoding) keeps the invariant, the decode function and the configuration |
| DecoderScenarios.Replay | src/decoder.c:280-304 | a whole table keeps the invariant, the decode function and the configuration |
| DecoderScenarios.ReplayAppend | src/decoder.c:280-304 | a table split in two replays and validates as its halves in turn |
| DecoderScenarios.Teeth | src/decoder.c:390-436 | a run of k teeth at a constant spacing is k rows |
| DecoderScenarios.PushKeepsUniform | src/decoder.c:29-34 | pushing a tooth that continues a constant rate extends the run of evenly spaced entries by one, up to the register length |
| DecoderScenarios.AngleAfter | src/decoder.c:110-115 | n teeth in SYNC keep the angle in [0,720) |
| DecoderScenarios.AdvanceIsMod | src/decoder.c:110-115 | one angle step is (angle + degrees) mod 720 |
| DecoderScenarios.AngleAfterIsMod | src/decoder.c:110-115 | n teeth in SYNC advance the angle by n * degrees_per_trigger mod 720 |
| DecoderScenarios.SteadyRates | src/decoder.c:54-77 | on a tooth at a constant rate the tooth's rpm equals the window's, so no variation loss |
| DecoderScenarios.SteadyToothUpdate | src/decoder.c:93-121 | trigger_update on a tooth at a constant rate reaches or keeps RPM (or keeps SYNC), counts it, sets rpm to the tooth rpm, advances the angle only in SYNC and sets the deadline 1.5 teeth on; configuration, capture and loss unchanged |
| DecoderScenarios.NoSyncTooth | src/decoder.c:93-108 | a tooth in NOSYNC before the bootstrap count only pushes and counts |
| DecoderScenarios.CamTooth | src/decoder.c:140-162 | cam_nplusone_decoder on a steady tooth: RPM reached or kept or SYNC kept, counted, rpm and deadline updated, angle advanced only in SYNC, published when SYNC, edge consumed |
| DecoderScenarios.TfiTooth | src/decoder.c:164-185 | tfi_pip_decoder on a steady tooth once RPM is due: SYNC, valid, last_trigger_time = t, sync count cleared, angle advanced only if already SYNC |
| DecoderScenarios.TfiVariationTooth | src/decoder.c:72-77 | a TFI tooth in SYNC with excessive variation loses SYNC with VARIATION and invalidates |
| DecoderScenarios.CamSyncEdge | src/decoder.c:123-161 | a cam sync edge: RPM or SYNC after exactly num_triggers teeth resynchronises at 0 and publishes; SYNC after another count is lost with TRIGGERCOUNT_LOW |
| DecoderScenarios.CamTooManyTeeth | src/decoder.c:79-83 | tooth num_triggers + 1 after a sync in the 24+1 decoder loses SYNC with TRIGGERCOUNT_HIGH |
| DecoderScenarios.CamSyncedTooth | src/decoder.c:140-162 | a steady tooth in cam SYNC keeps SYNC and valid, counts one more tooth since sync, advances the angle, publishes the tooth time and the deadline 1.5 teeth on, and keeps the rate steady for the next tooth |
| DecoderScenarios.TfiSteadyTooth | src/decoder.c:164-185 | a steady TFI tooth leaves SYNC, valid, the sync count 0, the angle advanced if already SYNC, the tooth time published, the deadline 1.5 teeth on, and the rate steady for the next tooth |
| DecoderScenarios.ReplayKeeps | src/decoder.c:280-304 | a property every row keeps while meeting its expectation holds at the end and the rest of the table validates |
| DecoderScenarios.ReplayKeepsAll | src/decoder.c:280-304 | the same from the first row |
| DecoderScenarios.NoSyncRun | src/decoder.c:349-356 | teeth at a constant rate before the bootstrap count validate as NOSYNC rows and are only pushed and counted |
| DecoderScenarios.CamSyncedRun | src/decoder.c:400-423 | up to num_triggers teeth at a constant rate after a 24+1 sync validate as SYNC rows, the angle advancing by degrees_per_trigger each tooth |
| DecoderScenarios.TfiRun | src/decoder.c:271-278 | any number of teeth at a constant rate through a TFI decoder in SYNC or due for RPM validate as SYNC rows |
| DecoderScenarios.Prepared | src/decoder.c:306-309 | prepare_decoder yields the invariant, the decode function of the trigger type and its profile |
| DecoderScenarios.CamPrepared | src/decoder.c:360-362 | the 24+1 tests' decoder, with required_triggers_rpm 9, satisfies the invariant and uses the cam decoder |
| DecoderScenarios.TfiBoot | src/decoder.c:271-274 | the first three TFI start-up rows validate as NOSYNC at angle 0, with the next tooth due at a steady rate |
| DecoderScenarios.TfiTeeth | src/decoder.c:271-278 | k regular TFI teeth from 75000 after those rows validate as SYNC rows: valid, angle after k - 1 steps, deadline 37500 ticks after the last tooth |
| DecoderScenarios.TfiStartupNormal | src/decoder.c:312-318 | the TFI start-up table validates (NOSYNC x3, then SYNC x3) and ends at angle 180 |
| DecoderScenarios.TfiSyncLossVariation | src/decoder.c:320-332 | after the start-up, a tooth at 150000 stays SYNC and one at 155000 loses it with VARIATION, clearing the tooth counter, for any tolerance below 200% when the tooth rpm (90 degrees in 5000 ticks) is three times the window rpm (180 degrees in 30000 ticks) |
| DecoderScenarios.TripleRateVaries | src/decoder.c:72-77 | a tooth rpm three times a non-zero window rpm fails the variation test for any trigger_max_rpm_change below 2 |
| DecoderScenarios.TfiSyncLossExpire | src/decoder.c:334-344 | after the TFI start-up the deadline is 162500; the expiry callback clears the counter and valid with loss EXPIRED |
| DecoderScenarios.CamBootRows | src/decoder.c:348-356 | the first eight 24+1 start-up rows are one tooth at 18000 then seven teeth 25000 apart from 25000 |
| DecoderScenarios.CamCounted | src/decoder.c:348-356 | those eight rows validate as NOSYNC, with 8 teeth counted, the output untouched and the last seven evenly spaced |
| DecoderScenarios.CamBootTeeth | src/decoder.c:348-357 | the ninth tooth reaches RPM with 9 teeth counted |
| DecoderScenarios.CamBoot | src/decoder.c:348-358 | the sync edge in RPM synchronises the 24+1 decoder at angle 0 with the sync count cleared |
| DecoderScenarios.CamStartup | src/decoder.c:347-366 | the whole 24+1 start-up table validates and ends in SYNC one tooth after the sync, at 30 degrees, deadline 262500 |
| DecoderScenarios.CamStartupNormal | src/decoder.c:347-366 | check_cam_nplusone_startup_normal: the table validates and the angle is 30 |
| DecoderScenarios.CamSyncLossExpire | src/decoder.c:484-504 | check_nplusone_decoder_syncloss_expire: the table validates and the deadline is 262500 |
| DecoderScenarios.CamStartupThenDie | src/decoder.c:368-388 | a sync edge one tooth after SYNC is reached validates as a loss with TRIGGERCOUNT_LOW |
| DecoderScenarios.CamTeethAfterBoot | src/decoder.c:390-423 | after the sync, k <= 24 regular teeth validate as SYNC rows, k teeth since sync, angle k steps on |
| DecoderScenarios.FullRevolution | src/decoder.c:110-115 | teeth that cover 720 degrees bring the angle back where it started |
| DecoderScenarios.CamRevolution | src/decoder.c:390-423 | 24 teeth after the sync validate: SYNC, valid, 24 teeth since sync, angle back at 0 |
| DecoderScenarios.CamStartupSustained | src/decoder.c:390-436 | check_cam_nplusone_startup_normal_sustained validates: a sync edge after exactly num_triggers teeth keeps SYNC, and the angle ends at 60 |
| DecoderScenarios.CamNoSecondTrigger | src/decoder.c:438-482 | check_cam_nplusone_startup_normal_no_second_trigger validates: tooth 25 after the sync without a sync edge loses SYNC with TRIGGERCOUNT_HIGH |
| Sensors.OutOfRange | src/sensors.c:78-80 | the range check, enabled by a non-zero max, fails for a raw value outside [min, max]; stated by Sensors.LatchedFault |
| Sensors.RawOf | src/sensors.c:89-103 | the raw value the numeric path reads: the ADC reading, the frequency conversion, or 0 for any other source; stated by Sensors.Convert |
| Sensors.LatchedFault | src/sensors.c:78-83 | an existing fault is kept; with none, FAULT_RANGE is latched exactly when the check is enabled and the raw value is outside [min,max] |
| Sensors.Convert | src/sensors.c:76-136 | no fault is ever cleared; faulted means the fault value and nothing else changed; CONST gives the fixed value without filtering; otherwise the numeric path on the selected raw value |
| Sensors.ConvertFaultedIsStable | src/sensors.c:84-87 | converting a faulted sensor again changes nothing |
| Sensors.SensorConvert | src/sensors.c:76-136 | the in-place sensor_convert replaces exactly sensors[i] by Convert of it |
| Sensors.ProcessAll | src/sensors.c:138-145 | exactly the sensors of the given source are converted; the others are unchanged |
| Sensors.ProcessAllKeepsFaults | src/sensors.c:78-87 | processing keeps every fault and every source |
| Sensors.ProcessAllOtherSources | src/sensors.c:138-145 | processing another source afterwards leaves converted sensors as they were |
| Sensors.SensorsProcess | src/sensors.c:138-145 | the in-place loop leaves the array equal to ProcessAll of its old contents |
| Sensors.OrBit | src/sensors.c:150 | setting bit i sets bit i and no other |
| Sensors.FaultMask | src/sensors.c:146-154 | the fault word of the first n sensors; bit by bit it is stated by Sensors.FaultMaskBit, and Sensors.SensorFaultStatus returns it |
| Sensors.FaultMaskBit | src/sensors.c:146-154 | bit j of the fault word is set exactly when j is a sensor index with a fault |
| Sensors.SensorFaultStatus | src/sensors.c:146-154 | the loop returns the fault word: bit i set iff sensor i has a fault, no bit at or above NUM_SENSORS set |
| Sensors.InWindow | src/sensors.c:17-21 | that some window start k*total_width below 720 has the angle in [start, start + capture_width); Sensors.CurrentAngleInWindow returns exactly this, and Sensors.AngleWindowTest evaluates it on the test angles |
| Sensors.CurrentAngleInWindow | src/sensors.c:15-23 | true exactly when clamp(angle - offset, 720) lies in [k*total_width, k*total_width + capture_width) for a window start below 720 |
| Sensors.StartsIncrease | src/sensors.c:17 | window starts grow with the window index |
| Sensors.AngleWindowTest | src/sensors.c:201-219 | windows 60 wide every 100 hold 0, 50, 100, 120 and 710 but not 70, 170 and 690 |
| FuelPump.Turning | src/tasks.c:11-12 | the decoder reports rotation in RPM or SYNC; stated by FuelPump.NextPump |
| FuelPump.NextPump | src/tasks.c:7-26 | with rotation: on with last_valid = now; within 4 s of last_valid: on; otherwise off with last_valid 5 s behind now; on exactly when turning or priming |
| FuelPump.StaysOff | src/tasks.c:19-25 | once off, the pump stays off on a later NOSYNC call made less than one clock period (minus five seconds) after it turned off, measured modulo 2^32, so also after the 32-bit clock wraps |
| FuelPump.StaysOffAcrossWrap | src/tasks.c:23-24 | at 4 ticks per microsecond, a pump turned off 1000 ticks before the clock wraps is still off 1000 ticks after it |
| FuelPump.PrimesFromLastValid | src/tasks.c:19-20 | without rotation, less than 4 s after last_valid (measured modulo 2^32, so also across a wrap) the pump is on and last_valid is kept |
| FuelPump.Levels | src/tasks.c:7-26 | a run of calls yields one pin level per call |
| FuelPump.FuelPumpTest | src/tasks.c:38-84 | the test trace gives on, off, off, on, on, on, off, off at 4 ticks per microsecond |
| FuelPump.Tasks.constructor | src/tasks.c:8 | last_valid starts at 0 and the pin low |
| FuelPump.Tasks.HandleFuelPump | src/tasks.c:7-26 | the in-place update of last_valid and the pin equals NextPump |
| FuelPump.Tasks.HandleBoostControl | src/tasks.c:28-29 | changes nothing |
| FuelPump.Tasks.HandleIdleControl | src/tasks.c:31-32 | changes nothing |
| RpmLimit.CutAfter | src/calculations.c:6-14 | below rpm_start the flag is 0 (this check wins); at or above both limits it is 1; between them it keeps its value |
| RpmLimit.CutStaysBoolean | src/calculations.c:6-14 | a flag that is 0 or 1 stays 0 or 1 |
| RpmLimit.CutIdempotent | src/calculations.c:6-14 | calling twice with the same rpm gives the flag of one call |
| RpmLimit.CutTrace | src/calculations.c:6-14 | no calls leave the flag as it was |
| RpmLimit.StaysCut | src/calculations.c:7-12 | once cut, the flag stays set while the rpm stays at or above rpm_start |
| RpmLimit.StaysReleased | src/calculations.c:7-12 | once released, the flag stays clear while the rpm stays below rpm_stop |
| RpmLimit.LastReadingOutsideBand | src/calculations.c:6-14 | a last reading outside [rpm_start, rpm_stop) alone decides the flag |
| RpmLimit.CalculatedValues.constructor | src/calculations.c:4 | the global flag starts at 0 |
| RpmLimit.CalculatedValues.IgnitionCut | src/calculations.c:6-14 | the in-place update equals CutAfter and the result is the stored flag |
| RpmLimit.CalculatedValues.FuelCut | src/calculations.c:16-18 | the same update and result as ignition_cut |
| HostedOutputs.SetOutputBit | src/platforms/hosted.c:97-103 | an output number from 16 on leaves the 16-bit word unchanged |
| HostedOutputs.SetOutputBitAt | src/platforms/hosted.c:97-103 | set_output makes bit o equal to v and leaves every other bit as it was |
| HostedOutputs.ApplySlot | src/platforms/hosted.c:193-194 | after the masks no bit of the off-mask is set |
| HostedOutputs.ApplySlotAt | src/platforms/hosted.c:193-194 | an output is high after the masks iff it is not in the off-mask and was high or is in the on-mask |
| HostedOutputs.ApplySlotIdempotent | src/platforms/hosted.c:193-194 | applying a slot twice is applying it once |
| HostedOutputs.InitOutputs | src/platforms/hosted.c:140-145 | init_output_thread marks the buffers attached and sets max_slots = len, nothing else |
| HostedOutputs.InitOutputsKeepsInv | src/platforms/hosted.c:140-145 | attaching a non-empty stream that both buffers hold, with cur_slot inside it, keeps the indices in range |
| HostedOutputs.Advance | src/platforms/hosted.c:183-191 | curtime + 1 (mod 2^32); the next slot with the buffer kept, or at the end of a buffer slot 0 of the other buffer with one scheduler_buffer_swap |
| HostedOutputs.CurrentSlot | src/platforms/hosted.c:193-194 | the slot `output_slots[cur_buffer][cur_slot]` the masks are taken from; HostedOutputs.Tick and HostedOutputs.HostedPlatform.ApplyCurrentSlot state its use |
| HostedOutputs.Tick | src/platforms/hosted.c:176-194 | before init nothing changes; afterwards advance, then apply the current slot's masks, keeping slot < max_slots and buffer in {0,1} |
| HostedOutputs.Ticks | src/platforms/hosted.c:163-194 | any number of ticks keeps the indices in range, the attached flag and max_slots |
| HostedOutputs.TickStep | src/platforms/hosted.c:184-191 | one tick moves the slot count on by one |
| HostedOutputs.TicksPosition | src/platforms/hosted.c:184-191 | after n ticks the slot is (cur_slot + n) mod max_slots, with one swap and one buffer toggle per completed buffer |
| HostedOutputs.AtOwnSlot | src/platforms/hosted.c:45-46 | before any tick the position is the current slot of the current buffer |
| HostedOutputs.TicksStep | src/platforms/hosted.c:184-191 | the n-th tick of a run moves the position one slot on |
| HostedOutputs.TicksTime | src/platforms/hosted.c:183 | n ticks advance curtime by n mod 2^32 |
| HostedOutputs.FullCycle | src/platforms/hosted.c:185-191 | over whole passes through both buffers the stream is back at the same slot of the same buffer, after one swap per buffer |
| HostedOutputs.HostedPlatform.constructor | src/platforms/hosted.c:37-49 | the globals at start, no buffer attached |
| HostedOutputs.HostedPlatform.SetOutput | src/platforms/hosted.c:97-103 | the in-place bit update equals SetOutputBit |
| HostedOutputs.HostedPlatform.InitOutputThread | src/platforms/hosted.c:140-145 | records both buffers and max_slots = len, and returns 0 |
| HostedOutputs.HostedPlatform.CurrentOutputBuffer | src/platforms/hosted.c:147-149 | reports cur_buffer, which is 0 or 1 |
| HostedOutputs.HostedPlatform.CurrentOutputSlot | src/platforms/hosted.c:151-153 | reports cur_slot, which is below max_slots once attached |
| HostedOutputs.HostedPlatform.CurrentTime | src/platforms/hosted.c:51-53 | reports curtime |
| HostedOutputs.HostedPlatform.AdvanceSlot | src/platforms/hosted.c:183-191 | the in-place slot and buffer step equals Advance |
| HostedOutputs.HostedPlatform.ApplyCurrentSlot | src/platforms/hosted.c:193-194 | the in-place masks equal ApplySlot on the selected slot |
| HostedOutputs.HostedPlatform.PlatformTimer | src/platforms/hosted.c:163-194 | the in-place tick equals Tick on the two buffers |

## Left out

- MAX_TRIGGERS, which is not shown, is the length of the shift register. `src/decoder.h:5` gives MAX_DECODER_TIMES as 8. With a counter saturating at 8, `required_triggers_rpm = 9` could never be reached, but the 24+1 tests do reach it. So the length is a parameter (at least 2, and at least 9 in the 24+1 scenario lemmas).
- `trigger_cur_rpm_change` and `offset` are left out. The first is a floating-point statistic that nothing in the modelled core reads; the second is not used by the decoder.
- Floating point:
  - `trigger_max_rpm_change` and the variation bounds are exact `real`s, so float rounding is not modelled;
  - `degrees_t` angles are integers.
- DecoderSpec.ExpirationAfter: the deadline is `times[0] + diff * 1.5` truncated to an integer. A value of 2^32 or more is taken modulo 2^32, whereas the C float-to-unsigned conversion is undefined there.
- `invalidate_decoder` writes the global `config.decoder` rather than the decoder passed to its caller; the model treats the two as the same decoder, as they are at every call site (`decoder_update_scheduling` and the tests pass `&config.decoder`).
- `decoder_init`'s `default:` branch cannot be reached, because the model's trigger type has only the two handled values.
- The initial `loss` value is VARIATION, the zero of the C enum.
- `calculate_ignition`, `calculate_fueling`, the `stats_*` calls and `console_record_event` are left out; `validate_decoder_sequence`'s `set_current_time` is left out too: none of them affect the decoder fields. The scheduler is an external log of calls; `scheduler_buffer_swap` is counted in `swaps`.
- Interrupt-level concurrency is not modelled: the latch of `last_t0`/`needs_decoding_*` by an interrupt, `_Atomic curtime`, and signal masking. Decoding is a sequential call.
- `rpm_from_time_diff`, `time_diff`, `time_from_us`, `clamp_angle`, `sensor_convert_freq` and the current time are parameters, because util.c and the clock are not part of this model. FuelPump.FuelPumpTest assumes `time_from_us(us) == 4 * us` and `time_diff(a, b) == a - b` mod 2^32. Sensors.AngleWindowTest states the windows directly; with `clamp_angle` the identity on [0,720), Sensors.CurrentAngleInWindow turns it into the test's results.
- The numeric path of `sensor_convert` is one opaque parameter giving the new processed value and filter state: linear, windowed, table and thermistor conversion, the lag filter and the derivative. It takes only the sensor record and the raw value, whereas the C also reads the current time (`src/sensors.c:126`), the current crank angle (`src/sensors.c:110`) and the decoder rpm (`src/sensors.c:27`); the model therefore does not capture how the result depends on those three. The source-type `struct sensor_input` of `src/sensors.h` is out of date, so the model follows `src/sensors.c`.
- Sensors.CurrentAngleInWindow requires `total_width > 0`. With a zero width the C loop never advances: it returns 1 on its first pass when the clamped angle is in [0, capture_width), and otherwise never ends. The model does not cover that zero-width case.
- The I/O of the hosted platform is not modelled: the socket, stdin commands, `sprintf`/`write` of changed outputs, `old_outputs`, `run_until_time`, and the POSIX timer. Nor are `set_gpio`, `set_pwm` or the stm32 platform.
- The slot buffers are arrays of `Slot` rather than `uint32_t` words cast to packed slots. A null `output_slots[0]` is the flag `initialized`; a null second buffer is not modelled.
- HostedOutputs.HostedPlatform.InitOutputThread requires `0 < len`, both buffers to hold `len` slots, and `cur_slot < len`. The C checks none of this, and does not reset `cur_slot`; a tick after breaking these conditions would index outside a buffer.
- HostedOutputs.HostedPlatform.SetOutput requires `o < 31`: the C `1 << output` on an `int` is undefined from 31 on.
