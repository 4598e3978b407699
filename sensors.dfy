/**
 * The fault handling and source selection of the sensor inputs
 * (src/sensors.c), and the angle-window test of windowed sampling.
 *
 * `config.sensors` is an array of NUM_SENSORS `struct sensor_input` values;
 * sensor_convert updates one of them in place. The numeric part of a
 * conversion (linear scaling, table lookup, thermistor curve, windowed
 * averaging, lag filter and derivative, all in floating point) is not part
 * of this model: it is a parameter that maps the sensor and its raw reading
 * to the new processed value and filter state.
 */
module Sensors {
  import opened Platform

  /** NUM_SENSORS: MAP, IAT, CLT, BRV, TPS, AAP, FRT, EGO. */
  const NumSensors: nat := 8

  datatype Source = SourceNone | Adc | Freq | Digital | Pwm | Const

  datatype Method = Linear | LinearWindowed | Table | Therm

  datatype Fault = FaultNone | FaultRange | FaultConn

  /** The raw range outside of which a reading is a fault, and the value reported while faulted. */
  datatype FaultConfig = FaultConfig(min: Uint32, max: Uint32, faultValue: real)

  /** The crank-angle windows of METHOD_LINEAR_WINDOWED: capture_width degrees every total_width. */
  datatype Window = Window(offset: int, totalWidth: nat, captureWidth: nat)

  /** What the numeric path carries from one conversion to the next (derivative sample, window accumulator). */
  datatype Filter = Filter(lastSampleTime: Time, lastSampleValue: real, derivative: real,
                           collecting: bool, accumulator: real, samples: nat)

  /** `struct sensor_input`, with the fields src/sensors.c uses. */
  datatype SensorInput = SensorInput(
    source: Source,
    conversion: Method,
    fixedValue: real,
    rawValue: Uint32,
    processedValue: real,
    faultConfig: FaultConfig,
    fault: Fault,
    window: Window,
    filter: Filter)

  /** sensor_convert_freq, which is not part of this model. */
  type FreqFn = Uint32 -> real

  /** The method conversion, lag filter and derivative update for a raw reading, not part of this model. */
  type NumericFn = (SensorInput, real) -> (real, Filter)

  /** The range check of sensor_convert: enabled by a non-zero max, it flags a reading outside [min, max]. */
  predicate OutOfRange(s: SensorInput) {
    s.faultConfig.max != 0 && (s.faultConfig.min > s.rawValue || s.faultConfig.max < s.rawValue)
  }

  /** The raw reading the source selects: the ADC value, the frequency, or 0. */
  function RawOf(s: SensorInput, freq: FreqFn): real {
    match s.source
    case Adc => s.rawValue as real
    case Freq => freq(s.rawValue)
    case _ => 0.0
  }

  /** The fault after the range check: a range fault is latched only when no fault is present. */
  function LatchedFault(s: SensorInput): (f: Fault)
    ensures s.fault != FaultNone ==> f == s.fault
    ensures s.fault == FaultNone ==> (f == FaultRange <==> OutOfRange(s)) && (f == FaultNone <==> !OutOfRange(s))
  {
    if s.fault == FaultNone && OutOfRange(s) then FaultRange else s.fault
  }

  /**
   * sensor_convert on one sensor: latch a range fault; while faulted report
   * the fault value and touch nothing else; a constant source reports its
   * fixed value without filtering; any other source runs the numeric path
   * on its raw reading.
   */
  function Convert(s: SensorInput, freq: FreqFn, numeric: NumericFn): (r: SensorInput)
    ensures s.fault != FaultNone ==> r.fault == s.fault
    ensures r.fault != FaultNone <==> s.fault != FaultNone || OutOfRange(s)
    ensures r.fault != FaultNone ==> r == s.(fault := r.fault, processedValue := s.faultConfig.faultValue)
    ensures r.fault == FaultNone && s.source == Const ==> r == s.(processedValue := s.fixedValue)
    ensures r.fault == FaultNone && s.source != Const ==>
              r == s.(processedValue := numeric(s, RawOf(s, freq)).0, filter := numeric(s, RawOf(s, freq)).1)
    ensures r.source == s.source && r.conversion == s.conversion && r.faultConfig == s.faultConfig
    ensures r.rawValue == s.rawValue && r.window == s.window && r.fixedValue == s.fixedValue
  {
    var f := LatchedFault(s);
    if f != FaultNone then s.(fault := f, processedValue := s.faultConfig.faultValue)
    else if s.source == Const then s.(processedValue := s.fixedValue)
    else
      var (p, flt) := numeric(s, RawOf(s, freq));
      s.(processedValue := p, filter := flt)
  }

  /** Converting a faulted sensor again changes nothing: the fault and the fault value both stay. */
  lemma ConvertFaultedIsStable(s: SensorInput, freq: FreqFn, numeric: NumericFn)
    requires s.fault != FaultNone
    ensures Convert(Convert(s, freq, numeric), freq, numeric) == Convert(s, freq, numeric)
  {
  }

  /** sensor_convert in place on `sensors[i]`, step by step as the C function does. */
  method SensorConvert(sensors: array<SensorInput>, i: nat, freq: FreqFn, numeric: NumericFn)
    requires i < sensors.Length
    modifies sensors
    ensures sensors[..] == old(sensors[..])[i := Convert(old(sensors[i]), freq, numeric)]
  {
    var s := sensors[i];
    if s.fault == FaultNone && s.faultConfig.max != 0 {
      if s.faultConfig.min > s.rawValue || s.faultConfig.max < s.rawValue {
        s := s.(fault := FaultRange);
      }
    }
    if s.fault != FaultNone {
      sensors[i] := s.(processedValue := s.faultConfig.faultValue);
      return;
    }
    var raw := 0.0;
    match s.source {
      case Adc => raw := s.rawValue as real;
      case Freq => raw := freq(s.rawValue);
      case Const =>
        sensors[i] := s.(processedValue := s.fixedValue);
        return;
      case _ =>
    }
    var (p, flt) := numeric(s, raw);
    sensors[i] := s.(processedValue := p, filter := flt);
  }

  /** sensors_process(source) on a sequence of sensors: convert those of the given source. */
  function ProcessAll(ss: seq<SensorInput>, source: Source, freq: FreqFn, numeric: NumericFn): (r: seq<SensorInput>)
    ensures |r| == |ss|
    ensures forall j :: 0 <= j < |ss| && ss[j].source == source ==> r[j] == Convert(ss[j], freq, numeric)
    ensures forall j :: 0 <= j < |ss| && ss[j].source != source ==> r[j] == ss[j]
    decreases |ss|
  {
    if ss == [] then []
    else
      var s := if ss[0].source == source then Convert(ss[0], freq, numeric) else ss[0];
      [s] + ProcessAll(ss[1..], source, freq, numeric)
  }

  /** Processing never clears a fault, and every sensor keeps its source. */
  lemma {:induction false} ProcessAllKeepsFaults(ss: seq<SensorInput>, source: Source, freq: FreqFn, numeric: NumericFn)
    ensures var r := ProcessAll(ss, source, freq, numeric);
      forall j :: 0 <= j < |ss| ==> r[j].source == ss[j].source && (ss[j].fault != FaultNone ==> r[j].fault == ss[j].fault)
  {
    var r := ProcessAll(ss, source, freq, numeric);
    forall j | 0 <= j < |ss|
      ensures r[j].source == ss[j].source && (ss[j].fault != FaultNone ==> r[j].fault == ss[j].fault)
    {
      if ss[j].source == source {
        assert r[j] == Convert(ss[j], freq, numeric);
      }
    }
  }

  /** Processing source a and then another source b converts the sensors of a exactly once. */
  lemma ProcessAllOtherSources(ss: seq<SensorInput>, a: Source, b: Source, freq: FreqFn, numeric: NumericFn)
    requires a != b
    ensures var r := ProcessAll(ProcessAll(ss, a, freq, numeric), b, freq, numeric);
      forall j :: 0 <= j < |ss| && ss[j].source == a ==> r[j] == Convert(ss[j], freq, numeric)
  {
    var m := ProcessAll(ss, a, freq, numeric);
    var r := ProcessAll(m, b, freq, numeric);
    forall j | 0 <= j < |ss| && ss[j].source == a
      ensures r[j] == Convert(ss[j], freq, numeric)
    {
      assert m[j] == Convert(ss[j], freq, numeric);
    }
  }

  /** sensors_process: convert, in index order, every sensor whose source matches. */
  method SensorsProcess(sensors: array<SensorInput>, source: Source, freq: FreqFn, numeric: NumericFn)
    requires sensors.Length == NumSensors
    modifies sensors
    ensures sensors[..] == ProcessAll(old(sensors[..]), source, freq, numeric)
  {
    ghost var before := sensors[..];
    for i := 0 to NumSensors
      invariant forall j :: i <= j < NumSensors ==> sensors[j] == before[j]
      invariant forall j :: 0 <= j < i && before[j].source == source ==> sensors[j] == Convert(before[j], freq, numeric)
      invariant forall j :: 0 <= j < i && before[j].source != source ==> sensors[j] == before[j]
    {
      if sensors[i].source == source {
        SensorConvert(sensors, i, freq, numeric);
      }
    }
    ghost var r := ProcessAll(before, source, freq, numeric);
    assert forall j :: 0 <= j < NumSensors ==> sensors[j] == r[j];
  }

  /** Whether bit j of a 32-bit word is set. */
  predicate Bit(x: bv32, j: bv32)
    requires j < 32
  {
    x & (1 << j) != 0
  }

  lemma OrBit(x: bv32, i: bv32, j: bv32)
    requires i < 32 && j < 32
    ensures Bit(x | (1 << i), j) <==> Bit(x, j) || i == j
  {
  }

  /** Sensor j exists and has a fault. */
  predicate Faulty(ss: seq<SensorInput>, j: bv32) {
    j as int < |ss| && ss[j as int].fault != FaultNone
  }

  /** The fault word of the first n sensors: bit j set for each faulted sensor j < n. */
  function FaultMask(ss: seq<SensorInput>, n: bv32): bv32
    requires n <= 8
    decreases n as int
  {
    if n == 0 then 0
    else
      var m := n - 1;
      if Faulty(ss, m) then FaultMask(ss, m) | (1 << m) else FaultMask(ss, m)
  }

  /** Bit j of FaultMask(ss, n) is set exactly when j < n and sensor j is faulted. */
  lemma {:induction false} FaultMaskBit(ss: seq<SensorInput>, n: bv32, j: bv32)
    requires n <= 8 && j < 32
    ensures Bit(FaultMask(ss, n), j) <==> j < n && Faulty(ss, j)
    decreases n as int
  {
    if n > 0 {
      var m := n - 1;
      FaultMaskBit(ss, m, j);
      OrBit(FaultMask(ss, m), m, j);
    }
  }

  /**
   * sensor_fault_status: bit i of the result is set exactly when sensor i
   * has a fault, and no bit at or above NUM_SENSORS is set.
   */
  method SensorFaultStatus(sensors: array<SensorInput>) returns (faults: bv32)
    requires sensors.Length == NumSensors
    ensures faults == FaultMask(sensors[..], 8)
    ensures forall j: bv32 :: j < 32 ==> (Bit(faults, j) <==> j < 8 && Faulty(sensors[..], j))
  {
    faults := 0;
    var i: bv32 := 0;
    while i < 8
      invariant i <= 8
      invariant faults == FaultMask(sensors[..], i)
    {
      if sensors[i as int].fault != FaultNone {
        faults := faults | (1 << i);
      }
      i := i + 1;
    }
    forall j: bv32 | j < 32
      ensures Bit(faults, j) <==> j < 8 && Faulty(sensors[..], j)
    {
      FaultMaskBit(sensors[..], 8, j);
    }
  }

  /** The start of window k: k * total_width degrees. */
  function WindowStart(k: nat, totalWidth: nat): nat {
    k * totalWidth
  }

  /**
   * The reference for current_angle_in_window: the angle lies in
   * [k * total_width, k * total_width + capture_width) for a window k that
   * starts below 720 degrees.
   */
  ghost predicate InWindow(cur: int, w: Window) {
    exists k: nat {:trigger WindowStart(k, w.totalWidth)} ::
      && WindowStart(k, w.totalWidth) < 720
      && WindowStart(k, w.totalWidth) <= cur < WindowStart(k, w.totalWidth) + w.captureWidth
  }

  /** clamp_angle of util.c, which is not part of this model. */
  type ClampFn = (int, int) -> int

  /**
   * current_angle_in_window: scan the windows from 0 in steps of total_width
   * while below 720, and report whether the clamped angle falls in one.
   */
  method CurrentAngleInWindow(w: Window, angle: int, clamp: ClampFn) returns (r: bool)
    requires w.totalWidth > 0
    ensures r <==> InWindow(clamp(angle - w.offset, 720), w)
  {
    var cur := clamp(angle - w.offset, 720);
    var i := 0;
    ghost var k: nat := 0;
    while i < 720
      invariant i == WindowStart(k, w.totalWidth)
      invariant forall j: nat {:trigger WindowStart(j, w.totalWidth)} :: j < k ==>
                  !(WindowStart(j, w.totalWidth) <= cur < WindowStart(j, w.totalWidth) + w.captureWidth)
      decreases 720 - i
    {
      if cur >= i && cur < i + w.captureWidth {
        return true;
      }
      i := i + w.totalWidth;
      k := k + 1;
    }
    forall j: nat | WindowStart(j, w.totalWidth) < 720
      ensures j < k
    {
      if j >= k {
        StartsIncrease(k, j, w.totalWidth);
      }
    }
    return false;
  }

  /** Window starts grow with the window index. */
  lemma StartsIncrease(k: nat, j: nat, totalWidth: nat)
    requires totalWidth > 0 && k <= j
    ensures WindowStart(k, totalWidth) <= WindowStart(j, totalWidth)
  {
    var d := j - k;
    assert j * totalWidth == k * totalWidth + d * totalWidth;
  }

  /**
   * check_current_angle_in_window: windows 60 degrees wide every 100 with no
   * offset accept 0, 50, 100, 120 and 710 and reject 70, 170 and 690.
   */
  lemma AngleWindowTest()
    ensures var w := Window(0, 100, 60);
      && InWindow(0, w) && InWindow(50, w) && !InWindow(70, w)
      && InWindow(100, w) && InWindow(120, w) && !InWindow(170, w)
      && !InWindow(690, w) && InWindow(710, w)
  {
    var w := Window(0, 100, 60);
    assert WindowStart(0, 100) == 0 && WindowStart(1, 100) == 100 && WindowStart(7, 100) == 700;
    forall k: nat
      ensures !(WindowStart(k, 100) <= 70 < WindowStart(k, 100) + 60)
      ensures !(WindowStart(k, 100) <= 170 < WindowStart(k, 100) + 60)
      ensures !(WindowStart(k, 100) <= 690 < WindowStart(k, 100) + 60)
    {
      if k >= 7 { StartsIncrease(7, k, 100); }
      else if k == 6 { } else if k == 5 { } else if k == 4 { } else if k == 3 { } else if k == 2 { }
      else if k == 1 { } else { }
    }
  }
}
