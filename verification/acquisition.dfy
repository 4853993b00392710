/** The acquisition state machine of the HX711 driver as pure functions over an
    immutable device record. A start operation sets the record up; each call of
    the data-ready handler is one `Step`, fed the three bytes it clocks in; the
    step that brings the remaining-sample count to zero computes the result,
    raises the ready flag and hands the result to the completion callback. */
module Acquisition {
  import opened CArith
  import opened Transport

  /** The finalization formula chosen by the last start operation. */
  datatype Mode = GetAverage | GetValue | GetUnits

  /** What the driver stores in its `float result`. The integer modes store a
      `long` quotient, which a float holds exactly while it stays within 2^24;
      the units mode stores that count divided by the float `SCALE`, kept here
      as the unevaluated quotient `counts / scale` (a zero scale gives an
      infinity or NaN on the hardware, which is still a value). */
  datatype Measurement = Counts(n: Long) | Units(counts: Long, scale: real)

  /** Places where the C code has undefined behaviour: an integer division by a
      zero sample count, a `long` subtraction that overflows, and a float that
      does not fit the `long` it is converted to. */
  datatype Fault = DivisionByZero | SignedOverflow | UndefinedConversion

  datatype Result<T> = Ok(value: T) | Err(fault: Fault)

  datatype Option<T> = None | Some(value: T)

  /** The device's mutable fields. `hasCallback` says whether the completion
      callback pointer is non-null; `poweredUp` abstracts the PD_SCK line (low
      while powered up). */
  datatype Device = Device(
    gain: Byte,
    offset: Long,
    scale: real,
    mode: Mode,
    nbSamples: Byte,
    nbInitialSamples: Byte,
    sum: Long,
    result: Measurement,
    dataReady: bool,
    hasCallback: bool,
    poweredUp: bool)

  /** The state after one handler call, and the argument the callback got, if
      it was called. */
  datatype Stepped = Stepped(dev: Device, notified: Option<Measurement>)

  // ---------------------------------------------------------------------------
  // Gain selection and setup

  predicate IsGainFactor(factor: int) {
    factor == 128 || factor == 64 || factor == 32
  }

  /** The gain factor a pulse code selects: the table in the comments of
      `set_gain`, read backwards. */
  function GainFactor(code: int): Option<Byte> {
    if code == 1 then Some(128)
    else if code == 3 then Some(64)
    else if code == 2 then Some(32)
    else None
  }

  /** `set_gain`: 128, 64 and 32 select pulse codes 1, 3 and 2; any other
      factor is ignored. Only `gain` can change. */
  function SetGain(d: Device, factor: Byte): (r: Device)
    ensures IsGainFactor(factor) ==> GainFactor(r.gain) == Some(factor)
    ensures !IsGainFactor(factor) ==> r == d
    ensures r == d.(gain := r.gain)
  {
    if factor == 128 then d.(gain := 1)
    else if factor == 64 then d.(gain := 3)
    else if factor == 32 then d.(gain := 2)
    else d
  }

  /** `begin`: selects the gain and powers the converter down. Pin setup and
      the interrupt attachment are not modelled. */
  function Begin(d: Device, factor: Byte): (r: Device)
    ensures !r.poweredUp
    ensures IsGainFactor(factor) ==> GainFactor(r.gain) == Some(factor)
    ensures !IsGainFactor(factor) ==> r.gain == d.gain
    ensures r == d.(gain := r.gain, poweredUp := false)
  {
    SetGain(d, factor).(poweredUp := false)
  }

  // ---------------------------------------------------------------------------
  // Calibration accessors

  function SetScale(d: Device, scale: real): (r: Device)
    ensures GetScale(r) == scale
    ensures r == d.(scale := r.scale)
  {
    d.(scale := scale)
  }

  function GetScale(d: Device): real {
    d.scale
  }

  function SetOffset(d: Device, offset: Long): (r: Device)
    ensures GetOffset(r) == offset
    ensures r == d.(offset := r.offset)
  {
    d.(offset := offset)
  }

  function GetOffset(d: Device): Long {
    d.offset
  }

  // ---------------------------------------------------------------------------
  // Start operations

  /** `read_average`: a GET_AVERAGE acquisition of `times` samples. It does NOT
      set `nbInitialSamples`, so finalization divides by whatever count the
      previous `get_value`, `get_units` or `tare` left there. */
  function StartAverage(d: Device, callback: bool, times: Byte): (r: Device)
    ensures r.mode == GetAverage && r.nbSamples == times && r.sum == 0
    ensures !r.dataReady && r.poweredUp && r.hasCallback == callback
    ensures r.nbInitialSamples == d.nbInitialSamples
    ensures r.gain == d.gain && r.offset == d.offset && r.scale == d.scale && r.result == d.result
  {
    d.(hasCallback := callback, nbSamples := times, mode := GetAverage, sum := 0,
       dataReady := false, poweredUp := true)
  }

  /** `get_value`: a GET_VALUE acquisition of `times` samples. */
  function StartValue(d: Device, callback: bool, times: Byte): (r: Device)
    ensures r.mode == GetValue && r.nbSamples == times && r.nbInitialSamples == times && r.sum == 0
    ensures !r.dataReady && r.poweredUp && r.hasCallback == callback
    ensures r.gain == d.gain && r.offset == d.offset && r.scale == d.scale && r.result == d.result
  {
    d.(hasCallback := callback, nbSamples := times, sum := 0, nbInitialSamples := times,
       mode := GetValue, dataReady := false, poweredUp := true)
  }

  /** `get_units`: a GET_UNITS acquisition of `times` samples. */
  function StartUnits(d: Device, callback: bool, times: Byte): (r: Device)
    ensures r.mode == GetUnits && r.nbSamples == times && r.nbInitialSamples == times && r.sum == 0
    ensures !r.dataReady && r.poweredUp && r.hasCallback == callback
    ensures r.gain == d.gain && r.offset == d.offset && r.scale == d.scale && r.result == d.result
  {
    d.(hasCallback := callback, nbSamples := times, sum := 0, nbInitialSamples := times,
       mode := GetUnits, dataReady := false, poweredUp := true)
  }

  /** The set-up half of `tare`: a GET_AVERAGE acquisition without callback.
      It resets neither `sum` nor `DataReady`. */
  function TareStart(d: Device, times: Byte): (r: Device)
    ensures r.mode == GetAverage && r.nbSamples == times && r.nbInitialSamples == times
    ensures !r.hasCallback && r.poweredUp
    ensures r.sum == d.sum && r.dataReady == d.dataReady
    ensures r.gain == d.gain && r.offset == d.offset && r.scale == d.scale && r.result == d.result
  {
    d.(hasCallback := false, mode := GetAverage, nbSamples := times, nbInitialSamples := times,
       poweredUp := true)
  }

  // ---------------------------------------------------------------------------
  // The read handler

  /** The mean of the accumulated samples, as C's `sum / nbInitialSamples`. */
  function Average(d: Device): (a: Result<Long>)
    ensures a.Err? <==> d.nbInitialSamples == 0
    ensures a.Ok? ==> Abs(d.sum - a.value * d.nbInitialSamples) < d.nbInitialSamples
    ensures a.Ok? ==> var rem := d.sum - a.value * d.nbInitialSamples;
      rem == 0 || (rem > 0 <==> d.sum > 0)
  {
    if d.nbInitialSamples == 0 then Err(DivisionByZero)
    else Ok(CDiv(d.sum, d.nbInitialSamples))
  }

  /** The result the selected mode computes from the accumulated sum: the mean
      itself, the mean less the offset, or that difference over the scale. */
  function Measure(d: Device): (r: Result<Measurement>)
    ensures Average(d).Err? ==> r == Err(DivisionByZero)
    ensures Average(d).Ok? && d.mode == GetAverage ==> r == Ok(Counts(Average(d).value))
    ensures Average(d).Ok? && d.mode != GetAverage ==>
      (r.Ok? <==> InLong(Average(d).value - d.offset))
    ensures r.Ok? && d.mode == GetValue ==> r.value == Counts(Average(d).value - d.offset)
    ensures r.Ok? && d.mode == GetUnits ==> r.value == Units(Average(d).value - d.offset, d.scale)
  {
    match Average(d)
    case Err(f) => Err(f)
    case Ok(avg) =>
      match d.mode
      case GetAverage => Ok(Counts(avg))
      case GetValue =>
        if InLong(avg - d.offset) then Ok(Counts(avg - d.offset)) else Err(SignedOverflow)
      case GetUnits =>
        if InLong(avg - d.offset) then Ok(Units(avg - d.offset, d.scale)) else Err(SignedOverflow)
  }

  /** The branch taken when `--nbSamples` reaches zero: power down, compute the
      result, raise `DataReady`, call the callback if there is one. */
  function Finalize(d: Device): (r: Result<Stepped>)
    ensures r.Ok? <==> Measure(d).Ok?
    ensures r.Ok? ==> r.value.dev.result == Measure(d).value
    ensures r.Ok? ==> r.value.dev.dataReady && !r.value.dev.poweredUp
    ensures r.Ok? ==> r.value.notified == if d.hasCallback then Some(r.value.dev.result) else None
    ensures r.Ok? ==> r.value.dev == d.(poweredUp := false, result := r.value.dev.result, dataReady := true)
  {
    match Measure(d)
    case Err(f) => Err(f)
    case Ok(m) =>
      var e := d.(poweredUp := false, result := m, dataReady := true);
      Ok(Stepped(e, if d.hasCallback then Some(m) else None))
  }

  /** One call of `HX711::read` with the three bytes it clocks in: the decoded
      sample is added to `sum` (as `unsigned long` arithmetic stored back into
      a `long`), `nbSamples` is decremented, and the acquisition finalizes
      exactly when the count becomes zero. */
  function Step(d: Device, t: Triple): (r: Result<Stepped>)
    ensures r.Ok? ==> r.value.dev.sum == Wrap32(d.sum + Decode(t))
    ensures r.Ok? ==> (r.value.dev.nbSamples + 1) % 0x100 == d.nbSamples
    ensures r.Err? ==> d.nbSamples == 1
    ensures d.nbSamples != 1 ==> r.Ok? && r.value.notified == None
    ensures d.nbSamples != 1 ==> r.value.dev.(sum := d.sum, nbSamples := d.nbSamples) == d
    ensures d.nbSamples == 1 && r.Ok? ==>
      r.value.dev.dataReady && !r.value.dev.poweredUp &&
      r.value.notified == (if d.hasCallback then Some(r.value.dev.result) else None)
    ensures d.nbSamples == 1 ==>
      var last := d.(sum := Wrap32(d.sum + Decode(t)), nbSamples := 0);
      && (r.Ok? <==> Measure(last).Ok?)
      && (r.Ok? ==> r.value.dev.result == Measure(last).value)
  {
    var e := d.(sum := Wrap32(d.sum + Decode(t)), nbSamples := Decrement8(d.nbSamples));
    if e.nbSamples == 0 then Finalize(e) else Ok(Stepped(e, None))
  }

  function OptionToSeq<T>(o: Option<T>): (s: seq<T>)
    ensures |s| <= 1
  {
    if o.Some? then [o.value] else []
  }

  /** The handler's trace: the state after some calls and the arguments the
      callback received, in order. */
  datatype Trace = Trace(dev: Device, notified: seq<Measurement>)

  /** One handler call per triple, in order; the first undefined-behaviour
      fault ends the run. */
  function Run(d: Device, ts: seq<Triple>): (r: Result<Trace>)
    ensures r.Ok? ==> |r.value.notified| <= |ts|
    ensures r.Ok? && d.dataReady ==> r.value.dev.dataReady
    ensures r.Ok? && r.value.notified != [] ==> r.value.dev.dataReady
    decreases |ts|
  {
    if |ts| == 0 then Ok(Trace(d, []))
    else
      match Step(d, ts[0])
      case Err(f) => Err(f)
      case Ok(s) =>
        match Run(s.dev, ts[1..])
        case Err(f) => Err(f)
        case Ok(tr) => Ok(Trace(tr.dev, OptionToSeq(s.notified) + tr.notified))
  }

  // ---------------------------------------------------------------------------
  // Consuming the result

  function IsDataReady(d: Device): bool {
    d.dataReady
  }

  datatype Consumed = Consumed(value: Measurement, dev: Device)

  /** `ReadValue`: hands out the stored result and clears `DataReady`. */
  function ReadValue(d: Device): (c: Consumed)
    ensures c.value == d.result
    ensures !IsDataReady(c.dev)
    ensures c.dev == d.(dataReady := false)
  {
    Consumed(d.result, d.(dataReady := false))
  }

  /** Truncation toward zero, as a float-to-integer conversion does it. */
  function Truncate(x: real): (n: int)
    ensures Abs(n) as real <= (if x < 0.0 then -x else x)
    ensures (if x < 0.0 then -x else x) < Abs(n) as real + 1.0
    ensures n == 0 || (n > 0 <==> x > 0.0)
  {
    if x >= 0.0 then x.Floor else -((-x).Floor)
  }

  /** The implicit `float` to `long` conversion in `set_offset(ReadValue())`. */
  function ToLong(m: Measurement): (r: Result<Long>)
    ensures m.Counts? ==> r == Ok(m.n)
    ensures m.Units? && m.scale == 0.0 ==> r.Err?
    ensures r.Ok? && m.Units? ==> r.value == Truncate(m.counts as real / m.scale)
    ensures m.Units? && m.scale != 0.0 ==> (r.Ok? <==> InLong(Truncate(m.counts as real / m.scale)))
  {
    match m
    case Counts(n) => Ok(n)
    case Units(c, s) =>
      if s == 0.0 then Err(UndefinedConversion)
      else
        var n := Truncate(c as real / s);
        if InLong(n) then Ok(n) else Err(UndefinedConversion)
  }

  // ---------------------------------------------------------------------------
  // Tare

  /** How a blocking wait ends with the readings supplied: it saw `DataReady`
      after `used` handler calls, or it is still polling when they run out, or
      a handler call hit undefined behaviour. */
  datatype Wait = Ready(dev: Device, used: nat) | Waiting(dev: Device) | Failed(fault: Fault)

  /** `while (!isDataReady()) delay(10);` with one handler call per reading
      arriving while it polls. */
  function WaitReady(d: Device, ts: seq<Triple>): (w: Wait)
    ensures w.Ready? ==> w.dev.dataReady && w.used <= |ts|
    ensures d.dataReady ==> w == Ready(d, 0)
    ensures !w.Failed? ==> w.dev.gain == d.gain && w.dev.offset == d.offset && w.dev.scale == d.scale
    ensures !w.Failed? ==> w.dev.mode == d.mode && w.dev.nbInitialSamples == d.nbInitialSamples
    decreases |ts|
  {
    if d.dataReady then Ready(d, 0)
    else if |ts| == 0 then Waiting(d)
    else
      match Step(d, ts[0])
      case Err(f) => Failed(f)
      case Ok(s) =>
        match WaitReady(s.dev, ts[1..])
        case Ready(e, k) => Ready(e, k + 1)
        case Waiting(e) => Waiting(e)
        case Failed(f) => Failed(f)
  }

  /** The end of `tare`: consume the result and store it as the offset. */
  function StoreOffset(w: Wait): (r: Wait)
    ensures w.Ready? && r.Ready? ==> !r.dev.dataReady && r.used == w.used
    ensures w.Ready? && r.Ready? ==> ToLong(w.dev.result) == Ok(r.dev.offset)
    ensures !w.Ready? ==> r == w
    ensures w.Ready? ==> (r.Ready? <==> ToLong(w.dev.result).Ok?)
    ensures w.Ready? && r.Ready? ==> r.dev == w.dev.(dataReady := false, offset := r.dev.offset)
  {
    if !w.Ready? then w
    else
      var c := ReadValue(w.dev);
      match ToLong(c.value)
      case Ok(o) => Ready(SetOffset(c.dev, o), w.used)
      case Err(f) => Failed(f)
  }

  /** `tare`, as written: set up, wait for `DataReady`, store the result. */
  function Tare(d: Device, times: Byte, ts: seq<Triple>): (w: Wait)
    ensures w.Ready? ==> !IsDataReady(w.dev) && w.used <= |ts|
    ensures w.Ready? ==> w.dev.gain == d.gain && w.dev.scale == d.scale
    ensures w.Ready? ==> w.dev.mode == GetAverage && w.dev.nbInitialSamples == times
  {
    StoreOffset(WaitReady(TareStart(d, times), ts))
  }
}
