/** What a sequence of handler calls does to a started acquisition: the count
    goes down by one per call, nothing is signalled until the last call, and
    the last call finalizes once, with the mode's formula applied to the sum of
    the decoded samples. */
module AcquisitionProperties {
  import opened CArith
  import opened Transport
  import opened Acquisition

  /** The exact sum of the decoded samples, without any 32-bit reduction. */
  function SumOf(ts: seq<Triple>): int
    decreases |ts|
  {
    if |ts| == 0 then 0 else Decode(ts[0]) + SumOf(ts[1..])
  }

  /** Each sample lies in the 24-bit range, so the sum of `n` of them lies
      within `n` times that range. */
  lemma {:induction false} SumBound(ts: seq<Triple>)
    ensures Abs(SumOf(ts)) <= |ts| * TWO_23
    decreases |ts|
  {
    if |ts| > 0 {
      SumBound(ts[1..]);
    }
  }

  /** At most 255 samples (the largest `byte` count) never overflow a `long`. */
  lemma SumFitsLong(ts: seq<Triple>)
    requires |ts| <= 0xFF
    ensures InLong(SumOf(ts))
  {
    SumBound(ts);
  }

  /** The state a handler call leaves behind when it does not finalize. */
  function Counted(d: Device, ts: seq<Triple>): Device
    requires |ts| <= d.nbSamples
  {
    d.(sum := Wrap32(d.sum + SumOf(ts)), nbSamples := d.nbSamples - |ts|)
  }

  /** Counting the first sample, then the rest, is counting them all. */
  lemma CountedStep(d: Device, ts: seq<Triple>)
    requires 1 <= |ts| <= d.nbSamples
    ensures Counted(d.(sum := Wrap32(d.sum + Decode(ts[0])), nbSamples := d.nbSamples - 1), ts[1..])
         == Counted(d, ts)
  {
    var a, rest := d.sum + Decode(ts[0]), SumOf(ts[1..]);
    assert a + rest == d.sum + SumOf(ts);
    WrapAdd(a, rest);
  }

  /** A handler call that does not bring the count to zero only counts its
      sample. */
  lemma StepCounts(d: Device, t: Triple)
    requires d.nbSamples > 1
    ensures Step(d, t) == Ok(Stepped(d.(sum := Wrap32(d.sum + Decode(t)), nbSamples := d.nbSamples - 1), None))
  {
  }

  /** The call that brings the count to zero finalizes. */
  lemma StepFinalizes(d: Device, t: Triple)
    requires d.nbSamples == 1
    ensures Step(d, t) == Finalize(d.(sum := Wrap32(d.sum + Decode(t)), nbSamples := 0))
  {
  }

  /** A run whose first call does not finalize is the run of the rest from
      the state that call leaves. */
  lemma RunSilentStep(d: Device, ts: seq<Triple>)
    requires 1 <= |ts| && d.nbSamples > 1
    ensures Run(d, ts) == Run(d.(sum := Wrap32(d.sum + Decode(ts[0])), nbSamples := d.nbSamples - 1), ts[1..])
  {
    StepCounts(d, ts[0]);
    var e := d.(sum := Wrap32(d.sum + Decode(ts[0])), nbSamples := d.nbSamples - 1);
    if Run(e, ts[1..]).Ok? {
      var tr := Run(e, ts[1..]).value;
      assert OptionToSeq<Measurement>(None) + tr.notified == tr.notified;
    }
  }

  /** Fewer calls than samples remaining: each call only adds its sample
      (modulo 2^32) and decrements the count; nothing is signalled. */
  lemma {:induction false} RunCounting(d: Device, ts: seq<Triple>)
    requires |ts| < d.nbSamples
    ensures Run(d, ts) == Ok(Trace(Counted(d, ts), []))
    decreases |ts|
  {
    if |ts| == 0 {
      assert Counted(d, ts) == d;
    } else {
      var e := d.(sum := Wrap32(d.sum + Decode(ts[0])), nbSamples := d.nbSamples - 1);
      RunSilentStep(d, ts);
      RunCounting(e, ts[1..]);
      CountedStep(d, ts);
    }
  }

  /** What a run ends in when its last call finalizes `e`. */
  function Finished(e: Device): Result<Trace> {
    match Finalize(e)
    case Err(f) => Err(f)
    case Ok(s) => Ok(Trace(s.dev, OptionToSeq(s.notified)))
  }

  /** As many calls as samples remaining: the last call finalizes, once. */
  lemma {:induction false} RunCompletes(d: Device, ts: seq<Triple>)
    requires 1 <= |ts| == d.nbSamples
    ensures Run(d, ts) == Finished(Counted(d, ts))
    decreases |ts|
  {
    if |ts| == 1 {
      RunLastCall(d, ts);
    } else {
      var e := d.(sum := Wrap32(d.sum + Decode(ts[0])), nbSamples := d.nbSamples - 1);
      RunSilentStep(d, ts);
      RunCompletes(e, ts[1..]);
      CountedStep(d, ts);
    }
  }

  /** The base case: one call with one sample remaining finalizes. */
  lemma RunLastCall(d: Device, ts: seq<Triple>)
    requires |ts| == 1 == d.nbSamples
    ensures Run(d, ts) == Finished(Counted(d, ts))
  {
    var e := d.(sum := Wrap32(d.sum + Decode(ts[0])), nbSamples := 0);
    assert SumOf(ts) == Decode(ts[0]);
    assert Counted(d, ts) == e;
    StepFinalizes(d, ts[0]);
    if Finalize(e).Ok? {
      var s := Finalize(e).value;
      assert Run(s.dev, ts[1..]) == Ok(Trace(s.dev, []));
      assert OptionToSeq(s.notified) + [] == OptionToSeq(s.notified);
    }
  }

  /** A state set up by a start operation, before any handler call. */
  predicate Started(s: Device, n: nat) {
    s.sum == 0 && s.nbSamples == n && !s.dataReady && s.poweredUp
  }

  /** Before the n-th call nothing is ready and the callback has not run; the
      count has gone down by exactly the number of calls. */
  lemma NotReadyBefore(s: Device, ts: seq<Triple>)
    requires Started(s, |ts|)
    ensures forall k :: 0 <= k < |ts| ==>
      && Run(s, ts[..k]).Ok?
      && !Run(s, ts[..k]).value.dev.dataReady
      && Run(s, ts[..k]).value.dev.poweredUp
      && Run(s, ts[..k]).value.dev.nbSamples == |ts| - k
      && Run(s, ts[..k]).value.notified == []
  {
    forall k | 0 <= k < |ts|
      ensures Run(s, ts[..k]) == Ok(Trace(Counted(s, ts[..k]), []))
    {
      RunCounting(s, ts[..k]);
    }
  }

  /** The n-th call of a started acquisition finalizes with `Measure` taken on
      the exact sum: no 32-bit reduction happens on the way. */
  lemma CompletesAfterN(s: Device, ts: seq<Triple>)
    requires 1 <= |ts| <= 0xFF && Started(s, |ts|)
    ensures InLong(SumOf(ts))
    ensures Run(s, ts) == Finished(s.(sum := SumOf(ts), nbSamples := 0))
  {
    RunCompletes(s, ts);
    SumFitsLong(ts);
  }

  /** Acquisition result of a started acquisition, in closed form. */
  function Expected(s: Device, ts: seq<Triple>, m: Result<Measurement>): Result<Trace>
    requires |ts| <= 0xFF
  {
    SumFitsLong(ts);
    match m
    case Err(f) => Err(f)
    case Ok(v) =>
      Ok(Trace(s.(sum := SumOf(ts), nbSamples := 0, result := v, dataReady := true, poweredUp := false),
               if s.hasCallback then [v] else []))
  }

  /** A completed acquisition stores its measurement as the result. */
  lemma ExpectedResult(s: Device, ts: seq<Triple>, v: Measurement)
    requires |ts| <= 0xFF
    ensures Expected(s, ts, Ok(v)).Ok? && Expected(s, ts, Ok(v)).value.dev.result == v
  {
  }

  /** `get_value` then `times` handler calls: the result is the C-truncated
      mean minus the offset, delivered once to the callback if there is one;
      a subtraction that would overflow a `long` is undefined. */
  lemma ValueAcquisition(d: Device, callback: bool, ts: seq<Triple>)
    requires 1 <= |ts| <= 0xFF
    ensures var s := StartValue(d, callback, |ts|);
      var v := CDiv(SumOf(ts), |ts|) - d.offset;
      Run(s, ts) == Expected(s, ts, if InLong(v) then Ok(Counts(v)) else Err(SignedOverflow))
  {
    var s := StartValue(d, callback, |ts|);
    NotReadyBefore(s, ts);
    CompletesAfterN(s, ts);
  }

  /** `get_units` then `times` handler calls: the result is the same count
      divided by the scale. */
  lemma UnitsAcquisition(d: Device, callback: bool, ts: seq<Triple>)
    requires 1 <= |ts| <= 0xFF
    ensures var s := StartUnits(d, callback, |ts|);
      var v := CDiv(SumOf(ts), |ts|) - d.offset;
      Run(s, ts) == Expected(s, ts, if InLong(v) then Ok(Units(v, d.scale)) else Err(SignedOverflow))
  {
    var s := StartUnits(d, callback, |ts|);
    CompletesAfterN(s, ts);
  }

  /** `read_average` then `times` handler calls, as written: the sum is divided
      by the stale `nbInitialSamples`, and by zero if none was ever set. */
  lemma AverageAcquisition(d: Device, callback: bool, ts: seq<Triple>)
    requires 1 <= |ts| <= 0xFF
    ensures InLong(SumOf(ts))
    ensures var s := StartAverage(d, callback, |ts|);
      Run(s, ts) == Expected(s, ts,
        if d.nbInitialSamples == 0 then Err(DivisionByZero)
        else Ok(Counts(CDiv(SumOf(ts), d.nbInitialSamples))))
  {
    var s := StartAverage(d, callback, |ts|);
    CompletesAfterN(s, ts);
    SumFitsLong(ts);
  }

  /** `get_value(cb, 0)`: the byte count wraps from 0 to 255 on the first call,
      so the acquisition finalizes on the 256th call, and then divides by the
      zero `nbInitialSamples`. */
  lemma ZeroSamples(d: Device, callback: bool, ts: seq<Triple>)
    requires |ts| == 0x100
    ensures forall k :: 0 < k < 0x100 ==> Run(StartValue(d, callback, 0), ts[..k]).Ok?
    ensures Run(StartValue(d, callback, 0), ts) == Err(DivisionByZero)
  {
    var s := StartValue(d, callback, 0);
    var e := s.(sum := Wrap32(s.sum + Decode(ts[0])), nbSamples := 0xFF);
    assert Step(s, ts[0]) == Ok(Stepped(e, None));
    RunCompletes(e, ts[1..]);
    forall k | 0 < k < 0x100
      ensures Run(s, ts[..k]).Ok?
    {
      RunCounting(e, ts[..k][1..]);
    }
  }

  /** A one-sample `get_value` notifies exactly once, with the decoded sample
      minus the offset. */
  lemma SingleSample(d: Device, t: Triple)
    requires InLong(Decode(t) - d.offset)
    ensures var r := Run(StartValue(d, true, 1), [t]);
      r.Ok? && r.value.notified == [Counts(Decode(t) - d.offset)]
  {
    ValueAcquisition(d, true, [t]);
    assert SumOf([t]) == Decode(t);
  }

  /** The final `get_value` result when the subtraction does not overflow. */
  lemma ValueResult(d: Device, callback: bool, ts: seq<Triple>)
    requires 1 <= |ts| <= 0xFF
    requires InLong(CDiv(SumOf(ts), |ts|) - d.offset)
    ensures var v := Run(StartValue(d, callback, |ts|), ts);
      v.Ok? && v.value.dev.result == Counts(CDiv(SumOf(ts), |ts|) - d.offset) && v.value.dev.dataReady
  {
    var sv := StartValue(d, callback, |ts|);
    CompletesAfterN(sv, ts);
    var e := sv.(sum := SumOf(ts), nbSamples := 0);
    assert Average(e) == Ok(CDiv(SumOf(ts), |ts|));
    FinalizeReady(e);
  }

  /** `ReadValue` after a completed acquisition hands out the finalized result
      and leaves nothing ready; a second call returns the same, now stale,
      value. */
  lemma ConsumeOnce(d: Device, callback: bool, ts: seq<Triple>)
    requires 1 <= |ts| <= 0xFF
    requires InLong(CDiv(SumOf(ts), |ts|) - d.offset)
    ensures Run(StartValue(d, callback, |ts|), ts).Ok?
    ensures var done := Run(StartValue(d, callback, |ts|), ts).value.dev;
      var first := ReadValue(done);
      && IsDataReady(done)
      && first.value == done.result
      && first.value.Counts? && first.value.n == CDiv(SumOf(ts), |ts|) - d.offset
      && !IsDataReady(first.dev)
      && ReadValue(first.dev).value == first.value
  {
    ValueResult(d, callback, ts);
  }

  // ---------------------------------------------------------------------------
  // tare, as written

  /** The busy-wait returns after exactly the remaining number of calls. */
  lemma {:induction false} WaitCompletes(d: Device, ts: seq<Triple>)
    requires !d.dataReady && 1 <= d.nbSamples <= |ts|
    requires Finalize(Counted(d, ts[..d.nbSamples])).Ok?
    ensures WaitReady(d, ts) == Ready(Finalize(Counted(d, ts[..d.nbSamples])).value.dev, d.nbSamples)
    decreases |ts|
  {
    if d.nbSamples == 1 {
      WaitLastCall(d, ts);
    } else {
      var n := d.nbSamples;
      var e := d.(sum := Wrap32(d.sum + Decode(ts[0])), nbSamples := n - 1);
      CountedShift(d, ts);
      WaitCompletes(e, ts[1..]);
      WaitCounts(d, ts);
    }
  }

  /** The first `n` readings counted from `d` are the first reading, then the
      next `n - 1` counted from there. */
  lemma CountedShift(d: Device, ts: seq<Triple>)
    requires 1 <= d.nbSamples <= |ts|
    ensures var n := d.nbSamples;
      Counted(d.(sum := Wrap32(d.sum + Decode(ts[0])), nbSamples := n - 1), ts[1..][..n - 1])
        == Counted(d, ts[..n])
  {
    var n := d.nbSamples;
    CountedStep(d, ts[..n]);
    assert ts[..n][1..] == ts[1..][..n - 1];
  }

  /** A call that does not finalize adds one to the readings the wait uses. */
  lemma WaitCounts(d: Device, ts: seq<Triple>)
    requires !d.dataReady && d.nbSamples > 1 && |ts| >= 1
    ensures var rest := WaitReady(d.(sum := Wrap32(d.sum + Decode(ts[0])), nbSamples := d.nbSamples - 1), ts[1..]);
      && (rest.Ready? ==> WaitReady(d, ts) == Ready(rest.dev, rest.used + 1))
      && (rest.Waiting? ==> WaitReady(d, ts) == rest)
  {
    StepCounts(d, ts[0]);
  }

  lemma WaitLastCall(d: Device, ts: seq<Triple>)
    requires !d.dataReady && d.nbSamples == 1 <= |ts|
    requires Finalize(Counted(d, ts[..1])).Ok?
    ensures WaitReady(d, ts) == Ready(Finalize(Counted(d, ts[..1])).value.dev, 1)
  {
    var e := d.(sum := Wrap32(d.sum + Decode(ts[0])), nbSamples := 0);
    CountedOne(d, ts);
    StepFinalizes(d, ts[0]);
    FinalizeReady(e);
    WaitEndsOnReady(d, ts);
  }

  /** A successful finalization leaves the result ready. */
  lemma FinalizeReady(e: Device)
    ensures Finalize(e).Ok? ==> Finalize(e).value.dev.dataReady
  {
  }

  /** A call that raises `DataReady` ends the wait. */
  lemma WaitEndsOnReady(d: Device, ts: seq<Triple>)
    requires !d.dataReady && 1 <= |ts|
    requires Step(d, ts[0]).Ok? && Step(d, ts[0]).value.dev.dataReady
    ensures WaitReady(d, ts) == Ready(Step(d, ts[0]).value.dev, 1)
  {
    var s := Step(d, ts[0]).value;
    assert WaitReady(s.dev, ts[1..]) == Ready(s.dev, 0);
  }

  /** Counting a single reading is one handler call's bookkeeping. */
  lemma CountedOne(d: Device, ts: seq<Triple>)
    requires d.nbSamples == 1 <= |ts|
    ensures Counted(d, ts[..1]) == d.(sum := Wrap32(d.sum + Decode(ts[0])), nbSamples := 0)
  {
    assert ts[..1][1..] == [];
    assert SumOf(ts[..1]) == Decode(ts[0]);
  }

  /** The busy-wait is still polling while fewer readings than samples have
      arrived. */
  lemma {:induction false} WaitBlocks(d: Device, ts: seq<Triple>)
    requires !d.dataReady && |ts| < d.nbSamples
    ensures WaitReady(d, ts).Waiting?
    decreases |ts|
  {
    if |ts| > 0 {
      var e := d.(sum := Wrap32(d.sum + Decode(ts[0])), nbSamples := d.nbSamples - 1);
      WaitBlocks(e, ts[1..]);
      WaitCounts(d, ts);
    }
  }

  /** `tare(times)` on a device with no unread result: after `times` readings
      the offset is the truncated mean of the OLD sum plus the new samples
      (`sum` is never reset), and no result is left ready. */
  lemma TareAsWritten(d: Device, times: Byte, ts: seq<Triple>)
    requires !d.dataReady && 1 <= times <= |ts|
    ensures var w := Tare(d, times, ts);
      && w.Ready? && w.used == times
      && GetOffset(w.dev) == CDiv(Wrap32(d.sum + SumOf(ts[..times])), times)
      && !IsDataReady(w.dev) && !w.dev.poweredUp
  {
    var s := TareStart(d, times);
    WaitCompletes(s, ts);
  }

  /** `tare(times)` while an earlier result is still unread: the wait ends at
      once, the stale result becomes the offset, and the new acquisition is
      left running. */
  lemma TareWithUnreadResult(d: Device, times: Byte, ts: seq<Triple>)
    requires d.dataReady && ToLong(d.result).Ok?
    ensures var w := Tare(d, times, ts);
      && w.Ready? && w.used == 0
      && Ok(GetOffset(w.dev)) == ToLong(d.result)
      && w.dev.nbSamples == times && w.dev.poweredUp && !IsDataReady(w.dev)
  {
  }

  /** `tare` blocks while fewer readings than requested have arrived. */
  lemma TareBlocks(d: Device, times: Byte, ts: seq<Triple>)
    requires !d.dataReady && |ts| < times
    ensures Tare(d, times, ts).Waiting?
  {
    WaitBlocks(TareStart(d, times), ts);
  }
}
