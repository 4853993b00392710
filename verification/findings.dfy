/** Two places where a start operation in `HX711.cpp` omits an assignment that
    its sibling start operations make, each shown on a concrete input, and the
    corrected operation with the intended property proved.

    1. `get_value` and `get_units` set `nbInitialSamples`, which the
       GET_AVERAGE branch divides by, but `read_average` never does, so its
       mean is divided by the count of an earlier acquisition (or by zero).
    2. The other start operations clear `sum` and `DataReady`, but `tare`
       resets neither: the old sum leaks into the
       new offset, and an unread earlier result ends the wait at once and
       becomes the offset. */
module Findings {
  import opened CArith
  import opened Transport
  import opened Acquisition
  import opened AcquisitionProperties

  /** A device after a completed and consumed two-sample `get_value` of zero
      readings: `nbInitialSamples` is 2. */
  const After2: Device := Device(
    gain := 1, offset := 0, scale := 1.0, mode := GetValue, nbSamples := 0,
    nbInitialSamples := 2, sum := 0, result := Counts(0), dataReady := false,
    hasCallback := false, poweredUp := false)

  /** The reading 100, as the converter sends it. */
  const Hundred: Triple := Triple(0x00, 0x00, 0x64)

  lemma SumOfHundreds(ts: seq<Triple>)
    requires forall i :: 0 <= i < |ts| ==> ts[i] == Hundred
    ensures SumOf(ts) == 100 * |ts|
    decreases |ts|
  {
    if |ts| > 0 {
      SumOfHundreds(ts[1..]);
    }
  }

  /** `read_average(cb, 4)` after a two-sample acquisition, four readings of
      100: the handler divides 400 by the stale count 2 and reports 200, where
      the mean is 100. */
  lemma ReadAverageUsesStaleCount()
    ensures var ts := [Hundred, Hundred, Hundred, Hundred];
      var r := Run(StartAverage(After2, false, 4), ts);
      r.Ok? && r.value.dev.result == Counts(200) && CDiv(SumOf(ts), |ts|) == 100
  {
    var ts := [Hundred, Hundred, Hundred, Hundred];
    SumOfHundreds(ts);
    AverageAcquisition(After2, false, ts);
  }

  /** `read_average` as intended: it also records `times` as the divisor. */
  function StartAverageCorrected(d: Device, callback: bool, times: Byte): (r: Device)
    ensures r.mode == GetAverage && r.nbSamples == times && r.nbInitialSamples == times && r.sum == 0
    ensures !r.dataReady && r.poweredUp && r.hasCallback == callback
    ensures r.gain == d.gain && r.offset == d.offset && r.scale == d.scale && r.result == d.result
  {
    StartAverage(d, callback, times).(nbInitialSamples := times)
  }

  /** The corrected `read_average` followed by `times` handler calls reports
      the C-truncated mean of the readings, once, on the last call. */
  lemma AverageCorrected(d: Device, callback: bool, ts: seq<Triple>)
    requires 1 <= |ts| <= 0xFF
    ensures InLong(SumOf(ts))
    ensures var s := StartAverageCorrected(d, callback, |ts|);
      Run(s, ts) == Expected(s, ts, Ok(Counts(CDiv(SumOf(ts), |ts|))))
  {
    var s := StartAverageCorrected(d, callback, |ts|);
    CompletesAfterN(s, ts);
  }

  /** On the same readings, `get_value` reports the corrected `read_average`
      result minus the offset. */
  lemma ValueIsAverageMinusOffset(d: Device, callback: bool, ts: seq<Triple>)
    requires 1 <= |ts| <= 0xFF
    requires InLong(CDiv(SumOf(ts), |ts|) - d.offset)
    ensures var v := Run(StartValue(d, callback, |ts|), ts);
      var a := Run(StartAverageCorrected(d, callback, |ts|), ts);
      && v.Ok? && a.Ok? && v.value.dev.result.Counts? && a.value.dev.result.Counts?
      && v.value.dev.result.n == a.value.dev.result.n - d.offset
  {
    var m := CDiv(SumOf(ts), |ts|);
    ValueResult(d, callback, ts);
    var sa := StartAverageCorrected(d, callback, |ts|);
    AverageCorrected(d, callback, ts);
    ExpectedResult(sa, ts, Counts(m));
  }

  /** A device whose last acquisition summed to 100 and whose result was
      consumed. */
  const Summed100: Device := After2.(sum := 100, result := Counts(50))

  /** `tare(1)` with one reading of 100 after an acquisition that left
      `sum` = 100: the offset becomes 200, not 100. */
  lemma TareKeepsOldSum()
    ensures var w := Tare(Summed100, 1, [Hundred]);
      w.Ready? && GetOffset(w.dev) == 200
  {
    TareAsWritten(Summed100, 1, [Hundred]);
    assert [Hundred][..1] == [Hundred];
    SumOfHundreds([Hundred]);
  }

  /** A device holding an unread result of 7. */
  const Unread7: Device := After2.(result := Counts(7), dataReady := true)

  /** `tare(4)` while a result of 7 is unread: the offset becomes 7 before a
      single new reading is taken, whatever the scale then reads. */
  lemma TareTakesUnreadResult()
    ensures var w := Tare(Unread7, 4, [Hundred, Hundred, Hundred, Hundred]);
      w.Ready? && w.used == 0 && GetOffset(w.dev) == 7
  {
  }

  /** `tare` as intended: the acquisition it starts is fresh, like the other
      start operations. */
  function TareStartCorrected(d: Device, times: Byte): (r: Device)
    ensures r.mode == GetAverage && r.nbSamples == times && r.nbInitialSamples == times && r.sum == 0
    ensures !r.dataReady && !r.hasCallback && r.poweredUp
    ensures r.gain == d.gain && r.offset == d.offset && r.scale == d.scale && r.result == d.result
  {
    TareStart(d, times).(sum := 0, dataReady := false)
  }

  function TareCorrected(d: Device, times: Byte, ts: seq<Triple>): Wait {
    StoreOffset(WaitReady(TareStartCorrected(d, times), ts))
  }

  /** The corrected `tare(times)` waits for exactly `times` readings and stores
      their C-truncated mean as the offset, whatever state it starts from. */
  lemma TareCorrectedOffset(d: Device, times: Byte, ts: seq<Triple>)
    requires 1 <= times <= |ts|
    ensures var w := TareCorrected(d, times, ts);
      && w.Ready? && w.used == times
      && GetOffset(w.dev) == CDiv(SumOf(ts[..times]), times)
      && !IsDataReady(w.dev)
  {
    var s := TareStartCorrected(d, times);
    SumFitsLong(ts[..times]);
    assert Counted(s, ts[..times]).sum == SumOf(ts[..times]);
    WaitCompletes(s, ts);
  }

  /** The sum of `n` readings that all decode to `k`. */
  lemma {:induction false} SumOfConstant(ts: seq<Triple>, k: int)
    requires forall i :: 0 <= i < |ts| ==> Decode(ts[i]) == k
    ensures SumOf(ts) == |ts| * k
    decreases |ts|
  {
    if |ts| > 0 {
      var n := |ts| - 1;
      SumOfConstant(ts[1..], k);
      assert SumOf(ts) == k + SumOf(ts[1..]);
      MulSucc(n, k);
    }
  }

  lemma MulSucc(n: int, k: int)
    ensures k + n * k == (n + 1) * k
  {
  }

  /** C division of an exact multiple gives the factor back. */
  lemma CDivExact(k: int, n: int)
    requires n > 0
    ensures CDiv(n * k, n) == k
  {
    var q := CDiv(n * k, n);
    MulSub(n, k, q);
    SmallMultiple(n, k - q);
  }

  lemma MulSub(n: int, k: int, q: int)
    ensures n * k - q * n == n * (k - q)
  {
  }

  lemma SmallMultiple(n: int, x: int)
    requires n > 0 && Abs(n * x) < n
    ensures x == 0
  {
  }

  /** With every reading equal to `k`, the corrected `tare` sets the offset to
      exactly `k`. */
  lemma TareConstant(d: Device, times: Byte, ts: seq<Triple>, k: int)
    requires 1 <= times <= |ts|
    requires forall i :: 0 <= i < |ts| ==> Decode(ts[i]) == k
    ensures var w := TareCorrected(d, times, ts);
      w.Ready? && GetOffset(w.dev) == k
  {
    TareCorrectedOffset(d, times, ts);
    SumOfConstant(ts[..times], k);
    CDivExact(k, times);
  }
}
