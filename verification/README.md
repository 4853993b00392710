# HX711 interrupt-driven driver: a Dafny model

This project models the sequential core of an Arduino driver for the HX711
24-bit load-cell converter (`src/HX711.cpp`). The converter signals a finished
conversion by pulling its data line low. An interrupt then runs the read
handler `HX711::read`. The handler clocks out three bytes, widens them to a
signed 32-bit sample and adds the sample to a running sum. On the last of the
requested samples it computes the result (`GET_AVERAGE`, `GET_VALUE` or
`GET_UNITS`), raises `DataReady` and calls the completion callback.

The model is functional. The device is an immutable `Device` record. Each
start operation (`read_average`, `get_value`, `get_units`, the set-up half of
`tare`) is a function from record to record. One handler call is `Step`, which
gets the three bytes the hardware would deliver as an input `Triple`. A
sequence of calls is `Run`. `ReadValue` and `IsDataReady` consume and query the
result. `tare`'s busy-wait is `WaitReady`: it makes one handler call per
supplied reading until `DataReady` is seen.

Modules:

- `CArith` (`carith.dfy`): the C integer semantics the code relies on. It has
  `byte` and `long` widths, reduction modulo 2^32 (`Wrap32`), division
  truncating toward zero (`CDiv`) and the wrapping `--` on a byte.
- `Transport` (`transport.dfy`): `shiftInSlow` as a loop over eight sampled
  levels, the three-byte read, the filler byte, the 32-bit word, and its
  two's-complement value (`Decode`), with the inverse `Encode`.
- `Acquisition` (`acquisition.dfy`): the device record, gain selection, the
  calibration accessors, the start operations, the handler step, result
  consumption and `tare`.
- `AcquisitionProperties` (`acquisition_properties.dfy`): what N handler calls
  do after a start. The count falls by one per call. Nothing is signalled
  before the N-th call. The N-th call finalizes once, with the mode's formula.
  `tare` behaves as written.
- `Findings` (`findings.dfy`): two defects, each shown on concrete inputs,
  with corrected operations and their intended properties proved.

`HX711.h` is not part of this model, so the field widths are assumptions
matching the parameter types and the 32-bit Arduino targets. `sum` and
`OFFSET` are 32-bit `long`. `nbSamples`, `nbInitialSamples` and `GAIN` are
bytes. `SCALE` and `result` are `float`. Under these assumptions:

- `sum += value` adds an `unsigned long` to a `long`, so the stored sum is the
  exact sum reduced modulo 2^32 (`Wrap32`). For a fresh acquisition of at most
  255 samples no reduction ever happens (`SumFitsLong`).
- `--nbSamples` on a byte wraps from 0 to 255. A start with `times` = 0
  therefore needs 256 calls before it finalizes, and `get_value(cb, 0)` then
  divides by zero (`ZeroSamples`).
- C behaviour that is undefined is reported as a `Fault`, not given an
  invented value. This covers division by a zero `nbInitialSamples`, a `long`
  subtraction that overflows, and a float that does not fit a `long`.

Two start operations differ from their siblings in the code itself, and the
model keeps the code's behaviour:

- `get_value` and `get_units` set `nbInitialSamples = nbSamples` (lines 307
  and 318), and the GET_AVERAGE branch divides by `nbInitialSamples` (line
  218), but `read_average` (lines 291-300) never sets it.
- `read_average`, `get_value` and `get_units` clear `sum` and `DataReady`
  (lines 296-297, 306 and 309, 317 and 320), but `tare` (lines 324-330) does
  neither.

## Model

| member | source | states |
|---|---|---|
| CArith.Wrap32 | src/HX711.cpp:212 | storing the `unsigned long` sum back into a `long` gives the exact sum whenever that fits in a `long` |
| CArith.WrapCongruent | src/HX711.cpp:212 | the stored `long` differs from the exact sum by a multiple of 2^32, whatever the sum |
| CArith.WrapAdd | src/HX711.cpp:212 | reducing the running sum after every addition gives the same `long` as reducing the exact total once |
| CArith.CDiv | src/HX711.cpp:218 | `sum / nbInitialSamples` truncates toward zero: the remainder is smaller than the divisor and has the dividend's sign, and the quotient is no larger in magnitude than the dividend |
| CArith.Decrement8 | src/HX711.cpp:214 | `--nbSamples` on a byte steps down by one modulo 256 and reaches zero exactly when the count was 1 |
| Transport.ShiftInSlow | src/HX711.cpp:57-73 | the i-th sampled level becomes bit 7−i with MSBFIRST and bit i with LSBFIRST, and the byte returned is the only byte with those bits |
| Transport.ByteBitsInjective | src/HX711.cpp:57-73 | two bytes that agree at every sampled position are equal, so the eight samples determine the byte |
| Transport.ShiftIsMask | src/HX711.cpp:65-67 | shifting a 0/1 sample left by a position below 8 gives the byte with only that bit set, or zero |
| Transport.SetBit | src/HX711.cpp:64-67 | or-ing a shifted sample into the byte sets exactly that bit position and leaves the other seven unchanged |
| Transport.ReadTriple | src/HX711.cpp:166-169 | the three MSB-first byte reads store the first eight samples in `data[2]`, the next eight in `data[1]` and the last eight in `data[0]` |
| Transport.WordLanes | src/HX711.cpp:206-210 | or-ing the filler, `data[2]`, `data[1]` and `data[0]`, shifted by 24, 16, 8 and 0 bits, gives the same 32-bit word as their positional sum |
| Transport.FillerIsSignBit | src/HX711.cpp:199-204 | the filler is 0xFF exactly when the top byte is at least 0x80 (bit 7 set), and 0x00 otherwise |
| Transport.Decode | src/HX711.cpp:199-210 | the word read as a signed 32-bit value is the two's-complement value of the 24-bit big-endian number b2:b1:b0; it lies in [−2^23, 2^23−1] and is negative exactly when the filler is 0xFF |
| Transport.DecodeEncode | src/HX711.cpp:199-210 | every value in the 24-bit signed range has a byte triple that decodes back to it |
| Transport.EncodeDecode | src/HX711.cpp:199-210 | decoding loses nothing: the byte triple can be recovered from the decoded value |
| Transport.DecodeExamples | src/HX711.cpp:199-210 | (00,00,01)→1, (FF,FF,FF)→−1, (80,00,00)→−8388608 and (7F,FF,FF)→8388607 |
| Acquisition.SetGain | src/HX711.cpp:106-119 | gain 128, 64 and 32 select the pulse codes that read back as those factors (1, 3, 2); any other argument changes nothing; no field other than the gain changes |
| Acquisition.Begin | src/HX711.cpp:86-100 | `begin` applies the gain selection and leaves the converter powered down; nothing else in the device state changes |
| Acquisition.SetScale | src/HX711.cpp:337-343 | after `set_scale(s)`, `get_scale()` returns s and no other field changes |
| Acquisition.SetOffset | src/HX711.cpp:345-351 | after `set_offset(o)`, `get_offset()` returns o and no other field changes |
| Acquisition.StartAverage | src/HX711.cpp:291-300 | `read_average` clears `sum` and `DataReady`, sets the count, mode, callback and power, and leaves `nbInitialSamples` as it was |
| Acquisition.StartValue | src/HX711.cpp:302-311 | `get_value` clears `sum` and `DataReady`, sets both counts to `times`, selects GET_VALUE and keeps the calibration and the last result |
| Acquisition.StartUnits | src/HX711.cpp:313-322 | `get_units` does the same as `get_value` but selects GET_UNITS |
| Acquisition.TareStart | src/HX711.cpp:324-330 | `tare`'s set-up sets both counts, GET_AVERAGE and no callback, and leaves `sum` and `DataReady` unchanged |
| Acquisition.Average | src/HX711.cpp:218 | the mean is undefined exactly when `nbInitialSamples` is 0; otherwise mean × count differs from the sum by less than the count, and the remainder is zero or has the sum's sign (truncation toward zero) |
| Acquisition.Measure | src/HX711.cpp:216-226 | GET_AVERAGE yields the mean; GET_VALUE yields the mean minus the offset and GET_UNITS that difference over the scale, both defined exactly when the subtraction fits a `long`; a zero count is a division by zero in every mode |
| Acquisition.Finalize | src/HX711.cpp:214-230 | finalization succeeds exactly when the mode's result is defined; it stores that result, raises `DataReady`, powers down, changes no other field, and passes the stored result to the callback exactly when one is set |
| Acquisition.Step | src/HX711.cpp:199-230 | one handler call adds the decoded sample to `sum` (modulo 2^32) and decrements `nbSamples` by one. Unless the count was 1, nothing else changes and no callback runs. When the count was 1, it succeeds exactly when the mode's result on the updated sum is defined, stores that result, raises `DataReady` and notifies iff a callback is set |
| Acquisition.Run | src/HX711.cpp:199-230 | a sequence of handler calls notifies at most once per call, never clears `DataReady`, and has `DataReady` set whenever the callback ran |
| Acquisition.IsDataReady | src/HX711.cpp:282-284 | `isDataReady` reports the `DataReady` flag; its meaning is fixed by the lemmas that use it (`ConsumeOnce`, `TareAsWritten`) |
| Acquisition.ReadValue | src/HX711.cpp:282-289 | `ReadValue` returns the stored result and leaves `isDataReady` false; nothing else changes |
| Acquisition.Truncate | src/HX711.cpp:334 | the float-to-`long` conversion drops the fraction toward zero |
| Acquisition.ToLong | src/HX711.cpp:334 | a count result converts to itself. A units result converts to its truncated quotient, is undefined for a zero scale, and for a non-zero scale succeeds exactly when that quotient fits a `long` |
| Acquisition.WaitReady | src/HX711.cpp:332 | the busy-wait ends only with `DataReady` set, having used no more readings than supplied, and ends at once if `DataReady` was already set; unless a call faults, gain, offset, scale, mode and `nbInitialSamples` are unchanged |
| Acquisition.StoreOffset | src/HX711.cpp:333-334 | the end of `tare` succeeds exactly when the result converts to a `long`; it then consumes the result, so nothing is left ready, stores the conversion as the offset, and changes nothing else |
| Acquisition.Tare | src/HX711.cpp:324-335 | when `tare` returns it has used no more readings than supplied, nothing is left ready, gain and scale are unchanged, and GET_AVERAGE over `times` samples is selected |
| AcquisitionProperties.SumBound | src/HX711.cpp:212 | the exact sum of n decoded samples is at most n·2^23 in magnitude |
| AcquisitionProperties.SumFitsLong | src/HX711.cpp:212 | the exact sum of at most 255 samples fits in a `long` |
| AcquisitionProperties.CountedStep | src/HX711.cpp:212-214 | counting the first sample and then the rest gives the same state as counting all of them at once |
| AcquisitionProperties.RunCounting | src/HX711.cpp:212-214 | with fewer calls than samples remaining, the run only adds the samples (modulo 2^32) and lowers the count by the number of calls; no callback runs |
| AcquisitionProperties.RunCompletes | src/HX711.cpp:212-230 | with exactly as many calls as samples remaining, the run ends in a single finalization over the accumulated sum |
| AcquisitionProperties.NotReadyBefore | src/HX711.cpp:214-227 | after a start with N samples, each of the first k < N calls leaves `DataReady` false, the device powered, the count at N−k, and no callback invoked |
| AcquisitionProperties.CompletesAfterN | src/HX711.cpp:212-230 | the N-th call of a fresh acquisition finalizes on the exact, unreduced sum of the N samples |
| AcquisitionProperties.ValueAcquisition | src/HX711.cpp:220-221 | `get_value` then N calls gives `sum / N − OFFSET` (C division), delivered once to the callback iff one is set. The result is undefined when the subtraction overflows |
| AcquisitionProperties.UnitsAcquisition | src/HX711.cpp:223-224 | `get_units` then N calls gives `(sum / N − OFFSET) / SCALE` |
| AcquisitionProperties.AverageAcquisition | src/HX711.cpp:217-218 | `read_average` then N calls divides the sum by the stale `nbInitialSamples`, and is undefined when that count is 0 |
| AcquisitionProperties.ZeroSamples | src/HX711.cpp:214-218 | `get_value(cb, 0)` runs the first 255 calls without fault and faults with a division by zero on the 256th, because the byte count wraps to 255 and `nbInitialSamples` is 0 |
| AcquisitionProperties.SingleSample | src/HX711.cpp:229 | a one-sample `get_value` with a callback notifies exactly once, with the decoded sample minus the offset |
| AcquisitionProperties.ConsumeOnce | src/HX711.cpp:286-289 | when the offset subtraction fits a `long`, a `get_value` acquisition completes; then `isDataReady` is true and `ReadValue` returns the finalized result and clears it; a second `ReadValue` returns the same stale value |
| AcquisitionProperties.WaitCompletes | src/HX711.cpp:332 | the busy-wait returns after exactly the remaining number of calls, on the finalized state |
| AcquisitionProperties.WaitLastCall | src/HX711.cpp:332 | when one sample remains, the wait returns after that one call |
| AcquisitionProperties.WaitBlocks | src/HX711.cpp:332 | while fewer readings than remaining samples have arrived, the wait is still polling |
| AcquisitionProperties.TareAsWritten | src/HX711.cpp:324-335 | with no unread result, `tare(N)` uses N readings and stores `(old sum + new samples) / N` as the offset; no result is left ready and the converter is powered down |
| AcquisitionProperties.TareWithUnreadResult | src/HX711.cpp:324-335 | with an unread result, `tare` returns without any reading and stores that stale result as the offset, leaving the new acquisition running |
| AcquisitionProperties.TareBlocks | src/HX711.cpp:332 | `tare` does not return while fewer readings than requested have arrived |
| Findings.ReadAverageUsesStaleCount | src/HX711.cpp:291-300 | after a 2-sample acquisition, `read_average(cb, 4)` on four readings of 100 reports 200, whereas their mean is 100 |
| Findings.StartAverageCorrected | src/HX711.cpp:291-300 | the corrected `read_average` also sets `nbInitialSamples` to `times` |
| Findings.AverageCorrected | src/HX711.cpp:216-218 | the corrected `read_average` then N calls reports the C-truncated mean of the N readings |
| Findings.ValueIsAverageMinusOffset | src/HX711.cpp:220-221 | on the same readings, the GET_VALUE result equals the corrected GET_AVERAGE result minus the offset |
| Findings.TareKeepsOldSum | src/HX711.cpp:324-330 | when an earlier acquisition left `sum` = 100, `tare(1)` on one reading of 100 sets the offset to 200 |
| Findings.TareTakesUnreadResult | src/HX711.cpp:324-335 | when an unread result of 7 is pending, `tare(4)` sets the offset to 7 without taking any reading |
| Findings.TareStartCorrected | src/HX711.cpp:324-330 | the corrected `tare` set-up also clears `sum` and `DataReady` |
| Findings.TareCorrectedOffset | src/HX711.cpp:324-335 | the corrected `tare(N)`, from any state, uses exactly N readings and stores their C-truncated mean as the offset |
| Findings.TareConstant | src/HX711.cpp:324-335 | with every reading equal to k, the corrected `tare` sets the offset to exactly k |

## Left out

- GPIO writes and reads, `delayMicroseconds` and `shiftIn` are not modelled. The data-line levels arrive as inputs to `ShiftInSlow`, and the handler's three bytes arrive as a `Triple`. The power-down/power-up pin toggling is a boolean `poweredUp`.
- The gain-select pulse train after the 24 data bits (lines 173-182) is clock-pin I/O. Only the stored pulse count `GAIN` is modelled.
- `attachInterrupt`/`detachInterrupt`, `ATOMIC_BLOCK`, the FreeRTOS critical section and `noInterrupts()` are not modelled. Each handler call is one atomic `Step`, and the caller decides when handler calls happen. Re-arming at line 196 is compiled only when `HAS_ATOMIC_BLOCK` is not defined (line 28 defines it for AVR and Teensy) and the target is not ESP32; the model does not track whether the handler is armed.
- `tare`'s `delay(10)` polling is not modelled as time. The wait is "make one handler call per supplied reading until `DataReady`". If the readings run out first, the result is `Waiting`.
- Acquisition.Measurement: `float` storage of `result` is modelled as an exact `long`. A float holds that exactly only within 2^24. A true mean of 24-bit samples stays inside, but three paths can leave it, where the hardware would round and the model does not: a large `GET_VALUE` difference; `read_average` dividing by a stale count (`AverageAcquisition`, e.g. count 1 and 255 readings near 2^23 give about 2^31); and `tare` folding a leftover `sum` into its mean (`TareAsWritten`). The exact values those two lemmas state are the code's integer results before the float store.
- Acquisition.ToLong: the GET_UNITS result is kept as the exact quotient `counts / scale`, not as a rounded float. Converting it to a `long` truncates the exact quotient, so float rounding is not modelled.
- Pin numbers, `pinMode`, the debug print macros, the `led` pin and the commented-out `is_ready`/`wait_ready*` code are not modelled.
- The global `PrivateSelf` pointer is not modelled; a single device state is.
- Calls to a start operation while an acquisition is in flight are not modelled as interleavings. Any start can be applied to any state, and the lemmas say what follows.

## Findings

| source | as written | input that shows it | evidently intended | confidence | as-written member | corrected member |
|---|---|---|---|---|---|---|
| src/HX711.cpp:291-300 | `read_average` never sets `nbInitialSamples`, so the mean is divided by an earlier acquisition's count, or by zero on a fresh device | after a 2-sample `get_value`, `read_average(cb, 4)` with four readings of 100 reports 200 | `nbInitialSamples = times`, as `get_value` and `get_units` do | high; not executed | Findings.ReadAverageUsesStaleCount | Findings.AverageCorrected |
| src/HX711.cpp:324-330 | `tare` does not reset `sum`, so the previous acquisition's sum is added into the new offset | `sum` = 100 left over, then `tare(1)` with one reading of 100 gives offset 200 | `sum = 0` before sampling | high; not executed | Findings.TareKeepsOldSum | Findings.TareCorrectedOffset |
| src/HX711.cpp:324-335 | `tare` does not clear `DataReady`, so an unread earlier result ends the wait at once and becomes the offset | an unread result of 7, then `tare(4)`, gives offset 7 with no reading taken | `DataReady = false` before waiting | high; not executed | Findings.TareTakesUnreadResult | Findings.TareConstant |
