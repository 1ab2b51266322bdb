# Sensor controller signal engine, in Dafny

This project models the signal engine of `controller/controller.c`, a
controller that reads multiplexed sensor frames from a serial link, normalises
each reading against per-sensor calibration bounds, turns it into an output
value and sends the outputs over OSC. It also has a calibration mode that
derives the bounds from repeated sampling. The model covers these parts:

- **Configuration vocabulary** (`vocabulary.dfy`): the names of the mapping
  curves and output types, and how many parameters ("opts") each type takes.
- **Serial frame** (`frame.dfy`): the gate on a read of `2*in_n+1` bytes
  starting with sync byte `0xC7`, and the big-endian 16-bit reading of each
  sensor. It includes a decode/encode round trip.
- **Mapping and transforms** (`mapping.dfy`): `process_map` (clamping, then
  a linear, exp or log curve) and `process_out` (continuous, discrete,
  threshold and differential).
- **Configuration records** (`config.dfy`): the output settings and sensor
  bounds, the checks applied to output entries, and the pair checks of
  `calib_parse`.
- **Calibration engine** (`calibration.dfy`):
  - `calibration_get_mean`, both as a function and as the original loop.
  - A recursive specification of `calibration_loop` over a finite sequence of
    read outcomes.
- **Process context** (`controller.dfy`): a class `Controller` holding the
  arrays of `PCtx`. Its methods are:
  - `process_and_send`;
  - one iteration of `main_loop`;
  - `calibration_loop`, as nested loops proved equal to its specification;
  - loading calibration pairs.

Doubles are modelled as `real`, and bytes as integers 0..255. The serial read
is modelled as a sequence of outcomes: a short read, or a full buffer of
bytes. The maths library's `exp` and `ln` are passed in as function values
(`Mapping.Curves`). Every lemma about them states the properties of `exp` or
`ln` that it needs.

Some facts about the code that the model keeps:

- An accepted calibration window stores its truncated mean
  (controller/controller.c:512, :519).
- The error cap of a calibration attempt counts every bad read of that
  attempt, consecutive or not (:557, :566, :569).
- Sensor bounds need not satisfy `min <= max`. The calibration pass stores
  `max` first and `min` second, each from its own window (:579-582).
- A calibration document may hold more pairs than there are sensors
  (:352).

## Model

| member | source | states |
|---|---|---|
| Vocabulary.MappingFromString | controller/controller.c:104-115 | a valid mapping is returned only for its own name; NULL and any other string give the invalid mapping |
| Vocabulary.MappingNameRoundTrip | controller/controller.c:104-115 | "linear", "exp" and "log" are recognised as their mappings |
| Vocabulary.TypeFromString | controller/controller.c:117-130 | a valid output type is returned only for its own name; NULL and any other string give the invalid type |
| Vocabulary.TypeNameRoundTrip | controller/controller.c:117-130 | "continuous", "discrete", "threshold" and "differential" are recognised as their types |
| Vocabulary.CheckNOpts | controller/controller.c:132-143 | accepted exactly when continuous has 2 opts, discrete at least 1, threshold 1 or differential 1; the invalid type is always rejected |
| Vocabulary.CheckedOptsReadable | controller/controller.c:132-143 | an accepted opts count covers every opt the transform reads |
| Frame.Gate | controller/controller.c:466-475 | a read is a frame iff it returned exactly `2*in_n+1` bytes and byte 0 is 0xC7; the same length with another first byte is a desync; anything else is a timeout |
| Frame.Decode | controller/controller.c:431-432 | every sensor's reading splits into its high byte 2i+1 and low byte 2i+2 of the frame |
| Frame.ReadingSignedChar | controller/controller.c:432 | with signed `char` bytes, the low byte survives; the high byte drops by one when the low byte is 0x80 or more |
| Frame.Reading | controller/controller.c:432 | sensor i's reading has byte 2i+1 as its high byte and byte 2i+2 as its low byte, both unsigned |
| Frame.DecodeEncode | controller/controller.c:432 | a frame built from readings passes the gate and its big-endian pairs decode back to the readings |
| Frame.EncodeDecode | controller/controller.c:432 | every frame that passes the gate is the encoding of its decoded readings |
| Frame.ReadingSignedCharAgrees | controller/controller.c:432 | reading bytes as signed `char` gives the unsigned reading iff the low byte is below 0x80 |
| Frame.ReadingSignedCharCounterexample | controller/controller.c:560 | frame C7 00 80 carries 128, but the signed reading is 65408 |
| Mapping.ProcessMap | controller/controller.c:375-397 | a reading below `min` gives 0 and one above `max` gives 1, before any curve; linear results lie in [0, 1]; an unknown mapping gives 0 or 1 |
| Mapping.LinearEndpoints | controller/controller.c:387-388 | with `min < max`, linear gives 0 at `min` and 1 at `max` |
| Mapping.LinearMonotone | controller/controller.c:378-388 | with `min < max`, linear is non-decreasing over all readings, clamped ones included |
| Mapping.ExpEndpoints | controller/controller.c:389-390 | given exp(0) = 1, exp gives 0 at `min` and 1 at `max` |
| Mapping.ExpInUnit | controller/controller.c:389-390 | for a monotone exp with e > 1, an unclamped exp value lies in [0, 1] |
| Mapping.ExpMonotone | controller/controller.c:378-390 | for a monotone exp with e > 1, the exp mapping is non-decreasing over all readings |
| Mapping.LogEndpoints | controller/controller.c:391-392 | log gives 1 at `max`, and 0 at `min` given ln(1) = 0 |
| Mapping.LogInUnit | controller/controller.c:391-392 | for a monotone ln with ln(max/min) > 0, an unclamped log value lies in [0, 1] |
| Mapping.LogMonotone | controller/controller.c:378-392 | for a monotone ln with ln(max/min) > 0, the log mapping is non-decreasing over all readings |
| Mapping.DiscreteIndexAsWritten | controller/controller.c:406 | the written index is the floor of `input*K`: at most `input*K` and within 1 of it |
| Mapping.DiscreteIndexOnePastEnd | controller/controller.c:406 | the written bin index `floor(input*K)` equals K at input 1.0 |
| Mapping.DiscreteOverflowReachable | controller/controller.c:406 | a linear mapping at its `max` bound produces that out-of-range index |
| Mapping.DiscreteIndex | controller/controller.c:406 | the clamped index is always below K, agrees with `floor(input*K)` on [0, 1), and is K-1 from 1.0 up |
| Mapping.ProcessOut | controller/controller.c:399-421 | discrete returns one of its opts: the bin `floor(input*K)` on [0, 1), the last opt from 1.0 up and the first below 0; threshold is 1 iff input >= opts[0], else 0; differential is 1 iff the jump exceeds 1 - opts[0], else 0; the invalid type gives 0 |
| Mapping.ContinuousEndpoints | controller/controller.c:403-404 | continuous maps 0 to opts[0] and 1 to opts[1] |
| Mapping.ContinuousInRange | controller/controller.c:403-404 | continuous maps [0, 1] between opts[0] and opts[1] |
| Mapping.ContinuousAffine | controller/controller.c:403-404 | continuous preserves weighted means of its inputs |
| Mapping.DifferentialSymmetric | controller/controller.c:412-416 | differential output is symmetric in the current and previous value |
| Config.ParseOutput | controller/controller.c:280-309 | an entry is accepted iff its source input is in [0, in_n-1], its mapping and type names are known and its opts count suits the type; an accepted entry is well formed with the given fields; a source input outside [0, in_n-1] is the first error, then an unknown mapping or type |
| Config.PairError | controller/controller.c:358-366 | a pair passes iff 0 <= min <= max; a failure names the pair's index |
| Config.FirstPairError | controller/controller.c:356-370 | None iff every remaining pair passes; otherwise the error of the first failing pair, all pairs before it passing |
| Config.CheckPairs | controller/controller.c:351-366 | a calibration document is accepted iff it has at least in_n pairs and every pair passes; too few pairs is reported first |
| Config.ToBound | controller/controller.c:367-368 | a stored pair keeps its values when they fit 16 bits |
| Config.StoredPairOrdered | controller/controller.c:358-368 | a checked pair that fits 16 bits is stored with min <= max |
| Config.StoredPairTruncated | controller/controller.c:367-368 | the checked pair (1, 65536) is stored as min 1, max 0 |
| Calibration.MinOf | controller/controller.c:502-507 | the smallest sample is a lower bound attained by some sample; 0xFFFFFFFF when empty |
| Calibration.MaxOf | controller/controller.c:502-509 | the largest sample is an upper bound attained by some sample; 0 when empty |
| Calibration.MeanBetween | controller/controller.c:510-512 | the truncated mean of 256 samples lies between the smallest and largest sample, so it fits 16 bits |
| Calibration.ExtremesDecide | controller/controller.c:515-517 | checking the extremes against the mean decides the 10% check for every sample |
| Calibration.MeanCheck | controller/controller.c:499-521 | a window is accepted iff every sample is within 10% of the truncated mean; the accepted value is that mean, between the extremes |
| Calibration.GetMean | controller/controller.c:499-521 | the one-pass loop over the samples returns exactly MeanCheck's verdict |
| Calibration.IdenticalSamplesAccepted | controller/controller.c:499-521 | 256 equal samples v are accepted with value v |
| Calibration.OutlierRejected | controller/controller.c:515-517 | one sample more than about 10% above the other 255 equal samples is rejected |
| Calibration.Collect | controller/controller.c:549-571 | a completed attempt holds 256 samples and used at least as many reads |
| Calibration.CollectStep | controller/controller.c:551-571 | proof helper: one read step of `Collect` unfolded (a good frame adds its sensor's reading, a bad read adds an error, the 11th error is a link failure); the property claims rest on CollectTakesSensorReadings |
| Calibration.CollectTakesSensorReadings | controller/controller.c:549-571 | a completed attempt holds exactly sensor i's readings from the good frames it consumed, with at most 10 bad reads |
| Calibration.CollectSteady | controller/controller.c:551-571 | over good frames with a steady reading v, an attempt takes exactly the frames it needs, all v |
| Calibration.SetBound | controller/controller.c:579-582 | an accepted mean becomes sensor i's max on the first pass and its min on the second, and no other sensor changes |
| Calibration.Run | controller/controller.c:535-587 | the recursive specification of the calibration loop at sensor i, bound j; the bounds it returns keep one entry per sensor (its properties are the lemmas below) |
| Calibration.AfterAttempt | controller/controller.c:572-584 | what follows one attempt: a link failure is Fatal, running out of reads is Exhausted, a rejected window retries bound j, an accepted one writes it and moves to j+1; one entry per sensor is kept |
| Calibration.RunStep | controller/controller.c:535-551 | proof helper: one step of `Run` unfolded (complete after the last sensor, next sensor after both bounds, otherwise a fresh attempt with 0 samples and 0 errors); the property claims rest on RunKeepsFinished and RunIgnoresUnwritten |
| Calibration.RunKeepsFinished | controller/controller.c:535-587 | sensors already finished are never written again, nor the max of the sensor whose min is being taken |
| Calibration.RunIgnoresUnwritten | controller/controller.c:535-587 | the outcome does not depend on bounds not yet written |
| Calibration.AttemptIgnoresUnwritten | controller/controller.c:572-584 | what follows an attempt does not depend on bounds not yet written |
| Calibration.CalibrationWritesEveryBound | controller/controller.c:535-587 | a completed calibration returns the same bounds whatever they held before: every sensor's min and max was written |
| Calibration.SteadySensorCalibrates | controller/controller.c:549-584 | 256 good frames with steady reading v settle the current bound to v and advance to the next bound |
| Engine.OutputStepLocal | controller/controller.c:431-442 | an output's step depends on the frame only through its own sensor's reading |
| Engine.LinearOutputMonotone | controller/controller.c:431-442 | a linear threshold output is monotone in its sensor's reading |
| Engine.ContinuousScenario | controller/controller.c:431-442 | frame C7 01 00 with bounds [0, 1023], linear, continuous over [0, 10] gives 2560/1023 |
| Engine.DiscreteScenario | controller/controller.c:431-442 | a reading at the bound 1023 with four discrete bins selects the last bin |
| Engine.Controller.constructor | controller/controller.c:265-272 | the processing arrays start at zero, one entry per output |
| Engine.Controller.ReadyFramesDefined | controller/controller.c:375-397 | when every output's bounds suit its mapping (max < min, or a curve that divides by non-zero values), every frame can be processed |
| Engine.Controller.ProcessAndSend | controller/controller.c:423-455 | for every output whose reading the mapping is defined on, the previous normalised value is saved and the new normalised and output values are computed from its sensor's reading; the sink receives exactly the `out_n` outputs |
| Engine.Controller.MainLoopStep | controller/controller.c:457-476 | the read is classified by the gate; a timeout or desync changes nothing and sends nothing; a frame is processed and its outputs sent |
| Engine.Controller.TakeSamples | controller/controller.c:549-571 | the sampling loop ends as the attempt specification does: 256 samples, a link failure, or reads exhausted |
| Engine.Controller.CalibrationLoop | controller/controller.c:523-593 | the nested loops end with the status and bounds of the calibration specification run from the start |
| Engine.Controller.LoadCalibration | controller/controller.c:351-370 | the error is CheckPairs' verdict; on success every sensor's bounds are its pair; after a bad pair, exactly the sensors before it were written |

## Left out

- Serial port set-up, `sp_blocking_read` and the `check` wrapper are I/O. A read is modelled as a given outcome, and the calibration loop reads a finite sequence of outcomes. Running out of reads ends calibration with an extra `Exhausted` status that the program does not have, since its reads never run out.
- `main_loop` never terminates. It is modelled as one iteration (`MainLoopStep`); the timeout and desync log messages are left out.
- Engine.Controller.ProcessAndSend: requires that every output's mapping is defined on its sensor's reading in the frame (the reading is clamped, or the curve divides by non-zero values). `MainLoopStep` requires the same of every frame that passes the gate. Frames where the code divides by zero and produces NaN or infinity are not modelled.
- The OSC sink (`lo_send`) is network I/O. The model hands the sink exactly the `out_n` output values. The code always sends eight values, reading past `output` when there are fewer than eight outputs.
- The values sent are doubles in the model; the code narrows them to single precision.
- IEEE double rounding, NaN and infinities are not modelled. `ProcessMap` requires that the curve formula divides by non-zero values, or that the reading is clamped. The 1.10 and 0.90 factors of the consistency check are compared exactly, as `mean*110 >= max*100` and `mean*90 <= min*100`.
- `exp` and `ln` are not defined in the model. They are passed in, and the exp and log lemmas assume only their monotonicity, exp(0) = 1, e > 1, ln(1) = 0 and ln(max/min) > 0.
- Configuration and calibration files are not read or written here: `config_parse`, the cJSON walk of `calib_parse` and `calibration_save_to_file` are file I/O and a foreign parser. Only their value checks are modelled, over given values and integer pairs.
- Engine.Controller.LoadCalibration: stores only the pairs of configured sensors; the code writes `in_ctx[i]` for every pair, past the end of the array when the document has more pairs than sensors.
- Config.PairError: the code's check of `max` tests whether `min` is a number (line 363). Over integer pairs this cannot matter, so it is not reproduced.
- `in_ctx` is allocated without initialisation; the model starts the bounds at (0, 0).
- Sensor labels, log output, `sleep(3)`, the operator prompts, command-line parsing in `main`, and the unused `b2f` helper are left out.

## Findings

| source | as written | input that shows it | evidently intended | confidence | as-written member | corrected member |
|---|---|---|---|---|---|---|
| controller/controller.c:432 | the reading is built from a plain `char` buffer; where `char` is signed, a low byte of 0x80 or more is sign-extended | frame C7 00 80 (reading 128) gives 65408 | bytes read as unsigned, `buf[2i+1]*256 + buf[2i+2]` | not executed; depends on the platform's `char` signedness | Frame.ReadingSignedCharCounterexample | Frame.Reading |
| controller/controller.c:406 | the discrete bin index `floor(input*K)` is used unchecked | normalised value 1.0, e.g. a linear reading equal to `max`, gives index K, one past the last opt | clamp the index to K-1; the corrected index also sends a negative value (which `process_map` never produces for the linear curve) to bin 0, where the code casts a negative floor to `size_t` | not executed | Mapping.DiscreteIndexOnePastEnd | Mapping.DiscreteIndex |
