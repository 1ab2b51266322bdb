/** The process context of the controller (PCtx) and the loops that drive
    it: the per-frame update of the run loop, one iteration of the run
    loop, the calibration loop, and the loading of calibration pairs. The
    serial port, the OSC sink and the JSON files are replaced by the values
    they would deliver. */
module Engine {
  import opened Wrappers
  import opened Vocabulary
  import opened Frame
  import opened Mapping
  import opened Config
  import opened Calibration

  /** One output's step on a frame: its new normalised value, and its output
      value computed from it and the previous normalised value `prev`. */
  function OutputStep(o: OutCtx, b: Bound, buf: seq<Byte>, prev: real, c: Curves): (real, real)
    requires 2 * o.fromInput + 2 < |buf| && OptsReadable(o.kind, |o.opts|)
    requires MapDefined(Reading(buf, o.fromInput), b.min, b.max, o.mapping, c)
  {
    var mapped := ProcessMap(Reading(buf, o.fromInput), b.min, b.max, o.mapping, c);
    (mapped, ProcessOut(mapped, o.kind, o.opts, prev))
  }

  /** An output's step reads nothing of the frame but its own sensor's
      reading. */
  lemma OutputStepLocal(o: OutCtx, b: Bound, buf1: seq<Byte>, buf2: seq<Byte>, prev: real, c: Curves)
    requires 2 * o.fromInput + 2 < |buf1| && 2 * o.fromInput + 2 < |buf2|
    requires OptsReadable(o.kind, |o.opts|)
    requires MapDefined(Reading(buf1, o.fromInput), b.min, b.max, o.mapping, c)
    requires Reading(buf1, o.fromInput) == Reading(buf2, o.fromInput)
    ensures OutputStep(o, b, buf1, prev, c) == OutputStep(o, b, buf2, prev, c)
  {
  }

  /** A linear output with bounds `min < max` behaves as a monotone function
      of its own sensor's reading. */
  lemma LinearOutputMonotone(o: OutCtx, b: Bound, buf1: seq<Byte>, buf2: seq<Byte>, prev: real, c: Curves)
    requires 2 * o.fromInput + 2 < |buf1| && 2 * o.fromInput + 2 < |buf2|
    requires o.mapping == Linear && o.kind == Threshold && |o.opts| == 1 && b.min < b.max
    requires Reading(buf1, o.fromInput) <= Reading(buf2, o.fromInput)
    ensures OutputStep(o, b, buf1, prev, c).1 <= OutputStep(o, b, buf2, prev, c).1
  {
    LinearMonotone(Reading(buf1, o.fromInput), Reading(buf2, o.fromInput), b.min, b.max, c);
  }

  /** A frame C7 01 00 (reading 256) with bounds [0, 1023], a linear curve
      and a continuous transform over [0, 10] gives 2560/1023, about 2.5. */
  lemma ContinuousScenario(c: Curves)
    ensures OutputStep(OutCtx(0, Linear, Continuous, [0.0, 10.0]), Bound(0, 1023), [0xC7, 0x01, 0x00], 0.0, c).1
            == 2560.0 / 1023.0
  {
    assert Reading([0xC7, 0x01, 0x00], 0) == 256;
  }

  /** The same sensor at its upper bound 1023 (normalised value 1.0) with a
      discrete transform over four bins selects the last bin, 4. */
  lemma DiscreteScenario(c: Curves)
    ensures OutputStep(OutCtx(0, Linear, Discrete, [1.0, 2.0, 3.0, 4.0]), Bound(0, 1023), [0xC7, 0x03, 0xFF], 0.0, c).1
            == 4.0
  {
    assert Reading([0xC7, 0x03, 0xFF], 0) == 1023;
    LinearEndpoints(0, 1023, c);
  }

  class Controller {
    /** in_n, the number of sensors, and out_n = |outputs|. */
    const inN: nat
    const outputs: seq<OutCtx>
    const curves: Curves

    /** in_ctx: each sensor's calibration bounds. */
    const bounds: array<Bound>

    /** map_results, last_map_results and output: per output, the current and
        previous normalised value and the current output value. */
    const mapResults: array<real>
    const lastMapResults: array<real>
    const output: array<real>

    ghost predicate Valid()
    {
      && bounds.Length == inN
      && mapResults.Length == |outputs| && lastMapResults.Length == |outputs| && output.Length == |outputs|
      && mapResults != lastMapResults && mapResults != output && lastMapResults != output
      && forall o :: o in outputs ==> WellFormedOutput(o, inN)
    }

    /** Every output's mapping is defined on its sensor's reading in frame
        `buf`: the reading is clamped, or the curve divides by non-zero
        values only. */
    ghost predicate Defined(buf: seq<Byte>)
      reads bounds
      requires Valid() && |buf| == FrameSize(inN)
    {
      forall o :: o in outputs ==>
        MapDefined(Reading(buf, o.fromInput), bounds[o.fromInput].min, bounds[o.fromInput].max, o.mapping, curves)
    }

    /** Every output's sensor has bounds its mapping is defined on. */
    ghost predicate Ready()
      reads bounds
    {
      Valid() && forall o :: o in outputs ==> Usable(bounds[o.fromInput].min, bounds[o.fromInput].max, o.mapping, curves)
    }

    /** Bounds that suit every output's mapping make every frame processable. */
    lemma ReadyFramesDefined(buf: seq<Byte>)
      requires Ready() && |buf| == FrameSize(inN)
      ensures Defined(buf)
    {
      forall o | o in outputs
        ensures MapDefined(Reading(buf, o.fromInput), bounds[o.fromInput].min, bounds[o.fromInput].max, o.mapping, curves)
      {
        UsableDefined(Reading(buf, o.fromInput), bounds[o.fromInput].min, bounds[o.fromInput].max, o.mapping, curves);
      }
    }

    /** The per-output state after a frame `buf`, given the normalised
        values `prev` from before it. */
    ghost predicate Stepped(buf: seq<Byte>, prev: seq<real>)
      reads bounds, mapResults, lastMapResults, output
      requires Valid() && |buf| == FrameSize(inN) && Defined(buf) && |prev| == |outputs|
    {
      forall out :: 0 <= out < |outputs| ==>
        var o := outputs[out];
        assert o in outputs;
        CheckedOptsReadable(|o.opts|, o.kind);
        && lastMapResults[out] == prev[out]
        && (mapResults[out], output[out]) == OutputStep(o, bounds[o.fromInput], buf, prev[out], curves)
    }

    /** The context after reading the configuration: every output is
        well formed, the processing arrays are zero-filled, and the bounds
        are still to be loaded or calibrated. */
    constructor (inN: nat, outputs: seq<OutCtx>, curves: Curves)
      requires forall o :: o in outputs ==> WellFormedOutput(o, inN)
      ensures Valid() && this.inN == inN && this.outputs == outputs && this.curves == curves
      ensures fresh(bounds) && fresh(mapResults) && fresh(lastMapResults) && fresh(output)
      ensures forall s :: 0 <= s < inN ==> bounds[s] == Bound(0, 0)
      ensures forall out :: 0 <= out < |outputs| ==>
                mapResults[out] == 0.0 && lastMapResults[out] == 0.0 && output[out] == 0.0
    {
      this.inN := inN;
      this.outputs := outputs;
      this.curves := curves;
      bounds := new Bound[inN](_ => Bound(0, 0));
      mapResults := new real[|outputs|](_ => 0.0);
      lastMapResults := new real[|outputs|](_ => 0.0);
      output := new real[|outputs|](_ => 0.0);
    }

    /** process_and_send: for each output in order, save its normalised
        value as the previous one, normalise its sensor's reading, and
        transform it; then hand exactly the `out_n` output values to the
        sink. */
    method ProcessAndSend(buf: seq<Byte>) returns (sent: seq<real>)
      requires Valid() && |buf| == FrameSize(inN) && Defined(buf)
      modifies mapResults, lastMapResults, output
      ensures Stepped(buf, old(mapResults[..]))
      ensures sent == output[..] && |sent| == |outputs|
    {
      var out := 0;
      while out < |outputs|
        invariant 0 <= out <= |outputs|
        invariant forall k :: 0 <= k < out ==>
                    var o := outputs[k];
                    && lastMapResults[k] == old(mapResults[k])
                    && o in outputs
                    && CheckNOpts(|o.opts|, o.kind)
                    && MapDefined(Reading(buf, o.fromInput), bounds[o.fromInput].min, bounds[o.fromInput].max,
                                  o.mapping, curves)
                    && (mapResults[k], output[k])
                       == OutputStep(o, bounds[o.fromInput], buf, old(mapResults[k]), curves)
        invariant forall k :: out <= k < |outputs| ==> mapResults[k] == old(mapResults[k])
      {
        var o := outputs[out];
        assert o in outputs;
        CheckedOptsReadable(|o.opts|, o.kind);
        lastMapResults[out] := mapResults[out];
        var input := Reading(buf, o.fromInput);
        var b := bounds[o.fromInput];
        mapResults[out] := ProcessMap(input, b.min, b.max, o.mapping, curves);
        output[out] := ProcessOut(mapResults[out], o.kind, o.opts, lastMapResults[out]);
        out := out + 1;
      }
      sent := output[..];
    }

    /** One iteration of main_loop: a read that returned fewer bytes than a
        frame, or a frame without the sync byte, changes nothing and sends
        nothing; a good frame is processed and its outputs are sent. */
    method MainLoopStep(r: ReadOutcome) returns (status: FrameStatus, sent: Option<seq<real>>)
      requires Valid() && (Gate(r, inN).Valid? ==> Defined(r.bytes))
      modifies mapResults, lastMapResults, output
      ensures status == Gate(r, inN)
      ensures !status.Valid? ==> sent == None && unchanged(mapResults, lastMapResults, output)
      ensures status.Valid? ==> Stepped(status.buf, old(mapResults[..])) && sent == Some(output[..])
    {
      if r.Full? && |r.bytes| == FrameSize(inN) {
        if r.bytes[0] != SYNC_BYTE {
          status, sent := Desync, None;
        } else {
          status := FrameStatus.Valid(r.bytes);
          var values := ProcessAndSend(r.bytes);
          sent := Some(values);
        }
      } else {
        status, sent := TimedOut, None;
      }
    }

    /** The sampling loop of calibration_loop for sensor `sensor`, reading
        from position `from`: fill the 256 samples from good frames,
        stopping with Exhausted when the reads run out and with Fatal on the
        11th bad read. */
    method TakeSamples(source: seq<ReadOutcome>, from: nat, sensor: nat, samples: array<U16>)
      returns (stop: Option<Status>, pos: nat)
      requires Valid() && sensor < inN && from <= |source| && samples.Length == SAMPLES
      modifies samples
      ensures stop == None || stop == Some(Fatal) || stop == Some(Exhausted)
      ensures var a := Collect(source, from, sensor, inN, [], 0);
              && (stop == None ==> a == Collected(samples[..], pos))
              && (stop == Some(Fatal) ==> a == LinkFailure)
              && (stop == Some(Exhausted) ==> a == ReadsExhausted)
    {
      pos := from;
      var k := 0;
      var errors := 0;
      assert samples[..k] == [];
      while k < SAMPLES
        invariant 0 <= k <= SAMPLES && errors <= MAX_ERRORS && from + k <= pos <= |source|
        invariant Collect(source, from, sensor, inN, [], 0) == Collect(source, pos, sensor, inN, samples[..k], errors)
        decreases |source| - pos
      {
        if pos == |source| {
          return Some(Exhausted), pos;
        }
        var r := source[pos];
        CollectStep(source, pos, sensor, inN, samples[..k], errors);
        pos := pos + 1;
        if r.Full? && |r.bytes| == FrameSize(inN) {
          if r.bytes[0] != SYNC_BYTE {
            errors := errors + 1;
          } else {
            ghost var acc := samples[..k];
            samples[k] := Reading(r.bytes, sensor);
            assert samples[..k + 1] == acc + [Reading(r.bytes, sensor)];
            k := k + 1;
          }
        } else {
          errors := errors + 1;
        }
        if errors > MAX_ERRORS {
          return Some(Fatal), pos;
        }
      }
      assert samples[..k] == samples[..];
      stop := None;
    }

    /** calibration_loop over the read outcomes `source`: for each sensor,
        first its max then its min, take 256 samples from good frames,
        abort after more than 10 bad reads in one attempt, and retry a
        window that fails the consistency check. */
    method CalibrationLoop(source: seq<ReadOutcome>) returns (status: Status)
      requires Valid()
      modifies bounds
      ensures Outcome(status, bounds[..]) == Run(source, 0, 0, 0, inN, old(bounds[..]))
    {
      ghost var spec := Run(source, 0, 0, 0, inN, bounds[..]);
      var samples := new U16[SAMPLES];
      var pos: nat := 0;
      var i: nat := 0;
      while i < inN
        invariant 0 <= i <= inN && pos <= |source| && bounds.Length == inN
        invariant spec == Run(source, pos, i, 0, inN, bounds[..])
        decreases inN - i
      {
        var j: nat := 0;
        while j < 2
          invariant 0 <= j <= 2 && pos <= |source|
          invariant spec == Run(source, pos, i, j, inN, bounds[..])
          decreases |source| - pos
        {
          RunStep(source, pos, i, j, inN, bounds[..]);
          var stop, next := TakeSamples(source, pos, i, samples);
          if stop.Some? {
            status := stop.value;
            return;
          }
          pos := next;
          var mean := GetMean(samples);
          if mean.Some? {
            ghost var before := bounds[..];
            if j == 0 {
              bounds[i] := bounds[i].(max := mean.value);
            } else {
              bounds[i] := bounds[i].(min := mean.value);
            }
            assert bounds[..] == SetBound(before, i, j, mean.value);
            j := j + 1;
          }
        }
        RunStep(source, pos, i, j, inN, bounds[..]);
        i := i + 1;
      }
      RunStep(source, pos, i, 0, inN, bounds[..]);
      status := Completed;
    }

    /** The pair checks of calib_parse over the pairs of a calibration
        document: too few pairs, or the first pair with a negative min or a
        max that is negative or below its min, is an error; the pairs of
        the configured sensors are stored as 16-bit bounds. */
    method LoadCalibration(pairs: seq<(int, int)>) returns (err: Option<CalibError>)
      requires Valid()
      modifies bounds
      ensures err == CheckPairs(pairs, inN)
      ensures err.None? ==> forall s :: 0 <= s < inN ==> bounds[s] == ToBound(pairs[s])
      ensures err == Some(TooFewPairs) ==> bounds[..] == old(bounds[..])
      ensures err.Some? && err.value != TooFewPairs ==>
                forall s :: 0 <= s < inN ==>
                  bounds[s] == if s < ErrorIndex(err.value) then ToBound(pairs[s]) else old(bounds[s])
    {
      if |pairs| < inN {
        return Some(TooFewPairs);
      }
      var i := 0;
      while i < |pairs|
        invariant 0 <= i <= |pairs|
        invariant forall k :: 0 <= k < i ==> 0 <= pairs[k].0 <= pairs[k].1
        invariant forall s :: 0 <= s < inN ==>
                    bounds[s] == if s < i then ToBound(pairs[s]) else old(bounds[s])
        invariant FirstPairError(pairs, 0) == FirstPairError(pairs, i)
      {
        var (min, max) := pairs[i];
        if min < 0 {
          return Some(BadMin(i));
        }
        if max < 0 || max < min {
          return Some(BadMax(i));
        }
        if i < inN {
          bounds[i] := ToBound(pairs[i]);
        }
        i := i + 1;
      }
      return None;
    }
  }
}
