/** The calibration engine: the consistency check on a window of 256
    samples (calibration_get_mean) and a recursive specification of the
    sampling state machine (calibration_loop) over a finite sequence of
    read outcomes. The loop itself is `Engine.Controller.CalibrationLoop`. */
module Calibration {
  import opened Wrappers
  import opened Frame
  import opened Config

  /** Samples per attempt, and the most read errors one attempt tolerates. */
  const SAMPLES: nat := 256
  const MAX_ERRORS: nat := 10

  /** The sum of the samples, accumulated from the left. */
  function Sum(s: seq<U16>): nat
  {
    if s == [] then 0 else Sum(s[..|s| - 1]) + s[|s| - 1]
  }

  /** The smallest sample; 0xFFFFFFFF for no samples, the loop's start value. */
  function MinOf(s: seq<U16>): (m: nat)
    ensures forall k :: 0 <= k < |s| ==> m <= s[k]
    ensures s != [] ==> exists k :: 0 <= k < |s| && s[k] == m
    ensures s == [] ==> m == 0xFFFF_FFFF
  {
    if s == [] then 0xFFFF_FFFF
    else
      var m := MinOf(s[..|s| - 1]);
      assert forall k :: 0 <= k < |s| - 1 ==> s[..|s| - 1][k] == s[k];
      if s[|s| - 1] < m then s[|s| - 1] else m
  }

  /** The largest sample; 0 for no samples, the loop's start value. */
  function MaxOf(s: seq<U16>): (m: nat)
    ensures forall k :: 0 <= k < |s| ==> s[k] <= m
    ensures s != [] ==> exists k :: 0 <= k < |s| && s[k] == m
    ensures s == [] ==> m == 0
  {
    if s == [] then 0
    else
      var m := MaxOf(s[..|s| - 1]);
      assert forall k :: 0 <= k < |s| - 1 ==> s[..|s| - 1][k] == s[k];
      if s[|s| - 1] > m then s[|s| - 1] else m
  }

  lemma {:induction false} SumBelow(s: seq<U16>, hi: int)
    requires forall k :: 0 <= k < |s| ==> s[k] <= hi
    ensures Sum(s) <= |s| * hi
  {
    if s != [] {
      assert forall k :: 0 <= k < |s| - 1 ==> s[..|s| - 1][k] == s[k];
      SumBelow(s[..|s| - 1], hi);
    }
  }

  lemma {:induction false} SumAbove(s: seq<U16>, lo: int)
    requires forall k :: 0 <= k < |s| ==> lo <= s[k]
    ensures |s| * lo <= Sum(s)
  {
    if s != [] {
      assert forall k :: 0 <= k < |s| - 1 ==> s[..|s| - 1][k] == s[k];
      SumAbove(s[..|s| - 1], lo);
    }
  }

  /** The truncated mean lies between the smallest and the largest sample,
      so it always fits 16 bits. */
  lemma MeanBetween(s: seq<U16>)
    requires |s| == SAMPLES
    ensures MinOf(s) <= Sum(s) / SAMPLES <= MaxOf(s) < 0x1_0000
  {
    SumBelow(s, MaxOf(s));
    SumAbove(s, MinOf(s));
  }

  /** Every sample lies within 10% of `mean`, in exact arithmetic. */
  predicate WithinTenPercent(s: seq<U16>, mean: int)
  {
    forall k :: 0 <= k < |s| ==> (s[k] as int) * 100 <= mean * 110 && mean * 90 <= (s[k] as int) * 100
  }

  /** Checking the extreme samples decides the check for every sample. */
  lemma ExtremesDecide(s: seq<U16>, mean: int)
    requires s != []
    ensures WithinTenPercent(s, mean) <==> MaxOf(s) * 100 <= mean * 110 && mean * 90 <= MinOf(s) * 100
  {
    var maxK :| 0 <= maxK < |s| && s[maxK] == MaxOf(s);
    var minK :| 0 <= minK < |s| && s[minK] == MinOf(s);
  }

  /** calibration_get_mean as a function: the truncated mean of the window
      when the largest sample is at most 110% of it and the smallest at
      least 90% of it, and None (nothing written) otherwise. */
  function MeanCheck(s: seq<U16>): (r: Option<U16>)
    requires |s| == SAMPLES
    ensures r.Some? <==> WithinTenPercent(s, Sum(s) / SAMPLES)
    ensures r.Some? ==> r.value == Sum(s) / SAMPLES
    ensures r.Some? ==> MinOf(s) <= r.value <= MaxOf(s)
  {
    var mean := Sum(s) / SAMPLES;
    MeanBetween(s);
    ExtremesDecide(s, mean);
    if mean * 110 < MaxOf(s) * 100 || mean * 90 > MinOf(s) * 100 then None
    else Some(mean)
  }

  /** calibration_get_mean: one pass over the 256 samples accumulates their
      sum, smallest and largest value; the window is accepted when the
      extremes lie within 10% of the truncated mean. */
  method GetMean(samples: array<U16>) returns (r: Option<U16>)
    requires samples.Length == SAMPLES
    ensures r == MeanCheck(samples[..])
  {
    var mean: nat := 0;
    var max: nat := 0;
    var min: nat := 0xFFFF_FFFF;
    var i := 0;
    while i < SAMPLES
      invariant 0 <= i <= SAMPLES
      invariant mean == Sum(samples[..i])
      invariant min == MinOf(samples[..i]) && max == MaxOf(samples[..i])
    {
      assert samples[..i + 1][..i] == samples[..i];
      if samples[i] < min {
        min := samples[i];
      }
      if samples[i] > max {
        max := samples[i];
      }
      mean := mean + samples[i];
      i := i + 1;
    }
    assert samples[..i] == samples[..];
    mean := mean / SAMPLES;
    if mean * 110 < max * 100 || mean * 90 > min * 100 {
      return None;
    }
    MeanBetween(samples[..]);
    return Some(mean);
  }

  function Repeat(v: U16, n: nat): (s: seq<U16>)
    ensures |s| == n && forall k :: 0 <= k < n ==> s[k] == v
  {
    seq(n, _ => v)
  }

  lemma {:induction false} SumRepeat(v: U16, n: nat)
    ensures Sum(Repeat(v, n)) == n * v
  {
    if n > 0 {
      assert Repeat(v, n)[..n - 1] == Repeat(v, n - 1);
      SumRepeat(v, n - 1);
    }
  }

  /** A window of identical samples is accepted, and its value recorded. */
  lemma IdenticalSamplesAccepted(v: U16)
    ensures MeanCheck(Repeat(v, SAMPLES)) == Some(v)
  {
    SumRepeat(v, SAMPLES);
  }

  lemma {:induction false} SumUpdate(s: seq<U16>, p: nat, w: U16)
    requires p < |s|
    ensures Sum(s[p := w]) + s[p] == Sum(s) + w
  {
    var t := s[p := w];
    if p == |s| - 1 {
      assert t[..|t| - 1] == s[..|s| - 1];
    } else {
      assert t[..|t| - 1] == s[..|s| - 1][p := w];
      SumUpdate(s[..|s| - 1], p, w);
    }
  }

  /** One outlier in an otherwise steady window is rejected once it exceeds
      the steady value by a little over 10% (w * 25490 > v * 28050); a
      reading 20% above the others always does. */
  lemma OutlierRejected(v: U16, w: U16, p: nat)
    requires p < SAMPLES && (w as int) * 25490 > (v as int) * 28050
    ensures MeanCheck(Repeat(v, SAMPLES)[p := w]) == None
  {
    var s := Repeat(v, SAMPLES)[p := w];
    SumRepeat(v, SAMPLES);
    SumUpdate(Repeat(v, SAMPLES), p, w);
    var mean := Sum(s) / SAMPLES;
    assert Sum(s) == 255 * v + w;
    assert mean * 256 <= 255 * v + w;
    assert s[p] == w;
  }

  // ---------------------------------------------------------------------
  // The sampling state machine

  /** How one sampling attempt ended: more than MAX_ERRORS bad reads (the
      program dies), the read sequence ran out, or 256 samples were taken
      and the next unread position is `next`. */
  datatype Attempt = LinkFailure | ReadsExhausted | Collected(samples: seq<U16>, next: nat)

  /** The readings of sensor `sensor` in the frames of `rs` that pass the
      gate, in order; bad reads contribute nothing. */
  function SensorReadings(rs: seq<ReadOutcome>, sensor: nat, inN: nat): seq<U16>
    requires sensor < inN
  {
    if rs == [] then []
    else
      var head := match Gate(rs[0], inN)
                  case Valid(buf) => [Reading(buf, sensor)]
                  case _ => [];
      head + SensorReadings(rs[1..], sensor, inN)
  }

  /** The inner sampling loop from position `pos`, with the samples `acc`
      and `errors` bad reads of this attempt so far. */
  function Collect(source: seq<ReadOutcome>, pos: nat, sensor: nat, inN: nat, acc: seq<U16>, errors: nat)
    : (a: Attempt)
    requires sensor < inN && pos <= |source| && |acc| <= SAMPLES && errors <= MAX_ERRORS
    ensures a.Collected? ==> |a.samples| == SAMPLES && pos + (SAMPLES - |acc|) <= a.next <= |source|
    decreases |source| - pos
  {
    if |acc| == SAMPLES then Collected(acc, pos)
    else if pos == |source| then ReadsExhausted
    else
      match Gate(source[pos], inN)
      case Valid(buf) => Collect(source, pos + 1, sensor, inN, acc + [Reading(buf, sensor)], errors)
      case _ =>
        if errors + 1 > MAX_ERRORS then LinkFailure
        else Collect(source, pos + 1, sensor, inN, acc, errors + 1)
  }

  /** A completed attempt holds exactly sensor `sensor`'s readings from the
      good frames it consumed, and it consumed at most as many bad reads as
      the attempt had left to tolerate. */
  lemma {:induction false} CollectTakesSensorReadings(source: seq<ReadOutcome>, pos: nat, sensor: nat, inN: nat,
                                                      acc: seq<U16>, errors: nat)
    requires sensor < inN && pos <= |source| && |acc| <= SAMPLES && errors <= MAX_ERRORS
    ensures var a := Collect(source, pos, sensor, inN, acc, errors);
            a.Collected? ==>
              && a.samples == acc + SensorReadings(source[pos..a.next], sensor, inN)
              && a.next - pos - (SAMPLES - |acc|) <= MAX_ERRORS - errors
    decreases |source| - pos
  {
    var a := Collect(source, pos, sensor, inN, acc, errors);
    if |acc| == SAMPLES {
      assert source[pos..pos] == [];
    } else if pos < |source| && a.Collected? {
      var rest := source[pos..a.next];
      assert rest[0] == source[pos] && rest[1..] == source[pos + 1..a.next];
      CollectStep(source, pos, sensor, inN, acc, errors);
      var g := Gate(source[pos], inN);
      if g.Valid? {
        var sample := Reading(g.buf, sensor);
        CollectTakesSensorReadings(source, pos + 1, sensor, inN, acc + [sample], errors);
        assert SensorReadings(rest, sensor, inN) == [sample] + SensorReadings(rest[1..], sensor, inN);
        assert acc + [sample] + SensorReadings(rest[1..], sensor, inN)
            == acc + ([sample] + SensorReadings(rest[1..], sensor, inN));
      } else {
        CollectTakesSensorReadings(source, pos + 1, sensor, inN, acc, errors + 1);
        assert SensorReadings(rest, sensor, inN) == SensorReadings(rest[1..], sensor, inN);
      }
    }
  }

  /** Where the loop stands once the calibration stops: all sensors done,
      a fatal link failure, or the read sequence ran out. */
  datatype Status = Completed | Fatal | Exhausted

  datatype Outcome = Outcome(status: Status, bounds: seq<Bound>)

  /** An accepted attempt's mean becomes sensor i's max on the first pass
      (j = 0) and its min on the second (j = 1). */
  function SetBound(bounds: seq<Bound>, i: nat, j: nat, m: U16): (r: seq<Bound>)
    requires i < |bounds|
    ensures |r| == |bounds| && forall s :: 0 <= s < |r| && s != i ==> r[s] == bounds[s]
    ensures j == 0 ==> r[i] == Bound(bounds[i].min, m)
    ensures j != 0 ==> r[i] == Bound(m, bounds[i].max)
  {
    bounds[i := if j == 0 then bounds[i].(max := m) else bounds[i].(min := m)]
  }

  predicate RunPre(source: seq<ReadOutcome>, pos: nat, i: nat, j: nat, inN: nat, bounds: seq<Bound>)
  {
    pos <= |source| && i <= inN && j <= 2 && |bounds| == inN
  }

  /** calibration_loop from position `pos` of the source, at sensor `i` and
      bound `j`, with the bounds written so far. */
  function Run(source: seq<ReadOutcome>, pos: nat, i: nat, j: nat, inN: nat, bounds: seq<Bound>): (o: Outcome)
    requires RunPre(source, pos, i, j, inN, bounds)
    ensures |o.bounds| == inN
    decreases inN - i, 2 - j, |source| - pos, 1
  {
    if i == inN then Outcome(Completed, bounds)
    else if j == 2 then Run(source, pos, i + 1, 0, inN, bounds)
    else AfterAttempt(Collect(source, pos, i, inN, [], 0), source, pos, i, j, inN, bounds)
  }

  /** What follows an attempt that began at `start`: an accepted window
      writes its mean and moves on to the next bound, a rejected one
      retries the same bound. */
  function AfterAttempt(a: Attempt, source: seq<ReadOutcome>, start: nat, i: nat, j: nat, inN: nat,
                        bounds: seq<Bound>): (o: Outcome)
    requires start <= |source| && i < inN && j < 2 && |bounds| == inN
    requires a.Collected? ==> |a.samples| == SAMPLES && start < a.next <= |source|
    ensures |o.bounds| == inN
    decreases inN - i, 2 - j, |source| - start, 0
  {
    match a
    case LinkFailure => Outcome(Fatal, bounds)
    case ReadsExhausted => Outcome(Exhausted, bounds)
    case Collected(samples, next) =>
      match MeanCheck(samples)
      case None => Run(source, next, i, j, inN, bounds)
      case Some(m) => Run(source, next, i, j + 1, inN, SetBound(bounds, i, j, m))
  }

  /** The steps of an attempt, one read at a time. */
  lemma CollectStep(source: seq<ReadOutcome>, pos: nat, sensor: nat, inN: nat, acc: seq<U16>, errors: nat)
    requires sensor < inN && pos < |source| && |acc| < SAMPLES && errors <= MAX_ERRORS
    ensures var g := Gate(source[pos], inN);
            && (g.Valid? ==> Collect(source, pos, sensor, inN, acc, errors)
                             == Collect(source, pos + 1, sensor, inN, acc + [Reading(g.buf, sensor)], errors))
            && (!g.Valid? && errors < MAX_ERRORS ==> Collect(source, pos, sensor, inN, acc, errors)
                                                     == Collect(source, pos + 1, sensor, inN, acc, errors + 1))
            && (!g.Valid? && errors == MAX_ERRORS ==> Collect(source, pos, sensor, inN, acc, errors) == LinkFailure)
  {
  }

  /** The attempt at sensor `i`, bound `j` that begins a run step. */
  lemma RunStep(source: seq<ReadOutcome>, pos: nat, i: nat, j: nat, inN: nat, bounds: seq<Bound>)
    requires RunPre(source, pos, i, j, inN, bounds)
    ensures i == inN ==> Run(source, pos, i, j, inN, bounds) == Outcome(Completed, bounds)
    ensures i < inN && j == 2 ==> Run(source, pos, i, j, inN, bounds) == Run(source, pos, i + 1, 0, inN, bounds)
    ensures i < inN && j < 2 ==>
              Run(source, pos, i, j, inN, bounds)
              == AfterAttempt(Collect(source, pos, i, inN, [], 0), source, pos, i, j, inN, bounds)
  {
  }

  /** Sensors whose pass has finished are never written again, and once
      sensor i's max is accepted only its min is still written. */
  lemma {:induction false} RunKeepsFinished(source: seq<ReadOutcome>, pos: nat, i: nat, j: nat, inN: nat,
                                            bounds: seq<Bound>)
    requires RunPre(source, pos, i, j, inN, bounds)
    ensures forall s :: 0 <= s < i ==> Run(source, pos, i, j, inN, bounds).bounds[s] == bounds[s]
    ensures i < inN && j >= 1 ==> Run(source, pos, i, j, inN, bounds).bounds[i].max == bounds[i].max
    decreases inN - i, 2 - j, |source| - pos
  {
    if i == inN {
    } else if j == 2 {
      RunKeepsFinished(source, pos, i + 1, 0, inN, bounds);
    } else {
      var a := Collect(source, pos, i, inN, [], 0);
      if a.Collected? {
        match MeanCheck(a.samples)
        case None => RunKeepsFinished(source, a.next, i, j, inN, bounds);
        case Some(m) => RunKeepsFinished(source, a.next, i, j + 1, inN, SetBound(bounds, i, j, m));
      }
    }
  }

  /** Two bound lists agree on everything the loop has written by sensor
      `i`, bound `j`. */
  predicate AgreeWritten(b1: seq<Bound>, b2: seq<Bound>, i: nat, j: nat)
  {
    && |b1| == |b2|
    && (forall s :: 0 <= s < i && s < |b1| ==> b1[s] == b2[s])
    && (i < |b1| && j >= 1 ==> b1[i].max == b2[i].max)
    && (i < |b1| && j >= 2 ==> b1[i] == b2[i])
  }

  /** Two outcomes with the same status, and the same bounds when complete. */
  predicate SameOutcome(o1: Outcome, o2: Outcome)
  {
    o1.status == o2.status && (o1.status == Completed ==> o1.bounds == o2.bounds)
  }

  /** The outcome never depends on bounds the loop has yet to write, and a
      completed calibration writes every bound it returns. */
  lemma {:induction false} RunIgnoresUnwritten(source: seq<ReadOutcome>, pos: nat, i: nat, j: nat, inN: nat,
                                               b1: seq<Bound>, b2: seq<Bound>)
    requires RunPre(source, pos, i, j, inN, b1) && RunPre(source, pos, i, j, inN, b2)
    requires AgreeWritten(b1, b2, i, j)
    ensures SameOutcome(Run(source, pos, i, j, inN, b1), Run(source, pos, i, j, inN, b2))
    decreases inN - i, 2 - j, |source| - pos, 1
  {
    if i == inN {
      assert b1 == b2;
    } else if j == 2 {
      RunIgnoresUnwritten(source, pos, i + 1, 0, inN, b1, b2);
    } else {
      RunStep(source, pos, i, j, inN, b1);
      RunStep(source, pos, i, j, inN, b2);
      AttemptIgnoresUnwritten(Collect(source, pos, i, inN, [], 0), source, pos, i, j, inN, b1, b2);
    }
  }

  lemma {:induction false} AttemptIgnoresUnwritten(a: Attempt, source: seq<ReadOutcome>, start: nat, i: nat, j: nat,
                                                   inN: nat, b1: seq<Bound>, b2: seq<Bound>)
    requires start <= |source| && i < inN && j < 2 && |b1| == inN && |b2| == inN
    requires a.Collected? ==> |a.samples| == SAMPLES && start < a.next <= |source|
    requires AgreeWritten(b1, b2, i, j)
    ensures SameOutcome(AfterAttempt(a, source, start, i, j, inN, b1), AfterAttempt(a, source, start, i, j, inN, b2))
    decreases inN - i, 2 - j, |source| - start, 0
  {
    match a
    case LinkFailure =>
    case ReadsExhausted =>
    case Collected(samples, next) =>
      match MeanCheck(samples)
      case None =>
        RunIgnoresUnwritten(source, next, i, j, inN, b1, b2);
      case Some(m) =>
        RunIgnoresUnwritten(source, next, i, j + 1, inN, SetBound(b1, i, j, m), SetBound(b2, i, j, m));
  }

  /** A calibration that completes returns the same bounds whatever the
      bounds held before it started: every sensor's min and max was
      written. */
  lemma CalibrationWritesEveryBound(source: seq<ReadOutcome>, inN: nat, b1: seq<Bound>, b2: seq<Bound>)
    requires |b1| == inN && |b2| == inN
    requires Run(source, 0, 0, 0, inN, b1).status == Completed
    ensures Run(source, 0, 0, 0, inN, b2) == Run(source, 0, 0, 0, inN, b1)
  {
    RunIgnoresUnwritten(source, 0, 0, 0, inN, b1, b2);
  }

  /** An attempt over frames that all pass the gate and all carry reading
      `v` for the sensor takes exactly the next frames it still needs. */
  lemma {:induction false} CollectSteady(source: seq<ReadOutcome>, pos: nat, sensor: nat, inN: nat,
                                         acc: seq<U16>, errors: nat, v: U16)
    requires sensor < inN && |acc| <= SAMPLES && errors <= MAX_ERRORS
    requires pos + (SAMPLES - |acc|) <= |source|
    requires forall k :: pos <= k < pos + (SAMPLES - |acc|) ==>
               Gate(source[k], inN).Valid? && Reading(Gate(source[k], inN).buf, sensor) == v
    ensures Collect(source, pos, sensor, inN, acc, errors)
            == Collected(acc + Repeat(v, SAMPLES - |acc|), pos + (SAMPLES - |acc|))
    decreases SAMPLES - |acc|
  {
    if |acc| < SAMPLES {
      CollectSteady(source, pos + 1, sensor, inN, acc + [v], errors, v);
      assert acc + [v] + Repeat(v, SAMPLES - |acc| - 1) == acc + Repeat(v, SAMPLES - |acc|);
    }
  }

  /** 256 good frames with a steady reading `v` for sensor i settle the
      bound being calibrated to `v` and move on to the next one. */
  lemma SteadySensorCalibrates(source: seq<ReadOutcome>, pos: nat, i: nat, j: nat, inN: nat,
                               bounds: seq<Bound>, v: U16)
    requires RunPre(source, pos, i, j, inN, bounds) && i < inN && j < 2
    requires pos + SAMPLES <= |source|
    requires forall k :: pos <= k < pos + SAMPLES ==>
               Gate(source[k], inN).Valid? && Reading(Gate(source[k], inN).buf, i) == v
    ensures Run(source, pos, i, j, inN, bounds)
            == Run(source, pos + SAMPLES, i, j + 1, inN, SetBound(bounds, i, j, v))
  {
    var steady := Repeat(v, SAMPLES);
    var a := Collect(source, pos, i, inN, [], 0);
    assert a == Collected(steady, pos + SAMPLES) by {
      CollectSteady(source, pos, i, inN, [], 0, v);
      assert [] + steady == steady;
    }
    assert MeanCheck(steady) == Some(v) by {
      IdenticalSamplesAccepted(v);
    }
    assert Run(source, pos, i, j, inN, bounds) == AfterAttempt(a, source, pos, i, j, inN, bounds);
  }
}
