/** The two pure stages of the signal path: `ProcessMap` normalises a raw
    reading against a sensor's calibration bounds, `ProcessOut` turns the
    normalised value into an output value. Doubles are modelled as `real`. */
module Mapping {
  import opened Vocabulary
  import opened Frame

  /** The transcendental functions of the C maths library, exp and ln,
      which the model does not define: they are supplied by the caller. */
  datatype Curves = Curves(exp: real -> real, ln: real -> real)

  function Abs(x: real): real
  {
    if x < 0.0 then -x else x
  }

  /** The curve formula of `kind` divides by non-zero values only: the span
      `max - min` for linear and exp, `e - 1` for exp, and for log both
      `min` and `ln(max / min)`. */
  predicate InteriorDefined(min: U16, max: U16, kind: Mapping, c: Curves)
  {
    match kind
    case Linear => min < max
    case Exp => min < max && c.exp(1.0) != 1.0
    case Log => 0 < min && c.ln(max as real / min as real) != 0.0
    case MapInvalid => true
  }

  /** process_map is defined at `input`: either the input is clamped before
      any formula runs, or the formula only divides by non-zero values. */
  predicate MapDefined(input: U16, min: U16, max: U16, kind: Mapping, c: Curves)
  {
    input < min || input > max || InteriorDefined(min, max, kind, c)
  }

  /** A sensor's bounds suit a mapping when every reading is defined: either
      `max < min`, so that every reading is clamped, or the curve formula
      only divides by non-zero values. */
  predicate Usable(min: U16, max: U16, kind: Mapping, c: Curves)
  {
    max < min || InteriorDefined(min, max, kind, c)
  }

  lemma UsableDefined(input: U16, min: U16, max: U16, kind: Mapping, c: Curves)
    requires Usable(min, max, kind, c)
    ensures MapDefined(input, min, max, kind, c)
  {
  }

  /** process_map: below `min` gives 0, above `max` gives 1, whatever the
      mapping; in between the mapping's curve is applied. */
  function ProcessMap(input: U16, min: U16, max: U16, kind: Mapping, c: Curves): (r: real)
    requires MapDefined(input, min, max, kind, c)
    ensures input < min ==> r == 0.0
    ensures min <= input && max < input ==> r == 1.0
    ensures kind == Linear ==> 0.0 <= r <= 1.0
    ensures kind == MapInvalid ==> r == 0.0 || r == 1.0
  {
    if input < min then 0.0
    else if input > max then 1.0
    else
      var x, lo, hi := input as real, min as real, max as real;
      match kind
      case Linear => (x - lo) / (hi - lo)
      case Exp => (c.exp((x - lo) / (hi - lo)) - 1.0) / (c.exp(1.0) - 1.0)
      case Log => c.ln(x / lo) / c.ln(hi / lo)
      case MapInvalid => 0.0
  }

  /** Linear mapping with `min < max` gives 0 at `min` and 1 at `max`. */
  lemma LinearEndpoints(min: U16, max: U16, c: Curves)
    requires min < max
    ensures ProcessMap(min, min, max, Linear, c) == 0.0
    ensures ProcessMap(max, min, max, Linear, c) == 1.0
  {
    var span := max as real - min as real;
    DivSelf(span);
    assert ProcessMap(max, min, max, Linear, c) == span / span;
  }

  /** Linear mapping with `min < max` is monotone non-decreasing over every
      reading, the clamped ones included. */
  lemma LinearMonotone(a: U16, b: U16, min: U16, max: U16, c: Curves)
    requires min < max && a <= b
    ensures ProcessMap(a, min, max, Linear, c) <= ProcessMap(b, min, max, Linear, c)
  {
    var span := max as real - min as real;
    if min <= a && b <= max {
      DivMonotone(a as real - min as real, b as real - min as real, span);
    }
  }

  /** The exp curve has the linear curve's endpoints as soon as exp(0) = 1. */
  lemma ExpEndpoints(min: U16, max: U16, c: Curves)
    requires InteriorDefined(min, max, Exp, c) && c.exp(0.0) == 1.0
    ensures ProcessMap(min, min, max, Exp, c) == 0.0
    ensures ProcessMap(max, min, max, Exp, c) == 1.0
  {
    var span := max as real - min as real;
    var e1 := c.exp(1.0) - 1.0;
    assert (min as real - min as real) / span == 0.0;
    assert (c.exp(0.0) - 1.0) / e1 == 0.0;
    DivSelf(span);
    assert c.exp(span / span) == c.exp(1.0);
    DivSelf(e1);
  }

  /** The log curve gives 1 at `max` whatever ln is, and 0 at `min` as soon
      as ln(1) = 0. */
  lemma LogEndpoints(min: U16, max: U16, c: Curves)
    requires InteriorDefined(min, max, Log, c) && min <= max && c.ln(1.0) == 0.0
    ensures ProcessMap(min, min, max, Log, c) == 0.0
    ensures ProcessMap(max, min, max, Log, c) == 1.0
  {
    assert min as real / min as real == 1.0;
  }

  /** The exp curve is monotone non-decreasing over every reading when exp
      is monotone and e > 1. */
  lemma ExpMonotone(a: U16, b: U16, min: U16, max: U16, c: Curves)
    requires min < max && a <= b
    requires forall x: real, y: real :: x <= y ==> c.exp(x) <= c.exp(y)
    requires c.exp(0.0) == 1.0 && c.exp(1.0) > 1.0
    ensures ProcessMap(a, min, max, Exp, c) <= ProcessMap(b, min, max, Exp, c)
  {
    var span := max as real - min as real;
    var e1 := c.exp(1.0) - 1.0;
    if min <= a <= max {
      ExpInUnit(a, min, max, c);
    }
    if min <= b <= max {
      ExpInUnit(b, min, max, c);
    }
    if min <= a && b <= max {
      var ta := (a as real - min as real) / span;
      var tb := (b as real - min as real) / span;
      DivMonotone(a as real - min as real, b as real - min as real, span);
      assert c.exp(ta) <= c.exp(tb);
      DivMonotone(c.exp(ta) - 1.0, c.exp(tb) - 1.0, e1);
    }
  }

  /** An unclamped reading's exp curve value lies in [0, 1]. */
  lemma ExpInUnit(x: U16, min: U16, max: U16, c: Curves)
    requires min <= x <= max && min < max
    requires forall x: real, y: real :: x <= y ==> c.exp(x) <= c.exp(y)
    requires c.exp(0.0) == 1.0 && c.exp(1.0) > 1.0
    ensures 0.0 <= ProcessMap(x, min, max, Exp, c) <= 1.0
  {
    var span := max as real - min as real;
    var e1 := c.exp(1.0) - 1.0;
    var t := (x as real - min as real) / span;
    DivMonotone(0.0, x as real - min as real, span);
    DivMonotone(x as real - min as real, span, span);
    DivSelf(span);
    assert 0.0 <= t <= 1.0;
    assert c.exp(0.0) <= c.exp(t) <= c.exp(1.0);
    DivMonotone(0.0, c.exp(t) - 1.0, e1);
    DivMonotone(c.exp(t) - 1.0, e1, e1);
    DivSelf(e1);
  }

  /** An unclamped reading's log curve value lies in [0, 1]. */
  lemma LogInUnit(x: U16, min: U16, max: U16, c: Curves)
    requires 0 < min <= x <= max
    requires forall x: real, y: real :: x <= y ==> c.ln(x) <= c.ln(y)
    requires c.ln(1.0) == 0.0 && c.ln(max as real / min as real) > 0.0
    ensures 0.0 <= ProcessMap(x, min, max, Log, c) <= 1.0
  {
    var lo := min as real;
    var l := c.ln(max as real / lo);
    DivMonotone(lo, x as real, lo);
    DivMonotone(x as real, max as real, lo);
    DivSelf(lo);
    assert c.ln(1.0) <= c.ln(x as real / lo) <= l;
    DivMonotone(0.0, c.ln(x as real / lo), l);
    DivMonotone(c.ln(x as real / lo), l, l);
    DivSelf(l);
  }

  /** The log curve is monotone non-decreasing over every reading when ln
      is monotone, ln(1) = 0 and ln(max / min) > 0. */
  lemma LogMonotone(a: U16, b: U16, min: U16, max: U16, c: Curves)
    requires 0 < min && a <= b
    requires forall x: real, y: real :: x <= y ==> c.ln(x) <= c.ln(y)
    requires c.ln(1.0) == 0.0 && c.ln(max as real / min as real) > 0.0
    ensures ProcessMap(a, min, max, Log, c) <= ProcessMap(b, min, max, Log, c)
  {
    var lo := min as real;
    var l := c.ln(max as real / lo);
    if min <= a <= max {
      LogInUnit(a, min, max, c);
    }
    if min <= b <= max {
      LogInUnit(b, min, max, c);
    }
    if min <= a && b <= max {
      DivMonotone(a as real, b as real, lo);
      assert c.ln(a as real / lo) <= c.ln(b as real / lo);
      DivMonotone(c.ln(a as real / lo), c.ln(b as real / lo), l);
    }
  }

  // ---------------------------------------------------------------------
  // Output transforms

  /** The discrete bin as written: `floor(input * K)`, used directly as an
      index into the K opts. */
  function DiscreteIndexAsWritten(input: real, k: nat): (idx: int)
    ensures idx as real <= input * k as real < idx as real + 1.0
  {
    (input * k as real).Floor
  }

  /** At input 1.0, the largest value ProcessMap returns, the written index
      is K: one past the last bin. */
  lemma DiscreteIndexOnePastEnd(k: nat)
    requires k >= 1
    ensures DiscreteIndexAsWritten(1.0, k) == k
  {
  }

  /** A linear mapping reaches 1.0 at its `max` bound, so the out-of-range
      discrete index is reachable from any reading equal to `max`. */
  lemma DiscreteOverflowReachable(min: U16, max: U16, opts: seq<real>, c: Curves)
    requires min < max && |opts| >= 1
    ensures DiscreteIndexAsWritten(ProcessMap(max, min, max, Linear, c), |opts|) == |opts|
  {
    LinearEndpoints(min, max, c);
    DiscreteIndexOnePastEnd(|opts|);
  }

  /** The discrete bin with the index clamped into `[0, K-1]`; it agrees
      with `floor(input * K)` on `[0, 1)` and selects the last bin at 1.0. */
  function DiscreteIndex(input: real, k: nat): (idx: nat)
    requires k >= 1
    ensures idx < k
    ensures 0.0 <= input < 1.0 ==> idx == DiscreteIndexAsWritten(input, k)
    ensures input >= 1.0 ==> idx == k - 1
  {
    var f := (input * k as real).Floor;
    if 0.0 <= input < 1.0 then
      assert input * k as real < k as real;
      f
    else if input < 0.0 then 0
    else
      assert input * k as real >= k as real;
      k - 1
  }

  /** process_out: the output value of a normalised `input`, with
      `last` the previous normalised value of the same output. */
  function ProcessOut(input: real, t: OutputType, opts: seq<real>, last: real): (r: real)
    requires OptsReadable(t, |opts|)
    ensures t == Discrete ==> r in opts
    ensures t == Discrete && input >= 1.0 ==> r == opts[|opts| - 1]
    ensures t == Discrete && input < 0.0 ==> r == opts[0]
    ensures t == Discrete && 0.0 <= input < 1.0 ==>
              0 <= DiscreteIndexAsWritten(input, |opts|) < |opts|
              && r == opts[DiscreteIndexAsWritten(input, |opts|)]
    ensures t == Threshold ==> (r == 1.0 <==> input >= opts[0]) && (r == 0.0 <==> input < opts[0])
    ensures t == Differential ==>
              (r == 1.0 <==> Abs(last - input) > 1.0 - opts[0]) && (r == 0.0 || r == 1.0)
    ensures t == TypeInvalid ==> r == 0.0
  {
    match t
    case Continuous => input * (opts[1] - opts[0]) + opts[0]
    case Discrete => opts[DiscreteIndex(input, |opts|)]
    case Threshold => if input >= opts[0] then 1.0 else 0.0
    case Differential => if Abs(last - input) > 1.0 - opts[0] then 1.0 else 0.0
    case TypeInvalid => 0.0
  }

  lemma MulNonneg(x: real, y: real)
    requires 0.0 <= x && 0.0 <= y
    ensures 0.0 <= x * y
  {
  }

  lemma DivMonotone(x: real, y: real, d: real)
    requires 0.0 < d && x <= y
    ensures x / d <= y / d
  {
    assert y / d - x / d == (y - x) / d;
    assert (y - x) / d * d == y - x;
  }

  lemma DivSelf(x: real)
    requires x != 0.0
    ensures x / x == 1.0
  {
  }

  /** The continuous transform maps 0 to opts[0] and 1 to opts[1]. */
  lemma ContinuousEndpoints(opts: seq<real>, last: real)
    requires |opts| >= 2
    ensures ProcessOut(0.0, Continuous, opts, last) == opts[0]
    ensures ProcessOut(1.0, Continuous, opts, last) == opts[1]
  {
  }

  /** The continuous transform maps [0, 1] into the interval between
      opts[0] and opts[1]. */
  lemma ContinuousInRange(input: real, opts: seq<real>, last: real)
    requires |opts| >= 2 && 0.0 <= input <= 1.0
    ensures var r := ProcessOut(input, Continuous, opts, last);
            (opts[0] <= r <= opts[1]) || (opts[1] <= r <= opts[0])
  {
    var lo, hi := opts[0], opts[1];
    var p := input * (hi - lo);
    assert ProcessOut(input, Continuous, opts, last) == p + lo;
    if lo <= hi {
      MulNonneg(input, hi - lo);
      MulNonneg(1.0 - input, hi - lo);
      assert (1.0 - input) * (hi - lo) == (hi - lo) - p;
    } else {
      MulNonneg(input, lo - hi);
      MulNonneg(1.0 - input, lo - hi);
      assert input * (lo - hi) == -p;
      assert (1.0 - input) * (lo - hi) == (lo - hi) + p;
    }
  }

  /** The continuous transform is affine: it maps a weighted mean of two
      inputs to the same weighted mean of their outputs. */
  lemma ContinuousAffine(a: real, b: real, w: real, opts: seq<real>, last: real)
    requires |opts| >= 2
    ensures ProcessOut((1.0 - w) * a + w * b, Continuous, opts, last)
            == (1.0 - w) * ProcessOut(a, Continuous, opts, last) + w * ProcessOut(b, Continuous, opts, last)
  {
  }

  /** The differential transform does not care which of the two values is
      the previous one. */
  lemma DifferentialSymmetric(a: real, b: real, opts: seq<real>)
    requires |opts| >= 1
    ensures ProcessOut(a, Differential, opts, b) == ProcessOut(b, Differential, opts, a)
  {
    assert Abs(b - a) == Abs(a - b);
  }
}
