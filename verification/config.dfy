/** The in-memory configuration the engine runs on: per-sensor calibration
    bounds (InCtx min/max) and per-output settings (OutCtx), with the
    checks the configuration and calibration readers apply to them. */
module Config {
  import opened Wrappers
  import opened Vocabulary
  import opened Frame

  /** One sensor's calibration bounds (the min and max of InCtx). */
  datatype Bound = Bound(min: U16, max: U16)

  /** One configured output (OutCtx); `opts_size` is `|opts|`. */
  datatype OutCtx = OutCtx(fromInput: nat, mapping: Mapping, kind: OutputType, opts: seq<real>)

  /** What the configuration reader guarantees of every output it accepts. */
  predicate WellFormedOutput(o: OutCtx, inN: nat)
  {
    o.fromInput < inN && o.mapping != MapInvalid && o.kind != TypeInvalid && CheckNOpts(|o.opts|, o.kind)
  }

  datatype ConfigError = BadFromInput | BadMappingOrType | BadOptsCount

  /** The checks applied to one entry of the output list: the source input
      must be in `[0, inN - 1]`, the mapping and type names must be known,
      and the opts count must suit the type, in that order. */
  function ParseOutput(fromInput: int, mapping: string, kind: string, opts: seq<real>, inN: nat)
    : (r: Result<OutCtx, ConfigError>)
    ensures r.Ok? <==> 0 <= fromInput < inN && MappingFromString(Some(mapping)) != MapInvalid
                       && TypeFromString(Some(kind)) != TypeInvalid
                       && CheckNOpts(|opts|, TypeFromString(Some(kind)))
    ensures r.Ok? ==> WellFormedOutput(r.value, inN)
    ensures r.Ok? ==> r.value.fromInput == fromInput && r.value.opts == opts
                      && r.value.mapping == MappingFromString(Some(mapping))
                      && r.value.kind == TypeFromString(Some(kind))
    ensures r == Err(BadFromInput) <==> !(0 <= fromInput < inN)
    ensures r == Err(BadMappingOrType) <==>
              0 <= fromInput < inN && (MappingFromString(Some(mapping)) == MapInvalid
                                       || TypeFromString(Some(kind)) == TypeInvalid)
  {
    if fromInput < 0 || fromInput > inN - 1 then Err(BadFromInput)
    else
      var m := MappingFromString(Some(mapping));
      var t := TypeFromString(Some(kind));
      if m == MapInvalid || t == TypeInvalid then Err(BadMappingOrType)
      else if !CheckNOpts(|opts|, t) then Err(BadOptsCount)
      else Ok(OutCtx(fromInput, m, t, opts))
  }

  // ---------------------------------------------------------------------
  // Calibration pairs read back from a calibration document

  datatype CalibError = TooFewPairs | BadMin(index: nat) | BadMax(index: nat)

  /** The check of pair `i`: its min must not be negative, and its max must
      be neither negative nor below its min. */
  function PairError(p: (int, int), i: nat): (e: Option<CalibError>)
    ensures e.None? <==> 0 <= p.0 <= p.1
    ensures e.Some? ==> e.value == BadMin(i) || e.value == BadMax(i)
  {
    if p.0 < 0 then Some(BadMin(i))
    else if p.1 < 0 || p.1 < p.0 then Some(BadMax(i))
    else None
  }

  /** The first failing pair of `pairs[from..]`, or None. */
  function FirstPairError(pairs: seq<(int, int)>, from: nat): (e: Option<CalibError>)
    requires from <= |pairs|
    ensures e.None? <==> forall k :: from <= k < |pairs| ==> 0 <= pairs[k].0 <= pairs[k].1
    ensures e.Some? ==> ErrorIndex(e.value) < |pairs| && from <= ErrorIndex(e.value)
                        && PairError(pairs[ErrorIndex(e.value)], ErrorIndex(e.value)) == e
                        && forall k :: from <= k < ErrorIndex(e.value) ==> 0 <= pairs[k].0 <= pairs[k].1
    decreases |pairs| - from
  {
    if from == |pairs| then None
    else if PairError(pairs[from], from).Some? then PairError(pairs[from], from)
    else FirstPairError(pairs, from + 1)
  }

  function ErrorIndex(e: CalibError): nat
  {
    match e
    case TooFewPairs => 0
    case BadMin(i) => i
    case BadMax(i) => i
  }

  /** The outcome of reading a calibration document: it must hold at least
      one pair per sensor, and every pair must pass its check. */
  function CheckPairs(pairs: seq<(int, int)>, inN: nat): (e: Option<CalibError>)
    ensures e.None? <==> |pairs| >= inN && forall k :: 0 <= k < |pairs| ==> 0 <= pairs[k].0 <= pairs[k].1
    ensures e == Some(TooFewPairs) <==> |pairs| < inN
  {
    if |pairs| < inN then Some(TooFewPairs) else FirstPairError(pairs, 0)
  }

  /** A checked pair as stored into the uint16_t fields of InCtx. */
  function ToBound(p: (int, int)): (b: Bound)
    requires 0 <= p.0 && 0 <= p.1
    ensures p.0 < 0x1_0000 ==> b.min == p.0
    ensures p.1 < 0x1_0000 ==> b.max == p.1
  {
    Bound(p.0 % 0x1_0000, p.1 % 0x1_0000)
  }

  /** A pair that passed its check and fits 16 bits keeps `min <= max`. */
  lemma StoredPairOrdered(p: (int, int), i: nat)
    requires PairError(p, i).None? && p.1 < 0x1_0000
    ensures ToBound(p).min <= ToBound(p).max
  {
  }

  /** A checked pair above 16 bits is stored truncated: (1, 65536) passes
      the checks and becomes min 1, max 0. */
  lemma StoredPairTruncated()
    ensures PairError((1, 0x1_0000), 0).None?
    ensures ToBound((1, 0x1_0000)) == Bound(1, 0)
  {
  }
}
