/** The configuration vocabulary of the controller: the names accepted for
    an output's mapping curve and transform type, and how many parameters
    ("opts") each transform type takes. */
module Vocabulary {
  import opened Wrappers

  /** How a raw reading is normalised into [0, 1] (OutputMapping). */
  datatype Mapping = Linear | Exp | Log | MapInvalid

  /** How a normalised value becomes an output value (OutputType). */
  datatype OutputType = Continuous | Discrete | Threshold | Differential | TypeInvalid

  /** The configuration name of each valid mapping. */
  function MappingName(m: Mapping): string
    requires m != MapInvalid
  {
    match m
    case Linear => "linear"
    case Exp => "exp"
    case Log => "log"
  }

  /** The configuration name of each valid output type. */
  function TypeName(t: OutputType): string
    requires t != TypeInvalid
  {
    match t
    case Continuous => "continuous"
    case Discrete => "discrete"
    case Threshold => "threshold"
    case Differential => "differential"
  }

  /** output_mapping_from_string; `None` stands for a NULL string. */
  function MappingFromString(s: Option<string>): (m: Mapping)
    ensures m != MapInvalid ==> s == Some(MappingName(m))
  {
    match s
    case None => MapInvalid
    case Some(name) =>
      if name == "linear" then Linear
      else if name == "exp" then Exp
      else if name == "log" then Log
      else MapInvalid
  }

  /** output_type_from_string; `None` stands for a NULL string. */
  function TypeFromString(s: Option<string>): (t: OutputType)
    ensures t != TypeInvalid ==> s == Some(TypeName(t))
  {
    match s
    case None => TypeInvalid
    case Some(name) =>
      if name == "continuous" then Continuous
      else if name == "discrete" then Discrete
      else if name == "threshold" then Threshold
      else if name == "differential" then Differential
      else TypeInvalid
  }

  /** Every valid mapping is recognised by its own name, so the names and
      the valid mappings are in one-to-one correspondence. */
  lemma MappingNameRoundTrip(m: Mapping)
    requires m != MapInvalid
    ensures MappingFromString(Some(MappingName(m))) == m
  {
  }

  /** Every valid output type is recognised by its own name. */
  lemma TypeNameRoundTrip(t: OutputType)
    requires t != TypeInvalid
    ensures TypeFromString(Some(TypeName(t))) == t
  {
  }

  /** output_type_check_n_opts: whether `n` opts suit output type `t`. */
  function CheckNOpts(n: nat, t: OutputType): (ok: bool)
    ensures ok <==> (t == Continuous && n == 2) || (t == Discrete && n >= 1)
                    || (t == Threshold && n == 1) || (t == Differential && n == 1)
    ensures t == TypeInvalid ==> !ok
  {
    if t == Continuous && n == 2 then true
    else if t == Discrete && n > 0 then true
    else if t == Threshold && n == 1 then true
    else if t == Differential && n == 1 then true
    else false
  }

  /** What the transform of each type reads from its opts: continuous reads
      opts[0] and opts[1], every other valid type at least opts[0]. */
  predicate OptsReadable(t: OutputType, n: nat)
  {
    match t
    case Continuous => n >= 2
    case Discrete | Threshold | Differential => n >= 1
    case TypeInvalid => true
  }

  /** An accepted opts count is always enough for what the transform reads. */
  lemma CheckedOptsReadable(n: nat, t: OutputType)
    requires CheckNOpts(n, t)
    ensures OptsReadable(t, n)
  {
  }
}
