/** Model options of the Single Particle Model and the Python comparisons
    that the submodel-selection steps apply to them. */
module Options {

  datatype Option<T> = None | Some(value: T)

  /** A value stored under an option key. Python keeps booleans, integers,
      strings and None apart as objects, but `==` between a bool and an int
      compares them as numbers (False == 0, True == 1). */
  datatype OptionValue =
    | Flag(b: bool)
    | Number(n: int)
    | Text(s: string)
    | NoValue

  /** Python's identity test `v is False`: only the boolean False passes,
      not the integer 0 and not None. */
  predicate IsFalse(v: OptionValue)
  {
    v == Flag(false)
  }

  /** Python's `v == s` against a string constant. */
  predicate EqualsText(v: OptionValue, s: string)
  {
    v == Text(s)
  }

  /** Python's `v == n` against an integer constant, where a bool compares
      as 0 or 1. */
  predicate EqualsInt(v: OptionValue, n: int)
  {
    match v
    case Flag(b) => (if b then 1 else 0) == n
    case Number(i) => i == n
    case _ => false
  }

  const Differential := "differential"
  const Algebraic := "algebraic"
  const FickianDiffusion := "Fickian diffusion"
  const FastDiffusion := "fast diffusion"

  /** The three option values the Single Particle Model consults. */
  datatype Options = Options(
    surfaceForm: OptionValue,
    particle: OptionValue,
    dimensionality: OptionValue)

  /** The values the selection steps recognise: surface form False,
      "differential" or "algebraic"; particle "Fickian diffusion" or
      "fast diffusion"; dimensionality 0, 1 or 2. */
  predicate Legal(o: Options)
  {
    && (IsFalse(o.surfaceForm) || EqualsText(o.surfaceForm, Differential) || EqualsText(o.surfaceForm, Algebraic))
    && (EqualsText(o.particle, FickianDiffusion) || EqualsText(o.particle, FastDiffusion))
    && (o.dimensionality == Number(0) || o.dimensionality == Number(1) || o.dimensionality == Number(2))
  }
}
