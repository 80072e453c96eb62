/** IEEE values up to rounding: finite values are reals. */
module Floats {
  import opened Options

  datatype Float = NaN | PosInf | NegInf | Finite(value: real)
  {
    /** Division by a positive constant. */
    function DividedBy(k: real): Float
      requires k > 0.0
    {
      if Finite? then Finite(value / k) else this
    }
  }

  /** `legacyReading`: NaN, infinities and, where asked, negative values are no reading. */
  function LegacyReading(v: Float, nonnegative: bool): Option<real>
  {
    if !v.Finite? || (nonnegative && v.value < 0.0) then None else Some(v.value)
  }
}
