/** The one thing the split decision does with a BIC score: compare two
    `f64` values with `<`. A double is an exact real, an infinity or NaN
    here. Rounding plays no part in a comparison of two given values. */
module Float64 {

  datatype F64 = Finite(v: real) | PosInf | NegInf | NaN

  /** IEEE-754 `<`: false whenever either side is NaN. */
  predicate Lt(a: F64, b: F64)
  {
    match a
    case NaN => false
    case NegInf => b.Finite? || b.PosInf?
    case Finite(x) => b.PosInf? || (b.Finite? && x < b.v)
    case PosInf => false
  }

  /** `<` is a strict order that NaN stays out of. */
  lemma LtStrict(a: F64, b: F64, c: F64)
    ensures !Lt(a, a)
    ensures Lt(a, b) ==> !Lt(b, a)
    ensures Lt(a, b) && Lt(b, c) ==> Lt(a, c)
    ensures a.NaN? || b.NaN? ==> !Lt(a, b)
  {
  }

  /** Apart from NaN, any two values compare one way, the other, or equal. */
  lemma LtTotal(a: F64, b: F64)
    requires !a.NaN? && !b.NaN?
    ensures Lt(a, b) || a == b || Lt(b, a)
  {
  }
}
