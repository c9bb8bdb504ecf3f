/** A float as it comes in: infinities and NaN are one case. */
module Signals {
  datatype Signal = NotFinite | Finite(value: real)
}
