/** The one unit conversion of the macro: a height offset typed in millimetres to feet. */
module Units {

  const MillimetresPerFoot: real := 304.8

  /** `offset / 304.8`, exact. */
  function ToInternal(mm: real): (ft: real)
    ensures ft * MillimetresPerFoot == mm
  {
    mm / MillimetresPerFoot
  }

  /** The conversion is linear. */
  lemma ToInternalLinear(a: real, b: real, k: real)
    ensures ToInternal(a + b) == ToInternal(a) + ToInternal(b)
    ensures ToInternal(k * a) == k * ToInternal(a)
  {
  }

  /** A one-metre offset is about 3.2808 ft. */
  lemma OneMetreOffset()
    ensures 3.2808 < ToInternal(1000.0) < 3.2809
  {
  }
}
