/**
 The magnitude scaler of the earthquake map (radiusSize). Magnitudes and
 radii are modelled as mathematical reals.
 */
module Scaler {

  /** Magnitude scaler: five display units of radius per unit of magnitude, unclamped. */
  function RadiusSize(magnitude: real): (r: real)
    ensures MagnitudeOfRadius(r) == magnitude
    ensures r < 0.0 <==> magnitude < 0.0
    ensures r == 0.0 <==> magnitude == 0.0
  {
    magnitude * 5.0
  }

  /** The magnitude a marker radius was drawn for. */
  function MagnitudeOfRadius(r: real): real {
    r / 5.0
  }

  /** The scaler is strictly increasing, so a stronger earthquake always draws a larger marker. */
  lemma RadiusSizeStrictlyIncreasing(m1: real, m2: real)
    requires m1 < m2
    ensures RadiusSize(m1) < RadiusSize(m2)
  {
  }

  /** The scaler is injective: two different magnitudes never share a radius. */
  lemma RadiusSizeInjective(m1: real, m2: real)
    ensures RadiusSize(m1) == RadiusSize(m2) ==> m1 == m2
  {
  }

  lemma RadiusSizeExamples()
    ensures RadiusSize(0.0) == 0.0
    ensures RadiusSize(2.0) == 10.0
    ensures RadiusSize(-1.0) == -5.0
  {
  }
}
