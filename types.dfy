/** The value types shared by the physics and the panels. */
module Types {

  /** The three user-controlled inputs: wavelength in nanometres, slit width in
      micrometres, screen distance in metres. */
  datatype DiffractionParams = DiffractionParams(wavelength: real, slitWidth: real, distance: real)

  /** The diffraction regime shown by the analysis panel. Two labels carry a
      parenthesised subtitle ("near field", "far field"), the third does not. */
  datatype Regime = Fresnel | Fraunhofer | Transition
  {
    function Label(): string
    {
      match this
      case Fresnel => "菲涅尔 (近场)"
      case Fraunhofer => "夫琅禾费 (远场)"
      case Transition => "过渡区域"
    }
  }

  /** Every quantity the physics divides by is strictly positive. */
  predicate Positive(p: DiffractionParams)
  {
    p.wavelength > 0.0 && p.slitWidth > 0.0 && p.distance > 0.0
  }

  /** The values the three sliders of the control panel can produce. */
  predicate InSliderRange(p: DiffractionParams)
  {
    && 400.0 <= p.wavelength <= 700.0
    && 50.0 <= p.slitWidth <= 500.0
    && 0.01 <= p.distance <= 2.0
  }

  /** The parameters the application starts with: green light, 200 um slit, 0.5 m. */
  const DefaultParams: DiffractionParams := DiffractionParams(550.0, 200.0, 0.5)

  lemma SliderRangeIsPositive(p: DiffractionParams)
    requires InSliderRange(p)
    ensures Positive(p)
  {
  }

  lemma DefaultParamsInSliderRange()
    ensures InSliderRange(DefaultParams)
  {
  }
}
