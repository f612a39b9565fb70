/** The fixed scene geometry: an 800 x 480 render target and the screen fractions that
    `setup` derives from it with truncating `int` conversions. */
module Scene {

  const ScreenWidth: real := 800.0
  const ScreenHeight: real := 480.0

  /** `offset = screenWidth / 4`, the left edge of the waterfall's first lifespan zone. */
  const Offset: int := 200
  /** `waterFallAreaX = screenWidth / 3`, the width of the waterfall band. */
  const WaterFallAreaX: int := 266
  /** `waterFallAreaY = screenHeight / 3`, the top of the waterfall channel. */
  const WaterFallAreaY: int := 160
  /** `fieldCentreX = screenWidth - offset`, where the attractor starts. */
  const FieldCentreX: int := 600

  /** The constants are what the float-to-int assignments of `setup` produce. */
  lemma SetupDerivation()
    ensures Offset == (ScreenWidth / 4.0).Floor
    ensures WaterFallAreaX == (ScreenWidth / 3.0).Floor
    ensures WaterFallAreaY == (ScreenHeight / 3.0).Floor
    ensures FieldCentreX == (ScreenWidth - Offset as real).Floor
  {
  }
}
