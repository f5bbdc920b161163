/** The compile-time switches and constants of the renderer. Each boolean of
    Config is one of the source's `const bool` toggles; DefaultConfig holds the
    values the source is built with. */
module Settings {

  /** Self-hit offset used as `near` for secondary and shadow rays. */
  const SELF_HIT: real := 0.002
  /** Reflection and transmission recurse only while the depth is below this. */
  const MAX_R_DEPTH: nat := 8
  const PI: real := 3.1415926535897932384626433832795

  datatype Config = Config(
    disableAmbient: bool,
    disableDiffuse: bool,
    disableSpecular: bool,
    disableShadow: bool,
    disableReflection: bool,
    disableTransmission: bool,
    disableRefraction: bool,
    disableShadowTransparency: bool,
    disableBvhAcceleration: bool,
    disableSchlickRefraction: bool,
    disableOutlineShading: bool,
    disableSketchShading: bool,
    disableToonShading: bool,
    allowHitMeshBack: bool)

  const DefaultConfig := Config(
    disableAmbient := false,
    disableDiffuse := false,
    disableSpecular := false,
    disableShadow := false,
    disableReflection := false,
    disableTransmission := false,
    disableRefraction := false,
    disableShadowTransparency := false,
    disableBvhAcceleration := false,
    disableSchlickRefraction := false,
    disableOutlineShading := true,
    disableSketchShading := true,
    disableToonShading := true,
    allowHitMeshBack := true)
}
