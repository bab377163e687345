/**
 * The control-panel data shared by `SceneController` and `SceneBuilder.updateScene`:
 * background, lighting and model sections. Numbers are reals.
 */
module SceneTypes {

  datatype Axis = X | Y | Z

  datatype Vec3 = Vec3(x: real, y: real, z: real)
  {
    /** The component on `axis`. */
    function Get(axis: Axis): real {
      match axis
      case X => x
      case Y => y
      case Z => z
    }

    /** `{ ...v, [axis]: value }`. */
    function With(axis: Axis, value: real): (r: Vec3)
      ensures r.Get(axis) == value
      ensures forall other: Axis :: other != axis ==> r.Get(other) == Get(other)
    {
      match axis
      case X => this.(x := value)
      case Y => this.(y := value)
      case Z => this.(z := value)
    }
  }

  /** A colour with components nominally in [0, 1]. */
  datatype Rgb = Rgb(r: real, g: real, b: real)

  datatype BackgroundData = BackgroundData(image: string)

  /** `shadowQuality` is typed `'low' | 'medium' | 'high'`, but nothing checks it at run time. */
  datatype LightingData = LightingData(
    intensity: real,
    direction: Vec3,
    color: Rgb,
    ambientIntensity: real,
    shadowEnabled: bool,
    shadowQuality: string)

  datatype ModelData = ModelData(position: Vec3, rotation: Vec3)

  datatype SceneControlData = SceneControlData(
    background: BackgroundData,
    lighting: LightingData,
    model: ModelData)

  /** The three keys of `SceneControlData`. */
  datatype Section = Background | Lighting | Model
}
