/**
 * Value types shared by the ray tracer: 3-vectors, RGB colours, spheres,
 * point lights and the scene, plus the floating-point library routines
 * (square root, power, normalisation) the tracer calls but whose exact
 * values the model leaves abstract.
 */
module Geometry {

  /** A position or direction in scene space. */
  datatype Vector3 = Vector3(x: real, y: real, z: real) {

    function Plus(v: Vector3): Vector3 {
      Vector3(x + v.x, y + v.y, z + v.z)
    }

    function Minus(v: Vector3): Vector3 {
      Vector3(x - v.x, y - v.y, z - v.z)
    }

    /** Multiplication by a scalar (mulAV). */
    function Times(a: real): Vector3 {
      Vector3(a * x, a * y, a * z)
    }

    function Dot(v: Vector3): real {
      x * v.x + y * v.y + z * v.z
    }
  }

  /** An RGB colour; channels are unbounded until the final clamp. */
  datatype Color = Color(red: real, green: real, blue: real) {

    function Plus(c: Color): Color {
      Color(red + c.red, green + c.green, blue + c.blue)
    }

    /** Channel-by-channel product. */
    function Modulate(c: Color): Color {
      Color(red * c.red, green * c.green, blue * c.blue)
    }

    /** Channel k: 0 is red, 1 is green, 2 is blue. */
    function Channel(k: nat): real
      requires k < 3
    {
      if k == 0 then red else if k == 1 then green else blue
    }

    predicate NonNegative() {
      0.0 <= red && 0.0 <= green && 0.0 <= blue
    }
  }

  const Black := Color(0.0, 0.0, 0.0)

  /** A sphere with its diffuse and specular colours. */
  datatype Sphere = Sphere(center: Vector3, radius: real, color: Color, colorSpec: Color)

  /** A point light. */
  datatype Light = Light(pos: Vector3, color: Color)

  /** Everything the renderer reads; built before rendering and never changed during it. */
  datatype Scene = Scene(
    camera: Vector3,
    background: Color,
    ambient: Color,
    scale: real,
    spheres: seq<Sphere>,
    lights: seq<Light>)

  /** Every sphere has a positive radius (the normal divides by it). */
  predicate PositiveRadii(spheres: seq<Sphere>) {
    forall i :: 0 <= i < |spheres| ==> spheres[i].radius > 0.0
  }

  /**
   * The math-library routines the tracer relies on. They are given as
   * parameters so that every result of the model holds whatever they
   * compute; lemmas that need a fact about them say so with the
   * predicates below.
   */
  datatype MathLib = MathLib(
    sqrt: real -> real,
    pow: (real, real) -> real,
    normalize: Vector3 -> Vector3)
  {
    /** Euclidean length (computeNorm). */
    function Norm(v: Vector3): real {
      sqrt(v.Dot(v))
    }

    /** sqrt is the exact non-negative square root on non-negative inputs. */
    ghost predicate ExactSqrt() {
      forall x :: 0.0 <= x ==> 0.0 <= sqrt(x) && sqrt(x) * sqrt(x) == x
    }

    /** pow of a non-negative base is non-negative. */
    ghost predicate PowNonNegative() {
      forall b, e :: 0.0 <= b ==> 0.0 <= pow(b, e)
    }
  }
}
