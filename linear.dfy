/** Stand-ins for the linear algebra the editor takes from nalgebra.

    Vectors are triples of exact reals. Unit quaternions are kept abstract: an
    orientation is the term that built it (identity, an axis-angle rotation, a
    product, a quotient), and the numerics that need sines, cosines or square
    roots (rotating a vector, the Euclidean norm, normalisation) are supplied by
    the caller as a `Numerics` record of functions. */
module Linear {

  datatype Vec3 = Vec3(x: real, y: real, z: real) {

    function Add(v: Vec3): Vec3 { Vec3(x + v.x, y + v.y, z + v.z) }

    function Sub(v: Vec3): Vec3 { Vec3(x - v.x, y - v.y, z - v.z) }

    /** Multiplication by a scalar (`k * v`). */
    function Scaled(k: real): Vec3 { Vec3(k * x, k * y, k * z) }

    /** nalgebra's `component_mul`. */
    function ComponentMul(v: Vec3): Vec3 { Vec3(x * v.x, y * v.y, z * v.z) }

    predicate NonNegative() { x >= 0.0 && y >= 0.0 && z >= 0.0 }
  }

  const Zero := Vec3(0.0, 0.0, 0.0)
  const Ones := Vec3(1.0, 1.0, 1.0)

  /** `Vector3::x()`, `Vector3::y()`, `Vector3::z()` (also the `*_axis()` units). */
  const XAxis := Vec3(1.0, 0.0, 0.0)
  const YAxis := Vec3(0.0, 1.0, 0.0)
  const ZAxis := Vec3(0.0, 0.0, 1.0)

  /** `Vector3::identity()`: nalgebra's identity "matrix" of shape 3x1 has a one
      on its single diagonal entry, so it is the unit x vector. */
  const VectorIdentity := XAxis

  /** A unit quaternion, as the expression that produced it. The angle of an
      axis-angle rotation is measured in turns (1.0 is a full turn), so that the
      editor's angles are exact rationals. */
  datatype Quat =
    | Identity
    | AxisAngle(axis: Vec3, turns: real)
    | Mul(left: Quat, right: Quat)
    | Div(num: Quat, den: Quat)

  /** A ray with its origin and (not necessarily normalised) direction. */
  datatype Ray = Ray(origin: Vec3, dir: Vec3) {
    /** The point `origin + toi * dir`. */
    function At(toi: real): Vec3 { origin.Add(dir.Scaled(toi)) }
  }

  /** A rigid placement: translation followed by rotation, no scale. */
  datatype Isometry = Isometry(translation: Vec3, rotation: Quat)

  /** The floating-point numerics the model does not interpret:
      `rotate(q, v)` is `q.transform_vector(&v)`, `norm(v)` the Euclidean length,
      `normalize(v)` the vector `v / norm(v)`. */
  datatype Numerics = Numerics(rotate: (Quat, Vec3) -> Vec3, norm: Vec3 -> real, normalize: Vec3 -> Vec3)
}
