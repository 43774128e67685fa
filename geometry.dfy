/** Engine value types the core uses, with single-precision floats modelled as reals. */
module Geometry {

  /** A 3D point or extent (the engine's Vector3). */
  datatype Vector3 = Vector3(x: real, y: real, z: real) {

    function Plus(o: Vector3): Vector3 {
      Vector3(x + o.x, y + o.y, z + o.z)
    }

    function Minus(o: Vector3): Vector3 {
      Vector3(x - o.x, y - o.y, z - o.z)
    }

    function Scale(k: real): Vector3 {
      Vector3(k * x, k * y, k * z)
    }
  }

  /** The engine's Vector3.zero, also the default value of a fresh vertex slot. */
  const Zero := Vector3(0.0, 0.0, 0.0)

  datatype Vector4 = Vector4(x: real, y: real, z: real, w: real)

  /** A 4x4 transform held by its four columns; only its translation is used by the core. */
  datatype Matrix4x4 = Matrix4x4(c0: Vector4, c1: Vector4, c2: Vector4, c3: Vector4) {

    /** The translation part (the engine's GetPosition): the first three entries of the last column. */
    function GetPosition(): Vector3 {
      Vector3(c3.x, c3.y, c3.z)
    }
  }

  /** Matrix4x4.identity */
  const Identity := Matrix4x4(Vector4(1.0, 0.0, 0.0, 0.0), Vector4(0.0, 1.0, 0.0, 0.0),
                              Vector4(0.0, 0.0, 1.0, 0.0), Vector4(0.0, 0.0, 0.0, 1.0))

  /** The default value of the Matrix4x4 struct: every entry zero. */
  const ZeroMatrix := Matrix4x4(Vector4(0.0, 0.0, 0.0, 0.0), Vector4(0.0, 0.0, 0.0, 0.0),
                                Vector4(0.0, 0.0, 0.0, 0.0), Vector4(0.0, 0.0, 0.0, 0.0))
}

module Wrappers {
  datatype Option<+T> = None | Some(value: T)
}
