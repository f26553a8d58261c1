/** Failure-carrying results shared by the whole model. */
module Common {

  datatype Option<+T> = None | Some(value: T)

  /** The outcome of an operation that the source ends with a fatal error
      (`util::fatalError` throws, `die` exits the process). */
  datatype Result<+T, +E> = Ok(value: T) | Err(error: E)

  /** Two to the power of 32 and 64: the moduli of the source's 32- and 64-bit integers. */
  const Two32: nat := 0x1_0000_0000
  const Two64: nat := 0x1_0000_0000_0000_0000

  /** The largest value of a 32-bit signed `int`/`GLint`/`GLsizei`. */
  const Int32Max: int := 0x7fff_ffff

  /** Conversion of an unsigned count to a 32-bit signed integer
      (`static_cast<int>` of a `size_t`), which keeps the low 32 bits
      and reads them as two's complement. */
  function ToInt32(n: nat): (r: int)
    ensures -0x8000_0000 <= r <= Int32Max
    ensures (r - n) % Two32 == 0
    ensures n <= Int32Max ==> r == n
  {
    var low := n % Two32;
    if low <= Int32Max then low else low - Two32
  }
}

/** Vectors and vertices (source/obj_parser/vertex.hh). Coordinates and colours
    are opaque to the model: no arithmetic is done on them. */
module Geometry {

  datatype Vec3 = Vec3(x: real, y: real, z: real)

  /** A vertex as the OBJ parser emits it: position, normal and colour. */
  datatype Vertex = Vertex(pos: Vec3, normal: Vec3, color: Vec3)

  /** A value-initialised `glm::vec3`. */
  const Zero := Vec3(0.0, 0.0, 0.0)
}
