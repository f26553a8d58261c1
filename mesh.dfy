/** The OpenGL objects the program creates and deletes, seen as names the driver
    hands out. The model keeps which buffer and vertex-array names are alive and
    which vertices were uploaded to each buffer; everything else the driver does
    (binding, attribute formats, drawing) is out of its view. */
module GlObjects {
  import opened Geometry

  class Gl {
    /** Live buffer objects, each with the vertices last uploaded to it. */
    ghost var buffers: map<nat, seq<Vertex>>
    /** Live vertex-array objects. */
    ghost var arrays: set<nat>
    /** Where the model looks for an unused name; the driver promises only that a
        generated name is nonzero and not alive. */
    var nextBuffer: nat
    var nextArray: nat

    ghost predicate Valid()
      reads this
    {
      0 < nextBuffer && 0 < nextArray &&
      (forall b :: b in buffers ==> 0 < b < nextBuffer) &&
      (forall a :: a in arrays ==> 0 < a < nextArray)
    }

    constructor()
      ensures Valid() && buffers == map[] && arrays == {}
    {
      buffers := map[];
      arrays := {};
      nextBuffer := 1;
      nextArray := 1;
    }

    /** `glGenBuffers(1, &b)`: a nonzero name that is not alive becomes a live,
        empty buffer. */
    method GenBuffer() returns (b: nat)
      requires Valid()
      modifies this
      ensures Valid()
      ensures b != 0 && b !in old(buffers)
      ensures buffers == old(buffers)[b := []] && arrays == old(arrays)
    {
      b := nextBuffer;
      nextBuffer := nextBuffer + 1;
      buffers := buffers[b := []];
    }

    /** `glGenVertexArrays(1, &a)`: a nonzero name that is not alive becomes a live
        vertex array. */
    method GenVertexArray() returns (a: nat)
      requires Valid()
      modifies this
      ensures Valid()
      ensures a != 0 && a !in old(arrays)
      ensures arrays == old(arrays) + {a} && buffers == old(buffers)
    {
      a := nextArray;
      nextArray := nextArray + 1;
      arrays := arrays + {a};
    }

    /** `glBufferData` on buffer `b`: its contents become `data`. */
    method BufferData(b: nat, data: seq<Vertex>)
      requires Valid() && b in buffers
      modifies this
      ensures Valid()
      ensures buffers == old(buffers)[b := data] && arrays == old(arrays)
    {
      buffers := buffers[b := data];
    }

    /** `glDeleteBuffers(1, &b)`: the name stops being alive; 0 and names that are
        not alive are silently ignored. */
    method DeleteBuffer(b: nat)
      requires Valid()
      modifies this
      ensures Valid()
      ensures buffers == old(buffers) - {b} && arrays == old(arrays)
    {
      buffers := buffers - {b};
    }

    /** `glDeleteVertexArrays(1, &a)`, with the same leniency. */
    method DeleteVertexArray(a: nat)
      requires Valid()
      modifies this
      ensures Valid()
      ensures arrays == old(arrays) - {a} && buffers == old(buffers)
    {
      arrays := arrays - {a};
    }
  }
}

/** A renderable mesh that owns one vertex array and one vertex buffer
    (source/mesh.hh): it can be moved but not copied, and it deletes its GL
    objects when it is destroyed. */
module Meshes {
  import opened Common
  import opened Geometry
  import opened GlObjects

  /** A 4x4 matrix stored column by column, as `glm::mat4` stores it. */
  type Mat4 = seq<seq<real>>

  predicate IsMat4(m: Mat4) {
    |m| == 4 && forall c :: 0 <= c < 4 ==> |m[c]| == 4
  }

  /** The image of the homogeneous point `p` under `m`. */
  function Apply(m: Mat4, p: seq<real>): (q: seq<real>)
    requires IsMat4(m) && |p| == 4
    ensures |q| == 4
  {
    seq(4, r requires 0 <= r < 4 =>
      m[0][r] * p[0] + m[1][r] * p[1] + m[2][r] * p[2] + m[3][r] * p[3])
  }

  /** One `glDrawArrays(GL_TRIANGLES, first, count)` call on a vertex array. */
  datatype DrawCall = DrawTriangles(vao: nat, first: nat, count: int)

  class Mesh {
    var vao: nat
    var vbo: nat
    var vertexCount: int

    /** The state of a mesh that has been moved from: it owns nothing. */
    predicate Empty()
      reads this
    {
      vao == 0 && vbo == 0 && vertexCount == -1
    }

    /** The mesh owns a live vertex array and a live buffer, and it draws as many
        vertices as the buffer holds (as a 32-bit count). */
    ghost predicate Owns(gl: Gl)
      reads this, gl
    {
      vao in gl.arrays && vbo in gl.buffers && vertexCount == ToInt32(|gl.buffers[vbo]|)
    }

    ghost predicate Valid(gl: Gl)
      reads this, gl
    {
      Empty() || Owns(gl)
    }

    /** No GL object of this mesh is also held by `other`. */
    predicate Separate(other: Mesh)
      reads this, other
    {
      (vao == 0 || vao != other.vao) && (vbo == 0 || vbo != other.vbo)
    }

    /** `Mesh(vertices)`: generates a vertex array and a buffer, uploads the
        vertices and records their number, converted to `int`. */
    constructor(gl: Gl, vertices: seq<Vertex>)
      requires gl.Valid()
      modifies gl
      ensures gl.Valid()
      ensures vertexCount == ToInt32(|vertices|)
      ensures Owns(gl) && gl.buffers[vbo] == vertices
      ensures vao !in old(gl.arrays) && vbo !in old(gl.buffers)
      ensures gl.arrays == old(gl.arrays) + {vao}
      ensures gl.buffers == old(gl.buffers)[vbo := vertices]
    {
      vao := 0;
      vbo := 0;
      vertexCount := ToInt32(|vertices|);
      new;
      vao := gl.GenVertexArray();
      vbo := gl.GenBuffer();
      gl.BufferData(vbo, vertices);
    }

    /** The move constructor: starts from the empty state and move-assigns, so
        the new mesh takes over the handles and the count and `other` is left
        empty; since the empty state owns nothing, nothing is deleted. */
    constructor Moved(gl: Gl, other: Mesh)
      requires gl.Valid()
      modifies gl, other
      ensures gl.Valid()
      ensures vao == old(other.vao) && vbo == old(other.vbo) && vertexCount == old(other.vertexCount)
      ensures other.Empty()
      ensures gl.buffers == old(gl.buffers) && gl.arrays == old(gl.arrays)
      ensures old(other.Valid(gl)) ==> Valid(gl) && other.Valid(gl)
    {
      vao := 0;
      vbo := 0;
      vertexCount := -1;
      new;
      MoveAssign(gl, other);
      assert old(gl.buffers) - {0} == old(gl.buffers);
    }

    /** Move assignment `*this = std::move(other)`. From a different mesh it first
        deletes the buffer and vertex array this mesh owned, then takes over
        `other`'s handles and count, leaving `other` empty. Self-assignment
        changes nothing. When the two meshes share no GL object, both are left
        valid: the handles this mesh now owns are still alive. */
    method MoveAssign(gl: Gl, other: Mesh)
      requires gl.Valid()
      modifies this, other, gl
      ensures gl.Valid()
      ensures this == other ==>
        vao == old(vao) && vbo == old(vbo) && vertexCount == old(vertexCount) &&
        gl.buffers == old(gl.buffers) && gl.arrays == old(gl.arrays)
      ensures this != other ==>
        vao == old(other.vao) && vbo == old(other.vbo) && vertexCount == old(other.vertexCount) &&
        other.Empty() &&
        gl.buffers == old(gl.buffers) - {old(vbo)} && gl.arrays == old(gl.arrays) - {old(vao)}
      ensures this != other && old(Valid(gl)) && old(other.Valid(gl)) && old(Separate(other)) ==>
        Valid(gl) && other.Valid(gl) && Separate(other)
    {
      if this != other {
        gl.DeleteBuffer(vbo);
        gl.DeleteVertexArray(vao);
        vbo, other.vbo := other.vbo, 0;
        vao, other.vao := other.vao, 0;
        vertexCount, other.vertexCount := other.vertexCount, -1;
      }
    }

    /** The destructor: deletes the buffer and the vertex array. A moved-from
        mesh deletes nothing. */
    method Release(gl: Gl)
      requires gl.Valid()
      modifies gl
      ensures gl.Valid()
      ensures gl.buffers == old(gl.buffers) - {vbo} && gl.arrays == old(gl.arrays) - {vao}
      ensures Empty() ==> gl.buffers == old(gl.buffers) && gl.arrays == old(gl.arrays)
    {
      gl.DeleteBuffer(vbo);
      gl.DeleteVertexArray(vao);
      assert Empty() ==> old(gl.buffers) - {vbo} == old(gl.buffers);
    }

    /** `getModelMatrix`: the identity, whatever the mesh. */
    function ModelMatrix(): (m: Mat4)
      ensures IsMat4(m)
      ensures forall c, r :: 0 <= c < 4 && 0 <= r < 4 ==> m[c][r] == if c == r then 1.0 else 0.0
    {
      [[1.0, 0.0, 0.0, 0.0],
       [0.0, 1.0, 0.0, 0.0],
       [0.0, 0.0, 1.0, 0.0],
       [0.0, 0.0, 0.0, 1.0]]
    }

    /** `drawArrays`: draws `vertexCount` vertices of the mesh's vertex array as
        triangles. For a mesh that owns its buffer (and holds fewer than 2^31
        vertices), that is exactly the vertices the buffer holds. */
    method DrawArrays(gl: Gl) returns (call: DrawCall)
      ensures call.vao == vao && call.first == 0 && call.count == vertexCount
      ensures Owns(gl) && |gl.buffers[vbo]| <= Int32Max ==> call.count == |gl.buffers[vbo]|
    {
      call := DrawTriangles(vao, 0, vertexCount);
    }
  }

  /** The model matrix maps every point to itself: a mesh's model space is world
      space. */
  lemma ModelMatrixFixes(mesh: Mesh, p: seq<real>)
    requires |p| == 4
    ensures Apply(mesh.ModelMatrix(), p) == p
  {
    var m := mesh.ModelMatrix();
    forall r | 0 <= r < 4
      ensures Apply(m, p)[r] == p[r]
    {
      assert m[r][r] == 1.0;
    }
  }
}
