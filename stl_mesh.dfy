/** Meshes loaded from binary STL files (mesh.h, mesh.cpp): each load creates a
    vertex array whose position and normal attributes read from one buffer, and
    hands out the next picking index from a counter shared by all loads. */
module StlMeshes {
  import opened Common
  import opened Geometry
  import opened GlObjects

  /** What the STL library reports for a file: the float-buffer size in bytes
      (None when `one_stl_buf_size` signals an invalid file) and the number of
      triangles `one_stl_parse` decodes. */
  datatype StlReport = StlReport(bufSize: Option<nat>, trigCount: nat)

  /** Why `load_stl` ends the program through `die`. */
  datatype StlError = InvalidFile

  /** A loaded mesh as `class mesh` keeps it: its picking index, its vertex
      array, the number of vertices it draws, the translation its model matrix
      was set to and its colour. */
  datatype StlMesh = StlMesh(index: int, vao: nat, vertexCount: int, translation: Vec3, color: Vec3)

  /** The colour every mesh starts with (mesh.h:13). */
  const DefaultColor := Vec3(0.7, 0.7, 0.7)

  /** The bytes of one float, and of one three-float attribute value. */
  const FloatBytes: nat := 4
  const AttributeBytes: nat := 3 * FloatBytes

  /** The vertex-array state `load_stl` sets up: the buffer both attributes read
      from, its size in bytes, and where attribute 0 (positions) and attribute 1
      (normals) start; both are tightly packed three-float values. */
  datatype Layout = Layout(buffer: nat, bufferBytes: nat, positionOffset: nat, normalOffset: nat)

  /** A successful load: the mesh and the layout of its vertex array. */
  datatype Loaded = Loaded(mesh: StlMesh, layout: Layout)

  /** The layout for a buffer of `bufSize` bytes holding `trigCount` triangles:
      the buffer is sized in whole floats, positions start at byte 0 and normals
      after nine floats per triangle. */
  function StlLayout(buffer: nat, bufSize: nat, trigCount: nat): (l: Layout)
    ensures l.buffer == buffer && l.positionOffset == 0
    ensures l.bufferBytes <= bufSize < l.bufferBytes + FloatBytes
    ensures l.normalOffset == trigCount * 3 * AttributeBytes
  {
    Layout(buffer, (bufSize / FloatBytes) * FloatBytes, 0, trigCount * 9 * FloatBytes)
  }

  /** The byte range attribute value `k` occupies when values start at `offset`. */
  function AttributeStart(offset: nat, k: nat): nat {
    offset + k * AttributeBytes
  }

  /** With the buffer the one-stl layout `ONE_STL_VVV_NNN` produces (nine position
      floats then nine normal floats per triangle), the positions of all
      `3 * trigCount` vertices lie before the first normal, and the normals of all
      of them lie inside the buffer: the two attributes never overlap. */
  lemma PositionsBeforeNormals(buffer: nat, trigCount: nat, k: nat, j: nat)
    requires k < 3 * trigCount && j < 3 * trigCount
    ensures var l := StlLayout(buffer, trigCount * 18 * FloatBytes, trigCount);
      AttributeStart(l.positionOffset, k) + AttributeBytes <= l.normalOffset <= AttributeStart(l.normalOffset, j) &&
      AttributeStart(l.normalOffset, j) + AttributeBytes <= l.bufferBytes
  {
    var l := StlLayout(buffer, trigCount * 18 * FloatBytes, trigCount);
    assert FloatBytes == 4 && AttributeBytes == 12;
    assert l.bufferBytes == 72 * trigCount;
    assert l.normalOffset == 36 * trigCount;
    assert AttributeStart(l.positionOffset, k) == 12 * k;
    assert AttributeStart(l.normalOffset, j) == 36 * trigCount + 12 * j;
  }

  /** The picking indices handed out so far are 0, 1, 2, ... in order. */
  ghost predicate Consecutive(issued: seq<int>) {
    forall k :: 0 <= k < |issued| ==> issued[k] == k
  }

  /** Indices handed out in order are pairwise distinct, non-negative, and never
      the -1 a default-constructed mesh carries (mesh.h:7). */
  lemma {:induction false} ConsecutiveDistinct(issued: seq<int>)
    requires Consecutive(issued)
    ensures forall k, m :: 0 <= k < m < |issued| ==> issued[k] != issued[m]
    ensures forall k :: 0 <= k < |issued| ==> issued[k] >= 0
    ensures -1 !in issued
  {
    forall k | 0 <= k < |issued| ensures issued[k] != -1 {
      assert issued[k] == k;
    }
  }

  /** The state behind `load_stl`: the function-local `static GLint next_index`,
      and (as ghost state) every index handed out so far. */
  class StlLoader {
    var nextIndex: int
    ghost var issued: seq<int>

    ghost predicate Valid()
      reads this
    {
      nextIndex == |issued| && Consecutive(issued)
    }

    /** Program start: the counter is 0. */
    constructor()
      ensures Valid() && nextIndex == 0 && issued == []
    {
      nextIndex := 0;
      issued := [];
    }

    /** `mesh::load_stl(path, position)`. An invalid file ends the program before
        any GL object or index is allocated. Otherwise a vertex array and a
        buffer are generated, the buffer is laid out as `StlLayout` says, and the
        mesh gets `3 * trigCount` vertices (as a 32-bit `GLsizei`), the
        translation `position`, the default colour and the current counter
        value as its index, the counter then moving on by one. The buffer is not
        kept by the mesh and stays alive. Incrementing the `GLint` counter past
        its largest value is undefined behaviour, so it must be below it. */
    method LoadStl(gl: Gl, report: StlReport, position: Vec3) returns (r: Result<Loaded, StlError>)
      requires gl.Valid() && Valid()
      requires nextIndex < Int32Max
      modifies this, gl
      ensures gl.Valid() && Valid()
      ensures report.bufSize.None? ==>
        r == Err(InvalidFile) && nextIndex == old(nextIndex) && issued == old(issued) &&
        gl.buffers == old(gl.buffers) && gl.arrays == old(gl.arrays)
      ensures report.bufSize.Some? ==> r.Ok?
      ensures r.Ok? ==>
        var m := r.value.mesh;
        var l := r.value.layout;
        m.index == old(nextIndex) && nextIndex == old(nextIndex) + 1 && issued == old(issued) + [m.index] &&
        m.vertexCount == ToInt32(report.trigCount * 3) &&
        m.translation == position && m.color == DefaultColor &&
        m.vao != 0 && m.vao !in old(gl.arrays) && gl.arrays == old(gl.arrays) + {m.vao} &&
        l.buffer != 0 && l.buffer !in old(gl.buffers) && gl.buffers == old(gl.buffers)[l.buffer := []] &&
        l == StlLayout(l.buffer, report.bufSize.value, report.trigCount)
    {
      if report.bufSize.None? {
        return Err(InvalidFile);
      }
      var floats := report.bufSize.value / FloatBytes;
      var trigCount := report.trigCount;

      var vao := gl.GenVertexArray();
      var vbo := gl.GenBuffer();
      var positionOffset := 0;
      var normalOffset := trigCount * 9 * FloatBytes;
      var layout := Layout(vbo, floats * FloatBytes, positionOffset, normalOffset);

      var index := nextIndex;
      nextIndex := nextIndex + 1;
      issued := issued + [index];
      var m := StlMesh(index, vao, ToInt32(trigCount * 3), position, DefaultColor);
      r := Ok(Loaded(m, layout));
    }
  }
}
