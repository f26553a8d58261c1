/** The Wavefront OBJ / MTL loader (source/obj_parser/parser.cpp).

    A file is given as its non-blank lines, each split into its first word
    (the keyword that `file >> token` reads) and the text after it. The float
    extraction `readVector3` is a parameter: it is opaque to the model and
    either yields a vector or leaves the stream failed. MTL files are looked up
    by the name the `mtllib` line gives; a missing name is a file that cannot
    be opened. */
module ObjParser {
  import opened Common
  import opened Geometry
  import opened TextStream

  /** `struct Material`: only its diffuse colour, (0.8, 0.8, 0.8) by default. */
  datatype Material = Material(diffuse: Vec3)

  const DefaultMaterial := Material(Vec3(0.8, 0.8, 0.8))

  type MaterialLibrary = map<string, Material>

  /** One non-blank line: its keyword and the rest of the line. */
  datatype Line = Line(keyword: string, rest: string)

  /** The fatal errors of the loader (`util::fatalError`), plus the unchecked
      out-of-range table lookup, which the model reports instead of reading
      outside the table. */
  datatype LoadError =
    | ObjNotOpened
    | ObjParseFailed
    | MtlNotOpened(lib: string)
    | MtlParseFailed(lib: string)
    | IndexOutOfRange

  /** `readVector3` applied to the rest of a line: three floats, or None when the
      extraction fails. */
  type VecReader = string -> Option<Vec3>

  /** `isNumeric`: the characters that may start a further index of a face. */
  predicate IsNumeric(c: char)
    ensures IsNumeric(c) ==> !IsSpace(c) && c != '/'
  {
    IsDigit(c) || c == '-'
  }

  // ---------------------------------------------------------------- readVertex

  /** The three indices of a face reference `p/t/n`. */
  datatype Indices = Indices(position: nat, texture: nat, normal: nat)

  function SkipSlash(text: string, q: nat): (r: nat)
    requires q <= |text|
    ensures q <= r <= |text|
  {
    if q < |text| && text[q] == '/' then q + 1 else q
  }

  /** Step `i` of the loop in readVertex: index 0 is always extracted, the
      others only when the next character is numeric (otherwise they stay 0);
      then one '/' is consumed if present. */
  function FieldStep(text: string, q: nat, i: nat): (r: Option<(nat, nat)>)
    requires q <= |text|
    ensures r.Some? ==> q <= r.value.1 <= |text|
    ensures r.Some? && i == 0 ==> q < r.value.1
  {
    var read := if i == 0 || (q < |text| && IsNumeric(text[q])) then ReadSize(text, q) else Some((0, q));
    if read.None? then None else Some((read.value.0, SkipSlash(text, read.value.1)))
  }

  /** Steps `i` to 2 of the loop in readVertex, from position `q`. */
  function FieldsFrom(text: string, q: nat, i: nat): (r: Option<(seq<nat>, nat)>)
    requires q <= |text| && i <= 3
    ensures r.Some? ==> |r.value.0| == 3 - i && q <= r.value.1 <= |text|
    ensures r.Some? && i == 0 ==> q < r.value.1
    decreases 3 - i
  {
    if i == 3 then Some(([], q))
    else
      var step := FieldStep(text, q, i);
      if step.None? then None
      else Prepend([step.value.0], FieldsFrom(text, step.value.1, i + 1))
  }

  /** The indices of the reference starting at `pos` and the position after it. */
  function RefAt(text: string, pos: nat): (r: Option<(Indices, nat)>)
    requires pos <= |text|
    ensures r.Some? ==> pos < r.value.1 <= |text|
  {
    var fields := FieldsFrom(text, pos, 0);
    if fields.None? then None
    else Some((Indices(fields.value.0[0], fields.value.0[1], fields.value.0[2]), fields.value.1))
  }

  /** The lookup `{positions[i0], normals[i2], material.diffuse}`: unchecked
      indexing in the source, so the indices must lie inside the tables. */
  function Resolve(ix: Indices, positions: seq<Vec3>, normals: seq<Vec3>, material: Material): Vertex
    requires ix.position < |positions| && ix.normal < |normals|
  {
    Vertex(positions[ix.position], normals[ix.normal], material.diffuse)
  }

  /** readVertex at `pos`: the vertex and the position after the reference. */
  function VertexAt(text: string, pos: nat, positions: seq<Vec3>, normals: seq<Vec3>, material: Material)
    : (r: Result<(Vertex, nat), LoadError>)
    requires pos <= |text|
    ensures r.Ok? ==> pos < r.value.1 <= |text|
  {
    var ref := RefAt(text, pos);
    if ref.None? then Err(ObjParseFailed)
    else
      var ix := ref.value.0;
      if ix.position < |positions| && ix.normal < |normals| then
        Ok((Resolve(ix, positions, normals, material), ref.value.1))
      else
        Err(IndexOutOfRange)
  }

  function Prepend(pre: seq<nat>, r: Option<(seq<nat>, nat)>): Option<(seq<nat>, nat)> {
    if r.None? then None else Some((pre + r.value.0, r.value.1))
  }

  lemma PrependNothing(r: Option<(seq<nat>, nat)>)
    ensures Prepend([], r) == r
  {
    if r.Some? {
      assert [] + r.value.0 == r.value.0;
      assert r == Some((r.value.0, r.value.1));
    }
  }

  lemma PrependTwice(pre: seq<nat>, mid: seq<nat>, r: Option<(seq<nat>, nat)>)
    ensures Prepend(pre, Prepend(mid, r)) == Prepend(pre + mid, r)
  {
    if r.Some? {
      assert pre + (mid + r.value.0) == (pre + mid) + r.value.0;
    }
  }

  /** Whether the loop in readVertex extracts index `i` at `q`. */
  predicate Extracts(text: string, q: nat, i: nat) {
    i == 0 || (q < |text| && IsNumeric(text[q]))
  }

  /** A loop turn whose extraction fails ends the reference with a failure. */
  lemma FieldsFromFails(text: string, q: nat, i: nat)
    requires q <= |text| && i < 3 && Extracts(text, q, i) && ReadSize(text, q).None?
    ensures FieldsFrom(text, q, i) == None
  {
  }

  /** A loop turn that extracted `v` and stopped at `q1` (or left the index at 0
      without reading), then skipped a '/' if one follows. */
  lemma FieldsFromRead(text: string, q0: nat, i: nat, v: nat, q1: nat)
    requires q0 <= |text| && i < 3
    requires if Extracts(text, q0, i) then ReadSize(text, q0) == Some((v, q1)) else v == 0 && q1 == q0
    ensures q1 <= |text|
    ensures FieldsFrom(text, q0, i) == Prepend([v], FieldsFrom(text, SkipSlash(text, q1), i + 1))
  {
  }

  /** readVertex: extracts up to three indices into a buffer that starts as
      {0, 0, 0}, then looks the vertex up. */
  method ReadVertex(text: string, pos: nat, positions: seq<Vec3>, normals: seq<Vec3>, material: Material)
    returns (r: Result<(Vertex, nat), LoadError>)
    requires pos <= |text|
    ensures r == VertexAt(text, pos, positions, normals, material)
  {
    var indices := new nat[3](_ => 0);
    var q: nat := pos;
    PrependNothing(FieldsFrom(text, pos, 0));
    assert indices[..0] == [];
    for i := 0 to 3
      invariant q <= |text|
      invariant forall k :: i <= k < 3 ==> indices[k] == 0
      invariant FieldsFrom(text, pos, 0) == Prepend(indices[..i], FieldsFrom(text, q, i))
    {
      ghost var q0, done := q, indices[..i];
      if i == 0 || (q < |text| && IsNumeric(text[q])) {
        var read := ReadSize(text, q);
        if read.None? {
          FieldsFromFails(text, q, i);
          return Err(ObjParseFailed);
        }
        indices[i] := read.value.0;
        q := read.value.1;
      }
      FieldsFromRead(text, q0, i, indices[i], q);
      ghost var q1 := q;
      if q < |text| && text[q] == '/' {
        q := q + 1;
      }
      assert q == SkipSlash(text, q1);
      assert indices[..i + 1] == done + [indices[i]];
      PrependTwice(done, [indices[i]], FieldsFrom(text, q, i + 1));
    }
    assert FieldsFrom(text, pos, 0) == Some((indices[..3], q)) by {
      assert indices[..3] + [] == indices[..3];
    }
    var ix := Indices(indices[0], indices[1], indices[2]);
    if ix.position < |positions| && ix.normal < |normals| {
      r := Ok((Resolve(ix, positions, normals, material), q));
    } else {
      r := Err(IndexOutOfRange);
    }
  }

  // ---------------------------------------------------------------- faces

  /** The face loop after its first two references: while the next non-space
      character is numeric, read a reference and emit the triangle
      (first, last, current). */
  function FaceFrom(text: string, q: nat, first: Vertex, last: Vertex,
                    positions: seq<Vec3>, normals: seq<Vec3>, material: Material)
    : (r: Result<seq<Vertex>, LoadError>)
    requires q <= |text|
    ensures r.Ok? ==> Triangles(r.value, first)
    decreases |text| - q
  {
    var p := SkipWs(text, q);
    if p < |text| && IsNumeric(text[p]) then
      var v := VertexAt(text, p, positions, normals, material);
      if v.Err? then Err(v.error)
      else
        var rest := FaceFrom(text, v.value.1, first, v.value.0, positions, normals, material);
        ThenTriangle(first, last, v.value.0, rest);
        Then([first, last, v.value.0], rest)
    else
      Ok([])
  }

  /** Whole triangles, each starting with `first`. */
  predicate Triangles(vs: seq<Vertex>, first: Vertex) {
    |vs| % 3 == 0 && forall j :: 0 <= j < |vs| && j % 3 == 0 ==> vs[j] == first
  }

  /** Putting one triangle in front of whole triangles keeps them whole. */
  lemma ThenTriangle(first: Vertex, last: Vertex, v: Vertex, r: Result<seq<Vertex>, LoadError>)
    requires r.Ok? ==> Triangles(r.value, first)
    ensures Then([first, last, v], r).Ok? ==> Triangles(Then([first, last, v], r).value, first)
  {
    if r.Ok? {
      var vs := [first, last, v] + r.value;
      forall j | 0 <= j < |vs| && j % 3 == 0 ensures vs[j] == first {
        if j >= 3 {
          assert vs[j] == r.value[j - 3];
        }
      }
    }
  }

  /** The vertices an `f` line emits, read from the rest of the line. */
  function FaceVertices(text: string, positions: seq<Vec3>, normals: seq<Vec3>, material: Material)
    : (r: Result<seq<Vertex>, LoadError>)
  {
    var a := VertexAt(text, 0, positions, normals, material);
    if a.Err? then Err(a.error)
    else
      var b := VertexAt(text, a.value.1, positions, normals, material);
      if b.Err? then Err(b.error)
      else FaceFrom(text, b.value.1, a.value.0, b.value.0, positions, normals, material)
  }

  /** Where the face loop leaves the stream when it starts at `q`: after the
      last reference it reads and the white space behind it, at the first
      character that is not numeric. */
  function FaceLoopEnd(text: string, q: nat): (e: nat)
    requires q <= |text|
    ensures q <= e <= |text|
    ensures e == |text| || (!IsSpace(text[e]) && !IsNumeric(text[e])) || RefAt(text, e).None?
    decreases |text| - q
  {
    var p := SkipWs(text, q);
    if p < |text| && IsNumeric(text[p]) then
      match RefAt(text, p)
      case None => p
      case Some((_, e1)) => FaceLoopEnd(text, e1)
    else p
  }

  /** Where the `f` branch leaves the stream: after the two mandatory
      references, the face loop runs from the end of the second one. */
  function FaceLineEnd(text: string): (e: nat)
    ensures e <= |text|
  {
    match RefAt(text, 0)
    case None => 0
    case Some((_, a)) =>
      match RefAt(text, a)
      case None => a
      case Some((_, b)) => FaceLoopEnd(text, b)
  }

  /** The face loop ran to the end of the line: only white space follows the
      last reference it read. */
  predicate FaceReachesEnd(text: string) {
    FaceLineEnd(text) == |text|
  }

  function Then(pre: seq<Vertex>, r: Result<seq<Vertex>, LoadError>): Result<seq<Vertex>, LoadError> {
    match r
    case Err(e) => Err(e)
    case Ok(vs) => Ok(pre + vs)
  }

  /** Skipping white space before the face loop changes nothing. */
  lemma FaceFromSkip(text: string, q: nat, first: Vertex, last: Vertex,
                     positions: seq<Vec3>, normals: seq<Vec3>, material: Material)
    requires q <= |text|
    ensures SkipWs(text, SkipWs(text, q)) == SkipWs(text, q)
    ensures FaceFrom(text, q, first, last, positions, normals, material)
         == FaceFrom(text, SkipWs(text, q), first, last, positions, normals, material)
  {
  }

  /** One turn of the face loop at a numeric character. */
  lemma FaceFromStep(text: string, q: nat, first: Vertex, last: Vertex,
                     positions: seq<Vec3>, normals: seq<Vec3>, material: Material)
    requires q < |text| && q == SkipWs(text, q) && IsNumeric(text[q])
    ensures var v := VertexAt(text, q, positions, normals, material);
            (FaceFrom(text, q, first, last, positions, normals, material)
             == if v.Err? then Err(v.error)
                else Then([first, last, v.value.0], FaceFrom(text, v.value.1, first, v.value.0, positions, normals, material)))
  {
  }

  lemma ThenAppend(pre: seq<Vertex>, mid: seq<Vertex>, r: Result<seq<Vertex>, LoadError>)
    ensures Then(pre, Then(mid, r)) == Then(pre + mid, r)
    ensures Then([], r) == r
  {
    if r.Ok? {
      assert pre + (mid + r.value) == (pre + mid) + r.value;
      assert [] + r.value == r.value;
    }
  }

  /** Skipping white space before the face loop does not move where it ends. */
  lemma FaceLoopEndSkip(text: string, q: nat)
    requires q <= |text|
    ensures FaceLoopEnd(text, SkipWs(text, q)) == FaceLoopEnd(text, q)
  {
  }

  /** A vertex that resolves was read by `RefAt`, which stops where it does. */
  lemma VertexAtRef(text: string, p: nat, positions: seq<Vec3>, normals: seq<Vec3>, material: Material)
    requires p <= |text| && VertexAt(text, p, positions, normals, material).Ok?
    ensures RefAt(text, p).Some? && RefAt(text, p).value.1 == VertexAt(text, p, positions, normals, material).value.1
  {
  }

  /** The `f` branch of loadMeshesFromFile: triangulates the face as a fan, and
      reports where it left the stream. */
  method ReadFace(text: string, positions: seq<Vec3>, normals: seq<Vec3>, material: Material)
    returns (r: Result<seq<Vertex>, LoadError>, end: nat)
    ensures r == FaceVertices(text, positions, normals, material)
    ensures r.Ok? ==> end == FaceLineEnd(text)
  {
    end := 0;
    var a := ReadVertex(text, 0, positions, normals, material);
    if a.Err? {
      return Err(a.error), end;
    }
    var first := a.value.0;
    var b := ReadVertex(text, a.value.1, positions, normals, material);
    if b.Err? {
      return Err(b.error), end;
    }
    var last := b.value.0;
    VertexAtRef(text, 0, positions, normals, material);
    VertexAtRef(text, a.value.1, positions, normals, material);
    var emitted: seq<Vertex> := [];
    var q := SkipWs(text, b.value.1);
    FaceFromSkip(text, b.value.1, first, last, positions, normals, material);
    FaceLoopEndSkip(text, b.value.1);
    ThenAppend([], [], FaceFrom(text, q, first, last, positions, normals, material));
    while q < |text| && IsNumeric(text[q])
      invariant q <= |text|
      invariant q == SkipWs(text, q)
      invariant FaceVertices(text, positions, normals, material)
             == Then(emitted, FaceFrom(text, q, first, last, positions, normals, material))
      invariant FaceLineEnd(text) == FaceLoopEnd(text, q)
      decreases |text| - q
    {
      FaceFromStep(text, q, first, last, positions, normals, material);
      var c := ReadVertex(text, q, positions, normals, material);
      if c.Err? {
        return Err(c.error), end;
      }
      var curr := c.value.0;
      VertexAtRef(text, q, positions, normals, material);
      FaceFromSkip(text, c.value.1, first, curr, positions, normals, material);
      FaceLoopEndSkip(text, c.value.1);
      ThenAppend(emitted, [first, last, curr], FaceFrom(text, c.value.1, first, curr, positions, normals, material));
      emitted := emitted + [first, last, curr];
      last := curr;
      q := SkipWs(text, c.value.1);
    }
    assert FaceFrom(text, q, first, last, positions, normals, material) == Ok([]);
    assert emitted + [] == emitted;
    return Ok(emitted), q;
  }

  // ---------------------------------------------------------------- MTL

  /** The parser state of parseMtlLibrary: the current material name and the
      library built so far. */
  datatype MtlState = MtlState(name: string, library: MaterialLibrary)

  /** One line of an MTL file: `newmtl` names the current material, `Kd` sets
      its diffuse colour, every other line is skipped. */
  function MtlStep(st: MtlState, line: Line, readVec: VecReader): (r: Option<MtlState>)
    ensures r.None? ==> line.keyword == "newmtl" || line.keyword == "Kd"
    ensures r.Some? ==> r.value.library.Keys <= st.library.Keys + {st.name}
    ensures r.Some? ==> forall k :: k in st.library && k != st.name ==> k in r.value.library && r.value.library[k] == st.library[k]
  {
    if line.keyword == "newmtl" then
      match FirstWord(line.rest)
      case None => None
      case Some(name) => Some(st.(name := name))
    else if line.keyword == "Kd" then
      match readVec(line.rest)
      case None => None
      case Some(c) => Some(st.(library := st.library[st.name := Material(c)]))
    else
      Some(st)
  }

  function MtlRun(st: MtlState, lines: seq<Line>, readVec: VecReader): Option<MtlState>
    decreases |lines|
  {
    if lines == [] then Some(st)
    else
      match MtlStep(st, lines[0], readVec)
      case None => None
      case Some(st1) => MtlRun(st1, lines[1..], readVec)
  }

  const MtlStart := MtlState("", map[])

  /** parseMtlLibrary: a file that cannot be opened, an empty file and a
      failed extraction are fatal. */
  function ParseMtl(file: Option<seq<Line>>, lib: string, readVec: VecReader): Result<MaterialLibrary, LoadError> {
    match file
    case None => Err(MtlNotOpened(lib))
    case Some(lines) =>
      if lines == [] then Err(MtlParseFailed(lib))
      else
        match MtlRun(MtlStart, lines, readVec)
        case None => Err(MtlParseFailed(lib))
        case Some(st) => Ok(st.library)
  }

  method ParseMtlLibrary(file: Option<seq<Line>>, lib: string, readVec: VecReader)
    returns (r: Result<MaterialLibrary, LoadError>)
    ensures r == ParseMtl(file, lib, readVec)
  {
    var result: MaterialLibrary := map[];
    var materialName := "";
    if file.None? {
      return Err(MtlNotOpened(lib));
    }
    var lines := file.value;
    if lines == [] {
      return Err(MtlParseFailed(lib));
    }
    var i := 0;
    while i < |lines|
      invariant i <= |lines|
      invariant MtlRun(MtlStart, lines, readVec) == MtlRun(MtlState(materialName, result), lines[i..], readVec)
    {
      var line := lines[i];
      assert lines[i..][1..] == lines[i + 1..];
      if line.keyword == "newmtl" {
        var name := FirstWord(line.rest);
        if name.None? {
          return Err(MtlParseFailed(lib));
        }
        materialName := name.value;
      } else if line.keyword == "Kd" {
        var c := readVec(line.rest);
        if c.None? {
          return Err(MtlParseFailed(lib));
        }
        result := result[materialName := Material(c.value)];
      }
      assert lines[..i + 1][i] == line;
      i := i + 1;
    }
    return Ok(result);
  }

  // ---------------------------------------------------------------- OBJ

  /** The locals of loadMeshesFromFile. */
  datatype ObjState = ObjState(
    positions: seq<Vec3>,
    normals: seq<Vec3>,
    meshes: seq<seq<Vertex>>,
    meshVertices: seq<Vertex>,
    materials: MaterialLibrary,
    current: Material)

  /** Position and normal tables start with one placeholder, because OBJ
      indices begin at 1. */
  const Start := ObjState([Zero], [Zero], [], [], map[], DefaultMaterial)

  /** The MTL file a `mtllib` line names, if it can be opened. */
  function LibFile(libs: map<string, seq<Line>>, lib: string): Option<seq<Line>> {
    if lib in libs then Some(libs[lib]) else None
  }

  /** One line of an OBJ file. */
  function StepLine(st: ObjState, line: Line, libs: map<string, seq<Line>>, readVec: VecReader)
    : (r: Result<ObjState, LoadError>)
    ensures r.Err? ==> line.keyword in ["v", "vn", "f", "mtllib", "usemtl"]
    ensures r.Ok? ==> st.positions <= r.value.positions && st.normals <= r.value.normals && st.meshes <= r.value.meshes
    ensures r.Ok? && line.keyword != "f" && line.keyword != "o" ==> r.value.meshVertices == st.meshVertices
  {
    var kw := line.keyword;
    if kw == "v" then
      match readVec(line.rest)
      case None => Err(ObjParseFailed)
      case Some(p) => Ok(st.(positions := st.positions + [p]))
    else if kw == "vn" then
      match readVec(line.rest)
      case None => Err(ObjParseFailed)
      case Some(n) => Ok(st.(normals := st.normals + [n]))
    else if kw == "f" then
      match FaceVertices(line.rest, st.positions, st.normals, st.current)
      case Err(e) => Err(e)
      case Ok(vs) => Ok(st.(meshVertices := st.meshVertices + vs))
    else if kw == "mtllib" then
      match FirstWord(line.rest)
      case None => Err(ObjParseFailed)
      case Some(lib) =>
        match ParseMtl(LibFile(libs, lib), lib, readVec)
        case Err(e) => Err(e)
        case Ok(m) => Ok(st.(materials := m))
    else if kw == "usemtl" then
      match FirstWord(line.rest)
      case None => Err(ObjParseFailed)
      case Some(name) =>
        if name in st.materials then Ok(st.(current := st.materials[name]))
        else Ok(st.(materials := st.materials[name := DefaultMaterial], current := DefaultMaterial))
    else if kw == "o" then
      if st.meshVertices == [] then Ok(st)
      else Ok(st.(meshes := st.meshes + [st.meshVertices], meshVertices := []))
    else
      Ok(st)
  }

  function Run(st: ObjState, lines: seq<Line>, libs: map<string, seq<Line>>, readVec: VecReader)
    : Result<ObjState, LoadError>
    decreases |lines|
  {
    if lines == [] then Ok(st)
    else
      match StepLine(st, lines[0], libs, readVec)
      case Err(e) => Err(e)
      case Ok(st1) => Run(st1, lines[1..], libs, readVec)
  }

  /** The vertices left over at the end of the file form a last mesh. */
  function Finish(st: ObjState): (r: seq<seq<Vertex>>)
    ensures st.meshes <= r && |r| <= |st.meshes| + 1
    ensures r == st.meshes <==> st.meshVertices == []
    ensures |r| > |st.meshes| ==> r[|st.meshes|] == st.meshVertices
  {
    if st.meshVertices == [] then st.meshes else st.meshes + [st.meshVertices]
  }

  /** The last line is a face, and only white space follows the last reference
      its face loop reads. The face loop's `file >> std::ws` then runs into the
      end of the file, so the stream is no longer good when the main loop's own
      `file >> std::ws` runs; its sentry sets the fail bit. When other text
      follows the references (`f 1 2 3 # c`), the face loop stops at it, the
      main loop reads it as a keyword and `ignore` skips the rest of the line,
      stopping at the newline, as it does for every line that is not a face. */
  predicate EndsInFace(lines: seq<Line>) {
    lines != [] && lines[|lines| - 1].keyword == "f" && FaceReachesEnd(lines[|lines| - 1].rest)
  }

  /** loadMeshesFromFile: each mesh as its vertex sequence. The stream check
      after the loop fails for an unparsable line and for a file whose last line
      is a face that runs to the end of the file. */
  function LoadObj(file: Option<seq<Line>>, libs: map<string, seq<Line>>, readVec: VecReader)
    : Result<seq<seq<Vertex>>, LoadError>
  {
    match file
    case None => Err(ObjNotOpened)
    case Some(lines) =>
      if lines == [] then Err(ObjParseFailed)
      else
        match Run(Start, lines, libs, readVec)
        case Err(e) => Err(e)
        case Ok(st) => if EndsInFace(lines) then Err(ObjParseFailed) else Ok(Finish(st))
  }

  /** The run from line `i` on is the step on line `i`, then the run after it. */
  lemma RunNext(st: ObjState, lines: seq<Line>, i: nat, libs: map<string, seq<Line>>, readVec: VecReader)
    requires i < |lines|
    ensures Run(st, lines[i..], libs, readVec)
         == match StepLine(st, lines[i], libs, readVec)
            case Err(e) => Err(e)
            case Ok(st1) => Run(st1, lines[i + 1..], libs, readVec)
  {
    assert lines[i..][0] == lines[i] && lines[i..][1..] == lines[i + 1..];
  }

  method LoadMeshesFromFile(file: Option<seq<Line>>, libs: map<string, seq<Line>>, readVec: VecReader)
    returns (r: Result<seq<seq<Vertex>>, LoadError>)
    ensures r == LoadObj(file, libs, readVec)
  {
    var positions := [Zero];
    var normals := [Zero];
    var meshes: seq<seq<Vertex>> := [];
    var meshVertices: seq<Vertex> := [];
    var materials: MaterialLibrary := map[];
    var currentMaterial := DefaultMaterial;
    if file.None? {
      return Err(ObjNotOpened);
    }
    var lines := file.value;
    if lines == [] {
      return Err(ObjParseFailed);
    }
    var i := 0;
    // Whether the face loop of the line just read ran to the end of the file.
    var atEnd := false;
    while i < |lines|
      invariant i <= |lines|
      invariant Run(Start, lines, libs, readVec)
             == Run(ObjState(positions, normals, meshes, meshVertices, materials, currentMaterial), lines[i..], libs, readVec)
      invariant atEnd == (0 < i && EndsInFace(lines[..i]))
    {
      var line := lines[i];
      atEnd := false;
      RunNext(ObjState(positions, normals, meshes, meshVertices, materials, currentMaterial), lines, i, libs, readVec);
      if line.keyword == "v" {
        var p := readVec(line.rest);
        if p.None? {
          return Err(ObjParseFailed);
        }
        positions := positions + [p.value];
      } else if line.keyword == "vn" {
        var n := readVec(line.rest);
        if n.None? {
          return Err(ObjParseFailed);
        }
        normals := normals + [n.value];
      } else if line.keyword == "f" {
        var face, end := ReadFace(line.rest, positions, normals, currentMaterial);
        if face.Err? {
          return Err(face.error);
        }
        meshVertices := meshVertices + face.value;
        atEnd := end == |line.rest|;
      } else if line.keyword == "mtllib" {
        var lib := FirstWord(line.rest);
        if lib.None? {
          return Err(ObjParseFailed);
        }
        var m := ParseMtlLibrary(LibFile(libs, lib.value), lib.value, readVec);
        if m.Err? {
          return Err(m.error);
        }
        materials := m.value;
      } else if line.keyword == "usemtl" {
        var name := FirstWord(line.rest);
        if name.None? {
          return Err(ObjParseFailed);
        }
        if name.value !in materials {
          materials := materials[name.value := DefaultMaterial];
        }
        currentMaterial := materials[name.value];
      } else if line.keyword == "o" {
        if meshVertices != [] {
          meshes := meshes + [meshVertices];
          meshVertices := [];
        }
      }
      i := i + 1;
    }
    if meshVertices != [] {
      meshes := meshes + [meshVertices];
    }
    assert lines[..i] == lines;
    if atEnd {
      return Err(ObjParseFailed);
    }
    return Ok(meshes);
  }
}
