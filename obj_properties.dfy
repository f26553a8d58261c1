/** What loadMeshesFromFile and parseMtlLibrary promise about a whole file
    (source/obj_parser/parser.cpp:29-55, 82-148): the index tables, the
    split into meshes, the colours, the material tables and the fatal errors. */
module ObjProperties {
  import opened Common
  import opened Geometry
  import opened TextStream
  import opened ObjParser
  import opened ObjFaces
  import opened ObjRefs

  // ------------------------------------------------------- composition

  /** Reading a file in two parts: the second part starts from the state the
      first leaves, and an error in the first part ends the load. */
  lemma {:induction false} RunAppend(st: ObjState, a: seq<Line>, b: seq<Line>,
                                     libs: map<string, seq<Line>>, readVec: VecReader)
    ensures var ra := Run(st, a, libs, readVec);
            Run(st, a + b, libs, readVec) == if ra.Err? then Err(ra.error) else Run(ra.value, b, libs, readVec)
    decreases |a|
  {
    if a == [] {
      assert a + b == b;
    } else {
      assert (a + b)[0] == a[0] && (a + b)[1..] == a[1..] + b;
      var s1 := StepLine(st, a[0], libs, readVec);
      if s1.Ok? {
        RunAppend(s1.value, a[1..], b, libs, readVec);
      }
    }
  }

  /** A line that fails stops the load with its error, whatever follows. */
  lemma RunStopsAtError(st: ObjState, a: seq<Line>, line: Line, b: seq<Line>, s: ObjState, e: LoadError,
                        libs: map<string, seq<Line>>, readVec: VecReader)
    requires Run(st, a, libs, readVec) == Ok(s) && StepLine(s, line, libs, readVec) == Err(e)
    ensures Run(st, a + [line] + b, libs, readVec) == Err(e)
  {
    RunAppend(st, a, [line] + b, libs, readVec);
    assert a + [line] + b == a + ([line] + b);
    assert ([line] + b)[0] == line;
  }

  /** The fatal errors that need no parsing: an OBJ file that cannot be
      opened, an empty OBJ file, an MTL file that cannot be opened or is
      empty. */
  lemma FatalFiles(libs: map<string, seq<Line>>, readVec: VecReader, lib: string, st: ObjState, rest: string)
    ensures LoadObj(None, libs, readVec) == Err(ObjNotOpened)
    ensures LoadObj(Some([]), libs, readVec) == Err(ObjParseFailed)
    ensures ParseMtl(None, lib, readVec) == Err(MtlNotOpened(lib))
    ensures ParseMtl(Some([]), lib, readVec) == Err(MtlParseFailed(lib))
    ensures FirstWord(rest) == Some(lib) && lib !in libs ==>
              StepLine(st, Line("mtllib", rest), libs, readVec) == Err(MtlNotOpened(lib))
  {
    assert LibFile(libs, lib) == None ==> ParseMtl(LibFile(libs, lib), lib, readVec) == Err(MtlNotOpened(lib));
  }

  /** A file loads exactly when it is not empty, every line parses and the
      last line is not a face whose loop runs to the end of the file. */
  lemma LoadsExactly(lines: seq<Line>, libs: map<string, seq<Line>>, readVec: VecReader)
    ensures LoadObj(Some(lines), libs, readVec).Ok? <==>
            lines != [] && Run(Start, lines, libs, readVec).Ok? && !EndsInFace(lines)
    ensures LoadObj(Some(lines), libs, readVec).Ok? ==>
            LoadObj(Some(lines), libs, readVec).value == Finish(Run(Start, lines, libs, readVec).value)
  {
  }

  /** A file whose lines all parse but whose last line is a face that runs to
      the end of the file fails with the parse error; one more line of any other
      kind after it, such as an `o` line, lets the same faces load. */
  lemma FaceAtEndFails(lines: seq<Line>, name: string, libs: map<string, seq<Line>>, readVec: VecReader)
    requires EndsInFace(lines) && Run(Start, lines, libs, readVec).Ok?
    ensures LoadObj(Some(lines), libs, readVec) == Err(ObjParseFailed)
    ensures LoadObj(Some(lines + [Line("o", name)]), libs, readVec).Ok?
  {
    var st := Run(Start, lines, libs, readVec).value;
    var more := lines + [Line("o", name)];
    assert more[|more| - 1].keyword == "o";
    RunAppend(Start, lines, [Line("o", name)], libs, readVec);
    var st1 := StepLine(st, Line("o", name), libs, readVec);
    assert st1.Ok?;
    assert [Line("o", name)][1..] == [];
    assert Run(st, [Line("o", name)], libs, readVec) == Run(st1.value, [], libs, readVec);
  }

  /** A one-digit reference followed by a space or the end of the line. */
  lemma OneDigitRef(t: string, k: nat)
    requires k < |t| && IsDigit(t[k]) && (k + 1 < |t| ==> t[k + 1] == ' ')
    ensures RefAt(t, k).Some? && RefAt(t, k).value.1 == k + 1
  {
    var ds := t[k..k + 1];
    assert ds == [t[k]] && ds[..0] == [];
    WrittenP(t, k, k + 1, DigitValue(t[k]));
  }

  /** The face loop starts after the two mandatory references. */
  lemma FaceLineEndTwo(t: string, a: nat, b: nat)
    requires RefAt(t, 0).Some? && RefAt(t, 0).value.1 == a
    requires a <= |t| && RefAt(t, a).Some? && RefAt(t, a).value.1 == b
    ensures FaceLineEnd(t) == FaceLoopEnd(t, b)
  {
  }

  /** One turn of the face loop: it goes on after the reference it reads. */
  lemma FaceLoopNext(t: string, q: nat, p: nat, e: nat)
    requires q <= p < |t| && SkipWs(t, q) == p && IsNumeric(t[p])
    requires RefAt(t, p).Some? && RefAt(t, p).value.1 == e
    ensures FaceLoopEnd(t, q) == FaceLoopEnd(t, e)
  {
  }

  /** The face loop stops at the first character after white space that
      cannot start a reference. */
  lemma FaceLoopStops(t: string, q: nat, p: nat)
    requires q <= p <= |t| && SkipWs(t, q) == p && (p < |t| ==> !IsNumeric(t[p]))
    ensures FaceLoopEnd(t, q) == p
  {
  }

  /** A face of three one-digit references, such as `f 1 2 3`, with
      anything after a space. */
  predicate ThreeDigitRefs(t: string) {
    && 5 <= |t| && IsDigit(t[0]) && t[1] == ' ' && IsDigit(t[2]) && t[3] == ' ' && IsDigit(t[4])
    && (5 < |t| ==> t[5] == ' ')
  }

  /** The two mandatory references of such a face end at position 3. */
  lemma ThreeDigitRefsMandatory(t: string)
    requires ThreeDigitRefs(t)
    ensures FaceLineEnd(t) == FaceLoopEnd(t, 3)
  {
    OneDigitRef(t, 0);
    OneDigitRef(t, 2);
    RefAfterSpace(t, 1);
    FaceLineEndTwo(t, 1, 3);
  }

  /** The face loop then reads the third reference. */
  lemma ThreeDigitRefsLoop(t: string)
    requires ThreeDigitRefs(t)
    ensures FaceLoopEnd(t, 3) == FaceLoopEnd(t, 5)
  {
    OneDigitRef(t, 4);
    SkipWsTo(t, 3, 4);
    FaceLoopNext(t, 3, 4, 5);
  }

  /** Such a face leaves the stream after the white space behind its third
      reference, unless a fourth one follows. */
  lemma ThreeDigitRefsEnd(t: string)
    requires ThreeDigitRefs(t)
    requires SkipWs(t, 5) < |t| ==> !IsNumeric(t[SkipWs(t, 5)])
    ensures FaceLineEnd(t) == SkipWs(t, 5)
  {
    ThreeDigitRefsMandatory(t);
    ThreeDigitRefsLoop(t);
    FaceLoopStops(t, 5, SkipWs(t, 5));
  }

  /** An instance of `LoadsExactly` for faces of three one-digit references.
      A last face followed by other text, such as `f 1 2 3 # c`, loads: the
      face loop stops at that text, which the main loop then reads as a
      keyword and skips with the rest of the line. With only white space after
      the references, the same file fails. */
  lemma TextAfterLastFace(lines: seq<Line>, text: string, libs: map<string, seq<Line>>, readVec: VecReader)
    requires ThreeDigitRefs(text)
    requires SkipWs(text, 5) < |text| ==> !IsNumeric(text[SkipWs(text, 5)])
    requires Run(Start, lines + [Line("f", text)], libs, readVec).Ok?
    ensures LoadObj(Some(lines + [Line("f", text)]), libs, readVec).Ok?
            <==> exists k :: 5 <= k < |text| && !IsSpace(text[k])
  {
    var all := lines + [Line("f", text)];
    assert all[|all| - 1] == Line("f", text);
    ThreeDigitRefsEnd(text);
    SkipWsSpaces(text, 5);
  }

  // ------------------------------------------------------------ tables

  /** The vectors that the lines with keyword `kw` contribute, in file order. */
  function Vectors(lines: seq<Line>, kw: string, readVec: VecReader): seq<Vec3> {
    if lines == [] then []
    else
      var v := readVec(lines[0].rest);
      (if lines[0].keyword == kw && v.Some? then [v.value] else []) + Vectors(lines[1..], kw, readVec)
  }

  /** One line appends to the position table exactly when it is `v`, and to
      the normal table exactly when it is `vn`. */
  lemma StepTables(st: ObjState, line: Line, libs: map<string, seq<Line>>, readVec: VecReader)
    requires StepLine(st, line, libs, readVec).Ok?
    ensures var s := StepLine(st, line, libs, readVec).value;
            var v := readVec(line.rest);
            && s.positions == st.positions + (if line.keyword == "v" && v.Some? then [v.value] else [])
            && s.normals == st.normals + (if line.keyword == "vn" && v.Some? then [v.value] else [])
  {
    var v := readVec(line.rest);
    if line.keyword != "v" {
      assert st.positions + [] == st.positions;
    }
    if line.keyword != "vn" {
      assert st.normals + [] == st.normals;
    }
  }

  lemma {:induction false} RunTables(st: ObjState, lines: seq<Line>, libs: map<string, seq<Line>>, readVec: VecReader)
    requires Run(st, lines, libs, readVec).Ok?
    ensures var s := Run(st, lines, libs, readVec).value;
            && s.positions == st.positions + Vectors(lines, "v", readVec)
            && s.normals == st.normals + Vectors(lines, "vn", readVec)
    decreases |lines|
  {
    if lines != [] {
      var s1 := StepLine(st, lines[0], libs, readVec).value;
      StepTables(st, lines[0], libs, readVec);
      RunTables(s1, lines[1..], libs, readVec);
      var v := readVec(lines[0].rest);
      var p := if lines[0].keyword == "v" && v.Some? then [v.value] else [];
      var n := if lines[0].keyword == "vn" && v.Some? then [v.value] else [];
      Associative(st.positions, p, Vectors(lines[1..], "v", readVec));
      Associative(st.normals, n, Vectors(lines[1..], "vn", readVec));
    }
  }

  /** After the whole file, OBJ position index n (from 1) selects the n-th
      `v` line and normal index n the n-th `vn` line; index 0 is the
      placeholder. */
  lemma IndexSelectsNth(lines: seq<Line>, libs: map<string, seq<Line>>, readVec: VecReader)
    requires Run(Start, lines, libs, readVec).Ok?
    ensures var s := Run(Start, lines, libs, readVec).value;
            var vs, ns := Vectors(lines, "v", readVec), Vectors(lines, "vn", readVec);
            && |s.positions| == |vs| + 1 && s.positions[0] == Zero
            && (forall n :: 1 <= n <= |vs| ==> s.positions[n] == vs[n - 1])
            && |s.normals| == |ns| + 1 && s.normals[0] == Zero
            && (forall n :: 1 <= n <= |ns| ==> s.normals[n] == ns[n - 1])
  {
    RunTables(Start, lines, libs, readVec);
  }

  // ------------------------------------------------------------ meshes

  function Flatten(ms: seq<seq<Vertex>>): seq<Vertex> {
    if ms == [] then [] else ms[0] + Flatten(ms[1..])
  }

  lemma {:induction false} FlattenSnoc(ms: seq<seq<Vertex>>, m: seq<Vertex>)
    ensures Flatten(ms + [m]) == Flatten(ms) + m
    decreases |ms|
  {
    if ms == [] {
      assert [] + [m] == [m];
      assert Flatten([m]) == m + Flatten([]);
    } else {
      assert (ms + [m])[0] == ms[0] && (ms + [m])[1..] == ms[1..] + [m];
      FlattenSnoc(ms[1..], m);
    }
  }

  /** Everything the faces read so far emitted: the closed meshes, then the
      open one. */
  function Emitted(st: ObjState): seq<Vertex> {
    Flatten(st.meshes) + st.meshVertices
  }

  predicate NoEmptyMesh(ms: seq<seq<Vertex>>) {
    forall i :: 0 <= i < |ms| ==> ms[i] != []
  }

  /** The vertices a line emits: the fan of an `f` line, nothing otherwise. */
  function FaceOutput(st: ObjState, line: Line): seq<Vertex> {
    var r := FaceVertices(line.rest, st.positions, st.normals, st.current);
    if line.keyword == "f" && r.Ok? then r.value else []
  }

  lemma Associative<T>(a: seq<T>, b: seq<T>, c: seq<T>)
    ensures a + b + c == a + (b + c)
  {
  }

  /** One line adds its face output to what was emitted. */
  lemma StepEmitted(st: ObjState, line: Line, libs: map<string, seq<Line>>, readVec: VecReader)
    requires StepLine(st, line, libs, readVec).Ok?
    ensures Emitted(StepLine(st, line, libs, readVec).value) == Emitted(st) + FaceOutput(st, line)
  {
    var s := StepLine(st, line, libs, readVec).value;
    if line.keyword == "o" && st.meshVertices != [] {
      FlattenSnoc(st.meshes, st.meshVertices);
      assert s.meshes == st.meshes + [st.meshVertices] && s.meshVertices == [];
      assert Emitted(s) == Flatten(st.meshes + [st.meshVertices]) + [];
    } else if line.keyword == "f" {
      assert s.meshes == st.meshes && s.meshVertices == st.meshVertices + FaceOutput(st, line);
      Associative(Flatten(st.meshes), st.meshVertices, FaceOutput(st, line));
    } else {
      assert s.meshes == st.meshes && s.meshVertices == st.meshVertices;
      assert Emitted(s) + [] == Emitted(s);
    }
  }

  /** One line keeps every closed mesh non-empty, and closes at most one
      mesh, only on `o`. */
  lemma StepMeshes(st: ObjState, line: Line, libs: map<string, seq<Line>>, readVec: VecReader)
    requires StepLine(st, line, libs, readVec).Ok?
    ensures var s := StepLine(st, line, libs, readVec).value;
            && (NoEmptyMesh(st.meshes) ==> NoEmptyMesh(s.meshes))
            && |s.meshes| <= |st.meshes| + (if line.keyword == "o" then 1 else 0)
  {
    var s := StepLine(st, line, libs, readVec).value;
    if line.keyword == "o" && st.meshVertices != [] {
      assert s.meshes == st.meshes + [st.meshVertices];
    } else {
      assert s.meshes == st.meshes;
    }
  }

  /** The vertices the faces of `lines` emit, each face read in the state
      the lines before it leave. */
  function EmittedBy(st: ObjState, lines: seq<Line>, libs: map<string, seq<Line>>, readVec: VecReader)
    : seq<Vertex>
    decreases |lines|
  {
    if lines == [] then []
    else
      var s1 := StepLine(st, lines[0], libs, readVec);
      if s1.Err? then [] else FaceOutput(st, lines[0]) + EmittedBy(s1.value, lines[1..], libs, readVec)
  }

  function CountKeyword(lines: seq<Line>, kw: string): nat {
    if lines == [] then 0 else (if lines[0].keyword == kw then 1 else 0) + CountKeyword(lines[1..], kw)
  }

  lemma {:induction false} RunMeshes(st: ObjState, lines: seq<Line>, libs: map<string, seq<Line>>, readVec: VecReader)
    requires Run(st, lines, libs, readVec).Ok?
    ensures var s := Run(st, lines, libs, readVec).value;
            && Emitted(s) == Emitted(st) + EmittedBy(st, lines, libs, readVec)
            && (NoEmptyMesh(st.meshes) ==> NoEmptyMesh(s.meshes))
            && |s.meshes| <= |st.meshes| + CountKeyword(lines, "o")
    decreases |lines|
  {
    if lines == [] {
      assert Emitted(st) + [] == Emitted(st);
    } else {
      var s1 := StepLine(st, lines[0], libs, readVec).value;
      StepEmitted(st, lines[0], libs, readVec);
      StepMeshes(st, lines[0], libs, readVec);
      RunMeshes(s1, lines[1..], libs, readVec);
      Associative(Emitted(st), FaceOutput(st, lines[0]), EmittedBy(s1, lines[1..], libs, readVec));
    }
  }

  /** The end of the file closes the open mesh if it holds vertices. */
  lemma FinishMeshes(st: ObjState)
    ensures Flatten(Finish(st)) == Emitted(st)
    ensures NoEmptyMesh(st.meshes) ==> NoEmptyMesh(Finish(st))
    ensures |Finish(st)| <= |st.meshes| + 1
  {
    if st.meshVertices == [] {
      assert Emitted(st) == Flatten(st.meshes) + [];
    } else {
      FlattenSnoc(st.meshes, st.meshVertices);
    }
  }

  /** loadMeshesFromFile returns no empty mesh, at most one more mesh than
      there are `o` lines, and the meshes together hold exactly the vertices
      the faces emitted, in file order. */
  lemma LoadedMeshes(lines: seq<Line>, libs: map<string, seq<Line>>, readVec: VecReader)
    requires LoadObj(Some(lines), libs, readVec).Ok?
    ensures var ms := LoadObj(Some(lines), libs, readVec).value;
            && NoEmptyMesh(ms)
            && Flatten(ms) == EmittedBy(Start, lines, libs, readVec)
            && |ms| <= CountKeyword(lines, "o") + 1
  {
    RunMeshes(Start, lines, libs, readVec);
    var s := Run(Start, lines, libs, readVec).value;
    FinishMeshes(s);
    assert Emitted(Start) == [];
  }

  // ----------------------------------------------------------- colours

  /** A face takes the diffuse colour of the material current when it is read. */
  lemma FaceOutputColour(st: ObjState, line: Line)
    ensures Coloured(FaceOutput(st, line), st.current.diffuse)
  {
    FaceTriangles(line.rest, st.positions, st.normals, st.current);
  }

  /** Without `usemtl` lines the current material never changes, and every
      vertex emitted is in its colour. */
  lemma {:induction false} RunWithoutUsemtl(st: ObjState, lines: seq<Line>, libs: map<string, seq<Line>>, readVec: VecReader)
    requires CountKeyword(lines, "usemtl") == 0 && Run(st, lines, libs, readVec).Ok?
    ensures Run(st, lines, libs, readVec).value.current == st.current
    ensures Coloured(EmittedBy(st, lines, libs, readVec), st.current.diffuse)
    decreases |lines|
  {
    if lines != [] {
      var s1 := StepLine(st, lines[0], libs, readVec).value;
      assert s1.current == st.current;
      RunWithoutUsemtl(s1, lines[1..], libs, readVec);
      FaceOutputColour(st, lines[0]);
    }
  }

  /** A file without `usemtl` gives every vertex the default grey (0.8, 0.8, 0.8). */
  lemma DefaultColour(lines: seq<Line>, libs: map<string, seq<Line>>, readVec: VecReader)
    requires CountKeyword(lines, "usemtl") == 0 && LoadObj(Some(lines), libs, readVec).Ok?
    ensures forall m :: m in LoadObj(Some(lines), libs, readVec).value ==> Coloured(m, Vec3(0.8, 0.8, 0.8))
  {
    LoadedMeshes(lines, libs, readVec);
    RunWithoutUsemtl(Start, lines, libs, readVec);
    var ms := LoadObj(Some(lines), libs, readVec).value;
    forall m | m in ms ensures Coloured(m, Vec3(0.8, 0.8, 0.8)) {
      var i :| 0 <= i < |ms| && ms[i] == m;
      FlattenHolds(ms, i);
    }
  }

  /** Mesh `i` lies inside the concatenation of all meshes. */
  lemma {:induction false} FlattenHolds(ms: seq<seq<Vertex>>, i: nat)
    requires i < |ms|
    ensures forall j :: 0 <= j < |ms[i]| ==> ms[i][j] in Flatten(ms)
    decreases i
  {
    if i > 0 {
      FlattenHolds(ms[1..], i - 1);
      assert ms[1..][i - 1] == ms[i];
    }
  }

  // --------------------------------------------------------- materials

  /** `usemtl name`: the current material becomes the table's entry for
      `name`; a missing name gets the default material, which is also
      inserted into the table (std::unordered_map::operator[]). */
  lemma StepUsemtl(st: ObjState, rest: string, name: string, libs: map<string, seq<Line>>, readVec: VecReader)
    requires FirstWord(rest) == Some(name)
    ensures var r := StepLine(st, Line("usemtl", rest), libs, readVec);
            && r.Ok?
            && r.value.current == (if name in st.materials then st.materials[name] else DefaultMaterial)
            && r.value.materials.Keys == st.materials.Keys + {name}
            && r.value.materials[name] == r.value.current
            && (forall n :: n in st.materials ==> r.value.materials[n] == st.materials[n])
            && r.value.(current := st.current, materials := st.materials) == st
  {
  }

  /** `mtllib lib` replaces the whole material table by the library read
      from `lib`, and changes nothing else. */
  lemma StepMtllib(st: ObjState, rest: string, lib: string, libs: map<string, seq<Line>>, readVec: VecReader)
    requires FirstWord(rest) == Some(lib) && ParseMtl(LibFile(libs, lib), lib, readVec).Ok?
    ensures var r := StepLine(st, Line("mtllib", rest), libs, readVec);
            && r.Ok?
            && r.value.materials == ParseMtl(LibFile(libs, lib), lib, readVec).value
            && r.value.(materials := st.materials) == st
  {
  }

  /** Lines with any other keyword (`vt`, `s`, `#`, ...) change nothing. */
  predicate Ignored(line: Line) {
    line.keyword !in {"v", "vn", "f", "mtllib", "usemtl", "o"}
  }

  lemma {:induction false} RunIgnored(st: ObjState, lines: seq<Line>, libs: map<string, seq<Line>>, readVec: VecReader)
    requires forall i :: 0 <= i < |lines| ==> Ignored(lines[i])
    ensures Run(st, lines, libs, readVec) == Ok(st)
    decreases |lines|
  {
    if lines != [] {
      assert Ignored(lines[0]);
      assert StepLine(st, lines[0], libs, readVec) == Ok(st);
      RunIgnored(st, lines[1..], libs, readVec);
    }
  }

  // --------------------------------------------------------------- MTL

  /** The material name in effect after a line: `newmtl` renames. */
  function NextName(name: string, line: Line): string {
    var w := FirstWord(line.rest);
    if line.keyword == "newmtl" && w.Some? then w.value else name
  }

  /** The material name in effect before line i, starting from `name`. */
  function NameBefore(name: string, lines: seq<Line>, i: nat): string
    requires i <= |lines|
    decreases i
  {
    if i == 0 then name else NameBefore(NextName(name, lines[0]), lines[1..], i - 1)
  }

  /** Line i is a `Kd` line that sets the colour of material `name`. */
  predicate KdFor(name0: string, lines: seq<Line>, i: nat, name: string) {
    i < |lines| && lines[i].keyword == "Kd" && NameBefore(name0, lines, i) == name
  }

  /** Line i is the last `Kd` line for `name`. */
  predicate LastKdFor(name0: string, lines: seq<Line>, i: nat, name: string) {
    KdFor(name0, lines, i, name) && forall j: nat :: i < j < |lines| ==> !KdFor(name0, lines, j, name)
  }

  lemma KdForShift(name0: string, lines: seq<Line>, i: nat, name: string)
    requires lines != []
    ensures KdFor(name0, lines, i + 1, name) == KdFor(NextName(name0, lines[0]), lines[1..], i, name)
  {
    if i + 1 < |lines| {
      assert lines[1..][i] == lines[i + 1];
    }
  }

  /** One MTL line: the name it leaves and the table it leaves. */
  lemma MtlStepEffect(st: MtlState, line: Line, readVec: VecReader)
    requires MtlStep(st, line, readVec).Some?
    ensures var s := MtlStep(st, line, readVec).value;
            && s.name == NextName(st.name, line)
            && (line.keyword == "Kd" ==> readVec(line.rest).Some? && s.library == st.library[st.name := Material(readVec(line.rest).value)])
            && (line.keyword != "Kd" ==> s.library == st.library)
  {
  }

  /** Without a `Kd` line for `name`, its entry is left as it was. */
  lemma {:induction false} MtlRunUntouched(st: MtlState, lines: seq<Line>, readVec: VecReader, name: string)
    requires MtlRun(st, lines, readVec).Some?
    requires forall i: nat :: !KdFor(st.name, lines, i, name)
    ensures var lib := MtlRun(st, lines, readVec).value.library;
            (name in lib <==> name in st.library) && (name in lib ==> lib[name] == st.library[name])
    decreases |lines|
  {
    if lines != [] {
      var s1 := MtlStep(st, lines[0], readVec).value;
      MtlStepEffect(st, lines[0], readVec);
      assert !KdFor(st.name, lines, 0, name);
      forall i: nat ensures !KdFor(s1.name, lines[1..], i, name) {
        KdForShift(st.name, lines, i, name);
      }
      MtlRunUntouched(s1, lines[1..], readVec, name);
    }
  }

  /** A material has an entry exactly when it had one or a `Kd` line sets it. */
  lemma {:induction false} MtlRunKeys(st: MtlState, lines: seq<Line>, readVec: VecReader, name: string)
    requires MtlRun(st, lines, readVec).Some?
    ensures var lib := MtlRun(st, lines, readVec).value.library;
            name in lib <==> name in st.library || exists i: nat :: KdFor(st.name, lines, i, name)
    decreases |lines|
  {
    if lines != [] {
      var s1 := MtlStep(st, lines[0], readVec).value;
      MtlStepEffect(st, lines[0], readVec);
      MtlRunKeys(s1, lines[1..], readVec, name);
      assert KdFor(st.name, lines, 0, name) <==> lines[0].keyword == "Kd" && st.name == name;
      assert name in s1.library <==> name in st.library || KdFor(st.name, lines, 0, name);
      if exists i: nat :: KdFor(st.name, lines, i, name) {
        var i: nat :| KdFor(st.name, lines, i, name);
        if i > 0 {
          KdForShift(st.name, lines, i - 1, name);
          assert KdFor(s1.name, lines[1..], i - 1, name);
        }
      }
      if exists i: nat :: KdFor(s1.name, lines[1..], i, name) {
        var i: nat :| KdFor(s1.name, lines[1..], i, name);
        KdForShift(st.name, lines, i, name);
        assert KdFor(st.name, lines, i + 1, name);
      }
    }
  }

  /** The last `Kd` line for a material decides its colour. */
  lemma {:induction false} MtlRunLast(st: MtlState, lines: seq<Line>, readVec: VecReader, name: string, i: nat)
    requires MtlRun(st, lines, readVec).Some? && LastKdFor(st.name, lines, i, name)
    ensures var lib := MtlRun(st, lines, readVec).value.library;
            readVec(lines[i].rest).Some? && name in lib && lib[name] == Material(readVec(lines[i].rest).value)
    decreases |lines|
  {
    var s1 := MtlStep(st, lines[0], readVec).value;
    MtlStepEffect(st, lines[0], readVec);
    if i == 0 {
      forall j: nat ensures !KdFor(s1.name, lines[1..], j, name) {
        KdForShift(st.name, lines, j, name);
      }
      MtlRunUntouched(s1, lines[1..], readVec, name);
    } else {
      KdForShift(st.name, lines, i - 1, name);
      forall j: nat | i - 1 < j ensures !KdFor(s1.name, lines[1..], j, name) {
        KdForShift(st.name, lines, j, name);
      }
      MtlRunLast(s1, lines[1..], readVec, name, i - 1);
      assert lines[1..][i - 1] == lines[i];
    }
  }

  /** parseMtlLibrary: a material is in the library exactly when some `Kd`
      line follows its `newmtl` (before any `newmtl`, the empty name), and
      its colour is the one the last such line gives. */
  lemma MtlLibrary(lines: seq<Line>, lib: string, readVec: VecReader, name: string)
    requires ParseMtl(Some(lines), lib, readVec).Ok?
    ensures var m := ParseMtl(Some(lines), lib, readVec).value;
            && (name in m <==> exists i: nat :: KdFor("", lines, i, name))
            && (forall i: nat :: LastKdFor("", lines, i, name) ==>
                  readVec(lines[i].rest).Some? && name in m && m[name] == Material(readVec(lines[i].rest).value))
  {
    MtlRunKeys(MtlStart, lines, readVec, name);
    forall i: nat | LastKdFor("", lines, i, name)
      ensures readVec(lines[i].rest).Some? && name in ParseMtl(Some(lines), lib, readVec).value
      ensures ParseMtl(Some(lines), lib, readVec).value[name] == Material(readVec(lines[i].rest).value)
    {
      MtlRunLast(MtlStart, lines, readVec, name, i);
    }
  }
}
