# vwa-code core in Dafny

This project models the core of vwa-code, a small OpenGL shadow-mapping demo in C++, and proves properties of the model. It covers four parts.

- **Wavefront OBJ/MTL loader** (`source/obj_parser/parser.cpp`). It reads `v` and `vn` lines into position and normal tables. Each table starts with one placeholder, because OBJ indices begin at 1. Each `f` line is triangulated as a fan. A file fails the final stream check when its last line is a face with nothing but white space after its references. Faces take the diffuse colour of the material current at the time (`usemtl`). Material libraries come from `mtllib` files, where `newmtl` names a material and `Kd` sets its colour. `o` lines split the output into meshes.
- **Mesh ownership** (`source/mesh.hh`). A `Mesh` owns one vertex array and one vertex buffer. It can be moved but not copied, and it deletes both GL objects when destroyed.
- **STL loading** (`mesh.cpp`, `mesh.h`).
  - `load_stl` sizes the vertex count and the attribute layout from the triangle count.
  - It hands out picking indices from a counter shared by all loads.
- **Input handling** (`main.cpp`).
  - Keyboard shortcuts toggle the GUI and choose the gizmo operation.
  - A left-button release picks an object: the stencil value under the cursor is looked up among the objects' indices.
  - The gizmo mode follows from the chosen operation.

Files:

| file | contents |
|---|---|
| `common.dfy` | `Option`, `Result`, integer widths, `static_cast<int>` (`Common`); vectors and vertices (`Geometry`) |
| `text_stream.dfy` | the `std::istream` extractions the parser relies on, over the characters of a line |
| `obj_parser.dfy` | the parser itself: a function per step and a method per source function, each method proved equal to its function |
| `obj_refs.dfy` | written face references `p`, `p/t`, `p//n`, `p/t/n` and what `readVertex` reads back from them |
| `obj_faces.dfy` | a written face line and the fan it emits |
| `obj_properties.dfy` | properties of the loader as a whole: tables, meshes, colours, materials, fatal errors |
| `mesh.dfy` | GL object names (`GlObjects`) and the `Mesh` class (`Meshes`) |
| `stl_mesh.dfy` | `load_stl` and its index counter (`StlMeshes`) |
| `input.dfy` | the global state `G` and the input handlers (`Viewer`) |

How the pieces are modelled:

- **Parser input.** An OBJ or MTL file is given as its non-blank lines. Each line is split into the keyword `file >> token` reads and the rest of the line. A file that cannot be opened is `None`.
- **Float extraction.** `readVector3` is a parameter `readVec`, which either yields a vector or fails.
- **Face lines.** They are read character by character. This follows how `>> size_t`, `peek` and `ignore(1)` behave.
- **Parser state.** `parser.cpp` works by updating locals in loops, so `ReadVertex`, `ReadFace`, `ParseMtlLibrary` and `LoadMeshesFromFile` are methods with loops. Each is proved to compute a recursive specification function. The properties are lemmas about those functions.
- **GL objects.** `Mesh` and the global state `G` are classes whose methods update their fields. The GL driver is a class `Gl` whose ghost state is the set of live vertex arrays and the live buffers with their contents.

## Model

| member | source | states |
|---|---|---|
| `Common.ToInt32` | source/mesh.hh:15 | `static_cast<int>` of a count keeps it modulo 2^32 within the `int` range, and is the identity below 2^31 |
| `TextStream.ReadSize` | source/obj_parser/parser.cpp:66 | a successful `>> size_t` gives a value below 2^64 and consumes at least one character of the line |
| `TextStream.FirstWord` | source/obj_parser/parser.cpp:42 | `>> std::string` yields a non-empty word without white space, or fails |
| `TextStream.FirstWordOf` | source/obj_parser/parser.cpp:42 | after leading white space, `>> std::string` reads exactly the word that runs up to the next white space or the end of the line |
| `TextStream.FirstWordBlank` | source/obj_parser/parser.cpp:121-127 | `>> std::string` fails exactly when the rest of the line is white space, which is when `mtllib` / `usemtl` have no name |
| `TextStream.ReadSizeDigits` | source/obj_parser/parser.cpp:66 | white space followed by digits whose value is below 2^64 reads as that value and stops after the last digit |
| `TextStream.ReadSizeDecimal` | source/obj_parser/parser.cpp:66 | round trip: the decimal spelling of any index below 2^64 reads back as that index |
| `ObjParser.FieldStep` | source/obj_parser/parser.cpp:64-71 | one turn of the index loop never moves backwards, and the first index always consumes input |
| `ObjParser.FieldsFrom` | source/obj_parser/parser.cpp:64-71 | the loop from turn i yields exactly 3 - i indices and stays inside the line |
| `ObjParser.RefAt` | source/obj_parser/parser.cpp:63-71 | a reference that reads consumes at least one character |
| `ObjParser.VertexAt` | source/obj_parser/parser.cpp:57-79 | a vertex that resolves consumes its reference, with the position moving forward within the line |
| `ObjParser.ReadVertex` | source/obj_parser/parser.cpp:57-79 | the loop over `indices[3]`, which starts as {0, 0, 0}, computes `VertexAt`: the indices are read, the vertex is looked up or an error results |
| `ObjParser.ReadFace` | source/obj_parser/parser.cpp:104-119 | the face loop computes `FaceVertices`: two mandatory references, then one triangle (first, last, current) per further numeric reference; on success it leaves the stream at `FaceLineEnd` |
| `ObjParser.ParseMtlLibrary` | source/obj_parser/parser.cpp:29-55 | the MTL loop computes `ParseMtl`, including the unopenable-file and parse-failure errors |
| `ObjParser.IsNumeric` | source/obj_parser/parser.cpp:18-21 | a character that starts a further index is neither white space nor the `/` separator, so the face loop's check and the reference's own syntax cannot be confused |
| `ObjParser.FaceLoopEnd` | source/obj_parser/parser.cpp:109-119 | the face loop stops at the end of the line, at a character after white space that cannot start a reference, or at a reference it cannot read |
| `ObjParser.FaceFrom` | source/obj_parser/parser.cpp:109-119 | whatever the face loop emits after the first two references is whole triangles, each starting with the face's first vertex |
| `ObjParser.MtlStep` | source/obj_parser/parser.cpp:38-48 | an MTL line fails only for `newmtl` or `Kd`; it adds at most the current name to the library and leaves every other material as it was |
| `ObjParser.StepLine` | source/obj_parser/parser.cpp:97-138 | an OBJ line fails only for `v`, `vn`, `f`, `mtllib` or `usemtl`; the tables and the closed meshes only grow; only `f` and `o` touch the open mesh |
| `ObjParser.Finish` | source/obj_parser/parser.cpp:139-141 | the final flush keeps the closed meshes and adds the leftover vertices as one more mesh exactly when there are any |
| `ObjParser.LoadMeshesFromFile` | source/obj_parser/parser.cpp:82-148 | the OBJ loop computes `LoadObj`: the fatal errors of the lines and of the files, the failed stream check after a face that runs to the end of the file, and the final flush of leftover vertices |
| `ObjRefs.ShowRefChars` | source/obj_parser/parser.cpp:18-21 | a written reference starts with a digit (so `isNumeric` continues the face) and holds no white space |
| `ObjRefs.RefAfterSpace` | source/obj_parser/parser.cpp:66 | a reference is read the same after a leading space, because `>>` skips white space |
| `ObjRefs.RefAtShown` | source/obj_parser/parser.cpp:63-71 | each of `p`, `p/t`, `p//n`, `p/t/n` reads back as its indices, with missing ones 0, and exactly its characters are consumed |
| `ObjRefs.VertexAtShown` | source/obj_parser/parser.cpp:57-79 | a written reference resolves to the vertex at `positions[p]`, `normals[n]` (the placeholder when n is missing) with the material's colour; the texture index is not used; an index outside a table is an error |
| `ObjFaces.FanFromAt` | source/obj_parser/parser.cpp:110-119 | the loop emits 3 vertices per further reference, and triangle k is (first, reference k+1, reference k+2) |
| `ObjFaces.FanIsFanFrom` | source/obj_parser/parser.cpp:106-119 | the closed-form fan of all references equals what the loop emits after the first two |
| `ObjFaces.FaceFromTriangles` | source/obj_parser/parser.cpp:110-119 | everything the loop emits forms triangles starting with the first vertex, all in the material's colour |
| `ObjFaces.FaceTriangles` | source/obj_parser/parser.cpp:104-119 | every triangle of a face starts with its first vertex, and every vertex has the current material's diffuse colour |
| `ObjFaces.VertexLaid` | source/obj_parser/parser.cpp:57-79 | a reference written after a space inside a face line resolves to the vertex it denotes and ends where the word ends |
| `ObjFaces.FaceFromLaid` | source/obj_parser/parser.cpp:109-119 | from the i-th reference of a written face line the loop emits the fan of the remaining references |
| `ObjFaces.FaceIsFan` | source/obj_parser/parser.cpp:104-119 | a face of k ≥ 2 references in range emits exactly the fan: 3·(k−2) vertices, triangle i being (first, ref i+1, ref i+2) |
| `ObjFaces.ShortFace` | source/obj_parser/parser.cpp:106-107 | a face with fewer than two references is a parse failure |
| `ObjFaces.FaceOutOfRange` | source/obj_parser/parser.cpp:78 | a first reference outside the tables is reported as an error rather than read |
| `ObjProperties.RunAppend` | source/obj_parser/parser.cpp:97-138 | lines are processed in order: running over `a + b` is running over `a` and then over `b` |
| `ObjProperties.RunStopsAtError` | source/obj_parser/parser.cpp:143-145 | a failing line makes the whole load fail with its error, whatever follows |
| `ObjProperties.LoadsExactly` | source/obj_parser/parser.cpp:97-148 | a file loads exactly when it is not empty, every line parses and its last line is not a face whose loop runs to the end of the file; the result is then the flushed meshes |
| `ObjProperties.FaceAtEndFails` | source/obj_parser/parser.cpp:109-145 | a file whose lines all parse but whose last face runs to the end of the file fails with "Could not parse file", because the stream is already at its end when `file >> std::ws` runs at line 137; one more `o` line after it makes the same file load |
| `ObjProperties.ThreeDigitRefsEnd` | source/obj_parser/parser.cpp:106-119 | a face of three one-digit references leaves the stream after the white space behind the third one |
| `ObjProperties.TextAfterLastFace` | source/obj_parser/parser.cpp:109-145 | an instance of the rule in `LoadsExactly`, for faces of three one-digit references: a last face such as `f 1 2 3` followed by text that cannot start a reference (`f 1 2 3 # c`) loads, because that text is read as a keyword and skipped with `ignore`; with only white space after the references the same file fails |
| `ObjProperties.FatalFiles` | source/obj_parser/parser.cpp:93-95 | an unopenable or empty OBJ or MTL file is fatal, and so is an `mtllib` naming a missing file |
| `ObjProperties.StepTables` | source/obj_parser/parser.cpp:100-103 | a `v` line appends one position and a `vn` line one normal; no other line touches the tables |
| `ObjProperties.RunTables` | source/obj_parser/parser.cpp:100-103 | after any run the tables are the start tables followed by the `v` (resp. `vn`) vectors in file order |
| `ObjProperties.IndexSelectsNth` | source/obj_parser/parser.cpp:84-86 | after loading, index 0 is the placeholder and index n selects the n-th `v` (resp. `vn`) of the file |
| `ObjProperties.StepEmitted` | source/obj_parser/parser.cpp:104-133 | each line adds to the emitted vertices exactly its face output (nothing for non-`f` lines); `o` only regroups them |
| `ObjProperties.StepMeshes` | source/obj_parser/parser.cpp:128-133 | `o` closes a mesh only when it is non-empty, so no closed mesh is empty, and only `o` adds a mesh |
| `ObjProperties.RunMeshes` | source/obj_parser/parser.cpp:97-138 | over a run, the emitted vertices grow by what the lines emit, no empty mesh appears, and meshes are bounded by the number of `o` lines |
| `ObjProperties.FinishMeshes` | source/obj_parser/parser.cpp:139-141 | flushing the leftover vertices keeps every vertex, in order, and adds no empty mesh |
| `ObjProperties.LoadedMeshes` | source/obj_parser/parser.cpp:82-148 | no returned mesh is empty, concatenating them gives every face-emitted vertex in file order, and there are at most (number of `o` lines + 1) |
| `ObjProperties.FaceOutputColour` | source/obj_parser/parser.cpp:106-111 | a face's vertices carry the diffuse colour of the material current when it is read |
| `ObjProperties.RunWithoutUsemtl` | source/obj_parser/parser.cpp:124-127 | without `usemtl` the current material never changes and every emitted vertex has its colour |
| `ObjProperties.DefaultColour` | source/obj_parser/parser.cpp:24 | a file without `usemtl` yields meshes coloured (0.8, 0.8, 0.8) |
| `ObjProperties.StepUsemtl` | source/obj_parser/parser.cpp:124-127 | `usemtl name` makes the table entry current, inserting the default material when the name is absent, and changes nothing else |
| `ObjProperties.StepMtllib` | source/obj_parser/parser.cpp:120-123 | `mtllib` replaces the whole material table by the parsed library and changes nothing else |
| `ObjProperties.RunIgnored` | source/obj_parser/parser.cpp:134-136 | lines with any other keyword change no state |
| `ObjProperties.MtlStepEffect` | source/obj_parser/parser.cpp:41-45 | `newmtl` only changes the current name; `Kd` sets the current name's colour; other lines change nothing |
| `ObjProperties.MtlRunUntouched` | source/obj_parser/parser.cpp:38-48 | a name without a `Kd` line of its own keeps its entry (or its absence) |
| `ObjProperties.MtlRunKeys` | source/obj_parser/parser.cpp:38-48 | a name gets an entry exactly when some `Kd` line follows a `newmtl` with that name |
| `ObjProperties.MtlRunLast` | source/obj_parser/parser.cpp:38-48 | the last `Kd` line for a name decides its colour |
| `ObjProperties.MtlLibrary` | source/obj_parser/parser.cpp:29-55 | in a parsed library a name is present iff a `Kd` line applies to it (the empty name before any `newmtl`), and its colour is that of the last such line; `newmtl` alone adds nothing |
| `Meshes.Mesh.constructor` | source/mesh.hh:14-32 | the count is the vertex list's length (as `int`); the mesh owns a fresh live vertex array and a fresh live buffer holding exactly those vertices |
| `Meshes.Mesh.Moved` | source/mesh.hh:38-41 | the new mesh starts empty (0, 0, −1), takes over `other`'s handles and count, leaves `other` empty, and deletes nothing |
| `Meshes.Mesh.MoveAssign` | source/mesh.hh:43-53 | from a different mesh it deletes its own buffer and array, takes `other`'s vao, vbo and count, and leaves `other` at (0, 0, −1); self-assignment changes nothing; meshes that shared no object stay valid and separate |
| `Meshes.Mesh.Release` | source/mesh.hh:55-59 | the destructor deletes the mesh's buffer and array; a moved-from mesh deletes nothing |
| `Meshes.Mesh.ModelMatrix` | source/mesh.hh:61-66 | the model matrix is the identity, independent of the mesh's state |
| `Meshes.ModelMatrixFixes` | source/mesh.hh:61-66 | the model matrix maps every point to itself |
| `Meshes.Mesh.DrawArrays` | source/mesh.hh:68-72 | draws `vertexCount` vertices of the mesh's array, which for a mesh owning its buffer is exactly the number of vertices in it |
| `StlMeshes.StlLayout` | mesh.cpp:13-29 | the buffer is sized in whole floats; positions start at 0, normals after 3 × 12 bytes per triangle |
| `StlMeshes.PositionsBeforeNormals` | mesh.cpp:24-29 | for the nine-positions-then-nine-normals buffer, all positions lie before the first normal and all normals inside the buffer |
| `StlMeshes.ConsecutiveDistinct` | mesh.cpp:34-39 | indices handed out in order are pairwise distinct, non-negative and never the −1 default |
| `StlMeshes.StlLoader.constructor` | mesh.cpp:34 | the index counter starts at 0 |
| `StlMeshes.StlLoader.LoadStl` | mesh.cpp:5-45 | an invalid file ends loading before anything is allocated; otherwise the mesh gets the counter's value, which moves on by one, 3 × trig_count vertices (as a 32-bit count), fresh GL objects and the layout above |
| `Viewer.GizmoKeysAgree` | main.cpp:42-55 | scanning the key table agrees with the key-by-key choice 1 → TRANSLATE, 2 → ROTATE, 3 → SCALE, and other keys choose nothing |
| `Viewer.GizmoMode` | main.cpp:195-198 | the gizmo mode is WORLD exactly when the operation is TRANSLATE, LOCAL otherwise |
| `Viewer.FirstWithIndex` | main.cpp:80-86 | the position of the first object in list order whose index equals the value, or None exactly when no object has it |
| `Viewer.BackgroundPicksNothing` | main.cpp:80-86 | the stencil clear value −1 selects nothing when every object's index is non-negative |
| `Viewer.App.constructor` | main.cpp:14-31 | at start the GUI is shown, the gizmo translates, nothing is selected and there are no objects |
| `Viewer.App.LoadObjects` | main.cpp:266-269 | the two STL files are loaded in order and become exactly the two meshes `load_stl` makes of them: consecutive indices from the counter, 3 × trig_count vertices each, translations (0.5, 0, 0) and the origin, the default colour, and each one fresh vertex array and one fresh, empty buffer with the STL layout, which are all the GL objects added; an invalid `things.stl` ends the program with nothing allocated |
| `Viewer.App.OnKeyInput` | main.cpp:33-56 | nothing happens while the GUI has the keyboard; releasing G toggles the GUI, so two releases restore it; releasing 1/2/3 selects TRANSLATE/ROTATE/SCALE; any other key, or a press, leaves the operation as it was |
| `Viewer.App.OnMouseButton` | main.cpp:58-88 | nothing happens while the GUI has the mouse; the right button only switches the cursor (disabled while pressed) and never changes the selection; a left release reads the stencil at row `height − y` and selects the first object with that index, or nothing |

## Left out

- **Float extraction.** `readVector3` is a parameter: floats are not parsed, and coordinates and colours are opaque values.
- **Lines across line breaks.** The parser is modelled line by line. In the source a required extraction may continue onto the next line: one of the two mandatory face references, a `v` / `vn` coordinate, or an `mtllib` / `usemtl` name, and in an MTL file a `newmtl` name or a `Kd` colour (a bare `newmtl` followed by `Kd 1 1 1` names the material `Kd` in the source). The model treats those lines as failures instead. Optional face references continued on the next line are different: the source's face loop crosses the newline with `>> std::ws` and reads them into the face, while the model sees a line whose keyword (`1`, say) matches no branch and drops it without an error.
- **Text after a face.** When a face's last reference is followed by non-numeric text, the source reads that text as the next keyword (so `f 1 2 3 o` would also close the mesh). The model skips it, except for its effect at the end of the file, where it keeps the stream from running into the end (`ObjProperties.TextAfterLastFace`).
- **Library versions of `std::ws`.** A file whose last face runs to the end of the file fails in the model, as it does when `std::ws` constructs a sentry that sets the fail bit on a stream already at its end (the behaviour the C++ standard requires). Standard libraries whose `std::ws` skips that sentry load such a file; the model does not cover them.
- **Files without a final newline.** Every file is assumed to end with a newline. Without one, the standard library's end-of-file handling in `ignore` / `>> std::ws` can set the fail bit.
- **Indices outside the tables.** A face index outside a table is undefined behaviour in the source, because `operator[]` is unchecked. The model reports the distinct error `IndexOutOfRange` instead.
- **Negative indices.** The source's branch for negative indices (source/obj_parser/parser.cpp:72-77) is dead code: the indices are `size_t`. The model follows `>> size_t` instead, where a negative number wraps around modulo 2^64.
- **Faces with fewer than two references.** These end in a parse failure, as in the code, because the second mandatory `readVertex` fails on the next line's keyword. A face of exactly two references emits nothing. So "fewer than three references emit nothing" holds for two, and for fewer the load fails.
- **Texture indices.** They are read and bounded but never used, as in the source.
- **`Mesh` as GL objects.** Meshes returned by the OBJ loader are modelled as their vertex sequences, not as the GL `Mesh` objects the loader constructs.
- **GL and window calls.** Binding, attribute formats, `glDrawArrays` itself, GLFW cursor calls and ImGui are abstracted. The driver is modelled only as the names it hands out and deletes, and the vertices uploaded to each buffer.
- **Reused GL names.** `GlObjects.Gl`'s generated names are only promised to be nonzero and not alive; the model never reuses a deleted name.
- **The one-stl library.** It is not part of this model. Its reported buffer size and triangle count are inputs (`StlReport`), and its buffer is not uploaded.
- **The leaked STL buffer.** `load_stl` keeps no handle to its buffer, which stays alive forever. The model returns the buffer's name in the layout so that this can be stated.
- `StlMeshes.StlLayout`: does not model the 64-bit wrap of `trig_count*9*sizeof(float)`, because such a buffer would exceed the address space first.
- `StlMeshes.StlLoader.LoadStl`: requires the counter to be below the `GLint` maximum, because incrementing past it is undefined behaviour. `mesh::load_stl`'s `mat4x4_translate` is recorded only as the translation vector.
- **Picking coordinates.** Cursor coordinates are reals. The stencil buffer is a parameter giving the value at a position, so it also covers the conversion of the double coordinates to `GLint`.
- **Stencil limits.** The 8-bit width of the stencil buffer is not modelled, so neither is the clamping of the −1 clear value and of object indices to it (program.cpp:108-138).
- **Picking stays valid.** `Viewer.App.LoadObjects` replaces `objects` without touching `selected`. In the program `selected_object` is still `nullptr` at that point, so this cannot leave a selection pointing outside the list.
- **Other parts of the program.** Cameras, shadow rendering, shaders, framebuffers and the render loop are not part of this model: they are floating point and GPU state.
