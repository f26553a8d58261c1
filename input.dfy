/** The viewer's input handling (main.cpp): keyboard shortcuts for the GUI and
    the gizmo, object picking with the mouse through the stencil buffer, and the
    objects the picking searches. */
module Viewer {
  import opened Common
  import opened Geometry
  import opened GlObjects
  import opened StlMeshes

  /** GLFW key, action and button codes. */
  const KeyG: int := 71
  const Key1: int := 49
  const Key2: int := 50
  const Key3: int := 51
  const ActionRelease: int := 0
  const ActionPress: int := 1
  const MouseButtonLeft: int := 0
  const MouseButtonRight: int := 1

  /** `ImGuizmo::OPERATION` and `ImGuizmo::MODE`, as far as the viewer uses them. */
  datatype Operation = Translate | Rotate | Scale
  datatype Mode = Local | World

  /** The GLFW cursor modes the right mouse button switches between. */
  datatype CursorMode = CursorNormal | CursorDisabled

  /** The value the stencil buffer is cleared to before each frame
      (program.cpp:131): what picking reads where no object was drawn. */
  const StencilClear: int := -1

  /** The table `on_key_input` scans: key and the operation it selects. */
  const GizmoKeys: seq<(int, Operation)> := [(Key1, Translate), (Key2, Rotate), (Key3, Scale)]

  /** The operation a key selects, stated key by key. */
  function KeyOperation(key: int): Option<Operation> {
    if key == Key1 then Some(Translate)
    else if key == Key2 then Some(Rotate)
    else if key == Key3 then Some(Scale)
    else None
  }

  /** Scanning the table agrees with the key-by-key statement: the first entry
      carrying the key gives its operation, and a key in no entry selects none. */
  lemma GizmoKeysAgree(key: int, i: nat)
    requires i <= |GizmoKeys|
    requires forall j :: 0 <= j < i ==> GizmoKeys[j].0 != key
    ensures i < |GizmoKeys| && GizmoKeys[i].0 == key ==> KeyOperation(key) == Some(GizmoKeys[i].1)
    ensures i == |GizmoKeys| ==> KeyOperation(key) == None
  {
    if i == |GizmoKeys| {
      assert GizmoKeys[0].0 != key && GizmoKeys[1].0 != key && GizmoKeys[2].0 != key;
    }
  }

  /** The gizmo mode `draw_gui` uses: world axes for translation, the object's
      own axes otherwise. */
  function GizmoMode(op: Operation): (mode: Mode)
    ensures mode == World <==> op == Translate
  {
    if op == Translate then World else Local
  }

  /** The position in `objects` of the first object whose picking index is `v`,
      or None when no object has it. */
  function FirstWithIndex(objects: seq<StlMesh>, v: int): (r: Option<nat>)
    ensures r.Some? ==> r.value < |objects| && objects[r.value].index == v
    ensures r.Some? ==> forall j :: 0 <= j < r.value ==> objects[j].index != v
    ensures r.None? <==> forall j :: 0 <= j < |objects| ==> objects[j].index != v
  {
    if objects == [] then None
    else if objects[0].index == v then Some(0)
    else match FirstWithIndex(objects[1..], v)
      case None => None
      case Some(i) => Some(i + 1)
  }

  /** Where no object was drawn nothing is picked, as long as every object
      carries a non-negative index. */
  lemma BackgroundPicksNothing(objects: seq<StlMesh>)
    requires forall j :: 0 <= j < |objects| ==> objects[j].index >= 0
    ensures FirstWithIndex(objects, StencilClear) == None
  {
  }

  /** The global state `G` the handlers read and write. */
  class App {
    var objects: seq<StlMesh>
    /** `selected_object`: a position in `objects`, or None for `nullptr`. */
    var selected: Option<nat>
    var showGui: bool
    var guizmoOp: Operation
    var cursor: CursorMode

    /** The selection, when there is one, designates an object. */
    predicate Valid()
      reads this
    {
      selected.Some? ==> selected.value < |objects|
    }

    /** The initial state of `G`: no objects, nothing selected, the GUI shown,
        the translate gizmo, the normal cursor. */
    constructor()
      ensures Valid()
      ensures objects == [] && selected == None && showGui && guizmoOp == Translate && cursor == CursorNormal
    {
      objects := [];
      selected := None;
      showGui := true;
      guizmoOp := Translate;
      cursor := CursorNormal;
    }

    /** `main` loading `models/things.stl` at (0.5, 0, 0) and `models/plane.stl`
        at the origin, in that order, into `objects`; either file being invalid
        ends the program. The two meshes are what `LoadStl` makes of their files,
        with consecutive indices, and each adds one fresh vertex array and one
        fresh, empty buffer (laid out as `StlLayout` says) to the live GL
        objects. `layouts` are those two buffers' layouts, which the meshes do
        not keep. */
    method LoadObjects(gl: Gl, loader: StlLoader, things: StlReport, plane: StlReport)
      returns (r: Result<(), StlError>, ghost layouts: seq<Layout>)
      requires gl.Valid() && loader.Valid()
      requires loader.nextIndex < Int32Max - 1
      modifies this, gl, loader
      ensures gl.Valid() && loader.Valid()
      ensures r.Ok? <==> things.bufSize.Some? && plane.bufSize.Some?
      ensures r.Err? ==> objects == old(objects)
      ensures things.bufSize.None? ==>
        loader.nextIndex == old(loader.nextIndex) && loader.issued == old(loader.issued) &&
        gl.buffers == old(gl.buffers) && gl.arrays == old(gl.arrays)
      ensures r.Ok? ==>
        |objects| == 2 && |layouts| == 2 &&
        objects[0] == StlMesh(old(loader.nextIndex), objects[0].vao, ToInt32(things.trigCount * 3),
                              Vec3(0.5, 0.0, 0.0), DefaultColor) &&
        objects[1] == StlMesh(old(loader.nextIndex) + 1, objects[1].vao, ToInt32(plane.trigCount * 3),
                              Zero, DefaultColor) &&
        loader.nextIndex == old(loader.nextIndex) + 2 &&
        loader.issued == old(loader.issued) + [objects[0].index, objects[1].index] &&
        layouts[0] == StlLayout(layouts[0].buffer, things.bufSize.value, things.trigCount) &&
        layouts[1] == StlLayout(layouts[1].buffer, plane.bufSize.value, plane.trigCount)
      ensures r.Ok? ==>
        objects[0].vao != 0 && objects[1].vao != 0 && objects[0].vao != objects[1].vao &&
        objects[0].vao !in old(gl.arrays) && objects[1].vao !in old(gl.arrays) &&
        gl.arrays == old(gl.arrays) + {objects[0].vao, objects[1].vao}
      ensures r.Ok? ==>
        layouts[0].buffer != 0 && layouts[1].buffer != 0 && layouts[0].buffer != layouts[1].buffer &&
        layouts[0].buffer !in old(gl.buffers) && layouts[1].buffer !in old(gl.buffers) &&
        gl.buffers == old(gl.buffers)[layouts[0].buffer := []][layouts[1].buffer := []]
      ensures old(loader.nextIndex) >= 0 && r.Ok? ==> forall j :: 0 <= j < |objects| ==> objects[j].index >= 0
      ensures selected == old(selected) && showGui == old(showGui) && guizmoOp == old(guizmoOp) && cursor == old(cursor)
    {
      layouts := [];
      var first := loader.LoadStl(gl, things, Vec3(0.5, 0.0, 0.0));
      if first.Err? {
        return Err(first.error), layouts;
      }
      var second := loader.LoadStl(gl, plane, Zero);
      if second.Err? {
        return Err(second.error), layouts;
      }
      objects := [first.value.mesh, second.value.mesh];
      layouts := [first.value.layout, second.value.layout];
      r := Ok(());
    }

    /** `on_key_input`: while the GUI captures the keyboard nothing happens.
        Otherwise releasing G toggles the GUI, and releasing 1, 2 or 3 selects the
        translate, rotate or scale gizmo; the first matching table entry wins. */
    method OnKeyInput(key: int, action: int, wantCaptureKeyboard: bool)
      modifies this
      ensures objects == old(objects) && selected == old(selected) && cursor == old(cursor)
      ensures wantCaptureKeyboard ==> showGui == old(showGui) && guizmoOp == old(guizmoOp)
      ensures !wantCaptureKeyboard ==>
        showGui == (if key == KeyG && action == ActionRelease then !old(showGui) else old(showGui))
      ensures !wantCaptureKeyboard && action == ActionRelease && KeyOperation(key).Some? ==>
        guizmoOp == KeyOperation(key).value
      ensures wantCaptureKeyboard || action != ActionRelease || KeyOperation(key).None? ==>
        guizmoOp == old(guizmoOp)
    {
      if wantCaptureKeyboard {
        return;
      }
      if key == KeyG && action == ActionRelease {
        showGui := !showGui;
      }
      ghost var shown := showGui;
      var i := 0;
      while i < |GizmoKeys|
        invariant 0 <= i <= |GizmoKeys|
        invariant objects == old(objects) && selected == old(selected) && cursor == old(cursor)
        invariant showGui == shown && guizmoOp == old(guizmoOp)
        invariant forall j :: 0 <= j < i ==> !(key == GizmoKeys[j].0 && action == ActionRelease)
      {
        if key == GizmoKeys[i].0 && action == ActionRelease {
          guizmoOp := GizmoKeys[i].1;
          break;
        }
        i := i + 1;
      }
      if action == ActionRelease {
        GizmoKeysAgree(key, i);
      }
    }

    /** `on_mouse_button`: while the GUI captures the mouse nothing happens. The
        right button disables the cursor while pressed and restores it when
        released, and never touches the selection. Releasing the left button
        picks: the cursor row is flipped to OpenGL's bottom-left origin
        (`height - y`), the stencil value there is read, and the selection
        becomes the first object carrying that value as its index, or nothing.
        `stencil` is the framebuffer's stencil content at a position. */
    method OnMouseButton(button: int, action: int, wantCaptureMouse: bool,
                         x: real, y: real, height: real, stencil: (real, real) -> int)
      modifies this
      ensures objects == old(objects) && showGui == old(showGui) && guizmoOp == old(guizmoOp)
      ensures wantCaptureMouse ==> selected == old(selected) && cursor == old(cursor)
      ensures !wantCaptureMouse && button == MouseButtonRight ==>
        selected == old(selected) && cursor == (if action == ActionPress then CursorDisabled else CursorNormal)
      ensures !wantCaptureMouse && button == MouseButtonLeft && action == ActionRelease ==>
        cursor == old(cursor) && selected == FirstWithIndex(objects, stencil(x, height - y))
      ensures !wantCaptureMouse && button != MouseButtonRight && !(button == MouseButtonLeft && action == ActionRelease) ==>
        selected == old(selected) && cursor == old(cursor)
      ensures old(Valid()) ==> Valid()
    {
      if wantCaptureMouse {
        return;
      }
      if button == MouseButtonRight {
        cursor := if action == ActionPress then CursorDisabled else CursorNormal;
        return;
      }
      if button == MouseButtonLeft && action == ActionRelease {
        var row := height - y;
        var index := stencil(x, row);
        selected := None;
        var i := 0;
        while i < |objects|
          invariant 0 <= i <= |objects|
          invariant objects == old(objects) && showGui == old(showGui) && guizmoOp == old(guizmoOp)
          invariant cursor == old(cursor) && selected == None
          invariant forall j :: 0 <= j < i ==> objects[j].index != index
        {
          if objects[i].index == index {
            selected := Some(i);
            break;
          }
          i := i + 1;
        }
      }
    }
  }
}
