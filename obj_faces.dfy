/** Fan triangulation of an `f` line (source/obj_parser/parser.cpp:104-119):
    a face written as references separated by spaces emits the triangles of
    the fan over its vertices, all in the current material's colour. */
module ObjFaces {
  import opened Common
  import opened Geometry
  import opened TextStream
  import opened ObjParser
  import opened ObjRefs

  /** Words each preceded by one space. */
  function Spaced(words: seq<string>): string {
    if words == [] then [] else " " + (words[0] + Spaced(words[1..]))
  }

  function Words(refs: seq<RefSyntax>): seq<string> {
    seq(|refs|, j requires 0 <= j < |refs| => ShowRef(refs[j]))
  }

  /** The text after `f`: each reference preceded by one space. */
  function ShowFace(refs: seq<RefSyntax>): string {
    Spaced(Words(refs))
  }

  /** A reference whose indices select entries of the tables. */
  predicate Fits(r: RefSyntax, positions: seq<Vec3>, normals: seq<Vec3>) {
    RefIndices(r).position < |positions| && RefIndices(r).normal < |normals|
  }

  predicate AllFit(refs: seq<RefSyntax>, positions: seq<Vec3>, normals: seq<Vec3>) {
    forall j :: 0 <= j < |refs| ==> ValidRef(refs[j]) && Fits(refs[j], positions, normals)
  }

  /** The vertex a reference denotes: a missing normal index selects the
      placeholder normal at index 0, and the texture index is not used. */
  function Denoted(r: RefSyntax, positions: seq<Vec3>, normals: seq<Vec3>, material: Material): Vertex
    requires Fits(r, positions, normals)
  {
    Resolve(RefIndices(r), positions, normals, material)
  }

  function DenotedAll(refs: seq<RefSyntax>, positions: seq<Vec3>, normals: seq<Vec3>, material: Material)
    : seq<Vertex>
    requires AllFit(refs, positions, normals)
  {
    seq(|refs|, j requires 0 <= j < |refs| => Denoted(refs[j], positions, normals, material))
  }

  // ---------------------------------------------------------------- fans

  /** Fan triangulation of a polygon v0 v1 ... v(k-1): triangle i is
      (v0, v(i+1), v(i+2)), for i from 0 to k-3. */
  function Fan(vs: seq<Vertex>): seq<Vertex>
    requires |vs| >= 2
  {
    seq(3 * (|vs| - 2), j requires 0 <= j < 3 * (|vs| - 2) =>
      if j % 3 == 0 then vs[0] else vs[j / 3 + j % 3])
  }

  /** The triangles the face loop emits once `first` and `last` are known. */
  function FanFrom(first: Vertex, last: Vertex, rest: seq<Vertex>): seq<Vertex>
    decreases |rest|
  {
    if rest == [] then [] else [first, last, rest[0]] + FanFrom(first, rest[0], rest[1..])
  }

  lemma {:induction false} FanFromAt(first: Vertex, last: Vertex, rest: seq<Vertex>)
    ensures |FanFrom(first, last, rest)| == 3 * |rest|
    ensures forall j :: 0 <= j < 3 * |rest| ==>
      FanFrom(first, last, rest)[j] ==
        if j % 3 == 0 then first else if j % 3 == 1 then ([last] + rest)[j / 3] else rest[j / 3]
    decreases |rest|
  {
    if rest != [] {
      FanFromAt(first, rest[0], rest[1..]);
      var tail := FanFrom(first, rest[0], rest[1..]);
      forall j | 3 <= j < 3 * |rest|
        ensures FanFrom(first, last, rest)[j] ==
          if j % 3 == 0 then first else if j % 3 == 1 then ([last] + rest)[j / 3] else rest[j / 3]
      {
        assert FanFrom(first, last, rest)[j] == tail[j - 3];
        assert (j - 3) / 3 == j / 3 - 1 && (j - 3) % 3 == j % 3;
      }
    }
  }

  /** The loop's triangles are the fan over the first two vertices and the rest. */
  lemma FanIsFanFrom(vs: seq<Vertex>)
    requires |vs| >= 2
    ensures Fan(vs) == FanFrom(vs[0], vs[1], vs[2..])
  {
    FanFromAt(vs[0], vs[1], vs[2..]);
  }

  // ------------------------------------------------ what any face emits

  /** Every vertex in `color`. */
  predicate Coloured(vs: seq<Vertex>, color: Vec3) {
    forall j :: 0 <= j < |vs| ==> vs[j].color == color
  }

  lemma ColouredCons(first: Vertex, last: Vertex, c: Vertex, rest: seq<Vertex>, color: Vec3)
    requires Coloured(rest, color) && first.color == color && last.color == color && c.color == color
    ensures Coloured([first, last, c] + rest, color)
  {
    var vs := [first, last, c] + rest;
    forall j | 3 <= j < |vs| ensures vs[j] == rest[j - 3] {
    }
  }

  /** One turn of the face loop that reads vertex `c`. */
  lemma FaceFromOk(text: string, q: nat, first: Vertex, last: Vertex,
                   positions: seq<Vec3>, normals: seq<Vec3>, material: Material)
    requires q <= |text|
    ensures var r := FaceFrom(text, q, first, last, positions, normals, material);
            var p := SkipWs(text, q);
            var v := if p < |text| then VertexAt(text, p, positions, normals, material) else Err(ObjParseFailed);
            r.Ok? && r.value != [] ==>
              && p < |text| && IsNumeric(text[p]) && v.Ok? && v.value.0.color == material.diffuse
              && r == Then([first, last, v.value.0], FaceFrom(text, v.value.1, first, v.value.0, positions, normals, material))
  {
  }

  /** Whatever the text, the face loop emits whole triangles, each starting at
      the face's first vertex and each vertex in the material's colour. */
  lemma {:induction false} FaceFromTriangles(text: string, q: nat, first: Vertex, last: Vertex,
                                             positions: seq<Vec3>, normals: seq<Vec3>, material: Material)
    requires q <= |text| && first.color == material.diffuse && last.color == material.diffuse
    ensures var r := FaceFrom(text, q, first, last, positions, normals, material);
            r.Ok? ==> Triangles(r.value, first) && Coloured(r.value, material.diffuse)
    decreases |text| - q
  {
    var r := FaceFrom(text, q, first, last, positions, normals, material);
    FaceFromOk(text, q, first, last, positions, normals, material);
    if r.Ok? && r.value != [] {
      var v := VertexAt(text, SkipWs(text, q), positions, normals, material);
      var c := v.value.0;
      FaceFromTriangles(text, v.value.1, first, c, positions, normals, material);
      var rest := FaceFrom(text, v.value.1, first, c, positions, normals, material);
      ColouredCons(first, last, c, rest.value, material.diffuse);
    }
  }

  /** The `f` branch as a whole: whole triangles in the material's colour,
      each starting at the face's first vertex; a face of two references
      emits nothing. */
  lemma FaceTriangles(text: string, positions: seq<Vec3>, normals: seq<Vec3>, material: Material)
    ensures var r := FaceVertices(text, positions, normals, material);
            r.Ok? && r.value != [] ==> Triangles(r.value, r.value[0]) && Coloured(r.value, material.diffuse)
  {
    var a := VertexAt(text, 0, positions, normals, material);
    if a.Ok? {
      var b := VertexAt(text, a.value.1, positions, normals, material);
      if b.Ok? {
        FaceFromTriangles(text, b.value.1, a.value.0, b.value.0, positions, normals, material);
      }
    }
  }

  // ------------------------------------------- where each reference sits

  /** The position of the space in front of word `i`. */
  function WordStart(words: seq<string>, i: nat): nat
    requires i <= |words|
    decreases i
  {
    if i == 0 then 0 else 1 + |words[0]| + WordStart(words[1..], i - 1)
  }

  lemma ShiftSlice(h: string, w: string, a: nat, b: nat)
    requires a <= b <= |w|
    ensures (h + w)[|h| + a..|h| + b] == w[a..b]
  {
    assert (h + w)[|h|..] == w;
    assert (h + w)[|h| + a..|h| + b] == (h + w)[|h|..][a..b];
  }

  lemma {:induction false} SpacedLength(words: seq<string>)
    ensures |Spaced(words)| == WordStart(words, |words|)
    decreases |words|
  {
    if words != [] {
      SpacedLength(words[1..]);
    }
  }

  /** Word `i` is written right after the space at WordStart(words, i). */
  lemma {:induction false} SpacedAt(words: seq<string>, i: nat)
    requires i < |words|
    ensures var t, a, w := Spaced(words), WordStart(words, i), words[i];
            && WordStart(words, i + 1) == a + 1 + |w| <= |t|
            && t[a] == ' ' && t[a + 1..a + 1 + |w|] == w
    decreases i
  {
    var t, w0, tail := Spaced(words), words[0], Spaced(words[1..]);
    var h := " " + w0;
    assert t == h + tail;
    if i == 0 {
      assert t[1..1 + |w0|] == h[1..];
    } else {
      SpacedAt(words[1..], i - 1);
      var a', w := WordStart(words[1..], i - 1), words[i];
      assert words[1..][i - 1] == w;
      assert t[|h| + a'] == tail[a'];
      ShiftSlice(h, tail, a' + 1, a' + 1 + |w|);
    }
  }

  /** Word `w` is written after the space at `a` and is followed by the
      space at `b` or by the end of the line. */
  predicate SpaceWordAt(t: string, w: string, a: nat, b: nat) {
    && a < |t| && t[a] == ' ' && b == a + 1 + |w| && b <= |t|
    && t[a + 1..b] == w && (b < |t| ==> t[b] == ' ')
  }

  /** The line `t` holds word i after the space at `at[i]`, and
      `at[|words|]` is its end. */
  predicate Laid(t: string, words: seq<string>, at: seq<nat>) {
    && |at| == |words| + 1 && at[|words|] == |t|
    && forall i :: 0 <= i < |words| ==> SpaceWordAt(t, words[i], at[i], at[i + 1])
  }

  function WordStarts(words: seq<string>): seq<nat> {
    seq(|words| + 1, i requires 0 <= i <= |words| => WordStart(words, i))
  }

  lemma SpacedLaid(words: seq<string>)
    ensures Laid(Spaced(words), words, WordStarts(words)) && WordStarts(words)[0] == 0
  {
    var t, at := Spaced(words), WordStarts(words);
    forall i | 0 <= i < |words| ensures SpaceWordAt(t, words[i], at[i], at[i + 1]) {
      SpacedAt(words, i);
      if i + 1 < |words| {
        SpacedAt(words, i + 1);
      } else {
        SpacedLength(words);
      }
    }
    SpacedLength(words);
  }

  /** readVertex on a reference, from the space in front of it or from its
      first digit, yields the vertex it denotes and stops after it. */
  lemma VertexLaid(t: string, r: RefSyntax, a: nat, b: nat,
                   positions: seq<Vec3>, normals: seq<Vec3>, material: Material)
    requires ValidRef(r) && Fits(r, positions, normals) && SpaceWordAt(t, ShowRef(r), a, b)
    ensures a + 1 < |t| && IsDigit(t[a + 1])
    ensures VertexAt(t, a + 1, positions, normals, material) == Ok((Denoted(r, positions, normals, material), b))
    ensures VertexAt(t, a, positions, normals, material) == Ok((Denoted(r, positions, normals, material), b))
  {
    ShowRefChars(r);
    assert t[a + 1] == t[a + 1..a + 1 + |ShowRef(r)|][0];
    VertexAtShown(t, a + 1, r, positions, normals, material);
    VertexAfterSpace(t, a, positions, normals, material);
  }

  // ------------------------------------------------ the written face

  /** The face loop at a space followed by a reference that reads as `d`. */
  lemma FaceFromRef(t: string, a: nat, b: nat, d: Vertex, first: Vertex, last: Vertex, rest: seq<Vertex>,
                    positions: seq<Vec3>, normals: seq<Vec3>, material: Material)
    requires a + 1 < |t| && t[a] == ' ' && IsDigit(t[a + 1])
    requires VertexAt(t, a + 1, positions, normals, material) == Ok((d, b))
    requires FaceFrom(t, b, first, d, positions, normals, material) == Ok(rest)
    ensures FaceFrom(t, a, first, last, positions, normals, material) == Ok([first, last, d] + rest)
  {
    SkipWsTo(t, a, a + 1);
    FaceFromSkip(t, a, first, last, positions, normals, material);
    FaceFromStep(t, a + 1, first, last, positions, normals, material);
  }

  /** At the end of the line the face loop emits nothing. */
  lemma FaceFromEnd(t: string, first: Vertex, last: Vertex,
                    positions: seq<Vec3>, normals: seq<Vec3>, material: Material)
    ensures FaceFrom(t, |t|, first, last, positions, normals, material) == Ok([])
  {
    assert SkipWs(t, |t|) == |t|;
  }

  /** The face loop at a space followed by reference `r`: the triangle ending in
      the vertex `r` denotes comes first, then whatever the loop emits after it. */
  lemma FaceFromNext(t: string, r: RefSyntax, a: nat, b: nat, first: Vertex, last: Vertex, ds: seq<Vertex>,
                     positions: seq<Vec3>, normals: seq<Vec3>, material: Material)
    requires ValidRef(r) && Fits(r, positions, normals) && SpaceWordAt(t, ShowRef(r), a, b)
    requires FaceFrom(t, b, first, Denoted(r, positions, normals, material), positions, normals, material)
          == Ok(FanFrom(first, Denoted(r, positions, normals, material), ds))
    ensures FaceFrom(t, a, first, last, positions, normals, material)
         == Ok(FanFrom(first, last, [Denoted(r, positions, normals, material)] + ds))
  {
    var d := Denoted(r, positions, normals, material);
    VertexLaid(t, r, a, b, positions, normals, material);
    FaceFromRef(t, a, b, d, first, last, FanFrom(first, d, ds), positions, normals, material);
    assert ([d] + ds)[0] == d && ([d] + ds)[1..] == ds;
  }

  /** The face loop from the space in front of reference `i` emits the fan
      over the remaining references. */
  lemma {:induction false} FaceFromLaid(t: string, refs: seq<RefSyntax>, at: seq<nat>, i: nat,
                                        first: Vertex, last: Vertex,
                                        positions: seq<Vec3>, normals: seq<Vec3>, material: Material)
    requires i <= |refs| && Laid(t, Words(refs), at) && AllFit(refs, positions, normals)
    ensures at[i] <= |t|
    ensures FaceFrom(t, at[i], first, last, positions, normals, material)
         == Ok(FanFrom(first, last, DenotedAll(refs, positions, normals, material)[i..]))
    decreases |refs| - i
  {
    var ds := DenotedAll(refs, positions, normals, material);
    if i == |refs| {
      FaceFromEnd(t, first, last, positions, normals, material);
      assert ds[i..] == [];
    } else {
      assert SpaceWordAt(t, Words(refs)[i], at[i], at[i + 1]);
      FaceFromLaid(t, refs, at, i + 1, first, ds[i], positions, normals, material);
      FaceFromNext(t, refs[i], at[i], at[i + 1], first, last, ds[i + 1..], positions, normals, material);
      assert ds[i..] == [ds[i]] + ds[i + 1..];
    }
  }

  /** Round trip of the `f` branch: a face of at least two valid references
      whose indices select entries of the tables emits the fan triangulation
      of the vertices they denote. */
  lemma FaceIsFan(refs: seq<RefSyntax>, positions: seq<Vec3>, normals: seq<Vec3>, material: Material)
    requires |refs| >= 2 && AllFit(refs, positions, normals)
    ensures FaceVertices(ShowFace(refs), positions, normals, material)
         == Ok(Fan(DenotedAll(refs, positions, normals, material)))
  {
    var ws := Words(refs);
    var t, at, ds := Spaced(ws), WordStarts(ws), DenotedAll(refs, positions, normals, material);
    SpacedLaid(ws);
    assert SpaceWordAt(t, ws[0], at[0], at[1]) && SpaceWordAt(t, ws[1], at[1], at[2]);
    VertexLaid(t, refs[0], 0, at[1], positions, normals, material);
    VertexLaid(t, refs[1], at[1], at[2], positions, normals, material);
    FaceFromLaid(t, refs, at, 2, ds[0], ds[1], positions, normals, material);
    FanIsFanFrom(ds);
  }

  /** A face of fewer than two references is a parse error. */
  lemma ShortFace(refs: seq<RefSyntax>, positions: seq<Vec3>, normals: seq<Vec3>, material: Material)
    requires |refs| < 2 && AllFit(refs, positions, normals)
    ensures FaceVertices(ShowFace(refs), positions, normals, material) == Err(ObjParseFailed)
  {
    if |refs| == 1 {
      var ws := Words(refs);
      var t, at := Spaced(ws), WordStarts(ws);
      SpacedLaid(ws);
      assert SpaceWordAt(t, ws[0], at[0], at[1]);
      VertexLaid(t, refs[0], 0, at[1], positions, normals, material);
    }
  }

  /** A first reference whose indices lie outside the tables stops the face. */
  lemma FaceOutOfRange(refs: seq<RefSyntax>, positions: seq<Vec3>, normals: seq<Vec3>, material: Material)
    requires |refs| >= 1 && ValidRef(refs[0]) && !Fits(refs[0], positions, normals)
    ensures FaceVertices(ShowFace(refs), positions, normals, material) == Err(IndexOutOfRange)
  {
    var ws := Words(refs);
    var t, at := Spaced(ws), WordStarts(ws);
    SpacedLaid(ws);
    assert SpaceWordAt(t, ws[0], 0, at[1]);
    VertexUnfit(t, refs[0], 0, at[1], positions, normals, material);
  }

  /** readVertex from the space in front of a written reference whose indices
      lie outside the tables reports the range error. */
  lemma VertexUnfit(t: string, r: RefSyntax, a: nat, b: nat,
                    positions: seq<Vec3>, normals: seq<Vec3>, material: Material)
    requires ValidRef(r) && !Fits(r, positions, normals) && SpaceWordAt(t, ShowRef(r), a, b)
    ensures VertexAt(t, a, positions, normals, material) == Err(IndexOutOfRange)
  {
    VertexAtShown(t, a + 1, r, positions, normals, material);
    VertexAfterSpace(t, a, positions, normals, material);
  }
}
