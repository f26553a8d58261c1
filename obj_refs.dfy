/** Reading back one face reference (readVertex, source/obj_parser/parser.cpp:57-79):
    a reference written as `p`, `p/t`, `p//n` or `p/t/n` with decimal digits
    reads as its indices, a missing index as 0. */
module ObjRefs {
  import opened Common
  import opened TextStream
  import opened Geometry
  import opened ObjParser

  /** A vertex reference as written in a face: the digits of its position
      index and, when present, the digits of its texture and normal indices. */
  datatype RefSyntax = RefSyntax(position: string, texture: Option<string>, normal: Option<string>)

  /** Digits that `>> size_t` reads without failing. */
  predicate IndexSpelling(ds: string) {
    AllDigits(ds) && DigitsValue(ds) < Two64
  }

  predicate ValidRef(r: RefSyntax) {
    && IndexSpelling(r.position)
    && (r.texture.Some? ==> IndexSpelling(r.texture.value))
    && (r.normal.Some? ==> IndexSpelling(r.normal.value))
  }

  function ValueOrZero(o: Option<string>): nat {
    if o.Some? then DigitsValue(o.value) else 0
  }

  /** The indices a reference denotes; a missing index is 0. */
  function RefIndices(r: RefSyntax): Indices {
    Indices(DigitsValue(r.position), ValueOrZero(r.texture), ValueOrZero(r.normal))
  }

  function ShowRef(r: RefSyntax): string {
    if r.texture.None? && r.normal.None? then r.position
    else if r.normal.None? then r.position + ("/" + r.texture.value)
    else if r.texture.None? then r.position + ("/" + ("/" + r.normal.value))
    else r.position + ("/" + (r.texture.value + ("/" + r.normal.value)))
  }

  /** A written reference starts with a digit and holds no white space. */
  lemma ShowRefChars(r: RefSyntax)
    requires ValidRef(r)
    ensures ShowRef(r) != [] && IsDigit(ShowRef(r)[0])
    ensures forall k :: 0 <= k < |ShowRef(r)| ==> !IsSpace(ShowRef(r)[k])
  {
    var s := ShowRef(r);
    assert s[0] == r.position[0];
    forall k | 0 <= k < |s| ensures !IsSpace(s[k]) {
      var p := r.position;
      if k >= |p| {
        var rest := s[|p|..];
        assert s[k] == rest[k - |p|];
        if r.normal.None? {
          assert rest == "/" + r.texture.value;
        } else if r.texture.None? {
          assert rest == "/" + ("/" + r.normal.value);
        } else {
          var t := r.texture.value;
          assert rest == "/" + (t + ("/" + r.normal.value));
          if k - |p| - 1 >= |t| + 1 {
            assert rest[k - |p|] == r.normal.value[k - |p| - 2 - |t|];
          }
        }
      }
    }
  }

  // ------------------------------------------------------ one index field

  /** Digits from `a` to `b` denoting `v`, a value that fits a `size_t`. */
  predicate DigitsAt(text: string, a: nat, b: nat, v: nat) {
    a <= b <= |text| && AllDigits(text[a..b]) && DigitsValue(text[a..b]) == v && v < Two64
  }

  /** Step `i` of readVertex when it extracts an index. */
  lemma FieldRead(text: string, q: nat, i: nat, v: nat, e: nat)
    requires q <= |text| && (i == 0 || (q < |text| && IsNumeric(text[q])))
    requires ReadSize(text, q) == Some((v, e))
    ensures FieldStep(text, q, i) == Some((v, SkipSlash(text, e)))
  {
  }

  /** Step `i` of readVertex when it leaves the index at 0. */
  lemma FieldKept(text: string, q: nat, i: nat)
    requires q <= |text| && i != 0 && !(q < |text| && IsNumeric(text[q]))
    ensures FieldStep(text, q, i) == Some((0, SkipSlash(text, q)))
  {
  }

  /** Any step of readVertex reads a run of digits as its value. */
  lemma DigitsField(text: string, a: nat, b: nat, v: nat, i: nat)
    requires DigitsAt(text, a, b, v) && (b < |text| ==> !IsDigit(text[b]))
    ensures FieldStep(text, a, i) == Some((v, SkipSlash(text, b)))
  {
    assert text[a] == text[a..b][0];
    ReadSizeDigits(text, a, a, text[a..b]);
    FieldRead(text, a, i, v, b);
  }

  lemma SlashSkipped(text: string, a: nat)
    requires a < |text| && text[a] == '/'
    ensures SkipSlash(text, a) == a + 1
  {
  }

  /** The last step with no digits: the normal index stays 0. */
  lemma LastAbsent(text: string, e: nat)
    requires e <= |text| && (e < |text| ==> text[e] == ' ')
    ensures FieldsFrom(text, e, 2) == Some(([0], e)) && SkipSlash(text, e) == e
  {
    FieldKept(text, e, 2);
    assert FieldsFrom(text, e, 2) == Prepend([0], FieldsFrom(text, e, 3));
    assert [0] + [] == [0];
  }

  /** The last step over a run of digits. */
  lemma LastDigits(text: string, a: nat, b: nat, v: nat)
    requires DigitsAt(text, a, b, v) && (b < |text| ==> text[b] == ' ')
    ensures FieldsFrom(text, a, 2) == Some(([v], b))
  {
    DigitsField(text, a, b, v, 2);
    assert SkipSlash(text, b) == b;
    assert FieldsFrom(text, a, 2) == Prepend([v], FieldsFrom(text, b, 3));
    assert [v] + [] == [v];
  }

  /** The middle step over a run of digits. */
  lemma MiddleDigits(text: string, a: nat, b: nat, v: nat, c: nat, e: nat)
    requires DigitsAt(text, a, b, v) && (b < |text| ==> !IsDigit(text[b]))
    requires FieldsFrom(text, SkipSlash(text, b), 2) == Some(([c], e))
    ensures FieldsFrom(text, a, 1) == Some(([v, c], e))
  {
    DigitsField(text, a, b, v, 1);
    assert FieldsFrom(text, a, 1) == Prepend([v], FieldsFrom(text, SkipSlash(text, b), 2));
    assert [v] + [c] == [v, c];
  }

  /** The middle step at a second '/': the texture index stays 0. */
  lemma MiddleAbsent(text: string, a: nat, c: nat, e: nat)
    requires a < |text| && text[a] == '/'
    requires FieldsFrom(text, a + 1, 2) == Some(([c], e))
    ensures FieldsFrom(text, a, 1) == Some(([0, c], e))
  {
    FieldKept(text, a, 1);
    assert FieldsFrom(text, a, 1) == Prepend([0], FieldsFrom(text, a + 1, 2));
    assert [0] + [c] == [0, c];
  }

  /** The first step over the position digits, then the other two steps. */
  lemma FirstField(text: string, s: nat, e0: nat, p: nat, t: nat, n: nat, e: nat)
    requires DigitsAt(text, s, e0, p) && (e0 < |text| ==> !IsDigit(text[e0]))
    requires FieldsFrom(text, SkipSlash(text, e0), 1) == Some(([t, n], e))
    ensures RefAt(text, s) == Some((Indices(p, t, n), e))
  {
    DigitsField(text, s, e0, p, 0);
    assert FieldsFrom(text, s, 0) == Prepend([p], FieldsFrom(text, SkipSlash(text, e0), 1));
    assert [p] + [t, n] == [p, t, n];
  }

  // -------------------------------------------- the four written shapes

  /** `p` followed by a space or the end of the line. */
  lemma WrittenP(text: string, s: nat, e: nat, p: nat)
    requires DigitsAt(text, s, e, p) && (e < |text| ==> text[e] == ' ')
    ensures RefAt(text, s) == Some((Indices(p, 0, 0), e))
  {
    LastAbsent(text, e);
    assert FieldsFrom(text, e, 1) == Some(([0, 0], e)) by {
      FieldKept(text, e, 1);
      assert FieldsFrom(text, e, 1) == Prepend([0], FieldsFrom(text, e, 2));
      assert [0] + [0] == [0, 0];
    }
    FirstField(text, s, e, p, 0, 0, e);
  }

  /** `p/t` followed by a space or the end of the line. */
  lemma WrittenPT(text: string, s: nat, e0: nat, e: nat, p: nat, t: nat)
    requires DigitsAt(text, s, e0, p) && e0 < |text| && text[e0] == '/'
    requires DigitsAt(text, e0 + 1, e, t) && (e < |text| ==> text[e] == ' ')
    ensures RefAt(text, s) == Some((Indices(p, t, 0), e))
  {
    LastAbsent(text, e);
    MiddleDigits(text, e0 + 1, e, t, 0, e);
    SlashSkipped(text, e0);
    FirstField(text, s, e0, p, t, 0, e);
  }

  /** `p//n` followed by a space or the end of the line. */
  lemma WrittenPN(text: string, s: nat, e0: nat, e: nat, p: nat, n: nat)
    requires DigitsAt(text, s, e0, p) && e0 + 1 < |text| && text[e0] == '/' && text[e0 + 1] == '/'
    requires DigitsAt(text, e0 + 2, e, n) && (e < |text| ==> text[e] == ' ')
    ensures RefAt(text, s) == Some((Indices(p, 0, n), e))
  {
    LastDigits(text, e0 + 2, e, n);
    MiddleAbsent(text, e0 + 1, n, e);
    SlashSkipped(text, e0);
    FirstField(text, s, e0, p, 0, n, e);
  }

  /** `p/t/n` followed by a space or the end of the line. */
  lemma WrittenPTN(text: string, s: nat, e0: nat, e1: nat, e: nat, p: nat, t: nat, n: nat)
    requires DigitsAt(text, s, e0, p) && e0 < |text| && text[e0] == '/'
    requires DigitsAt(text, e0 + 1, e1, t) && e1 < |text| && text[e1] == '/'
    requires DigitsAt(text, e1 + 1, e, n) && (e < |text| ==> text[e] == ' ')
    ensures RefAt(text, s) == Some((Indices(p, t, n), e))
  {
    LastDigits(text, e1 + 1, e, n);
    SlashSkipped(text, e1);
    MiddleDigits(text, e0 + 1, e1, t, n, e);
    SlashSkipped(text, e0);
    FirstField(text, s, e0, p, t, n, e);
  }

  // ------------------------------------------ locating the written pieces

  /** Splitting a known stretch of text in two. */
  lemma Split(text: string, a: nat, m: nat, b: nat, u: string, w: string)
    requires a <= m <= b <= |text| && m == a + |u| && text[a..b] == u + w
    ensures text[a..m] == u && text[m..b] == w
  {
    assert text[a..m] == text[a..b][..|u|];
    assert text[m..b] == text[a..b][|u|..];
  }

  /** A stretch that starts with '/'. */
  lemma SlashThen(text: string, a: nat, b: nat, w: string)
    requires a < b <= |text| && text[a..b] == "/" + w
    ensures text[a] == '/' && text[a + 1..b] == w
  {
    Split(text, a, a + 1, b, "/", w);
    assert text[a] == text[a..a + 1][0];
  }

  /** The digits of an index spelling, found in the text. */
  lemma SpelledAt(text: string, a: nat, b: nat, ds: string)
    requires IndexSpelling(ds) && a <= b <= |text| && text[a..b] == ds
    ensures DigitsAt(text, a, b, DigitsValue(ds))
  {
  }

  /** The reference `r` is written at `s` and followed by a space or the end of the line. */
  predicate ShownAt(text: string, s: nat, r: RefSyntax) {
    && s + |ShowRef(r)| <= |text|
    && text[s..s + |ShowRef(r)|] == ShowRef(r)
    && (s + |ShowRef(r)| < |text| ==> text[s + |ShowRef(r)|] == ' ')
  }

  lemma ShownP(text: string, s: nat, r: RefSyntax)
    requires ValidRef(r) && r.texture.None? && r.normal.None? && ShownAt(text, s, r)
    ensures RefAt(text, s) == Some((RefIndices(r), s + |ShowRef(r)|))
  {
    var e := s + |r.position|;
    SpelledAt(text, s, e, r.position);
    WrittenP(text, s, e, DigitsValue(r.position));
  }

  lemma PiecesPT(text: string, s: nat, e0: nat, e: nat, ps: string, ts: string)
    requires e0 == s + |ps| && e == e0 + 1 + |ts| && e <= |text|
    requires text[s..e] == ps + ("/" + ts)
    ensures text[s..e0] == ps && text[e0] == '/' && text[e0 + 1..e] == ts
  {
    Split(text, s, e0, e, ps, "/" + ts);
    SlashThen(text, e0, e, ts);
  }

  /** Where the pieces of a written `p/t` lie in the text. */
  lemma LocatedPT(text: string, s: nat, e0: nat, e: nat, r: RefSyntax)
    requires ValidRef(r) && r.texture.Some? && r.normal.None? && ShownAt(text, s, r)
    requires e0 == s + |r.position| && e == e0 + 1 + |r.texture.value|
    ensures e == s + |ShowRef(r)|
    ensures DigitsAt(text, s, e0, DigitsValue(r.position)) && e0 < |text| && text[e0] == '/'
    ensures DigitsAt(text, e0 + 1, e, DigitsValue(r.texture.value)) && (e < |text| ==> text[e] == ' ')
  {
    var ps, ts := r.position, r.texture.value;
    assert e == s + |ShowRef(r)|;
    PiecesPT(text, s, e0, e, ps, ts);
    SpelledAt(text, s, e0, ps);
    SpelledAt(text, e0 + 1, e, ts);
  }

  /** A `p/t` found in the text reads as its indices. */
  lemma ReadPT(text: string, s: nat, e0: nat, e: nat, r: RefSyntax)
    requires r.texture.Some? && r.normal.None?
    requires DigitsAt(text, s, e0, DigitsValue(r.position)) && e0 < |text| && text[e0] == '/'
    requires DigitsAt(text, e0 + 1, e, DigitsValue(r.texture.value)) && (e < |text| ==> text[e] == ' ')
    ensures RefAt(text, s) == Some((RefIndices(r), e))
  {
    WrittenPT(text, s, e0, e, DigitsValue(r.position), DigitsValue(r.texture.value));
  }

  lemma ShownPT(text: string, s: nat, r: RefSyntax)
    requires ValidRef(r) && r.texture.Some? && r.normal.None? && ShownAt(text, s, r)
    ensures RefAt(text, s) == Some((RefIndices(r), s + |ShowRef(r)|))
  {
    var e0 := s + |r.position|;
    var e := e0 + 1 + |r.texture.value|;
    LocatedPT(text, s, e0, e, r);
    ReadPT(text, s, e0, e, r);
  }

  lemma PiecesPN(text: string, s: nat, e0: nat, e: nat, ps: string, ns: string)
    requires e0 == s + |ps| && e == e0 + 2 + |ns| && e <= |text|
    requires text[s..e] == ps + ("/" + ("/" + ns))
    ensures text[s..e0] == ps && text[e0] == '/' && text[e0 + 1] == '/' && text[e0 + 2..e] == ns
  {
    Split(text, s, e0, e, ps, "/" + ("/" + ns));
    SlashThen(text, e0, e, "/" + ns);
    SlashThen(text, e0 + 1, e, ns);
  }

  /** Where the pieces of a written `p//n` lie in the text. */
  lemma LocatedPN(text: string, s: nat, e0: nat, e: nat, r: RefSyntax)
    requires ValidRef(r) && r.texture.None? && r.normal.Some? && ShownAt(text, s, r)
    requires e0 == s + |r.position| && e == e0 + 2 + |r.normal.value|
    ensures e == s + |ShowRef(r)|
    ensures DigitsAt(text, s, e0, DigitsValue(r.position)) && e0 + 1 < |text| && text[e0] == '/' && text[e0 + 1] == '/'
    ensures DigitsAt(text, e0 + 2, e, DigitsValue(r.normal.value)) && (e < |text| ==> text[e] == ' ')
  {
    var ps, ns := r.position, r.normal.value;
    assert e == s + |ShowRef(r)|;
    PiecesPN(text, s, e0, e, ps, ns);
    SpelledAt(text, s, e0, ps);
    SpelledAt(text, e0 + 2, e, ns);
  }

  /** A `p//n` found in the text reads as its indices. */
  lemma ReadPN(text: string, s: nat, e0: nat, e: nat, r: RefSyntax)
    requires r.texture.None? && r.normal.Some?
    requires DigitsAt(text, s, e0, DigitsValue(r.position)) && e0 + 1 < |text| && text[e0] == '/' && text[e0 + 1] == '/'
    requires DigitsAt(text, e0 + 2, e, DigitsValue(r.normal.value)) && (e < |text| ==> text[e] == ' ')
    ensures RefAt(text, s) == Some((RefIndices(r), e))
  {
    WrittenPN(text, s, e0, e, DigitsValue(r.position), DigitsValue(r.normal.value));
  }

  lemma ShownPN(text: string, s: nat, r: RefSyntax)
    requires ValidRef(r) && r.texture.None? && r.normal.Some? && ShownAt(text, s, r)
    ensures RefAt(text, s) == Some((RefIndices(r), s + |ShowRef(r)|))
  {
    var e0 := s + |r.position|;
    var e := e0 + 2 + |r.normal.value|;
    LocatedPN(text, s, e0, e, r);
    ReadPN(text, s, e0, e, r);
  }

  lemma PiecesPTN(text: string, s: nat, e0: nat, e1: nat, e: nat, ps: string, ts: string, ns: string)
    requires e0 == s + |ps| && e1 == e0 + 1 + |ts| && e == e1 + 1 + |ns| && e <= |text|
    requires text[s..e] == ps + ("/" + (ts + ("/" + ns)))
    ensures text[s..e0] == ps && text[e0] == '/' && text[e0 + 1..e1] == ts
    ensures text[e1] == '/' && text[e1 + 1..e] == ns
  {
    Split(text, s, e0, e, ps, "/" + (ts + ("/" + ns)));
    SlashThen(text, e0, e, ts + ("/" + ns));
    Split(text, e0 + 1, e1, e, ts, "/" + ns);
    SlashThen(text, e1, e, ns);
  }

  /** Where the pieces of a written `p/t/n` lie in the text. */
  lemma LocatedPTN(text: string, s: nat, e0: nat, e1: nat, e: nat, r: RefSyntax)
    requires ValidRef(r) && r.texture.Some? && r.normal.Some? && ShownAt(text, s, r)
    requires e0 == s + |r.position| && e1 == e0 + 1 + |r.texture.value| && e == e1 + 1 + |r.normal.value|
    ensures e == s + |ShowRef(r)|
    ensures DigitsAt(text, s, e0, DigitsValue(r.position)) && e0 < |text| && text[e0] == '/'
    ensures DigitsAt(text, e0 + 1, e1, DigitsValue(r.texture.value)) && e1 < |text| && text[e1] == '/'
    ensures DigitsAt(text, e1 + 1, e, DigitsValue(r.normal.value)) && (e < |text| ==> text[e] == ' ')
  {
    var ps, ts, ns := r.position, r.texture.value, r.normal.value;
    assert e == s + |ShowRef(r)|;
    PiecesPTN(text, s, e0, e1, e, ps, ts, ns);
    SpelledAt(text, s, e0, ps);
    SpelledAt(text, e0 + 1, e1, ts);
    SpelledAt(text, e1 + 1, e, ns);
  }

  /** A `p/t/n` found in the text reads as its indices. */
  lemma ReadPTN(text: string, s: nat, e0: nat, e1: nat, e: nat, r: RefSyntax)
    requires r.texture.Some? && r.normal.Some?
    requires DigitsAt(text, s, e0, DigitsValue(r.position)) && e0 < |text| && text[e0] == '/'
    requires DigitsAt(text, e0 + 1, e1, DigitsValue(r.texture.value)) && e1 < |text| && text[e1] == '/'
    requires DigitsAt(text, e1 + 1, e, DigitsValue(r.normal.value)) && (e < |text| ==> text[e] == ' ')
    ensures RefAt(text, s) == Some((RefIndices(r), e))
  {
    WrittenPTN(text, s, e0, e1, e, DigitsValue(r.position), DigitsValue(r.texture.value), DigitsValue(r.normal.value));
  }

  lemma ShownPTN(text: string, s: nat, r: RefSyntax)
    requires ValidRef(r) && r.texture.Some? && r.normal.Some? && ShownAt(text, s, r)
    ensures RefAt(text, s) == Some((RefIndices(r), s + |ShowRef(r)|))
  {
    var e0 := s + |r.position|;
    var e1 := e0 + 1 + |r.texture.value|;
    var e := e1 + 1 + |r.normal.value|;
    LocatedPTN(text, s, e0, e1, e, r);
    ReadPTN(text, s, e0, e1, e, r);
  }

  /** Round trip: a valid reference written at `s` reads back as its indices,
      ending just after its last character. */
  lemma RefAtShown(text: string, s: nat, r: RefSyntax)
    requires ValidRef(r) && ShownAt(text, s, r)
    ensures RefAt(text, s) == Some((RefIndices(r), s + |ShowRef(r)|))
  {
    if r.texture.None? && r.normal.None? {
      ShownP(text, s, r);
    } else if r.normal.None? {
      ShownPT(text, s, r);
    } else if r.texture.None? {
      ShownPN(text, s, r);
    } else {
      ShownPTN(text, s, r);
    }
  }

  /** The first extraction of readVertex skips white space, so a reference
      may be read from the space in front of it. */
  lemma RefAfterSpace(text: string, q: nat)
    requires q < |text| && IsSpace(text[q])
    ensures RefAt(text, q) == RefAt(text, q + 1)
  {
    assert SkipWs(text, q) == SkipWs(text, q + 1);
    assert ReadSize(text, q) == ReadSize(text, q + 1);
    assert FieldStep(text, q, 0) == FieldStep(text, q + 1, 0);
    assert FieldsFrom(text, q, 0) == FieldsFrom(text, q + 1, 0);
  }

  /** readVertex on a valid reference written at `s` yields the vertex its
      indices select, or IndexOutOfRange when they lie outside the tables. */
  lemma VertexAtShown(text: string, s: nat, r: RefSyntax,
                      positions: seq<Vec3>, normals: seq<Vec3>, material: Material)
    requires ValidRef(r) && ShownAt(text, s, r)
    ensures var ix := RefIndices(r);
            VertexAt(text, s, positions, normals, material)
            == if ix.position < |positions| && ix.normal < |normals|
               then Ok((Resolve(ix, positions, normals, material), s + |ShowRef(r)|))
               else Err(IndexOutOfRange)
  {
    RefAtShown(text, s, r);
  }

  /** readVertex from a space reads what follows it. */
  lemma VertexAfterSpace(text: string, q: nat, positions: seq<Vec3>, normals: seq<Vec3>, material: Material)
    requires q < |text| && IsSpace(text[q])
    ensures VertexAt(text, q, positions, normals, material) == VertexAt(text, q + 1, positions, normals, material)
  {
    RefAfterSpace(text, q);
  }
}
