/** The Wavefront-style mesh loader of gloom/src/OBJLoader.cpp: the `split`
    tokenizer and the line-by-line state machine of `loadWavefront`.

    The file is given as its sequence of lines, or `None` when it cannot be
    opened. Number tokens are turned into numbers by `std::stof` and
    `std::stoi`; these are a pair of total functions supplied by the caller,
    which is how the model assumes every number token is well formed. */
module ObjLoader {
  import opened Wrappers
  import opened Floats
  import opened MeshModel

  // ---------------------------------------------------------------------
  // split
  // ---------------------------------------------------------------------

  /** `d` occurs in `s` starting at position `j`. */
  predicate OccursAt(s: string, d: string, j: nat) {
    j + |d| <= |s| && s[j..j + |d|] == d
  }

  ghost predicate Contains(s: string, d: string) {
    exists j: nat :: OccursAt(s, d, j)
  }

  /** `std::string::find` starting at `i`: the first occurrence of `d` at or
      after position `i`, or `None` (`npos`). */
  function FindFrom(s: string, d: string, i: nat): (r: Option<nat>)
    decreases |s| - i
    ensures r.Some? ==> i <= r.value && OccursAt(s, d, r.value)
    ensures r.Some? ==> forall j: nat :: i <= j < r.value ==> !OccursAt(s, d, j)
    ensures r.None? ==> forall j: nat :: i <= j ==> !OccursAt(s, d, j)
  {
    if i + |d| > |s| then None
    else if s[i..i + |d|] == d then Some(i)
    else FindFrom(s, d, i + 1)
  }

  function Find(s: string, d: string): Option<nat> {
    FindFrom(s, d, 0)
  }

  /** The pieces `split(s, d)` returns: the text before the first occurrence
      of `d`, then the pieces of what follows that occurrence; the last piece
      is whatever is left when `d` no longer occurs. An empty `d` would make
      the source loop forever. */
  function Pieces(s: string, d: string): (r: seq<string>)
    requires |d| > 0
    decreases |s|
    ensures |r| >= 1
  {
    match Find(s, d)
    case None => [s]
    case Some(p) => [s[..p]] + Pieces(s[p + |d|..], d)
  }

  /** Pieces glued back together with the delimiter between them. */
  function Join(pieces: seq<string>, d: string): string
    requires |pieces| >= 1
  {
    if |pieces| == 1 then pieces[0] else pieces[0] + d + Join(pieces[1..], d)
  }

  /** No piece of a split contains the delimiter. */
  lemma {:induction false} PiecesAvoidDelimiter(s: string, d: string)
    requires |d| > 0
    decreases |s|
    ensures forall k :: 0 <= k < |Pieces(s, d)| ==> !Contains(Pieces(s, d)[k], d)
  {
    match Find(s, d)
    case None =>
    case Some(p) =>
      var head, rest := s[..p], s[p + |d|..];
      forall j: nat | OccursAt(head, d, j) ensures false {
        assert head[j..j + |d|] == s[j..j + |d|];
        assert OccursAt(s, d, j);
      }
      PiecesAvoidDelimiter(rest, d);
      assert Pieces(s, d) == [head] + Pieces(rest, d);
  }

  /** Joining the pieces with the delimiter gives back the input. */
  lemma {:induction false} PiecesJoinBack(s: string, d: string)
    requires |d| > 0
    decreases |s|
    ensures Join(Pieces(s, d), d) == s
  {
    match Find(s, d)
    case None =>
    case Some(p) =>
      var head, rest := s[..p], s[p + |d|..];
      var ps := Pieces(s, d);
      assert ps == [head] + Pieces(rest, d);
      assert ps[0] == head && ps[1..] == Pieces(rest, d);
      calc {
        Join(ps, d);
        ps[0] + d + Join(ps[1..], d);
        { PiecesJoinBack(rest, d); }
        head + d + rest;
        { CutAround(s, d, p); }
        s;
      }
  }

  /** Cutting a string around an occurrence of `d` and gluing it back. */
  lemma CutAround(s: string, d: string, p: nat)
    requires OccursAt(s, d, p)
    ensures s == s[..p] + d + s[p + |d|..]
  {
    assert s == s[..p] + s[p..p + |d|] + s[p + |d|..];
  }

  /** `split`: cuts the front piece off a local copy of the target until the
      delimiter no longer occurs, then keeps what is left. */
  method Split(target: string, delimiter: string) returns (res: seq<string>)
    requires |delimiter| > 0
    ensures res == Pieces(target, delimiter)
  {
    res := [];
    var rest := target;
    var pos := Find(rest, delimiter);
    while pos.Some?
      invariant pos == Find(rest, delimiter)
      invariant res + Pieces(rest, delimiter) == Pieces(target, delimiter)
      decreases |rest|
    {
      assert Pieces(rest, delimiter) == [rest[..pos.value]] + Pieces(rest[pos.value + |delimiter|..], delimiter);
      res := res + [rest[..pos.value]];
      rest := rest[pos.value + |delimiter|..];
      pos := Find(rest, delimiter);
    }
    res := res + [rest];
  }

  // ---------------------------------------------------------------------
  // Number tokens and face references
  // ---------------------------------------------------------------------

  /** `std::stof` and `std::stoi`, taken as total functions. */
  datatype Parsers = Parsers(toFloat: string -> real, toInt: string -> int)

  const SizeTModulus: int := 0x1_0000_0000_0000_0000

  /** Conversion of an `int` to the 64-bit unsigned `size_t`. */
  function AsSizeT(i: int): (r: nat)
    ensures r < SizeTModulus
  {
    i % SizeTModulus
  }

  /** `size_t idx = std::stoi(token) - 1`: a one-based face reference turned
      into a zero-based index, wrapping below zero. */
  function ZeroBased(p: Parsers, token: string): nat {
    AsSizeT(p.toInt(token) - 1)
  }

  /** For any `int` reference k and any pool that fits in memory, the check
      `k - 1 < size` done on `size_t` accepts exactly the references 1..size,
      and then the index used is k - 1: reference 0 or a negative reference
      wraps around to a huge index and is rejected. */
  lemma ZeroBasedInRange(k: int, size: nat)
    requires -0x8000_0000 <= k < 0x8000_0000
    requires size < SizeTModulus / 2
    ensures AsSizeT(k - 1) < size <==> 1 <= k <= size
    ensures 1 <= k ==> AsSizeT(k - 1) == k - 1
  {
    if k < 1 {
      assert AsSizeT(k - 1) == SizeTModulus + k - 1;
    }
  }

  /** One corner of a face: zero-based indices into the position pool and,
      when the face has normals, into the normal pool. */
  datatype Corner = Corner(position: nat, normal: nat)

  /** The `/`-separated components of vertex token i of a face line. */
  function Components(parts: seq<string>, i: nat): seq<string>
    requires i < |parts|
  {
    Pieces(parts[i], "/")
  }

  /** The face has four vertex tokens (a fifth and later ones are ignored). */
  predicate IsQuad(parts: seq<string>) {
    |parts| >= 5
  }

  /** Every vertex token of the face has as many components as the first. */
  predicate CountsAgree(parts: seq<string>)
    requires |parts| >= 4
  {
    var n := |Components(parts, 1)|;
    !(n < 1 || n != |Components(parts, 2)| || |Components(parts, 2)| != |Components(parts, 3)|
      || (IsQuad(parts) && |Components(parts, 4)| != n))
  }

  /** The face names normals: its tokens have at least three components. */
  predicate UsesNormals(parts: seq<string>)
    requires |parts| >= 4
  {
    |Components(parts, 1)| >= 3
  }

  /** Corner i of a face whose component counts agree: its position index,
      and its normal index when the face uses normals. */
  function CornerAt(parts: seq<string>, i: nat, p: Parsers): Corner
    requires |parts| >= 4 && CountsAgree(parts) && 1 <= i <= (if IsQuad(parts) then 4 else 3)
  {
    var c := Components(parts, i);
    Corner(ZeroBased(p, c[0]), if UsesNormals(parts) then ZeroBased(p, c[2]) else 0)
  }

  /** The corners of a face whose component counts agree, in token order. */
  function Corners(parts: seq<string>, p: Parsers): (cs: seq<Corner>)
    requires |parts| >= 4 && CountsAgree(parts)
    ensures |cs| == if IsQuad(parts) then 4 else 3
  {
    var three := [CornerAt(parts, 1, p), CornerAt(parts, 2, p), CornerAt(parts, 3, p)];
    if IsQuad(parts) then three + [CornerAt(parts, 4, p)] else three
  }

  /** Every corner's position index lies inside the position pool. */
  predicate PositionsInPool(cs: seq<Corner>, size: nat)
    requires 3 <= |cs| <= 4
  {
    cs[0].position < size && cs[1].position < size && cs[2].position < size
    && (|cs| == 4 ==> cs[3].position < size)
  }

  /** Every corner's normal index lies inside the normal pool. */
  predicate NormalsInPool(cs: seq<Corner>, size: nat)
    requires 3 <= |cs| <= 4
  {
    cs[0].normal < size && cs[1].normal < size && cs[2].normal < size
    && (|cs| == 4 ==> cs[3].normal < size)
  }

  /** A face whose corners all lie inside the pools (normals only when the
      face uses them) is emitted; any other face is dropped. */
  predicate FaceAccepted(parts: seq<string>, vertexPool: seq<Float4>, normalPool: seq<Float3>, p: Parsers)
    requires |parts| >= 4
  {
    CountsAgree(parts)
    && PositionsInPool(Corners(parts, p), |vertexPool|)
    && (UsesNormals(parts) ==> NormalsInPool(Corners(parts, p), |normalPool|))
  }

  // ---------------------------------------------------------------------
  // The loader's state and one line of input
  // ---------------------------------------------------------------------

  /** Everything `loadWavefront` keeps between lines: the meshes built so
      far and the two pools shared by all meshes of the file. */
  datatype ObjState = ObjState(meshes: seq<MeshData>, vertexPool: seq<Float4>, normalPool: seq<Float3>)

  const Start: ObjState := ObjState([], [], [])

  /** One emitted triangle: three copied positions, three normals (pool
      normals, or three zero normals when the face has none), and three new
      indices counting on from the current number of indices. */
  function EmitTriangle(m: MeshData, vertexPool: seq<Float4>, normalPool: seq<Float3>, withNormals: bool,
                        a: Corner, b: Corner, c: Corner): MeshData
    requires a.position < |vertexPool| && b.position < |vertexPool| && c.position < |vertexPool|
    requires withNormals ==> a.normal < |normalPool| && b.normal < |normalPool| && c.normal < |normalPool|
  {
    var k := |m.indices|;
    m.(vertices := m.vertices + [vertexPool[a.position], vertexPool[b.position], vertexPool[c.position]],
       normals := m.normals + (if withNormals then [normalPool[a.normal], normalPool[b.normal], normalPool[c.normal]]
                               else [Zero3, Zero3, Zero3]),
       indices := m.indices + [k, k + 1, k + 2])
  }

  /** The triangles of an accepted face: a triangle a b c as it is, a quad
      a b c d as (a, c, d) followed by (a, b, c). */
  function EmitCorners(m: MeshData, vertexPool: seq<Float4>, normalPool: seq<Float3>, withNormals: bool,
                       cs: seq<Corner>): MeshData
    requires 3 <= |cs| <= 4 && PositionsInPool(cs, |vertexPool|)
    requires withNormals ==> NormalsInPool(cs, |normalPool|)
  {
    if |cs| == 4 then
      EmitTriangle(EmitTriangle(m, vertexPool, normalPool, withNormals, cs[0], cs[2], cs[3]),
                   vertexPool, normalPool, withNormals, cs[0], cs[1], cs[2])
    else EmitTriangle(m, vertexPool, normalPool, withNormals, cs[0], cs[1], cs[2])
  }

  /** What a face line `f ...` does to the current mesh. A face whose
      component counts differ leaves it alone; otherwise `hasNormals` is
      assigned first, and the face is emitted only when every reference lies
      in its pool. */
  function WithFace(m: MeshData, parts: seq<string>, vertexPool: seq<Float4>, normalPool: seq<Float3>,
                    p: Parsers): MeshData
    requires |parts| >= 4
  {
    if !CountsAgree(parts) then m
    else
      var m1 := m.(hasNormals := Some(UsesNormals(parts)));
      if !FaceAccepted(parts, vertexPool, normalPool, p) then m1
      else EmitCorners(m1, vertexPool, normalPool, UsesNormals(parts), Corners(parts, p))
  }

  predicate IsObjectLine(parts: seq<string>) { |parts| >= 2 && parts[0] == "o" }
  predicate IsVertexLine(parts: seq<string>) { |parts| >= 4 && parts[0] == "v" }
  predicate IsNormalLine(parts: seq<string>) { |parts| >= 4 && parts[0] == "vn" }
  predicate IsFaceLine(parts: seq<string>) { |parts| >= 4 && parts[0] == "f" }

  /** The meshes a face line works on: a mesh named "noname" is created first
      when there is none yet. */
  function FaceTarget(meshes: seq<MeshData>): (r: seq<MeshData>)
    ensures |r| >= 1
  {
    if |meshes| == 0 then [EmptyMesh("noname")] else meshes
  }

  /** One line of the file. The tests are tried in the source's order, so a
      line with too few tokens for its keyword falls through to "ignored". */
  function ProcessLine(st: ObjState, line: string, p: Parsers): ObjState {
    var parts := Pieces(line, " ");
    if IsObjectLine(parts) then
      st.(meshes := st.meshes + [EmptyMesh(parts[1])])
    else if IsVertexLine(parts) then
      var f := p.toFloat;
      st.(vertexPool := st.vertexPool + [Float4(f(parts[1]), f(parts[2]), f(parts[3]),
                                                if |parts| >= 5 then f(parts[4]) else 1.0)])
    else if IsNormalLine(parts) then
      var f := p.toFloat;
      st.(normalPool := st.normalPool + [Float3(f(parts[1]), f(parts[2]), f(parts[3]))])
    else if IsFaceLine(parts) then
      var ms := FaceTarget(st.meshes);
      var last := |ms| - 1;
      st.(meshes := ms[..last] + [WithFace(ms[last], parts, st.vertexPool, st.normalPool, p)])
    else st
  }

  /** The state after the given lines, read from the first. */
  function LoadLines(lines: seq<string>, p: Parsers): ObjState
    decreases |lines|
  {
    if lines == [] then Start
    else ProcessLine(LoadLines(lines[..|lines| - 1], p), lines[|lines| - 1], p)
  }

  // ---------------------------------------------------------------------
  // Properties of one line
  // ---------------------------------------------------------------------

  /** An `o` line appends one new empty mesh named by its second token and
      changes nothing else; a `v` line appends the position read from tokens
      1 to 3, with w read from token 4 or defaulting to 1; a `vn` line appends
      the normal read from tokens 1 to 3; any other line (or one with too
      few tokens) changes nothing. */
  lemma NonFaceLines(st: ObjState, line: string, p: Parsers)
    ensures var parts := Pieces(line, " "); var r := ProcessLine(st, line, p);
      && (IsObjectLine(parts) ==>
            r == st.(meshes := st.meshes + [EmptyMesh(parts[1])]))
      && (!IsObjectLine(parts) && IsVertexLine(parts) ==>
            r.meshes == st.meshes && r.normalPool == st.normalPool
            && r.vertexPool == st.vertexPool + [Float4(p.toFloat(parts[1]), p.toFloat(parts[2]), p.toFloat(parts[3]),
                                                       if |parts| >= 5 then p.toFloat(parts[4]) else 1.0)])
      && (!IsObjectLine(parts) && !IsVertexLine(parts) && IsNormalLine(parts) ==>
            r.meshes == st.meshes && r.vertexPool == st.vertexPool
            && r.normalPool == st.normalPool + [Float3(p.toFloat(parts[1]), p.toFloat(parts[2]), p.toFloat(parts[3]))])
      && (!IsObjectLine(parts) && !IsVertexLine(parts) && !IsNormalLine(parts) && !IsFaceLine(parts) ==>
            r == st)
  {
  }

  /** A face line never touches the pools and changes only the last mesh;
      when there was no mesh, the result is one mesh named "noname", even
      when the face itself is then dropped. */
  lemma FaceLineTouchesLastMeshOnly(st: ObjState, line: string, p: Parsers)
    requires IsFaceLine(Pieces(line, " "))
    ensures var r := ProcessLine(st, line, p);
      && r.vertexPool == st.vertexPool && r.normalPool == st.normalPool
      && |r.meshes| == (if |st.meshes| == 0 then 1 else |st.meshes|)
      && (|st.meshes| > 0 ==> r.meshes[..|st.meshes| - 1] == st.meshes[..|st.meshes| - 1]
                               && r.meshes[|st.meshes| - 1].name == st.meshes[|st.meshes| - 1].name)
      && (|st.meshes| == 0 ==> r.meshes[0].name == "noname")
  {
    var parts := Pieces(line, " ");
    assert !IsObjectLine(parts) && !IsVertexLine(parts) && !IsNormalLine(parts);
  }

  /** A face leaves the vertices, normals and indices of the mesh unchanged
      exactly when it is dropped, that is when its component counts differ or
      some reference it uses lies outside its pool. */
  lemma FaceDroppedIff(m: MeshData, parts: seq<string>, vertexPool: seq<Float4>, normalPool: seq<Float3>, p: Parsers)
    requires |parts| >= 4
    ensures var r := WithFace(m, parts, vertexPool, normalPool, p);
      (r.vertices == m.vertices && r.normals == m.normals && r.indices == m.indices)
      <==> !FaceAccepted(parts, vertexPool, normalPool, p)
  {
    var r := WithFace(m, parts, vertexPool, normalPool, p);
    if FaceAccepted(parts, vertexPool, normalPool, p) {
      assert |r.vertices| > |m.vertices|;
    }
  }

  /** A face whose component counts agree assigns `hasNormals` from the count
      even when it is then dropped for a reference outside its pool; a face
      whose counts differ leaves the mesh as it was. */
  lemma FaceAssignsHasNormals(m: MeshData, parts: seq<string>, vertexPool: seq<Float4>, normalPool: seq<Float3>,
                              p: Parsers)
    requires |parts| >= 4
    ensures var r := WithFace(m, parts, vertexPool, normalPool, p);
      && (CountsAgree(parts) ==> r.hasNormals == Some(|Components(parts, 1)| >= 3))
      && (!CountsAgree(parts) ==> r == m)
      && r.name == m.name && r.colours == m.colours
  {
  }

  /** An accepted triangle appends its three corners in order; an accepted
      quad a b c d appends a, c, d and then a, b, c. The normals follow the
      same corners, or are three zero normals per triangle, and the indices
      continue the running count from `|m.indices|`. */
  lemma FaceEmissionOrder(m: MeshData, parts: seq<string>, vertexPool: seq<Float4>, normalPool: seq<Float3>,
                          p: Parsers)
    requires |parts| >= 4 && FaceAccepted(parts, vertexPool, normalPool, p)
    ensures var r := WithFace(m, parts, vertexPool, normalPool, p);
      var cs := Corners(parts, p);
      var P := (i: nat) requires i < |cs| => vertexPool[cs[i].position];
      var N := (i: nat) requires i < |cs| => if UsesNormals(parts) then normalPool[cs[i].normal] else Zero3;
      var k := |m.indices|;
      && (IsQuad(parts) ==>
            r.vertices == m.vertices + [P(0), P(2), P(3), P(0), P(1), P(2)]
            && r.normals == m.normals + [N(0), N(2), N(3), N(0), N(1), N(2)]
            && r.indices == m.indices + [k, k + 1, k + 2, k + 3, k + 4, k + 5])
      && (!IsQuad(parts) ==>
            r.vertices == m.vertices + [P(0), P(1), P(2)]
            && r.normals == m.normals + [N(0), N(1), N(2)]
            && r.indices == m.indices + [k, k + 1, k + 2])
  {
  }

  // ---------------------------------------------------------------------
  // The mesh invariant the loader keeps
  // ---------------------------------------------------------------------

  /** Every mesh the loader builds has one normal per vertex, whole
      triangles, and the indices 0, 1, ..., |vertices| - 1 in order. */
  predicate Consistent(m: MeshData) {
    && |m.normals| == |m.vertices|
    && |m.vertices| % 3 == 0
    && |m.indices| == |m.vertices|
    && forall i :: 0 <= i < |m.indices| ==> m.indices[i] == i
  }

  lemma EmitTriangleConsistent(m: MeshData, vertexPool: seq<Float4>, normalPool: seq<Float3>, withNormals: bool,
                               a: Corner, b: Corner, c: Corner)
    requires a.position < |vertexPool| && b.position < |vertexPool| && c.position < |vertexPool|
    requires withNormals ==> a.normal < |normalPool| && b.normal < |normalPool| && c.normal < |normalPool|
    requires Consistent(m)
    ensures var r := EmitTriangle(m, vertexPool, normalPool, withNormals, a, b, c);
      Consistent(r) && |r.vertices| == |m.vertices| + 3
  {
  }

  lemma WithFaceConsistent(m: MeshData, parts: seq<string>, vertexPool: seq<Float4>, normalPool: seq<Float3>,
                           p: Parsers)
    requires |parts| >= 4 && Consistent(m)
    ensures Consistent(WithFace(m, parts, vertexPool, normalPool, p))
  {
    if CountsAgree(parts) && FaceAccepted(parts, vertexPool, normalPool, p) {
      var withNormals := UsesNormals(parts);
      var m1 := m.(hasNormals := Some(withNormals));
      var cs := Corners(parts, p);
      if IsQuad(parts) {
        EmitTriangleConsistent(m1, vertexPool, normalPool, withNormals, cs[0], cs[2], cs[3]);
        var m2 := EmitTriangle(m1, vertexPool, normalPool, withNormals, cs[0], cs[2], cs[3]);
        EmitTriangleConsistent(m2, vertexPool, normalPool, withNormals, cs[0], cs[1], cs[2]);
      } else {
        EmitTriangleConsistent(m1, vertexPool, normalPool, withNormals, cs[0], cs[1], cs[2]);
      }
    }
  }

  predicate AllConsistent(meshes: seq<MeshData>) {
    forall k :: 0 <= k < |meshes| ==> Consistent(meshes[k])
  }

  lemma ProcessLineConsistent(st: ObjState, line: string, p: Parsers)
    requires AllConsistent(st.meshes)
    ensures AllConsistent(ProcessLine(st, line, p).meshes)
  {
    var parts := Pieces(line, " ");
    if !IsObjectLine(parts) && !IsVertexLine(parts) && !IsNormalLine(parts) && IsFaceLine(parts) {
      var ms := FaceTarget(st.meshes);
      WithFaceConsistent(ms[|ms| - 1], parts, st.vertexPool, st.normalPool, p);
    }
  }

  /** Whatever the input, every mesh the loader produces is consistent: its
      normals match its vertices one for one and its indices count up from 0. */
  lemma {:induction false} LoadLinesConsistent(lines: seq<string>, p: Parsers)
    decreases |lines|
    ensures AllConsistent(LoadLines(lines, p).meshes)
  {
    if lines != [] {
      LoadLinesConsistent(lines[..|lines| - 1], p);
      ProcessLineConsistent(LoadLines(lines[..|lines| - 1], p), lines[|lines| - 1], p);
    }
  }

  // ---------------------------------------------------------------------
  // loadWavefront
  // ---------------------------------------------------------------------

  /** The two errors the loaders throw. */
  datatype LoadError = CannotOpenObjFile | UnrecognisedPart(name: string)

  /** Lines 124-138 and 141-154 of `loadWavefront`: one triangle pushed onto
      the mesh, normals chosen by the mesh's `hasNormals`. */
  method PushTriangle(mesh: Mesh, vertexPool: seq<Float4>, normalPool: seq<Float3>, a: Corner, b: Corner, c: Corner)
    requires a.position < |vertexPool| && b.position < |vertexPool| && c.position < |vertexPool|
    requires mesh.hasNormals == Some(true) ==> a.normal < |normalPool| && b.normal < |normalPool| && c.normal < |normalPool|
    modifies mesh
    ensures mesh.View() == EmitTriangle(old(mesh.View()), vertexPool, normalPool, old(mesh.hasNormals) == Some(true), a, b, c)
  {
    mesh.vertices := mesh.vertices + [vertexPool[a.position], vertexPool[b.position], vertexPool[c.position]];
    if mesh.hasNormals == Some(true) {
      mesh.normals := mesh.normals + [normalPool[a.normal], normalPool[b.normal], normalPool[c.normal]];
    } else {
      mesh.normals := mesh.normals + [Zero3, Zero3, Zero3];
    }
    var k := |mesh.indices|;
    mesh.indices := mesh.indices + [k, k + 1, k + 2];
  }

  /** Lines 123-154 of `loadWavefront`: the triangles of an accepted face. */
  method PushCorners(mesh: Mesh, vertexPool: seq<Float4>, normalPool: seq<Float3>, cs: seq<Corner>)
    requires 3 <= |cs| <= 4 && PositionsInPool(cs, |vertexPool|)
    requires mesh.hasNormals == Some(true) ==> NormalsInPool(cs, |normalPool|)
    modifies mesh
    ensures mesh.View() == EmitCorners(old(mesh.View()), vertexPool, normalPool, old(mesh.hasNormals) == Some(true), cs)
  {
    if |cs| == 4 {
      PushTriangle(mesh, vertexPool, normalPool, cs[0], cs[2], cs[3]);
    }
    PushTriangle(mesh, vertexPool, normalPool, cs[0], cs[1], cs[2]);
  }

  /** Lines 78-86 and 103-108 of `loadWavefront`: the zero-based position
      index of every corner, and its normal index when the face has normals. */
  method ReadCorners(parts: seq<string>, parts1: seq<string>, parts2: seq<string>, parts3: seq<string>,
                     parts4: seq<string>, p: Parsers) returns (cs: seq<Corner>)
    requires |parts| >= 4 && CountsAgree(parts)
    requires parts1 == Components(parts, 1) && parts2 == Components(parts, 2) && parts3 == Components(parts, 3)
    requires IsQuad(parts) ==> parts4 == Components(parts, 4)
    ensures cs == Corners(parts, p)
  {
    var withNormals := |parts1| >= 3;
    var n1, n2, n3, n4 := 0, 0, 0, 0;
    if withNormals {
      n1 := ZeroBased(p, parts1[2]);
      n2 := ZeroBased(p, parts2[2]);
      n3 := ZeroBased(p, parts3[2]);
      if IsQuad(parts) {
        n4 := ZeroBased(p, parts4[2]);
      }
    }
    cs := [Corner(ZeroBased(p, parts1[0]), n1), Corner(ZeroBased(p, parts2[0]), n2),
           Corner(ZeroBased(p, parts3[0]), n3)];
    if IsQuad(parts) {
      cs := cs + [Corner(ZeroBased(p, parts4[0]), n4)];
    }
  }

  /** Lines 58-154 of `loadWavefront`: one face line applied to
      `meshes.back()` in place. Each early `return` is one of the source's
      `continue`s. */
  method ApplyFace(mesh: Mesh, parts: seq<string>, vertexPool: seq<Float4>, normalPool: seq<Float3>, p: Parsers)
    requires |parts| >= 4
    modifies mesh
    ensures mesh.View() == WithFace(old(mesh.View()), parts, vertexPool, normalPool, p)
  {
    var quadruple := |parts| >= 5;
    var parts1 := Split(parts[1], "/");
    var parts2 := Split(parts[2], "/");
    var parts3 := Split(parts[3], "/");
    var parts4: seq<string> := [];
    if quadruple {
      parts4 := Split(parts[4], "/");
    }
    ghost var m0 := mesh.View();
    if |parts1| < 1 || |parts1| != |parts2| || |parts2| != |parts3| || (quadruple && |parts4| != |parts1|) {
      assert !CountsAgree(parts);
      return;
    }
    assert CountsAgree(parts);
    mesh.hasNormals := Some(|parts1| >= 3);
    ghost var m1 := m0.(hasNormals := Some(UsesNormals(parts)));
    assert mesh.View() == m1;
    var cs := ReadCorners(parts, parts1, parts2, parts3, parts4, p);
    var size := |vertexPool|;
    if cs[0].position >= size || cs[1].position >= size || cs[2].position >= size
       || (quadruple && cs[3].position >= size) {
      assert !PositionsInPool(cs, |vertexPool|);
      assert WithFace(m0, parts, vertexPool, normalPool, p) == m1;
      return;
    }
    assert PositionsInPool(cs, |vertexPool|);
    if mesh.hasNormals == Some(true) {
      size := |normalPool|;
      if cs[0].normal >= size || cs[1].normal >= size || cs[2].normal >= size
         || (quadruple && cs[3].normal >= size) {
        assert !NormalsInPool(cs, |normalPool|);
        assert WithFace(m0, parts, vertexPool, normalPool, p) == m1;
        return;
      }
      assert NormalsInPool(cs, |normalPool|);
    }
    assert FaceAccepted(parts, vertexPool, normalPool, p);
    PushCorners(mesh, vertexPool, normalPool, cs);
  }

  /** The objects hold exactly the given mesh values, in order. */
  ghost predicate Holds(objects: seq<Mesh>, values: seq<MeshData>)
    reads objects
  {
    |objects| == |values| && forall k :: 0 <= k < |objects| ==> objects[k].View() == values[k]
  }

  /** No mesh object appears twice. */
  predicate Distinct(objects: seq<Mesh>) {
    forall j, k :: 0 <= j < k < |objects| ==> objects[j] != objects[k]
  }

  /** The body of the line loop of `loadWavefront` (lines 30-156): the
      meshes, the position pool and the normal pool after one line. */
  method HandleLine(meshes: seq<Mesh>, vertices: seq<Float4>, normals: seq<Float3>, line: string, p: Parsers,
                    ghost st: ObjState)
    returns (meshes': seq<Mesh>, vertices': seq<Float4>, normals': seq<Float3>)
    requires Holds(meshes, st.meshes) && Distinct(meshes)
    requires vertices == st.vertexPool && normals == st.normalPool
    modifies meshes
    ensures Holds(meshes', ProcessLine(st, line, p).meshes) && Distinct(meshes')
    ensures vertices' == ProcessLine(st, line, p).vertexPool && normals' == ProcessLine(st, line, p).normalPool
    ensures forall k :: 0 <= k < |meshes'| ==> meshes'[k] in meshes || fresh(meshes'[k])
  {
    meshes', vertices', normals' := meshes, vertices, normals;
    ghost var next := ProcessLine(st, line, p);
    var parts := Split(line, " ");
    if |parts| > 0 {
      if parts[0] == "o" && |parts| >= 2 {
        assert next.meshes == st.meshes + [EmptyMesh(parts[1])];
        var m := new Mesh(parts[1]);
        meshes' := meshes' + [m];
      } else if parts[0] == "v" && |parts| >= 4 {
        var f := p.toFloat;
        vertices' := vertices' + [Float4(f(parts[1]), f(parts[2]), f(parts[3]),
                                         if |parts| >= 5 then f(parts[4]) else 1.0)];
      } else if parts[0] == "vn" && |parts| >= 4 {
        var f := p.toFloat;
        normals' := normals' + [Float3(f(parts[1]), f(parts[2]), f(parts[3]))];
      } else if parts[0] == "f" && |parts| >= 4 {
        assert next.meshes == FaceLineMeshes(st, parts, p);
        meshes' := HandleFace(meshes', parts, vertices, normals, p, st);
      }
    }
  }

  /** The meshes after the face line with tokens `parts`. */
  function FaceLineMeshes(st: ObjState, parts: seq<string>, p: Parsers): seq<MeshData>
    requires |parts| >= 4
  {
    var ms := FaceTarget(st.meshes);
    var last := |ms| - 1;
    ms[..last] + [WithFace(ms[last], parts, st.vertexPool, st.normalPool, p)]
  }

  /** Lines 48-155 of `loadWavefront`: a face line, applied to the last mesh
      after creating "noname" when there is none. */
  method HandleFace(meshes: seq<Mesh>, parts: seq<string>, vertices: seq<Float4>, normals: seq<Float3>,
                    p: Parsers, ghost st: ObjState) returns (meshes': seq<Mesh>)
    requires |parts| >= 4
    requires Holds(meshes, st.meshes) && Distinct(meshes)
    requires vertices == st.vertexPool && normals == st.normalPool
    modifies meshes
    ensures Holds(meshes', FaceLineMeshes(st, parts, p)) && Distinct(meshes')
    ensures forall k :: 0 <= k < |meshes'| ==> meshes'[k] in meshes || fresh(meshes'[k])
  {
    meshes' := meshes;
    ghost var target := FaceTarget(st.meshes);
    if |meshes'| == 0 {
      var m := new Mesh("noname");
      meshes' := meshes' + [m];
    }
    assert Holds(meshes', target);
    var last := |meshes'| - 1;
    var mesh := meshes'[last];
    ghost var after := FaceLineMeshes(st, parts, p);
    assert after == target[..last] + [WithFace(target[last], parts, vertices, normals, p)];
    ApplyFace(mesh, parts, vertices, normals, p);
    forall k | 0 <= k < |meshes'|
      ensures meshes'[k].View() == after[k]
    {
      if k < last {
        assert meshes'[k] != mesh;
      }
    }
  }

  /** `loadWavefront`: the file's meshes, freshly allocated and distinct, in
      the state `LoadLines` describes; a file that cannot be opened is an
      error. */
  method LoadWavefront(file: Option<seq<string>>, p: Parsers) returns (r: Result<seq<Mesh>, LoadError>)
    ensures file.None? <==> r.Err?
    ensures r.Err? ==> r.error == CannotOpenObjFile
    ensures r.Ok? ==> Holds(r.value, LoadLines(file.value, p).meshes) && Distinct(r.value)
    ensures r.Ok? ==> forall k :: 0 <= k < |r.value| ==> fresh(r.value[k])
  {
    if file.None? {
      return Err(CannotOpenObjFile);
    }
    var lines := file.value;
    var meshes: seq<Mesh> := [];
    var vertices: seq<Float4> := [];
    var normals: seq<Float3> := [];
    var i := 0;
    while i < |lines|
      invariant 0 <= i <= |lines|
      invariant Holds(meshes, LoadLines(lines[..i], p).meshes) && Distinct(meshes)
      invariant vertices == LoadLines(lines[..i], p).vertexPool && normals == LoadLines(lines[..i], p).normalPool
      invariant forall k :: 0 <= k < |meshes| ==> fresh(meshes[k])
    {
      assert lines[..i + 1][..i] == lines[..i];
      meshes, vertices, normals := HandleLine(meshes, vertices, normals, lines[i], p, LoadLines(lines[..i], p));
      i := i + 1;
    }
    assert lines[..i] == lines;
    return Ok(meshes);
  }
}
