/** The procedural chessboard terrain of `generateChessboard`
    (gloom/src/toolbox.cpp): a grid of width x height square tiles, each
    two triangles over four vertices, coloured in a checker pattern. */
module Chessboard {
  import opened Wrappers
  import opened Floats
  import opened Unsigned
  import opened MeshModel

  /** The size and the two colours of the tiles, passed through unchanged. */
  datatype Style = Style(tileWidth: real, colour1: Float4, colour2: Float4)

  /** The three lists the generator fills before it builds the mesh. */
  datatype Buffers = Buffers(vertices: seq<Float4>, colours: seq<Float4>, indices: seq<nat>)

  const NoBuffers: Buffers := Buffers([], [], [])

  /** The corners of tile (x, y) in emission order: (left, bottom),
      (right, bottom), (right, top), (left, top), all on the plane y = 0. */
  function TileCorners(x: nat, y: nat, tileWidth: real): (r: seq<Float4>)
    ensures |r| == 4
  {
    var leftX := (x as real - 0.5) * tileWidth;
    var rightX := (x as real + 0.5) * tileWidth;
    var bottomZ := (y as real - 0.5) * tileWidth;
    var topZ := (y as real + 0.5) * tileWidth;
    [Float4(leftX, 0.0, bottomZ, 1.0), Float4(rightX, 0.0, bottomZ, 1.0),
     Float4(rightX, 0.0, topZ, 1.0), Float4(leftX, 0.0, topZ, 1.0)]
  }

  /** The two triangles of a tile whose first vertex is number `base`. */
  function TileIndices(base: nat): (r: seq<nat>)
    ensures |r| == 6
  {
    [base + 0, base + 2, base + 1, base + 0, base + 3, base + 2]
  }

  /** `((x ^ y) & 1) == 1` on the loop counters. */
  predicate OddTile(x: nat, y: nat)
    requires x < UIntLimit && y < UIntLimit
  {
    (x as bv32 ^ y as bv32) & 1 == 1
  }

  function TileColour(x: nat, y: nat, style: Style): Float4
    requires x < UIntLimit && y < UIntLimit
  {
    if OddTile(x, y) then style.colour1 else style.colour2
  }

  /** One pass of the inner loop body: tile (x, y) appended to the lists. */
  function AddTile(b: Buffers, x: nat, y: nat, style: Style): Buffers
    requires x < UIntLimit && y < UIntLimit
  {
    var c := TileColour(x, y, style);
    Buffers(b.vertices + TileCorners(x, y, style.tileWidth),
            b.colours + [c, c, c, c],
            b.indices + TileIndices(|b.vertices|))
  }

  /** The inner loop: tiles (x, 0) .. (x, n - 1) appended in that order. */
  function Column(b: Buffers, x: nat, n: nat, style: Style): Buffers
    requires x < UIntLimit && n <= UIntLimit
  {
    if n == 0 then b else AddTile(Column(b, x, n - 1, style), x, n - 1, style)
  }

  /** The outer loop: columns 0 .. w - 1 of height `h`, in that order. */
  function Columns(w: nat, h: nat, style: Style): Buffers
    requires w <= UIntLimit && h <= UIntLimit
  {
    if w == 0 then NoBuffers else Column(Columns(w - 1, h, style), w - 1, h, style)
  }

  /** The mesh `generateChessboard(w, h, …)` returns. */
  function Chessboard(w: nat, h: nat, style: Style): MeshData
    requires w < UIntLimit && h < UIntLimit
  {
    var b := Columns(w, h, style);
    MeshData("Chessboard terrain", b.vertices, b.colours, [], b.indices, Some(false))
  }

  /** What holds of the lists at every step: one colour per vertex, every
      index names an existing vertex, every vertex lies on y = 0 with w = 1. */
  predicate Sound(b: Buffers)
  {
    && |b.colours| == |b.vertices|
    && (forall i :: 0 <= i < |b.indices| ==> b.indices[i] < |b.vertices|)
    && (forall i :: 0 <= i < |b.vertices| ==> b.vertices[i].y == 0.0 && b.vertices[i].w == 1.0)
  }

  lemma AddTileSound(b: Buffers, x: nat, y: nat, style: Style)
    requires x < UIntLimit && y < UIntLimit
    requires Sound(b)
    ensures Sound(AddTile(b, x, y, style))
  {
    var r := AddTile(b, x, y, style);
    forall i | 0 <= i < |r.indices|
      ensures r.indices[i] < |r.vertices|
    {
      if i >= |b.indices| {
        assert r.indices[i] == TileIndices(|b.vertices|)[i - |b.indices|];
      }
    }
  }

  lemma {:induction false} ColumnSound(b: Buffers, x: nat, n: nat, style: Style)
    requires x < UIntLimit && n <= UIntLimit
    requires Sound(b)
    ensures Sound(Column(b, x, n, style))
  {
    if n > 0 {
      ColumnSound(b, x, n - 1, style);
      AddTileSound(Column(b, x, n - 1, style), x, n - 1, style);
    }
  }

  lemma {:induction false} ColumnsSound(w: nat, h: nat, style: Style)
    requires w <= UIntLimit && h <= UIntLimit
    ensures Sound(Columns(w, h, style))
  {
    if w > 0 {
      ColumnsSound(w - 1, h, style);
      ColumnSound(Columns(w - 1, h, style), w - 1, h, style);
    }
  }

  /** The inner loop appends exactly its n tiles: 4 vertices, 4 colours and
      6 indices each. */
  lemma {:induction false} ColumnSizes(b: Buffers, x: nat, n: nat, style: Style)
    requires x < UIntLimit && n <= UIntLimit
    ensures var r := Column(b, x, n, style);
      && |r.vertices| == |b.vertices| + 4 * n
      && |r.colours| == |b.colours| + 4 * n
      && |r.indices| == |b.indices| + 6 * n
  {
    if n > 0 {
      ColumnSizes(b, x, n - 1, style);
    }
  }

  /** The inner loop leaves what was already in the lists untouched. */
  lemma {:induction false} ColumnKeeps(b: Buffers, x: nat, n: nat, style: Style, i: nat)
    requires x < UIntLimit && n <= UIntLimit
    ensures var r := Column(b, x, n, style);
      && (i < |b.vertices| ==> i < |r.vertices| && r.vertices[i] == b.vertices[i])
      && (i < |b.colours| ==> i < |r.colours| && r.colours[i] == b.colours[i])
      && (i < |b.indices| ==> i < |r.indices| && r.indices[i] == b.indices[i])
  {
    if n > 0 {
      ColumnKeeps(b, x, n - 1, style, i);
    }
  }

  /** Corner j of the tile one pass of the inner loop appends, and its colour. */
  lemma AddTileCorner(b: Buffers, x: nat, y: nat, j: nat, i: nat, style: Style)
    requires x < UIntLimit && y < UIntLimit && j < 4
    requires |b.colours| == |b.vertices| && i == |b.vertices| + j
    ensures var r := AddTile(b, x, y, style);
      && i < |r.vertices| && r.vertices[i] == TileCorners(x, y, style.tileWidth)[j]
      && i < |r.colours| && r.colours[i] == TileColour(x, y, style)
  {
  }

  /** Index j of the tile one pass of the inner loop appends. */
  lemma AddTileIndex(b: Buffers, x: nat, y: nat, j: nat, i: nat, style: Style)
    requires x < UIntLimit && y < UIntLimit && j < 6 && i == |b.indices| + j
    ensures var r := AddTile(b, x, y, style);
      i < |r.indices| && r.indices[i] == TileIndices(|b.vertices|)[j]
  {
  }

  /** Tile (x, y) of a column: its corner j is vertex |b.vertices| + 4y + j,
      with the tile's colour beside it. */
  lemma {:induction false} ColumnCorner(b: Buffers, x: nat, n: nat, y: nat, j: nat, i: nat, style: Style)
    requires x < UIntLimit && n <= UIntLimit && y < n && j < 4
    requires |b.colours| == |b.vertices| && i == |b.vertices| + 4 * y + j
    ensures var r := Column(b, x, n, style);
      && i < |r.vertices| && r.vertices[i] == TileCorners(x, y, style.tileWidth)[j]
      && i < |r.colours| && r.colours[i] == TileColour(x, y, style)
  {
    var p := Column(b, x, n - 1, style);
    ColumnSizes(b, x, n - 1, style);
    if y == n - 1 {
      AddTileCorner(p, x, y, j, i, style);
    } else {
      ColumnCorner(b, x, n - 1, y, j, i, style);
    }
  }

  /** Tile (x, y) of a column: its index j is index |b.indices| + 6y + j. */
  lemma {:induction false} ColumnIndex(b: Buffers, x: nat, n: nat, y: nat, j: nat, i: nat, base: nat, style: Style)
    requires x < UIntLimit && n <= UIntLimit && y < n && j < 6
    requires i == |b.indices| + 6 * y + j && base == |b.vertices| + 4 * y
    ensures var r := Column(b, x, n, style);
      i < |r.indices| && r.indices[i] == TileIndices(base)[j]
  {
    var p := Column(b, x, n - 1, style);
    ColumnSizes(b, x, n - 1, style);
    if y == n - 1 {
      AddTileIndex(p, x, y, j, i, style);
    } else {
      ColumnIndex(b, x, n - 1, y, j, i, base, style);
    }
  }

  lemma {:induction false} ColumnsSizes(w: nat, h: nat, style: Style)
    requires w <= UIntLimit && h <= UIntLimit
    ensures var b := Columns(w, h, style);
      |b.vertices| == 4 * (w * h) && |b.colours| == 4 * (w * h) && |b.indices| == 6 * (w * h)
  {
    if w > 0 {
      ColumnsSizes(w - 1, h, style);
      ColumnSizes(Columns(w - 1, h, style), w - 1, h, style);
      assert (w - 1) * h + h == w * h;
    }
  }

  /** Later columns leave the earlier ones untouched. */
  lemma {:induction false} ColumnsKeep(w: nat, m: nat, h: nat, style: Style, i: nat)
    requires m <= w <= UIntLimit && h <= UIntLimit
    ensures var b := Columns(m, h, style); var r := Columns(w, h, style);
      && (i < |b.vertices| ==> i < |r.vertices| && r.vertices[i] == b.vertices[i])
      && (i < |b.colours| ==> i < |r.colours| && r.colours[i] == b.colours[i])
      && (i < |b.indices| ==> i < |r.indices| && r.indices[i] == b.indices[i])
  {
    if m < w {
      ColumnsKeep(w - 1, m, h, style, i);
      ColumnKeeps(Columns(w - 1, h, style), w - 1, h, style, i);
    }
  }

  /** Tile (x, y) is tile number k = x * h + y of the whole board: its corner
      j is vertex 4k + j. */
  lemma {:induction false} ColumnsCorner(w: nat, h: nat, x: nat, y: nat, j: nat, style: Style)
    requires w <= UIntLimit && h <= UIntLimit && x < w && y < h && j < 4
    ensures var b := Columns(w, h, style); var i := 4 * (x * h + y) + j;
      && i < |b.vertices| && b.vertices[i] == TileCorners(x, y, style.tileWidth)[j]
      && i < |b.colours| && b.colours[i] == TileColour(x, y, style)
  {
    var p := Columns(x, h, style);
    var i := 4 * (x * h + y) + j;
    ColumnsSizes(x, h, style);
    ColumnCorner(p, x, h, y, j, i, style);
    assert Columns(x + 1, h, style) == Column(p, x, h, style);
    ColumnsKeep(w, x + 1, h, style, i);
  }

  /** Tile number k = x * h + y holds indices 6k .. 6k + 5. */
  lemma {:induction false} ColumnsIndex(w: nat, h: nat, x: nat, y: nat, j: nat, i: nat, base: nat, style: Style)
    requires w <= UIntLimit && h <= UIntLimit && x < w && y < h && j < 6
    requires i == 6 * (x * h + y) + j && base == 4 * (x * h + y)
    ensures var b := Columns(w, h, style);
      i < |b.indices| && b.indices[i] == TileIndices(base)[j]
  {
    var p := Columns(x, h, style);
    ColumnsSizes(x, h, style);
    ColumnIndex(p, x, h, y, j, i, base, style);
    assert Columns(x + 1, h, style) == Column(p, x, h, style);
    ColumnsKeep(w, x + 1, h, style, i);
  }

  /** The colour test is the parity of x + y. */
  lemma OddTileParity(x: nat, y: nat)
    requires x < UIntLimit && y < UIntLimit
    ensures OddTile(x, y) <==> (x + y) % 2 == 1
  {
    LowBitOfXor(x as bv32, y as bv32);
    LowBitOfCast(x);
    LowBitOfCast(y);
    SumParity(x, y);
    var a, b := x % 2, y % 2;
    if a == 0 {
      if b == 0 { assert (0 as bv32) ^ 0 == 0; } else { assert (0 as bv32) ^ 1 == 1; }
    } else {
      if b == 0 { assert (1 as bv32) ^ 0 == 1; } else { assert (1 as bv32) ^ 1 == 0; }
    }
  }

  lemma LowBitOfXor(a: bv32, b: bv32)
    ensures (a ^ b) & 1 == (a % 2) ^ (b % 2)
  {
  }

  lemma LowBitOfCast(x: nat)
    requires x < UIntLimit
    ensures (x as bv32) % 2 == (x % 2) as bv32
  {
  }

  /** x + y is odd exactly when x and y differ in parity. */
  lemma SumParity(x: nat, y: nat)
    ensures (x + y) % 2 == 1 <==> x % 2 != y % 2
  {
    var q, s := x / 2, y / 2;
    assert x == 2 * q + x % 2 && y == 2 * s + y % 2;
    if x % 2 == y % 2 {
      assert x + y == 2 * (q + s + x % 2);
    } else {
      assert x + y == 2 * (q + s) + 1;
    }
  }

  /** Counts, name, normals and the range of every index. */
  lemma {:induction false} ChessboardShape(w: nat, h: nat, style: Style)
    requires w < UIntLimit && h < UIntLimit
    ensures var m := Chessboard(w, h, style);
      && m.name == "Chessboard terrain" && m.normals == [] && m.hasNormals == Some(false)
      && |m.vertices| == 4 * (w * h) && |m.colours| == 4 * (w * h) && |m.indices| == 6 * (w * h)
      && (forall i :: 0 <= i < |m.indices| ==> m.indices[i] < 4 * (w * h))
      && (forall i :: 0 <= i < |m.vertices| ==> m.vertices[i].y == 0.0 && m.vertices[i].w == 1.0)
      && (w == 0 || h == 0 ==> m.vertices == [] && m.colours == [] && m.indices == [])
  {
    ColumnsSizes(w, h, style);
    ColumnsSound(w, h, style);
  }

  /** Tile (x, y) is tile number k = x * h + y: its corner j (in the order
      left-bottom, right-bottom, right-top, left-top) is vertex 4k + j, and
      its colour is the first one exactly when x + y is odd. */
  lemma {:induction false} ChessboardCorner(w: nat, h: nat, x: nat, y: nat, j: nat, style: Style)
    requires w < UIntLimit && h < UIntLimit && x < w && y < h && j < 4
    ensures var m := Chessboard(w, h, style); var i := 4 * (x * h + y) + j;
      && i < |m.vertices| && m.vertices[i] == TileCorners(x, y, style.tileWidth)[j]
      && i < |m.colours| && m.colours[i] == if (x + y) % 2 == 1 then style.colour1 else style.colour2
  {
    ColumnsCorner(w, h, x, y, j, style);
    OddTileParity(x, y);
  }

  /** Index j of tile number k = x * h + y is index 6k + j of the board,
      so the tile's indices are 4k, 4k+2, 4k+1, 4k, 4k+3, 4k+2: two
      triangles over its own four vertices. */
  lemma {:induction false} ChessboardIndex(w: nat, h: nat, x: nat, y: nat, j: nat, k: nat, style: Style)
    requires w < UIntLimit && h < UIntLimit && x < w && y < h && j < 6 && k == x * h + y
    ensures var m := Chessboard(w, h, style);
      && 6 * k + j < |m.indices|
      && m.indices[6 * k + j] == 4 * k + [0, 2, 1, 0, 3, 2][j]
  {
    ColumnsIndex(w, h, x, y, j, 6 * k + j, 4 * k, style);
  }

  /** The body of the inner loop for tile (x, y). */
  method PushTile(vertices: seq<Float4>, vertexColours: seq<Float4>, indices: seq<nat>,
                  x: nat, y: nat, tileWidth: real, tileColour1: Float4, tileColour2: Float4)
    returns (vertices': seq<Float4>, vertexColours': seq<Float4>, indices': seq<nat>)
    requires x < UIntLimit && y < UIntLimit
    ensures Buffers(vertices', vertexColours', indices')
         == AddTile(Buffers(vertices, vertexColours, indices), x, y, Style(tileWidth, tileColour1, tileColour2))
  {
    var leftX := (x as real - 0.5) * tileWidth;
    var rightX := (x as real + 0.5) * tileWidth;
    var bottomZ := (y as real - 0.5) * tileWidth;
    var topZ := (y as real + 0.5) * tileWidth;
    var baseIndex := |vertices|;
    indices' := indices + [baseIndex + 0, baseIndex + 2, baseIndex + 1, baseIndex + 0, baseIndex + 3, baseIndex + 2];
    vertices' := vertices + [Float4(leftX, 0.0, bottomZ, 1.0), Float4(rightX, 0.0, bottomZ, 1.0),
                             Float4(rightX, 0.0, topZ, 1.0), Float4(leftX, 0.0, topZ, 1.0)];
    var tileColourType := (x as bv32 ^ y as bv32) & 1 == 1;
    if tileColourType {
      vertexColours' := vertexColours + [tileColour1, tileColour1, tileColour1, tileColour1];
    } else {
      vertexColours' := vertexColours + [tileColour2, tileColour2, tileColour2, tileColour2];
    }
  }

  /** `generateChessboard`: the nested loops fill three local lists, which
      then become the fields of a new mesh. */
  method GenerateChessboard(width: nat, height: nat, tileWidth: real, tileColour1: Float4, tileColour2: Float4)
    returns (mesh: Mesh)
    requires width < UIntLimit && height < UIntLimit
    ensures fresh(mesh)
    ensures mesh.View() == Chessboard(width, height, Style(tileWidth, tileColour1, tileColour2))
  {
    ghost var style := Style(tileWidth, tileColour1, tileColour2);
    var vertices: seq<Float4> := [];
    var vertexColours: seq<Float4> := [];
    var indices: seq<nat> := [];
    var x := 0;
    while x < width
      invariant x <= width
      invariant Buffers(vertices, vertexColours, indices) == Columns(x, height, style)
    {
      var y := 0;
      while y < height
        invariant y <= height
        invariant Buffers(vertices, vertexColours, indices) == Column(Columns(x, height, style), x, y, style)
      {
        vertices, vertexColours, indices := PushTile(vertices, vertexColours, indices, x, y, tileWidth, tileColour1, tileColour2);
        y := y + 1;
      }
      x := x + 1;
    }
    mesh := new Mesh("Chessboard terrain");
    mesh.vertices := vertices;
    mesh.colours := vertexColours;
    mesh.hasNormals := Some(false);
    mesh.indices := indices;
  }
}
