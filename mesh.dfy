/**
 * The edited mesh and UV projection: vertex positions, faces as loops of
 * vertex indices, and one UV per face loop. `UvMapFace` projects a face
 * onto the paint frame and writes the UVs of the selected tile.
 */
module SprytileMesh {
  import opened Vectors

  /** Pixel size of the grid's texture, when the grid has one. */
  datatype TexSize = TexSize(width: real, height: real)

  /** The selected tile, in tile columns and rows of the texture. */
  datatype Tile = Tile(x: int, y: int)

  /**
   * The projection's scale: the size of one grid cell in world units
   * (grid pixels / world pixels) and of one tile in UV units (grid pixels
   * / texture pixels), along x and y.
   */
  datatype UvScale = UvScale(cellX: real, cellY: real, uvUnitX: real, uvUnitY: real)

  /**
   * The numbers the projection divides by are non-zero: world pixels per
   * unit, the grid cell size in pixels and the texture size.
   */
  predicate UvSettings(worldPixels: real, gridX: real, gridY: real, tex: TexSize)
  {
    worldPixels > 0.0 && gridX > 0.0 && gridY > 0.0 && tex.width > 0.0 && tex.height > 0.0
  }

  /** The scale computed from the grid and texture settings. */
  function ScaleOf(worldPixels: real, gridX: real, gridY: real, tex: TexSize): (s: UvScale)
    requires UvSettings(worldPixels, gridX, gridY, tex)
    ensures s.cellX > 0.0 && s.cellY > 0.0
  {
    UvScale(gridX / worldPixels, gridY / worldPixels, 1.0 / tex.width * gridX, 1.0 / tex.height * gridY)
  }

  /** Sum of a sequence of points. */
  function SumVec(ps: seq<Vec3>): Vec3
  {
    if |ps| == 0 then Zero else Add(SumVec(ps[..|ps| - 1]), ps[|ps| - 1])
  }

  /** Median centre of a face: the mean of its vertex positions. */
  function Median(ps: seq<Vec3>): (m: Vec3)
    requires |ps| > 0
    ensures Scale(m, |ps| as real) == SumVec(ps)
  {
    DivScalar(SumVec(ps), |ps| as real)
  }

  /**
   * UV of one face loop: the offset of its vertex from the face centre is
   * measured along right and up in cells, shifted by half a cell, scaled
   * to one tile of the texture and moved to the selected tile.
   */
  function LoopUV(right: Vec3, up: Vec3, co: Vec3, median: Vec3, s: UvScale, tile: Tile): (uv: Vec2)
    requires s.cellX > 0.0 && s.cellY > 0.0
    ensures s.uvUnitX != 0.0 ==> (uv.u / s.uvUnitX - tile.x as real - 0.5) * s.cellX == Dot(right, Sub(co, median))
    ensures s.uvUnitY != 0.0 ==> (uv.v / s.uvUnitY - tile.y as real - 0.5) * s.cellY == Dot(up, Sub(co, median))
  {
    var offset := Sub(co, median);
    Vec2(UvComponent(Dot(right, offset), s.cellX, s.uvUnitX, tile.x as real),
         UvComponent(Dot(up, offset), s.cellY, s.uvUnitY, tile.y as real))
  }

  /**
   * One UV coordinate from a distance `d` along an axis: in cells, plus
   * half a cell, in UV units, moved to tile column (or row) `t`.
   */
  function UvComponent(d: real, cell: real, uvUnit: real, t: real): (c: real)
    requires cell > 0.0
    ensures uvUnit != 0.0 ==> (c / uvUnit - t - 0.5) * cell == d
  {
    (d / cell + 0.5) * uvUnit + uvUnit * t
  }

  /** UVs of all loops of a face whose vertex positions, in loop order, are `ps`. */
  function FaceUVs(ps: seq<Vec3>, right: Vec3, up: Vec3, s: UvScale, tile: Tile): (uvs: seq<Vec2>)
    requires |ps| > 0 && s.cellX > 0.0 && s.cellY > 0.0
    ensures |uvs| == |ps|
  {
    seq(|ps|, k requires 0 <= k < |ps| => LoopUV(right, up, ps[k], Median(ps), s, tile))
  }

  /** Loops whose vertex indices all name existing vertices. */
  predicate IndicesIn(face: seq<nat>, vertexCount: nat)
  {
    forall k :: 0 <= k < |face| ==> face[k] < vertexCount
  }

  /** Positions of a face's vertices, in loop order. */
  function FacePositions(verts: seq<Vec3>, face: seq<nat>): (ps: seq<Vec3>)
    requires IndicesIn(face, |verts|)
    ensures |ps| == |face|
  {
    seq(|face|, k requires 0 <= k < |face| => verts[face[k]])
  }

  /**
   * A well-formed mesh: every face has at least three loops, each naming an
   * existing vertex, and one UV per loop.
   */
  ghost predicate WellFormed(verts: seq<Vec3>, faces: seq<seq<nat>>, uvs: seq<seq<Vec2>>)
  {
    && |uvs| == |faces|
    && (forall f :: 0 <= f < |faces| ==> |faces[f]| >= 3 && IndicesIn(faces[f], |verts|))
    && (forall f :: 0 <= f < |faces| ==> |uvs[f]| == |faces[f]|)
  }

  /** The edit mesh: vertex positions, faces and the UV layer, updated in place. */
  class Mesh {
    var verts: seq<Vec3>
    var faces: seq<seq<nat>>
    var uvs: seq<seq<Vec2>>

    ghost predicate Valid()
      reads this
    {
      WellFormed(verts, faces, uvs)
    }

    constructor (verts: seq<Vec3>, faces: seq<seq<nat>>, uvs: seq<seq<Vec2>>)
      requires WellFormed(verts, faces, uvs)
      ensures this.verts == verts && this.faces == faces && this.uvs == uvs
      ensures Valid()
    {
      this.verts, this.faces, this.uvs := verts, faces, uvs;
    }

    /** Adds a vertex at `co` and returns its index. */
    method NewVert(co: Vec3) returns (index: nat)
      requires Valid()
      modifies this`verts
      ensures Valid()
      ensures verts == old(verts) + [co] && index == |old(verts)|
    {
      index := |verts|;
      verts := verts + [co];
    }

    /**
     * Adds a face whose loops visit the vertices of `loop` in order and
     * returns its index; the new loops' UVs start at the origin.
     */
    method NewFace(loop: seq<nat>) returns (index: nat)
      requires Valid() && |loop| >= 3 && IndicesIn(loop, |verts|)
      modifies this`faces, this`uvs
      ensures Valid()
      ensures faces == old(faces) + [loop] && uvs == old(uvs) + [ZeroUVs(|loop|)]
      ensures index == |old(faces)|
    {
      index := |faces|;
      faces := faces + [loop];
      uvs := uvs + [ZeroUVs(|loop|)];
    }
  }

  /** UVs of `n` fresh loops: all at the UV origin. */
  function ZeroUVs(n: nat): (uvs: seq<Vec2>)
    ensures |uvs| == n && forall k :: 0 <= k < n ==> uvs[k] == Vec2(0.0, 0.0)
  {
    seq(n, k => Vec2(0.0, 0.0))
  }

  /**
   * Writes the UVs of face `faceIndex`. A face index past the last face
   * or a grid without a texture changes nothing and maps nothing;
   * otherwise exactly that face's UVs become FaceUVs of its vertices and
   * its index is returned.
   */
  method UvMapFace(mesh: Mesh, up: Vec3, right: Vec3, tile: Tile, faceIndex: nat,
                   worldPixels: real, gridX: real, gridY: real, tex: Option<TexSize>)
      returns (mapped: Option<nat>)
    requires mesh.Valid() && worldPixels > 0.0
    requires faceIndex < |mesh.faces| && tex.Some? ==> UvSettings(worldPixels, gridX, gridY, tex.value)
    modifies mesh
    ensures mesh.Valid()
    ensures mesh.verts == old(mesh.verts) && mesh.faces == old(mesh.faces)
    ensures faceIndex >= |mesh.faces| || tex.None? ==> mapped.None? && mesh.uvs == old(mesh.uvs)
    ensures faceIndex < |mesh.faces| && tex.Some? ==>
      && mapped == Some(faceIndex)
      && mesh.uvs == old(mesh.uvs)[faceIndex :=
           FaceUVs(FacePositions(mesh.verts, mesh.faces[faceIndex]), right, up,
                   ScaleOf(worldPixels, gridX, gridY, tex.value), tile)]
  {
    if faceIndex >= |mesh.faces| {
      return None;
    }
    if tex.None? {
      return None;
    }
    var scale := ScaleOf(worldPixels, gridX, gridY, tex.value);
    var face := mesh.faces[faceIndex];
    var ps := FacePositions(mesh.verts, face);
    var origin := Median(ps);
    var faceUvs := mesh.uvs[faceIndex];
    var k := 0;
    while k < |face|
      invariant 0 <= k <= |face| && |faceUvs| == |face|
      invariant mesh.verts == old(mesh.verts) && mesh.faces == old(mesh.faces)
      invariant mesh.uvs == old(mesh.uvs)[faceIndex := faceUvs]
      invariant forall j :: 0 <= j < k ==>
        faceUvs[j] == LoopUV(right, up, ps[j], origin, scale, tile)
    {
      var uv := LoopUV(right, up, mesh.verts[face[k]], origin, scale, tile);
      faceUvs := faceUvs[k := uv];
      mesh.uvs := mesh.uvs[faceIndex := faceUvs];
      k := k + 1;
    }
    assert faceUvs == FaceUVs(ps, right, up, scale, tile);
    mapped := Some(faceIndex);
  }

  /**
   * A vertex at the face centre lands in the middle of the selected tile.
   */
  lemma MedianMapsToTileCentre(right: Vec3, up: Vec3, m: Vec3, s: UvScale, tile: Tile)
    requires s.cellX > 0.0 && s.cellY > 0.0
    ensures LoopUV(right, up, m, m, s, tile)
         == Vec2((tile.x as real + 0.5) * s.uvUnitX, (tile.y as real + 0.5) * s.uvUnitY)
  {
    assert Sub(m, m) == Zero;
  }

  /**
   * Example: 32-pixel cells on a 256-pixel texture with tile (2, 1)
   * selected put the face centre at UV (0.3125, 0.1875).
   */
  lemma TileCentreExample(right: Vec3, up: Vec3, m: Vec3, worldPixels: real)
    requires worldPixels > 0.0
    ensures LoopUV(right, up, m, m, ScaleOf(worldPixels, 32.0, 32.0, TexSize(256.0, 256.0)), Tile(2, 1))
         == Vec2(0.3125, 0.1875)
  {
    MedianMapsToTileCentre(right, up, m, ScaleOf(worldPixels, 32.0, 32.0, TexSize(256.0, 256.0)), Tile(2, 1));
  }

  /**
   * A vertex whose offset from the face centre measures su cells along
   * right and sv cells along up gets the UV (tile.x + cu, tile.y + cv)
   * tiles, where cu = su + 1/2 and cv = sv + 1/2.
   */
  lemma CornerUV(right: Vec3, up: Vec3, co: Vec3, m: Vec3, su: real, sv: real, cu: real, cv: real,
                 s: UvScale, tile: Tile)
    requires s.cellX > 0.0 && s.cellY > 0.0
    requires Dot(right, Sub(co, m)) == su * s.cellX && cu == su + 0.5
    requires Dot(up, Sub(co, m)) == sv * s.cellY && cv == sv + 0.5
    ensures LoopUV(right, up, co, m, s, tile)
         == Vec2((tile.x as real + cu) * s.uvUnitX, (tile.y as real + cv) * s.uvUnitY)
  {
    var off := Sub(co, m);
    UvCoordinate(Dot(right, off), su, cu, s.cellX, s.uvUnitX, tile.x as real);
    UvCoordinate(Dot(up, off), sv, cv, s.cellY, s.uvUnitY, tile.y as real);
  }

  /** One UV coordinate of a vertex `s` cells from the centre: s + 1/2 tiles into tile `t`. */
  lemma UvCoordinate(d: real, s: real, c: real, cell: real, uvUnit: real, t: real)
    requires cell > 0.0 && d == s * cell && c == s + 0.5
    ensures UvComponent(d, cell, uvUnit, t) == (t + c) * uvUnit
  {
    assert d / cell == s;
  }

  /** The dot product is linear in its second argument. */
  lemma DotCombination(w: Vec3, x: Vec3, y: Vec3, a: real, b: real)
    ensures Dot(w, Add(Scale(x, a), Scale(y, b))) == a * Dot(w, x) + b * Dot(w, y)
  {
    DotComm(w, Add(Scale(x, a), Scale(y, b)));
    DotAddLeft(Scale(x, a), Scale(y, b), w);
    DotScaleLeft(x, a, w);
    DotScaleLeft(y, b, w);
    DotComm(x, w);
    DotComm(y, w);
  }

  lemma ProductRegroup(a: real, s: real, c: real)
    ensures a * s * c == a * (s * c)
  {
  }

  /**
   * The four new vertices of a face at corner p with edges x and y, in
   * creation order (p, p+y, p+x+y, p+x): a parallelogram whose sides from
   * the corner are y and x.
   */
  function NewVertices(p: Vec3, x: Vec3, y: Vec3): (vs: seq<Vec3>)
    ensures |vs| == 4 && vs[0] == p
    ensures Sub(vs[1], vs[0]) == y && Sub(vs[3], vs[0]) == x
    ensures Sub(vs[2], vs[1]) == x && Sub(vs[2], vs[3]) == y
  {
    [p, Add(p, y), Add(Add(p, x), y), Add(p, x)]
  }

  /**
   * The four vertices of a new quad in the order the face is built: the
   * new vertices as created, or with the second and fourth swapped when
   * the edges agree in sign with the paint frame.
   */
  function QuadVerts(p: Vec3, x: Vec3, y: Vec3, xPositive: bool, yPositive: bool): (q: seq<Vec3>)
    ensures |q| == 4 && q[0] == p
  {
    var vs := NewVertices(p, x, y);
    if xPositive == yPositive then [vs[0], vs[3], vs[2], vs[1]] else vs
  }

  /** The built loop visits exactly the four new vertices, each once. */
  lemma QuadVertsPermutesNewVertices(p: Vec3, x: Vec3, y: Vec3, xPositive: bool, yPositive: bool)
    ensures multiset(QuadVerts(p, x, y, xPositive, yPositive)) == multiset(NewVertices(p, x, y))
  {
    var vs := NewVertices(p, x, y);
    assert vs == [vs[0], vs[1], vs[2], vs[3]];
    ReverseTailSameElements(vs[0], vs[1], vs[2], vs[3]);
  }

  /** Reversing the last three of four entries keeps the same elements. */
  lemma ReverseTailSameElements<T>(a: T, b: T, c: T, d: T)
    ensures multiset([a, d, c, b]) == multiset([a, b, c, d])
  {
    assert multiset{a, d, c, b} == multiset{a, b, c, d};
  }

  /** The centre of a quad is its corner plus half of each edge. */
  lemma QuadMedian(p: Vec3, x: Vec3, y: Vec3, xPositive: bool, yPositive: bool)
    ensures Median(QuadVerts(p, x, y, xPositive, yPositive)) == Add(p, Add(Scale(x, 0.5), Scale(y, 0.5)))
  {
    var q := QuadVerts(p, x, y, xPositive, yPositive);
    SumOfFour(q[0], q[1], q[2], q[3]);
    assert q == [q[0], q[1], q[2], q[3]];
  }

  lemma SumOfFour(a: Vec3, b: Vec3, c: Vec3, d: Vec3)
    ensures SumVec([a, b, c, d]) == Add(Add(Add(a, b), c), d)
  {
    assert [a][..0] == [];
    assert SumVec([a]) == a;
    assert [a, b][..1] == [a];
    assert SumVec([a, b]) == Add(a, b);
    assert [a, b, c][..2] == [a, b];
    assert SumVec([a, b, c]) == Add(Add(a, b), c);
    assert [a, b, c, d][..3] == [a, b, c];
  }

  /** How many x edges vertex `k` of a quad adds to its corner. */
  function QuadStepsX(same: bool, k: int): real
  {
    if k == 1 then (if same then 1.0 else 0.0)
    else if k == 2 then 1.0
    else if k == 3 then (if same then 0.0 else 1.0)
    else 0.0
  }

  /** How many y edges vertex `k` of a quad adds to its corner. */
  function QuadStepsY(same: bool, k: int): real
  {
    if k == 1 then (if same then 0.0 else 1.0)
    else if k == 2 then 1.0
    else if k == 3 then (if same then 1.0 else 0.0)
    else 0.0
  }

  /** Vertex k of a quad sits (steps - 1/2) edges from the quad's centre. */
  lemma QuadCentreOffset(p: Vec3, x: Vec3, y: Vec3, xPositive: bool, yPositive: bool, k: int)
    requires 0 <= k < 4
    ensures var q, same := QuadVerts(p, x, y, xPositive, yPositive), xPositive == yPositive;
      Sub(q[k], Median(q)) == Add(Scale(x, QuadStepsX(same, k) - 0.5), Scale(y, QuadStepsY(same, k) - 0.5))
  {
    var same := xPositive == yPositive;
    var q := QuadVerts(p, x, y, xPositive, yPositive);
    QuadMedian(p, x, y, xPositive, yPositive);
    QuadVertexSteps(p, x, y, xPositive, yPositive, k);
    OffsetFromCentre(p, x, y, q[k], Median(q), QuadStepsX(same, k), QuadStepsY(same, k));
  }

  /** Vertex k of a quad is its corner plus QuadStepsX x edges and QuadStepsY y edges. */
  lemma QuadVertexSteps(p: Vec3, x: Vec3, y: Vec3, xPositive: bool, yPositive: bool, k: int)
    requires 0 <= k < 4
    ensures var same := xPositive == yPositive;
      Sub(QuadVerts(p, x, y, xPositive, yPositive)[k], p)
      == Add(Scale(x, QuadStepsX(same, k)), Scale(y, QuadStepsY(same, k)))
  {
    var same := xPositive == yPositive;
    var q, vs := QuadVerts(p, x, y, xPositive, yPositive), NewVertices(p, x, y);
    var j := if same && k == 1 then 3 else if same && k == 3 then 1 else k;
    assert q[k] == vs[j];
    if j == 0 {
      assert Sub(vs[0], p) == Zero;
    } else if j == 2 {
      assert vs[2] == Add(Add(p, x), y);
    }
  }

  lemma OffsetFromCentre(p: Vec3, x: Vec3, y: Vec3, co: Vec3, m: Vec3, ca: real, cb: real)
    requires m == Add(p, Add(Scale(x, 0.5), Scale(y, 0.5)))
    requires Sub(co, p) == Add(Scale(x, ca), Scale(y, cb))
    ensures Sub(co, m) == Add(Scale(x, ca - 0.5), Scale(y, cb - 0.5))
  {
  }

  /** Whether tile corner `k` (counter-clockwise from lower-left, 0..3) is on the right / top side. */
  function CornerU(k: int): real { if k == 1 || k == 2 then 1.0 else 0.0 }

  function CornerV(k: int): real { if k == 2 || k == 3 then 1.0 else 0.0 }

  /** Corner `k` steps counter-clockwise after corner `start`, both in 0..3. */
  function NextCorner(start: int, k: int): int
  {
    if start + k < 4 then start + k else start + k - 4
  }

  /** Corner `k` of the selected tile's rectangle in UV space. */
  function TileCorner(tile: Tile, s: UvScale, k: int): Vec2
  {
    Vec2((tile.x as real + CornerU(k)) * s.uvUnitX, (tile.y as real + CornerV(k)) * s.uvUnitY)
  }

  /** The four tile corners counter-clockwise, starting from corner `start`. */
  function TileCornersFrom(tile: Tile, s: UvScale, start: int): (c: seq<Vec2>)
    ensures |c| == 4
  {
    seq(4, k => TileCorner(tile, s, NextCorner(start, k)))
  }

  /** The tile corner a quad's first vertex lands on, by the signs of its edges. */
  function FirstCorner(sx: real, sy: real): int
  {
    if sx > 0.0 then (if sy > 0.0 then 0 else 3) else (if sy > 0.0 then 1 else 2)
  }

  /** Vertex k of the quad lands on tile corner NextCorner(FirstCorner, k). */
  lemma CornerMatches(sx: real, sy: real, k: int)
    requires (sx == 1.0 || sx == -1.0) && (sy == 1.0 || sy == -1.0) && 0 <= k < 4
    ensures var same := (sx > 0.0) == (sy > 0.0);
      && (QuadStepsX(same, k) - 0.5) * sx + 0.5 == CornerU(NextCorner(FirstCorner(sx, sy), k))
      && (QuadStepsY(same, k) - 0.5) * sy + 0.5 == CornerV(NextCorner(FirstCorner(sx, sy), k))
  {
  }

  /**
   * The edges of a quad built on one grid cell: x measures sx cells along
   * right and nothing along up, y measures sy cells along up and nothing
   * along right.
   */
  ghost predicate CellEdges(right: Vec3, up: Vec3, x: Vec3, y: Vec3, sx: real, sy: real, s: UvScale)
  {
    && Dot(right, x) == sx * s.cellX && Dot(up, x) == 0.0
    && Dot(right, y) == 0.0 && Dot(up, y) == sy * s.cellY
  }

  /** Edges one cell long along an orthonormal right and up are cell edges. */
  lemma ScaledAxesAreCellEdges(right: Vec3, up: Vec3, sx: real, sy: real, s: UvScale)
    requires Orthonormal(right, up)
    ensures CellEdges(right, up, Scale(right, sx * s.cellX), Scale(up, sy * s.cellY), sx, sy, s)
  {
    var x, y := Scale(right, sx * s.cellX), Scale(up, sy * s.cellY);
    DotComm(right, x);
    DotScaleLeft(right, sx * s.cellX, right);
    DotComm(up, x);
    DotScaleLeft(right, sx * s.cellX, up);
    DotComm(right, up);
    DotComm(right, y);
    DotScaleLeft(up, sy * s.cellY, right);
    DotComm(up, y);
    DotScaleLeft(up, sy * s.cellY, up);
  }

  /**
   * A vertex whose offset from the face centre is a x + b y, for cell
   * edges x and y, lands on UV (tile.x + a sx + 1/2, tile.y + b sy + 1/2)
   * tiles.
   */
  lemma VertexOnCorner(right: Vec3, up: Vec3, x: Vec3, y: Vec3, co: Vec3, m: Vec3, a: real, b: real,
                       sx: real, sy: real, cu: real, cv: real, s: UvScale, tile: Tile)
    requires s.cellX > 0.0 && s.cellY > 0.0 && CellEdges(right, up, x, y, sx, sy, s)
    requires Sub(co, m) == Add(Scale(x, a), Scale(y, b))
    requires cu == a * sx + 0.5 && cv == b * sy + 0.5
    ensures LoopUV(right, up, co, m, s, tile)
         == Vec2((tile.x as real + cu) * s.uvUnitX, (tile.y as real + cv) * s.uvUnitY)
  {
    DotCombination(right, x, y, a, b);
    DotCombination(up, x, y, a, b);
    ProductRegroup(a, sx, s.cellX);
    ProductRegroup(b, sy, s.cellY);
    CornerUV(right, up, co, m, a * sx, b * sy, cu, cv, s, tile);
  }

  /** A vertex k-th in the quad's order, seen from the quad's centre, lands on tile corner NextCorner(FirstCorner, k). */
  lemma CentredVertexOnCorner(right: Vec3, up: Vec3, x: Vec3, y: Vec3, co: Vec3, m: Vec3,
                              sx: real, sy: real, s: UvScale, tile: Tile, k: int)
    requires s.cellX > 0.0 && s.cellY > 0.0 && CellEdges(right, up, x, y, sx, sy, s)
    requires (sx == 1.0 || sx == -1.0) && (sy == 1.0 || sy == -1.0) && 0 <= k < 4
    requires var same := (sx > 0.0) == (sy > 0.0);
      Sub(co, m) == Add(Scale(x, QuadStepsX(same, k) - 0.5), Scale(y, QuadStepsY(same, k) - 0.5))
    ensures LoopUV(right, up, co, m, s, tile) == TileCorner(tile, s, NextCorner(FirstCorner(sx, sy), k))
  {
    var same := (sx > 0.0) == (sy > 0.0);
    CornerMatches(sx, sy, k);
    var c := NextCorner(FirstCorner(sx, sy), k);
    VertexOnCorner(right, up, x, y, co, m, QuadStepsX(same, k) - 0.5, QuadStepsY(same, k) - 0.5,
                   sx, sy, CornerU(c), CornerV(c), s, tile);
  }

  /**
   * A quad built on a snapped grid cell (edges one cell long along right
   * and up, each possibly reversed) maps exactly onto the selected tile:
   * its four UVs are the tile's corners in counter-clockwise order, so the
   * tile is never mirrored, whichever way the edges point.
   */
  lemma QuadMapsOntoTile(p: Vec3, right: Vec3, up: Vec3, sx: real, sy: real, s: UvScale, tile: Tile)
    requires s.cellX > 0.0 && s.cellY > 0.0 && Orthonormal(right, up)
    requires (sx == 1.0 || sx == -1.0) && (sy == 1.0 || sy == -1.0)
    ensures var x, y := Scale(right, sx * s.cellX), Scale(up, sy * s.cellY);
      FaceUVs(QuadVerts(p, x, y, sx > 0.0, sy > 0.0), right, up, s, tile) == TileCornersFrom(tile, s, FirstCorner(sx, sy))
  {
    ScaledAxesAreCellEdges(right, up, sx, sy, s);
    CellQuadMapsOntoTile(p, right, up, Scale(right, sx * s.cellX), Scale(up, sy * s.cellY), sx, sy, s, tile);
  }

  /** QuadMapsOntoTile for any edges that measure one cell along right and up. */
  lemma CellQuadMapsOntoTile(p: Vec3, right: Vec3, up: Vec3, x: Vec3, y: Vec3, sx: real, sy: real, s: UvScale, tile: Tile)
    requires s.cellX > 0.0 && s.cellY > 0.0 && CellEdges(right, up, x, y, sx, sy, s)
    requires (sx == 1.0 || sx == -1.0) && (sy == 1.0 || sy == -1.0)
    ensures FaceUVs(QuadVerts(p, x, y, sx > 0.0, sy > 0.0), right, up, s, tile) == TileCornersFrom(tile, s, FirstCorner(sx, sy))
  {
    var q := QuadVerts(p, x, y, sx > 0.0, sy > 0.0);
    var uvs := FaceUVs(q, right, up, s, tile);
    var corners := TileCornersFrom(tile, s, FirstCorner(sx, sy));
    forall k | 0 <= k < 4
      ensures uvs[k] == corners[k]
    {
      QuadVertexOnCorner(p, right, up, x, y, sx, sy, s, tile, k);
      assert uvs[k] == LoopUV(right, up, q[k], Median(q), s, tile);
      assert corners[k] == TileCorner(tile, s, NextCorner(FirstCorner(sx, sy), k));
    }
  }

  /** Vertex k of a quad built on a grid cell lands on tile corner NextCorner(FirstCorner, k). */
  lemma QuadVertexOnCorner(p: Vec3, right: Vec3, up: Vec3, x: Vec3, y: Vec3, sx: real, sy: real,
                           s: UvScale, tile: Tile, k: int)
    requires s.cellX > 0.0 && s.cellY > 0.0 && CellEdges(right, up, x, y, sx, sy, s)
    requires (sx == 1.0 || sx == -1.0) && (sy == 1.0 || sy == -1.0) && 0 <= k < 4
    ensures var q := QuadVerts(p, x, y, sx > 0.0, sy > 0.0);
      LoopUV(right, up, q[k], Median(q), s, tile) == TileCorner(tile, s, NextCorner(FirstCorner(sx, sy), k))
  {
    var q := QuadVerts(p, x, y, sx > 0.0, sy > 0.0);
    QuadCentreOffset(p, x, y, sx > 0.0, sy > 0.0, k);
    CentredVertexOnCorner(right, up, x, y, q[k], Median(q), sx, sy, s, tile, k);
  }
}
