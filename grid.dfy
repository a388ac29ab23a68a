/**
 * Grid math of the tile-painting tool: snapping a direction to a world
 * axis, deriving the paint frame from the stored normal and up vectors,
 * and snapping a point on the paint plane to the corner of its grid cell.
 */
module SprytileGrid {
  import opened Vectors

  /** A world axis; it doubles as the scene's normal mode ('X', 'Y' or 'Z'). */
  datatype Axis = X | Y | Z

  function UnitAxis(a: Axis): Vec3
  {
    match a
    case X => Vec3(1.0, 0.0, 0.0)
    case Y => Vec3(0.0, 1.0, 0.0)
    case Z => Vec3(0.0, 0.0, 1.0)
  }

  function Component(v: Vec3, a: Axis): real
  {
    match a
    case X => v.x
    case Y => v.y
    case Z => v.z
  }

  /** Position of an axis in the tie-breaking order X, Y, Z. */
  function Rank(a: Axis): nat
  {
    match a
    case X => 0
    case Y => 1
    case Z => 2
  }

  /**
   * `a` is the axis along which `v` has the largest absolute component,
   * and no earlier axis reaches that size.
   */
  ghost predicate IsDominantAxis(v: Vec3, a: Axis)
  {
    && (forall b :: Abs(Component(v, b)) <= Abs(Component(v, a)))
    && (forall b :: Rank(b) < Rank(a) ==> Abs(Component(v, b)) < Abs(Component(v, a)))
  }

  /** The dot product with a unit axis picks out that component. */
  lemma DotUnitAxis(v: Vec3, a: Axis)
    ensures Dot(v, UnitAxis(a)) == Component(v, a)
  {
  }

  /**
   * The score the snapper minimises: one minus the alignment |v . axis|
   * with an axis, written with the component DotUnitAxis shows it equals.
   */
  function Misalignment(v: Vec3, a: Axis): (m: real)
    ensures m == 1.0 - Abs(Dot(v, UnitAxis(a)))
  {
    DotUnitAxis(v, a);
    1.0 - Abs(Component(v, a))
  }

  /**
   * Position of the value `min` returns among three scores: a later score
   * replaces the current one only when it is strictly smaller, and the
   * identity tests then name that position.
   */
  function FirstMinimum(dx: real, dy: real, dz: real): (a: Axis)
    ensures Pick(dx, dy, dz, a) <= dx && Pick(dx, dy, dz, a) <= dy && Pick(dx, dy, dz, a) <= dz
    ensures forall b :: Rank(b) < Rank(a) ==> Pick(dx, dy, dz, a) < Pick(dx, dy, dz, b)
  {
    if dy < dx then (if dz < dy then Z else Y)
    else (if dz < dx then Z else X)
  }

  /** The score of axis `a` among the three scores. */
  function Pick(dx: real, dy: real, dz: real, a: Axis): real
  {
    match a
    case X => dx
    case Y => dy
    case Z => dz
  }

  /** The axis `snap_vector_to_axis` chooses for `v`. */
  function ClosestAxis(v: Vec3): (a: Axis)
    ensures IsDominantAxis(v, a)
  {
    FirstMinimum(Misalignment(v, X), Misalignment(v, Y), Misalignment(v, Z))
  }

  lemma DominantAxisFacts(v: Vec3, a: Axis, b: Axis)
    requires IsDominantAxis(v, a)
    ensures Abs(Component(v, b)) <= Abs(Component(v, a))
    ensures Rank(b) < Rank(a) ==> Abs(Component(v, b)) < Abs(Component(v, a))
  {
  }

  /** At most one axis is dominant, so the snapper's choice is determined by IsDominantAxis. */
  lemma DominantAxisUnique(v: Vec3, a: Axis, b: Axis)
    requires IsDominantAxis(v, a) && IsDominantAxis(v, b)
    ensures a == b
  {
    DominantAxisFacts(v, a, b);
    DominantAxisFacts(v, b, a);
  }

  /**
   * Snaps `v` to the closest signed world axis. Unmirrored, the result
   * points the same way as `v` along that axis; mirrored, the opposite way.
   * A zero component leaves the axis positive in both cases.
   */
  function SnapVectorToAxis(v: Vec3, mirrored: bool): (r: Vec3)
    ensures r == UnitAxis(ClosestAxis(v)) || r == Scale(UnitAxis(ClosestAxis(v)), -1.0)
    ensures r != UnitAxis(ClosestAxis(v)) <==>
              (if mirrored then Component(v, ClosestAxis(v)) > 0.0 else Component(v, ClosestAxis(v)) < 0.0)
  {
    var snapped := UnitAxis(ClosestAxis(v));
    var vectorDot := Component(v, ClosestAxis(v));
    if !mirrored && vectorDot < 0.0 then Scale(snapped, -1.0)
    else if mirrored && vectorDot > 0.0 then Scale(snapped, -1.0)
    else snapped
  }

  /**
   * Scaling the input by a positive factor changes nothing; in particular
   * snapping the normalized vector, as the tool does, equals snapping the
   * raw one, which is what the model computes.
   */
  lemma SnapVectorToAxisScaleInvariant(v: Vec3, s: real, mirrored: bool)
    requires s > 0.0
    ensures SnapVectorToAxis(Scale(v, s), mirrored) == SnapVectorToAxis(v, mirrored)
  {
    var w := Scale(v, s);
    var a := ClosestAxis(v);
    DominantAxisScaled(v, s, a);
    DominantAxisUnique(w, a, ClosestAxis(w));
    SignScale(v, s, a);
    SnapDeterminedBySign(v, w, mirrored);
  }

  /** The snapped vector depends only on the chosen axis and the sign of that component. */
  lemma SnapDeterminedBySign(v: Vec3, w: Vec3, mirrored: bool)
    requires ClosestAxis(v) == ClosestAxis(w)
    requires Component(v, ClosestAxis(v)) > 0.0 <==> Component(w, ClosestAxis(w)) > 0.0
    requires Component(v, ClosestAxis(v)) < 0.0 <==> Component(w, ClosestAxis(w)) < 0.0
    ensures SnapVectorToAxis(v, mirrored) == SnapVectorToAxis(w, mirrored)
  {
  }

  lemma DominantAxisScaled(v: Vec3, s: real, a: Axis)
    requires s > 0.0 && IsDominantAxis(v, a)
    ensures IsDominantAxis(Scale(v, s), a)
  {
    forall b
      ensures Abs(Component(Scale(v, s), b)) <= Abs(Component(Scale(v, s), a))
      ensures Rank(b) < Rank(a) ==> Abs(Component(Scale(v, s), b)) < Abs(Component(Scale(v, s), a))
    {
      DominantAxisFacts(v, a, b);
      ScaledComparison(v, s, a, b);
    }
  }

  /** Scaling by s > 0 keeps the order of absolute components. */
  lemma ScaledComparison(v: Vec3, s: real, a: Axis, b: Axis)
    requires s > 0.0
    ensures Abs(Component(v, b)) <= Abs(Component(v, a)) ==>
              Abs(Component(Scale(v, s), b)) <= Abs(Component(Scale(v, s), a))
    ensures Abs(Component(v, b)) < Abs(Component(v, a)) ==>
              Abs(Component(Scale(v, s), b)) < Abs(Component(Scale(v, s), a))
  {
    var w := Scale(v, s);
    var cb, ca := Component(v, b), Component(v, a);
    assert Component(w, b) == cb * s;
    assert Component(w, a) == ca * s;
    AbsMono(cb, ca, s);
  }

  lemma SignScale(v: Vec3, s: real, a: Axis)
    requires s > 0.0
    ensures Component(Scale(v, s), a) > 0.0 <==> Component(v, a) > 0.0
    ensures Component(Scale(v, s), a) < 0.0 <==> Component(v, a) < 0.0
  {
    var c := Component(v, a);
    assert Component(Scale(v, s), a) == c * s;
    if c > 0.0 { MulLeftMonotone(s, 0.0, c); }
    if c < 0.0 { MulLeftMonotone(s, c, 0.0); }
  }

  /** Ties go to the earlier axis: (1, 1, 0) snaps to +X. */
  lemma SnapTieGoesToX()
    ensures SnapVectorToAxis(Vec3(1.0, 1.0, 0.0), false) == Vec3(1.0, 0.0, 0.0)
    ensures SnapVectorToAxis(Vec3(1.0, 1.0, 0.0), true) == Vec3(-1.0, 0.0, 0.0)
  {
    var v := Vec3(1.0, 1.0, 0.0);
    assert ClosestAxis(v) == X;
  }

  /** The normal mode named by the first non-zero component of a normal. */
  function ModeOf(n: Vec3): (a: Axis)
    ensures a == X <==> n.x != 0.0
    ensures a == Y <==> n.x == 0.0 && n.y != 0.0
    ensures a == Z <==> n.x == 0.0 && n.y == 0.0
  {
    if Abs(n.x) > 0.0 then X
    else if Abs(n.y) > 0.0 then Y
    else Z
  }

  /** The paint frame: up, right and normal vectors (in that order, as returned). */
  datatype GridVectors = GridVectors(up: Vec3, right: Vec3, normal: Vec3)

  /** Reads the paint frame from the stored normal and up; right = up x normal. */
  function GetCurrentGridVectors(normal: Vec3, up: Vec3): (f: GridVectors)
    ensures f.up == up && f.normal == normal
    ensures Dot(f.right, f.up) == 0.0 && Dot(f.right, f.normal) == 0.0
  {
    GridVectors(up, Cross(up, normal), normal)
  }

  /**
   * When the stored normal and up are orthonormal, the derived frame is a
   * right-handed orthonormal basis: right and up are orthonormal and
   * right x up gives back the normal.
   */
  lemma GridVectorsOrthonormal(normal: Vec3, up: Vec3)
    requires Orthonormal(normal, up)
    ensures var f := GetCurrentGridVectors(normal, up);
      Orthonormal(f.right, f.up) && IsUnit(f.normal) && Cross(f.right, f.up) == f.normal
  {
    var u, n := up, normal;
    var r := Cross(u, n);
    DotComm(n, u);
    Lagrange(u.x, u.y, u.z, n.x, n.y, n.z, 1.0, 1.0, 0.0);
    assert SqLen(r) == 1.0;
    DoubleCross(u, n);
    assert Cross(r, u) == Sub(Scale(n, Dot(u, u)), Scale(u, Dot(n, u)));
    assert Scale(n, 1.0) == n;
    assert Sub(n, Scale(u, 0.0)) == n;
  }

  /** Lagrange's identity in three dimensions: |a x b|^2 = |a|^2 |b|^2 - (a . b)^2. */
  lemma Lagrange(a1: real, a2: real, a3: real, b1: real, b2: real, b3: real, aa: real, bb: real, ab: real)
    requires aa == a1 * a1 + a2 * a2 + a3 * a3 && bb == b1 * b1 + b2 * b2 + b3 * b3
    requires ab == a1 * b1 + a2 * b2 + a3 * b3
    ensures (a2 * b3 - a3 * b2) * (a2 * b3 - a3 * b2)
          + (a3 * b1 - a1 * b3) * (a3 * b1 - a1 * b3)
          + (a1 * b2 - a2 * b1) * (a1 * b2 - a2 * b1)
         == aa * bb - ab * ab
  {
  }

  /** (a x b) x a = b (a . a) - a (b . a). */
  lemma DoubleCross(a: Vec3, b: Vec3)
    ensures Cross(Cross(a, b), a) == Sub(Scale(b, Dot(a, a)), Scale(a, Dot(b, a)))
  {
    var aa, ba := Dot(a, a), Dot(b, a);
    DoubleCrossFirst(a.x, a.y, a.z, b.x, b.y, b.z, aa, ba);
    DoubleCrossFirst(a.y, a.z, a.x, b.y, b.z, b.x, aa, ba);
    DoubleCrossFirst(a.z, a.x, a.y, b.z, b.x, b.y, aa, ba);
  }

  /** First component of DoubleCross, stated on plain reals. */
  lemma DoubleCrossFirst(a1: real, a2: real, a3: real, b1: real, b2: real, b3: real, aa: real, ba: real)
    requires aa == a1 * a1 + a2 * a2 + a3 * a3 && ba == b1 * a1 + b2 * a2 + b3 * a3
    ensures (a3 * b1 - a1 * b3) * a3 - (a1 * b2 - a2 * b1) * a2 == b1 * aa - a1 * ba
  {
  }

  /** Result of snapping a point: the cell corner and the cell-sized edges. */
  datatype GridCell = GridCell(pos: Vec3, right: Vec3, up: Vec3)

  /** +1 when `axis` points toward `position` (or is perpendicular to it), -1 otherwise. */
  function Toward(axis: Vec3, position: Vec3): (s: real)
    ensures s == 1.0 || s == -1.0
    ensures s == 1.0 <==> Dot(axis, position) >= 0.0
    ensures Dot(Scale(axis, s), position) >= 0.0
  {
    var s := if Dot(axis, position) < 0.0 then -1.0 else 1.0;
    DotScaleLeft(axis, s, position);
    s
  }

  /**
   * Reverses `axis` when it points away from `position`: the result is the
   * axis or its reverse, never points away from `position`, and is the axis
   * itself whenever that does not point away.
   */
  function FlipToward(axis: Vec3, position: Vec3): (r: Vec3)
    ensures r == axis || r == Scale(axis, -1.0)
    ensures Dot(r, position) >= 0.0
    ensures Dot(axis, position) >= 0.0 ==> r == axis
  {
    DotScaleLeft(axis, -1.0, position);
    if Toward(axis, position) < 0.0 then Scale(axis, -1.0) else axis
  }

  /** Index of the cell holding `magnitude`, rounding toward minus infinity. */
  function CellIndex(magnitude: real, unit: real): (k: int)
    requires unit != 0.0
    ensures unit > 0.0 ==> k as real * unit <= magnitude < k as real * unit + unit
  {
    if unit > 0.0 then FloorBracket(magnitude, unit); (magnitude / unit).Floor
    else (magnitude / unit).Floor
  }

  /**
   * Snaps `position` to the corner of its grid cell. The right and up axes
   * are first reversed where they point away from `position` (the absolute
   * position, not its offset from `center`), then scaled to one cell.
   */
  function GridPos(position: Vec3, center: Vec3, right: Vec3, up: Vec3,
                   worldPixels: real, gridX: real, gridY: real): (g: GridCell)
    requires worldPixels > 0.0 && gridX > 0.0 && gridY > 0.0
    ensures g.right == Scale(right, if Dot(right, position) < 0.0 then -(gridX / worldPixels) else gridX / worldPixels)
    ensures g.up == Scale(up, if Dot(up, position) < 0.0 then -(gridY / worldPixels) else gridY / worldPixels)
  {
    var offset := Sub(position, center);
    var r := FlipToward(right, position);
    var u := FlipToward(up, position);
    var xMagnitude := Dot(offset, r);
    var yMagnitude := Dot(offset, u);
    var xUnit := gridX / worldPixels;
    var yUnit := gridY / worldPixels;
    var xSnap := CellIndex(xMagnitude, xUnit);
    var ySnap := CellIndex(yMagnitude, yUnit);
    var rv := Scale(r, xUnit);
    var uv := Scale(u, yUnit);
    FlipScaleFacts(right, position, xUnit);
    FlipScaleFacts(up, position, yUnit);
    GridCell(Add(Add(center, Scale(rv, xSnap as real)), Scale(uv, ySnap as real)), rv, uv)
  }

  /** Both returned edges point toward the sample (non-negative dot with the position). */
  lemma GridPosEdgesTowardSample(position: Vec3, center: Vec3, right: Vec3, up: Vec3,
                                 worldPixels: real, gridX: real, gridY: real)
    requires worldPixels > 0.0 && gridX > 0.0 && gridY > 0.0
    ensures var g := GridPos(position, center, right, up, worldPixels, gridX, gridY);
      Dot(g.right, position) >= 0.0 && Dot(g.up, position) >= 0.0
  {
    FlipScaleFacts(right, position, gridX / worldPixels);
    FlipScaleFacts(up, position, gridY / worldPixels);
  }

  lemma FlipScaleFacts(axis: Vec3, position: Vec3, unit: real)
    requires unit > 0.0
    ensures Scale(FlipToward(axis, position), unit)
            == Scale(axis, if Dot(axis, position) < 0.0 then -unit else unit)
    ensures Dot(Scale(FlipToward(axis, position), unit), position) >= 0.0
  {
    var d := Dot(axis, position);
    if d < 0.0 {
      DotScaleLeft(axis, -unit, position);
      assert Dot(Scale(axis, -unit), position) == -unit * d;
      assert -unit * d > 0.0;
    } else {
      DotScaleLeft(axis, unit, position);
      assert unit * d >= 0.0;
    }
  }

  /** The floor of m / unit, times unit, brackets m. */
  lemma FloorBracket(magnitude: real, unit: real)
    requires unit > 0.0
    ensures (magnitude / unit).Floor as real * unit <= magnitude < (magnitude / unit).Floor as real * unit + unit
  {
    var q := magnitude / unit;
    var kr := q.Floor as real;
    assert kr <= q < kr + 1.0;
    MulLeftMonotone(unit, kr, q);
    MulLeftMonotone(unit, q, kr + 1.0);
    calc {
      magnitude;
    ==
      unit * q;
    <
      unit * (kr + 1.0);
    ==
      kr * unit + unit;
    }
  }

  /** The bracket of CellIndex determines the index. */
  lemma CellIndexUnique(magnitude: real, unit: real, k: int)
    requires unit > 0.0
    requires k as real * unit <= magnitude < k as real * unit + unit
    ensures CellIndex(magnitude, unit) == k
  {
    var q := magnitude / unit;
    var kr := k as real;
    assert CellIndex(magnitude, unit) == q.Floor;
    assert unit * q == magnitude;
    if q < kr {
      MulLeftMonotone(unit, q, kr);
    }
    if q >= kr + 1.0 {
      MulLeftMonotone(unit, kr + 1.0, q);
    }
  }

  /** Reversing either axis of an orthonormal pair keeps it orthonormal. */
  lemma FlipKeepsOrthonormal(right: Vec3, up: Vec3, p: Vec3, q: Vec3)
    requires Orthonormal(right, up)
    ensures Orthonormal(FlipToward(right, p), FlipToward(up, q))
  {
    DotNegate(right, right);
    DotNegate(up, up);
    DotNegate(right, up);
  }

  /** One axis's share of the corner: whole cells along the flipped axis. */
  function AxisTerm(offset: Vec3, axis: Vec3, position: Vec3, unit: real): Vec3
    requires unit > 0.0
  {
    var f := FlipToward(axis, position);
    Scale(Scale(f, unit), CellIndex(Dot(offset, f), unit) as real)
  }

  /**
   * The corner is the centre plus one AxisTerm per axis. This only
   * regroups GridPos's own definition so that GridPosIdempotent can treat
   * each axis on its own; GridPosOnGrid states the lattice fact.
   */
  lemma GridPosCorner(position: Vec3, center: Vec3, right: Vec3, up: Vec3,
                      worldPixels: real, gridX: real, gridY: real)
    requires worldPixels > 0.0 && gridX > 0.0 && gridY > 0.0
    ensures var offset := Sub(position, center);
      GridPos(position, center, right, up, worldPixels, gridX, gridY).pos
      == Add(Add(center, AxisTerm(offset, right, position, gridX / worldPixels)),
             AxisTerm(offset, up, position, gridY / worldPixels))
  {
  }

  /** The grid point `kx` cells along `e1` and `ky` cells along `e2` from `center`. */
  function LatticePoint(center: Vec3, e1: Vec3, e2: Vec3, kx: int, ky: int): Vec3
  {
    Add(Add(center, Scale(e1, kx as real)), Scale(e2, ky as real))
  }

  /**
   * The corner lies on the grid: it is the centre plus a whole number of
   * the returned cell edges along each axis.
   */
  lemma GridPosOnGrid(position: Vec3, center: Vec3, right: Vec3, up: Vec3,
                      worldPixels: real, gridX: real, gridY: real)
    requires worldPixels > 0.0 && gridX > 0.0 && gridY > 0.0
    ensures var g := GridPos(position, center, right, up, worldPixels, gridX, gridY);
      exists kx: int, ky: int :: g.pos == LatticePoint(center, g.right, g.up, kx, ky)
  {
    var xUnit, yUnit := gridX / worldPixels, gridY / worldPixels;
    var offset := Sub(position, center);
    var kx := CellIndex(Dot(offset, FlipToward(right, position)), xUnit);
    var ky := CellIndex(Dot(offset, FlipToward(up, position)), yUnit);
    var g := GridPos(position, center, right, up, worldPixels, gridX, gridY);
    assert g.pos == LatticePoint(center, g.right, g.up, kx, ky);
  }

  /** A term along `axis` is orthogonal to whatever `axis` is orthogonal to. */
  lemma AxisTermOrthogonal(offset: Vec3, axis: Vec3, position: Vec3, unit: real, w: Vec3)
    requires unit > 0.0 && Dot(axis, w) == 0.0
    ensures Dot(AxisTerm(offset, axis, position, unit), w) == 0.0
  {
    var f := FlipToward(axis, position);
    var kr := CellIndex(Dot(offset, f), unit) as real;
    assert Dot(f, w) == 0.0 by {
      DotNegate(axis, w);
    }
    DotScaleLeft(f, unit, w);
    assert Dot(Scale(f, unit), w) == 0.0;
    DotScaleLeft(Scale(f, unit), kr, w);
  }

  /**
   * One axis of re-snapping. The first query put the corner some whole
   * cells along the axis as flipped toward `p` (plus a term `o` orthogonal
   * to the axis); the second query, from `q`, may see the axis reversed,
   * and either way it rebuilds the same term.
   */
  lemma ReSnapAxis(axis: Vec3, p: Vec3, q: Vec3, offset: Vec3, o: Vec3, unit: real)
    requires IsUnit(axis) && Dot(o, axis) == 0.0 && unit > 0.0
    ensures var t := AxisTerm(offset, axis, p, unit);
      AxisTerm(Add(t, o), axis, q, unit) == t
  {
    var f1, f2 := FlipToward(axis, p), FlipToward(axis, q);
    DotNegate(axis, axis);
    DotNegate(o, axis);
    assert IsUnit(f1) && Dot(o, f1) == 0.0;
    assert f2 == f1 || f2 == Scale(f1, -1.0);
    ReSnapCore(f1, f2, o, unit, CellIndex(Dot(offset, f1), unit));
  }

  /** ReSnapAxis with the two flipped axes given. */
  lemma ReSnapCore(f1: Vec3, f2: Vec3, o: Vec3, unit: real, k: int)
    requires IsUnit(f1) && Dot(o, f1) == 0.0 && unit > 0.0
    requires f2 == f1 || f2 == Scale(f1, -1.0)
    ensures var off := Add(Scale(Scale(f1, unit), k as real), o);
      Scale(Scale(f2, unit), CellIndex(Dot(off, f2), unit) as real) == Scale(Scale(f1, unit), k as real)
  {
    var kr := k as real;
    var off := Add(Scale(Scale(f1, unit), kr), o);
    var m := kr * unit;
    OffsetAlongAxis(f1, o, unit, kr, off);
    if f2 == f1 {
      CellIndexUnique(m, unit, k);
    } else {
      DotNegate(off, f1);
      NegateProduct(k, unit);
      CellIndexUnique(-m, unit, -k);
      NegateTwice(f1, unit, kr);
    }
  }

  /** The offset kr cells along f plus an orthogonal term projects to kr cells. */
  lemma OffsetAlongAxis(f: Vec3, o: Vec3, unit: real, kr: real, off: Vec3)
    requires IsUnit(f) && Dot(o, f) == 0.0
    requires off == Add(Scale(Scale(f, unit), kr), o)
    ensures Dot(off, f) == kr * unit
  {
    CellTermDot(f, unit, kr);
    DotAddLeft(Scale(Scale(f, unit), kr), o, f);
  }

  /** k whole cells along a unit axis project back to k cell lengths. */
  lemma CellTermDot(f: Vec3, unit: real, kr: real)
    requires IsUnit(f)
    ensures Dot(Scale(Scale(f, unit), kr), f) == kr * unit
  {
    DotScaleLeft(Scale(f, unit), kr, f);
    DotScaleLeft(f, unit, f);
  }

  lemma NegateProduct(k: int, unit: real)
    ensures (-k) as real * unit == -(k as real * unit)
  {
  }

  lemma NegateTwice(f: Vec3, unit: real, kr: real)
    ensures Scale(Scale(Scale(f, -1.0), unit), -kr) == Scale(Scale(f, unit), kr)
  {
  }

  /**
   * Snapping is idempotent on the corner: feeding the returned corner back
   * in with the same centre, axes and cell size returns the same corner.
   */
  lemma GridPosIdempotent(position: Vec3, center: Vec3, right: Vec3, up: Vec3,
                          worldPixels: real, gridX: real, gridY: real)
    requires Orthonormal(right, up)
    requires worldPixels > 0.0 && gridX > 0.0 && gridY > 0.0
    ensures var g := GridPos(position, center, right, up, worldPixels, gridX, gridY);
      GridPos(g.pos, center, right, up, worldPixels, gridX, gridY).pos == g.pos
  {
    var g := GridPos(position, center, right, up, worldPixels, gridX, gridY);
    var xUnit, yUnit := gridX / worldPixels, gridY / worldPixels;
    var offset := Sub(position, center);
    var tx := AxisTerm(offset, right, position, xUnit);
    var ty := AxisTerm(offset, up, position, yUnit);
    GridPosCorner(position, center, right, up, worldPixels, gridX, gridY);
    GridPosCorner(g.pos, center, right, up, worldPixels, gridX, gridY);
    assert Sub(g.pos, center) == Add(tx, ty);
    assert Add(ty, tx) == Add(tx, ty);
    DotComm(right, up);
    AxisTermOrthogonal(offset, up, position, yUnit, right);
    AxisTermOrthogonal(offset, right, position, xUnit, up);
    ReSnapAxis(right, position, g.pos, offset, ty, xUnit);
    ReSnapAxis(up, position, g.pos, offset, tx, yUnit);
  }

  /**
   * The sample lies in the cell whose corner is returned: measured from the
   * corner, its projection on each returned edge e lies in [0, |e|^2).
   */
  lemma GridPosContainsSample(position: Vec3, center: Vec3, right: Vec3, up: Vec3,
                              worldPixels: real, gridX: real, gridY: real)
    requires Orthonormal(right, up)
    requires worldPixels > 0.0 && gridX > 0.0 && gridY > 0.0
    ensures var g := GridPos(position, center, right, up, worldPixels, gridX, gridY);
      && 0.0 <= Dot(Sub(position, g.pos), g.right) < Dot(g.right, g.right)
      && 0.0 <= Dot(Sub(position, g.pos), g.up) < Dot(g.up, g.up)
  {
    var g := GridPos(position, center, right, up, worldPixels, gridX, gridY);
    var xUnit, yUnit := gridX / worldPixels, gridY / worldPixels;
    var r1, u1 := FlipToward(right, position), FlipToward(up, position);
    var off := Sub(position, center);
    var kx := CellIndex(Dot(off, r1), xUnit);
    var ky := CellIndex(Dot(off, u1), yUnit);
    var tx := Scale(Scale(r1, xUnit), kx as real);
    var ty := Scale(Scale(u1, yUnit), ky as real);
    assert g.pos == Add(Add(center, tx), ty);
    assert g.right == Scale(r1, xUnit) && g.up == Scale(u1, yUnit);
    var rest := Sub(position, g.pos);
    assert rest == Sub(off, Add(tx, ty));
    assert Add(tx, ty) == Add(ty, tx);
    FlipKeepsOrthonormal(right, up, position, position);
    assert Dot(ty, r1) == 0.0 by {
      DotScaleLeft(Scale(u1, yUnit), ky as real, r1);
      DotScaleLeft(u1, yUnit, r1);
      DotComm(u1, r1);
    }
    assert Dot(tx, u1) == 0.0 by {
      DotScaleLeft(Scale(r1, xUnit), kx as real, u1);
      DotScaleLeft(r1, xUnit, u1);
    }
    InCell(off, r1, ty, xUnit);
    InCell(off, u1, tx, yUnit);
  }

  /** One axis of GridPosContainsSample. */
  lemma InCell(off: Vec3, f: Vec3, o: Vec3, unit: real)
    requires IsUnit(f) && Dot(o, f) == 0.0 && unit > 0.0
    ensures var e := Scale(f, unit);
      var rest := Sub(off, Add(Scale(e, CellIndex(Dot(off, f), unit) as real), o));
      0.0 <= Dot(rest, e) < Dot(e, e)
  {
    var m := Dot(off, f);
    var kr := CellIndex(m, unit) as real;
    var e := Scale(f, unit);
    var rest := Sub(off, Add(Scale(e, kr), o));
    var d := m - kr * unit;
    var p, q := Dot(rest, e), Dot(e, e);
    InCellDot(off, f, o, unit, kr, d, p);
    InCellLength(f, unit, q);
    ScaledBracket(d, unit, p, q);
  }

  /** Measured along a unit axis, the sample's offset from a corner k cells out. */
  lemma InCellDot(off: Vec3, f: Vec3, o: Vec3, unit: real, kr: real, d: real, p: real)
    requires IsUnit(f) && Dot(o, f) == 0.0
    requires d == Dot(off, f) - kr * unit && p == Dot(Sub(off, Add(Scale(Scale(f, unit), kr), o)), Scale(f, unit))
    ensures p == unit * d
  {
    var e := Scale(f, unit);
    var t := Scale(e, kr);
    var rest := Sub(off, Add(t, o));
    CellTermDot(f, unit, kr);
    DotSubLeft(off, Add(t, o), f);
    DotAddLeft(t, o, f);
    DotScaleRight(rest, f, unit);
  }

  lemma InCellLength(f: Vec3, unit: real, q: real)
    requires IsUnit(f) && q == Dot(Scale(f, unit), Scale(f, unit))
    ensures q == unit * unit
  {
    DotScaleRight(Scale(f, unit), f, unit);
    DotScaleLeft(f, unit, f);
  }

  /** 0 <= d < unit, scaled by unit > 0. */
  lemma ScaledBracket(d: real, unit: real, p: real, q: real)
    requires unit > 0.0 && 0.0 <= d < unit && p == unit * d && q == unit * unit
    ensures 0.0 <= p < q
  {
    MulLeftMonotone(unit, 0.0, d);
    MulLeftMonotone(unit, d, unit);
    calc {
      p;
    ==
      unit * d;
    <
      unit * unit;
    ==
      q;
    }
  }

  /**
   * The returned edges are not idempotent: re-snapping the corner reverses
   * the right edge exactly when the corner and the original sample lie on
   * different sides of the plane through the origin normal to `right`
   * (the flip tests the absolute position, not the offset from the centre).
   */
  lemma GridPosRightEdgeOnRequery(position: Vec3, center: Vec3, right: Vec3, up: Vec3,
                                  worldPixels: real, gridX: real, gridY: real)
    requires right != Zero
    requires worldPixels > 0.0 && gridX > 0.0 && gridY > 0.0
    ensures var g := GridPos(position, center, right, up, worldPixels, gridX, gridY);
      var h := GridPos(g.pos, center, right, up, worldPixels, gridX, gridY);
      (h.right == g.right <==> (Dot(right, position) < 0.0 <==> Dot(right, g.pos) < 0.0))
      && (h.right != g.right ==> h.right == Scale(g.right, -1.0))
  {
    var xUnit := gridX / worldPixels;
    ScaleSignsDiffer(right, xUnit);
  }

  /** A non-zero vector scaled by +s and by -s (s > 0) gives two different vectors. */
  lemma ScaleSignsDiffer(a: Vec3, s: real)
    requires a != Zero && s > 0.0
    ensures Scale(a, s) != Scale(a, -s)
    ensures Scale(Scale(a, s), -1.0) == Scale(a, -s) && Scale(Scale(a, -s), -1.0) == Scale(a, s)
  {
    if a.x != 0.0 {
      assert a.x * s != a.x * -s;
    } else if a.y != 0.0 {
      assert a.y * s != a.y * -s;
    } else {
      assert a.z * s != a.z * -s;
    }
  }

  /** A signed world axis: the unit axis or its reverse. */
  predicate IsSignedAxis(r: Vec3, a: Axis)
  {
    r == UnitAxis(a) || r == Scale(UnitAxis(a), -1.0)
  }

  /** A signed axis is a unit vector and its mode is its own axis. */
  lemma SignedAxisFacts(r: Vec3, a: Axis)
    requires IsSignedAxis(r, a)
    ensures IsUnit(r) && ModeOf(r) == a
  {
  }

  /** Two signed axes are perpendicular exactly when they lie on different axes. */
  lemma SignedAxesPerpendicular(r: Vec3, a: Axis, s: Vec3, b: Axis)
    requires IsSignedAxis(r, a) && IsSignedAxis(s, b)
    ensures Dot(r, s) == 0.0 <==> a != b
  {
    ComponentOfSignedAxis(s, b, a);
    DotSignedAxis(r, a, s);
  }

  /** A dot product with a signed axis is plus or minus the matching component. */
  lemma DotSignedAxis(r: Vec3, a: Axis, w: Vec3)
    requires IsSignedAxis(r, a)
    ensures Dot(r, w) == Component(w, a) || Dot(r, w) == -Component(w, a)
  {
    match a
    case X =>
      if r == Vec3(1.0, 0.0, 0.0) {
      } else {
        assert r == Vec3(-1.0, 0.0, 0.0);
      }
    case Y =>
      if r == Vec3(0.0, 1.0, 0.0) {
      } else {
        assert r == Vec3(0.0, -1.0, 0.0);
      }
    case Z =>
      if r == Vec3(0.0, 0.0, 1.0) {
      } else {
        assert r == Vec3(0.0, 0.0, -1.0);
      }
  }

  lemma ComponentOfSignedAxis(s: Vec3, b: Axis, a: Axis)
    requires IsSignedAxis(s, b)
    ensures Component(s, a) == 0.0 <==> a != b
  {
    match b
    case X =>
      if s == Vec3(1.0, 0.0, 0.0) {
      } else {
        assert s == Vec3(-1.0, 0.0, 0.0);
      }
    case Y =>
      if s == Vec3(0.0, 1.0, 0.0) {
      } else {
        assert s == Vec3(0.0, -1.0, 0.0);
      }
    case Z =>
      if s == Vec3(0.0, 0.0, 1.0) {
      } else {
        assert s == Vec3(0.0, 0.0, -1.0);
      }
  }

  /**
   * The frame the view-axis finder derives: the normal snapped mirrored from
   * the view direction and the up snapped from the view's up. The pair is
   * accepted (zero dot) exactly when the two directions snap to different
   * axes, an accepted pair is orthonormal, and the derived mode is the axis
   * the view direction snapped to.
   */
  lemma SnappedFrame(view: Vec3, viewUp: Vec3)
    ensures var n, u := SnapVectorToAxis(view, true), SnapVectorToAxis(viewUp, false);
      && (Dot(n, u) == 0.0 <==> ClosestAxis(view) != ClosestAxis(viewUp))
      && (Dot(n, u) == 0.0 ==> Orthonormal(n, u))
      && ModeOf(n) == ClosestAxis(view)
  {
    var n, u := SnapVectorToAxis(view, true), SnapVectorToAxis(viewUp, false);
    SignedAxisFacts(n, ClosestAxis(view));
    SignedAxisFacts(u, ClosestAxis(viewUp));
    SignedAxesPerpendicular(n, ClosestAxis(view), u, ClosestAxis(viewUp));
  }
}
