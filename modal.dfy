/**
 * The modal paint tool: the scene settings it reads and writes, and the
 * tool object holding the virtual cursor history, the edit mesh and the
 * collision tree. Its methods are proved against the specifications of
 * modules SprytileGrid, VirtualCursor and SprytileMesh.
 *
 * The world transform of the edited object is the identity here, so
 * world and object positions coincide. Raycasts, nearest-face queries and
 * ray/plane intersections are foreign calls; their results are inputs.
 */
module SprytileModal {
  import opened Vectors
  import opened SprytileGrid
  import opened VirtualCursor
  import opened SprytileMesh

  /** The geometry a collision tree was last built from. */
  datatype MeshGeometry = MeshGeometry(verts: seq<Vec3>, faces: seq<seq<nat>>)

  /**
   * A raycast hit on the mesh: the hit location, the hit face's normal and
   * index, and the signed distance of the hit from the paint plane through
   * the 3D cursor.
   */
  datatype MeshHit = MeshHit(location: Vec3, normal: Vec3, faceIndex: nat, planeDistance: real)

  /** The nearest point of the mesh to a location, and the face it lies on. */
  datatype NearestHit = NearestHit(location: Vec3, faceIndex: nat)

  /** The cursor snapping setting. */
  datatype SnapMode = GridSnap | VertexSnap

  /** What one build-mode click did. */
  datatype BuildOutcome = PaintedOver(face: nat) | Built(face: nat) | Missed

  /** Tolerance of both halves of the paint-over test. */
  const GateTolerance: real := 0.05

  /**
   * The paint-over test: the hit face's normal agrees with the plane
   * normal (|n . h - 1| < 0.05) and the hit lies on the paint plane
   * (|distance| < 0.05).
   */
  predicate PaintsOver(planeNormal: Vec3, hitNormal: Vec3, planeDistance: real)
    ensures PaintsOver(planeNormal, hitNormal, planeDistance) ==> Dot(planeNormal, hitNormal) > 0.95
  {
    Abs(Dot(planeNormal, hitNormal) - 1.0) < GateTolerance && Abs(planeDistance) < GateTolerance
  }

  /**
   * The paint-over test picks faces that face the SAME way as the plane:
   * a passing hit has n . h > 0.95; a coplanar face with the plane's own
   * normal passes; a coplanar face with the opposite normal never does,
   * so a new face is built over it.
   */
  lemma PaintOverFacing(n: Vec3, h: Vec3, d: real)
    requires IsUnit(n)
    ensures PaintsOver(n, h, d) ==> Dot(n, h) > 0.95
    ensures PaintsOver(n, n, 0.0)
    ensures !PaintsOver(n, Scale(n, -1.0), d)
  {
    DotScaleRight(n, n, -1.0);
  }

  /**
   * The loop of a new quad whose vertices are numbered from n in creation
   * order: (1, 4, 3, 2) when the edges agree in sign with the paint frame
   * (quadrants I and III), (1, 2, 3, 4) otherwise.
   */
  function QuadFace(n: nat, xPositive: bool, yPositive: bool): (f: seq<nat>)
    ensures |f| == 4 && IndicesIn(f, n + 4)
  {
    if xPositive == yPositive then [n, n + 3, n + 2, n + 1] else [n, n + 1, n + 2, n + 3]
  }

  /** The loop of a new quad uses each of the four new vertex indices exactly once. */
  lemma QuadFaceIndices(n: nat, xPositive: bool, yPositive: bool)
    ensures multiset(QuadFace(n, xPositive, yPositive)) == multiset{n, n + 1, n + 2, n + 3}
  {
    ReverseTailSameElements(n, n + 1, n + 2, n + 3);
  }

  /** The new face's vertex positions, in loop order, are the quad QuadVerts. */
  lemma QuadFacePositions(verts: seq<Vec3>, p: Vec3, x: Vec3, y: Vec3, xPositive: bool, yPositive: bool)
    ensures FacePositions(verts + NewVertices(p, x, y), QuadFace(|verts|, xPositive, yPositive))
         == QuadVerts(p, x, y, xPositive, yPositive)
  {
    var all := verts + NewVertices(p, x, y);
    var n := |verts|;
    assert all[n] == p && all[n + 1] == Add(p, y) && all[n + 2] == Add(Add(p, x), y) && all[n + 3] == Add(p, x);
  }

  /** Cross product of scaled vectors. */
  lemma CrossScale(a: Vec3, b: Vec3, s: real, t: real)
    ensures Cross(Scale(a, s), Scale(b, t)) == Scale(Cross(a, b), s * t)
  {
    var sa, sb, st := Scale(a, s), Scale(b, t), s * t;
    CrossScaleComponent(a.y, a.z, b.y, b.z, s, t, st, sa.y, sa.z, sb.y, sb.z);
    CrossScaleComponent(a.z, a.x, b.z, b.x, s, t, st, sa.z, sa.x, sb.z, sb.x);
    CrossScaleComponent(a.x, a.y, b.x, b.y, s, t, st, sa.x, sa.y, sb.x, sb.y);
  }

  /** One component of CrossScale: a two-by-two determinant of scaled entries. */
  lemma CrossScaleComponent(a1: real, a2: real, b1: real, b2: real, s: real, t: real, st: real,
                            sa1: real, sa2: real, sb1: real, sb2: real)
    requires st == s * t
    requires sa1 == a1 * s && sa2 == a2 * s && sb1 == b1 * t && sb2 == b2 * t
    ensures sa1 * sb2 - sa2 * sb1 == (a1 * b2 - a2 * b1) * st
  {
  }

  lemma ScaleTwice(v: Vec3, a: real, b: real)
    ensures Scale(Scale(v, a), b) == Scale(v, a * b)
  {
  }

  /** Swapping the factors of a cross product reverses it. */
  lemma CrossAnti(a: Vec3, b: Vec3)
    ensures Cross(b, a) == Scale(Cross(a, b), -1.0)
  {
  }

  /**
   * The first two edges of a quad: x then y when the edges agree in sign,
   * y then x otherwise.
   */
  lemma QuadEdges(p: Vec3, x: Vec3, y: Vec3, xPositive: bool, yPositive: bool)
    ensures var q := QuadVerts(p, x, y, xPositive, yPositive);
      if xPositive == yPositive then Sub(q[1], q[0]) == x && Sub(q[2], q[1]) == y
      else Sub(q[1], q[0]) == y && Sub(q[2], q[1]) == x
  {
  }

  /**
   * Winding: whichever quadrant a cell-sized quad is built in, its first
   * two edges turn counter-clockwise about the plane normal
   * (normal = right x up), so the face always faces the paint plane's
   * normal: the corner cross product is the normal times the cell area.
   */
  lemma QuadFacesNormal(p: Vec3, right: Vec3, up: Vec3, normal: Vec3, sx: real, sy: real, cx: real, cy: real)
    requires Cross(right, up) == normal
    requires (sx == 1.0 || sx == -1.0) && (sy == 1.0 || sy == -1.0)
    ensures var q := QuadVerts(p, Scale(right, sx * cx), Scale(up, sy * cy), sx > 0.0, sy > 0.0);
      Cross(Sub(q[1], q[0]), Sub(q[2], q[1])) == Scale(normal, cx * cy)
  {
    var a, b := sx * cx, sy * cy;
    var x, y := Scale(right, a), Scale(up, b);
    QuadEdges(p, x, y, sx > 0.0, sy > 0.0);
    SignedProduct(sx, sy, cx, cy, a, b);
    CrossOfEdges(right, up, normal, a, b, (sx > 0.0) == (sy > 0.0), cx * cy);
  }

  /** (sx cx)(sy cy) is cx cy when the signs agree and its negation otherwise. */
  lemma SignedProduct(sx: real, sy: real, cx: real, cy: real, a: real, b: real)
    requires (sx == 1.0 || sx == -1.0) && (sy == 1.0 || sy == -1.0)
    requires a == sx * cx && b == sy * cy
    ensures a * b == if (sx > 0.0) == (sy > 0.0) then cx * cy else -(cx * cy)
  {
  }

  /**
   * The cross product of edges a along right and b along up is the normal
   * times a b, and swapping them reverses it: both are the normal times k.
   */
  lemma CrossOfEdges(right: Vec3, up: Vec3, normal: Vec3, a: real, b: real, inOrder: bool, k: real)
    requires Cross(right, up) == normal
    requires a * b == if inOrder then k else -k
    ensures var x, y := Scale(right, a), Scale(up, b);
      Cross(if inOrder then x else y, if inOrder then y else x) == Scale(normal, k)
  {
    var x, y := Scale(right, a), Scale(up, b);
    CrossScale(right, up, a, b);
    if !inOrder {
      CrossAnti(x, y);
      ScaleTwice(normal, -k, -1.0);
    }
  }

  /** An edge sx cells long along a unit axis points along it exactly when sx > 0. */
  lemma EdgeSign(axis: Vec3, sx: real, c: real)
    requires IsUnit(axis) && c > 0.0 && (sx == 1.0 || sx == -1.0)
    ensures Dot(axis, Scale(axis, sx * c)) > 0.0 <==> sx > 0.0
  {
    DotScaleRight(axis, axis, sx * c);
  }

  /**
   * A face built on the snapped cell of any plane point, then UV mapped,
   * covers the selected tile exactly: its loops get the tile's four
   * corners counter-clockwise, starting at the corner picked by which way
   * the cell's edges were flipped.
   */
  lemma BuiltCellMapsOntoTile(position: Vec3, center: Vec3, right: Vec3, up: Vec3,
                              worldPixels: real, gridX: real, gridY: real, tex: TexSize, tile: Tile)
    requires Orthonormal(right, up) && UvSettings(worldPixels, gridX, gridY, tex)
    ensures var g := GridPos(position, center, right, up, worldPixels, gridX, gridY);
      var s := ScaleOf(worldPixels, gridX, gridY, tex);
      var q := QuadVerts(g.pos, g.right, g.up, Dot(right, g.right) > 0.0, Dot(up, g.up) > 0.0);
      FaceUVs(q, right, up, s, tile) == TileCornersFrom(tile, s, FirstCorner(Toward(right, position), Toward(up, position)))
  {
    var g := GridPos(position, center, right, up, worldPixels, gridX, gridY);
    var s := ScaleOf(worldPixels, gridX, gridY, tex);
    var sx, sy := Toward(right, position), Toward(up, position);
    assert g.right == Scale(right, sx * s.cellX);
    assert g.up == Scale(up, sy * s.cellY);
    EdgeSign(right, sx, s.cellX);
    EdgeSign(up, sy, s.cellY);
    QuadMapsOntoTile(g.pos, right, up, sx, sy, s, tile);
  }

  /** Where the flow step puts the 3D cursor, given the history and the face's vertex positions. */
  function FlowTarget(h: seq<Vec3>, ps: seq<Vec3>, origin: Vec3, cursor: Vec3): (t: Vec3)
    ensures |h| <= 1 ==> t == cursor
    ensures t == cursor || t in ps
  {
    if |h| <= 1 then cursor
    else
      var i := LastForwardIndex(ps, origin, Direction(h));
      if i >= 0 then ps[i] else cursor
  }

  /**
   * The flow step moves the cursor exactly when it can: with two or more
   * samples and some face vertex ahead of the origin along the painting
   * direction, the cursor lands on the last such vertex; otherwise it
   * stays put.
   */
  lemma FlowTargetAhead(h: seq<Vec3>, ps: seq<Vec3>, origin: Vec3, cursor: Vec3)
    ensures var t := FlowTarget(h, ps, origin, cursor);
      |h| >= 2 && (exists j :: 0 <= j < |ps| && Forward(ps[j], origin, Direction(h))) ==>
        exists i :: 0 <= i < |ps| && t == ps[i] && Forward(ps[i], origin, Direction(h))
                    && forall j :: i < j < |ps| ==> !Forward(ps[j], origin, Direction(h))
    ensures (|h| <= 1 || forall j :: 0 <= j < |ps| ==> !Forward(ps[j], origin, Direction(h)))
      ==> FlowTarget(h, ps, origin, cursor) == cursor
  {
    if |h| >= 2 {
      var i := LastForwardIndex(ps, origin, Direction(h));
      if i >= 0 {
        assert FlowTarget(h, ps, origin, cursor) == ps[i];
      }
    }
  }

  /**
   * The first vertex at the least distance from `location`: a scan that
   * keeps a candidate only on a strictly smaller distance. Squared
   * distances stand in for distances (MagnitudeOrder).
   */
  method NearestVertex(verts: seq<Vec3>, location: Vec3) returns (closest: int)
    ensures closest == -1 <==> |verts| == 0
    ensures closest != -1 ==> IsFirstNearest(verts, location, closest)
  {
    closest := -1;
    var closestDist := 0.0;
    for i := 0 to |verts|
      invariant closest == -1 <==> i == 0
      invariant closest != -1 ==> IsFirstNearest(verts[..i], location, closest)
      invariant closest != -1 ==> closestDist == SqDist(location, verts[closest])
    {
      var testDist := SqDist(location, verts[i]);
      if closest == -1 || testDist < closestDist {
        closest := i;
        closestDist := testDist;
      }
    }
    assert verts[..|verts|] == verts;
  }

  /**
   * Whether the view-axis update stores the snapped normal n and up u: the
   * normal is not locked and the two are perpendicular.
   */
  function FrameAccepted(lockNormal: bool, n: Vec3, u: Vec3): (b: bool)
    ensures lockNormal ==> !b
    ensures b && IsUnit(n) && IsUnit(u) ==> Orthonormal(n, u)
  {
    !lockNormal && Dot(n, u) == 0.0
  }

  /**
   * Unlocked, the view-axis update replaces the stored frame exactly when
   * the view direction and the view up snap to different world axes; the
   * frame it then stores is orthonormal (so the stored frame stays
   * orthonormal) and its normal's mode is the view direction's axis.
   */
  lemma ViewAxisFrameFacts(lockNormal: bool, view: Vec3, viewUp: Vec3)
    ensures var n, u := SnapVectorToAxis(view, true), SnapVectorToAxis(viewUp, false);
      && (!lockNormal ==> (FrameAccepted(lockNormal, n, u) <==> ClosestAxis(view) != ClosestAxis(viewUp)))
      && (FrameAccepted(lockNormal, n, u) ==> Orthonormal(n, u) && ModeOf(n) == ClosestAxis(view))
  {
    SnappedFrame(view, viewUp);
  }

  /** Scene state: the 3D cursor, the paint frame and the active grid's settings. */
  class Scene {
    var cursorLocation: Vec3
    var paintNormal: Vec3
    var paintUp: Vec3
    var normalMode: Axis
    var lockNormal: bool
    var cursorFlow: bool
    var worldPixels: real
    var gridX: real
    var gridY: real
    var tile: Tile
    var texture: Option<TexSize>

    /** The sizes the tool divides by are positive. */
    ghost predicate Settings()
      reads this
    {
      worldPixels > 0.0 && gridX > 0.0 && gridY > 0.0
      && (texture.Some? ==> texture.value.width > 0.0 && texture.value.height > 0.0)
    }

    /** The paint frame read from the stored normal and up. */
    function Frame(): GridVectors
      reads this
    {
      GetCurrentGridVectors(paintNormal, paintUp)
    }
  }

  /** The running paint tool. */
  class ModalTool {
    var virtualCursor: seq<Vec3>
    var bmesh: Mesh
    var tree: MeshGeometry

    /**
     * The history holds at most Capacity samples, consecutive samples at
     * least 0.1 apart, and the collision tree matches the mesh.
     */
    ghost predicate Valid()
      reads this, bmesh
    {
      && bmesh.Valid()
      && |virtualCursor| <= Capacity && Spaced(virtualCursor)
      && tree == MeshGeometry(bmesh.verts, bmesh.faces)
    }

    /** Starts the tool on `mesh` with an empty history and a tree over the mesh. */
    constructor Invoke(mesh: Mesh)
      requires mesh.Valid()
      ensures Valid() && bmesh == mesh && virtualCursor == []
    {
      virtualCursor := [];
      bmesh := mesh;
      tree := MeshGeometry(mesh.verts, mesh.faces);
    }

    /**
     * Snaps the view direction (mirrored) and the view's up to world axes
     * and, unless the normal is locked or the two snap to the same axis,
     * stores them as the paint frame and sets the normal mode, clearing
     * the history when the mode changes.
     */
    method FindViewAxis(scene: Scene, view: Vec3, viewUp: Vec3)
      requires Valid()
      modifies this`virtualCursor, scene`paintNormal, scene`paintUp, scene`normalMode
      ensures Valid()
      ensures var n, u := SnapVectorToAxis(view, true), SnapVectorToAxis(viewUp, false);
        if FrameAccepted(old(scene.lockNormal), n, u) then scene.paintNormal == n && scene.paintUp == u
        else scene.paintNormal == old(scene.paintNormal) && scene.paintUp == old(scene.paintUp)
      ensures var n, u := SnapVectorToAxis(view, true), SnapVectorToAxis(viewUp, false);
        scene.normalMode == if FrameAccepted(old(scene.lockNormal), n, u) then ModeOf(n) else old(scene.normalMode)
      ensures var n, u := SnapVectorToAxis(view, true), SnapVectorToAxis(viewUp, false);
        virtualCursor
        == if FrameAccepted(old(scene.lockNormal), n, u) && ModeOf(n) != old(scene.normalMode) then [] else old(virtualCursor)
    {
      if scene.lockNormal {
        assert !FrameAccepted(true, SnapVectorToAxis(view, true), SnapVectorToAxis(viewUp, false));
        return;
      }
      var planeNormal := SnapVectorToAxis(view, true);
      var upVector := SnapVectorToAxis(viewUp, false);
      if Dot(planeNormal, upVector) != 0.0 {
        assert !FrameAccepted(false, planeNormal, upVector);
        return;
      }
      assert FrameAccepted(false, planeNormal, upVector);
      scene.paintNormal := planeNormal;
      scene.paintUp := upVector;
      var newMode := ModeOf(planeNormal);
      if newMode != scene.normalMode {
        virtualCursor := [];
      }
      scene.normalMode := newMode;
    }

    /** Records a paint position in the history (AddSample). */
    method AddVirtualCursor(cursorPos: Vec3)
      requires Valid()
      modifies this`virtualCursor
      ensures Valid()
      ensures virtualCursor == AddSample(old(virtualCursor), cursorPos)
    {
      ghost var h := virtualCursor;
      AddSampleKeepsSpacing(h, cursorPos);
      var cursorLen := |virtualCursor|;
      if cursorLen == 0 {
        virtualCursor := virtualCursor + [cursorPos];
        return;
      }
      var lastVector := Sub(cursorPos, virtualCursor[cursorLen - 1]);
      if SqLen(lastVector) < MinStepSq {
        return;
      }
      var cursorVector := GetVirtualCursorVector();
      if Dot(cursorVector, lastVector) < 0.0 {
        virtualCursor := [];
        assert AddSample(h, cursorPos) == KeepNewest([] + [cursorPos], Capacity);
      } else {
        assert AddSample(h, cursorPos) == KeepNewest(h + [cursorPos], Capacity);
      }
      Append(cursorPos);
    }

    /** Appends to the bounded history, dropping the oldest entry when it is full. */
    method Append(p: Vec3)
      requires |virtualCursor| <= Capacity
      modifies this`virtualCursor
      ensures virtualCursor == KeepNewest(old(virtualCursor) + [p], Capacity)
    {
      if |virtualCursor| == Capacity {
        assert virtualCursor[1..] + [p] == (virtualCursor + [p])[1..];
        virtualCursor := virtualCursor[1..] + [p];
      } else {
        virtualCursor := virtualCursor + [p];
      }
    }

    /** The painting direction: the steps of the history summed, divided by its length. */
    method GetVirtualCursorVector() returns (cursorDirection: Vec3)
      ensures cursorDirection == Direction(virtualCursor)
    {
      cursorDirection := Zero;
      var cursorLen := |virtualCursor|;
      if cursorLen <= 1 {
        return;
      }
      for idx := 0 to cursorLen - 1
        invariant cursorDirection == StepSum(virtualCursor[..idx + 1])
      {
        var segment := Sub(virtualCursor[idx + 1], virtualCursor[idx]);
        assert virtualCursor[..idx + 2][..idx + 1] == virtualCursor[..idx + 1];
        cursorDirection := Add(cursorDirection, segment);
      }
      assert virtualCursor[..cursorLen] == virtualCursor;
      cursorDirection := DivScalar(cursorDirection, cursorLen as real);
    }

    /**
     * Moves the 3D cursor to the last vertex of face `faceIndex` that lies
     * ahead of `origin` along the painting direction; with fewer than two
     * samples, or no such vertex, the cursor stays.
     */
    method FlowCursor(scene: Scene, faceIndex: nat, origin: Vec3)
      requires Valid() && faceIndex < |bmesh.faces|
      modifies scene`cursorLocation
      ensures scene.cursorLocation
           == FlowTarget(virtualCursor, FacePositions(bmesh.verts, bmesh.faces[faceIndex]), origin,
                         old(scene.cursorLocation))
    {
      var cursorLen := |virtualCursor|;
      if cursorLen <= 1 {
        return;
      }
      var cursorDirection := GetVirtualCursorVector();
      var face := bmesh.faces[faceIndex];
      var ps := FacePositions(bmesh.verts, face);
      var closestIdx := -1;
      var closestPos := Zero;
      for idx := 0 to |face|
        invariant closestIdx == LastForwardIndex(ps[..idx], origin, cursorDirection)
        invariant closestIdx >= 0 ==> closestPos == ps[closestIdx]
      {
        var vertWorldPos := bmesh.verts[face[idx]];
        assert ps[idx] == vertWorldPos;
        assert ps[..idx + 1][..idx] == ps[..idx];
        if Forward(vertWorldPos, origin, cursorDirection) {
          closestIdx := idx;
          closestPos := vertWorldPos;
        }
      }
      assert ps[..|face|] == ps;
      assert closestIdx == LastForwardIndex(ps, origin, Direction(virtualCursor));
      if closestIdx != -1 {
        scene.cursorLocation := closestPos;
      }
    }

    /**
     * Adds the four vertices p, p+y, p+x+y, p+x and one quad over them,
     * wound by whether the edges agree in sign with right and up, and
     * rebuilds the collision tree. Returns the new face's index.
     */
    method BuildFace(position: Vec3, xVector: Vec3, yVector: Vec3, upVector: Vec3, rightVector: Vec3)
        returns (faceIndex: nat)
      requires Valid()
      modifies this`tree, bmesh
      ensures Valid()
      ensures faceIndex == |old(bmesh.faces)|
      ensures bmesh.verts == old(bmesh.verts) + NewVertices(position, xVector, yVector)
      ensures bmesh.faces == old(bmesh.faces)
        + [QuadFace(|old(bmesh.verts)|, Dot(rightVector, xVector) > 0.0, Dot(upVector, yVector) > 0.0)]
      ensures bmesh.uvs == old(bmesh.uvs) + [ZeroUVs(4)]
    {
      var xPositive := Dot(rightVector, xVector) > 0.0;
      var yPositive := Dot(upVector, yVector) > 0.0;
      var vtx1 := bmesh.NewVert(position);
      var vtx2 := bmesh.NewVert(Add(position, yVector));
      var vtx3 := bmesh.NewVert(Add(Add(position, xVector), yVector));
      var vtx4 := bmesh.NewVert(Add(position, xVector));
      var faceOrder := [vtx1, vtx2, vtx3, vtx4];
      if xPositive == yPositive {
        faceOrder := [vtx1, vtx4, vtx3, vtx2];
      }
      faceIndex := bmesh.NewFace(faceOrder);
      tree := MeshGeometry(bmesh.verts, bmesh.faces);
    }

    /**
     * The paint-over branch of a build click: records the hit location in
     * the history, re-maps the hit face's UVs and flows the cursor over it.
     */
    method PaintOverHit(scene: Scene, up: Vec3, right: Vec3, h: MeshHit)
      requires Valid() && scene.Settings() && h.faceIndex < |tree.faces|
      modifies this`virtualCursor, bmesh, scene`cursorLocation
      ensures Valid()
      ensures bmesh.verts == old(bmesh.verts) && bmesh.faces == old(bmesh.faces)
      ensures virtualCursor == AddSample(old(virtualCursor), h.location)
      ensures bmesh.uvs == if scene.texture.None? then old(bmesh.uvs) else old(bmesh.uvs)[h.faceIndex :=
        FaceUVs(FacePositions(bmesh.verts, bmesh.faces[h.faceIndex]), right, up,
                ScaleOf(scene.worldPixels, scene.gridX, scene.gridY, scene.texture.value), scene.tile)]
      ensures scene.cursorLocation == if scene.cursorFlow then
        FlowTarget(virtualCursor, FacePositions(bmesh.verts, bmesh.faces[h.faceIndex]), h.location,
                   old(scene.cursorLocation))
        else old(scene.cursorLocation)
    {
      AddVirtualCursor(h.location);
      var _ := UvMapFace(bmesh, up, right, scene.tile, h.faceIndex,
                         scene.worldPixels, scene.gridX, scene.gridY, scene.texture);
      if scene.cursorFlow {
        FlowCursor(scene, h.faceIndex, h.location);
      }
    }

    /**
     * Builds a quad at `position` with edges x and y and UV maps it: the
     * vertices and face of BuildFace, then the face's UVs are those of the
     * selected tile when there is a texture, zero otherwise.
     */
    method BuildMappedFace(scene: Scene, up: Vec3, right: Vec3, position: Vec3, x: Vec3, y: Vec3)
        returns (faceIndex: nat)
      requires Valid() && scene.Settings()
      modifies this`tree, bmesh
      ensures Valid()
      ensures var xPositive, yPositive := Dot(right, x) > 0.0, Dot(up, y) > 0.0;
        var q := QuadVerts(position, x, y, xPositive, yPositive);
        && faceIndex == |old(bmesh.faces)|
        && bmesh.verts == old(bmesh.verts) + NewVertices(position, x, y)
        && bmesh.faces == old(bmesh.faces) + [QuadFace(|old(bmesh.verts)|, xPositive, yPositive)]
        && FacePositions(bmesh.verts, bmesh.faces[faceIndex]) == q
        && bmesh.uvs == old(bmesh.uvs) + [if scene.texture.None? then ZeroUVs(4) else
             FaceUVs(q, right, up, ScaleOf(scene.worldPixels, scene.gridX, scene.gridY, scene.texture.value),
                     scene.tile)]
    {
      ghost var q := QuadVerts(position, x, y, Dot(right, x) > 0.0, Dot(up, y) > 0.0);
      var oldVerts := bmesh.verts;
      faceIndex := BuildFace(position, x, y, up, right);
      QuadFacePositions(oldVerts, position, x, y, Dot(right, x) > 0.0, Dot(up, y) > 0.0);
      assert FacePositions(bmesh.verts, bmesh.faces[faceIndex]) == q;
      ghost var builtUVs := bmesh.uvs;
      var _ := UvMapFace(bmesh, up, right, scene.tile, faceIndex,
                         scene.worldPixels, scene.gridX, scene.gridY, scene.texture);
      assert scene.texture.Some? ==> bmesh.uvs == builtUVs[faceIndex :=
        FaceUVs(q, right, up, ScaleOf(scene.worldPixels, scene.gridX, scene.gridY, scene.texture.value), scene.tile)];
    }

    /**
     * The build branch of a build click, given the plane point and the
     * snapped cell (corner `position`, edges x and y): records the point in
     * the history, builds a quad on the cell, UV maps it and flows the
     * cursor over it. Returns the new face's index.
     */
    method BuildOnPlane(scene: Scene, up: Vec3, right: Vec3, point: Vec3, position: Vec3, x: Vec3, y: Vec3)
        returns (faceIndex: nat)
      requires Valid() && scene.Settings()
      modifies this`virtualCursor, this`tree, bmesh, scene`cursorLocation
      ensures Valid()
      ensures var xPositive, yPositive := Dot(right, x) > 0.0, Dot(up, y) > 0.0;
        var q := QuadVerts(position, x, y, xPositive, yPositive);
        && faceIndex == |old(bmesh.faces)|
        && bmesh.verts == old(bmesh.verts) + NewVertices(position, x, y)
        && bmesh.faces == old(bmesh.faces) + [QuadFace(|old(bmesh.verts)|, xPositive, yPositive)]
        && bmesh.uvs == old(bmesh.uvs) + [if scene.texture.None? then ZeroUVs(4) else
             FaceUVs(q, right, up, ScaleOf(scene.worldPixels, scene.gridX, scene.gridY, scene.texture.value),
                     scene.tile)]
        && virtualCursor == AddSample(old(virtualCursor), point)
        && scene.cursorLocation == if scene.cursorFlow then
             FlowTarget(virtualCursor, q, point, old(scene.cursorLocation))
           else old(scene.cursorLocation)
    {
      AddVirtualCursor(point);
      faceIndex := BuildMappedFace(scene, up, right, position, x, y);
      if scene.cursorFlow {
        FlowCursor(scene, faceIndex, point);
      }
    }

    /**
     * One build-mode click. A mesh hit that passes the paint-over test
     * re-maps the hit face's UVs (and flows the cursor over it);
     * otherwise the ray's point on the paint plane, when there is one, is
     * snapped to its grid cell, a quad is built on the cell and UV mapped
     * (and the cursor flows over it). The plane point or the hit location
     * is recorded in the history first.
     */
    method ExecuteBuild(scene: Scene, hit: Option<MeshHit>, planePoint: Option<Vec3>)
        returns (outcome: BuildOutcome)
      requires Valid()
      requires hit.Some? ==> hit.value.faceIndex < |tree.faces|
      requires planePoint.Some? || (hit.Some? && PaintsOver(scene.Frame().normal, hit.value.normal, hit.value.planeDistance))
        ==> scene.Settings()
      modifies this`virtualCursor, this`tree, bmesh, scene`cursorLocation
      ensures Valid()
      ensures var f := old(scene.Frame());
        if hit.Some? && PaintsOver(f.normal, hit.value.normal, hit.value.planeDistance) then
          outcome == PaintedOver(hit.value.faceIndex)
        else if planePoint.None? then
          && outcome == Missed
          && bmesh.verts == old(bmesh.verts) && bmesh.faces == old(bmesh.faces) && bmesh.uvs == old(bmesh.uvs)
          && virtualCursor == old(virtualCursor) && scene.cursorLocation == old(scene.cursorLocation)
        else
          outcome == Built(|old(bmesh.faces)|)
      ensures var f := old(scene.Frame());
        hit.Some? && PaintsOver(f.normal, hit.value.normal, hit.value.planeDistance) ==>
        var i := hit.value.faceIndex;
        && bmesh.verts == old(bmesh.verts) && bmesh.faces == old(bmesh.faces)
        && virtualCursor == AddSample(old(virtualCursor), hit.value.location)
        && bmesh.uvs == (if scene.texture.None? then old(bmesh.uvs) else old(bmesh.uvs)[i :=
             FaceUVs(FacePositions(bmesh.verts, bmesh.faces[i]), f.right, f.up,
                     ScaleOf(scene.worldPixels, scene.gridX, scene.gridY, scene.texture.value), scene.tile)])
        && scene.cursorLocation == (if scene.cursorFlow then
             FlowTarget(virtualCursor, FacePositions(bmesh.verts, bmesh.faces[i]), hit.value.location,
                        old(scene.cursorLocation))
           else old(scene.cursorLocation))
      ensures var f := old(scene.Frame());
        !(hit.Some? && PaintsOver(f.normal, hit.value.normal, hit.value.planeDistance)) && planePoint.Some? ==>
        var g := GridPos(planePoint.value, old(scene.cursorLocation), f.right, f.up,
                         scene.worldPixels, scene.gridX, scene.gridY);
        var q := QuadVerts(g.pos, g.right, g.up, Dot(f.right, g.right) > 0.0, Dot(f.up, g.up) > 0.0);
        && bmesh.verts == old(bmesh.verts) + NewVertices(g.pos, g.right, g.up)
        && bmesh.faces == old(bmesh.faces)
             + [QuadFace(|old(bmesh.verts)|, Dot(f.right, g.right) > 0.0, Dot(f.up, g.up) > 0.0)]
        && bmesh.uvs == old(bmesh.uvs) + [if scene.texture.None? then ZeroUVs(4) else
             FaceUVs(q, f.right, f.up, ScaleOf(scene.worldPixels, scene.gridX, scene.gridY, scene.texture.value),
                     scene.tile)]
        && virtualCursor == AddSample(old(virtualCursor), planePoint.value)
        && scene.cursorLocation == (if scene.cursorFlow then
             FlowTarget(virtualCursor, q, planePoint.value, old(scene.cursorLocation))
           else old(scene.cursorLocation))
    {
      var frame := scene.Frame();
      var upVector, rightVector, planeNormal := frame.up, frame.right, frame.normal;
      if hit.Some? {
        if PaintsOver(planeNormal, hit.value.normal, hit.value.planeDistance) {
          PaintOverHit(scene, upVector, rightVector, hit.value);
          return PaintedOver(hit.value.faceIndex);
        }
      }
      if planePoint.None? {
        return Missed;
      }
      var g := GridPos(planePoint.value, scene.cursorLocation, rightVector, upVector,
                       scene.worldPixels, scene.gridX, scene.gridY);
      var faceIndex := BuildOnPlane(scene, upVector, rightVector, planePoint.value, g.pos, g.right, g.up);
      return Built(faceIndex);
    }

    /**
     * Snaps the 3D cursor. Grid snapping moves it to the corner of the grid
     * cell holding the ray's point on the paint plane; vertex snapping
     * moves it to the first vertex, of the face nearest to the ray's hit,
     * that is nearest to the nearest point found. With no plane point, no
     * hit or no nearest point the cursor stays.
     */
    method CursorSnap(scene: Scene, mode: SnapMode, planePoint: Option<Vec3>, rayHit: Option<Vec3>,
                      nearest: Option<NearestHit>)
      requires Valid()
      requires mode == GridSnap && planePoint.Some? ==> scene.worldPixels > 0.0 && scene.gridX > 0.0 && scene.gridY > 0.0
      requires nearest.Some? ==> nearest.value.faceIndex < |tree.faces|
      modifies scene`cursorLocation
      ensures mode == GridSnap && planePoint.Some? ==>
        var f := scene.Frame();
        scene.cursorLocation == GridPos(planePoint.value, old(scene.cursorLocation), f.right, f.up,
                                        scene.worldPixels, scene.gridX, scene.gridY).pos
      ensures mode == VertexSnap && rayHit.Some? && nearest.Some? ==>
        var ps := FacePositions(bmesh.verts, bmesh.faces[nearest.value.faceIndex]);
        exists i :: IsFirstNearest(ps, nearest.value.location, i) && scene.cursorLocation == ps[i]
      ensures (mode == GridSnap && planePoint.None?) || (mode == VertexSnap && (rayHit.None? || nearest.None?)) ==>
        scene.cursorLocation == old(scene.cursorLocation)
    {
      var frame := scene.Frame();
      var upVector, rightVector := frame.up, frame.right;
      match mode
      case GridSnap =>
        if planePoint.None? {
          return;
        }
        var g := GridPos(planePoint.value, scene.cursorLocation, rightVector, upVector,
                         scene.worldPixels, scene.gridX, scene.gridY);
        scene.cursorLocation := g.pos;
      case VertexSnap =>
        if rayHit.None? || nearest.None? {
          return;
        }
        var ps := FacePositions(bmesh.verts, bmesh.faces[nearest.value.faceIndex]);
        var closestVtx := NearestVertex(ps, nearest.value.location);
        if closestVtx != -1 {
          scene.cursorLocation := ps[closestVtx];
        }
    }
  }
}
