# Sprytile modal tool, modelled in Dafny

Sprytile is a Blender add-on for painting tile-based textures onto meshes.
Its modal tool (`sprytile_modal.py`) does four things:

- It snaps the view to a world axis to choose a paint plane.
- It snaps points on that plane to an infinite grid of cells.
- It builds quads on grid cells and UV maps faces so that they show one tile of the texture atlas.
- It keeps a short history of painted positions, the "virtual cursor". The history decides when painting has turned around, and it moves the 3D cursor along the painting direction ("cursor flow").

This project models that geometric core over exact `real` vectors and proves what it promises.

- `vectors.dfy`, module `Vectors`: 3-vectors, dot and cross products, and the algebra lemmas the other modules use.
- `grid.dfy`, module `SprytileGrid`: `snap_vector_to_axis`, `get_current_grid_vectors` and `get_grid_pos`. It proves the tie-breaking, sign and snapping properties of the grid.
- `cursor.dfy`, module `VirtualCursor`: the bounded history as values. This covers the sample rule, the painting direction, the flow cursor's choice of vertex and the nearest-vertex choice.
- `mesh.dfy`, module `SprytileMesh`: the edit mesh as a class with vertex, face and loop-UV arrays, plus `uv_map_face`. It proves that a cell-sized quad maps exactly onto one tile.
- `modal.dfy`, module `SprytileModal`: the scene settings the tool reads and writes, in class `Scene`. The tool object is class `ModalTool`, with methods `find_view_axis`, `add_virtual_cursor`, `get_virtual_cursor_vector`, `flow_cursor`, `build_face`, `execute_build` and `cursor_snap`. Each method is proved against the value-level functions of the modules above.

Conventions used throughout:

- Apart from `get_current_grid_vectors`, `normalize()` only ever feeds the sign of a dot product or a comparison. The model therefore uses the raw vectors, and lemmas justify the replacement:
  - `SnapVectorToAxisScaleInvariant` covers the axis snap;
  - `FlowScoreMeansForward` covers the flow score;
  - `MagnitudeOrder` covers comparing lengths.
  - `get_current_grid_vectors` returns normalized vectors whose lengths feed the grid and UV arithmetic. "## Left out" says how the model handles it.
- Lengths are compared as squared lengths. `magnitude < 0.1` becomes a squared length below 0.01.
- The edited object's world transform is the identity.

Where the code and its documented intent differ, the model follows the code:

- **Paint-over test** (`sprytile_modal.py:321-337`). The test is `|n·h − 1| < 0.05`. It accepts hit faces that face the *same* way as the plane normal, not opposite faces. A coplanar face with the opposite normal therefore never takes the paint-over path, and a new face is built over it (`PaintOverFacing`).
- **Cursor flow** (`sprytile_modal.py:242-252`). `max_dot` is never lowered, so every vertex scoring below 1 replaces the previous pick. The cursor goes to the *last* vertex ahead of it, not the best-aligned one (`LastForwardIndex`, `FlowCursor`).
- **Painting direction** (`sprytile_modal.py:221-230`). The direction is the summed steps divided by the number of samples, not by the number of steps. Only its sign is ever used (`DirectionSign`).
- **Grid snap re-query** (`sprytile_modal.py:14-19`). The axes are flipped toward the absolute sample position, not toward its offset from the grid centre.
  - The snapped corner lies on the grid: the centre plus whole cells along each edge (`GridPosOnGrid`).
  - Re-querying a snapped corner gives back the same corner (`GridPosIdempotent`).
  - The returned edge vectors can flip, though. This happens exactly when the sample and the corner lie on opposite sides of the plane through the world origin (`GridPosRightEdgeOnRequery`).
  - Example: centre (0,0,0), right axis +X, unit 1, sample (−0.5, 0, 0). The corner is (0,0,0) with edge −X. Re-querying at (0,0,0) gives edge +X.

## Model

| member | source | states |
|---|---|---|
| SprytileGrid.Misalignment | sprytile_modal.py:46-48 | an axis's score is 1 − \|v · axis\| for the axis as a unit vector |
| SprytileGrid.FirstMinimum | sprytile_modal.py:50-57 | the chosen score is at most each of the three scores and strictly below every earlier one: the first minimum, as `min` followed by the `is` tests picks it |
| SprytileGrid.ClosestAxis | sprytile_modal.py:44-57 | the chosen axis has the largest absolute component of the input; on a tie the earlier of X, Y, Z wins, because `min` returns the first minimum |
| SprytileGrid.DominantAxisUnique | sprytile_modal.py:44-57 | the dominance-with-priority rule picks exactly one axis |
| SprytileGrid.SnapVectorToAxis | sprytile_modal.py:38-65 | the result is plus or minus the closest axis; it is negated iff that component is < 0 (unmirrored) or > 0 (mirrored), so a zero component leaves it positive |
| SprytileGrid.SnapVectorToAxisScaleInvariant | sprytile_modal.py:40-48 | snapping the normalized vector (any positive rescaling) gives the same result as snapping the raw one |
| SprytileGrid.SnapDeterminedBySign | sprytile_modal.py:59-63 | two inputs with the same closest axis and the same sign along it snap to the same vector |
| SprytileGrid.SnapTieGoesToX | sprytile_modal.py:50-57 | (1,1,0) snaps to +X, or to −X when mirrored |
| SprytileGrid.GetCurrentGridVectors | sprytile_modal.py:87-99 | returns the stored up and normal, with a right vector perpendicular to both (`GridVectorsOrthonormal` gives the rest) |
| SprytileGrid.GridVectorsOrthonormal | sprytile_modal.py:87-99 | for an orthonormal stored normal and up, right and up are orthonormal, the normal is unit, and right × up is the normal |
| SprytileGrid.Toward | sprytile_modal.py:14-17 | the sign is ±1, it is +1 exactly when the axis's dot product with the position is ≥ 0 (a perpendicular axis is kept), and the axis times it never points away from the position |
| SprytileGrid.FlipToward | sprytile_modal.py:14-19 | the result is the axis or its reverse; its dot product with the position is non-negative; it is the axis itself whenever that dot product already is |
| SprytileGrid.GridPos | sprytile_modal.py:12-35 | each returned edge is the input axis, negated iff its dot product with the sample position is < 0, times grid size / world pixels |
| SprytileGrid.GridPosEdgesTowardSample | sprytile_modal.py:14-19 | both returned edges have non-negative dot product with the sample position |
| SprytileGrid.CellIndex | sprytile_modal.py:27-28 | for a positive unit, the floor index k satisfies k·unit ≤ magnitude < (k+1)·unit |
| SprytileGrid.CellIndexUnique | sprytile_modal.py:27-28 | k is the only integer with that bracket |
| SprytileGrid.GridPosOnGrid | sprytile_modal.py:19-31 | the returned corner is the centre plus a whole number of the returned right edges and a whole number of the returned up edges |
| SprytileGrid.GridPosIdempotent | sprytile_modal.py:12-35 | for orthonormal axes, re-snapping the returned corner with the same centre and axes returns that corner |
| SprytileGrid.GridPosContainsSample | sprytile_modal.py:12-35 | the sample lies in the half-open cell spanned from the corner by the two returned edges |
| SprytileGrid.GridPosRightEdgeOnRequery | sprytile_modal.py:14-17 | on re-query the right edge is unchanged iff the sample and the corner are on the same side of the plane through the origin; otherwise it is negated |
| SprytileGrid.ModeOf | sprytile_modal.py:191-196 | the mode is X iff the normal's x component is non-zero, Y iff x is zero and y is not, Z iff both are zero |
| SprytileGrid.SnappedFrame | sprytile_modal.py:181-196 | the snapped normal and up are perpendicular iff they snap to different axes; a perpendicular pair is orthonormal; the mode derived from the normal is its axis |
| VirtualCursor.KeepNewest | sprytile_modal.py:540 | the bounded deque keeps the newest `n` entries, as a suffix of what was appended |
| VirtualCursor.Direction | sprytile_modal.py:221-230 | zero with at most one sample; otherwise the direction times the sample count is the summed steps between samples |
| VirtualCursor.StepSum | sprytile_modal.py:226-228 | the summed steps of the history equal last − first, proved by induction through the recursive call |
| VirtualCursor.DirectionSign | sprytile_modal.py:215-216 | the dot product of the painting direction with any vector has the sign of (last − first) with it |
| VirtualCursor.AddSample | sprytile_modal.py:202-219 | the history is either unchanged, or ends with the new sample and holds at most 3 entries; a history of at most 3 never grows past 3 |
| VirtualCursor.AddSampleCases | sprytile_modal.py:202-219 | empty history: [p]; a step shorter than 0.1: unchanged; a reversing step: [p]; otherwise the newest 3 of history + [p]; the length never exceeds 3 |
| VirtualCursor.AddSampleKeepsSpacing | sprytile_modal.py:208-219 | if consecutive samples are at least 0.1 apart before a sample is added, they still are after |
| VirtualCursor.ReversalRestartsHistory | sprytile_modal.py:213-219 | for every point A, history [A, A + (1,0,0)], adding A, leaves [A] |
| VirtualCursor.Forward | sprytile_modal.py:246-250 | a vertex is ahead only if it differs from the origin and the direction is non-zero |
| VirtualCursor.LastForwardIndex | sprytile_modal.py:242-252 | the flow loop's pick: −1, or a vertex ahead of the cursor with no later vertex ahead |
| VirtualCursor.FlowScoreMeansForward | sprytile_modal.py:247-250 | for non-zero vectors, the score test \|1 − v̂·d̂\| < 1 holds iff the raw dot product is positive |
| VirtualCursor.FlowScoreAtOrigin | sprytile_modal.py:246-250 | a vertex at the cursor itself scores exactly 1 and is never picked |
| VirtualCursor.FirstNearestUnique | sprytile_modal.py:434-442 | the first vertex at the least distance is unique |
| VirtualCursor.MagnitudeOrder | sprytile_modal.py:210 | comparing lengths is comparing squared lengths |
| SprytileMesh.Median | sprytile_modal.py:137 | the median times the number of vertices is the sum of their positions |
| SprytileMesh.UvComponent | sprytile_modal.py:145-151 | for a non-zero UV unit, dividing the coordinate by the unit, subtracting the tile index and one half, and multiplying by the cell size gives back the distance along the axis |
| SprytileMesh.LoopUV | sprytile_modal.py:141-152 | inverted that way, a loop's u and v give back its vertex's offset from the median measured along right and along up |
| SprytileMesh.FaceUVs | sprytile_modal.py:136-152 | one UV per loop of the face |
| SprytileMesh.NewVertices | sprytile_modal.py:367-370 | four vertices from corner p forming a parallelogram: the second is p + y, the fourth p + x, and the third is x past the second and y past the fourth |
| SprytileMesh.QuadVerts | sprytile_modal.py:367-376 | the loop's four positions start at the corner p |
| SprytileMesh.QuadVertsPermutesNewVertices | sprytile_modal.py:367-376 | the loop visits exactly the four new vertices, each once, in either winding |
| SprytileMesh.ScaleOf | sprytile_modal.py:114-131 | with positive settings, the cell size in world units is positive on both axes |
| SprytileMesh.Mesh.constructor | sprytile_modal.py:545 | the edit mesh starts from well-formed vertex, face and loop-UV arrays |
| SprytileMesh.Mesh.NewVert | sprytile_modal.py:369-372 | appends one vertex and returns its index; nothing else changes |
| SprytileMesh.Mesh.NewFace | sprytile_modal.py:380 | appends one face over existing vertices with a UV per loop, and returns its index |
| SprytileMesh.UvMapFace | sprytile_modal.py:102-155 | an out-of-range face or a missing texture changes nothing; otherwise only that face's loop UVs change, each to the projection of its vertex about the face median onto the right and up axes, in tile units offset by the selected tile |
| SprytileMesh.MedianMapsToTileCentre | sprytile_modal.py:136-152 | a vertex at the face median maps to ((tile_x + 0.5)·uv_unit_x, (tile_y + 0.5)·uv_unit_y) |
| SprytileMesh.TileCentreExample | sprytile_modal.py:128-152 | 32-pixel cells on a 256-pixel texture with tile (2,1) map the median to (0.3125, 0.1875) |
| SprytileMesh.QuadMedian | sprytile_modal.py:137 | the median of a quad is its corner plus half of each edge |
| SprytileMesh.QuadMapsOntoTile | sprytile_modal.py:136-152 | a quad built on cell-sized edges along orthonormal right and up, in any quadrant, gets exactly the selected tile's four corners, counter-clockwise from the corner its quadrant picks |
| SprytileMesh.CellQuadMapsOntoTile | sprytile_modal.py:136-152 | the same for any edges that measure one cell along right and up |
| SprytileMesh.QuadVertexOnCorner | sprytile_modal.py:140-152 | each vertex of such a quad maps onto its tile corner |
| SprytileModal.PaintsOver | sprytile_modal.py:321-331 | a hit that passes the test has n·h > 0.95 |
| SprytileModal.PaintOverFacing | sprytile_modal.py:321-334 | a hit that passes the paint-over test has n·h > 0.95; a coplanar face with the plane's own normal passes; one with the opposite normal never does |
| SprytileModal.QuadFace | sprytile_modal.py:372-376 | the loop has four indices, each below n + 4 (`QuadFaceIndices` proves they are exactly the four new vertices, each once) |
| SprytileModal.QuadFaceIndices | sprytile_modal.py:372-376 | the loop uses each of the four new vertex indices exactly once |
| SprytileModal.QuadFacePositions | sprytile_modal.py:366-378 | the new face's vertex positions, in loop order, are p, p+x, p+x+y, p+y when the edge signs agree, else p, p+y, p+x+y, p+x |
| SprytileModal.QuadEdges | sprytile_modal.py:374-378 | the face's first two edges are x then y when the signs agree, y then x otherwise |
| SprytileModal.QuadFacesNormal | sprytile_modal.py:372-380 | in every quadrant, the cross product of the first two edges of a cell-sized quad is the plane normal times the cell area, so every built face faces along the paint normal |
| SprytileModal.BuiltCellMapsOntoTile | sprytile_modal.py:339-351 | a quad built on the snapped cell of any plane point, then UV mapped, covers the selected tile exactly, starting at the corner picked by the edge flips |
| SprytileModal.FlowTarget | sprytile_modal.py:232-255 | with at most one sample the cursor stays; otherwise it stays or moves onto one of the face's vertices |
| SprytileModal.FlowTargetAhead | sprytile_modal.py:232-255 | with two or more samples and some face vertex ahead of the origin along the direction, the cursor moves to the last such vertex; with fewer samples or no vertex ahead it stays where it is |
| SprytileModal.NearestVertex | sprytile_modal.py:434-442 | returns −1 iff the face has no vertices, otherwise the first vertex at the least distance (strict `<`) |
| SprytileModal.FrameAccepted | sprytile_modal.py:165-186 | a locked normal never accepts a frame; an accepted pair of unit vectors is orthonormal |
| SprytileModal.ViewAxisFrameFacts | sprytile_modal.py:181-196 | unlocked, the frame is replaced iff the view direction and the view up snap to different axes; a stored frame is orthonormal and its mode is the view direction's axis |
| SprytileModal.ModalTool.Invoke | sprytile_modal.py:540-546 | the tool starts with an empty history, the given mesh and a collision tree over it |
| SprytileModal.ModalTool.FindViewAxis | sprytile_modal.py:163-200 | locked, or with a snapped pair that is not perpendicular: nothing changes; otherwise the pair is stored, the mode is the first non-zero axis of the normal, and the history is cleared exactly when the mode changes |
| SprytileModal.ModalTool.AddVirtualCursor | sprytile_modal.py:202-219 | the history becomes AddSample(history, p) and keeps its bound and spacing |
| SprytileModal.ModalTool.Append | sprytile_modal.py:219 | appending to a full deque drops the oldest entry |
| SprytileModal.ModalTool.GetVirtualCursorVector | sprytile_modal.py:221-230 | the loop's result is zero for at most one sample, else (last − first) / length |
| SprytileModal.ModalTool.FlowCursor | sprytile_modal.py:232-255 | the cursor moves to FlowTarget: with two or more samples, the last face vertex ahead along the direction, else it stays |
| SprytileModal.ModalTool.BuildFace | sprytile_modal.py:357-388 | appends vertices p, p+y, p+x+y, p+x and one quad wound (1,4,3,2) when the edge signs agree, else (1,2,3,4); returns the old face count; rebuilds the tree; existing vertices and faces are unchanged |
| SprytileModal.ModalTool.PaintOverHit | sprytile_modal.py:330-337 | records the hit in the history, re-maps the hit face's UVs, and flows the cursor over it when flow is on |
| SprytileModal.ModalTool.BuildMappedFace | sprytile_modal.py:350-352 | appends the quad's vertices and face as BuildFace does; the face's positions in loop order are QuadVerts; its UVs are FaceUVs of those positions for the selected tile when there is a texture, zero otherwise |
| SprytileModal.ModalTool.BuildOnPlane | sprytile_modal.py:346-354 | given the snapped cell, records the plane point, builds and UV maps the quad, and flows the cursor over it when flow is on; the new mesh, history and cursor are stated in full |
| SprytileModal.ModalTool.ExecuteBuild | sprytile_modal.py:312-354 | a hit that passes the paint-over test paints over that face; otherwise no plane point changes nothing; otherwise a new quad is built on the plane point's cell; the effects of each case are stated in full |
| SprytileModal.ModalTool.CursorSnap | sprytile_modal.py:390-445 | grid mode moves the cursor to the corner of the plane point's cell; vertex mode moves it to the first nearest vertex of the nearest face; without a plane point, hit or nearest point it stays |

## Left out

- BVH trees (`BVHTree.FromBMesh`, `ray_cast`, `find_nearest`), `intersect_line_plane`, `distance_point_to_plane` and the `view3d_utils` ray construction are foreign library calls. Their results are inputs:
  - `MeshHit` carries the location, normal, face index and plane distance;
  - `NearestHit` carries the nearest point and its face;
  - the plane point is an `Option<Vec3>`.
  The collision tree is modelled as the geometry it was built from.
- The world transform (`matrix_world` and its inverse) is taken as the identity.
- `raycast_grid` (`sprytile_modal.py:68-85`) is its `get_grid_pos` call on the plane point, and is modelled inline in `ExecuteBuild`, which passes the snapped cell to `BuildOnPlane`.
- Floating-point rounding: arithmetic is exact. `normalize()` is dropped where only signs or orderings depend on it.
- `GetCurrentGridVectors` does not normalize the stored normal and up. It equals the source's result whenever they are unit vectors, which `FindViewAxis` maintains because every pair it stores is orthonormal.
- `execute_paint` and `execute_tool` (`sprytile_modal.py:272-310`) are left out, along with the material lookup. So are the Blender plumbing (`modal`, `handle_mouse`, `handle_keys`, the rest of `invoke`, `exit_modal`, timers, undo, `update_edit_mesh`, `register`/`unregister`) and the `tree is None` / `gui_use_mouse` early exits. None of these is geometric logic.
- `sprytile_utils.get_grid_texture` is not part of this model. Its result is an optional texture size.
- New faces' loop UVs start at (0, 0) until `uv_map_face` writes them. Blender's default is assumed.
- `face.normal_update`, `index_update` and `ensure_lookup_table` are left out: indices are sequence positions.
- SprytileGrid.GridPos: requires world pixels and grid sizes to be positive (`Scene.Settings`). The source divides by them unguarded.
- SprytileMesh.UvMapFace: requires world pixels to be positive, because the source divides by it before its early returns (`sprytile_modal.py:115-116`). For a face in range and a texture present, it also requires positive grid and texture sizes. The source divides by these at `sprytile_modal.py:128-129` and `sprytile_modal.py:145-146` and would raise ZeroDivisionError on a zero size.
- SprytileModal.ModalTool.ExecuteBuild: requires a hit's face index to name a face of the collision tree, which the raycast guarantees. On the paint-over and build paths it requires positive world pixels, grid sizes and texture size (`Scene.Settings`). The source needs only some of these: a paint-over without a texture divides only by world pixels. A click that misses needs none.
- SprytileModal.ModalTool.CursorSnap: requires the nearest point's face index to name a face of the collision tree, which the tree's query guarantees. Grid snapping with a plane point requires positive world pixels and grid sizes, which `get_grid_pos` divides by.
