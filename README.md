# OpenStreetMap buildings and roads to mesh inputs — a Dafny model

This project models the data-handling core of a small tool. The tool downloads
OpenStreetMap elements from the Overpass API around a location and turns them into
Speckle geometry: extruded building meshes and buffered road polylines. The model covers
what happens between the download and the geometry kernels.

- **Overpass answers.** The elements the answer holds, and how `get_buildings` and
  `get_roads` sort them into tagged ways, way pieces kept for relations, relations and
  untagged nodes. This includes the nested `try`/`except` chains that decide which tags are
  stored, and the `KeyError` a relation without the keyword raises.
- **Relations.** How a building relation's outer way pieces are stitched into one ring,
  each piece reversed when it does not continue the ring and shared nodes dropped. How its
  inner pieces become holes. How a road relation is split into one way per way member.
- **Per-shape data.** What each building or road is drawn from:
  - the height of a building, parsed from its height, levels or layer tag;
  - the projected points of its outer ring and its holes;
  - for a road, the closed flag and the buffer width (9, 6 or 2), and whether it is
    skipped as an area.
- **Geometry helpers** (`utils/utils_geometry.py`):
  - the orientation test that reverses a face's index list;
  - the twelve numbers of a side face;
  - the bookkeeping of `to_triangles`: dropping vertices that round alike, interning the
    triangle corners into one vertex pool, and retrying with coarser rounding.
- **String and list utilities** (`utils/utils_other.py`): `clean_string`, `fill_list`
  and the ARGB colour constants.

The modules follow the source's files:

- `Common`: Option/Result, points and small sequence helpers.
- `UtilsOther`.
- `Orientation` and `Triangulation`, both for `utils_geometry.py`.
- For `utils_osm.py`:
  - `OsmFeatures`: the element records, stored tags and node lookups shared by both
    functions;
  - `OsmStitch`: joining way pieces;
  - `OsmBuildings`;
  - `OsmRoads`.

Loops of the source are methods with loop invariants. Each is proved equal to a
function, and the properties are lemmas about those functions. `fill_list`, which appends
to the list it is given, is a class `Sublists` whose field `lists` the method extends.
`fix_orientation`, which reverses a list in place, works on an `array`.

Some behaviour of the code as written, which the model keeps:

- **`clean_string` cuts at characters.** It cuts its argument at the first occurrence of
  *each character* of the literal string `/[^\d.-]/g, ''`. It does not apply that regular
  expression. So "12.5" becomes "12", "12 m" becomes "12", any text starting with `-` becomes
  "", and no cleaned string contains `.` or `-`.
- **Heights.**
  - A height tag that does not parse leaves the default 9, because the stored dictionary
    holds only one of height/levels/layer.
  - The negation for a negative layer can never happen, because no cleaned string contains
    `-`.
  - Every height the model produces is therefore non-negative. In the source a height tag
    `nan` passes `clean_string` unchanged and `float` turns it into NaN, which the model
    does not represent (see "## Left out").
- **The 9-metre default.** When no tag parses, the height is 9.
- **Repeated outer members.** A building relation moves each used way piece to the end of
  the list rather than removing it. So an outer member listed twice is found again. It then
  adds its nodes not yet in the ring, plus its last node, which is added even when the ring
  already holds it: an outer `[a,b,c]` listed twice gives the ring `[a,b,c,a]`.
- **Repeated road members.** A road relation removes each used piece. So a way member listed
  a second time yields an empty way.
- **Empty way pieces.** A way piece with no nodes, joined onto a non-empty ring, makes
  `node_list[0]` raise. The model returns the error `EmptyWayPart`.

## Model

| member | source | states |
|---|---|---|
| UtilsOther.CleanString | utils/utils_other.py:29-34 | The result equals `Cleaned(text)`. It is a prefix of `text` and contains no character of the symbol string. When it is shorter, the next character of `text` is one of the symbols, so it is the longest such prefix. |
| UtilsOther.CleanedUpTo | utils/utils_other.py:30-33 | If position `n` is the first symbol of `text` (or the end), the cleaned string is exactly `text[..n]`. |
| UtilsOther.CleanedIdentity | utils/utils_other.py:29-34 | A string with none of the symbol characters is returned unchanged. |
| UtilsOther.CleanedIdempotent | utils/utils_other.py:29-34 | Cleaning a cleaned string changes nothing. |
| UtilsOther.CleanedHasNoMinus | utils/utils_other.py:30-33 | No cleaned string contains `-`. |
| UtilsOther.CleanedExamples | utils/utils_other.py:29-34 | "12.5"→"12", "-1"→"", "12 m"→"12", "3d"→"3", "25"→"25". |
| UtilsOther.Sublists.FillList | utils/utils_other.py:37-51 | For a list without equal neighbours, the sublists `fill_list` appends are exactly `Fill(vals)`, after the lists already there, which are unchanged. |
| UtilsOther.Fill | utils/utils_other.py:37-51 | Every appended sublist is duplicate-free, has at least 2 elements, and holds only elements of `vals`. |
| UtilsOther.FillShort | utils/utils_other.py:38-41 | With at most one value nothing is appended. |
| UtilsOther.FillRepeatFree | utils/utils_other.py:43-45 | A repeat-free list of length ≥ 2 yields exactly one sublist, the list itself. |
| UtilsOther.FillExample | utils/utils_other.py:37-51 | `[a,b,c,b,d]` with distinct letters yields `[[a,b,c],[c,b,d]]`: the restart at the repeat begins one element back. |
| UtilsOther.RecursesOnItself | utils/utils_other.py:46-50 | The first recursive call is on the very same list and lists exactly when the first two values are equal. |
| UtilsOther.AdjacentRepeatNeverReturns | utils/utils_other.py:43-50 | For any list with two equal neighbours, wherever they are, following the first recursive call from call to call reaches a call whose first recursive call is on its own arguments. So `fill_list` never returns. |
| UtilsOther.ArgbChannels | utils/utils_other.py:9-11 | `(a<<24)+(r<<16)+(g<<8)+b` of four bytes fits in 32 bits, and each byte is recovered by shifting and masking. |
| UtilsOther.ColorChannels | utils/utils_other.py:9-11 | COLOR_ROAD, COLOR_BLD and COLOR_VISIBILITY pack (255,50,50,50), (255,230,230,230) and (255,255,10,10); COLOR_BLD has alpha 255 and blue 230. |
| Orientation.FixOrientation | utils/utils_geometry.py:8-23 | The flag is true exactly when the edge sum is ≥ 0, which is exactly when the shoelace signed area is ≤ 0. The index array is reversed in place when the flag is false and untouched otherwise. |
| Orientation.EdgeSumIsMinusTwiceArea | utils/utils_geometry.py:9-17 | The sum `Σ (x₂−x₁)(y₂+y₁)` over the closed ring equals minus twice the signed area. |
| Orientation.EdgeSumReversed | utils/utils_geometry.py:9-21 | Reversing the ring negates the edge sum, so a reversed ring gets the opposite verdict. |
| Orientation.EdgeSumRotated | utils/utils_geometry.py:10-17 | Starting the ring at its second point leaves the edge sum unchanged. |
| Orientation.EdgeSumRotatedBy | utils/utils_geometry.py:10-17 | Starting the ring at any of its points (`ring[k..] + ring[..k]`) leaves the edge sum unchanged, so the verdict does not depend on where the ring starts. |
| Orientation.ReverseInPlace | utils/utils_geometry.py:20-21 | The array afterwards holds its old contents in reverse order. |
| Orientation.SideFace | utils/utils_geometry.py:26-42 | Exactly 12 numbers, the vertices (pᵢ,0), (p_next,0), (p_next,h), (pᵢ,h) in that order, with Python's negative index allowed for `i`. |
| Orientation.TriplesOfFlatten | utils/utils_geometry.py:28-41 | Grouping a flattened vertex list into triples gives the vertices back. |
| Orientation.FlattenOfTriples | utils/utils_geometry.py:28-41 | A flat list whose length is a multiple of 3 is the flattening of its triples. |
| Triangulation.DedupRingKept | utils/utils_geometry.py:53-60 | The kept vertices are an order-preserving subsequence of the ring, empty only for an empty ring, and always end with the ring's last vertex. |
| Triangulation.DedupRingRecords | utils/utils_geometry.py:57-60 | The rounded pairs recorded are the earlier ones followed by the rounding of every kept vertex except the last. |
| Triangulation.DedupRingNoDup | utils/utils_geometry.py:57-60 | A duplicate-free record of rounded pairs stays duplicate-free. |
| Triangulation.DedupRingCovers | utils/utils_geometry.py:57-60 | Nothing recorded is forgotten, and the rounding of every vertex but the last is in the final record. |
| Triangulation.DedupRingFirstWins | utils/utils_geometry.py:57-60 | The vertices kept before the last are exactly `FirstOfClass`: a vertex is dropped exactly when its rounding is in the record it started from or is the rounding of an earlier vertex. So of vertices that round alike, the first wins. |
| Triangulation.FirstOfClassCons | utils/utils_geometry.py:57-60 | The first-wins rule read from the front: the leading vertex is tested against the record alone, and its rounding joins the record for the rest. |
| Triangulation.DedupRingLoop | utils/utils_geometry.py:53-60 | The loop computes `DedupRing` of the ring: the kept vertices and the rounded pairs. |
| Triangulation.DedupHolesSpec | utils/utils_geometry.py:62-77 | One hole per inner ring. Each hole is that ring deduplicated against the rounded pairs of all earlier holes, which stay duplicate-free. |
| Triangulation.DedupHolesLoop | utils/utils_geometry.py:62-77 | The nested loops compute `DedupHoles` with one record shared by all holes. |
| Triangulation.PoolTriangle | utils/utils_geometry.py:117-133 | One triangle adds only its own corners to a duplicate-free pool, keeps it duplicate-free and extends it. It gets min(3, ring length) indices, each pointing at its corner. |
| Triangulation.VertexPool | utils/utils_geometry.py:115-135 | `{vertices, triangles}` is a pool of the triangles; its vertex order, first appearance in the source, is not stated. Its vertices are duplicate-free and are all corners. Each triangle has one index per corner (the closing fourth point skipped), pointing at that corner. |
| Triangulation.TryAttempt | utils/utils_geometry.py:49-113 | One attempt hands the rings, deduplicated with `digits = 3 - attempt`, to the triangulator. An empty single hole counts as no holes. |
| Triangulation.ToTriangles | utils/utils_geometry.py:45-143 | The result is None exactly when every attempt from `attempt` to 3 fails. Otherwise it is a pool (as VertexPool states it) of the first attempt that succeeds, with that attempt's number. The order of the pool's vertices is not fixed by the contract. |
| OsmFeatures.StoredTags | utils/utils_osm.py:69-93 | None exactly when the tags or the keyword are missing; otherwise the stored dictionary holds the keyword. |
| OsmFeatures.StoredTagsFirst | utils/utils_osm.py:69-93 | The first key of the chain that is present is stored beside the keyword. |
| OsmFeatures.StoredTagsNone | utils/utils_osm.py:92-93 | With no key of the chain present, only the keyword is stored. |
| OsmFeatures.FindNode | utils/utils_osm.py:280-286 | None exactly when no node has the id; otherwise the first node with it. |
| OsmFeatures.LookupNode | utils/utils_osm.py:280-286 | The search loop with its `break` finds `FindNode`. |
| OsmFeatures.ResolveSpec | utils/utils_osm.py:277-286 | At most one point per id. Exactly one per id, the projection of its node in order, when every id has a node. Every point projects a node of one of the ids. |
| OsmFeatures.ResolveChain | utils/utils_osm.py:277-286 | The loop resolves the chain without its last id. |
| OsmStitch.FindPart | utils/utils_osm.py:159-163 | None exactly when no piece has the ref; otherwise the first position. |
| OsmStitch.SearchPart | utils/utils_osm.py:159-163 | The search loop finds `FindPart`. |
| OsmStitch.MoveToEnd | utils/utils_osm.py:178-179 | `pop(k)` then `append`: the same pieces, the k-th now last and the others in order. |
| OsmStitch.MoveToEndKeepsLookups | utils/utils_osm.py:178-179 | With unique ids, moving a piece changes no lookup by id and keeps the ids unique. |
| OsmStitch.Oriented | utils/utils_osm.py:165-170 | The piece is reversed only when the ring is non-empty and its end is not the piece's first node. A piece that touches the ring then starts at the ring's end. |
| OsmStitch.KeepNew | utils/utils_osm.py:171-175 | An order-preserving subsequence of the piece that keeps its last node and every other node not yet in the ring, and nothing before the last that is. Its length is one more than the number of positions before the last whose node is new, repeats counted, which fixes the result even when the piece repeats a node. |
| OsmStitch.KeepNewClosedPiece | utils/utils_osm.py:171-175 | A closed way `[1,3,2,1]` joined onto the ring `[10,11]` is kept whole, its first node included. |
| OsmStitch.Attach | utils/utils_osm.py:165-168 | Attaching fails exactly when a piece with no nodes meets a non-empty ring. |
| OsmStitch.AttachSpec | utils/utils_osm.py:165-177 | The ring grows by at most the piece and ends at one end of the piece. Nothing added before the last is already in the ring. A first piece is taken whole. |
| OsmStitch.OuterStepSpec | utils/utils_osm.py:159-181 | An absent ref changes nothing. A found piece is moved to the end; the ring only grows and the pieces are permuted. |
| OsmStitch.AttachRef | utils/utils_osm.py:159-181 | The search-and-attach loop for one ref computes `OuterStep`. |
| OsmStitch.StitchOuterSpec | utils/utils_osm.py:157-181 | Over all outer refs the ring only grows and the pieces stay a permutation. |
| OsmStitch.StitchOuterLoop | utils/utils_osm.py:157-181 | The loop over the outer members computes `StitchOuter` from an empty ring. |
| OsmStitch.StitchInnerSpec | utils/utils_osm.py:183-208 | With unique piece ids: one hole per inner ref, holding the nodes of the piece with that id (empty when none), and the pieces stay a permutation, their ids still unique. |
| OsmStitch.StitchInnerLoop | utils/utils_osm.py:183-208 | The loop over the inner members computes `StitchInner`. |
| OsmBuildings.BuildingTagPrecedence | utils/utils_osm.py:69-93 | The precedence of the stored tags: height, else building:levels under "levels", else layer, else the building value alone, and nothing when the building value is missing. |
| OsmBuildings.RederiveStoredTags | utils/utils_osm.py:211-235 | Re-deriving a relation's stored dictionary with the second chain gives it back unchanged. |
| OsmBuildings.MemberRefs | utils/utils_osm.py:127-138 | At most one ref per member, each the ref of a way member with that role. |
| OsmBuildings.MemberWays | utils/utils_osm.py:127-141 | The member loop collects the outer and inner refs. |
| OsmBuildings.ClassifyError | utils/utils_osm.py:104-125 | The loop raises exactly when some relation lacks tags or the building tag. |
| OsmBuildings.ClassifyErrorAt | utils/utils_osm.py:104-125 | The error names the first such relation's missing key: "tags" or "building". |
| OsmBuildings.ClassifiedShape | utils/utils_osm.py:62-150 | Every way is either a building way with its tags or a piece. There is one outer list, inner list and tag dictionary per relation. Building ways have no holes, and every stored dictionary has the stored form. |
| OsmBuildings.CollectFeatures | utils/utils_osm.py:62-150 | The element loop raises exactly `ClassifyError`, and otherwise yields `Classified`. |
| OsmBuildings.JoinRelationSpec | utils/utils_osm.py:153-235 | A joined relation has one hole per inner member and keeps its stored tags; the pieces are only permuted. |
| OsmBuildings.StitchRelationsSpec | utils/utils_osm.py:153-235 | One shape per relation, with as many holes as inner members, and the relation tags in order; the pieces are only permuted. |
| OsmBuildings.JoinRelationLoop | utils/utils_osm.py:153-235 | One round of the relation loop computes `JoinRelation`. |
| OsmBuildings.BuildRelations | utils/utils_osm.py:153-235 | The relation loop appends every relation's shape and tags after the building ways, or stops at the first error. |
| OsmBuildings.ParseNumberDigits | utils/utils_osm.py:254 | `float` of a string of decimal digits is its decimal value. |
| OsmBuildings.ResolveHeightSpec | utils/utils_osm.py:251-273 | The parsed height wins, else three times the parsed levels, else 9. |
| OsmBuildings.HeightNonNegative | utils/utils_osm.py:251-273 | No height is negative. |
| OsmBuildings.UnparsableHeightIsDefault | utils/utils_osm.py:251-273 | A building whose height tag does not parse gets 9, even when it also has levels. |
| OsmBuildings.HeightTagExample | utils/utils_osm.py:254 | A height of "12.5" gives 12. |
| OsmBuildings.PaddedHeightExample | utils/utils_osm.py:254 | A height of a vertical tab followed by "12" gives 12: `clean_string` keeps the tab and `float` strips it. |
| OsmBuildings.LevelsExample | utils/utils_osm.py:258-261 | 4 levels give 12 metres. |
| OsmBuildings.NegativeLayerExample | utils/utils_osm.py:263-271 | A layer of "-1" leaves the default 9. |
| OsmBuildings.ResolveInner | utils/utils_osm.py:289-301 | One point list per hole, each the hole's chain resolved without its last id. |
| OsmBuildings.ResolveShape | utils/utils_osm.py:247-321 | One round of the second loop yields the way's outer points, hole points, height and building value. |
| OsmBuildings.ResolveShapes | utils/utils_osm.py:247-332 | The second loop yields one extrusion per shape, in order. |
| OsmBuildings.BuildingsSpec | utils/utils_osm.py:62-332 | One extrusion per building way and per relation. The building ways come first, in order, each extruded from its own nodes, tags and height. |
| OsmBuildings.BuildingsHeights | utils/utils_osm.py:251-273 | Every extrusion get_buildings produces has a non-negative height. |
| OsmBuildings.GetBuildings | utils/utils_osm.py:41-332 | The method computes `Buildings`: the loops, then the relation joining, then the extrusion inputs, or the first error. |
| OsmRoads.RoadTagsStored | utils/utils_osm.py:357-378 | A way keeps only its highway value, and a relation its highway and area values; both fail without a highway value. |
| OsmRoads.RederiveRoadTags | utils/utils_osm.py:414-423 | Re-deriving a relation's stored dictionary gives it back unchanged. |
| OsmRoads.WayRefs | utils/utils_osm.py:380-383 | At most one ref per member, each the ref of a way member. |
| OsmRoads.MemberWays | utils/utils_osm.py:380-386 | The member loop collects the way refs. |
| OsmRoads.ClassifyError | utils/utils_osm.py:370-378 | The loop raises exactly when some relation lacks tags or the highway tag. |
| OsmRoads.ClassifyErrorAt | utils/utils_osm.py:370-378 | The error names the first such relation's missing key. |
| OsmRoads.ClassifiedShape | utils/utils_osm.py:357-396 | Every way is a road way or a piece; there is one ref list per relation; way tags hold only the highway value and relation tags have the road form. |
| OsmRoads.CollectFeatures | utils/utils_osm.py:357-396 | The element loop raises exactly `ClassifyError`, and otherwise yields `Classified`. |
| OsmRoads.RemoveAt | utils/utils_osm.py:409 | `pop(k)`: one piece fewer, the others in order, the removed one the only loss. |
| OsmRoads.TakePartSpec | utils/utils_osm.py:404-411 | The nodes taken are those of the piece with the ref (none when absent). The piece is removed, so there is one piece fewer only when it was found. |
| OsmRoads.TakePartUnique | utils/utils_osm.py:404-411 | With unique ids, taking a piece leaves every other lookup unchanged and the taken ref finds nothing. |
| OsmRoads.SplitRelationSpec | utils/utils_osm.py:399-425 | A relation never fails. It becomes one way per way member, each with the relation's tags, and uses up only pieces it had. |
| OsmRoads.SplitRelationNodes | utils/utils_osm.py:399-425 | With unique piece ids: the m-th way holds the nodes of the piece with the m-th ref, or nothing when that ref appeared earlier. |
| OsmRoads.TakePartLoop | utils/utils_osm.py:404-411 | The search-and-pop loop computes `TakePart`. |
| OsmRoads.SplitRelationLoop | utils/utils_osm.py:402-425 | The member loop computes `SplitRelation`. |
| OsmRoads.SplitRelationsSpec | utils/utils_osm.py:399-425 | All relations give one way and one road-form tag dictionary per way member in total. |
| OsmRoads.SplitRelationsLoop | utils/utils_osm.py:399-425 | The relation loop appends the split ways and tags after the road ways. |
| OsmRoads.RoadInputsSpec | utils/utils_osm.py:357-425 | It fails exactly when a relation lacks a highway value. Otherwise the road ways come first, in order, then one way per way member; every tag dictionary has the road form, and the nodes are those without a highway tag. |
| OsmRoads.GetRoadInputs | utils/utils_osm.py:344-425 | The two loops compute `RoadInputs`. |
| OsmRoads.BufferWidth | utils/utils_osm.py:444-448 | The width is 9 exactly for primary, 6 exactly for secondary and 2 exactly otherwise. |
| OsmRoads.RoadPoints | utils/utils_osm.py:456-460 | Closed exactly when the way is non-empty and its last id is its first. |
| OsmRoads.RoadPointsSpec | utils/utils_osm.py:456-467 | At most one point per id it uses, the last id not used when closed. Exactly those points, projected in order, when they all have nodes. |
| OsmRoads.RoadPointsLoop | utils/utils_osm.py:456-467 | The node loop computes the points and the closed flag. |
| OsmRoads.RoadsSpec | utils/utils_osm.py:440-467 | The way loop fails exactly when some way's tags lack the highway value. Otherwise it yields one road per way not tagged `area=yes`, each of width 2, 6 or 9. |
| OsmRoads.RoadsFromKeptWays | utils/utils_osm.py:440-467 | When the loop succeeds, the k-th road has the points and closed flag of the k-th way not tagged `area=yes`, and the buffer width of that way's highway value. |
| OsmRoads.RoadsLoop | utils/utils_osm.py:440-467 | The way loop computes `Roads`. |

## Left out

- The Overpass download (`get_features_from_osm_server`), `create_crs`, `reproject_to_crs` and `get_degrees_bbox_from_lat_lon_rad` are network and pyproj calls. The elements are an input sequence, and the projection is a function parameter `project`.
- The shapely, geovoronoi and geopandas work of `to_triangles` (utils/utils_geometry.py:80-113) is a foreign library. It is a parameter `triangulate` that returns the triangles or None when it raises.
- Python's `round` is a parameter `round`; how floats round is not modelled.
- `float()` is modelled for surrounding whitespace (the full set CPython strips), an optional sign, ASCII decimal digits and a decimal exponent. Fractions never reach it, since `clean_string` cuts at `.`. Some inputs are not modelled and read as unparsable here:
  - the spellings `inf`, `nan` and `infinity`;
  - underscores between digits;
  - decimal digits of other scripts, such as `١٢`, which CPython's `float` accepts.
- Floating point is real arithmetic throughout.
- OsmBuildings.HeightNonNegative and OsmBuildings.BuildingsHeights: hold for the model only. In the source a `nan` height tag survives `clean_string` and gives a NaN height, which is not non-negative.
- Triangulation.VertexPool and Triangulation.ToTriangles: the pool is fixed up to the order of its vertices. The source lists them in order of first appearance; the contracts state duplicate-freedom and the index property, not that order.
- `extrude_building`, `rotate_pt`, `join_roads`, `road_buffer`, `split_ways_by_intersection` and `create_flat_mesh` are not part of this model. The model stops at the arguments they receive.
  - So the rotation by `angle_rad` is not modelled.
  - `Roads` takes as its inputs the ways and tags that `split_ways_by_intersection` returns.
- The Speckle `Base` objects and the `obj is not None` filter are left out, since they depend on `extrude_building`.
- `get_nature` is not part of this model.
- Timing, `print`, and `datetime` are left out. So is the `UnboundLocalError` that the timing code at utils/utils_osm.py:318-319 raises when `angle_rad == 0`.
- Orientation.FixOrientation: models the default `coef = 1` only; `positive` is unused by the source.
- UtilsOther.Sublists.FillList: requires a list without equal neighbours. On any other list the calls reach one that recurses on its own arguments, as `AdjacentRepeatNeverReturns` shows.
  - CPython then raises `RecursionError` with `lsts` already extended; that is not modelled.
  - The return value is not modelled either: `None` when `len(vals) <= 1`, otherwise the caller's `lsts`.
- The `v not in vert` / `v not in holes` tests of `to_triangles` compare a dictionary against tuples and lists. They always hold, and are left out.
- The `k == len(ways_part)` guards at utils/utils_osm.py:160, 187 and 405 can never hold inside `enumerate`, and are left out. So is the `k -= 1` after them, which has no effect before `break`.
- Way elements are assumed to carry `id` and `nodes`, and node elements `id`, `lat` and `lon`. The answers Overpass returns always do, so the crash when they are missing is not modelled.
- OsmStitch.StitchInnerSpec, OsmStitch.MoveToEndKeepsLookups, OsmRoads.SplitRelationNodes and OsmRoads.TakePartUnique assume that no two way pieces share an id; the source never checks this.
  - The query `>; out skel qt` (utils/utils_osm.py:32) lists each way it recurses down to once, and only those untagged copies become pieces, so the assumption holds for the answers the source reads.
  - With two pieces that share an id, a repeated road member would get the second copy's nodes rather than nothing.
- OsmBuildings.ExtrusionOf, ResolveShape and ResolveShapes take the height function as a parameter. get_buildings always uses `ResolveHeight`, and `BuildingsSpec` and `GetBuildings` state it with that function.
