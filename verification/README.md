# FenceWrangler fence builder — a Dafny model

FenceWrangler is a Unity editor tool. It builds a fence mesh along a path of
waypoints called *sections*. Each section names a shared style preset (a
`FenceData`). The preset sets the post spacing, post and picket sizes, the rail
tiers, the materials, and whether the fence follows the ground. This project
models the `Fence` component and its data classes:

- **The mesh build (`Fence.BuildFence`).** The build:
  - gathers the materials, de-duplicated;
  - walks the segments in order, clamping each segment's preset picket gap in
    place;
  - stops at a segment too short to build;
  - throws on a null preset or on a preset with fewer than three materials;
  - lays out posts, rails and pickets in straight or ground-following mode;
  - commits the buffers to the mesh.
- **The box primitive (`Fence.AddCube`).** It appends 24 vertices, 24 normals,
  24 UVs and 36 triangle indices to one submesh.
- **The editing operations.** These are `AddSection`, `RemoveSection`,
  `RemoveLastSection` and `ClampSelectionIndex`.
- **The preset and section records.** These are their defaults, constructors
  and property wrappers.

## How the model is set up

- **Presets.** Presets are shared by reference, so they live in a table that
  is passed to the build and returned updated. A section names its preset by
  index; `None` stands for C# `null`. The build's picket-gap clamp (`Mathf.Max`
  with 0.01) is therefore visible as a change to the table.
- **Exceptions.** The exceptions the code can raise are a `Fault`, either
  `NullReference` or `ArgumentOutOfRange`. A build that throws returns
  whatever state the fields held at that point: the statistics already reset,
  the mesh cleared, and the buffers and presets filled as far as the loop got.
- **Geometry.** Geometry is symbolic. A box carries a tag naming:
  - its part (post, rail or picket);
  - its segment, post and rail or picket number;
  - its lateral offset;
  - its dimensions.

  A vertex is a (box, corner) pair, and a normal is a (box, face) pair. UVs
  are computed exactly from the dimensions. Triangle indices are exact.
- **The outside world.** Everything that needs floating-point geometry or
  physics is a parameter of the build, a `World` record of functions:
  - `Vector3.Distance`;
  - the terrain raycast;
  - the rail obstruction raycast;
  - the rail and picket-row lengths of the ground layout.

  The straight-mode picket row length follows from the segment length by
  collinearity: `|L·(t(j+1) − t(j)) − postDepth|`.

### Behaviour worth knowing

- **Null presets throw.** A section with a null preset makes the build throw
  `NullReference`, for two reasons:
  - the material loop (`Fence.cs:179-189`) dereferences every section's preset;
  - so does the gap clamp (`Fence.cs:260`).

  Both run before the `if (fromSec.Data == null) continue;` at `Fence.cs:266`.
  That guard shows a null preset was meant to be skipped, but it can never
  fire. The model follows the code and throws.
- **Obstructed rails.** In the ground layout, one flag `railObstructed`
  (`Fence.cs:490`) is set by any tier whose obstruction raycast hits
  (`Fence.cs:532`). It then suppresses every picket of that post
  (`Fence.cs:539`). The per-rail field `obstructionPreventsPickets`
  (`FenceData.cs:33`) is stored by the `Rail` constructor and never read by
  the build.
- **Pickets after the final straight post.** The straight layout decides
  whether a post is the last one with a float equality, `j == L/S`
  (`Fence.cs:314`). When `L/S` is not a whole number, the final post also
  gets a row of pickets (`FractionalFinalPostGetsPickets`). When it is whole,
  the final post gets none (`WholeFinalPostHasNoPickets`).
- **The straight post counter.** The straight layout adds one to `totalPosts`
  for each of its `⌈L/S⌉+1` posts, then once more after the loop
  (`Fence.cs:375`).
- **Selection on an empty path.** `ClampSelectionIndex` on an empty path
  yields −1 for any index ≥ 0, because `Mathf.Clamp` compares with the lower bound
  first. Repeated calls then alternate between 0 and −1.

## Model

| member | source | states |
|---|---|---|
| Unity.Ceil | Assets/AshleySeric/FenceWrangler/Scripts/Fence.cs:270 | `Mathf.CeilToInt`: the least integer not below its argument |
| Unity.ClampInt | Assets/AshleySeric/FenceWrangler/Scripts/Fence.cs:634 | `Mathf.Clamp` on ints: a value below the minimum becomes the minimum; otherwise a value above the maximum becomes the maximum, even when the maximum is below the minimum |
| Unity.LerpEndpoints | Assets/AshleySeric/FenceWrangler/Scripts/Fence.cs:317-319 | the clamped lerp gives the start point for t ≤ 0 and the end point for t ≥ 1 |
| Unity.LerpTranslate | Assets/AshleySeric/FenceWrangler/Scripts/Fence.cs:412-432 | lerping between pivot-shifted corners and then subtracting the pivot is lerping the corners themselves |
| FenceDataModel.EnumEncodingsRoundTrip | Assets/AshleySeric/FenceWrangler/Scripts/FenceData.cs:44-48 | the three enums map to the integer codes 0 and 1 and back; no other code names a member |
| FenceDataModel.NewRail | Assets/AshleySeric/FenceWrangler/Scripts/FenceData.cs:36-41 | the rail constructor stores its three arguments |
| FenceDataModel.RailDefaults | Assets/AshleySeric/FenceWrangler/Scripts/FenceData.cs:36-41 | the rail constructor's default arguments are offset 0.5, width 0.07, obstruction flag off |
| FenceDataModel.NewFenceDataDefaults | Assets/AshleySeric/FenceWrangler/Scripts/FenceData.cs:57-117 | a new preset has the field initialisers' values: Farm, no conform, Inset joint, segment length 2, full lean, tilt and picket conform, three rails at 0.2/0.5/0.8 of width 0.1, and an empty material list; it lies within the inspector ranges |
| FenceDataModel.Set | Assets/AshleySeric/FenceWrangler/Scripts/FenceData.cs:123-317 | each property setter stores its value and changes no other property |
| FenceDataModel.GetDeterminesPreset | Assets/AshleySeric/FenceWrangler/Scripts/FenceData.cs:123-317 | two presets that agree on every property getter are equal |
| FenceDataModel.SetterLaws | Assets/AshleySeric/FenceWrangler/Scripts/FenceData.cs:123-317 | setting a property to its current value changes nothing, and a second set overrides the first |
| FenceDataModel.SettersIgnoreRanges | Assets/AshleySeric/FenceWrangler/Scripts/FenceData.cs:68-84 | the `[Range]` attributes only constrain the inspector: the setters store out-of-range values |
| FenceDataModel.ClampPicketGap | Assets/AshleySeric/FenceWrangler/Scripts/Fence.cs:258-260 | after the clamp the gap is at least 0.01; a gap already that large is untouched; only the gap changes |
| FenceDataModel.ClampPicketGapIdempotent | Assets/AshleySeric/FenceWrangler/Scripts/Fence.cs:260 | clamping a clamped preset changes nothing |
| FenceSectionModel.NewSection | Assets/AshleySeric/FenceWrangler/Scripts/FenceSection.cs:131-136 | the constructor sets the corner and the preset, sets the height modifier to 1, and keeps the field defaults for flip and length |
| FenceSectionModel.NewSectionOverridesCorner | Assets/AshleySeric/FenceWrangler/Scripts/FenceSection.cs:131-136 | the constructor always replaces the (1, 0, 0) corner default, so different positions give different sections |
| FenceSectionModel.Set | Assets/AshleySeric/FenceWrangler/Scripts/FenceSection.cs:50-126 | each property setter stores its value and changes no other property |
| FenceSectionModel.GetDeterminesSection | Assets/AshleySeric/FenceWrangler/Scripts/FenceSection.cs:50-126 | two sections that agree on every getter are equal |
| FenceSectionModel.SetterLaws | Assets/AshleySeric/FenceWrangler/Scripts/FenceSection.cs:50-126 | setting a property to its current value changes nothing, and a second set overrides the first |
| CubeMesh.CubeVertices | Assets/AshleySeric/FenceWrangler/Scripts/Fence.cs:665-695 | a box contributes 24 vertices, four per face, each one of its eight corners |
| CubeMesh.CubeTrianglesLocal | Assets/AshleySeric/FenceWrangler/Scripts/Fence.cs:793-819 | the 36 indices point into the box's own 24 vertices, and the six indices of each face hit vertices carrying that face's normal |
| CubeMesh.AddCube | Assets/AshleySeric/FenceWrangler/Scripts/Fence.cs:645-833 | the vertex, normal and UV buffers grow by exactly the box's 24 entries; only the chosen submesh grows, by 36 indices offset by the old vertex total; the running total grows by 24 |
| CubeMesh.AddCubeValid | Assets/AshleySeric/FenceWrangler/Scripts/Fence.cs:793-833 | appending a box keeps the buffers a well-formed mesh: equal buffer lengths, 36 indices per 24 vertices, indices in range, flat shading |
| CubeMesh.AddCubeFlatShaded | Assets/AshleySeric/FenceWrangler/Scripts/Fence.cs:701-833 | every triangle, old or new, has three corners with one face normal |
| CubeMesh.EmptyBuilder | Assets/AshleySeric/FenceWrangler/Scripts/Fence.cs:191-201 | the build starts from empty buffers with one empty triangle list per material, which is a well-formed mesh |
| CubeMesh.EmitAllFacts | Assets/AshleySeric/FenceWrangler/Scripts/Fence.cs:645-833 | a run of boxes keeps the mesh well-formed, appends 24 vertices per box, keeps the old vertices as a prefix, and adds 24 vertices of each part per box of that part |
| MaterialSlots.IndexOf | Assets/AshleySeric/FenceWrangler/Scripts/Fence.cs:279-281 | `List.IndexOf`: −1 exactly when absent, otherwise the first position holding the element |
| MaterialSlots.AddMissingIsFirstOccurrences | Assets/AshleySeric/FenceWrangler/Scripts/Fence.cs:178-189 | the "add if not contained" scan computes the independently defined first-occurrence list |
| MaterialSlots.FirstOccurrencesFacts | Assets/AshleySeric/FenceWrangler/Scripts/Fence.cs:178-189 | the first-occurrence list has no duplicates, holds exactly the input's elements, and keeps first-appearance order |
| MaterialSlots.Distinct | Assets/AshleySeric/FenceWrangler/Scripts/Fence.cs:178-189 | the gathered material list is duplicate-free, holds every input material and nothing else, in first-appearance order |
| MaterialSlots.SlotIdInRange | Assets/AshleySeric/FenceWrangler/Scripts/Fence.cs:279-281 | a material in the list gets a valid submesh index naming that material |
| MaterialSlots.IndexOfNoDuplicates | Assets/AshleySeric/FenceWrangler/Scripts/Fence.cs:279-281 | in the duplicate-free list, each submesh index maps back to its own material |
| SegmentPlans.WellRoutedBelow | Assets/AshleySeric/FenceWrangler/Scripts/Fence.cs:279-281 | boxes routed by part to the three slot ids only use submesh indices that exist |
| SegmentPlans.FlipFactor | Assets/AshleySeric/FenceWrangler/Scripts/Fence.cs:274 | the flip factor is +1 exactly when the section is flipped, otherwise −1 |
| SegmentPlans.RailCenterOffset | Assets/AshleySeric/FenceWrangler/Scripts/Fence.cs:294-295 | Inset rails sit on the post centre line; Offset rails sit half a post width plus half a rail thickness to the flip side |
| SegmentPlans.PicketLateral | Assets/AshleySeric/FenceWrangler/Scripts/Fence.cs:341-343 | the picket line sits exactly half a rail thickness plus half a picket width from the rail centre line, on the side opposite the flip direction, and strictly so when both are positive |
| SegmentPlans.FlipMirrorsOffsets | Assets/AshleySeric/FenceWrangler/Scripts/Fence.cs:273-296 | flipping a section mirrors the rail and picket offsets |
| SegmentPlans.PicketsToSpan | Assets/AshleySeric/FenceWrangler/Scripts/Fence.cs:348-351 | a positive row gets the fewest pickets whose pitches cover it: (n−1)·pitch < row ≤ n·pitch; an empty row gets none |
| SegmentPlans.PicketsToSpanMonotone | Assets/AshleySeric/FenceWrangler/Scripts/Fence.cs:348-351 | a longer picket row never gets fewer pickets |
| SegmentPlans.PicketPitch | Assets/AshleySeric/FenceWrangler/Scripts/Fence.cs:348-351 | after the gap clamp the picket pitch is at least 0.01 |
| SegmentPlans.StraightRowLength | Assets/AshleySeric/FenceWrangler/Scripts/Fence.cs:337-351 | the row between two straight posts is never negative; between interior posts it is one segment step less the post depth, |L/r − post depth|; behind the last whole post of a fractional segment it runs to the segment end, |L·(1 − j/r) − post depth|; past the segment end it is the post depth |
| SegmentPlans.StraightPickets | Assets/AshleySeric/FenceWrangler/Scripts/Fence.cs:337-372 | one picket box per covering pitch of the row, each tagged with its post and number and laid at the picket offset |
| SegmentPlans.StraightPosts | Assets/AshleySeric/FenceWrangler/Scripts/Fence.cs:312-373 | the post loop from `j` emits ⌈r⌉+1−j posts, counts each one, counts each picket box, emits no pickets for a Farm fence, and for a Picket fence emits exactly the reference sum `StraightPicketSum` of the covering counts of each non-last post's row |
| SegmentPlans.StraightRails | Assets/AshleySeric/FenceWrangler/Scripts/Fence.cs:377-396 | one rail box per rail tier, with the rail thickness and the tier's width |
| SegmentPlans.StraightPlan | Assets/AshleySeric/FenceWrangler/Scripts/Fence.cs:299-399 | a straight segment has ⌈L/S⌉+1 post boxes, counted as one more; one rail box per tier; as many picket boxes as counted pickets, equal to `StraightPicketSum` from post 0 for a Picket fence and none for Farm; every box is routed to its part's submesh |
| SegmentPlans.WholeFinalPostHasNoPickets | Assets/AshleySeric/FenceWrangler/Scripts/Fence.cs:312-335 | when L/S is whole, the final post is recognised as last and gets no pickets |
| SegmentPlans.FractionalFinalPostGetsPickets | Assets/AshleySeric/FenceWrangler/Scripts/Fence.cs:312-335 | when L/S is fractional, the final post is not recognised as last and gets a post-depth row of pickets |
| SegmentPlans.GroundSamples | Assets/AshleySeric/FenceWrangler/Scripts/Fence.cs:404-433 | the ground layout samples ⌈r⌉+2 points, each the raycast result for its lerp fraction |
| SegmentPlans.MissedSampleOnSegment | Assets/AshleySeric/FenceWrangler/Scripts/Fence.cs:420-433 | with no terrain hit, a sample is the local lerp point with an upward normal |
| SegmentPlans.MissedSamplesSpanSegment | Assets/AshleySeric/FenceWrangler/Scripts/Fence.cs:409-433 | with no terrain hit, the samples start at the first corner and the last two sit on the second corner |
| SegmentPlans.MissedSampleAtStart | Assets/AshleySeric/FenceWrangler/Scripts/Fence.cs:409-433 | with no terrain hit, the first sample is the segment's first corner |
| SegmentPlans.MissedSampleAtEnd | Assets/AshleySeric/FenceWrangler/Scripts/Fence.cs:409-433 | with no terrain hit, every sample at or past fraction 1 is the second corner |
| SegmentPlans.GroundRails | Assets/AshleySeric/FenceWrangler/Scripts/Fence.cs:497-536 | rail tiers from `k` emit one box per tier the obstruction test does not skip (tier i is emitted iff it is not skipped), in increasing tier order, each with its post, tier, the rail centre offset and the rail submesh; their number is the reference count `UnskippedRails`, all remaining tiers when none is skipped |
| SegmentPlans.UnskippedRailsAll | Assets/AshleySeric/FenceWrangler/Scripts/Fence.cs:497-536 | at most the remaining tiers are emitted, and all of them exactly when none from `k` on is skipped |
| SegmentPlans.RailObstructedIffFewerRails | Assets/AshleySeric/FenceWrangler/Scripts/Fence.cs:490-539 | a post's `railObstructed` flag is set exactly when fewer rail boxes than tiers are emitted behind it |
| SegmentPlans.GroundPickets | Assets/AshleySeric/FenceWrangler/Scripts/Fence.cs:539-594 | one picket box per covering pitch of the row |
| SegmentPlans.GroundPostPlan | Assets/AshleySeric/FenceWrangler/Scripts/Fence.cs:436-595 | a ground post's first box is its post box; it emits `UnskippedRails` rail boxes, all rails when obstructions are allowed, and pickets exactly when no rail was obstructed and the fence is Picket |
| SegmentPlans.GroundPostOrder | Assets/AshleySeric/FenceWrangler/Scripts/Fence.cs:480-536 | a ground post's boxes start with the post box, followed directly by exactly the `GroundRails` boxes in tier order |
| SegmentPlans.GroundPostPicketsLast | Assets/AshleySeric/FenceWrangler/Scripts/Fence.cs:492-594 | every box of a ground post after its rails is a picket |
| SegmentPlans.GroundPosts | Assets/AshleySeric/FenceWrangler/Scripts/Fence.cs:436-595 | the ground post loop runs to two short of the samples; every post is counted; the rail boxes equal the reference total `GroundRailTotal`; Farm has no pickets; allowing obstructions gives every post every rail |
| SegmentPlans.GroundPlan | Assets/AshleySeric/FenceWrangler/Scripts/Fence.cs:400-599 | a ground segment has ⌈L/S⌉ posts, as many picket boxes as counted pickets, `GroundRailTotal` rail boxes over its samples, and, when obstructions are allowed, posts × tiers rail boxes |
| FenceModel.SectionMaterialsExact | Assets/AshleySeric/FenceWrangler/Scripts/Fence.cs:179-189 | the section-by-section material sequence holds every preset material and nothing else |
| FenceModel.ClampAt | Assets/AshleySeric/FenceWrangler/Scripts/Fence.cs:260 | the clamp writes into the shared preset of the segment and leaves every other preset alone |
| FenceModel.ClampedKeepsPresetFacts | Assets/AshleySeric/FenceWrangler/Scripts/Fence.cs:260 | a clamped preset keeps its materials and segment length, so the gathered materials and the build's requirements are unchanged |
| FenceModel.Reach | Assets/AshleySeric/FenceWrangler/Scripts/Fence.cs:250-268 | the loop stops at the first segment not longer than ε, or at the end of the path |
| FenceModel.PathLength | Assets/AshleySeric/FenceWrangler/Scripts/Fence.cs:267-601 | the summed length of the built segments is never negative, and positive exactly when at least one segment is built |
| FenceModel.SlotIds | Assets/AshleySeric/FenceWrangler/Scripts/Fence.cs:279-281 | the post, rail and picket submesh indices name the preset's first three materials |
| FenceModel.SegmentPlan | Assets/AshleySeric/FenceWrangler/Scripts/Fence.cs:297-599 | each segment's boxes follow its preset's conform mode: a straight segment has ⌈L/S⌉+1 post boxes, one rail box per tier and `StraightPicketSum` pickets; a ground segment has ⌈L/S⌉ post boxes and `GroundRailTotal` rail boxes; Farm has no pickets; pickets are counted exactly and submeshes routed |
| FenceModel.Advance | Assets/AshleySeric/FenceWrangler/Scripts/Fence.cs:258-601 | a built segment clamps its preset's gap, adds its length, only appends vertices, keeps the mesh invariant, counts its pickets exactly and its posts at least once per post box |
| FenceModel.AdvanceFollowsPlan | Assets/AshleySeric/FenceWrangler/Scripts/Fence.cs:258-601 | a built segment appends exactly its plan's boxes, adds exactly the plan's post and picket counts, and grows each part's vertices by 24 per box of that part |
| FenceModel.BuildSegments | Assets/AshleySeric/FenceWrangler/Scripts/Fence.cs:250-602 | the loop keeps the mesh well-formed, only clamps presets, and can only throw `ArgumentOutOfRange` |
| FenceModel.BuildSegmentsClampsFirst | Assets/AshleySeric/FenceWrangler/Scripts/Fence.cs:258-260 | the loop clamps the first segment's preset, and no later clamp undoes it |
| FenceModel.BuildSegmentsFaults | Assets/AshleySeric/FenceWrangler/Scripts/Fence.cs:262-281 | the loop throws exactly when a segment it reaches has a preset with fewer than three materials |
| FenceModel.BuildSegmentsLength | Assets/AshleySeric/FenceWrangler/Scripts/Fence.cs:267-601 | a completed loop adds the path length up to the stop |
| FenceModel.BuildSegmentsBuffers | Assets/AshleySeric/FenceWrangler/Scripts/Fence.cs:332-593 | the loop only appends vertices, counts one picket per picket box, and counts at least one post per post box |
| FenceModel.SlotsPresentStep | Assets/AshleySeric/FenceWrangler/Scripts/Fence.cs:262-281 | past a built segment, the slot condition moves on by one segment |
| FenceModel.ResetStats | Assets/AshleySeric/FenceWrangler/Scripts/Fence.cs:170-172 | the build zeroes length, posts and pickets, and keeps the vertex and triangle counts |
| FenceModel.BuildContext | Assets/AshleySeric/FenceWrangler/Scripts/Fence.cs:178-206 | the material list covers every preset material, holds nothing else, has no duplicates, and keeps section order |
| FenceModel.StartState | Assets/AshleySeric/FenceWrangler/Scripts/Fence.cs:191-203 | the loop starts from an empty well-formed mesh with one list per material and zeroed statistics |
| FenceModel.Commit | Assets/AshleySeric/FenceWrangler/Scripts/Fence.cs:604-622 | the commit gives a mesh equal to the buffers, vertex count = 2 × triangle count, one submesh per distinct material, picket counter = picket boxes |
| FenceModel.BuildPath | Assets/AshleySeric/FenceWrangler/Scripts/Fence.cs:250-622 | a build over a path with presets only clamps presets, commits when it does not throw, and leaves mesh and materials alone when it throws |
| FenceModel.BuildFence | Assets/AshleySeric/FenceWrangler/Scripts/Fence.cs:155-627 | fewer than two sections: no change; a null preset: reset statistics, empty mesh, unchanged presets, `NullReference`; `ArgumentOutOfRange`: empty mesh, old materials and counts; otherwise the mesh is committed; the path and selection are never changed |
| FenceModel.BuildFenceMaterials | Assets/AshleySeric/FenceWrangler/Scripts/Fence.cs:178-620 | the renderer gets every preset material once, nothing else, in first-mention order |
| FenceModel.BuildFenceLength | Assets/AshleySeric/FenceWrangler/Scripts/Fence.cs:170-601 | a completed build's total length is the path length up to the first too-short segment |
| FenceModel.BuildFenceFaults | Assets/AshleySeric/FenceWrangler/Scripts/Fence.cs:179-281 | `NullReference` exactly for a null preset on a two-section path; otherwise no exception exactly when every reached segment's preset has three materials |
| FenceModel.BuildFenceClampsFirst | Assets/AshleySeric/FenceWrangler/Scripts/Fence.cs:258-260 | the first section's preset ends up with its gap clamped to at least 0.01 |
| FenceModel.FreshPresetCannotBuild | Assets/AshleySeric/FenceWrangler/Scripts/Fence.cs:279-281 | a path using only new presets (no materials) throws `ArgumentOutOfRange` with no geometry and unchanged presets once its first segment is long enough |
| FenceModel.BuildSegmentsReplay | Assets/AshleySeric/FenceWrangler/Scripts/Fence.cs:250-602 | rerunning the loop from presets between its start and its end gives the same result |
| FenceModel.BuildFenceIdempotent | Assets/AshleySeric/FenceWrangler/Scripts/Fence.cs:155-627 | building again from what a build left behind reproduces it exactly, whether or not the first build threw |
| FenceModel.BuildSegmentsSameInputs | Assets/AshleySeric/FenceWrangler/Scripts/Fence.cs:250-602 | the loop result depends on each section only through its corner, preset and flip |
| FenceModel.BuildFenceIgnoresHeightAndLength | Assets/AshleySeric/FenceWrangler/Scripts/Fence.cs:155-627 | changing sections' height modifiers or stored lengths changes nothing the build produces |
| FenceModel.AddSection | Assets/AshleySeric/FenceWrangler/Scripts/Fence.cs:835-850 | appends one section at the position relative to the fence, with the given preset, otherwise the last section's, otherwise null; keeps presets non-null and in range |
| FenceModel.RemoveSection | Assets/AshleySeric/FenceWrangler/Scripts/Fence.cs:852-855 | succeeds exactly for an index in range, closing the gap in order; otherwise throws `ArgumentOutOfRange` |
| FenceModel.RemoveLastSection | Assets/AshleySeric/FenceWrangler/Scripts/Fence.cs:857-860 | drops the last section; throws `ArgumentOutOfRange` on an empty path |
| FenceModel.RemoveLastIsRemoveAtEnd | Assets/AshleySeric/FenceWrangler/Scripts/Fence.cs:852-860 | removing the last section is removing at index Count − 1 |
| FenceModel.AddThenRemoveLast | Assets/AshleySeric/FenceWrangler/Scripts/Fence.cs:835-860 | adding a section and then removing the last one restores the fence |
| FenceModel.RemoveSectionInverse | Assets/AshleySeric/FenceWrangler/Scripts/Fence.cs:852-855 | putting the removed section back at its index restores the path |
| FenceModel.ClampSelectionIndex | Assets/AshleySeric/FenceWrangler/Scripts/Fence.cs:632-635 | on a non-empty path the index lands in range, an in-range index is kept, an index past the end becomes the last, a negative index becomes 0, and an empty path gives −1 for any index ≥ 0 |
| FenceModel.ClampSelectionIndexIdempotent | Assets/AshleySeric/FenceWrangler/Scripts/Fence.cs:632-635 | clamping twice is clamping once on a non-empty path; on an empty path the index alternates between 0 and −1 |
| FenceModel.RemoveThenClampSelects | Assets/AshleySeric/FenceWrangler/Scripts/Fence.cs:629-635 | after a removal that leaves sections, clamping makes the selection a valid index |

## Left out

- Floating point: all arithmetic is on mathematical reals; single-precision rounding, NaN and infinity are not modelled.
- Rotations, `Quaternion` and `Vector3.normalized`: box positions and orientations are symbolic tags, not coordinates; the vertex positions p0..p7 are corner names.
- `Vector3.Distance`, the terrain raycast, the rail obstruction raycast and the ground-mode rail and picket-row lengths are functions supplied by the caller (`World`), because they need square roots, scene colliders and rotations.
- The picket re-conform raycast and its `PicketConform` lerp (`Fence.cs:565-590`): a picket's position is not modelled, only its existence and tag.
- `Mesh.RecalculateNormals`, `RecalculateBounds`, the `MeshFilter`/`MeshRenderer` lookup (`CheckRenderers`), the `Stopwatch` build time and the `Start`/`OnValidate` rebuild hooks: engine side effects with no bearing on the buffers.
- The mesh's normals after the commit: `RecalculateNormals` replaces the flat normals written by `SetNormals`, and the model keeps only the buffers' flat normals.
- 32-bit overflow of the vertex, triangle, post and picket counters: integers are unbounded.
- Unity's "fake null" (a destroyed preset that compares equal to null): a preset is either present or `None`.
- Null `Materials` and `Rails` lists: the setters (`FenceData.cs:299-302`, `312-315`) store any value, and a null list throws `NullReferenceException` at `Fence.cs:181` (before the buffers are reset), `Fence.cs:378` (straight mode, after the segment's posts and pickets) or `Fence.cs:499` (ground mode, after the post box). The model's lists are sequences, never null, so these fault paths and their partial states are not modelled.
- `BuildFence` requires the segment length of every section's preset to be positive, including presets the loop never reads (the last section's, and those after a near-zero-length stop), and it also excludes negative lengths. With zero the straight post loop does not terminate; with a negative length the post count goes negative, which can make the ground layout's array allocation throw and which the model's natural-number counts cannot express. The inspector range is [0.1, 10], and one uniform condition keeps the loop's invariant simple.
- `PicketsToSpan`: for a non-positive pitch the source's `CeilToInt` of an infinite or NaN quotient gives `int.MinValue`. The model gives 0 instead. This case is unreachable after the 0.01 gap clamp when the picket depth is not negative.
- `StraightRowLength`: the straight picket row length is derived from the segment length by collinearity rather than computed from rotated points.
- `BuildSegmentsBuffers`: `totalPosts` is stated to be at least the number of post boxes, not equal to it, because the straight layout counts one post more than it emits (`Fence.cs:375`); `AdvanceFollowsPlan` states the exact per-segment counts.
- `BuildFenceMaterials`, `BuildFenceLength`: these state the completed build only; a build that throws keeps the partial sums at the point of the exception, which `BuildFence` covers.
- The editor (`FenceEditor`), the runtime creator scripts and the older root-level `Fence.cs` revision: they are callers of the core or a superseded copy, not part of it.
- Lean, tilt and the post and picket orientations of the ground layout: they only affect rotations.
