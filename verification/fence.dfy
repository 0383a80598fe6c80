/**
 The fence component (`Fence`): its ordered list of sections, the mesh build
 (`BuildFence`) and the editing operations on the section list.

 Presets are shared by reference in the host engine: several sections may name
 the same `FenceData`, and the build writes the clamped picket gap back into
 it. Here the presets live in a table passed to the build and returned
 updated, and a section names its preset by index (`None` for null).
 */
module FenceModel {
  import opened Unity
  import opened FenceDataModel
  import opened FenceSectionModel
  import opened CubeMesh
  import opened MaterialSlots
  import opened SegmentPlans

  /** The exceptions the build and the editing operations can raise. */
  datatype Fault = NullReference | ArgumentOutOfRange

  /** The read-only statistics the inspector shows. */
  datatype Stats = Stats(vertexCount: int, triCount: int, totalPosts: int, picketCount: int, totalLength: real)

  /** What the engine mesh holds after a build: vertices, UVs and one triangle
      list per submesh. */
  datatype MeshData = MeshData(vertices: seq<Vertex>, uvs: seq<Vec2>, submeshes: seq<seq<int>>)

  const EmptyMesh: MeshData := MeshData([], [], [])

  /** The component's state: the path, its transform position (the pivot), the
      terrain layer mask, the editor's selected section, the buffer fields the
      build fills, the engine mesh, the renderer's materials and the stats. */
  datatype Fence = Fence(
    sections: seq<FenceSection>,
    position: Vec3,
    conformMask: int,
    selectedSectionIndex: int,
    buffers: Buffers,
    mesh: MeshData,
    sharedMaterials: seq<Material>,
    stats: Stats)

  /** An editing operation either completes or throws. */
  datatype Outcome = Done(fence: Fence) | Fails(fault: Fault)

  /** A build's effect: the fence afterwards, the preset table afterwards, and
      the exception that cut it short, if any. */
  datatype BuildResult = BuildResult(fence: Fence, presets: seq<FenceData>, fault: Option<Fault>)

  // ---------------------------------------------------------------------------
  // Sections and their presets

  predicate RefsValid(sections: seq<FenceSection>, count: nat) {
    forall i | 0 <= i < |sections| :: sections[i].data.Some? ==> sections[i].data.value < count
  }

  predicate NoNullPresets(sections: seq<FenceSection>) {
    forall i | 0 <= i < |sections| :: sections[i].data.Some?
  }

  predicate PresetsResolve(sections: seq<FenceSection>, presets: seq<FenceData>) {
    NoNullPresets(sections) && RefsValid(sections, |presets|)
  }

  /** The preset section `i` uses. */
  function Preset(sections: seq<FenceSection>, presets: seq<FenceData>, i: int): FenceData
    requires PresetsResolve(sections, presets) && 0 <= i < |sections|
  {
    presets[sections[i].data.value]
  }

  /** Every referenced preset has a positive segment length (the inspector's
      range is [0.1, 10]); with zero the straight post loop never ends. */
  predicate SegmentLengthsPositive(sections: seq<FenceSection>, presets: seq<FenceData>)
    requires RefsValid(sections, |presets|)
  {
    forall i | 0 <= i < |sections| && sections[i].data.Some? :: presets[sections[i].data.value].segmentLength > 0.0
  }

  /** Every material of every section's preset, section by section, in list order. */
  function SectionMaterials(sections: seq<FenceSection>, presets: seq<FenceData>): (ms: seq<Material>)
    requires PresetsResolve(sections, presets)
    decreases |sections|
  {
    if |sections| == 0 then []
    else
      var init := sections[..|sections| - 1];
      assert PresetsResolve(init, presets);
      SectionMaterials(init, presets) + Preset(sections, presets, |sections| - 1).materials
  }

  /** Every material of every section's preset occurs in `all`. */
  predicate MaterialsCovered(all: seq<Material>, sections: seq<FenceSection>, presets: seq<FenceData>)
    requires PresetsResolve(sections, presets)
  {
    forall i, k | 0 <= i < |sections| && 0 <= k < |Preset(sections, presets, i).materials| ::
      Preset(sections, presets, i).materials[k] in all
  }

  /** `m` is one of the materials of some section's preset. */
  predicate FromSomePreset(m: Material, sections: seq<FenceSection>, presets: seq<FenceData>)
    requires PresetsResolve(sections, presets)
  {
    exists i, k | 0 <= i < |sections| && 0 <= k < |Preset(sections, presets, i).materials| ::
      m == Preset(sections, presets, i).materials[k]
  }

  /** Each preset material occurs in the section-by-section material list, and
      nothing else does. */
  lemma {:induction false} SectionMaterialsExact(sections: seq<FenceSection>, presets: seq<FenceData>)
    requires PresetsResolve(sections, presets)
    ensures MaterialsCovered(SectionMaterials(sections, presets), sections, presets)
    ensures forall n | 0 <= n < |SectionMaterials(sections, presets)| ::
      FromSomePreset(SectionMaterials(sections, presets)[n], sections, presets)
    decreases |sections|
  {
    if |sections| > 0 {
      var last := |sections| - 1;
      var init := sections[..last];
      assert PresetsResolve(init, presets);
      SectionMaterialsExact(init, presets);
      var head := SectionMaterials(init, presets);
      var tail := Preset(sections, presets, last).materials;
      var ms := SectionMaterials(sections, presets);
      assert ms == head + tail;
      forall i, k | 0 <= i < |sections| && 0 <= k < |Preset(sections, presets, i).materials|
        ensures Preset(sections, presets, i).materials[k] in ms
      {
        if i < last {
          assert Preset(init, presets, i) == Preset(sections, presets, i);
          assert Preset(init, presets, i).materials[k] in head;
        } else {
          assert ms[|head| + k] == tail[k];
        }
      }
      forall n | 0 <= n < |ms|
        ensures FromSomePreset(ms[n], sections, presets)
      {
        if n < |head| {
          assert ms[n] == head[n];
          assert FromSomePreset(head[n], init, presets);
          var i, k :| 0 <= i < |init| && 0 <= k < |Preset(init, presets, i).materials| &&
            head[n] == Preset(init, presets, i).materials[k];
          assert Preset(init, presets, i) == Preset(sections, presets, i);
          assert ms[n] == Preset(sections, presets, i).materials[k];
        } else {
          assert ms[n] == tail[n - |head|];
          assert ms[n] == Preset(sections, presets, last).materials[n - |head|];
        }
      }
    }
  }

  // ---------------------------------------------------------------------------
  // The picket-gap clamp applied to the preset table

  /** The build clamps the picket gap of section `ref`'s preset in place. */
  function ClampAt(presets: seq<FenceData>, ref: nat): (r: seq<FenceData>)
    requires ref < |presets|
    ensures |r| == |presets|
    ensures r[ref] == ClampPicketGap(presets[ref])
    ensures forall k | 0 <= k < |presets| && k != ref :: r[k] == presets[k]
  {
    presets[ref := ClampPicketGap(presets[ref])]
  }

  /** Each preset of `after` is the same preset of `before`, possibly with its
      picket gap clamped. */
  predicate ClampedFrom(after: seq<FenceData>, before: seq<FenceData>) {
    |after| == |before| &&
    forall k | 0 <= k < |before| :: after[k] == before[k] || after[k] == ClampPicketGap(before[k])
  }

  lemma ClampedFromTrans(a: seq<FenceData>, b: seq<FenceData>, c: seq<FenceData>)
    requires ClampedFrom(c, b) && ClampedFrom(b, a)
    ensures ClampedFrom(c, a)
  {
    forall k | 0 <= k < |a| ensures c[k] == a[k] || c[k] == ClampPicketGap(a[k]) {
      ClampPicketGapIdempotent(a[k]);
    }
  }

  /** Clamping a gap touches neither the materials nor the segment length, so
      everything the build requires of the presets survives it. */
  lemma ClampedKeepsPresetFacts(sections: seq<FenceSection>, all: seq<Material>, after: seq<FenceData>, before: seq<FenceData>)
    requires ClampedFrom(after, before) && PresetsResolve(sections, before)
    ensures PresetsResolve(sections, after)
    ensures forall i | 0 <= i < |sections| ::
      Preset(sections, after, i).materials == Preset(sections, before, i).materials &&
      Preset(sections, after, i).segmentLength == Preset(sections, before, i).segmentLength
    ensures SectionMaterials(sections, after) == SectionMaterials(sections, before)
    ensures SegmentLengthsPositive(sections, before) ==> SegmentLengthsPositive(sections, after)
    ensures MaterialsCovered(all, sections, before) ==> MaterialsCovered(all, sections, after)
    decreases |sections|
  {
    forall i | 0 <= i < |sections|
      ensures Preset(sections, after, i).materials == Preset(sections, before, i).materials
      ensures Preset(sections, after, i).segmentLength == Preset(sections, before, i).segmentLength
    {
      var ref := sections[i].data.value;
      assert after[ref] == before[ref] || after[ref] == ClampPicketGap(before[ref]);
    }
    if |sections| > 0 {
      var init := sections[..|sections| - 1];
      assert PresetsResolve(init, before);
      ClampedKeepsPresetFacts(init, all, after, before);
    }
    if SegmentLengthsPositive(sections, before) {
      forall i | 0 <= i < |sections| && sections[i].data.Some?
        ensures after[sections[i].data.value].segmentLength > 0.0
      {
        assert Preset(sections, after, i).segmentLength == Preset(sections, before, i).segmentLength;
      }
    }
  }

  // ---------------------------------------------------------------------------
  // The segment loop

  /** What the build loop reads and never changes: the path, the pivot
      (`transform.position`), the terrain mask, the scene, and the de-duplicated
      material list. */
  datatype Context = Context(sections: seq<FenceSection>, pivot: Vec3, mask: int, world: World, all: seq<Material>)

  /** What the build loop changes: the presets (gap clamps), the buffers, and
      the three running statistics. */
  datatype LoopState = LoopState(presets: seq<FenceData>, builder: Builder, totalLength: real, totalPosts: int, picketCount: int)

  /** Where the loop ended up, and the exception that stopped it, if any. */
  datatype LoopEnd = LoopEnd(state: LoopState, fault: Option<Fault>)

  /** The length of segment `i`: the distance between its corner points, both
      shifted by the pivot. */
  function SegmentLength(ctx: Context, i: nat): real
    requires i + 1 < |ctx.sections|
  {
    ctx.world.distance(Sub(ctx.sections[i].cornerPoint, ctx.pivot), Sub(ctx.sections[i + 1].cornerPoint, ctx.pivot))
  }

  /** Where the loop started at segment `i` stops: the first segment from `i` on
      that is too short to build, or the end of the path. */
  function Reach(ctx: Context, i: nat): (n: nat)
    ensures i <= n
    ensures i + 1 < |ctx.sections| ==> n + 1 <= |ctx.sections|
    ensures forall j | i <= j < n :: j + 1 < |ctx.sections| && SegmentLength(ctx, j) > Epsilon
    ensures n + 1 < |ctx.sections| ==> SegmentLength(ctx, n) <= Epsilon
    decreases |ctx.sections| - i
  {
    if i + 1 >= |ctx.sections| || SegmentLength(ctx, i) <= Epsilon then i
    else Reach(ctx, i + 1)
  }

  /** The summed length of the segments the loop started at `i` builds. */
  function PathLength(ctx: Context, i: nat): (len: real)
    ensures len >= 0.0
    ensures len > 0.0 <==> Reach(ctx, i) > i
    decreases |ctx.sections| - i
  {
    if i + 1 >= |ctx.sections| || SegmentLength(ctx, i) <= Epsilon then 0.0
    else SegmentLength(ctx, i) + PathLength(ctx, i + 1)
  }

  /** The submesh of each of a preset's first three material slots: the slot's
      position in the de-duplicated list. */
  function SlotIds(all: seq<Material>, d: FenceData): (ids: MeshIds)
    requires |d.materials| >= 3
    requires d.materials[0] in all && d.materials[1] in all && d.materials[2] in all
    ensures ids.post < |all| && all[ids.post] == d.materials[0]
    ensures ids.rail < |all| && all[ids.rail] == d.materials[1]
    ensures ids.picket < |all| && all[ids.picket] == d.materials[2]
  {
    MeshIds(IndexOf(all, d.materials[0]) as nat, IndexOf(all, d.materials[1]) as nat, IndexOf(all, d.materials[2]) as nat)
  }

  /** The boxes of segment `i` styled by preset `d`, in the layout its conform
      mode selects. The straight layout works in local space: the corner points
      are shifted by the pivot and back. */
  function SegmentPlan(ctx: Context, i: nat, d: FenceData, sectionLength: real, ids: MeshIds): (p: Plan)
    requires i + 1 < |ctx.sections| && d.segmentLength > 0.0 && sectionLength > 0.0
    ensures CountEmitted(p.emissions, PicketPart) == p.pickets
    ensures p.posts == CountEmitted(p.emissions, PostPart) + (if d.conformMode == NoConform then 1 else 0)
    ensures d.fenceType == Farm ==> p.pickets == 0
    ensures d.conformMode == NoConform ==>
      && CountEmitted(p.emissions, PostPart) == Ceil(sectionLength / d.segmentLength) + 1
      && CountEmitted(p.emissions, RailPart) == |d.rails|
      && (d.fenceType == Picket ==>
            p.pickets == StraightPicketSum(d, sectionLength, sectionLength / d.segmentLength, 0))
    ensures d.conformMode == Ground ==>
      && CountEmitted(p.emissions, PostPart) == Ceil(sectionLength / d.segmentLength)
      && CountEmitted(p.emissions, RailPart) == GroundRailTotal(i, d,
           GroundSamples(ctx.sections[i].cornerPoint, ctx.sections[i + 1].cornerPoint, ctx.pivot,
             sectionLength / d.segmentLength, ctx.mask, ctx.world), ctx.world, 0)
    ensures WellRouted(p.emissions, i, ids)
  {
    var from := ctx.sections[i];
    var to := ctx.sections[i + 1];
    match d.conformMode
    case NoConform =>
      var start := Add(Sub(from.cornerPoint, ctx.pivot), ctx.pivot);
      var end := Add(Sub(to.cornerPoint, ctx.pivot), ctx.pivot);
      StraightPlan(i, d, from.flipFence, start, end, sectionLength, ids, ctx.world)
    case Ground =>
      GroundPlan(i, d, from.cornerPoint, to.cornerPoint, ctx.pivot, from.flipFence, sectionLength, ctx.mask, ids, ctx.world)
  }

  /** What the loop needs at every iteration. */
  predicate LoopReady(ctx: Context, st: LoopState) {
    && PresetsResolve(ctx.sections, st.presets)
    && SegmentLengthsPositive(ctx.sections, st.presets)
    && MaterialsCovered(ctx.all, ctx.sections, st.presets)
    && Valid(st.builder)
    && |st.builder.buffers.submeshes| == |ctx.all|
  }

  /** Whether the first three material slots of every preset of segments `i`
      up to (not including) `n` exist. */
  predicate SlotsPresent(ctx: Context, presets: seq<FenceData>, i: nat, n: nat)
    requires PresetsResolve(ctx.sections, presets)
  {
    forall j | i <= j < n && j < |ctx.sections| :: |Preset(ctx.sections, presets, j).materials| >= 3
  }

  /** The plan of segment `i` as the loop lays it out: styled by the segment's
      preset after its gap clamp, with the submeshes of its three material slots. */
  function StepPlan(ctx: Context, i: nat, st: LoopState): Plan
    requires LoopReady(ctx, st) && i + 1 < |ctx.sections|
    requires SegmentLength(ctx, i) > Epsilon
    requires |Preset(ctx.sections, st.presets, i).materials| >= 3
  {
    var ref := ctx.sections[i].data.value;
    var presets := ClampAt(st.presets, ref);
    var d := presets[ref];
    ClampedKeepsPresetFacts(ctx.sections, ctx.all, presets, st.presets);
    assert Preset(ctx.sections, presets, i) == d;
    assert d.materials[0] in ctx.all && d.materials[1] in ctx.all && d.materials[2] in ctx.all;
    SegmentPlan(ctx, i, d, SegmentLength(ctx, i), SlotIds(ctx.all, d))
  }

  /** The state after segment `i` is built: its preset's gap clamped, its boxes
      emitted, and its length, posts and pickets added to the statistics. */
  function Advance(ctx: Context, i: nat, st: LoopState): (st2: LoopState)
    requires LoopReady(ctx, st) && i + 1 < |ctx.sections|
    requires SegmentLength(ctx, i) > Epsilon
    requires |Preset(ctx.sections, st.presets, i).materials| >= 3
    ensures LoopReady(ctx, st2)
    ensures st2.presets == ClampAt(st.presets, ctx.sections[i].data.value)
    ensures st2.totalLength == st.totalLength + SegmentLength(ctx, i)
    ensures |st2.builder.buffers.verts| >= |st.builder.buffers.verts|
    ensures st2.builder.buffers.verts[..|st.builder.buffers.verts|] == st.builder.buffers.verts
    ensures 24 * (st2.picketCount - st.picketCount) ==
      CountPart(st2.builder.buffers.verts, PicketPart) - CountPart(st.builder.buffers.verts, PicketPart)
    ensures 24 * (st2.totalPosts - st.totalPosts) >=
      CountPart(st2.builder.buffers.verts, PostPart) - CountPart(st.builder.buffers.verts, PostPart)
  {
    var ref := ctx.sections[i].data.value;
    var presets := ClampAt(st.presets, ref);
    var d := presets[ref];
    var sectionLength := SegmentLength(ctx, i);
    ClampedKeepsPresetFacts(ctx.sections, ctx.all, presets, st.presets);
    assert Preset(ctx.sections, presets, i) == d;
    assert d.materials[0] in ctx.all && d.materials[1] in ctx.all && d.materials[2] in ctx.all;
    var ids := SlotIds(ctx.all, d);
    var plan := SegmentPlan(ctx, i, d, sectionLength, ids);
    WellRoutedBelow(plan.emissions, i, ids, |ctx.all|);
    EmitAllFacts(st.builder, plan.emissions);
    LoopState(presets, EmitAll(st.builder, plan.emissions), st.totalLength + sectionLength,
      st.totalPosts + plan.posts, st.picketCount + plan.pickets)
  }

  /** Building segment `i` emits exactly the boxes of its plan, adds exactly
      the plan's post and picket counts, and grows each part's vertices by 24
      per box of that part. */
  lemma AdvanceFollowsPlan(ctx: Context, i: nat, st: LoopState)
    requires LoopReady(ctx, st) && i + 1 < |ctx.sections|
    requires SegmentLength(ctx, i) > Epsilon
    requires |Preset(ctx.sections, st.presets, i).materials| >= 3
    ensures var st2 := Advance(ctx, i, st); var plan := StepPlan(ctx, i, st);
      && st2.builder == EmitAll(st.builder, plan.emissions)
      && st2.totalPosts == st.totalPosts + plan.posts
      && st2.picketCount == st.picketCount + plan.pickets
      && forall p: Part ::
           CountPart(st2.builder.buffers.verts, p) ==
           CountPart(st.builder.buffers.verts, p) + 24 * CountEmitted(plan.emissions, p)
  {
    EmitAllFacts(st.builder, StepPlan(ctx, i, st).emissions);
  }

  /** The loop `for (i = 0; i < sections.Count - 1; i++)` from segment `i` on:
      clamp the segment's preset gap, stop at a segment too short to build,
      throw on a preset with fewer than three materials, otherwise emit the
      segment's boxes and add to the statistics. */
  function BuildSegments(ctx: Context, i: nat, st: LoopState): (e: LoopEnd)
    requires LoopReady(ctx, st)
    ensures LoopReady(ctx, e.state)
    ensures ClampedFrom(e.state.presets, st.presets)
    ensures e.fault.Some? ==> e.fault == Some(ArgumentOutOfRange)
    decreases |ctx.sections| - i
  {
    if i + 1 >= |ctx.sections| then LoopEnd(st, None)
    else
      var ref := ctx.sections[i].data.value;
      var presets := ClampAt(st.presets, ref);
      ClampedKeepsPresetFacts(ctx.sections, ctx.all, presets, st.presets);
      if SegmentLength(ctx, i) <= Epsilon then
        LoopEnd(st.(presets := presets), None)
      else if |presets[ref].materials| < 3 then
        LoopEnd(st.(presets := presets), Some(ArgumentOutOfRange))
      else
        assert Preset(ctx.sections, st.presets, i).materials == presets[ref].materials;
        var st2 := Advance(ctx, i, st);
        var e := BuildSegments(ctx, i + 1, st2);
        ClampedFromTrans(st.presets, st2.presets, e.state.presets);
        e
  }

  /** The loop clamps the gap of the first segment's preset, and no later clamp
      undoes it. */
  lemma {:induction false} BuildSegmentsClampsFirst(ctx: Context, i: nat, st: LoopState)
    requires LoopReady(ctx, st) && i + 1 < |ctx.sections|
    ensures var ref := ctx.sections[i].data.value;
      BuildSegments(ctx, i, st).state.presets[ref] == ClampPicketGap(st.presets[ref])
  {
    var ref := ctx.sections[i].data.value;
    var presets := ClampAt(st.presets, ref);
    ClampedKeepsPresetFacts(ctx.sections, ctx.all, presets, st.presets);
    if SegmentLength(ctx, i) > Epsilon && |presets[ref].materials| >= 3 {
      assert Preset(ctx.sections, st.presets, i).materials == presets[ref].materials;
      var st2 := Advance(ctx, i, st);
      var e := BuildSegments(ctx, i + 1, st2);
      assert e.state.presets[ref] == st2.presets[ref] || e.state.presets[ref] == ClampPicketGap(st2.presets[ref]);
      ClampPicketGapIdempotent(st.presets[ref]);
    }
  }

  /** The loop throws exactly when one of the segments it reaches uses a preset
      with fewer than three materials. */
  lemma {:induction false} BuildSegmentsFaults(ctx: Context, i: nat, st: LoopState)
    requires LoopReady(ctx, st)
    ensures BuildSegments(ctx, i, st).fault.None? <==> SlotsPresent(ctx, st.presets, i, Reach(ctx, i))
    decreases |ctx.sections| - i
  {
    if i + 1 < |ctx.sections| {
      var ref := ctx.sections[i].data.value;
      var presets := ClampAt(st.presets, ref);
      ClampedKeepsPresetFacts(ctx.sections, ctx.all, presets, st.presets);
      assert Preset(ctx.sections, st.presets, i).materials == presets[ref].materials;
      if SegmentLength(ctx, i) > Epsilon && |presets[ref].materials| >= 3 {
        var st2 := Advance(ctx, i, st);
        BuildSegmentsFaults(ctx, i + 1, st2);
        SlotsPresentStep(ctx, st.presets, st2.presets, i);
      } else if SegmentLength(ctx, i) > Epsilon {
        SlotsPresentStep(ctx, st.presets, presets, i);
      }
    }
  }

  /** A loop that completes adds the length of every segment it builds. */
  lemma {:induction false} BuildSegmentsLength(ctx: Context, i: nat, st: LoopState)
    requires LoopReady(ctx, st)
    ensures BuildSegments(ctx, i, st).fault.None? ==>
      BuildSegments(ctx, i, st).state.totalLength == st.totalLength + PathLength(ctx, i)
    decreases |ctx.sections| - i
  {
    if i + 1 < |ctx.sections| {
      var ref := ctx.sections[i].data.value;
      var presets := ClampAt(st.presets, ref);
      ClampedKeepsPresetFacts(ctx.sections, ctx.all, presets, st.presets);
      if SegmentLength(ctx, i) > Epsilon && |presets[ref].materials| >= 3 {
        assert Preset(ctx.sections, st.presets, i).materials == presets[ref].materials;
        var st2 := Advance(ctx, i, st);
        BuildSegmentsLength(ctx, i + 1, st2);
      }
    }
  }

  /** The loop only appends to the vertex buffer, adds one to `picketCount` per
      picket box it emits, and adds to `totalPosts` at least one per post box. */
  lemma {:induction false} BuildSegmentsBuffers(ctx: Context, i: nat, st: LoopState)
    requires LoopReady(ctx, st)
    ensures var e := BuildSegments(ctx, i, st);
      && |e.state.builder.buffers.verts| >= |st.builder.buffers.verts|
      && e.state.builder.buffers.verts[..|st.builder.buffers.verts|] == st.builder.buffers.verts
      && 24 * (e.state.picketCount - st.picketCount) ==
        CountPart(e.state.builder.buffers.verts, PicketPart) - CountPart(st.builder.buffers.verts, PicketPart)
      && 24 * (e.state.totalPosts - st.totalPosts) >=
        CountPart(e.state.builder.buffers.verts, PostPart) - CountPart(st.builder.buffers.verts, PostPart)
    decreases |ctx.sections| - i
  {
    var e := BuildSegments(ctx, i, st);
    if i + 1 < |ctx.sections| {
      var ref := ctx.sections[i].data.value;
      var presets := ClampAt(st.presets, ref);
      ClampedKeepsPresetFacts(ctx.sections, ctx.all, presets, st.presets);
      if SegmentLength(ctx, i) > Epsilon && |presets[ref].materials| >= 3 {
        assert Preset(ctx.sections, st.presets, i).materials == presets[ref].materials;
        var st2 := Advance(ctx, i, st);
        BuildSegmentsBuffers(ctx, i + 1, st2);
        assert e == BuildSegments(ctx, i + 1, st2);
        assert e.state.builder.buffers.verts[..|st.builder.buffers.verts|] ==
          e.state.builder.buffers.verts[..|st2.builder.buffers.verts|][..|st.builder.buffers.verts|];
      } else {
        assert e.state.builder == st.builder;
      }
    } else {
      assert st.builder.buffers.verts[..|st.builder.buffers.verts|] == st.builder.buffers.verts;
    }
  }

  /** Past a segment that is built, the slot condition moves on by one segment. */
  lemma SlotsPresentStep(ctx: Context, before: seq<FenceData>, after: seq<FenceData>, i: nat)
    requires ClampedFrom(after, before) && PresetsResolve(ctx.sections, before)
    requires i + 1 < |ctx.sections| && SegmentLength(ctx, i) > Epsilon
    ensures PresetsResolve(ctx.sections, after)
    ensures SlotsPresent(ctx, before, i, Reach(ctx, i)) <==>
      |Preset(ctx.sections, before, i).materials| >= 3 && SlotsPresent(ctx, after, i + 1, Reach(ctx, i + 1))
  {
    ClampedKeepsPresetFacts(ctx.sections, ctx.all, after, before);
  }

  // ---------------------------------------------------------------------------
  // BuildFence

  /** The reset at the start of a build: the three running statistics are
      zeroed; the vertex and triangle counts keep their old values. */
  function ResetStats(s: Stats): (r: Stats)
    ensures r.totalLength == 0.0 && r.totalPosts == 0 && r.picketCount == 0
    ensures r.vertexCount == s.vertexCount && r.triCount == s.triCount
  {
    s.(totalLength := 0.0, totalPosts := 0, picketCount := 0)
  }

  /** The loop's unchanging inputs for a build of `f` over `presets`. */
  function BuildContext(f: Fence, presets: seq<FenceData>, world: World): (ctx: Context)
    requires PresetsResolve(f.sections, presets)
    ensures ctx.sections == f.sections && ctx.pivot == f.position && ctx.mask == f.conformMask
    ensures NoDuplicates(ctx.all) && MaterialsCovered(ctx.all, f.sections, presets)
    ensures forall n | 0 <= n < |ctx.all| :: FromSomePreset(ctx.all[n], f.sections, presets)
    ensures InFirstOccurrenceOrder(ctx.all, SectionMaterials(f.sections, presets))
  {
    var ms := SectionMaterials(f.sections, presets);
    var all := Distinct(ms);
    SectionMaterialsExact(f.sections, presets);
    forall i, k | 0 <= i < |f.sections| && 0 <= k < |Preset(f.sections, presets, i).materials|
      ensures Preset(f.sections, presets, i).materials[k] in all
    {
      var n := IndexOf(ms, Preset(f.sections, presets, i).materials[k]);
      assert ms[n] in all;
    }
    forall n | 0 <= n < |all| ensures FromSomePreset(all[n], f.sections, presets) {
      var m := IndexOf(ms, all[n]);
      assert ms[m] == all[n];
    }
    Context(f.sections, f.position, f.conformMask, world, all)
  }

  /** The state the segment loop starts from: no geometry, one empty triangle
      list per distinct material, zeroed statistics. */
  function StartState(ctx: Context, presets: seq<FenceData>): (st: LoopState)
    ensures Valid(st.builder) && |st.builder.buffers.submeshes| == |ctx.all|
    ensures st.builder.buffers.verts == [] && st.presets == presets
    ensures st.totalLength == 0.0 && st.totalPosts == 0 && st.picketCount == 0
  {
    LoopState(presets, EmptyBuilder(|ctx.all|), 0.0, 0, 0)
  }

  /** A committed mesh: the engine mesh holds the buffers, the statistics count
      them, and the buffers describe whole flat-shaded boxes whose triangles
      index existing vertices, one submesh per distinct material. */
  predicate MeshCommitted(f: Fence) {
    && f.mesh.vertices == f.buffers.verts
    && f.mesh.uvs == f.buffers.uvs
    && f.mesh.submeshes == f.buffers.submeshes
    && |f.buffers.normals| == |f.buffers.verts| && |f.buffers.uvs| == |f.buffers.verts|
    && f.stats.vertexCount == |f.mesh.vertices|
    && f.stats.vertexCount % 24 == 0
    && f.stats.vertexCount == 2 * f.stats.triCount
    && IndicesInRange(f.mesh.submeshes, f.stats.vertexCount)
    && FlatShaded(f.buffers)
    && |f.mesh.submeshes| == |f.sharedMaterials|
    && NoDuplicates(f.sharedMaterials)
    && 24 * f.stats.picketCount == CountPart(f.mesh.vertices, PicketPart)
    && 24 * f.stats.totalPosts >= CountPart(f.mesh.vertices, PostPart)
  }

  /** The commit after a loop that did not throw: the buffers go to the mesh,
      the vertex and triangle counts are taken from them, and the renderer gets
      the de-duplicated materials. */
  function Commit(partial: Fence, b: Builder, all: seq<Material>): (f: Fence)
    requires Valid(b) && |b.buffers.submeshes| == |all| && NoDuplicates(all)
    requires partial.buffers == b.buffers
    requires 24 * partial.stats.picketCount == CountPart(b.buffers.verts, PicketPart)
    requires 24 * partial.stats.totalPosts >= CountPart(b.buffers.verts, PostPart)
    ensures MeshCommitted(f)
    ensures f == partial.(mesh := f.mesh, sharedMaterials := all,
      stats := partial.stats.(vertexCount := f.stats.vertexCount, triCount := f.stats.triCount))
  {
    var v := |b.buffers.verts|;
    var t := TotalIndices(b.buffers.submeshes);
    assert v == 2 * (t / 3) by {
      assert 2 * t == 3 * v && v % 24 == 0;
    }
    partial.(mesh := MeshData(b.buffers.verts, b.buffers.uvs, b.buffers.submeshes), sharedMaterials := all,
      stats := partial.stats.(vertexCount := v, triCount := t / 3))
  }

  /** A build over a path of at least two sections, each with a preset: the
      segment loop, then the commit unless the loop threw. */
  function BuildPath(reset: Fence, presets: seq<FenceData>, world: World): (r: BuildResult)
    requires |reset.sections| >= 2 && PresetsResolve(reset.sections, presets)
    requires SegmentLengthsPositive(reset.sections, presets)
    ensures ClampedFrom(r.presets, presets)
    ensures r.fence == reset.(buffers := r.fence.buffers, stats := r.fence.stats, mesh := r.fence.mesh, sharedMaterials := r.fence.sharedMaterials)
    ensures r.fault.Some? ==>
      && r.fault == Some(ArgumentOutOfRange)
      && r.fence.mesh == reset.mesh && r.fence.sharedMaterials == reset.sharedMaterials
      && r.fence.stats.vertexCount == reset.stats.vertexCount && r.fence.stats.triCount == reset.stats.triCount
    ensures r.fault.None? ==> MeshCommitted(r.fence)
  {
    var ctx := BuildContext(reset, presets, world);
    var st := StartState(ctx, presets);
    var e := BuildSegments(ctx, 0, st);
    BuildSegmentsBuffers(ctx, 0, st);
    var b := e.state.builder.buffers;
    var partial := reset.(buffers := b,
      stats := reset.stats.(totalLength := e.state.totalLength, totalPosts := e.state.totalPosts, picketCount := e.state.picketCount));
    if e.fault.Some? then BuildResult(partial, e.state.presets, e.fault)
    else
      assert CountPart([], PicketPart) == 0 && CountPart([], PostPart) == 0;
      BuildResult(Commit(partial, e.state.builder, ctx.all), e.state.presets, None)
  }

  /** `Fence.BuildFence`. Fewer than two sections: nothing happens. Otherwise the
      statistics are reset and the mesh cleared; a section without a preset
      throws while the materials are gathered; then the segment loop runs, and
      unless it throws, the buffers are committed to the mesh and the renderer
      gets the de-duplicated materials. An exception leaves behind whatever the
      fields held at that point. */
  function BuildFence(f: Fence, presets: seq<FenceData>, world: World): (r: BuildResult)
    requires RefsValid(f.sections, |presets|)
    requires SegmentLengthsPositive(f.sections, presets)
    ensures ClampedFrom(r.presets, presets)
    ensures r.fence.sections == f.sections && r.fence.position == f.position
    ensures r.fence.conformMask == f.conformMask && r.fence.selectedSectionIndex == f.selectedSectionIndex
    ensures |f.sections| < 2 ==> r == BuildResult(f, presets, None)
    ensures |f.sections| >= 2 && !NoNullPresets(f.sections) ==>
      && r.fault == Some(NullReference) && r.presets == presets
      && r.fence == f.(stats := ResetStats(f.stats), mesh := EmptyMesh)
    ensures |f.sections| >= 2 && NoNullPresets(f.sections) ==> r.fault != Some(NullReference)
    ensures r.fault.Some? && r.fault != Some(NullReference) ==>
      && r.fault == Some(ArgumentOutOfRange)
      && r.fence.mesh == EmptyMesh
      && r.fence.sharedMaterials == f.sharedMaterials
      && r.fence.stats.vertexCount == f.stats.vertexCount && r.fence.stats.triCount == f.stats.triCount
    ensures r.fault.None? && |f.sections| >= 2 ==> MeshCommitted(r.fence)
  {
    if |f.sections| < 2 then BuildResult(f, presets, None)
    else
      var reset := f.(stats := ResetStats(f.stats), mesh := EmptyMesh);
      if !NoNullPresets(f.sections) then BuildResult(reset, presets, Some(NullReference))
      else BuildPath(reset, presets, world)
  }

  /** The renderer's materials after a completed build: every material of every
      preset in use, each once, in the order the sections and their material
      lists first mention them. */
  lemma BuildFenceMaterials(f: Fence, presets: seq<FenceData>, world: World)
    requires RefsValid(f.sections, |presets|) && SegmentLengthsPositive(f.sections, presets)
    ensures var r := BuildFence(f, presets, world);
      |f.sections| >= 2 && r.fault.None? ==>
        && PresetsResolve(f.sections, presets)
        && NoDuplicates(r.fence.sharedMaterials)
        && MaterialsCovered(r.fence.sharedMaterials, f.sections, presets)
        && (forall n | 0 <= n < |r.fence.sharedMaterials| :: FromSomePreset(r.fence.sharedMaterials[n], f.sections, presets))
        && InFirstOccurrenceOrder(r.fence.sharedMaterials, SectionMaterials(f.sections, presets))
  {
  }

  /** A completed build's total length is the length of the path up to the
      first segment too short to build. */
  lemma BuildFenceLength(f: Fence, presets: seq<FenceData>, world: World)
    requires RefsValid(f.sections, |presets|) && SegmentLengthsPositive(f.sections, presets)
    ensures var r := BuildFence(f, presets, world);
      |f.sections| >= 2 && r.fault.None? ==>
        && PresetsResolve(f.sections, presets)
        && r.fence.stats.totalLength == PathLength(BuildContext(f, presets, world), 0)
  {
    if |f.sections| >= 2 && NoNullPresets(f.sections) {
      var reset := f.(stats := ResetStats(f.stats), mesh := EmptyMesh);
      var ctx := BuildContext(reset, presets, world);
      assert ctx == BuildContext(f, presets, world);
      BuildSegmentsLength(ctx, 0, StartState(ctx, presets));
    }
  }

  /** Which exception a build raises: a null preset anywhere on a path of two
      or more sections raises `NullReference`; otherwise the build raises
      `ArgumentOutOfRange` exactly when a segment it reaches has a preset with
      fewer than three materials. */
  lemma BuildFenceFaults(f: Fence, presets: seq<FenceData>, world: World)
    requires RefsValid(f.sections, |presets|) && SegmentLengthsPositive(f.sections, presets)
    ensures var r := BuildFence(f, presets, world);
      && (r.fault == Some(NullReference) <==> |f.sections| >= 2 && !NoNullPresets(f.sections))
      && (|f.sections| >= 2 && NoNullPresets(f.sections) ==>
        var ctx := BuildContext(f, presets, world);
        r.fault.None? <==> SlotsPresent(ctx, presets, 0, Reach(ctx, 0)))
  {
    if |f.sections| >= 2 && NoNullPresets(f.sections) {
      var reset := f.(stats := ResetStats(f.stats), mesh := EmptyMesh);
      var ctx := BuildContext(reset, presets, world);
      assert ctx == BuildContext(f, presets, world);
      BuildSegmentsFaults(ctx, 0, StartState(ctx, presets));
    }
  }

  /** A build over two or more sections with presets leaves the first
      section's preset with its picket gap clamped to at least 0.01. */
  lemma BuildFenceClampsFirst(f: Fence, presets: seq<FenceData>, world: World)
    requires RefsValid(f.sections, |presets|) && SegmentLengthsPositive(f.sections, presets)
    requires |f.sections| >= 2 && NoNullPresets(f.sections)
    ensures var ref := f.sections[0].data.value;
      && BuildFence(f, presets, world).presets[ref] == ClampPicketGap(presets[ref])
      && BuildFence(f, presets, world).presets[ref].picketGap >= MinPicketGap
  {
    var reset := f.(stats := ResetStats(f.stats), mesh := EmptyMesh);
    var ctx := BuildContext(reset, presets, world);
    BuildSegmentsClampsFirst(ctx, 0, StartState(ctx, presets));
  }

  /** A path whose presets are all freshly created ones throws as soon as its
      first segment is long enough to build: a new preset has no materials. */
  lemma FreshPresetCannotBuild(f: Fence, world: World)
    requires |f.sections| >= 2
    requires forall i | 0 <= i < |f.sections| :: f.sections[i].data == Some(0)
    requires world.distance(Sub(f.sections[0].cornerPoint, f.position), Sub(f.sections[1].cornerPoint, f.position)) > Epsilon
    ensures RefsValid(f.sections, 1) && SegmentLengthsPositive(f.sections, [NewFenceData()])
    ensures var r := BuildFence(f, [NewFenceData()], world);
      && r.fault == Some(ArgumentOutOfRange)
      && r.presets == [NewFenceData()]
      && r.fence.buffers.verts == []
      && r.fence.mesh == EmptyMesh
  {
    var presets := [NewFenceData()];
    NewFenceDataDefaults();
    assert SegmentLengthsPositive(f.sections, presets);
    var reset := f.(stats := ResetStats(f.stats), mesh := EmptyMesh);
    var ctx := BuildContext(reset, presets, world);
    assert SegmentLength(ctx, 0) > Epsilon;
    assert ClampAt(presets, 0) == presets;
  }

  // ---------------------------------------------------------------------------
  // Rebuilding

  /** Each preset of `mid` is the one of `before` or the one of `after`. */
  predicate Between(mid: seq<FenceData>, before: seq<FenceData>, after: seq<FenceData>) {
    |mid| == |before| && |after| == |before| &&
    forall k | 0 <= k < |before| :: mid[k] == before[k] || mid[k] == after[k]
  }

  /** Building a segment from presets whose clamp for that segment agrees gives
      the same boxes and statistics. */
  lemma AdvanceReplay(ctx: Context, i: nat, st: LoopState, q: seq<FenceData>)
    requires LoopReady(ctx, st) && LoopReady(ctx, st.(presets := q)) && i + 1 < |ctx.sections|
    requires SegmentLength(ctx, i) > Epsilon
    requires |Preset(ctx.sections, st.presets, i).materials| >= 3
    requires |Preset(ctx.sections, q, i).materials| >= 3
    requires ClampPicketGap(q[ctx.sections[i].data.value]) == ClampPicketGap(st.presets[ctx.sections[i].data.value])
    ensures Advance(ctx, i, st.(presets := q)) ==
      Advance(ctx, i, st).(presets := ClampAt(q, ctx.sections[i].data.value))
  {
  }

  /** Clamping one preset in both the start and the part-way presets keeps
      the part-way presets between the new start and the same end. */
  lemma BetweenClampAt(q: seq<FenceData>, p: seq<FenceData>, e: seq<FenceData>, ref: nat)
    requires Between(q, p, e) && ClampedFrom(e, p) && ref < |p| && e[ref] == ClampPicketGap(p[ref])
    ensures ClampedFrom(q, p)
    ensures ClampPicketGap(q[ref]) == ClampPicketGap(p[ref])
    ensures Between(ClampAt(q, ref), ClampAt(p, ref), e)
    ensures e == ClampAt(p, ref) ==> ClampAt(q, ref) == e
  {
    ClampPicketGapIdempotent(p[ref]);
    forall k | 0 <= k < |p| ensures q[k] == p[k] || q[k] == ClampPicketGap(p[k]) {
      assert e[k] == p[k] || e[k] == ClampPicketGap(p[k]);
    }
    if e == ClampAt(p, ref) {
      var q1 := ClampAt(q, ref);
      assert forall k | 0 <= k < |e| :: q1[k] == e[k];
    }
  }

  /** Running the loop again from presets part-way between its start and its
      end gives exactly the same result: every clamp it repeats is already
      done, and the clamp affects nothing else. */
  lemma {:induction false} BuildSegmentsReplay(ctx: Context, i: nat, st: LoopState, q: seq<FenceData>)
    requires LoopReady(ctx, st)
    requires Between(q, st.presets, BuildSegments(ctx, i, st).state.presets)
    ensures LoopReady(ctx, st.(presets := q))
    ensures BuildSegments(ctx, i, st.(presets := q)) == BuildSegments(ctx, i, st)
    decreases |ctx.sections| - i
  {
    var p := st.presets;
    var e := BuildSegments(ctx, i, st).state.presets;
    if i + 1 < |ctx.sections| {
      var ref := ctx.sections[i].data.value;
      BuildSegmentsClampsFirst(ctx, i, st);
      BetweenClampAt(q, p, e, ref);
      ClampedKeepsPresetFacts(ctx.sections, ctx.all, q, p);
      var p1 := ClampAt(p, ref);
      var q1 := ClampAt(q, ref);
      ClampedKeepsPresetFacts(ctx.sections, ctx.all, p1, p);
      ClampedKeepsPresetFacts(ctx.sections, ctx.all, q1, q);
      if SegmentLength(ctx, i) > Epsilon && |p1[ref].materials| >= 3 {
        assert Preset(ctx.sections, p, i).materials == p1[ref].materials;
        assert Preset(ctx.sections, q, i).materials == p1[ref].materials;
        var st2 := Advance(ctx, i, st);
        AdvanceReplay(ctx, i, st, q);
        BuildSegmentsReplay(ctx, i + 1, st2, q1);
      }
    } else {
      assert q == p;
    }
  }

  /** Building twice is building once: the second build, from the fence and
      the presets the first left behind, reproduces them exactly, whether the
      first completed or threw. */
  lemma BuildFenceIdempotent(f: Fence, presets: seq<FenceData>, world: World)
    requires RefsValid(f.sections, |presets|) && SegmentLengthsPositive(f.sections, presets)
    ensures var r := BuildFence(f, presets, world);
      && RefsValid(r.fence.sections, |r.presets|)
      && SegmentLengthsPositive(r.fence.sections, r.presets)
      && BuildFence(r.fence, r.presets, world) == r
  {
    var r := BuildFence(f, presets, world);
    if |f.sections| >= 2 && NoNullPresets(f.sections) {
      var reset := f.(stats := ResetStats(f.stats), mesh := EmptyMesh);
      var ctx := BuildContext(reset, presets, world);
      var st := StartState(ctx, presets);
      var e := BuildSegments(ctx, 0, st);
      assert r.presets == e.state.presets;
      ClampedKeepsPresetFacts(f.sections, ctx.all, r.presets, presets);
      var reset2 := r.fence.(stats := ResetStats(r.fence.stats), mesh := EmptyMesh);
      assert BuildContext(reset2, r.presets, world) == ctx;
      assert StartState(ctx, r.presets) == st.(presets := r.presets);
      BuildSegmentsReplay(ctx, 0, st, r.presets);
    }
  }

  // ---------------------------------------------------------------------------
  // What the build reads of a section

  /** Two paths that agree, section by section, on everything the build reads. */
  predicate SameInputs(s: seq<FenceSection>, t: seq<FenceSection>) {
    |s| == |t| && forall i | 0 <= i < |s| :: SameBuildInputs(s[i], t[i])
  }

  lemma {:induction false} SectionMaterialsSameInputs(s: seq<FenceSection>, t: seq<FenceSection>, presets: seq<FenceData>)
    requires PresetsResolve(s, presets) && SameInputs(s, t)
    ensures PresetsResolve(t, presets)
    ensures SectionMaterials(t, presets) == SectionMaterials(s, presets)
    decreases |s|
  {
    if |s| > 0 {
      var n := |s| - 1;
      assert PresetsResolve(s[..n], presets) && SameInputs(s[..n], t[..n]);
      SectionMaterialsSameInputs(s[..n], t[..n], presets);
    }
  }

  /** What the loop requires, the segment lengths and the presets carry over
      to a path that agrees on every section's corner, preset and flip. */
  lemma LoopReadySameInputs(ctx: Context, t: seq<FenceSection>, st: LoopState)
    requires LoopReady(ctx, st) && SameInputs(ctx.sections, t)
    ensures LoopReady(ctx.(sections := t), st)
    ensures forall j | 0 <= j < |t| :: Preset(t, st.presets, j) == Preset(ctx.sections, st.presets, j)
    ensures forall j: nat | j + 1 < |t| :: SegmentLength(ctx.(sections := t), j) == SegmentLength(ctx, j)
  {
    var ctx' := ctx.(sections := t);
    assert forall j | 0 <= j < |t| :: Preset(t, st.presets, j) == Preset(ctx.sections, st.presets, j);
    assert PresetsResolve(t, st.presets);
    forall i, k | 0 <= i < |t| && 0 <= k < |Preset(t, st.presets, i).materials|
      ensures Preset(t, st.presets, i).materials[k] in ctx.all
    {
      assert Preset(t, st.presets, i) == Preset(ctx.sections, st.presets, i);
    }
  }

  lemma AdvanceSameInputs(ctx: Context, t: seq<FenceSection>, i: nat, st: LoopState)
    requires LoopReady(ctx, st) && SameInputs(ctx.sections, t) && i + 1 < |ctx.sections|
    requires SegmentLength(ctx, i) > Epsilon
    requires |Preset(ctx.sections, st.presets, i).materials| >= 3
    ensures LoopReady(ctx.(sections := t), st)
    ensures |Preset(t, st.presets, i).materials| >= 3 && SegmentLength(ctx.(sections := t), i) > Epsilon
    ensures Advance(ctx.(sections := t), i, st) == Advance(ctx, i, st)
  {
    LoopReadySameInputs(ctx, t, st);
  }

  /** Whether the segment loop from segment `i` on ends alike in two contexts. */
  predicate EndsAlike(ctx: Context, ctx2: Context, i: nat, st: LoopState)
    requires LoopReady(ctx, st) && LoopReady(ctx2, st)
  {
    BuildSegments(ctx2, i, st) == BuildSegments(ctx, i, st)
  }

  /** Whether the loop from segment `i` on ends alike in both contexts, from
      every state it can be in. */
  ghost predicate AllEndAlike(ctx: Context, ctx2: Context, i: nat) {
    forall st {:trigger EndsAlike(ctx, ctx2, i, st)} | LoopReady(ctx, st) && LoopReady(ctx2, st) :: EndsAlike(ctx, ctx2, i, st)
  }

  /** The segment loop gives the same result on two paths that agree on every
      section's corner, preset and flip. */
  lemma {:induction false} BuildSegmentsSameInputs(ctx: Context, ctx2: Context, i: nat)
    requires ctx2 == ctx.(sections := ctx2.sections) && SameInputs(ctx.sections, ctx2.sections)
    ensures AllEndAlike(ctx, ctx2, i)
    decreases |ctx.sections| - i
  {
    if i + 1 < |ctx.sections| {
      BuildSegmentsSameInputs(ctx, ctx2, i + 1);
    }
    SameInputsStepAll(ctx, ctx2, i);
  }

  /** If the loop ends alike from segment `i + 1` on, it ends alike from `i`. */
  lemma SameInputsStepAll(ctx: Context, ctx2: Context, i: nat)
    requires ctx2 == ctx.(sections := ctx2.sections) && SameInputs(ctx.sections, ctx2.sections)
    requires i + 1 < |ctx.sections| ==> AllEndAlike(ctx, ctx2, i + 1)
    ensures AllEndAlike(ctx, ctx2, i)
  {
    forall st | LoopReady(ctx, st) && LoopReady(ctx2, st) ensures EndsAlike(ctx, ctx2, i, st) {
      var next := SameInputsUnfold(ctx, ctx2, i, st);
    }
  }

  /** One iteration on both paths: either both continue from the same state
      `next`, or both have already ended alike. */
  lemma SameInputsUnfold(ctx: Context, ctx2: Context, i: nat, st: LoopState) returns (next: Option<LoopState>)
    requires ctx2 == ctx.(sections := ctx2.sections) && SameInputs(ctx.sections, ctx2.sections)
    requires LoopReady(ctx, st) && LoopReady(ctx2, st)
    ensures next.Some? ==> i + 1 < |ctx.sections| && LoopReady(ctx, next.value) && LoopReady(ctx2, next.value)
    ensures next.Some? ==> (EndsAlike(ctx, ctx2, i + 1, next.value) ==> EndsAlike(ctx, ctx2, i, st))
    ensures next.None? ==> EndsAlike(ctx, ctx2, i, st)
  {
    var t := ctx2.sections;
    if i + 1 >= |ctx.sections| {
      SameInputsEnd(ctx, t, i, st);
      next := None;
    } else if SegmentLength(ctx, i) > Epsilon && |Preset(ctx.sections, st.presets, i).materials| >= 3 {
      SameInputsStep(ctx, t, i, st);
      var st2 := Advance(ctx, i, st);
      LoopReadySameInputs(ctx, t, st2);
      next := Some(st2);
    } else {
      SameInputsStop(ctx, t, i, st);
      next := None;
    }
  }

  /** Past the last segment: both paths end where they are. */
  lemma SameInputsEnd(ctx: Context, t: seq<FenceSection>, i: nat, st: LoopState)
    requires LoopReady(ctx, st) && SameInputs(ctx.sections, t) && i + 1 >= |ctx.sections|
    ensures LoopReady(ctx.(sections := t), st)
    ensures BuildSegments(ctx.(sections := t), i, st) == BuildSegments(ctx, i, st)
  {
    LoopReadySameInputs(ctx, t, st);
    assert BuildSegments(ctx.(sections := t), i, st) == LoopEnd(st, None);
  }

  /** A segment the loop builds: both paths continue from the same state. */
  lemma SameInputsStep(ctx: Context, t: seq<FenceSection>, i: nat, st: LoopState)
    requires LoopReady(ctx, st) && SameInputs(ctx.sections, t) && i + 1 < |ctx.sections|
    requires SegmentLength(ctx, i) > Epsilon && |Preset(ctx.sections, st.presets, i).materials| >= 3
    ensures LoopReady(ctx.(sections := t), st) && LoopReady(ctx, Advance(ctx, i, st))
    ensures BuildSegments(ctx, i, st) == BuildSegments(ctx, i + 1, Advance(ctx, i, st))
    ensures BuildSegments(ctx.(sections := t), i, st) == BuildSegments(ctx.(sections := t), i + 1, Advance(ctx, i, st))
  {
    var ref := ctx.sections[i].data.value;
    var presets := ClampAt(st.presets, ref);
    ClampedKeepsPresetFacts(ctx.sections, ctx.all, presets, st.presets);
    assert Preset(ctx.sections, st.presets, i).materials == presets[ref].materials;
    AdvanceSameInputs(ctx, t, i, st);
  }

  /** A segment where the loop stops or throws: both paths end alike. */
  lemma SameInputsStop(ctx: Context, t: seq<FenceSection>, i: nat, st: LoopState)
    requires LoopReady(ctx, st) && SameInputs(ctx.sections, t) && i + 1 < |ctx.sections|
    requires !(SegmentLength(ctx, i) > Epsilon && |Preset(ctx.sections, st.presets, i).materials| >= 3)
    ensures LoopReady(ctx.(sections := t), st)
    ensures BuildSegments(ctx.(sections := t), i, st) == BuildSegments(ctx, i, st)
  {
    LoopReadySameInputs(ctx, t, st);
    var ref := ctx.sections[i].data.value;
    var presets := ClampAt(st.presets, ref);
    ClampedKeepsPresetFacts(ctx.sections, ctx.all, presets, st.presets);
    assert Preset(ctx.sections, st.presets, i).materials == presets[ref].materials;
  }

  /** The build never reads a section's height modifier or stored length:
      paths that differ only there build the same mesh, statistics, presets
      and exception. */
  lemma BuildFenceIgnoresHeightAndLength(f: Fence, t: seq<FenceSection>, presets: seq<FenceData>, world: World)
    requires RefsValid(f.sections, |presets|) && SegmentLengthsPositive(f.sections, presets)
    requires SameInputs(f.sections, t)
    ensures RefsValid(t, |presets|) && SegmentLengthsPositive(t, presets)
    ensures var r := BuildFence(f, presets, world);
      BuildFence(f.(sections := t), presets, world) == r.(fence := r.fence.(sections := t))
  {
    assert NoNullPresets(t) <==> NoNullPresets(f.sections);
    if |f.sections| >= 2 && NoNullPresets(f.sections) {
      SectionMaterialsSameInputs(f.sections, t, presets);
      var reset := f.(stats := ResetStats(f.stats), mesh := EmptyMesh);
      var ctx := BuildContext(reset, presets, world);
      assert BuildContext(reset.(sections := t), presets, world) == ctx.(sections := t);
      LoopReadySameInputs(ctx, t, StartState(ctx, presets));
      BuildSegmentsSameInputs(ctx, ctx.(sections := t), 0);
      assert EndsAlike(ctx, ctx.(sections := t), 0, StartState(ctx, presets));
    }
  }

  // ---------------------------------------------------------------------------
  // Editing the path

  /** `Fence.AddSection`: appends a section at `pos` taken relative to the
      fence's position. Its preset is the one given, or when none is given the
      last section's preset, or null on an empty path. */
  function AddSection(f: Fence, pos: Vec3, data: Option<PresetRef>): (g: Fence)
    ensures |g.sections| == |f.sections| + 1 && g.sections[..|f.sections|] == f.sections
    ensures g == f.(sections := g.sections)
    ensures var added := g.sections[|f.sections|];
      && Add(added.cornerPoint, f.position) == pos
      && !added.flipFence && added.heightModifier == 1.0 && added.length == 0.0
      && (data.Some? ==> added.data == data)
      && (data.None? && |f.sections| > 0 ==> added.data == f.sections[|f.sections| - 1].data)
      && (data.None? && |f.sections| == 0 ==> added.data.None?)
    ensures NoNullPresets(f.sections) && (data.Some? || |f.sections| > 0) ==> NoNullPresets(g.sections)
    ensures forall n: nat :: RefsValid(f.sections, n) && (data.Some? ==> data.value < n) ==> RefsValid(g.sections, n)
  {
    var d := if data.Some? then data else if |f.sections| > 0 then f.sections[|f.sections| - 1].data else None;
    var g := f.(sections := f.sections + [NewSection(Sub(pos, f.position), d)]);
    assert g.sections[..|f.sections|] == f.sections;
    g
  }

  /** `Fence.RemoveSection`: `List.RemoveAt(index)`, which throws unless the
      index names a section, and otherwise closes the gap keeping the order. */
  function RemoveSection(f: Fence, index: int): (o: Outcome)
    ensures o.Done? <==> 0 <= index < |f.sections|
    ensures o.Fails? ==> o.fault == ArgumentOutOfRange
    ensures o.Done? ==>
      && o.fence == f.(sections := o.fence.sections)
      && |o.fence.sections| + 1 == |f.sections|
      && (forall k | 0 <= k < index :: o.fence.sections[k] == f.sections[k])
      && (forall k | index <= k < |o.fence.sections| :: o.fence.sections[k] == f.sections[k + 1])
  {
    if 0 <= index < |f.sections| then Done(f.(sections := f.sections[..index] + f.sections[index + 1..]))
    else Fails(ArgumentOutOfRange)
  }

  /** `Fence.RemoveLastSection`: drops the last section; on an empty path the
      index `Count - 1` is out of range and the removal throws. */
  function RemoveLastSection(f: Fence): (o: Outcome)
    ensures o.Done? <==> |f.sections| > 0
    ensures o.Fails? ==> o.fault == ArgumentOutOfRange
    ensures o.Done? ==> o.fence == f.(sections := f.sections[..|f.sections| - 1])
  {
    if |f.sections| == 0 then Fails(ArgumentOutOfRange)
    else Done(f.(sections := f.sections[..|f.sections| - 1]))
  }

  /** Removing the last section is removing at index `Count - 1`. */
  lemma RemoveLastIsRemoveAtEnd(f: Fence)
    ensures RemoveLastSection(f) == RemoveSection(f, |f.sections| - 1)
  {
    if |f.sections| > 0 {
      assert f.sections[|f.sections|..] == [];
    }
  }

  /** Adding a section and removing the last one restores the fence. */
  lemma AddThenRemoveLast(f: Fence, pos: Vec3, data: Option<PresetRef>)
    ensures RemoveLastSection(AddSection(f, pos, data)) == Done(f)
  {
  }

  /** Removing any section and inserting it back where it was restores the
      path. */
  lemma RemoveSectionInverse(f: Fence, index: int)
    requires 0 <= index < |f.sections|
    ensures var g := RemoveSection(f, index).fence;
      g.sections[..index] + [f.sections[index]] + g.sections[index..] == f.sections
  {
    var g := RemoveSection(f, index).fence;
    assert g.sections[..index] == f.sections[..index];
    assert g.sections[index..] == f.sections[index + 1..];
    assert f.sections == f.sections[..index] + [f.sections[index]] + f.sections[index + 1..];
  }

  /** `Fence.ClampSelectionIndex`: `Mathf.Clamp(index, 0, Count - 1)`, which
      tests the lower bound first; on an empty path an index below zero
      becomes 0 and any other index becomes -1. */
  function ClampSelectionIndex(f: Fence): (g: Fence)
    ensures g == f.(selectedSectionIndex := g.selectedSectionIndex)
    ensures |f.sections| > 0 ==> 0 <= g.selectedSectionIndex < |f.sections|
    ensures 0 <= f.selectedSectionIndex < |f.sections| ==> g == f
    ensures |f.sections| > 0 && f.selectedSectionIndex >= |f.sections| ==> g.selectedSectionIndex == |f.sections| - 1
    ensures f.selectedSectionIndex < 0 ==> g.selectedSectionIndex == 0
    ensures |f.sections| == 0 && f.selectedSectionIndex >= 0 ==> g.selectedSectionIndex == -1
  {
    f.(selectedSectionIndex := ClampInt(f.selectedSectionIndex, 0, |f.sections| - 1))
  }

  /** On a non-empty path clamping twice is clamping once. On an empty path
      the clamp never settles: it sends a negative index to 0 and any other
      index to -1, so repeated clamps alternate between the two. */
  lemma ClampSelectionIndexIdempotent(f: Fence)
    ensures |f.sections| > 0 ==>
      ClampSelectionIndex(ClampSelectionIndex(f)) == ClampSelectionIndex(f)
    ensures |f.sections| == 0 ==>
      ClampSelectionIndex(ClampSelectionIndex(f)).selectedSectionIndex == (if f.selectedSectionIndex < 0 then -1 else 0)
  {
  }

  /** After removing a section, clamping the selection makes it a valid
      index unless the path is now empty. */
  lemma RemoveThenClampSelects(f: Fence, index: int)
    requires 0 <= index < |f.sections| && |f.sections| >= 2
    ensures var g := ClampSelectionIndex(RemoveSection(f, index).fence);
      0 <= g.selectedSectionIndex < |g.sections| && g.sections == RemoveSection(f, index).fence.sections
  {
  }
}
