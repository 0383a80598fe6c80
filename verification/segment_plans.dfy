/**
 The boxes one path segment contributes to the fence mesh, in the order the
 build loop of `Fence.BuildFence` emits them, together with the post and
 picket counters the segment adds. A segment runs from one section's corner
 point to the next and is styled by the first section's preset.

 Two layouts exist: the straight layout (conform mode `None`) and the
 ground-following layout (conform mode `Ground`). Geometry the build computes
 with rotations and normalised directions is not modelled; what the layouts
 depend on from the scene comes from a `World` of oracles.
 */
module SegmentPlans {
  import opened Unity
  import opened FenceDataModel
  import opened CubeMesh

  /** One terrain sample of the ground layout: the point in local space and the
      surface normal there. */
  datatype Sample = Sample(point: Vec3, normal: Vec3)

  /** Everything the build consults outside the fence itself.
      - `distance`: `Vector3.Distance`.
      - `raycast(origin, direction, maxDistance, layerMask)`: `Physics.Raycast`.
      - `railBlocked(segment, samples, post, rail)`: whether the obstruction
        raycast along that rail of the ground layout hits something.
      - `railLength(segment, samples, post, rail)`: that rail's length.
      - `picketRowLength(segment, samples, post)`: the distance from the post's
        picket start point to the next post in the ground layout. */
  datatype World = World(
    distance: (Vec3, Vec3) -> real,
    raycast: (Vec3, Vec3, real, int) -> Option<Hit>,
    railBlocked: (nat, seq<Sample>, nat, nat) -> bool,
    railLength: (nat, seq<Sample>, nat, nat) -> real,
    picketRowLength: (nat, seq<Sample>, nat) -> real)

  /** The submesh index of each of a preset's three material slots. */
  datatype MeshIds = MeshIds(post: nat, rail: nat, picket: nat)

  /** What one segment contributes: the boxes in emission order and the amounts
      it adds to `totalPosts` and `picketCount`. */
  datatype Plan = Plan(emissions: seq<Emission>, posts: nat, pickets: nat)

  /** The submesh a box of a given part is written to. */
  function MeshIdOf(ids: MeshIds, p: Part): nat {
    match p
    case PostPart => ids.post
    case RailPart => ids.rail
    case PicketPart => ids.picket
  }

  /** Every box belongs to segment `seg` and goes to its part's submesh. */
  predicate WellRouted(es: seq<Emission>, seg: nat, ids: MeshIds) {
    forall k | 0 <= k < |es| ::
      es[k].cube.tag.segment == seg && es[k].meshId == MeshIdOf(ids, es[k].cube.tag.part)
  }

  lemma WellRoutedAppend(a: seq<Emission>, b: seq<Emission>, seg: nat, ids: MeshIds)
    requires WellRouted(a, seg, ids) && WellRouted(b, seg, ids)
    ensures WellRouted(a + b, seg, ids)
  {
    forall k | 0 <= k < |a + b|
      ensures (a + b)[k].cube.tag.segment == seg
      ensures (a + b)[k].meshId == MeshIdOf(ids, (a + b)[k].cube.tag.part)
    {
      if k < |a| {
        assert (a + b)[k] == a[k];
      } else {
        assert (a + b)[k] == b[k - |a|];
      }
    }
  }

  /** Routed boxes land in submeshes that exist when the three slot ids do. */
  lemma WellRoutedBelow(es: seq<Emission>, seg: nat, ids: MeshIds, count: nat)
    requires WellRouted(es, seg, ids)
    requires ids.post < count && ids.rail < count && ids.picket < count
    ensures MeshIdsBelow(es, count)
  {
    forall k | 0 <= k < |es| ensures es[k].meshId < count {
      assert es[k].meshId == MeshIdOf(ids, es[k].cube.tag.part);
    }
  }

  // ---------------------------------------------------------------------------
  // Lateral offsets

  /** `flipFactor`: +1 for a flipped section, -1 otherwise. */
  function FlipFactor(flip: bool): (f: real)
    ensures f == 1.0 || f == -1.0
    ensures f == 1.0 <==> flip
  {
    if flip then 1.0 else -1.0
  }

  /** How far the rails sit from the post centre line: nothing for inset joints,
      half a post plus half a rail for offset joints, on the side the flip
      chooses. */
  function RailCenterOffset(d: FenceData, flip: bool): (o: real)
    ensures d.postJointMode == Inset ==> o == 0.0
    ensures d.postJointMode == Offset ==>
      o == FlipFactor(flip) * (d.postDimensions.x * 0.5 + d.railThickness * 0.5)
  {
    var base := if d.postJointMode == Inset then 0.0 else d.postDimensions.x * 0.5 + d.railThickness * 0.5;
    base * FlipFactor(flip)
  }

  /** How far the pickets sit from the post centre line: the rail offset, pulled
      back by half a rail and half a picket so the pickets rest against the rails. */
  function PicketLateral(d: FenceData, flip: bool): (o: real)
    ensures FlipFactor(flip) * (RailCenterOffset(d, flip) - o) == (d.railThickness + d.picketDimensions.x) / 2.0
    ensures d.railThickness > 0.0 && d.picketDimensions.x > 0.0 ==>
      (if flip then o < RailCenterOffset(d, flip) else o > RailCenterOffset(d, flip))
  {
    RailCenterOffset(d, flip) - (d.railThickness * 0.5 + d.picketDimensions.x * 0.5) * FlipFactor(flip)
  }

  /** Flipping a section mirrors its rails and pickets across the post line. */
  lemma FlipMirrorsOffsets(d: FenceData)
    ensures RailCenterOffset(d, true) == -RailCenterOffset(d, false)
    ensures PicketLateral(d, true) == -PicketLateral(d, false)
  {
  }

  // ---------------------------------------------------------------------------
  // Picket rows

  /** `Mathf.CeilToInt(rowLength / pitch)` pickets, looped over with `p < count`.
      A pitch that is not positive gives no pickets: the quotient is then
      negative, or infinite or NaN, which the integer conversion turns into
      `int.MinValue`. */
  function PicketsToSpan(rowLength: real, pitch: real): (n: nat)
    ensures pitch <= 0.0 || rowLength <= 0.0 ==> n == 0
    ensures pitch > 0.0 && rowLength > 0.0 ==> (n - 1) as real * pitch < rowLength <= n as real * pitch
  {
    if pitch <= 0.0 then 0
    else
      CeilCovers(rowLength, pitch);
      LoopCount(Ceil(rowLength / pitch))
  }

  /** `Ceil(len / pitch)` pitches cover `len`, one fewer do not. */
  lemma CeilCovers(len: real, pitch: real)
    requires pitch > 0.0
    ensures len <= 0.0 ==> Ceil(len / pitch) <= 0
    ensures len > 0.0 ==> (Ceil(len / pitch) - 1) as real * pitch < len <= Ceil(len / pitch) as real * pitch
  {
    var q := len / pitch;
    var c := Ceil(q);
    DivisionUndone(len, pitch);
    if len > 0.0 {
      var below := (c - 1) as real;
      var above := c as real;
      assert below < q <= above;
      ScaleStrict(below, q, pitch);
      ScaleStrict(q, above, pitch);
      assert below * pitch < q * pitch;
      assert q * pitch <= above * pitch;
      assert q * pitch == len;
    } else {
      QuotientMonotone(len, 0.0, pitch);
    }
  }

  lemma DivisionUndone(a: real, p: real)
    requires p > 0.0
    ensures (a / p) * p == a
  {
  }

  /** Multiplying by a positive factor keeps the order of two reals. */
  lemma ScaleStrict(a: real, b: real, p: real)
    requires p > 0.0
    ensures a < b ==> a * p < b * p
    ensures a <= b ==> a * p <= b * p
  {
    assert b * p - a * p == (b - a) * p;
  }

  /** A longer row never gets fewer pickets. */
  lemma PicketsToSpanMonotone(a: real, b: real, pitch: real)
    requires pitch > 0.0 && a <= b
    ensures PicketsToSpan(a, pitch) <= PicketsToSpan(b, pitch)
  {
    QuotientMonotone(a, b, pitch);
  }

  lemma QuotientMonotone(a: real, b: real, p: real)
    requires p > 0.0 && a <= b
    ensures a / p <= b / p
    ensures a <= 0.0 ==> a / p <= 0.0
  {
    assert b / p - a / p == (b - a) / p;
  }

  /** The spacing the pickets are laid at: the picket depth plus the gap. */
  function PicketPitch(d: FenceData): (p: real)
    ensures d.picketGap >= MinPicketGap && d.picketDimensions.y >= 0.0 ==> p >= MinPicketGap
  {
    d.picketDimensions.y + d.picketGap
  }

  // ---------------------------------------------------------------------------
  // Straight layout

  /** The distance between the two ends of the picket row behind post `j`: the
      stretch between post `j` and post `j + 1` (their parameters along the
      segment clamped into [0, 1]), shortened by one post depth. Both ends lie on
      the segment's line, so the distance is the absolute length difference. */
  function StraightRowLength(d: FenceData, sectionLength: real, r: real, j: nat): (len: real)
    requires r > 0.0
    ensures len >= 0.0
    ensures (j + 1) as real <= r ==> len == Abs(sectionLength / r - d.postDimensions.y)
    ensures (j as real) < r < (j + 1) as real ==>
      len == Abs(sectionLength * (1.0 - j as real / r) - d.postDimensions.y)
    ensures (j as real) >= r ==> len == Abs(d.postDimensions.y)
  {
    var t0 := Clamp01(j as real / r);
    var t1 := Clamp01((j + 1) as real / r);
    QuotientAtLeastOne(j as real, r);
    QuotientAtLeastOne((j + 1) as real, r);
    InteriorStep(sectionLength, r, j);
    PartialStep(r, j);
    Abs(sectionLength * (t1 - t0) - d.postDimensions.y)
  }

  /** Between two whole posts, both parameters lie in [0, 1] and differ by
      `1 / r`, so the stretch between them is `sectionLength / r`. */
  lemma InteriorStep(sectionLength: real, r: real, j: nat)
    requires r > 0.0
    ensures (j + 1) as real <= r ==>
      && 0.0 <= j as real / r <= 1.0 && 0.0 <= (j + 1) as real / r <= 1.0
      && sectionLength * ((j + 1) as real / r - j as real / r) == sectionLength / r
  {
    if (j + 1) as real <= r {
      QuotientMonotone(0.0, j as real, r);
      QuotientMonotone(j as real, (j + 1) as real, r);
      QuotientMonotone((j + 1) as real, r, r);
      assert r / r == 1.0;
      assert (j + 1) as real / r - j as real / r == 1.0 / r;
      assert sectionLength * (1.0 / r) == sectionLength / r;
    }
  }

  /** Behind the last whole post of a fractional segment, the post's parameter
      lies in [0, 1] and the next one lies past the segment end. */
  lemma PartialStep(r: real, j: nat)
    requires r > 0.0
    ensures (j as real) < r < (j + 1) as real ==> 0.0 <= j as real / r <= 1.0
  {
    if (j as real) < r < (j + 1) as real {
      QuotientMonotone(0.0, j as real, r);
      QuotientMonotone(j as real, r, r);
      assert r / r == 1.0;
    }
  }

  /** Reference count of the straight layout's pickets from post `j` on: every
      post index from `j` up to `Ceil(r)` that is not equal to `r` itself gets
      a full row of pickets between it and the next post. */
  function StraightPicketSum(d: FenceData, sectionLength: real, r: real, j: nat): nat
    requires r > 0.0
    decreases Ceil(r) + 1 - j
  {
    if j > Ceil(r) then 0
    else
      (if j as real == r then 0 else PicketsToSpan(StraightRowLength(d, sectionLength, r, j), PicketPitch(d)))
      + StraightPicketSum(d, sectionLength, r, j + 1)
  }

  lemma QuotientAtLeastOne(x: real, r: real)
    requires r > 0.0
    ensures x >= r ==> x / r >= 1.0
  {
    if x >= r {
      QuotientMonotone(r, x, r);
      assert r / r == 1.0;
    }
  }

  /** The pickets of post `j` in the straight layout. */
  function StraightPickets(seg: nat, d: FenceData, flip: bool, sectionLength: real, r: real, ids: MeshIds, j: nat): (es: seq<Emission>)
    requires r > 0.0
    ensures |es| == PicketsToSpan(StraightRowLength(d, sectionLength, r, j), PicketPitch(d))
    ensures forall k | 0 <= k < |es| ::
      es[k].cube == Cube(Tag(PicketPart, seg, j, k, PicketLateral(d, flip)), d.picketDimensions)
    ensures WellRouted(es, seg, ids)
  {
    var n := PicketsToSpan(StraightRowLength(d, sectionLength, r, j), PicketPitch(d));
    seq(n, p requires 0 <= p => Emission(Cube(Tag(PicketPart, seg, j, p, PicketLateral(d, flip)), d.picketDimensions), ids.picket))
  }

  /** The boxes of posts `j`, `j + 1`, ... of the straight layout: the loop
      `for (j = 0; j < numberOfPosts + 1; j++)` over the real-valued post count
      `r`. Each post is followed by its pickets, except the post whose index
      equals `r` exactly. */
  function StraightPosts(seg: nat, d: FenceData, flip: bool, sectionLength: real, r: real, ids: MeshIds, j: nat): (p: Plan)
    requires r > 0.0
    ensures (j as real) < r + 1.0 ==> p.posts == Ceil(r) + 1 - j
    ensures (j as real) >= r + 1.0 ==> p.posts == 0
    ensures CountEmitted(p.emissions, PostPart) == p.posts
    ensures CountEmitted(p.emissions, PicketPart) == p.pickets
    ensures CountEmitted(p.emissions, RailPart) == 0
    ensures d.fenceType == Farm ==> p.pickets == 0
    ensures d.fenceType == Picket ==> p.pickets == StraightPicketSum(d, sectionLength, r, j)
    ensures WellRouted(p.emissions, seg, ids)
    decreases Ceil(r) + 1 - j
  {
    assert (j as real) < r + 1.0 <==> j <= Ceil(r);
    if !((j as real) < r + 1.0) then Plan([], 0, 0)
    else
      var lastPost := (j as real) == r;
      var post := Emission(Cube(Tag(PostPart, seg, j, 0, 0.0), d.postDimensions), ids.post);
      var pickets := if d.fenceType == Picket && !lastPost then StraightPickets(seg, d, flip, sectionLength, r, ids, j) else [];
      var rest := StraightPosts(seg, d, flip, sectionLength, r, ids, j + 1);
      var p := Plan([post] + pickets + rest.emissions, rest.posts + 1, rest.pickets + |pickets|);
      PostWithPicketsCounts(post, pickets, rest.emissions);
      assert WellRouted([post], seg, ids);
      WellRoutedAppend([post], pickets, seg, ids);
      WellRoutedAppend([post] + pickets, rest.emissions, seg, ids);
      p
  }

  /** Counting the boxes of a post followed by its pickets and later boxes. */
  lemma PostWithPicketsCounts(post: Emission, pickets: seq<Emission>, rest: seq<Emission>)
    requires post.cube.tag.part == PostPart
    requires forall k | 0 <= k < |pickets| :: pickets[k].cube.tag.part == PicketPart
    ensures CountEmitted([post] + pickets + rest, PostPart) == 1 + CountEmitted(rest, PostPart)
    ensures CountEmitted([post] + pickets + rest, PicketPart) == |pickets| + CountEmitted(rest, PicketPart)
    ensures CountEmitted([post] + pickets + rest, RailPart) == CountEmitted(rest, RailPart)
  {
    forall p: Part
      ensures CountEmitted([post] + pickets + rest, p) ==
        (if p == PostPart then 1 else 0) + (if p == PicketPart then |pickets| else 0) + CountEmitted(rest, p)
    {
      CountEmittedAppend([post] + pickets, rest, p);
      CountEmittedAppend([post], pickets, p);
      assert [post][..0] == [];
      CountEmittedUniform(pickets, p, PicketPart);
    }
  }

  lemma {:induction false} CountEmittedUniform(es: seq<Emission>, p: Part, q: Part)
    requires forall k | 0 <= k < |es| :: es[k].cube.tag.part == q
    ensures CountEmitted(es, p) == if p == q then |es| else 0
    decreases |es|
  {
    if |es| > 0 {
      CountEmittedUniform(es[..|es| - 1], p, q);
    }
  }

  /** One rail per rail tier, spanning the whole segment at the tier's height. */
  function StraightRails(seg: nat, d: FenceData, flip: bool, start: Vec3, end: Vec3, ids: MeshIds, world: World): (es: seq<Emission>)
    ensures |es| == |d.rails|
    ensures forall k | 0 <= k < |es| :: es[k].cube.tag == Tag(RailPart, seg, 0, k, RailCenterOffset(d, flip))
    ensures forall k | 0 <= k < |es| :: es[k].cube.dims.x == d.railThickness && es[k].cube.dims.y == d.rails[k].width
    ensures WellRouted(es, seg, ids)
  {
    seq(|d.rails|, k requires 0 <= k < |d.rails| =>
      var lift := Scale(Up, d.rails[k].groundOffset);
      var length := world.distance(Add(start, lift), Add(end, lift));
      Emission(Cube(Tag(RailPart, seg, 0, k, RailCenterOffset(d, flip)), Vec3(d.railThickness, d.rails[k].width, length)), ids.rail))
  }

  /** The straight layout of segment `seg` from `start` to `end` (local space),
      whose length is `sectionLength`: the posts with their pickets, then the
      rails; `totalPosts` is bumped once more after the post loop. */
  function StraightPlan(seg: nat, d: FenceData, flip: bool, start: Vec3, end: Vec3, sectionLength: real, ids: MeshIds, world: World): (p: Plan)
    requires d.segmentLength > 0.0 && sectionLength > 0.0
    ensures CountEmitted(p.emissions, PostPart) == Ceil(sectionLength / d.segmentLength) + 1
    ensures p.posts == CountEmitted(p.emissions, PostPart) + 1
    ensures CountEmitted(p.emissions, RailPart) == |d.rails|
    ensures CountEmitted(p.emissions, PicketPart) == p.pickets
    ensures d.fenceType == Farm ==> p.pickets == 0
    ensures d.fenceType == Picket ==>
      p.pickets == StraightPicketSum(d, sectionLength, sectionLength / d.segmentLength, 0)
    ensures WellRouted(p.emissions, seg, ids)
  {
    var r := sectionLength / d.segmentLength;
    var body := StraightPosts(seg, d, flip, sectionLength, r, ids, 0);
    var rails := StraightRails(seg, d, flip, start, end, ids, world);
    forall p: Part ensures CountEmitted(body.emissions + rails, p) ==
      CountEmitted(body.emissions, p) + (if p == RailPart then |rails| else 0)
    {
      CountEmittedAppend(body.emissions, rails, p);
      CountEmittedUniform(rails, p, RailPart);
    }
    WellRoutedAppend(body.emissions, rails, seg, ids);
    Plan(body.emissions + rails, body.posts + 1, body.pickets)
  }

  /** When the segment is a whole number `n` of segment lengths, the final post
      (index `n`) is the one the loop recognises as last and it carries no
      pickets. */
  lemma WholeFinalPostHasNoPickets(seg: nat, d: FenceData, flip: bool, sectionLength: real, ids: MeshIds, n: nat)
    requires n > 0
    ensures StraightPosts(seg, d, flip, sectionLength, n as real, ids, n) ==
      Plan([Emission(Cube(Tag(PostPart, seg, n, 0, 0.0), d.postDimensions), ids.post)], 1, 0)
  {
    var r := n as real;
    assert !((n + 1) as real < r + 1.0);
    assert StraightPosts(seg, d, flip, sectionLength, r, ids, n + 1) == Plan([], 0, 0);
    assert [Emission(Cube(Tag(PostPart, seg, n, 0, 0.0), d.postDimensions), ids.post)] + [] + [] ==
      [Emission(Cube(Tag(PostPart, seg, n, 0, 0.0), d.postDimensions), ids.post)];
  }

  /** When the segment is not a whole number of segment lengths, no post index
      equals the real post count, so the final post (index `Ceil(r)`, placed at
      the segment end) is followed by a picket row as long as one post depth,
      laid back over the final post. */
  lemma FractionalFinalPostGetsPickets(seg: nat, d: FenceData, flip: bool, sectionLength: real, r: real, ids: MeshIds)
    requires r > 0.0 && (Ceil(r) as real) != r
    requires d.fenceType == Picket
    ensures StraightPosts(seg, d, flip, sectionLength, r, ids, Ceil(r)).pickets ==
      PicketsToSpan(Abs(d.postDimensions.y), PicketPitch(d))
  {
    var c := Ceil(r);
    assert (c as real) > r;
    assert !(((c + 1) as real) < r + 1.0);
    assert StraightPosts(seg, d, flip, sectionLength, r, ids, c + 1) == Plan([], 0, 0);
  }

  // ---------------------------------------------------------------------------
  // Ground layout

  /** The terrain sample at parameter `j / r` along the segment: a ray cast
      straight down from 1000 units above the interpolated world point, up to
      2000 units, against the conform mask. A miss keeps the interpolated point
      and an upward normal. The stored point is converted back to local space. */
  function GroundSample(from: Vec3, to: Vec3, pivot: Vec3, r: real, mask: int, world: World, j: nat): (s: Sample)
    requires r > 0.0
  {
    var cast := Lerp(Add(from, pivot), Add(to, pivot), j as real / r);
    var found := match world.raycast(Add(cast, Scale(Up, 1000.0)), Vec3(0.0, -1.0, 0.0), 2000.0, mask)
      case Some(h) => Sample(h.point, h.normal)
      case None => Sample(cast, Up);
    Sample(Sub(found.point, pivot), found.normal)
  }

  /** `Ceil(r) + 2` samples, indices 0 .. Ceil(r) + 1. */
  function GroundSamples(from: Vec3, to: Vec3, pivot: Vec3, r: real, mask: int, world: World): (s: seq<Sample>)
    requires r > 0.0
    ensures |s| == Ceil(r) + 2
    ensures forall j | 0 <= j < |s| :: s[j] == GroundSample(from, to, pivot, r, mask, world, j)
  {
    seq(Ceil(r) + 2, j requires 0 <= j => GroundSample(from, to, pivot, r, mask, world, j))
  }

  /** On terrain the rays never hit, a sample lies on the straight segment
      between the two corner points (in local space), with an upward normal. */
  lemma MissedSampleOnSegment(from: Vec3, to: Vec3, pivot: Vec3, r: real, mask: int, world: World, j: nat)
    requires r > 0.0
    requires forall o: Vec3, dir: Vec3, m: real, l: int :: world.raycast(o, dir, m, l) == None
    ensures GroundSample(from, to, pivot, r, mask, world, j) == Sample(Lerp(from, to, j as real / r), Up)
  {
    LerpTranslate(from, to, pivot, j as real / r);
  }

  /** On terrain the rays never hit, the first sample is the start corner and
      the last two are the end corner. */
  lemma MissedSamplesSpanSegment(from: Vec3, to: Vec3, pivot: Vec3, r: real, mask: int, world: World)
    requires r > 0.0
    requires forall o: Vec3, dir: Vec3, m: real, l: int :: world.raycast(o, dir, m, l) == None
    ensures GroundSamples(from, to, pivot, r, mask, world)[0].point == from
    ensures GroundSamples(from, to, pivot, r, mask, world)[Ceil(r)].point == to
    ensures GroundSamples(from, to, pivot, r, mask, world)[Ceil(r) + 1].point == to
  {
    var s := GroundSamples(from, to, pivot, r, mask, world);
    var c := Ceil(r);
    MissedSampleAtStart(from, to, pivot, r, mask, world);
    assert s[0] == GroundSample(from, to, pivot, r, mask, world, 0);
    MissedSampleAtEnd(from, to, pivot, r, mask, world, c);
    assert s[c] == GroundSample(from, to, pivot, r, mask, world, c);
    MissedSampleAtEnd(from, to, pivot, r, mask, world, c + 1);
    assert s[c + 1] == GroundSample(from, to, pivot, r, mask, world, c + 1);
  }

  lemma MissedSampleAtStart(from: Vec3, to: Vec3, pivot: Vec3, r: real, mask: int, world: World)
    requires r > 0.0
    requires forall o: Vec3, dir: Vec3, m: real, l: int :: world.raycast(o, dir, m, l) == None
    ensures GroundSample(from, to, pivot, r, mask, world, 0).point == from
  {
    MissedSampleOnSegment(from, to, pivot, r, mask, world, 0);
    QuotientMonotone(0.0, 0.0, r);
    LerpEndpoints(from, to, (0 as real) / r);
  }

  lemma MissedSampleAtEnd(from: Vec3, to: Vec3, pivot: Vec3, r: real, mask: int, world: World, j: nat)
    requires r > 0.0 && (j as real) >= r
    requires forall o: Vec3, dir: Vec3, m: real, l: int :: world.raycast(o, dir, m, l) == None
    ensures GroundSample(from, to, pivot, r, mask, world, j).point == to
  {
    MissedSampleOnSegment(from, to, pivot, r, mask, world, j);
    QuotientAtLeastOne(j as real, r);
    LerpEndpoints(from, to, j as real / r);
  }

  /** Whether rail `k` behind post `j` is left out: obstructions are not allowed
      and the rail's raycast hits something. */
  predicate RailSkipped(seg: nat, d: FenceData, samples: seq<Sample>, world: World, j: nat, k: nat) {
    !d.allowObstructions && world.railBlocked(seg, samples, j, k)
  }

  /** The box of rail tier `k` behind post `j`, spanning to the next post. */
  function GroundRailBox(seg: nat, d: FenceData, samples: seq<Sample>, flip: bool, ids: MeshIds, world: World, j: nat, k: nat): (e: Emission)
    requires k < |d.rails|
    ensures e.cube.tag == Tag(RailPart, seg, j, k, RailCenterOffset(d, flip)) && e.meshId == ids.rail
  {
    Emission(Cube(Tag(RailPart, seg, j, k, RailCenterOffset(d, flip)),
      Vec3(d.railThickness, d.rails[k].width, world.railLength(seg, samples, j, k))), ids.rail)
  }

  /** Reference count: how many of tiers `k`, `k + 1`, ... behind post `j` are
      not skipped. */
  function UnskippedRails(seg: nat, d: FenceData, samples: seq<Sample>, world: World, j: nat, k: nat): nat
    requires k <= |d.rails|
    decreases |d.rails| - k
  {
    if k == |d.rails| then 0
    else (if RailSkipped(seg, d, samples, world, j, k) then 0 else 1) + UnskippedRails(seg, d, samples, world, j, k + 1)
  }

  /** Whether some box of `es` belongs to rail tier `i`. */
  predicate EmitsTier(es: seq<Emission>, i: nat) {
    exists n | 0 <= n < |es| :: es[n].cube.tag.item == i
  }

  /** The rails behind post `j`, tiers `k`, `k + 1`, ...: the loop over `Rails`,
      which adds a tier's box unless that tier is skipped. The boxes are exactly
      the unskipped tiers, in tier order. */
  function GroundRails(seg: nat, d: FenceData, samples: seq<Sample>, flip: bool, ids: MeshIds, world: World, j: nat, k: nat): (es: seq<Emission>)
    requires k <= |d.rails|
    ensures |es| == UnskippedRails(seg, d, samples, world, j, k)
    ensures |es| <= |d.rails| - k
    ensures (forall i | k <= i < |d.rails| :: !RailSkipped(seg, d, samples, world, j, i)) ==> |es| == |d.rails| - k
    ensures forall n | 0 <= n < |es| ::
      && k <= es[n].cube.tag.item < |d.rails|
      && !RailSkipped(seg, d, samples, world, j, es[n].cube.tag.item)
      && es[n] == GroundRailBox(seg, d, samples, flip, ids, world, j, es[n].cube.tag.item)
    ensures forall n, m | 0 <= n < m < |es| :: es[n].cube.tag.item < es[m].cube.tag.item
    ensures forall i | k <= i < |d.rails| ::
      EmitsTier(es, i) <==> !RailSkipped(seg, d, samples, world, j, i)
    ensures forall i | 0 <= i < |es| :: es[i].cube.tag.part == RailPart && es[i].cube.tag.post == j
    ensures WellRouted(es, seg, ids)
    decreases |d.rails| - k
  {
    if k == |d.rails| then []
    else
      var rest := GroundRails(seg, d, samples, flip, ids, world, j, k + 1);
      if RailSkipped(seg, d, samples, world, j, k) then
        NotEmitted(rest, k);
        rest
      else
        var rail := GroundRailBox(seg, d, samples, flip, ids, world, j, k);
        GroundRailsCons(seg, d, samples, flip, ids, world, j, k, rest);
        [rail] + rest
  }

  /** The rail loop's step for a tier that is not skipped: its box goes in
      front of the later tiers' boxes. */
  lemma GroundRailsCons(seg: nat, d: FenceData, samples: seq<Sample>, flip: bool, ids: MeshIds, world: World, j: nat, k: nat, rest: seq<Emission>)
    requires k < |d.rails| && !RailSkipped(seg, d, samples, world, j, k)
    requires forall n | 0 <= n < |rest| ::
      && k + 1 <= rest[n].cube.tag.item < |d.rails|
      && !RailSkipped(seg, d, samples, world, j, rest[n].cube.tag.item)
      && rest[n] == GroundRailBox(seg, d, samples, flip, ids, world, j, rest[n].cube.tag.item)
    requires forall n, m | 0 <= n < m < |rest| :: rest[n].cube.tag.item < rest[m].cube.tag.item
    requires forall i | k + 1 <= i < |d.rails| :: EmitsTier(rest, i) <==> !RailSkipped(seg, d, samples, world, j, i)
    requires WellRouted(rest, seg, ids)
    ensures var es := [GroundRailBox(seg, d, samples, flip, ids, world, j, k)] + rest;
      && (forall n | 0 <= n < |es| ::
        && k <= es[n].cube.tag.item < |d.rails|
        && !RailSkipped(seg, d, samples, world, j, es[n].cube.tag.item)
        && es[n] == GroundRailBox(seg, d, samples, flip, ids, world, j, es[n].cube.tag.item))
      && (forall n, m | 0 <= n < m < |es| :: es[n].cube.tag.item < es[m].cube.tag.item)
      && (forall i | k <= i < |d.rails| :: EmitsTier(es, i) <==> !RailSkipped(seg, d, samples, world, j, i))
      && WellRouted(es, seg, ids)
  {
    var rail := GroundRailBox(seg, d, samples, flip, ids, world, j, k);
    var es := [rail] + rest;
    assert WellRouted([rail], seg, ids);
    WellRoutedAppend([rail], rest, seg, ids);
    ConsTiers(rail, rest, k);
    forall n | 0 <= n < |es|
      ensures k <= es[n].cube.tag.item < |d.rails|
      ensures !RailSkipped(seg, d, samples, world, j, es[n].cube.tag.item)
      ensures es[n] == GroundRailBox(seg, d, samples, flip, ids, world, j, es[n].cube.tag.item)
    {
      if n > 0 {
        assert es[n] == rest[n - 1];
      }
    }
  }

  /** Boxes whose tiers are all above `k` hold no box of tier `k`. */
  lemma NotEmitted(es: seq<Emission>, k: nat)
    requires forall n | 0 <= n < |es| :: k < es[n].cube.tag.item
    ensures !EmitsTier(es, k)
  {
  }

  /** Putting a tier-`k` box in front of boxes of higher tiers. */
  lemma ConsTiers(rail: Emission, rest: seq<Emission>, k: nat)
    requires rail.cube.tag.item == k
    requires forall n | 0 <= n < |rest| :: k < rest[n].cube.tag.item
    requires forall n, m | 0 <= n < m < |rest| :: rest[n].cube.tag.item < rest[m].cube.tag.item
    ensures forall n, m | 0 <= n < m < |[rail] + rest| :: ([rail] + rest)[n].cube.tag.item < ([rail] + rest)[m].cube.tag.item
    ensures EmitsTier([rail] + rest, k)
    ensures forall i | i != k :: EmitsTier([rail] + rest, i) <==> EmitsTier(rest, i)
  {
    var es := [rail] + rest;
    assert es[0] == rail;
    forall i | i != k ensures EmitsTier(es, i) <==> EmitsTier(rest, i) {
      if EmitsTier(es, i) {
        var n :| 0 <= n < |es| && es[n].cube.tag.item == i;
        assert n > 0 && es[n] == rest[n - 1];
      }
      if EmitsTier(rest, i) {
        var n :| 0 <= n < |rest| && rest[n].cube.tag.item == i;
        assert es[n + 1] == rest[n];
      }
    }
  }

  /** `railObstructed` after the rail loop of post `j`. */
  predicate RailObstructed(seg: nat, d: FenceData, samples: seq<Sample>, world: World, j: nat) {
    exists k | 0 <= k < |d.rails| :: RailSkipped(seg, d, samples, world, j, k)
  }

  /** All of tiers `k`, `k + 1`, ... are emitted exactly when none of them is
      skipped. */
  lemma {:induction false} UnskippedRailsAll(seg: nat, d: FenceData, samples: seq<Sample>, world: World, j: nat, k: nat)
    requires k <= |d.rails|
    ensures UnskippedRails(seg, d, samples, world, j, k) <= |d.rails| - k
    ensures UnskippedRails(seg, d, samples, world, j, k) == |d.rails| - k <==>
      forall i | k <= i < |d.rails| :: !RailSkipped(seg, d, samples, world, j, i)
    decreases |d.rails| - k
  {
    if k < |d.rails| {
      UnskippedRailsAll(seg, d, samples, world, j, k + 1);
    }
  }

  /** A post's rails are obstructed exactly when fewer boxes than tiers are
      emitted behind it. */
  lemma RailObstructedIffFewerRails(seg: nat, d: FenceData, samples: seq<Sample>, world: World, j: nat)
    ensures RailObstructed(seg, d, samples, world, j) <==> UnskippedRails(seg, d, samples, world, j, 0) < |d.rails|
  {
    UnskippedRailsAll(seg, d, samples, world, j, 0);
  }

  /** The pickets of post `j` in the ground layout, laid up to the next post. */
  function GroundPickets(seg: nat, d: FenceData, samples: seq<Sample>, flip: bool, ids: MeshIds, world: World, j: nat): (es: seq<Emission>)
    ensures |es| == PicketsToSpan(world.picketRowLength(seg, samples, j), PicketPitch(d))
    ensures forall k | 0 <= k < |es| ::
      es[k].cube == Cube(Tag(PicketPart, seg, j, k, PicketLateral(d, flip)), d.picketDimensions)
    ensures WellRouted(es, seg, ids)
  {
    var n := PicketsToSpan(world.picketRowLength(seg, samples, j), PicketPitch(d));
    seq(n, p requires 0 <= p => Emission(Cube(Tag(PicketPart, seg, j, p, PicketLateral(d, flip)), d.picketDimensions), ids.picket))
  }

  /** Behind a leading element, the middle of a three-way concatenation is
      recovered by slicing, and the tail follows it. */
  lemma SliceAfterHead<T>(x: T, b: seq<T>, c: seq<T>)
    ensures 1 + |b| <= |[x] + b + c|
    ensures ([x] + b + c)[1..1 + |b|] == b
    ensures forall n | 1 + |b| <= n < |[x] + b + c| :: ([x] + b + c)[n] == c[n - 1 - |b|]
  {
  }

  lemma CountSingle(e: Emission)
    ensures forall p: Part :: CountEmitted([e], p) == if e.cube.tag.part == p then 1 else 0
  {
    assert [e][..0] == [];
  }

  /** Counting is additive over concatenation, part by part. */
  lemma CountsAppend(a: seq<Emission>, b: seq<Emission>)
    ensures forall p: Part :: CountEmitted(a + b, p) == CountEmitted(a, p) + CountEmitted(b, p)
  {
    forall p: Part ensures CountEmitted(a + b, p) == CountEmitted(a, p) + CountEmitted(b, p) {
      CountEmittedAppend(a, b, p);
    }
  }

  /** The boxes of post `j` in the ground layout: the post, the rails to the next
      post, and the pickets unless a rail was skipped. The loop runs
      `j < samples.Length - 2`, so the last-post test and the rail guard that
      compare `j` with `samples.Length - 2` never fire. */
  function GroundPostPlan(seg: nat, d: FenceData, samples: seq<Sample>, flip: bool, ids: MeshIds, world: World, j: nat): (p: Plan)
    requires j < |samples| - 2
    ensures p.posts == 1
    ensures CountEmitted(p.emissions, PostPart) == 1
    ensures CountEmitted(p.emissions, RailPart) == UnskippedRails(seg, d, samples, world, j, 0)
    ensures d.allowObstructions ==> CountEmitted(p.emissions, RailPart) == |d.rails|
    ensures CountEmitted(p.emissions, PicketPart) == p.pickets
    ensures p.pickets == if !RailObstructed(seg, d, samples, world, j) && d.fenceType == Picket
      then PicketsToSpan(world.picketRowLength(seg, samples, j), PicketPitch(d)) else 0
    ensures p.emissions[0].cube == Cube(Tag(PostPart, seg, j, 0, 0.0), d.postDimensions)
    ensures WellRouted(p.emissions, seg, ids)
  {
    var post := Emission(Cube(Tag(PostPart, seg, j, 0, 0.0), d.postDimensions), ids.post);
    var rails := GroundPostRails(seg, d, samples, flip, ids, world, j);
    var pickets := GroundPostPickets(seg, d, samples, flip, ids, world, j);
    CountsAppend([post], rails);
    CountsAppend([post] + rails, pickets);
    CountSingle(post);
    forall q: Part ensures CountEmitted(rails, q) == if q == RailPart then |rails| else 0 {
      CountEmittedUniform(rails, q, RailPart);
    }
    forall q: Part ensures CountEmitted(pickets, q) == if q == PicketPart then |pickets| else 0 {
      CountEmittedUniform(pickets, q, PicketPart);
    }
    assert WellRouted([post], seg, ids);
    WellRoutedAppend([post], rails, seg, ids);
    WellRoutedAppend([post] + rails, pickets, seg, ids);
    Plan([post] + rails + pickets, 1, |pickets|)
  }

  /** The rails behind ground post `j`; the guard on `samples.Length - 2`
      mirrors the source's and is always true inside the post loop. */
  function GroundPostRails(seg: nat, d: FenceData, samples: seq<Sample>, flip: bool, ids: MeshIds, world: World, j: nat): seq<Emission>
  {
    if j != |samples| - 2 then GroundRails(seg, d, samples, flip, ids, world, j, 0) else []
  }

  /** The pickets of ground post `j`: none after an obstructed rail, for a Farm
      fence, or at the last post. */
  function GroundPostPickets(seg: nat, d: FenceData, samples: seq<Sample>, flip: bool, ids: MeshIds, world: World, j: nat): seq<Emission>
  {
    var lastPost := j == |samples| - 2;
    var railObstructed := j != |samples| - 2 && RailObstructed(seg, d, samples, world, j);
    if !railObstructed && d.fenceType == Picket && !lastPost then GroundPickets(seg, d, samples, flip, ids, world, j) else []
  }

  /** A ground post's boxes are its post box, then its rail boxes in tier
      order, then (see `GroundPostPicketsLast`) its pickets. */
  lemma GroundPostOrder(seg: nat, d: FenceData, samples: seq<Sample>, flip: bool, ids: MeshIds, world: World, j: nat)
    requires j < |samples| - 2
    ensures var es := GroundPostPlan(seg, d, samples, flip, ids, world, j).emissions;
      var rails := GroundRails(seg, d, samples, flip, ids, world, j, 0);
      && 1 + |rails| <= |es|
      && es[0].cube.tag.part == PostPart
      && es[1..1 + |rails|] == rails
  {
    var post := Emission(Cube(Tag(PostPart, seg, j, 0, 0.0), d.postDimensions), ids.post);
    var rails := GroundPostRails(seg, d, samples, flip, ids, world, j);
    var pickets := GroundPostPickets(seg, d, samples, flip, ids, world, j);
    assert GroundPostPlan(seg, d, samples, flip, ids, world, j).emissions == [post] + rails + pickets;
    SliceAfterHead(post, rails, pickets);
  }

  /** Every box of a ground post after its rails is a picket. */
  lemma GroundPostPicketsLast(seg: nat, d: FenceData, samples: seq<Sample>, flip: bool, ids: MeshIds, world: World, j: nat)
    requires j < |samples| - 2
    ensures var es := GroundPostPlan(seg, d, samples, flip, ids, world, j).emissions;
      var rails := GroundRails(seg, d, samples, flip, ids, world, j, 0);
      forall n | 1 + |rails| <= n < |es| :: es[n].cube.tag.part == PicketPart
  {
    var post := Emission(Cube(Tag(PostPart, seg, j, 0, 0.0), d.postDimensions), ids.post);
    var rails := GroundPostRails(seg, d, samples, flip, ids, world, j);
    var pickets := GroundPostPickets(seg, d, samples, flip, ids, world, j);
    assert GroundPostPlan(seg, d, samples, flip, ids, world, j).emissions == [post] + rails + pickets;
    assert forall n | 0 <= n < |pickets| :: pickets[n].cube.tag.part == PicketPart;
    SliceAfterHead(post, rails, pickets);
  }

  /** Reference count of the ground layout's rails from post `j` on: the
      unskipped tiers behind each post up to `samples.Length - 2`. */
  function GroundRailTotal(seg: nat, d: FenceData, samples: seq<Sample>, world: World, j: nat): nat
    requires 2 <= |samples| && j <= |samples| - 2
    decreases |samples| - 2 - j
  {
    if j == |samples| - 2 then 0
    else UnskippedRails(seg, d, samples, world, j, 0) + GroundRailTotal(seg, d, samples, world, j + 1)
  }

  lemma MulSucc(a: nat, b: nat)
    ensures (a + 1) * b == a * b + b
  {
  }

  /** Posts `j`, `j + 1`, ... up to `samples.Length - 2` of the ground layout. */
  function GroundPosts(seg: nat, d: FenceData, samples: seq<Sample>, flip: bool, ids: MeshIds, world: World, j: nat): (p: Plan)
    requires 2 <= |samples| && j <= |samples| - 2
    ensures p.posts == |samples| - 2 - j
    ensures CountEmitted(p.emissions, PostPart) == p.posts
    ensures CountEmitted(p.emissions, PicketPart) == p.pickets
    ensures d.fenceType == Farm ==> p.pickets == 0
    ensures CountEmitted(p.emissions, RailPart) == GroundRailTotal(seg, d, samples, world, j)
    ensures d.allowObstructions ==> CountEmitted(p.emissions, RailPart) == p.posts * |d.rails|
    ensures WellRouted(p.emissions, seg, ids)
    decreases |samples| - 2 - j
  {
    if j == |samples| - 2 then Plan([], 0, 0)
    else
      var here := GroundPostPlan(seg, d, samples, flip, ids, world, j);
      var rest := GroundPosts(seg, d, samples, flip, ids, world, j + 1);
      CountEmittedAppend(here.emissions, rest.emissions, PostPart);
      CountEmittedAppend(here.emissions, rest.emissions, RailPart);
      CountEmittedAppend(here.emissions, rest.emissions, PicketPart);
      MulSucc(rest.posts, |d.rails|);
      WellRoutedAppend(here.emissions, rest.emissions, seg, ids);
      Plan(here.emissions + rest.emissions, rest.posts + 1, here.pickets + rest.pickets)
  }

  /** The ground layout of segment `seg` between corner points `from` and `to`
      (local space), whose length is `sectionLength`: `Ceil(r) + 2` terrain
      samples and `Ceil(r)` posts, where `r` is the real-valued post count. */
  function GroundPlan(seg: nat, d: FenceData, from: Vec3, to: Vec3, pivot: Vec3, flip: bool, sectionLength: real, mask: int, ids: MeshIds, world: World): (p: Plan)
    requires d.segmentLength > 0.0 && sectionLength > 0.0
    ensures p.posts == Ceil(sectionLength / d.segmentLength)
    ensures CountEmitted(p.emissions, PostPart) == p.posts
    ensures CountEmitted(p.emissions, PicketPart) == p.pickets
    ensures d.fenceType == Farm ==> p.pickets == 0
    ensures CountEmitted(p.emissions, RailPart) ==
      GroundRailTotal(seg, d, GroundSamples(from, to, pivot, sectionLength / d.segmentLength, mask, world), world, 0)
    ensures d.allowObstructions ==> CountEmitted(p.emissions, RailPart) == p.posts * |d.rails|
    ensures WellRouted(p.emissions, seg, ids)
  {
    var r := sectionLength / d.segmentLength;
    var samples := GroundSamples(from, to, pivot, r, mask, world);
    GroundPosts(seg, d, samples, flip, ids, world, 0)
  }
}
