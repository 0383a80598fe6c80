/**
 The oriented-box emitter (`Fence.AddCube`) and the growing mesh buffers it
 appends to. Positions and orientations are kept symbolic: a box is known by
 a `Tag` saying which post, rail or picket of which segment it is, and each
 vertex by the box and the corner (p0 .. p7) it sits on. Texture coordinates
 depend only on the box dimensions and are exact.
 */
module CubeMesh {
  import opened Unity

  datatype Part = PostPart | RailPart | PicketPart

  /** Which box this is: its part, the path segment, the post it belongs to,
      its index among that post's rails or pickets, and its signed lateral
      offset from the post line. */
  datatype Tag = Tag(part: Part, segment: nat, post: nat, item: nat, lateral: real)

  /** A box to emit; `dims` is (width, depth, height) as (x, y, z). */
  datatype Cube = Cube(tag: Tag, dims: Vec3)

  /** The six faces, in the order the emitter writes them. */
  datatype Face = Bottom | Left | Front | Back | Right | Top

  datatype Vertex = Vertex(cube: Cube, corner: nat)

  /** The normal written for a face of a box: the box's rotation applied to the
      face's local axis (down, left, forward, back, right, up). */
  datatype Normal = Normal(tag: Tag, face: Face)

  /** The fence's buffer fields: vertices, normals, UVs and one triangle-index
      list per submesh. */
  datatype Buffers = Buffers(verts: seq<Vertex>, normals: seq<Normal>, uvs: seq<Vec2>, submeshes: seq<seq<int>>)

  /** The buffers together with the running `vertexTotal` passed by reference. */
  datatype Builder = Builder(buffers: Buffers, vertexTotal: int)

  /** A box queued for emission into a submesh. */
  datatype Emission = Emission(cube: Cube, meshId: nat)

  const FaceOrder: seq<Face> := [Bottom, Left, Front, Back, Right, Top]

  /** Which of the eight box corners each of the 24 vertices duplicates. */
  const CornerTable: seq<nat> := [0, 1, 2, 3, 7, 4, 0, 3, 4, 5, 1, 0, 6, 7, 3, 2, 5, 6, 2, 1, 7, 6, 5, 4]

  /** The two triangles of a face, as offsets into its four vertices. */
  const FaceTriangles: seq<int> := [3, 1, 0, 3, 2, 1]

  function CubeVertices(c: Cube): (vs: seq<Vertex>)
    ensures |vs| == 24
    ensures forall k | 0 <= k < 24 :: vs[k].cube == c && vs[k].corner < 8
  {
    seq(24, k requires 0 <= k < 24 => Vertex(c, CornerTable[k]))
  }

  function CubeNormals(c: Cube): (ns: seq<Normal>)
    ensures |ns| == 24
  {
    seq(24, k requires 0 <= k < 24 => Normal(c.tag, FaceOrder[k / 4]))
  }

  /** The 24 texture coordinates, built from the box's width, depth and height. */
  function CubeUvs(dims: Vec3): (uvs: seq<Vec2>)
    ensures |uvs| == 24
  {
    var w := dims.x;
    var d := dims.y;
    var h := dims.z;
    [ Vec2(d, 0.0), Vec2(d, h), Vec2(0.0, h), Vec2(0.0, 0.0),
      Vec2(w, 0.0), Vec2(w, d), Vec2(0.0, d), Vec2(0.0, 0.0),
      Vec2(w, 0.0), Vec2(w, h), Vec2(0.0, h), Vec2(0.0, 0.0),
      Vec2(0.0, h), Vec2(0.0, 0.0), Vec2(w, 0.0), Vec2(w, h),
      Vec2(0.0, d), Vec2(0.0, 0.0), Vec2(w, 0.0), Vec2(w, d),
      Vec2(d, 0.0), Vec2(d, h), Vec2(0.0, h), Vec2(0.0, 0.0) ]
  }

  /** The 36 triangle indices: face `f` contributes `base + 4f + {3,1,0,3,2,1}`. */
  function CubeTriangles(base: int): seq<int> {
    seq(36, k requires 0 <= k < 36 => base + 4 * (k / 6) + FaceTriangles[k % 6])
  }

  lemma FaceOffsetDiv(f: int, t: int)
    requires 0 <= f < 6 && 0 <= t < 6
    ensures 0 <= 4 * f + FaceTriangles[t] < 24
    ensures (4 * f + FaceTriangles[t]) / 4 == f
  {
  }

  /** Every new index lands among the box's own 24 vertices, and each triangle
      of face `f` uses only vertices carrying face `f`'s normal. */
  lemma CubeTrianglesLocal(c: Cube, base: int)
    ensures |CubeTriangles(base)| == 36
    ensures forall k | 0 <= k < 36 :: base <= CubeTriangles(base)[k] < base + 24
    ensures forall k | 0 <= k < 36 ::
      CubeNormals(c)[CubeTriangles(base)[k] - base] == Normal(c.tag, FaceOrder[k / 6])
  {
    forall k | 0 <= k < 36
      ensures base <= CubeTriangles(base)[k] < base + 24
      ensures CubeNormals(c)[CubeTriangles(base)[k] - base] == Normal(c.tag, FaceOrder[k / 6])
    {
      FaceOffsetDiv(k / 6, k % 6);
    }
  }

  /** `AddCube`: appends one box's 24 vertices, normals and UVs, appends its 36
      indices to submesh `meshId` only, and advances `vertexTotal` by 24. */
  function AddCube(b: Builder, c: Cube, meshId: int): (r: Builder)
    requires 0 <= meshId < |b.buffers.submeshes|
    ensures r.vertexTotal == b.vertexTotal + 24
    ensures r.buffers.verts == b.buffers.verts + CubeVertices(c)
    ensures r.buffers.normals == b.buffers.normals + CubeNormals(c)
    ensures r.buffers.uvs == b.buffers.uvs + CubeUvs(c.dims)
    ensures |r.buffers.submeshes| == |b.buffers.submeshes|
    ensures forall s | 0 <= s < |b.buffers.submeshes| && s != meshId ::
      r.buffers.submeshes[s] == b.buffers.submeshes[s]
    ensures |r.buffers.submeshes[meshId]| == |b.buffers.submeshes[meshId]| + 36
    ensures r.buffers.submeshes[meshId][..|b.buffers.submeshes[meshId]|] == b.buffers.submeshes[meshId]
    ensures forall k | |b.buffers.submeshes[meshId]| <= k < |r.buffers.submeshes[meshId]| ::
      b.vertexTotal <= r.buffers.submeshes[meshId][k] < b.vertexTotal + 24
  {
    CubeTrianglesLocal(c, b.vertexTotal);
    var bf := b.buffers;
    var tris := CubeTriangles(b.vertexTotal);
    Builder(
      Buffers(
        bf.verts + CubeVertices(c),
        bf.normals + CubeNormals(c),
        bf.uvs + CubeUvs(c.dims),
        bf.submeshes[meshId := bf.submeshes[meshId] + tris]),
      b.vertexTotal + 24)
  }

  // ---------------------------------------------------------------------------
  // Buffer invariants

  /** Sum of the submesh list lengths (the length of `mesh.triangles`). */
  function TotalIndices(subs: seq<seq<int>>): nat {
    if |subs| == 0 then 0 else TotalIndices(subs[..|subs| - 1]) + |subs[|subs| - 1]|
  }

  lemma {:induction false} TotalIndicesUpdate(subs: seq<seq<int>>, m: int, extra: seq<int>)
    requires 0 <= m < |subs|
    ensures TotalIndices(subs[m := subs[m] + extra]) == TotalIndices(subs) + |extra|
    decreases |subs|
  {
    var n := |subs| - 1;
    var subs' := subs[m := subs[m] + extra];
    assert subs'[..n] == if m < n then subs[..n][m := subs[m] + extra] else subs[..n];
    if m < n {
      TotalIndicesUpdate(subs[..n], m, extra);
    }
  }

  /** `k` empty triangle lists, one per submesh. */
  function EmptyLists(k: nat): (subs: seq<seq<int>>)
    ensures |subs| == k && TotalIndices(subs) == 0
    ensures forall s | 0 <= s < k :: subs[s] == []
  {
    if k == 0 then [] else
      var subs := EmptyLists(k - 1) + [[]];
      assert subs[..k - 1] == EmptyLists(k - 1);
      subs
  }

  /** Every index in every submesh names an existing vertex. */
  predicate IndicesInRange(subs: seq<seq<int>>, vertexCount: int) {
    forall s, k | 0 <= s < |subs| && 0 <= k < |subs[s]| :: 0 <= subs[s][k] < vertexCount
  }

  /** Triangle `t` of an index list has its three corners on vertices that
      exist and carry the same face normal. */
  predicate TriangleFlat(normals: seq<Normal>, sub: seq<int>, t: int)
    requires 0 <= t && 3 * t + 2 < |sub|
  {
    && 0 <= sub[3 * t] < |normals|
    && 0 <= sub[3 * t + 1] < |normals|
    && 0 <= sub[3 * t + 2] < |normals|
    && normals[sub[3 * t]] == normals[sub[3 * t + 1]]
    && normals[sub[3 * t]] == normals[sub[3 * t + 2]]
  }

  /** Every triangle's three corners carry the same face normal. */
  predicate FlatShaded(b: Buffers) {
    forall s | 0 <= s < |b.submeshes| :: SubmeshFlat(b.normals, b.submeshes[s])
  }

  /** The buffers describe a well-formed mesh of whole boxes: one normal and one
      UV per vertex, `vertexTotal` vertices, 36 indices per 24 vertices, all
      indices in range, and flat shading. */
  predicate Valid(b: Builder) {
    && |b.buffers.verts| == b.vertexTotal
    && |b.buffers.normals| == b.vertexTotal
    && |b.buffers.uvs| == b.vertexTotal
    && b.vertexTotal % 24 == 0
    && 2 * TotalIndices(b.buffers.submeshes) == 3 * b.vertexTotal
    && IndicesInRange(b.buffers.submeshes, b.vertexTotal)
    && FlatShaded(b.buffers)
  }

  /** The empty buffers a build starts from: one empty list per submesh. */
  function EmptyBuilder(submeshCount: nat): (b: Builder)
    ensures Valid(b) && |b.buffers.submeshes| == submeshCount
  {
    Builder(Buffers([], [], [], EmptyLists(submeshCount)), 0)
  }

  lemma OldTriangleStaysFlat(normals: seq<Normal>, more: seq<Normal>, sub: seq<int>, extra: seq<int>, t: int)
    requires 0 <= t && 3 * t + 2 < |sub| && TriangleFlat(normals, sub, t)
    ensures TriangleFlat(normals + more, sub + extra, t)
  {
  }

  /** Triangle `q` of a box (0 <= q < 12) has its corners on face `q / 2`. */
  lemma CubeTriangleFace(c: Cube, base: int, q: int, i: int)
    requires 0 <= q < 12 && 0 <= i < 3
    ensures base <= CubeTriangles(base)[3 * q + i] < base + 24
    ensures CubeNormals(c)[CubeTriangles(base)[3 * q + i] - base] == Normal(c.tag, FaceOrder[q / 2])
  {
    var f := q / 2;
    var j := 3 * (q % 2) + i;
    assert 3 * q + i == 6 * f + j && 0 <= j < 6;
    assert (3 * q + i) / 6 == f && (3 * q + i) % 6 == j;
    FaceOffsetDiv(f, j);
  }

  /** Corner `i` of the box's triangle `q`, appended after `m` earlier triangles. */
  lemma NewTriangleCorner(c: Cube, normals: seq<Normal>, sub: seq<int>, m: int, q: int, i: int)
    requires |sub| == 3 * m && 0 <= q < 12 && 0 <= i < 3
    ensures 3 * (m + q) + i < |sub + CubeTriangles(|normals|)|
    ensures |normals| <= (sub + CubeTriangles(|normals|))[3 * (m + q) + i] < |normals| + 24
    ensures (normals + CubeNormals(c))[(sub + CubeTriangles(|normals|))[3 * (m + q) + i]] == Normal(c.tag, FaceOrder[q / 2])
  {
    var base := |normals|;
    CubeTriangleFace(c, base, q, i);
    assert (sub + CubeTriangles(base))[3 * (m + q) + i] == CubeTriangles(base)[3 * q + i];
  }

  lemma NewTriangleFlat(c: Cube, normals: seq<Normal>, sub: seq<int>, m: int, q: int)
    requires |sub| == 3 * m && 0 <= q < 12
    ensures 3 * (m + q) + 2 < |sub + CubeTriangles(|normals|)|
    ensures TriangleFlat(normals + CubeNormals(c), sub + CubeTriangles(|normals|), m + q)
  {
    NewTriangleCorner(c, normals, sub, m, q, 0);
    NewTriangleCorner(c, normals, sub, m, q, 1);
    NewTriangleCorner(c, normals, sub, m, q, 2);
  }

  predicate SubmeshFlat(normals: seq<Normal>, sub: seq<int>) {
    && |sub| % 3 == 0
    && forall t | 0 <= t < |sub| / 3 :: TriangleFlat(normals, sub, t)
  }

  lemma UntouchedSubmeshFlat(normals: seq<Normal>, more: seq<Normal>, sub: seq<int>)
    requires SubmeshFlat(normals, sub)
    ensures SubmeshFlat(normals + more, sub)
  {
    forall t | 0 <= t < |sub| / 3 ensures TriangleFlat(normals + more, sub, t) {
      OldTriangleStaysFlat(normals, more, sub, [], t);
      assert sub + [] == sub;
    }
  }

  lemma ExtendedSubmeshFlat(c: Cube, normals: seq<Normal>, sub: seq<int>)
    requires SubmeshFlat(normals, sub)
    ensures SubmeshFlat(normals + CubeNormals(c), sub + CubeTriangles(|normals|))
  {
    var tris := CubeTriangles(|normals|);
    var m := |sub| / 3;
    assert |tris| == 36;
    forall t | 0 <= t < |sub + tris| / 3
      ensures TriangleFlat(normals + CubeNormals(c), sub + tris, t)
    {
      if t < m {
        OldTriangleStaysFlat(normals, CubeNormals(c), sub, tris, t);
      } else {
        NewTriangleFlat(c, normals, sub, m, t - m);
      }
    }
  }

  lemma AddCubeFlatShaded(b: Builder, c: Cube, meshId: int)
    requires Valid(b) && 0 <= meshId < |b.buffers.submeshes|
    ensures FlatShaded(AddCube(b, c, meshId).buffers)
  {
    var r := AddCube(b, c, meshId);
    forall s | 0 <= s < |r.buffers.submeshes|
      ensures SubmeshFlat(r.buffers.normals, r.buffers.submeshes[s])
    {
      var sub := b.buffers.submeshes[s];
      assert SubmeshFlat(b.buffers.normals, sub);
      if s == meshId {
        ExtendedSubmeshFlat(c, b.buffers.normals, sub);
      } else {
        UntouchedSubmeshFlat(b.buffers.normals, CubeNormals(c), sub);
      }
    }
  }

  /** `AddCube` keeps the buffers a well-formed mesh of whole boxes. */
  lemma AddCubeValid(b: Builder, c: Cube, meshId: int)
    requires Valid(b) && 0 <= meshId < |b.buffers.submeshes|
    ensures Valid(AddCube(b, c, meshId))
  {
    var r := AddCube(b, c, meshId);
    TotalIndicesUpdate(b.buffers.submeshes, meshId, CubeTriangles(b.vertexTotal));
    CubeTrianglesLocal(c, b.vertexTotal);
    assert r.buffers.submeshes == b.buffers.submeshes[meshId := b.buffers.submeshes[meshId] + CubeTriangles(b.vertexTotal)];
    AddCubeFlatShaded(b, c, meshId);
  }

  // ---------------------------------------------------------------------------
  // Emitting a sequence of boxes

  predicate MeshIdsBelow(es: seq<Emission>, count: nat) {
    forall k | 0 <= k < |es| :: es[k].meshId < count
  }

  /** One `AddCube` call per emission, in order. */
  function EmitAll(b: Builder, es: seq<Emission>): (r: Builder)
    requires MeshIdsBelow(es, |b.buffers.submeshes|)
    ensures |r.buffers.submeshes| == |b.buffers.submeshes|
    ensures r.vertexTotal == b.vertexTotal + 24 * |es|
    decreases |es|
  {
    if |es| == 0 then b else EmitAll(AddCube(b, es[0].cube, es[0].meshId), es[1..])
  }

  /** Number of emissions of a given part. */
  function CountEmitted(es: seq<Emission>, p: Part): nat {
    if |es| == 0 then 0
    else CountEmitted(es[..|es| - 1], p) + (if es[|es| - 1].cube.tag.part == p then 1 else 0)
  }

  /** Number of vertices belonging to boxes of a given part. */
  function CountPart(vs: seq<Vertex>, p: Part): nat {
    if |vs| == 0 then 0
    else CountPart(vs[..|vs| - 1], p) + (if vs[|vs| - 1].cube.tag.part == p then 1 else 0)
  }

  lemma {:induction false} CountEmittedAppend(a: seq<Emission>, b: seq<Emission>, p: Part)
    ensures CountEmitted(a + b, p) == CountEmitted(a, p) + CountEmitted(b, p)
    decreases |b|
  {
    if |b| > 0 {
      assert (a + b)[..|a + b| - 1] == a + b[..|b| - 1];
      CountEmittedAppend(a, b[..|b| - 1], p);
    } else {
      assert a + b == a;
    }
  }

  lemma {:induction false} CountPartAppend(a: seq<Vertex>, b: seq<Vertex>, p: Part)
    ensures CountPart(a + b, p) == CountPart(a, p) + CountPart(b, p)
    decreases |b|
  {
    if |b| > 0 {
      assert (a + b)[..|a + b| - 1] == a + b[..|b| - 1];
      CountPartAppend(a, b[..|b| - 1], p);
    } else {
      assert a + b == a;
    }
  }

  lemma {:induction false} CountPartUniform(vs: seq<Vertex>, p: Part, q: Part)
    requires forall k | 0 <= k < |vs| :: vs[k].cube.tag.part == q
    ensures CountPart(vs, p) == if p == q then |vs| else 0
    decreases |vs|
  {
    if |vs| > 0 {
      CountPartUniform(vs[..|vs| - 1], p, q);
    }
  }

  /** Emitting boxes appends 24 vertices per box, keeps the earlier buffers as a
      prefix, keeps them well formed, and adds 24 vertices of each part per
      emitted box of that part. */
  lemma {:induction false} EmitAllFacts(b: Builder, es: seq<Emission>)
    requires Valid(b) && MeshIdsBelow(es, |b.buffers.submeshes|)
    ensures Valid(EmitAll(b, es))
    ensures |EmitAll(b, es).buffers.verts| == |b.buffers.verts| + 24 * |es|
    ensures EmitAll(b, es).buffers.verts[..|b.buffers.verts|] == b.buffers.verts
    ensures forall p: Part :: CountPart(EmitAll(b, es).buffers.verts, p) == CountPart(b.buffers.verts, p) + 24 * CountEmitted(es, p)
    decreases |es|
  {
    if |es| == 0 {
      assert b.buffers.verts[..|b.buffers.verts|] == b.buffers.verts;
    } else {
      var e := es[0];
      var b1 := AddCube(b, e.cube, e.meshId);
      AddCubeValid(b, e.cube, e.meshId);
      EmitAllFacts(b1, es[1..]);
      var r := EmitAll(b, es);
      assert r == EmitAll(b1, es[1..]);
      assert r.buffers.verts[..|b1.buffers.verts|] == b1.buffers.verts;
      assert r.buffers.verts[..|b.buffers.verts|] == b1.buffers.verts[..|b.buffers.verts|];
      forall p: Part
        ensures CountPart(r.buffers.verts, p) == CountPart(b.buffers.verts, p) + 24 * CountEmitted(es, p)
      {
        CountPartAppend(b.buffers.verts, CubeVertices(e.cube), p);
        CountPartUniform(CubeVertices(e.cube), p, e.cube.tag.part);
        assert es == [e] + es[1..];
        CountEmittedAppend([e], es[1..], p);
        assert [e][..0] == [];
      }
    }
  }
}
