/**
 The fence preset (`FenceData`): the style record every section points at.
 Presets are shared by reference in the host engine; here a preset is an
 immutable value and sharing is modelled by the preset table the fence
 builder receives (see module FenceModel).
 */
module FenceDataModel {
  import opened Unity

  datatype FenceType = Farm | Picket

  /** C# `ConformType`; its `None` member is called `NoConform` here so that it
      does not clash with `Option.None`. */
  datatype ConformType = NoConform | Ground

  datatype PostJoint = Inset | Offset

  /** One horizontal rail tier. */
  datatype Rail = Rail(groundOffset: real, width: real, obstructionPreventsPickets: bool)

  datatype FenceData = FenceData(
    fenceType: FenceType,
    conformMode: ConformType,
    allowObstructions: bool,
    lean: real,
    tilt: real,
    picketConform: real,
    segmentLength: real,
    postJointMode: PostJoint,
    postDimensions: Vec3,
    picketDimensions: Vec3,
    picketGap: real,
    picketGroundOffset: real,
    railThickness: real,
    materials: seq<Material>,
    rails: seq<Rail>)

  // ---------------------------------------------------------------------------
  // Enum encodings (the integers C# assigns to each member)

  function FenceTypeCode(t: FenceType): int {
    match t
    case Farm => 0
    case Picket => 1
  }

  function FenceTypeOf(code: int): Option<FenceType> {
    if code == 0 then Some(Farm) else if code == 1 then Some(Picket) else None
  }

  function ConformTypeCode(c: ConformType): int {
    match c
    case NoConform => 0
    case Ground => 1
  }

  function ConformTypeOf(code: int): Option<ConformType> {
    if code == 0 then Some(NoConform) else if code == 1 then Some(Ground) else None
  }

  function PostJointCode(j: PostJoint): int {
    match j
    case Inset => 0
    case Offset => 1
  }

  function PostJointOf(code: int): Option<PostJoint> {
    if code == 0 then Some(Inset) else if code == 1 then Some(Offset) else None
  }

  /** Each enum is encoded by 0 and 1 and decoding inverts the encoding; no
      other integer names a member. */
  lemma EnumEncodingsRoundTrip(code: int)
    ensures forall t: FenceType :: FenceTypeOf(FenceTypeCode(t)) == Some(t)
    ensures forall c: ConformType :: ConformTypeOf(ConformTypeCode(c)) == Some(c)
    ensures forall j: PostJoint :: PostJointOf(PostJointCode(j)) == Some(j)
    ensures FenceTypeOf(code).Some? <==> code == 0 || code == 1
    ensures ConformTypeOf(code).Some? <==> code == 0 || code == 1
    ensures PostJointOf(code).Some? <==> code == 0 || code == 1
    ensures FenceTypeOf(code).Some? ==> FenceTypeCode(FenceTypeOf(code).value) == code
    ensures ConformTypeOf(code).Some? ==> ConformTypeCode(ConformTypeOf(code).value) == code
    ensures PostJointOf(code).Some? ==> PostJointCode(PostJointOf(code).value) == code
    ensures FenceTypeCode(Farm) == 0 && FenceTypeCode(Picket) == 1
    ensures ConformTypeCode(NoConform) == 0 && ConformTypeCode(Ground) == 1
    ensures PostJointCode(Inset) == 0 && PostJointCode(Offset) == 1
  {
  }

  // ---------------------------------------------------------------------------
  // Construction

  /** The `Rail` struct constructor, with its default arguments. */
  function NewRail(groundOffset: real := 0.5, width: real := 0.07, obstructionPreventsPickets: bool := false): (r: Rail)
    ensures r.groundOffset == groundOffset && r.width == width
    ensures r.obstructionPreventsPickets == obstructionPreventsPickets
  {
    Rail(groundOffset, width, obstructionPreventsPickets)
  }

  /** A freshly created preset: the field initialisers of `FenceData`. The
      material list is created with capacity 3 but holds no element. */
  function NewFenceData(): FenceData {
    FenceData(
      Farm, NoConform, false,
      1.0, 1.0, 1.0, 2.0,
      Inset, Vec3(0.1, 0.1, 1.1), Vec3(0.07, 0.01, 1.0),
      0.1, 0.1, 0.04,
      [],
      [NewRail(0.2, 0.1), NewRail(0.5, 0.1), NewRail(0.8, 0.1)])
  }

  /** The bounds the inspector's `[Range]` attributes declare. Nothing in the
      preset itself enforces them. */
  predicate WithinInspectorRanges(d: FenceData) {
    && 0.0 <= d.lean <= 1.0
    && 0.0 <= d.tilt <= 1.0
    && 0.0 <= d.picketConform <= 1.0
    && 0.1 <= d.segmentLength <= 10.0
  }

  lemma RailDefaults()
    ensures NewRail() == Rail(0.5, 0.07, false)
    ensures NewRail(0.2, 0.1) == Rail(0.2, 0.1, false)
  {
  }

  /** A fresh preset lies within the inspector ranges, with full lean, tilt and
      picket conform and a segment length of 2, has three evenly raised
      rails of equal width none of which blocks pickets, and has no material. */
  lemma NewFenceDataDefaults()
    ensures WithinInspectorRanges(NewFenceData())
    ensures NewFenceData().lean == 1.0 && NewFenceData().tilt == 1.0 && NewFenceData().picketConform == 1.0
    ensures NewFenceData().segmentLength == 2.0
    ensures NewFenceData().fenceType == Farm && NewFenceData().conformMode == NoConform
    ensures NewFenceData().postJointMode == Inset && !NewFenceData().allowObstructions
    ensures |NewFenceData().materials| == 0
    ensures |NewFenceData().rails| == 3
    ensures forall k | 0 <= k < 3 :: NewFenceData().rails[k].width == 0.1
    ensures forall k | 0 <= k < 3 :: !NewFenceData().rails[k].obstructionPreventsPickets
    ensures forall k | 0 <= k < 2 ::
      NewFenceData().rails[k + 1].groundOffset - NewFenceData().rails[k].groundOffset == 0.3
    ensures NewFenceData().rails[0].groundOffset == 0.2
    ensures NewFenceData().picketGap == 0.1 && NewFenceData().picketGroundOffset == 0.1
    ensures NewFenceData().railThickness == 0.04
    ensures NewFenceData().postDimensions == Vec3(0.1, 0.1, 1.1)
    ensures NewFenceData().picketDimensions == Vec3(0.07, 0.01, 1.0)
  {
  }

  // ---------------------------------------------------------------------------
  // Properties: each C# property is a getter/setter pair over one field.

  datatype Property =
    | TypeProp | ConformModeProp | AllowObstructionsProp | LeanProp | TiltProp
    | PicketConformProp | SegmentLengthProp | PostJointModeProp | PostDimensionsProp
    | PicketDimensionsProp | PicketGapProp | PicketGroundOffsetProp | RailThicknessProp
    | MaterialsProp | RailsProp

  /** A property value, tagged by the C# type of the property. */
  datatype Value =
    | TypeValue(fenceType: FenceType)
    | ConformValue(conform: ConformType)
    | JointValue(joint: PostJoint)
    | BoolValue(b: bool)
    | RealValue(r: real)
    | VecValue(v: Vec3)
    | MaterialsValue(materials: seq<Material>)
    | RailsValue(rails: seq<Rail>)

  /** The value has the C# type of the property. */
  predicate Fits(p: Property, v: Value) {
    match p
    case TypeProp => v.TypeValue?
    case ConformModeProp => v.ConformValue?
    case PostJointModeProp => v.JointValue?
    case AllowObstructionsProp => v.BoolValue?
    case LeanProp | TiltProp | PicketConformProp | SegmentLengthProp
       | PicketGapProp | PicketGroundOffsetProp | RailThicknessProp => v.RealValue?
    case PostDimensionsProp | PicketDimensionsProp => v.VecValue?
    case MaterialsProp => v.MaterialsValue?
    case RailsProp => v.RailsValue?
  }

  function Get(d: FenceData, p: Property): (v: Value)
    ensures Fits(p, v)
  {
    match p
    case TypeProp => TypeValue(d.fenceType)
    case ConformModeProp => ConformValue(d.conformMode)
    case AllowObstructionsProp => BoolValue(d.allowObstructions)
    case LeanProp => RealValue(d.lean)
    case TiltProp => RealValue(d.tilt)
    case PicketConformProp => RealValue(d.picketConform)
    case SegmentLengthProp => RealValue(d.segmentLength)
    case PostJointModeProp => JointValue(d.postJointMode)
    case PostDimensionsProp => VecValue(d.postDimensions)
    case PicketDimensionsProp => VecValue(d.picketDimensions)
    case PicketGapProp => RealValue(d.picketGap)
    case PicketGroundOffsetProp => RealValue(d.picketGroundOffset)
    case RailThicknessProp => RealValue(d.railThickness)
    case MaterialsProp => MaterialsValue(d.materials)
    case RailsProp => RailsValue(d.rails)
  }

  /** A property setter: stores the value as given, with no clamping to the
      inspector ranges, and touches no other property. */
  function Set(d: FenceData, p: Property, v: Value): (r: FenceData)
    requires Fits(p, v)
    ensures Get(r, p) == v
    ensures forall q: Property :: q != p ==> Get(r, q) == Get(d, q)
  {
    match p
    case TypeProp => d.(fenceType := v.fenceType)
    case ConformModeProp => d.(conformMode := v.conform)
    case AllowObstructionsProp => d.(allowObstructions := v.b)
    case LeanProp => d.(lean := v.r)
    case TiltProp => d.(tilt := v.r)
    case PicketConformProp => d.(picketConform := v.r)
    case SegmentLengthProp => d.(segmentLength := v.r)
    case PostJointModeProp => d.(postJointMode := v.joint)
    case PostDimensionsProp => d.(postDimensions := v.v)
    case PicketDimensionsProp => d.(picketDimensions := v.v)
    case PicketGapProp => d.(picketGap := v.r)
    case PicketGroundOffsetProp => d.(picketGroundOffset := v.r)
    case RailThicknessProp => d.(railThickness := v.r)
    case MaterialsProp => d.(materials := v.materials)
    case RailsProp => d.(rails := v.rails)
  }

  /** Two presets that agree on every property are the same preset. */
  lemma {:induction false} GetDeterminesPreset(d: FenceData, e: FenceData)
    requires forall p: Property :: Get(d, p) == Get(e, p)
    ensures d == e
  {
    assert Get(d, TypeProp) == Get(e, TypeProp);
    assert Get(d, ConformModeProp) == Get(e, ConformModeProp);
    assert Get(d, AllowObstructionsProp) == Get(e, AllowObstructionsProp);
    assert Get(d, LeanProp) == Get(e, LeanProp);
    assert Get(d, TiltProp) == Get(e, TiltProp);
    assert Get(d, PicketConformProp) == Get(e, PicketConformProp);
    assert Get(d, SegmentLengthProp) == Get(e, SegmentLengthProp);
    assert Get(d, PostJointModeProp) == Get(e, PostJointModeProp);
    assert Get(d, PostDimensionsProp) == Get(e, PostDimensionsProp);
    assert Get(d, PicketDimensionsProp) == Get(e, PicketDimensionsProp);
    assert Get(d, PicketGapProp) == Get(e, PicketGapProp);
    assert Get(d, PicketGroundOffsetProp) == Get(e, PicketGroundOffsetProp);
    assert Get(d, RailThicknessProp) == Get(e, RailThicknessProp);
    assert Get(d, MaterialsProp) == Get(e, MaterialsProp);
    assert Get(d, RailsProp) == Get(e, RailsProp);
  }

  /** Writing back what was read changes nothing; a second write to the same
      property overrides the first. */
  lemma SetterLaws(d: FenceData, p: Property, v: Value, w: Value)
    requires Fits(p, v) && Fits(p, w)
    ensures Set(d, p, Get(d, p)) == d
    ensures Set(Set(d, p, v), p, w) == Set(d, p, w)
  {
    forall q: Property ensures Get(Set(d, p, Get(d, p)), q) == Get(d, q) {
    }
    GetDeterminesPreset(Set(d, p, Get(d, p)), d);
    forall q: Property ensures Get(Set(Set(d, p, v), p, w), q) == Get(Set(d, p, w), q) {
    }
    GetDeterminesPreset(Set(Set(d, p, v), p, w), Set(d, p, w));
  }

  /** The setters do not enforce the inspector ranges: a fresh preset whose lean
      is set to 2 keeps that value and leaves the declared range. */
  lemma SettersIgnoreRanges()
    ensures Get(Set(NewFenceData(), LeanProp, RealValue(2.0)), LeanProp) == RealValue(2.0)
    ensures !WithinInspectorRanges(Set(NewFenceData(), LeanProp, RealValue(2.0)))
    ensures !WithinInspectorRanges(Set(NewFenceData(), SegmentLengthProp, RealValue(0.0)))
  {
  }

  // ---------------------------------------------------------------------------
  // The picket-gap clamp the build applies to every preset it visits

  const MinPicketGap: real := 0.01

  /** `Data.PicketGap = Mathf.Max(Data.PicketGap, 0.01f)`: raises the gap to at
      least 0.01 and leaves every other property as it was. */
  function ClampPicketGap(d: FenceData): (r: FenceData)
    ensures r.picketGap >= MinPicketGap
    ensures d.picketGap >= MinPicketGap ==> r == d
    ensures d.picketGap < MinPicketGap ==> r.picketGap == MinPicketGap
    ensures forall p: Property :: p != PicketGapProp ==> Get(r, p) == Get(d, p)
  {
    d.(picketGap := Max(d.picketGap, MinPicketGap))
  }

  lemma ClampPicketGapIdempotent(d: FenceData)
    ensures ClampPicketGap(ClampPicketGap(d)) == ClampPicketGap(d)
  {
  }
}
