/**
 One waypoint of the fence path (`FenceSection`): its corner point, the preset
 its outgoing segment uses, and per-section overrides.
 */
module FenceSectionModel {
  import opened Unity

  /** An index into the fence's preset table; `None` stands for a null preset. */
  type PresetRef = nat

  datatype FenceSection = FenceSection(
    cornerPoint: Vec3,
    data: Option<PresetRef>,
    flipFence: bool,
    heightModifier: real,
    length: real)

  /** The values the field initialisers give before any constructor body runs. */
  const FieldDefaults: FenceSection := FenceSection(Vec3(1.0, 0.0, 0.0), None, false, 1.0, 0.0)

  /** `new FenceSection(position, data)`: the field initialisers, then the
      constructor body, which sets the corner point, the height modifier and
      the preset. */
  function NewSection(position: Vec3, data: Option<PresetRef>): (s: FenceSection)
    ensures s.cornerPoint == position && s.data == data
    ensures !s.flipFence && s.heightModifier == 1.0 && s.length == 0.0
  {
    FieldDefaults.(cornerPoint := position).(heightModifier := 1.0).(data := data)
  }

  /** The constructor overrides the (1, 0, 0) corner default whatever position it
      is given, and two sections built from different positions differ. */
  lemma NewSectionOverridesCorner(p: Vec3, q: Vec3, data: Option<PresetRef>)
    ensures p != FieldDefaults.cornerPoint ==> NewSection(p, data).cornerPoint != FieldDefaults.cornerPoint
    ensures p != q ==> NewSection(p, data) != NewSection(q, data)
  {
  }

  datatype Property = CornerPointProp | DataProp | FlipFenceProp | HeightModifierProp | LengthProp

  datatype Value =
    | PointValue(point: Vec3)
    | DataValue(data: Option<PresetRef>)
    | BoolValue(b: bool)
    | RealValue(r: real)

  predicate Fits(p: Property, v: Value) {
    match p
    case CornerPointProp => v.PointValue?
    case DataProp => v.DataValue?
    case FlipFenceProp => v.BoolValue?
    case HeightModifierProp | LengthProp => v.RealValue?
  }

  function Get(s: FenceSection, p: Property): (v: Value)
    ensures Fits(p, v)
  {
    match p
    case CornerPointProp => PointValue(s.cornerPoint)
    case DataProp => DataValue(s.data)
    case FlipFenceProp => BoolValue(s.flipFence)
    case HeightModifierProp => RealValue(s.heightModifier)
    case LengthProp => RealValue(s.length)
  }

  /** A property setter stores the value and touches no other property. */
  function Set(s: FenceSection, p: Property, v: Value): (r: FenceSection)
    requires Fits(p, v)
    ensures Get(r, p) == v
    ensures forall q: Property :: q != p ==> Get(r, q) == Get(s, q)
  {
    match p
    case CornerPointProp => s.(cornerPoint := v.point)
    case DataProp => s.(data := v.data)
    case FlipFenceProp => s.(flipFence := v.b)
    case HeightModifierProp => s.(heightModifier := v.r)
    case LengthProp => s.(length := v.r)
  }

  lemma {:induction false} GetDeterminesSection(s: FenceSection, t: FenceSection)
    requires forall p: Property :: Get(s, p) == Get(t, p)
    ensures s == t
  {
    assert Get(s, CornerPointProp) == Get(t, CornerPointProp);
    assert Get(s, DataProp) == Get(t, DataProp);
    assert Get(s, FlipFenceProp) == Get(t, FlipFenceProp);
    assert Get(s, HeightModifierProp) == Get(t, HeightModifierProp);
    assert Get(s, LengthProp) == Get(t, LengthProp);
  }

  lemma SetterLaws(s: FenceSection, p: Property, v: Value, w: Value)
    requires Fits(p, v) && Fits(p, w)
    ensures Set(s, p, Get(s, p)) == s
    ensures Set(Set(s, p, v), p, w) == Set(s, p, w)
  {
    forall q: Property ensures Get(Set(s, p, Get(s, p)), q) == Get(s, q) {
    }
    GetDeterminesSection(Set(s, p, Get(s, p)), s);
    forall q: Property ensures Get(Set(Set(s, p, v), p, w), q) == Get(Set(s, p, w), q) {
    }
    GetDeterminesSection(Set(Set(s, p, v), p, w), Set(s, p, w));
  }

  /** The part of a section the fence builder reads: corner, preset and flip.
      The height modifier and the stored length are never consulted. */
  predicate SameBuildInputs(s: FenceSection, t: FenceSection) {
    s.cornerPoint == t.cornerPoint && s.data == t.data && s.flipFence == t.flipFence
  }
}
