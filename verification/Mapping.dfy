/**
 Mapping profiles: pipelines of typed conversion steps, and the validator that decides which
 pipelines may be stored. The predicates say what the validator enforces; the methods are the
 validator, loop by loop, proved to reject exactly the profiles that break a predicate.
 */
module Mapping {
  import opened Options
  import opened Values

  datatype StepKind =
    | Invert | Reciprocal | IntNumber | Scale | Clamp | EnumMap | Unit | RangeEnum | EnumNumber
    | Threshold | BoolNumber | BoolEnum | EnumBool | MapRange | Round | ParseNumber | NumberString
    | Unsupported(name: string)

  datatype UnitName = Celsius | Fahrenheit | Kelvin | Mired | Ratio | Percent | OtherUnit(name: string)

  datatype Operator = Gte | Gt | Lte | Lt | OtherOperator(name: string)

  datatype Mode = Nearest | Floor | Ceil | OtherMode(name: string)

  /** One numeric band: max is inclusive, reverse is the number that stands for the label. */
  datatype Band = Band(max: Option<real>, value: string, reverse: real)

  datatype Transform = Transform(
    kind: StepKind,
    factor: Option<real>, offset: Option<real>,
    min: Option<real>, max: Option<real>,
    values: map<string, string>, reverseValues: map<string, string>,
    fromUnit: UnitName, toUnit: UnitName,
    bands: seq<Band>,
    threshold: Option<real>, operator: Operator,
    trueNumber: Option<real>, falseNumber: Option<real>,
    trueValue: string, falseValue: string,
    inputMin: Option<real>, inputMax: Option<real>, outputMin: Option<real>, outputMax: Option<real>,
    mode: Mode)

  datatype ProfileKind = ProviderProfile | CapabilityProfile | TargetProfile | OtherProfile(name: string)

  datatype Profile = Profile(schemaVersion: int, id: string, identifier: string, version: int, kind: ProfileKind,
                             inputType: ValueType, outputType: ValueType,
                             default: Option<PropertyValue>, transforms: seq<Transform>)

  const SCHEMA_VERSION: int := 1

  // ----- the shared arithmetic -----

  predicate Numeric(t: ValueType) {
    t == Int || t == Number
  }

  predicate Textual(t: ValueType) {
    t == Enum || t == Text
  }

  predicate Matches(value: real, threshold: real, operator: Operator) {
    match operator
    case Gte => value >= threshold
    case Gt => value > threshold
    case Lte => value <= threshold
    case Lt => value < threshold
    case OtherOperator(_) => false
  }

  predicate Nonlinear(source: UnitName, target: UnitName) {
    (source == Kelvin && target == Mired) || (source == Mired && target == Kelvin)
  }

  /** Factor and offset of the affine unit conversions. */
  function UnitFormula(source: UnitName, target: UnitName): Option<(real, real)> {
    if source == target && source != OtherUnit("") then Some((1.0, 0.0))
    else
      match (source, target)
      case (Celsius, Fahrenheit) => Some((1.8, 32.0))
      case (Fahrenheit, Celsius) => Some((5.0 / 9.0, -32.0 * 5.0 / 9.0))
      case (Celsius, Kelvin) => Some((1.0, 273.15))
      case (Kelvin, Celsius) => Some((1.0, -273.15))
      case (Ratio, Percent) => Some((100.0, 0.0))
      case (Percent, Ratio) => Some((0.01, 0.0))
      case _ => None
  }

  predicate UnitSupported(source: UnitName, target: UnitName) {
    UnitFormula(source, target).Some? || Nonlinear(source, target)
  }

  /** The type a step leaves behind. */
  function OutputType(input: ValueType, t: Transform): ValueType {
    match t.kind
    case Reciprocal => Number
    case IntNumber => Number
    case Scale => Number
    case Clamp => Number
    case Unit => Number
    case MapRange => Number
    case ParseNumber => Number
    case EnumNumber => Number
    case BoolNumber => Number
    case RangeEnum => Enum
    case BoolEnum => Enum
    case Threshold => Bool
    case EnumBool => Bool
    case Round => Int
    case NumberString => Text
    case _ => input
  }

  function TypeAfter(ts: seq<Transform>, input: ValueType): ValueType {
    if ts == [] then input else TypeAfter(ts[1..], OutputType(input, ts[0]))
  }

  // ----- what the validator enforces -----

  /** White space as Unicode has it. */
  predicate IsSpace(c: char) {
    || c == '\t' || c == '\n' || c == '\U{000B}' || c == '\U{000C}' || c == '\r' || c == ' ' || c == '\U{0085}' || c == '\U{00A0}'
    || c == '\U{1680}' || '\U{2000}' <= c <= '\U{200A}' || c == '\U{2028}' || c == '\U{2029}' || c == '\U{202F}'
    || c == '\U{205F}' || c == '\U{3000}'
  }

  predicate Blank(s: string) {
    forall i :: 0 <= i < |s| ==> IsSpace(s[i])
  }

  /** Ordered bands that cover the line, each label once, each reverse number inside its own band. */
  ghost predicate GoodBands(bands: seq<Band>) {
    && |bands| >= 2
    && (forall i :: 0 <= i < |bands| ==> !Blank(bands[i].value))
    && (forall i, j :: 0 <= i < j < |bands| ==> bands[i].value != bands[j].value)
    && (forall i :: 0 <= i < |bands| ==> (bands[i].max.None? <==> i == |bands| - 1))
    && (forall i :: 0 <= i < |bands| - 1 ==> bands[i].reverse <= bands[i].max.value)
    && (forall i, j :: 0 <= i < j < |bands| ==> bands[i].max.value < bands[j].reverse)
  }

  predicate GoodThreshold(t: Transform) {
    && t.threshold.Some? && t.trueNumber.Some? && t.falseNumber.Some? && !t.operator.OtherOperator?
    && Matches(t.trueNumber.value, t.threshold.value, t.operator)
    && !Matches(t.falseNumber.value, t.threshold.value, t.operator)
  }

  predicate GoodLabels(trueValue: string, falseValue: string) {
    !Blank(trueValue) && !Blank(falseValue) && trueValue != falseValue
  }

  ghost predicate Emitted(values: map<string, string>, target: string) {
    exists s :: s in values && values[s] == target
  }

  /**
   No empty names; an output with several sources has a canonical one; the canonical source of an
   output leads to it. Reverse entries for values that are never output are write-only aliases.
   */
  ghost predicate GoodEnum(values: map<string, string>, reverse: map<string, string>) {
    && values != map[]
    && (forall s :: s in values ==> s != "" && values[s] != "")
    && (forall a, b :: a in values && b in values && a != b && values[a] == values[b] ==> values[a] in reverse)
    && (forall target :: target in reverse ==>
          && target != "" && reverse[target] in values
          && (Emitted(values, target) ==> values[reverse[target]] == target))
  }

  predicate GoodRange(t: Transform) {
    && t.inputMin.Some? && t.inputMax.Some? && t.outputMin.Some? && t.outputMax.Some?
    && t.inputMin.value != t.inputMax.value && t.outputMin.value != t.outputMax.value
  }

  /** The types a step can be applied to. */
  predicate Accepts(kind: StepKind, input: ValueType) {
    match kind
    case Invert => input == Bool
    case BoolNumber => input == Bool
    case BoolEnum => input == Bool
    case IntNumber => input == Int
    case ParseNumber => input == Text
    case EnumMap => Textual(input)
    case EnumNumber => Textual(input)
    case EnumBool => Textual(input)
    case Unsupported(_) => false
    case _ => Numeric(input)
  }

  ghost predicate GoodParameters(t: Transform) {
    match t.kind
    case Scale => t.factor.GetOr(1.0) != 0.0
    case Clamp => (t.min.Some? || t.max.Some?) && (t.min.Some? && t.max.Some? ==> t.min.value <= t.max.value)
    case EnumMap => GoodEnum(t.values, t.reverseValues)
    case Unit => UnitSupported(t.fromUnit, t.toUnit)
    case RangeEnum => GoodBands(t.bands)
    case EnumNumber => GoodBands(t.bands)
    case Threshold => GoodThreshold(t)
    case BoolNumber => GoodThreshold(t)
    case BoolEnum => GoodLabels(t.trueValue, t.falseValue)
    case EnumBool => GoodLabels(t.trueValue, t.falseValue)
    case MapRange => GoodRange(t)
    case Round => !t.mode.OtherMode?
    case _ => true
  }

  ghost predicate GoodStep(t: Transform, input: ValueType) {
    Accepts(t.kind, input) && GoodParameters(t)
  }

  ghost predicate GoodSteps(ts: seq<Transform>, input: ValueType) {
    ts != [] ==> GoodStep(ts[0], input) && GoodSteps(ts[1..], OutputType(input, ts[0]))
  }

  ghost predicate GoodProfile(p: Profile, stableId: string -> bool) {
    && p.schemaVersion == SCHEMA_VERSION && stableId(p.id) && (p.identifier != "" ==> stableId(p.identifier))
    && p.version >= 1 && !p.kind.OtherProfile? && !p.inputType.Unknown? && !p.outputType.Unknown?
    && (p.default.Some? ==> HasType(p.default.value, p.inputType))
    && GoodSteps(p.transforms, p.inputType)
    && TypeAfter(p.transforms, p.inputType) == p.outputType
  }

  lemma {:induction false} GoodStepsAt(ts: seq<Transform>, input: ValueType, i: nat)
    requires i < |ts|
    ensures TypeAfter(ts[..i + 1], input) == OutputType(TypeAfter(ts[..i], input), ts[i])
    ensures GoodSteps(ts[..i + 1], input) <==> GoodSteps(ts[..i], input) && GoodStep(ts[i], TypeAfter(ts[..i], input))
  {
    assert ts[..i + 1][0] == ts[0] && ts[..i + 1][1..] == ts[1..][..i];
    if i > 0 {
      GoodStepsAt(ts[1..], OutputType(input, ts[0]), i - 1);
      assert ts[..i][1..] == ts[1..][..i - 1];
    } else {
      assert ts[..1][1..] == [];
    }
  }
}
