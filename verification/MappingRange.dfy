/** Bounds of a property definition, carried through a numeric pipeline, still bound its values. */
module MappingRange {
  import opened Options
  import opened Values
  import opened Mapping
  import opened MappingEngine
  import opened MappingSoundness
  import opened MappingRoundTrip

  /** Truncation toward zero, as a conversion from float to int does it. */
  function Truncated(x: real): int {
    if x >= 0.0 then FloorOf(x) else CeilOf(x)
  }

  /** A bound of the source definition as a value of the profile's input type. */
  function BoundValue(p: Profile, x: real): PropertyValue
    requires p.inputType == Int ==> InInt64(Truncated(x))
  {
    if p.inputType == Int then IntValue(Truncated(x) as int64) else NumberValue(x)
  }

  function MapNumber(p: Profile, x: real, text: NumberText): Outcome<real>
    requires p.inputType == Int ==> InInt64(Truncated(x))
  {
    match Convert(p, false, BoundValue(p, x), text)
    case Ok(v) => if NumericValue(v).Some? then Ok(NumericValue(v).value) else Rejected(BadOutput)
    case Rejected(reason) => Rejected(reason)
    case Panic => Panic
  }

  /** Both bounds of a numeric definition, swapped when the pipeline turned them round. */
  function MapBounds(p: Profile, min: real, max: real, text: NumberText): Outcome<(real, real)>
    requires p.inputType == Int ==> InInt64(Truncated(min)) && InInt64(Truncated(max))
  {
    match (MapNumber(p, min, text), MapNumber(p, max, text))
    case (Ok(a), Ok(b)) => if a > b then Ok((b, a)) else Ok((a, b))
    case (Ok(_), Rejected(reason)) => Rejected(reason)
    case (Rejected(reason), _) => Rejected(reason)
    case _ => Panic
  }

  /** Truncation keeps the sign, and takes away less than one. */
  lemma TruncatesTowardZero(x: real)
    ensures if x >= 0.0 then 0.0 <= Truncated(x) as real <= x < Truncated(x) as real + 1.0
            else Truncated(x) as real - 1.0 < x <= Truncated(x) as real <= 0.0
  {
  }

  predicate NumericStep(t: Transform) {
    || t.kind.IntNumber? || t.kind.Scale? || t.kind.MapRange? || t.kind.Round? || t.kind.Clamp?
    || (t.kind.Unit? && !Nonlinear(t.fromUnit, t.toUnit))
  }

  predicate NumericSteps(ts: seq<Transform>) {
    forall i :: 0 <= i < |ts| ==> NumericStep(ts[i])
  }

  /** Whether larger inputs give larger outputs; otherwise they give smaller ones. */
  predicate Rising(t: Transform) {
    if t.kind.Scale? then t.factor.GetOr(1.0) > 0.0
    else if t.kind.MapRange? then (t.inputMin.GetOr(0.0) < t.inputMax.GetOr(0.0)) == (t.outputMin.GetOr(0.0) < t.outputMax.GetOr(0.0))
    else true
  }

  predicate RisingAll(ts: seq<Transform>) {
    if ts == [] then true else Rising(ts[0]) == RisingAll(ts[1..])
  }

  predicate Ordered(rising: bool, a: real, b: real) {
    if rising then a <= b else a >= b
  }

  lemma AffineIsMonotone(a: real, b: real, factor: real, offset: real)
    requires a <= b
    ensures Ordered(factor > 0.0, Affine(a, factor, offset), Affine(b, factor, offset))
  {
    assert (b - a) * factor == Affine(b, factor, offset) - Affine(a, factor, offset);
  }

  lemma RemapIsMonotone(a: real, b: real, lo: real, hi: real, lo': real, hi': real)
    requires a <= b && lo != hi && lo' != hi'
    ensures Ordered((lo < hi) == (lo' < hi'), Remap(a, lo, hi, lo', hi'), Remap(b, lo, hi, lo', hi'))
  {
    var slope := (hi' - lo') / (hi - lo);
    RemapIsAffine(a, lo, hi, lo', hi');
    RemapIsAffine(b, lo, hi, lo', hi');
    assert (b - lo) * slope - (a - lo) * slope == (b - a) * slope;
    SlopeSign(hi - lo, hi' - lo', slope);
    ProductSign(b - a, slope);
  }

  lemma SlopeSign(run: real, rise: real, slope: real)
    requires run != 0.0 && rise != 0.0 && slope * run == rise
    ensures (run > 0.0) == (rise > 0.0) <==> slope > 0.0
  {
    if slope > 0.0 {
      ProductSign(slope, run);
    } else {
      ProductSign(-slope, run);
      assert -slope * run == -rise;
    }
  }

  lemma ProductSign(x: real, y: real)
    requires x >= 0.0
    ensures y >= 0.0 ==> x * y >= 0.0
    ensures y <= 0.0 ==> x * y <= 0.0
  {
  }

  lemma RemapIsAffine(x: real, lo: real, hi: real, lo': real, hi': real)
    requires lo != hi
    ensures Remap(x, lo, hi, lo', hi') == lo' + (x - lo) * ((hi' - lo') / (hi - lo))
  {
    var slope := (hi' - lo') / (hi - lo);
    assert slope * (hi - lo) == hi' - lo';
    QuotientIs((x - lo) * (hi' - lo'), hi - lo, (x - lo) * slope);
  }

  lemma RoundingIsMonotone(mode: Mode, a: real, b: real)
    requires a <= b
    ensures Rounded(mode, a) <= Rounded(mode, b)
  {
  }

  lemma StepIsMonotone(t: Transform, input: ValueType, u: PropertyValue, v: PropertyValue, text: NumberText)
    requires GoodStep(t, input) && NumericStep(t) && HasType(u, input) && HasType(v, input)
    requires NumericValue(u).value <= NumericValue(v).value
    requires ApplyForward(t, u, text).Ok? && ApplyForward(t, v, text).Ok?
    ensures Ordered(Rising(t), NumericValue(ApplyForward(t, u, text).value).GetOr(0.0),
                               NumericValue(ApplyForward(t, v, text).value).GetOr(0.0))
  {
    var a, b := NumericValue(u).value, NumericValue(v).value;
    match t.kind
    case Scale => AffineIsMonotone(a, b, t.factor.GetOr(1.0), t.offset.GetOr(0.0));
    case Unit =>
      var (factor, offset) := UnitFormula(t.fromUnit, t.toUnit).value;
      AffineIsMonotone(a, b, factor, offset);
    case MapRange => RemapIsMonotone(a, b, t.inputMin.value, t.inputMax.value, t.outputMin.value, t.outputMax.value);
    case Round => RoundingIsMonotone(t.mode, a, b);
    case _ =>
  }

  lemma {:induction false} PipelineIsMonotone(ts: seq<Transform>, input: ValueType, u: PropertyValue, v: PropertyValue, text: NumberText)
    requires GoodSteps(ts, input) && NumericSteps(ts) && Numeric(input) && HasType(u, input) && HasType(v, input)
    requires NumericValue(u).value <= NumericValue(v).value
    requires ForwardAll(ts, u, text).Ok? && ForwardAll(ts, v, text).Ok?
    ensures Ordered(RisingAll(ts), NumericValue(ForwardAll(ts, u, text).value).GetOr(0.0),
                                   NumericValue(ForwardAll(ts, v, text).value).GetOr(0.0))
  {
    if ts != [] {
      ForwardStepIsTyped(ts[0], input, u, text);
      ForwardStepIsTyped(ts[0], input, v, text);
      StepIsMonotone(ts[0], input, u, v, text);
      var u', v' := ApplyForward(ts[0], u, text).value, ApplyForward(ts[0], v, text).value;
      if Rising(ts[0]) {
        PipelineIsMonotone(ts[1..], OutputType(input, ts[0]), u', v', text);
      } else {
        PipelineIsMonotone(ts[1..], OutputType(input, ts[0]), v', u', text);
      }
    }
  }

  /** Truncating the bounds loses no int that lay between them. */
  lemma BoundsKeepInts(min: real, n: int, max: real)
    requires min <= n as real <= max
    ensures Truncated(min) <= n <= Truncated(max)
  {
  }

  /**
   A source value inside the source bounds is mapped inside the mapped bounds, for rising and
   falling pipelines of any length and for truncated int bounds, whenever the conversions succeed.
   */
  lemma MappedValueIsInRange(p: Profile, stableId: string -> bool, min: real, max: real, v: PropertyValue, text: NumberText)
    requires GoodProfile(p, stableId) && NumericSteps(p.transforms) && Numeric(p.inputType)
    requires p.inputType == Int ==> InInt64(Truncated(min)) && InInt64(Truncated(max))
    requires HasType(v, p.inputType) && min <= NumericValue(v).value <= max
    requires MapBounds(p, min, max, text).Ok? && Convert(p, false, v, text).Ok?
    ensures var (lo, hi) := MapBounds(p, min, max, text).value;
            lo <= NumericValue(Convert(p, false, v, text).value).GetOr(0.0) <= hi
  {
    if p.inputType == Int {
      BoundsKeepInts(min, v.whole.value as int, max);
    }
    var a, b := BoundValue(p, min), BoundValue(p, max);
    ForwardIsTyped(p.transforms, p.inputType, a, text);
    ForwardIsTyped(p.transforms, p.inputType, v, text);
    ForwardIsTyped(p.transforms, p.inputType, b, text);
    PipelineIsMonotone(p.transforms, p.inputType, a, v, text);
    PipelineIsMonotone(p.transforms, p.inputType, v, b, text);
  }

  /** The reading of a bound: of the number itself, or of its whole part where ints are read. */
  predicate BoundReads(p: Profile, bound: real, n: int, y: real, text: NumberText) {
    var v := if p.inputType == Int then PropertyValue(Int, None, if InInt64(n) then Some(n as int64) else None, None, None)
             else PropertyValue(Number, None, None, Some(bound), None);
    match Convert(p, false, v, text)
    case Ok(r) => r == NumberValue(y) || (r.whole.Some? && r == IntValue(r.whole.value) && r.whole.value as int as real == y)
    case _ => false
  }

  /** The mapped bounds are no wider than need be: each is the reading of one of the two bounds. */
  lemma BoundsAreAttained(p: Profile, stableId: string -> bool, min: real, max: real, a: int, b: int, text: NumberText)
    requires GoodProfile(p, stableId) && Numeric(p.outputType)
    requires p.inputType == Int ==> InInt64(a) && InInt64(b) && a == Truncated(min) && b == Truncated(max)
    requires p.inputType == Int || p.inputType == Number
    requires MapBounds(p, min, max, text).Ok?
    ensures var (lo, hi) := MapBounds(p, min, max, text).value;
            || (BoundReads(p, min, a, lo, text) && BoundReads(p, max, b, hi, text))
            || (BoundReads(p, max, b, lo, text) && BoundReads(p, min, a, hi, text))
  {
    ForwardIsTyped(p.transforms, p.inputType, BoundValue(p, min), text);
    ForwardIsTyped(p.transforms, p.inputType, BoundValue(p, max), text);
  }
}
