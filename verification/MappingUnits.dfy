/** The generated unit profiles, and what rounding to integers costs in either direction. */
module MappingUnits {
  import opened Options
  import opened Values
  import opened Mapping
  import opened MappingValidator
  import opened MappingEngine
  import opened MappingSoundness
  import opened MappingRoundTrip
  import opened MappingMeaning

  const PLAIN: Transform := Transform(Invert, None, None, None, None, map[], map[], OtherUnit(""), OtherUnit(""), [],
                                      None, OtherOperator(""), None, None, "", "", None, None, None, None, OtherMode(""))

  function UnitStep(source: UnitName, target: UnitName): Transform {
    PLAIN.(kind := Unit, fromUnit := source, toUnit := target)
  }

  const NEAREST_STEP: Transform := PLAIN.(kind := Round, mode := Nearest)

  /** A unit step, followed by a nearest round when the target is an int. */
  function UnitProfile(input: ValueType, output: ValueType, source: UnitName, target: UnitName, id: string, name: string): Profile {
    Profile(SCHEMA_VERSION, id, name, 1, CapabilityProfile, input, output, None,
            [UnitStep(source, target)] + if output == Int then [NEAREST_STEP] else [])
  }

  /** The identifiers are given: any naming function whose results are stable identifiers will do. */
  method AutoCapabilityProfile(input: ValueType, output: ValueType, source: UnitName, target: UnitName,
                               id: string, name: string, stableId: string -> bool)
    returns (r: Option<Profile>)
    requires stableId(id) && stableId(name)
    ensures r.Some? <==> Numeric(input) && Numeric(output) && source != target && UnitSupported(source, target)
    ensures r.Some? ==> r.value == UnitProfile(input, output, source, target, id, name) && GoodProfile(r.value, stableId)
  {
    if !Numeric(input) || !Numeric(output) || source == OtherUnit("") || target == OtherUnit("") || source == target
       || !UnitSupported(source, target) {
      return None;
    }
    var p := UnitProfile(input, output, source, target, id, name);
    UnitProfileIsGood(input, output, source, target, id, name, stableId);
    var fields := Validate(p, stableId);
    return if fields != map[] then None else Some(p);
  }

  lemma UnitProfileIsGood(input: ValueType, output: ValueType, source: UnitName, target: UnitName, id: string, name: string,
                          stableId: string -> bool)
    requires Numeric(input) && Numeric(output) && UnitSupported(source, target) && stableId(id) && stableId(name)
    ensures GoodProfile(UnitProfile(input, output, source, target, id, name), stableId)
  {
    var ts := UnitProfile(input, output, source, target, id, name).transforms;
    assert GoodStep(ts[0], input);
    if output == Int {
      assert ts[1..] == [NEAREST_STEP];
      NearestStepIsGood();
    } else {
      assert ts[1..] == [];
    }
  }

  lemma NearestStepIsGood()
    ensures GoodSteps([NEAREST_STEP], Number) && TypeAfter([NEAREST_STEP], Number) == Int
  {
    assert [NEAREST_STEP][1..] == [];
    assert GoodStep(NEAREST_STEP, Number) && OutputType(Number, NEAREST_STEP) == Int;
    assert GoodSteps([], Int) && TypeAfter([], Int) == Int;
  }

  /**
   What a generated profile does: it reads a number as its unit conversion, and where it declares an int as
   the nearest int of that; it writes by the conversion back.
   */
  lemma GeneratedProfileConverts(input: ValueType, output: ValueType, source: UnitName, target: UnitName, id: string, name: string,
                                 stableId: string -> bool, v: PropertyValue, x: real, n: int, text: NumberText)
    requires Numeric(input) && Numeric(output) && UnitSupported(source, target) && stableId(id) && stableId(name)
    requires HasType(v, input) && Numeral(v, x)
    ensures var p := UnitProfile(input, output, source, target, id, name);
            && p.schemaVersion == 1 && p.version == 1 && p.kind == CapabilityProfile && p.id == id && p.identifier == name
            && p.inputType == input && p.outputType == output && p.default == None
            && (match ConvertUnit(source, target, x)
                case Ok(y) =>
                  && (output == Number ==> Convert(p, false, v, text) == Ok(y))
                  && (output == Int && y.number.Some? && RoundsTo(Nearest, y.number.value, n) ==>
                        Convert(p, false, v, text) == if InInt64(n) then Ok(IntValue(n as int64)) else Rejected(OutOfRange))
                case Rejected(reason) => Convert(p, false, v, text) == Rejected(reason)
                case Panic => false)
            && (input == Number && output == Number ==> Convert(p, true, v, text) == ConvertUnit(target, source, x))
  {
    var p := UnitProfile(input, output, source, target, id, name);
    UnitProfileIsGood(input, output, source, target, id, name, stableId);
    ReadingIsThePipeline(p, stableId, v, text);
    UnitAndClampSteps(UnitStep(source, target), v, x, input, text);
    OneStep(UnitStep(source, target), input, v, text);
    if output == Int {
      assert p.transforms == [UnitStep(source, target)] + [NEAREST_STEP];
      PipelinesCompose([UnitStep(source, target)], [NEAREST_STEP], input, v, text);
      if ConvertUnit(source, target, x).Ok? {
        var y := ConvertUnit(source, target, x).value;
        OneStep(NEAREST_STEP, Number, y, text);
        if y.number.Some? && RoundsTo(Nearest, y.number.value, n) {
          RoundMeans(NEAREST_STEP, y, y.number.value, n, Number, text);
        }
      }
    } else if input == Number {
      WritingIsThePipelineUndone(p, stableId, v, n, text);
    }
  }

  // ----- an affine step, then a nearest round, between ints -----

  /** Factor and offset of a step that is affine. */
  function AffineOf(t: Transform): Option<(real, real)> {
    if t.kind.Scale? then Some((t.factor.GetOr(1.0), t.offset.GetOr(0.0)))
    else if t.kind.Unit? && !Nonlinear(t.fromUnit, t.toUnit) then UnitFormula(t.fromUnit, t.toUnit)
    else None
  }

  function Magnitude(x: real): real {
    if x < 0.0 then -x else x
  }

  /** A profile from int to int: one affine step, rounded to the nearest integer. */
  ghost predicate RoundedAffine(p: Profile, stableId: string -> bool) {
    && GoodProfile(p, stableId) && p.inputType == Int
    && |p.transforms| == 2 && AffineOf(p.transforms[0]).Some?
    && p.transforms[1].kind.Round? && p.transforms[1].mode == Nearest
  }

  lemma StepsOfAffine(t: Transform, x: real, input: ValueType, text: NumberText)
    requires GoodStep(t, input) && AffineOf(t).Some?
    ensures var (f, o) := AffineOf(t).value;
            && f != 0.0
            && ForwardNumber(t, x, text) == Ok(NumberValue(Affine(x, f, o)))
            && ReverseNumber(t, x, input, text) == Ok(NumberValue(InverseAffine(x, f, o)))
  {
    var (f, o) := AffineOf(t).value;
    if t.kind.Unit? {
      QuotientIs(x - o, f, (x - o) / f);
      assert ConvertUnit(t.toUnit, t.fromUnit, x).Ok?;
      QuotientIs(x - o, f, NumberOf(ConvertUnit(t.toUnit, t.fromUnit, x)));
    }
  }

  lemma LastStep(ts: seq<Transform>, v: PropertyValue, text: NumberText)
    requires |ts| == 1
    ensures ForwardAll(ts, v, text) == ApplyForward(ts[0], v, text)
    ensures forall input :: ReverseAll(ts, input, v, text) == ApplyReverse(ts[0], v, input, text)
    ensures FirstRound(ts) == if ts[0].kind.Round? then Some(ts[0].mode) else None
  {
    var r := ApplyForward(ts[0], v, text);
    if r.Ok? {
      assert ForwardAll(ts[1..], r.value, text) == r;
    }
  }

  lemma EndsInInt(p: Profile, stableId: string -> bool)
    requires RoundedAffine(p, stableId)
    ensures p.outputType == Int && FirstRound(p.transforms) == Some(Nearest)
  {
    var ts := p.transforms;
    assert ts[1..][0] == ts[1] && ts[1..][1..] == [];
    assert TypeAfter(ts[1..], Number) == Int;
    assert FirstRound(ts[1..]) == Some(Nearest);
  }

  lemma ReadRounded(p: Profile, stableId: string -> bool, n: int64, text: NumberText)
    requires RoundedAffine(p, stableId)
    ensures var (f, o) := AffineOf(p.transforms[0]).value;
            Convert(p, false, IntValue(n), text) == WholeOr(NearestOf(Affine(n as int as real, f, o)), OutOfRange)
  {
    var ts := p.transforms;
    StepsOfAffine(ts[0], n as int as real, Int, text);
    var (f, o) := AffineOf(ts[0]).value;
    var v := NumberValue(Affine(n as int as real, f, o));
    assert ApplyForward(ts[0], IntValue(n), text) == Ok(v);
    LastStep(ts[1..], v, text);
    EndsInInt(p, stableId);
  }

  lemma WriteRounded(p: Profile, stableId: string -> bool, m: int64, text: NumberText)
    requires RoundedAffine(p, stableId)
    ensures var (f, o) := AffineOf(p.transforms[0]).value;
            Convert(p, true, IntValue(m), text) == WholeOr(NearestOf(InverseAffine(m as int as real, f, o)), OutOfRange)
  {
    var ts := p.transforms;
    StepsOfAffine(ts[0], m as int as real, Int, text);
    LastStep(ts[1..], IntValue(m), text);
    EndsInInt(p, stableId);
    var (f, o) := AffineOf(ts[0]).value;
    var y := InverseAffine(m as int as real, f, o);
    assert ReverseAll(ts[1..], OutputType(Int, ts[0]), IntValue(m), text) == Ok(NumberValue(m as int as real));
    assert ReverseAll(ts, Int, IntValue(m), text) == Ok(NumberValue(y));
    if Integral(y) {
      RoundedInt(Nearest, y.Floor);
    }
  }

  lemma NearestIsClose(x: real)
    ensures Magnitude(NearestOf(x) as real - x) <= 0.5
  {
  }

  lemma CloseIsNearest(x: real, n: int)
    requires Magnitude(x - n as real) < 0.5
    ensures NearestOf(x) == n
  {
  }

  lemma DivideShrinks(e: real, f: real, bound: real)
    requires f != 0.0 && Magnitude(e) <= bound
    ensures Magnitude(e / f) * Magnitude(f) <= bound
  {
    assert e / f * f == e;
  }

  /** How far the nearest integer of f*x + o, taken back, lies from x. */
  lemma ErrorAfterReverse(x: real, f: real, o: real, m: int)
    requires f != 0.0 && Magnitude(m as real - Affine(x, f, o)) <= 0.5
    ensures Magnitude(InverseAffine(m as real, f, o) - x) * Magnitude(f) <= 0.5
  {
    var e := m as real - Affine(x, f, o);
    DivideShrinks(e, f, 0.5);
    QuotientIs(m as real - o - x * f, f, e / f);
    assert (m as real - o) / f - x == e / f by {
      QuotientIs(m as real - o, f, x + e / f);
    }
  }

  lemma ErrorAfterForward(y: real, f: real, o: real, n: int)
    requires f != 0.0 && Magnitude(n as real - InverseAffine(y, f, o)) <= 0.5
    ensures Magnitude(Affine(n as real, f, o) - y) <= 0.5 * Magnitude(f)
  {
    var e := n as real - InverseAffine(y, f, o);
    assert (y - o) / f * f == y - o;
    assert Affine(n as real, f, o) - y == e * f;
    ScaleBound(e, f);
  }

  lemma ScaleBound(e: real, f: real)
    requires Magnitude(e) <= 0.5
    ensures Magnitude(e * f) <= 0.5 * Magnitude(f)
  {
    var a, b := Magnitude(e), Magnitude(f);
    MagnitudeOfProduct(e, f);
    NonNegativeProduct(0.5 - a, b);
    assert (0.5 - a) * b == 0.5 * b - a * b;
  }

  lemma NonNegativeProduct(x: real, y: real)
    requires x >= 0.0 && y >= 0.0
    ensures x * y >= 0.0
  {
  }

  lemma MagnitudeOfProduct(x: real, y: real)
    ensures Magnitude(x * y) == Magnitude(x) * Magnitude(y)
  {
    if x < 0.0 {
      assert -x * y == -(x * y) && x * -y == -(x * y) && -x * -y == x * y;
      if y < 0.0 { NonNegativeProduct(-x, -y); } else { NonNegativeProduct(-x, y); }
    } else {
      assert x * -y == -(x * y);
      if y < 0.0 { NonNegativeProduct(x, -y); } else { NonNegativeProduct(x, y); }
    }
  }

  lemma Below(x: real, f: real, bound: real)
    requires x >= 0.0 && f > 1.0 && x * f <= bound && bound > 0.0
    ensures x < bound
  {
    var gain := x * (f - 1.0);
    assert gain == x * f - x;
    if x > 0.0 {
      PositiveProduct(x, f - 1.0);
    }
  }

  lemma PositiveProduct(x: real, y: real)
    requires x > 0.0 && y > 0.0
    ensures x * y > 0.0
  {
  }

  /** A step that spreads ints apart loses none of them: every int read can be written back. */
  lemma SpreadingKeepsInts(p: Profile, stableId: string -> bool, n: int64, text: NumberText)
    requires RoundedAffine(p, stableId) && Magnitude(AffineOf(p.transforms[0]).value.0) > 1.0
    requires Convert(p, false, IntValue(n), text).Ok?
    ensures Convert(p, true, Convert(p, false, IntValue(n), text).value, text) == Ok(IntValue(n))
  {
    var (f, o) := AffineOf(p.transforms[0]).value;
    ReadRounded(p, stableId, n, text);
    var m := NearestOf(Affine(n as int as real, f, o));
    NearestIsClose(Affine(n as int as real, f, o));
    ErrorAfterReverse(n as int as real, f, o, m);
    var y := InverseAffine(m as real, f, o);
    Below(Magnitude(y - n as int as real), Magnitude(f), 0.5);
    CloseIsNearest(y, n as int);
    WriteRounded(p, stableId, m as int64, text);
  }

  /** A step that squeezes ints together has room for every result: every int written is read back. */
  lemma SqueezingKeepsResults(p: Profile, stableId: string -> bool, m: int64, text: NumberText)
    requires RoundedAffine(p, stableId) && Magnitude(AffineOf(p.transforms[0]).value.0) < 1.0
    requires Convert(p, true, IntValue(m), text).Ok?
    ensures Convert(p, false, Convert(p, true, IntValue(m), text).value, text) == Ok(IntValue(m))
  {
    var (f, o) := AffineOf(p.transforms[0]).value;
    StepsOfAffine(p.transforms[0], 0.0, Int, text);
    WriteRounded(p, stableId, m, text);
    var n := NearestOf(InverseAffine(m as int as real, f, o));
    NearestIsClose(InverseAffine(m as int as real, f, o));
    ErrorAfterForward(m as int as real, f, o, n);
    CloseIsNearest(Affine(n as real, f, o), m as int);
    ReadRounded(p, stableId, n as int64, text);
  }

  /** Fahrenheit to celsius and back moves an int temperature by one degree at most. */
  lemma FahrenheitDriftsByOne(p: Profile, stableId: string -> bool, n: int64, text: NumberText)
    requires RoundedAffine(p, stableId) && p.transforms[0].kind.Unit?
    requires p.transforms[0].fromUnit == Fahrenheit && p.transforms[0].toUnit == Celsius
    requires Convert(p, false, IntValue(n), text).Ok?
    requires Convert(p, true, Convert(p, false, IntValue(n), text).value, text).Ok?
    ensures var back := Convert(p, true, Convert(p, false, IntValue(n), text).value, text).value;
            back.whole.Some? && -1 <= back.whole.value as int - n as int <= 1
  {
    var (f, o) := AffineOf(p.transforms[0]).value;
    ReadRounded(p, stableId, n, text);
    var m := NearestOf(Affine(n as int as real, f, o));
    NearestIsClose(Affine(n as int as real, f, o));
    ErrorAfterReverse(n as int as real, f, o, m);
    var y := InverseAffine(m as real, f, o);
    NearestIsClose(y);
    WriteRounded(p, stableId, m as int64, text);
  }

  /** Celsius and kelvin differ by a fixed offset of which rounding leaves a whole number: exact both ways. */
  lemma KelvinIsExact(p: Profile, stableId: string -> bool, n: int64, text: NumberText)
    requires RoundedAffine(p, stableId) && p.transforms[0].kind.Unit?
    requires (p.transforms[0].fromUnit, p.transforms[0].toUnit) in {(Celsius, Kelvin), (Kelvin, Celsius)}
    ensures Convert(p, false, IntValue(n), text).Ok? ==>
              Convert(p, true, Convert(p, false, IntValue(n), text).value, text) == Ok(IntValue(n))
    ensures Convert(p, true, IntValue(n), text).Ok? ==>
              Convert(p, false, Convert(p, true, IntValue(n), text).value, text) == Ok(IntValue(n))
  {
    var (f, o) := AffineOf(p.transforms[0]).value;
    var x, shift := n as int, if o > 0.0 then 273 else -273;
    assert f == 1.0;
    ReadRounded(p, stableId, n, text);
    WriteRounded(p, stableId, n, text);
    CloseIsNearest(Affine(x as real, f, o), x + shift);
    CloseIsNearest(InverseAffine(x as real, f, o), x - shift);
    CloseIsNearest(InverseAffine((x + shift) as real, f, o), x);
    CloseIsNearest(Affine((x - shift) as real, f, o), x);
    if InInt64(x + shift) {
      WriteRounded(p, stableId, (x + shift) as int64, text);
    }
    if InInt64(x - shift) {
      ReadRounded(p, stableId, (x - shift) as int64, text);
    }
  }

  lemma OneUnitStep(source: UnitName, target: UnitName)
    ensures var ts := [UnitStep(source, target)];
            && KeepsWritesAll(ts, Number) && KeepsReadsAll(ts, Number)
            && Without(ts, ParseNumber) && Without(ts, NumberString) && TypeAfter(ts, Number) == Number
  {
    var ts := [UnitStep(source, target)];
    assert ts[1..] == [];
  }

  /** Between numbers, a unit profile is exact both ways. */
  lemma NumberUnitsAreExact(p: Profile, stableId: string -> bool, x: real, text: NumberText, source: UnitName, target: UnitName)
    requires GoodProfile(p, stableId) && p.inputType == Number && p.transforms == [UnitStep(source, target)]
    ensures Convert(p, false, NumberValue(x), text).Ok? ==>
              Convert(p, true, Convert(p, false, NumberValue(x), text).value, text) == Ok(NumberValue(x))
    ensures Convert(p, true, NumberValue(x), text).Ok? ==>
              Convert(p, false, Convert(p, true, NumberValue(x), text).value, text) == Ok(NumberValue(x))
  {
    OneUnitStep(source, target);
    if Convert(p, false, NumberValue(x), text).Ok? {
      ReadThenWriteWithoutText(p, stableId, NumberValue(x), text);
    }
    if Convert(p, true, NumberValue(x), text).Ok? {
      WriteThenReadWithoutText(p, stableId, NumberValue(x), text);
    }
  }

  /** Affine units convert every number, in both directions. */
  lemma AffineUnitsConvertAll(p: Profile, stableId: string -> bool, x: real, text: NumberText, source: UnitName, target: UnitName)
    requires GoodProfile(p, stableId) && p.inputType == Number && p.transforms == [UnitStep(source, target)]
    requires !Nonlinear(source, target)
    ensures Convert(p, false, NumberValue(x), text).Ok? && Convert(p, true, NumberValue(x), text).Ok?
  {
    OneUnitStep(source, target);
    var t := p.transforms[0];
    assert GoodStep(t, Number);
    StepsOfAffine(t, x, Number, text);
    LastStep(p.transforms, NumberValue(x), text);
  }
}
