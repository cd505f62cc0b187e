/** What single conversion steps mean, by landmarks and proportions instead of formulas. */
module MappingMeaning {
  import opened Options
  import opened Values
  import opened Mapping
  import opened MappingEngine
  import RoundTrip = MappingRoundTrip
  import Soundness = MappingSoundness

  function Reads(t: Transform, x: real, text: NumberText): Option<real> {
    var r := ApplyForward(t, NumberValue(x), text);
    if r.Ok? then NumericValue(r.value) else None
  }

  /** Scaling sends nought to the offset and stretches every distance by the factor. */
  lemma ScaleStretches(t: Transform, x: real, y: real, text: NumberText)
    requires t.kind.Scale?
    ensures Reads(t, 0.0, text) == Some(t.offset.GetOr(0.0))
    ensures Reads(t, x, text).Some? && Reads(t, y, text).Some?
    ensures Reads(t, x, text).value - Reads(t, y, text).value == (x - y) * t.factor.GetOr(1.0)
  {
    var f, o := t.factor.GetOr(1.0), t.offset.GetOr(0.0);
    assert (x - y) * f == x * f - y * f;
    assert Reads(t, 0.0, text) == Some(Affine(0.0, f, o));
    assert Reads(t, x, text) == Some(Affine(x, f, o)) && Reads(t, y, text) == Some(Affine(y, f, o));
  }

  /** A range is mapped end to end, and every point keeps its proportion between the ends. */
  lemma MapRangeKeepsProportions(t: Transform, x: real, text: NumberText)
    requires t.kind.MapRange? && GoodRange(t)
    ensures Reads(t, t.inputMin.value, text) == Some(t.outputMin.value) && Reads(t, t.inputMax.value, text) == Some(t.outputMax.value)
    ensures Reads(t, x, text).Some?
    ensures (Reads(t, x, text).value - t.outputMin.value) * (t.inputMax.value - t.inputMin.value)
         == (x - t.inputMin.value) * (t.outputMax.value - t.outputMin.value)
  {
    RemapProportion(x, t.inputMin.value, t.inputMax.value, t.outputMin.value, t.outputMax.value);
    RemapEnds(t.inputMin.value, t.inputMax.value, t.outputMin.value, t.outputMax.value);
    var y := Remap(x, t.inputMin.value, t.inputMax.value, t.outputMin.value, t.outputMax.value);
    assert Reads(t, x, text) == Some(y);
  }

  lemma RemapProportion(x: real, lo: real, hi: real, lo': real, hi': real)
    requires lo != hi
    ensures (Remap(x, lo, hi, lo', hi') - lo') * (hi - lo) == (x - lo) * (hi' - lo')
  {
    var run, rise := hi - lo, (x - lo) * (hi' - lo');
    assert rise / run * run == rise;
  }

  lemma RemapEnds(lo: real, hi: real, lo': real, hi': real)
    requires lo != hi
    ensures Remap(lo, lo, hi, lo', hi') == lo' && Remap(hi, lo, hi, lo', hi') == hi'
  {
    var run, rise := hi - lo, hi' - lo';
    assert run * rise == rise * run;
    RoundTrip.QuotientIs(run * rise, run, rise);
  }

  function Converted(source: UnitName, target: UnitName, x: real): Option<real> {
    var r := ConvertUnit(source, target, x);
    if r.Ok? then r.value.number else None
  }

  /** Conversion at x lies between the conversions of two landmarks as x lies between the landmarks. */
  predicate Interpolates(source: UnitName, target: UnitName, x: real, lo: real, lo': real, hi: real, hi': real) {
    && Converted(source, target, lo) == Some(lo') && Converted(source, target, hi) == Some(hi')
    && Converted(source, target, x).Some?
    && (Converted(source, target, x).value - lo') * (hi - lo) == (x - lo) * (hi' - lo')
  }

  /**
   Temperatures keep their place between freezing and boiling water, and shares theirs between nothing
   and the whole; a unit converts to itself unchanged.
   */
  lemma UnitsInterpolate(x: real, u: UnitName)
    ensures Interpolates(Celsius, Fahrenheit, x, 0.0, 32.0, 100.0, 212.0)
    ensures Interpolates(Fahrenheit, Celsius, x, 32.0, 0.0, 212.0, 100.0)
    ensures Interpolates(Celsius, Kelvin, x, 0.0, 273.15, 100.0, 373.15)
    ensures Interpolates(Kelvin, Celsius, x, 273.15, 0.0, 373.15, 100.0)
    ensures Interpolates(Ratio, Percent, x, 0.0, 0.0, 1.0, 100.0)
    ensures Interpolates(Percent, Ratio, x, 0.0, 0.0, 100.0, 1.0)
    ensures u != OtherUnit("") ==> Converted(u, u, x) == Some(x)
  {
  }

  /** Kelvin and mired multiply to a million, and only positive colour temperatures convert. */
  lemma ColourTemperatures(x: real)
    ensures x > 0.0 ==> Converted(Kelvin, Mired, x).Some? && Converted(Kelvin, Mired, x).value * x == 1000000.0
    ensures x > 0.0 ==> Converted(Mired, Kelvin, x).Some? && Converted(Mired, Kelvin, x).value * x == 1000000.0
    ensures x <= 0.0 ==> Converted(Kelvin, Mired, x).None? && Converted(Mired, Kelvin, x).None?
  {
    if x > 0.0 {
      assert 1000000.0 / x * x == 1000000.0;
    }
  }

  function Distance(x: real, y: real): real {
    if x < y then y - x else x - y
  }

  predicate Within(t: Transform, y: real) {
    (t.min.Some? ==> t.min.value <= y) && (t.max.Some? ==> y <= t.max.value)
  }

  /** Clamping gives the nearest number within the bounds. */
  lemma ClampIsNearest(t: Transform, x: real, y: real, text: NumberText)
    requires t.kind.Clamp? && GoodParameters(t) && Within(t, y)
    ensures Reads(t, x, text).Some? && Within(t, Reads(t, x, text).value)
    ensures Distance(x, Reads(t, x, text).value) <= Distance(x, y)
  {
  }

  /** Rounding down, up, and to the nearest integer, halves away from nought. */
  lemma RoundingMeans(mode: Mode, x: real)
    ensures mode == Floor ==> Rounded(mode, x) as real <= x < Rounded(mode, x) as real + 1.0
    ensures mode == Ceil ==> Rounded(mode, x) as real - 1.0 < x <= Rounded(mode, x) as real
    ensures mode == Nearest ==> Distance(x, Rounded(mode, x) as real) <= 0.5
    ensures mode == Nearest && Distance(x, Rounded(mode, x) as real) == 0.5 ==>
              Distance(0.0, x) < Distance(0.0, Rounded(mode, x) as real)
  {
  }

  /** The band that holds a number: above the band before it, and not above its own bound. */
  predicate InBand(bands: seq<Band>, i: nat, x: real)
    requires i < |bands|
  {
    (i > 0 && bands[i - 1].max.Some? ==> bands[i - 1].max.value < x) && (bands[i].max.Some? ==> x <= bands[i].max.value)
  }

  /** A number is named by the one band that holds it. */
  lemma NumberIsNamedByItsBand(t: Transform, x: real, i: nat, text: NumberText)
    requires t.kind.RangeEnum? && GoodBands(t.bands) && i < |t.bands| && InBand(t.bands, i, x)
    ensures ApplyForward(t, NumberValue(x), text) == Ok(EnumValue(t.bands[i].value))
  {
    BoundsRise(t.bands);
    RoundTrip.BandAt(t.bands, x, i);
  }

  lemma BoundsRise(bands: seq<Band>)
    requires GoodBands(bands)
    ensures forall j, k :: 0 <= j < k < |bands| - 1 ==> bands[j].max.value < bands[k].max.value
  {
    forall j, k | 0 <= j < k < |bands| - 1
      ensures bands[j].max.value < bands[k].max.value
    {
      assert bands[j].max.value < bands[k].reverse <= bands[k].max.value;
    }
  }

  // ----- each step, in each direction -----

  /** A value that numeric steps take, and the number it stands for. */
  predicate Numeral(v: PropertyValue, x: real) {
    v == NumberValue(x) || (v.whole.Some? && v == IntValue(v.whole.value) && v.whole.value as int as real == x)
  }

  predicate Texted(v: PropertyValue, s: string) {
    v == EnumValue(s) || v == TextValue(s)
  }

  predicate GivesNumber(r: Converted) {
    r.Ok? && r.value.number.Some? && r.value == NumberValue(r.value.number.value)
  }

  /** A reciprocal times its number is one, in both directions, and nought has none. */
  lemma ReciprocalMeans(t: Transform, v: PropertyValue, x: real, expected: ValueType, text: NumberText)
    requires t.kind.Reciprocal? && Numeral(v, x)
    ensures x == 0.0 ==> ApplyForward(t, v, text) == Rejected(ZeroReciprocal) && ApplyReverse(t, v, expected, text) == Rejected(ZeroReciprocal)
    ensures x != 0.0 ==> GivesNumber(ApplyForward(t, v, text)) && ApplyForward(t, v, text).value.number.value * x == 1.0
    ensures x != 0.0 ==> GivesNumber(ApplyReverse(t, v, expected, text)) && ApplyReverse(t, v, expected, text).value.number.value * x == 1.0
  {
    if x != 0.0 {
      assert 1.0 / x * x == 1.0;
    }
  }

  /** Inverting gives the other bool, in both directions. */
  lemma InvertMeans(t: Transform, b: bool, expected: ValueType, text: NumberText)
    requires t.kind.Invert?
    ensures ApplyForward(t, BoolValue(b), text) == Ok(BoolValue(!b)) == ApplyReverse(t, BoolValue(b), expected, text)
  {
  }

  /** Ints become the same number and back, exactly if a number can tell them from their neighbours. */
  lemma IntNumberMeans(t: Transform, n: int64, x: real, text: NumberText)
    requires t.kind.IntNumber?
    ensures var exact := -9007199254740991 <= n as int <= 9007199254740991;
            && ApplyForward(t, IntValue(n), text) == (if exact then Ok(NumberValue(n as int as real)) else Rejected(NotExact))
            && ApplyReverse(t, NumberValue(n as int as real), Int, text) == (if exact then Ok(IntValue(n)) else Rejected(NotExact))
    ensures x.Floor as real != x || x < -9007199254740991.0 || x > 9007199254740991.0 ==>
              ApplyReverse(t, NumberValue(x), Int, text) == Rejected(NotExact)
  {
    assert (n as int as real).Floor == n as int;
  }

  /** Undoing a scale gives the number that scaling sends to x, and undoing a range the point in the same proportion. */
  lemma ScalesUndone(t: Transform, v: PropertyValue, x: real, expected: ValueType, text: NumberText)
    requires (t.kind.Scale? && t.factor != Some(0.0)) || (t.kind.MapRange? && GoodRange(t))
    requires Numeral(v, x)
    ensures GivesNumber(ApplyReverse(t, v, expected, text))
    ensures var y := ApplyReverse(t, v, expected, text).value.number.value;
            if t.kind.Scale? then
              y * (if t.factor.Some? then t.factor.value else 1.0) + (if t.offset.Some? then t.offset.value else 0.0) == x
            else
              (y - t.inputMin.value) * (t.outputMax.value - t.outputMin.value) == (x - t.outputMin.value) * (t.inputMax.value - t.inputMin.value)
  {
    if t.kind.Scale? {
      var f, o := t.factor.GetOr(1.0), t.offset.GetOr(0.0);
      assert (x - o) / f * f == x - o;
      assert ApplyReverse(t, v, expected, text) == Ok(NumberValue(InverseAffine(x, f, o)));
    } else {
      RemapProportion(x, t.outputMin.value, t.outputMax.value, t.inputMin.value, t.inputMax.value);
      assert ApplyReverse(t, v, expected, text) == Ok(NumberValue(Remap(x, t.outputMin.value, t.outputMax.value, t.inputMin.value, t.inputMax.value)));
    }
  }

  /** A unit step converts from its first unit to its second, and back; a clamp cannot be undone. */
  lemma UnitAndClampSteps(t: Transform, v: PropertyValue, x: real, expected: ValueType, text: NumberText)
    requires Numeral(v, x)
    ensures t.kind.Unit? ==>
              ApplyForward(t, v, text) == ConvertUnit(t.fromUnit, t.toUnit, x)
              && ApplyReverse(t, v, expected, text) == ConvertUnit(t.toUnit, t.fromUnit, x)
    ensures t.kind.Clamp? ==> ApplyReverse(t, v, expected, text) == Rejected(NotReversible)
  {
  }

  /** Which side of a threshold is true, and where the threshold itself belongs. */
  predicate IsAbove(operator: Operator, threshold: real, x: real, b: bool) {
    match operator
    case Gte => b == (x > threshold || x == threshold)
    case Gt => b == (x > threshold)
    case Lte => b == (x < threshold || x == threshold)
    case Lt => b == (x < threshold)
    case OtherOperator(_) => !b
  }

  /** Threshold and bool-number are each other's reverse: a number is true on its side, a bool is the number given for it. */
  lemma ThresholdMeans(t: Transform, u: Transform, v: PropertyValue, x: real, b: bool, expected: ValueType, text: NumberText)
    requires t.kind.Threshold? && u == t.(kind := BoolNumber) && Numeral(v, x)
    requires t.threshold.Some? && t.trueNumber.Some? && t.falseNumber.Some? && IsAbove(t.operator, t.threshold.value, x, b)
    ensures ApplyForward(t, v, text) == Ok(BoolValue(b)) == ApplyReverse(u, v, expected, text)
    ensures ApplyForward(u, BoolValue(true), text) == Ok(NumberValue(t.trueNumber.value)) == ApplyReverse(t, BoolValue(true), expected, text)
    ensures ApplyForward(u, BoolValue(false), text) == Ok(NumberValue(t.falseNumber.value)) == ApplyReverse(t, BoolValue(false), expected, text)
  {
  }

  /** Bool-enum and enum-bool are each other's reverse: true has the one label and false the other, and nothing else has a bool. */
  lemma LabelsMean(t: Transform, u: Transform, v: PropertyValue, s: string, expected: ValueType, text: NumberText)
    requires t.kind.BoolEnum? && u == t.(kind := EnumBool) && Texted(v, s)
    ensures ApplyForward(t, BoolValue(true), text) == Ok(EnumValue(t.trueValue)) == ApplyReverse(u, BoolValue(true), Enum, text)
    ensures ApplyForward(t, BoolValue(false), text) == Ok(EnumValue(t.falseValue)) == ApplyReverse(u, BoolValue(false), Enum, text)
    ensures ApplyReverse(u, BoolValue(true), Text, text) == Ok(TextValue(t.trueValue))
    ensures ApplyReverse(u, BoolValue(false), Text, text) == Ok(TextValue(t.falseValue))
    ensures ApplyReverse(t, v, expected, text) == ApplyForward(u, v, text)
    ensures s == t.trueValue ==> ApplyForward(u, v, text) == Ok(BoolValue(true))
    ensures s == t.falseValue && s != t.trueValue ==> ApplyForward(u, v, text) == Ok(BoolValue(false))
    ensures s != t.falseValue && s != t.trueValue ==> ApplyForward(u, v, text) == Rejected(NoMapping)
  {
  }

  /** Range-enum and enum-number are each other's reverse: a number has its band's label, a label its band's number. */
  lemma BandsMean(t: Transform, u: Transform, i: nat, v: PropertyValue, x: real, w: PropertyValue, expected: ValueType, text: NumberText)
    requires t.kind.RangeEnum? && u == t.(kind := EnumNumber) && GoodBands(t.bands) && i < |t.bands|
    requires Numeral(v, x) && InBand(t.bands, i, x) && Texted(w, t.bands[i].value)
    ensures ApplyForward(t, v, text) == Ok(EnumValue(t.bands[i].value)) == ApplyReverse(u, v, Enum, text)
    ensures ApplyReverse(u, v, Text, text) == Ok(TextValue(t.bands[i].value))
    ensures ApplyForward(u, w, text) == Ok(NumberValue(t.bands[i].reverse)) == ApplyReverse(t, w, expected, text)
  {
    BoundsRise(t.bands);
    RoundTrip.BandAt(t.bands, x, i);
    RoundTrip.BandHasName(t.bands, i);
  }

  /** A label that no band has is refused. */
  lemma UnknownLabels(t: Transform, u: Transform, v: PropertyValue, s: string, expected: ValueType, text: NumberText)
    requires t.kind.RangeEnum? && u == t.(kind := EnumNumber) && Texted(v, s)
    requires forall i :: 0 <= i < |t.bands| ==> t.bands[i].value != s
    ensures ApplyForward(u, v, text) == Rejected(NoMapping) == ApplyReverse(t, v, expected, text)
  {
    if BandNamed(t.bands, s).Some? {
      var i := RoundTrip.NamedBandAt(t.bands, s);
    }
  }

  /** An enum step reads the table's entry, and keeps enums and texts apart. */
  lemma TableIsRead(t: Transform, s: string, text: NumberText)
    requires t.kind.EnumMap?
    ensures s in t.values ==> ApplyForward(t, EnumValue(s), text) == Ok(EnumValue(t.values[s]))
    ensures s in t.values ==> ApplyForward(t, TextValue(s), text) == Ok(TextValue(t.values[s]))
    ensures s !in t.values ==> ApplyForward(t, EnumValue(s), text) == Rejected(NoMapping) == ApplyForward(t, TextValue(s), text)
  {
  }

  /** The one input that the table sends to an output. */
  predicate OnlySource(values: map<string, string>, s: string, output: string) {
    s in values && values[s] == output && forall other :: other in values && values[other] == output ==> other == s
  }

  lemma OnlySourceIsAll(values: map<string, string>, s: string, output: string)
    requires OnlySource(values, s, output)
    ensures SourcesOf(values, output) == {s}
  {
  }

  /** Written back, an output stands for its reverse entry, or else for its one source. */
  lemma TableIsWritten(t: Transform, v: PropertyValue, output: string, s: string, text: NumberText)
    requires t.kind.EnumMap? && Texted(v, output)
    requires if output in t.reverseValues then s == t.reverseValues[output] else OnlySource(t.values, s, output)
    ensures ApplyReverse(t, v, Enum, text) == Ok(EnumValue(s)) && ApplyReverse(t, v, Text, text) == Ok(TextValue(s))
  {
    if output !in t.reverseValues {
      OnlySourceIsAll(t.values, s, output);
    }
    assert EnumSource(t, output) == Ok(s);
  }

  /** Without a reverse entry, an output with several sources is refused as ambiguous, and one without any as unknown. */
  lemma TableRefuses(t: Transform, v: PropertyValue, output: string, a: string, b: string, text: NumberText)
    requires t.kind.EnumMap? && Texted(v, output) && output !in t.reverseValues
    ensures a in t.values && b in t.values && a != b && t.values[a] == output && t.values[b] == output ==>
              ApplyReverse(t, v, Enum, text) == Rejected(Ambiguous) == ApplyReverse(t, v, Text, text)
    ensures (forall s :: s in t.values ==> t.values[s] != output) ==>
              ApplyReverse(t, v, Enum, text) == Rejected(NoMapping) == ApplyReverse(t, v, Text, text)
  {
    var sources := SourcesOf(t.values, output);
    if a in t.values && b in t.values && a != b && t.values[a] == output && t.values[b] == output {
      SubsetSize({a, b}, sources);
      assert EnumSource(t, output) == Rejected(Ambiguous);
    }
    if forall s :: s in t.values ==> t.values[s] != output {
      assert sources == {};
      assert EnumSource(t, output) == Rejected(NoMapping);
    }
  }

  /** The integer a number is rounded to, halves away from nought unless it is rounded down or up. */
  predicate RoundsTo(mode: Mode, x: real, n: int) {
    match mode
    case Floor => n as real <= x < n as real + 1.0
    case Ceil => n as real - 1.0 < x <= n as real
    case _ => Distance(x, n as real) <= 0.5 && (Distance(x, n as real) == 0.5 ==> Distance(0.0, x) < Distance(0.0, n as real))
  }

  /** A round step gives the integer its mode says, if that is an int64; undoing it leaves the number alone. */
  lemma RoundMeans(t: Transform, v: PropertyValue, x: real, n: int, expected: ValueType, text: NumberText)
    requires t.kind.Round? && Numeral(v, x) && RoundsTo(t.mode, x, n)
    ensures -0x8000_0000_0000_0000 <= n < 0x8000_0000_0000_0000 ==> ApplyForward(t, v, text) == Ok(IntValue(n as int64))
    ensures n < -0x8000_0000_0000_0000 || n >= 0x8000_0000_0000_0000 ==> ApplyForward(t, v, text) == Rejected(OutOfRange)
    ensures ApplyReverse(t, v, expected, text) == Ok(NumberValue(x))
  {
    RoundingIsUnique(t.mode, x, n);
  }

  lemma RoundingIsUnique(mode: Mode, x: real, n: int)
    requires RoundsTo(mode, x, n)
    ensures Rounded(mode, x) == n
  {
  }

  /** Parse-number and number-string are each other's reverse; an int is read from a text only if the text is a whole number. */
  lemma TextMeans(t: Transform, u: Transform, v: PropertyValue, x: real, w: PropertyValue, s: string, text: NumberText)
    requires t.kind.ParseNumber? && u == t.(kind := NumberString) && Numeral(v, x) && Texted(w, s)
    ensures ApplyForward(u, v, text) == Ok(TextValue(text.format(x))) == ApplyReverse(t, v, Text, text)
    ensures text.parse(s).None? ==> ApplyForward(t, w, text) == Rejected(BadText) == ApplyReverse(u, w, Number, text) == ApplyReverse(u, w, Int, text)
    ensures text.parse(s).Some? ==> ApplyForward(t, w, text) == Ok(NumberValue(text.parse(s).value)) == ApplyReverse(u, w, Number, text)
    ensures forall n: int64 :: text.parse(s) == Some(n as int as real) ==> ApplyReverse(u, w, Int, text) == Ok(IntValue(n))
    ensures text.parse(s).Some? && text.parse(s).value.Floor as real != text.parse(s).value ==> ApplyReverse(u, w, Int, text) == Rejected(BadText)
  {
    forall n: int64 | text.parse(s) == Some(n as int as real)
      ensures ApplyReverse(u, w, Int, text) == Ok(IntValue(n))
    {
      assert (n as int as real).Floor == n as int;
    }
  }

  // ----- from steps to pipelines -----

  /** A pipeline runs its front and then its back, and is undone the other way round; an error stops it. */
  lemma {:induction false} PipelinesCompose(front: seq<Transform>, back: seq<Transform>, input: ValueType, v: PropertyValue, text: NumberText)
    ensures ForwardAll([], v, text) == Ok(v) == ReverseAll([], input, v, text)
    ensures ForwardAll(front + back, v, text) ==
              (var r := ForwardAll(front, v, text); if r.Ok? then ForwardAll(back, r.value, text) else r)
    ensures ReverseAll(front + back, input, v, text) ==
              (var r := ReverseAll(back, TypeAfter(front, input), v, text); if r.Ok? then ReverseAll(front, input, r.value, text) else r)
    decreases |front|
  {
    if front == [] {
      assert front + back == back;
    } else {
      assert (front + back)[0] == front[0] && (front + back)[1..] == front[1..] + back;
      PipelinesCompose(front[1..], back, OutputType(input, front[0]), v, text);
      var r := ApplyForward(front[0], v, text);
      if r.Ok? {
        PipelinesCompose(front[1..], back, OutputType(input, front[0]), r.value, text);
      }
    }
  }

  lemma OneStep(t: Transform, input: ValueType, v: PropertyValue, text: NumberText)
    ensures ForwardAll([t], v, text) == ApplyForward(t, v, text)
    ensures ReverseAll([t], input, v, text) == ApplyReverse(t, v, input, text)
  {
    assert [t][1..] == [];
  }

  /** Reading through a valid profile is its pipeline, whose result needs no last conversion. */
  lemma ReadingIsThePipeline(p: Profile, stableId: string -> bool, v: PropertyValue, text: NumberText)
    requires GoodProfile(p, stableId)
    ensures HasType(v, p.inputType) ==> Convert(p, false, v, text) == ForwardAll(p.transforms, v, text)
    ensures !HasType(v, p.inputType) ==> Convert(p, false, v, text) == Rejected(BadInput)
  {
    if HasType(v, p.inputType) {
      Soundness.ForwardIsTyped(p.transforms, p.inputType, v, text);
    }
  }

  /** The round step that decides how a fraction is written to an int: the first of the pipeline. */
  predicate FirstRoundAt(ts: seq<Transform>, k: nat)
    requires k < |ts|
  {
    ts[k].kind.Round? && forall i :: 0 <= i < k ==> !ts[i].kind.Round?
  }

  lemma {:induction false} FirstRoundIs(ts: seq<Transform>, k: nat)
    requires k < |ts| && FirstRoundAt(ts, k)
    ensures FirstRound(ts) == Some(ts[k].mode)
  {
    if k > 0 {
      FirstRoundIs(ts[1..], k - 1);
    }
  }

  lemma {:induction false} NoRoundIs(ts: seq<Transform>)
    requires forall i :: 0 <= i < |ts| ==> !ts[i].kind.Round?
    ensures FirstRound(ts) == None
  {
    if ts != [] { NoRoundIs(ts[1..]); }
  }

  /**
   Writing through a valid profile undoes its pipeline. A number that is left where an int is declared
   becomes that int if it is whole; otherwise the first round step decides, and without one it is refused.
   */
  lemma WritingIsThePipelineUndone(p: Profile, stableId: string -> bool, v: PropertyValue, n: int, text: NumberText)
    requires GoodProfile(p, stableId)
    ensures !HasType(v, p.outputType) ==> Convert(p, true, v, text) == Rejected(BadInput)
    ensures var r := ReverseAll(p.transforms, p.inputType, v, text);
            HasType(v, p.outputType) && !(r.Ok? && p.inputType == Int && r.value.kind == Number) ==> Convert(p, true, v, text) == r
    ensures HasType(v, p.outputType) && p.inputType == Int && ReverseAll(p.transforms, p.inputType, v, text) == Ok(NumberValue(n as real)) ==>
              Convert(p, true, v, text) == if -0x8000_0000_0000_0000 <= n < 0x8000_0000_0000_0000 then Ok(IntValue(n as int64)) else Rejected(OutOfRange)
  {
    if HasType(v, p.outputType) {
      Soundness.ReverseIsTyped(p.transforms, p.inputType, v, text);
      assert (n as real).Floor == n;
    }
  }

  lemma FractionsAreRounded(p: Profile, stableId: string -> bool, v: PropertyValue, x: real, k: nat, n: int, text: NumberText)
    requires GoodProfile(p, stableId) && HasType(v, p.outputType) && p.inputType == Int
    requires ReverseAll(p.transforms, p.inputType, v, text) == Ok(NumberValue(x)) && x.Floor as real != x
    ensures k < |p.transforms| && FirstRoundAt(p.transforms, k) && RoundsTo(p.transforms[k].mode, x, n) ==>
              Convert(p, true, v, text) == if -0x8000_0000_0000_0000 <= n < 0x8000_0000_0000_0000 then Ok(IntValue(n as int64)) else Rejected(OutOfRange)
    ensures (forall i :: 0 <= i < |p.transforms| ==> !p.transforms[i].kind.Round?) ==> Convert(p, true, v, text) == Rejected(BadOutput)
  {
    if k < |p.transforms| && FirstRoundAt(p.transforms, k) && RoundsTo(p.transforms[k].mode, x, n) {
      FirstRoundIs(p.transforms, k);
      RoundingIsUnique(p.transforms[k].mode, x, n);
    }
    if forall i :: 0 <= i < |p.transforms| ==> !p.transforms[i].kind.Round? {
      NoRoundIs(p.transforms);
    }
  }
}
