/**
 The interpreter of mapping pipelines, forward and in reverse. A missing payload or parameter is
 an explicit outcome (Panic), so that its absence is a theorem and not an assumption.
 */
module MappingEngine {
  import opened Options
  import opened Values
  import opened Mapping
  import opened MappingValidator

  datatype Reason =
    | InvalidProfile(fields: Fields) | BadDirection | MissingValue | BadInput | BadOutput
    | NotFinite | ZeroReciprocal | NoMapping | Ambiguous | NotReversible | NotExact | OutOfRange | BadText | NotSupported

  /** Ok, an error returned to the caller, or a nil dereference. */
  datatype Outcome<+T> = Ok(value: T) | Rejected(reason: Reason) | Panic

  type Converted = Outcome<PropertyValue>

  /** Number formatting and parsing of the standard library; parse trims surrounding space. */
  datatype NumberText = NumberText(format: real -> string, parse: string -> Option<real>)

  /** Formatting loses nothing of this number. Not every real can have a text of its own; every float64 has. */
  predicate Recovers(text: NumberText, x: real) {
    text.parse(text.format(x)) == Some(x)
  }

  // ----- arithmetic -----

  const MAX_SAFE_INTEGER: int := 0x1f_ffff_ffff_ffff

  function NumericValue(v: PropertyValue): Option<real> {
    if v.whole.Some? then Some(v.whole.value as int as real) else v.number
  }

  function Affine(x: real, factor: real, offset: real): real {
    x * factor + offset
  }

  function InverseAffine(y: real, factor: real, offset: real): real
    requires factor != 0.0
  {
    (y - offset) / factor
  }

  /** The point of [toMin, toMax] that lies where x lies in [fromMin, fromMax]. */
  function Remap(x: real, fromMin: real, fromMax: real, toMin: real, toMax: real): real
    requires fromMin != fromMax
  {
    toMin + (x - fromMin) * (toMax - toMin) / (fromMax - fromMin)
  }

  function FloorOf(x: real): int { x.Floor }

  function CeilOf(x: real): int { -((-x).Floor) }

  /** Nearest integer, halves away from zero. */
  function NearestOf(x: real): int {
    if x >= 0.0 then (x + 0.5).Floor else -((-x + 0.5).Floor)
  }

  function Rounded(mode: Mode, x: real): int {
    match mode
    case Floor => FloorOf(x)
    case Ceil => CeilOf(x)
    case _ => NearestOf(x)
  }

  predicate Integral(x: real) {
    x.Floor as real == x
  }

  predicate InInt64(n: int) {
    MIN_INT64 <= n <= MAX_INT64
  }

  function WholeOr(n: int, reason: Reason): Converted {
    if InInt64(n) then Ok(IntValue(n as int64)) else Rejected(reason)
  }

  function ReciprocalValue(x: real): Converted {
    if x == 0.0 then Rejected(ZeroReciprocal) else Ok(NumberValue(1.0 / x))
  }

  /** A division by zero is infinite or not a number, which the source rejects as not finite. */
  function Remapped(x: real, fromMin: Option<real>, fromMax: Option<real>, toMin: Option<real>, toMax: Option<real>): Converted {
    if fromMin.None? || fromMax.None? || toMin.None? || toMax.None? then Panic
    else if fromMin.value == fromMax.value then Rejected(NotFinite)
    else Ok(NumberValue(Remap(x, fromMin.value, fromMax.value, toMin.value, toMax.value)))
  }

  function ConvertUnit(source: UnitName, target: UnitName, x: real): Converted {
    if Nonlinear(source, target) then
      if x <= 0.0 then Rejected(OutOfRange) else Ok(NumberValue(1000000.0 / x))
    else
      match UnitFormula(source, target)
      case Some((factor, offset)) => Ok(NumberValue(Affine(x, factor, offset)))
      case None => Rejected(NotSupported)
  }

  function TextValueFor(s: string, kind: ValueType): PropertyValue {
    if kind == Enum then EnumValue(s) else TextValue(s)
  }

  /** The first band whose upper bound is not below the number. */
  function BandOf(bands: seq<Band>, x: real): Option<Band> {
    if bands == [] then None
    else if bands[0].max.None? || x <= bands[0].max.value then Some(bands[0])
    else BandOf(bands[1..], x)
  }

  /** The first band with this label. */
  function BandNamed(bands: seq<Band>, name: string): Option<Band> {
    if bands == [] then None
    else if bands[0].value == name then Some(bands[0])
    else BandNamed(bands[1..], name)
  }

  /** The sources that the table sends to a target. */
  function SourcesOf(values: map<string, string>, target: string): set<string> {
    set s | s in values && values[s] == target
  }

  /** Reverse table first; otherwise the one source of the target. */
  function EnumSource(t: Transform, target: string): Outcome<string> {
    if target in t.reverseValues then Ok(t.reverseValues[target])
    else
      var sources := SourcesOf(t.values, target);
      if |sources| == 1 then Ok(Only(sources)) else if |sources| > 1 then Rejected(Ambiguous) else Rejected(NoMapping)
  }

  /** The element of a singleton. */
  function Only(s: set<string>): (x: string)
    requires |s| == 1
    ensures s == {x}
  {
    SingletonIsOne(s);
    var x :| x in s;
    x
  }

  lemma SingletonIsOne(s: set<string>)
    requires |s| == 1
    ensures forall x, y :: x in s && y in s ==> x == y
    ensures forall x :: x in s ==> s == {x}
  {
    forall x, y | x in s && y in s
      ensures x == y
    {
      if x != y {
        assert {x, y} <= s && |{x, y}| == 2;
        SubsetSize({x, y}, s);
      }
    }
  }

  lemma SubsetSize(a: set<string>, b: set<string>)
    requires a <= b
    ensures |a| <= |b|
  {
    assert a + (b - a) == b;
    assert |b| == |a| + |b - a|;
  }

  // ----- one step -----

  function ForwardBool(t: Transform, b: bool): Converted {
    match t.kind
    case Invert => Ok(BoolValue(!b))
    case BoolNumber =>
      var number := if b then t.trueNumber else t.falseNumber;
      if number.Some? then Ok(NumberValue(number.value)) else Panic
    case _ => Ok(EnumValue(if b then t.trueValue else t.falseValue))
  }

  function ForwardNumber(t: Transform, x: real, text: NumberText): Converted {
    match t.kind
    case Reciprocal => ReciprocalValue(x)
    case Scale => Ok(NumberValue(Affine(x, t.factor.GetOr(1.0), t.offset.GetOr(0.0))))
    case Clamp =>
      var lower := if t.min.Some? && x < t.min.value then t.min.value else x;
      Ok(NumberValue(if t.max.Some? && lower > t.max.value then t.max.value else lower))
    case Unit => ConvertUnit(t.fromUnit, t.toUnit, x)
    case RangeEnum =>
      var band := BandOf(t.bands, x);
      if band.Some? then Ok(EnumValue(band.value.value)) else Rejected(NoMapping)
    case Threshold => if t.threshold.Some? then Ok(BoolValue(Matches(x, t.threshold.value, t.operator))) else Panic
    case MapRange => Remapped(x, t.inputMin, t.inputMax, t.outputMin, t.outputMax)
    case Round => WholeOr(Rounded(t.mode, x), OutOfRange)
    case _ => Ok(TextValue(text.format(x)))
  }

  function ForwardText(t: Transform, s: string, kind: ValueType, text: NumberText): Converted {
    match t.kind
    case EnumMap => if s in t.values then Ok(TextValueFor(t.values[s], kind)) else Rejected(NoMapping)
    case EnumNumber =>
      var band := BandNamed(t.bands, s);
      if band.Some? then Ok(NumberValue(band.value.reverse)) else Rejected(NoMapping)
    case EnumBool =>
      if s == t.trueValue then Ok(BoolValue(true)) else if s == t.falseValue then Ok(BoolValue(false)) else Rejected(NoMapping)
    case _ =>
      var x := text.parse(s);
      if x.Some? then Ok(NumberValue(x.value)) else Rejected(BadText)
  }

  predicate TakesBool(k: StepKind) { k.Invert? || k.BoolNumber? || k.BoolEnum? }

  predicate TakesText(k: StepKind) { k.EnumMap? || k.EnumNumber? || k.EnumBool? || k.ParseNumber? }

  function ApplyForward(t: Transform, v: PropertyValue, text: NumberText): Converted {
    if t.kind.Unsupported? then Rejected(NotSupported)
    else if TakesBool(t.kind) then
      if v.flag.Some? then ForwardBool(t, v.flag.value) else Panic
    else if TakesText(t.kind) then
      if v.text.Some? then ForwardText(t, v.text.value, v.kind, text) else Panic
    else if t.kind.IntNumber? then
      if v.whole.None? then Panic
      else if -MAX_SAFE_INTEGER <= v.whole.value as int <= MAX_SAFE_INTEGER then Ok(NumberValue(v.whole.value as int as real))
      else Rejected(NotExact)
    else
      var x := NumericValue(v);
      if x.Some? then ForwardNumber(t, x.value, text) else Panic
  }

  function ReverseBool(t: Transform, b: bool, expected: ValueType): Converted {
    match t.kind
    case Invert => Ok(BoolValue(!b))
    case Threshold =>
      var number := if b then t.trueNumber else t.falseNumber;
      if number.Some? then Ok(NumberValue(number.value)) else Panic
    case _ => Ok(TextValueFor(if b then t.trueValue else t.falseValue, expected))
  }

  function ReverseNumber(t: Transform, x: real, expected: ValueType, text: NumberText): Converted {
    match t.kind
    case Reciprocal => ReciprocalValue(x)
    case IntNumber =>
      if !Integral(x) || x < -(MAX_SAFE_INTEGER as real) || x > MAX_SAFE_INTEGER as real then Rejected(NotExact)
      else WholeOr(x.Floor, NotExact)
    case Scale =>
      if t.factor.GetOr(1.0) == 0.0 then Rejected(NotFinite)
      else Ok(NumberValue(InverseAffine(x, t.factor.GetOr(1.0), t.offset.GetOr(0.0))))
    case Unit => ConvertUnit(t.toUnit, t.fromUnit, x)
    case EnumNumber =>
      var band := BandOf(t.bands, x);
      if band.Some? then Ok(TextValueFor(band.value.value, expected)) else Rejected(NoMapping)
    case BoolNumber => if t.threshold.Some? then Ok(BoolValue(Matches(x, t.threshold.value, t.operator))) else Panic
    case MapRange => Remapped(x, t.outputMin, t.outputMax, t.inputMin, t.inputMax)
    case Round => Ok(NumberValue(x))
    case _ => Ok(TextValue(text.format(x)))
  }

  function ReverseText(t: Transform, s: string, expected: ValueType, text: NumberText): Converted {
    match t.kind
    case EnumMap =>
      (match EnumSource(t, s)
       case Ok(source) => Ok(TextValueFor(source, expected))
       case Rejected(reason) => Rejected(reason)
       case Panic => Panic)
    case RangeEnum =>
      var band := BandNamed(t.bands, s);
      if band.Some? then Ok(NumberValue(band.value.reverse)) else Rejected(NoMapping)
    case BoolEnum =>
      if s == t.trueValue then Ok(BoolValue(true)) else if s == t.falseValue then Ok(BoolValue(false)) else Rejected(NoMapping)
    case _ =>
      var x := text.parse(s);
      if x.None? then Rejected(BadText)
      else if expected != Int then Ok(NumberValue(x.value))
      else if !Integral(x.value) then Rejected(BadText)
      else WholeOr(x.value.Floor, BadText)
  }

  predicate ReturnsBool(k: StepKind) { k.Invert? || k.Threshold? || k.EnumBool? }

  predicate ReturnsText(k: StepKind) { k.EnumMap? || k.RangeEnum? || k.BoolEnum? || k.NumberString? }

  /** Undo one step; `expected` is the type that the forward step took. */
  function ApplyReverse(t: Transform, v: PropertyValue, expected: ValueType, text: NumberText): Converted {
    if t.kind.Unsupported? then Rejected(NotSupported)
    else if t.kind.Clamp? then Rejected(NotReversible)
    else if ReturnsBool(t.kind) then
      if v.flag.Some? then ReverseBool(t, v.flag.value, expected) else Panic
    else if ReturnsText(t.kind) then
      if v.text.Some? then ReverseText(t, v.text.value, expected, text) else Panic
    else
      var x := NumericValue(v);
      if x.Some? then ReverseNumber(t, x.value, expected, text) else Panic
  }

  // ----- pipelines -----

  function ForwardAll(ts: seq<Transform>, v: PropertyValue, text: NumberText): Converted {
    if ts == [] then Ok(v)
    else
      var r := ApplyForward(ts[0], v, text);
      if r.Ok? then ForwardAll(ts[1..], r.value, text) else r
  }

  /** Undo the last step first; each step is told the type that it took going forward. */
  function ReverseAll(ts: seq<Transform>, input: ValueType, v: PropertyValue, text: NumberText): Converted {
    if ts == [] then Ok(v)
    else
      var r := ReverseAll(ts[1..], OutputType(input, ts[0]), v, text);
      if r.Ok? then ApplyReverse(ts[0], r.value, input, text) else r
  }

  datatype Direction = DefaultDirection | Forward | Reverse | OtherDirection(name: string)

  /** Mode of the first rounding step of the pipeline. */
  function FirstRound(ts: seq<Transform>): Option<Mode> {
    if ts == [] then None else if ts[0].kind.Round? then Some(ts[0].mode) else FirstRound(ts[1..])
  }

  /** The last conversion: a number where the profile declares an int. */
  function Settle(p: Profile, reverse: bool, v: PropertyValue): Converted {
    var finalType := if reverse then p.inputType else p.outputType;
    if finalType == Int && v.kind == Number && v.number.Some? then
      var x := v.number.value;
      if Integral(x) then WholeOr(x.Floor, OutOfRange)
      else if reverse && FirstRound(p.transforms).Some? then
        WholeOr(Rounded(FirstRound(p.transforms).value, x), OutOfRange)
      else Ok(v)
    else Ok(v)
  }

  /** A value through the pipeline of a validated profile. */
  function Convert(p: Profile, reverse: bool, v: PropertyValue, text: NumberText): Converted {
    if !HasType(v, if reverse then p.outputType else p.inputType) then Rejected(BadInput)
    else
      var piped := if reverse then ReverseAll(p.transforms, p.inputType, v, text) else ForwardAll(p.transforms, v, text);
      if !piped.Ok? then piped
      else
        var settled := Settle(p, reverse, piped.value);
        if settled.Ok? && !HasType(settled.value, if reverse then p.inputType else p.outputType) then Rejected(BadOutput)
        else settled
  }

  // ----- the interpreter itself -----

  datatype Step = Step(index: int, input: Option<PropertyValue>, output: PropertyValue)

  datatype PreviewResult = PreviewResult(value: PropertyValue, steps: seq<Step>)

  /** Each recorded step starts from what the step before it produced, and the last one produced `last`. */
  predicate Chained(steps: seq<Step>, first: PropertyValue, last: PropertyValue) {
    if steps == [] then last == first
    else
      && steps[|steps| - 1].output == last
      && (var input := steps[|steps| - 1].input;
          if input.None? then |steps| == 1 && last == first else Chained(steps[..|steps| - 1], first, input.value))
  }

  /** What was recorded is what the step of the pipeline with that index made of its input. */
  predicate Performed(ts: seq<Transform>, input: ValueType, reverse: bool, step: Step, text: NumberText) {
    step.input.Some? ==>
      && 0 <= step.index < |ts|
      && Ok(step.output) == if reverse then ApplyReverse(ts[step.index], step.input.value, TypeAfter(ts[..step.index], input), text)
                            else ApplyForward(ts[step.index], step.input.value, text)
  }

  predicate AllPerformed(ts: seq<Transform>, input: ValueType, reverse: bool, steps: seq<Step>, text: NumberText) {
    forall j :: 0 <= j < |steps| ==> Performed(ts, input, reverse, steps[j], text)
  }

  /** The answer to a preview whose conversion has this outcome. */
  predicate Answers(r: Outcome<PreviewResult>, c: Converted) {
    match c
    case Ok(v) => r.Ok? && r.value.value == v
    case Rejected(reason) => r == Rejected(reason)
    case Panic => r == Panic
  }

  lemma {:induction false} ForwardSnoc(ts: seq<Transform>, i: nat, v: PropertyValue, text: NumberText)
    requires i < |ts|
    ensures ForwardAll(ts[..i + 1], v, text) ==
              (var r := ForwardAll(ts[..i], v, text); if r.Ok? then ApplyForward(ts[i], r.value, text) else r)
  {
    assert ts[..i + 1][0] == ts[0] && ts[..i + 1][1..] == ts[1..][..i];
    if i > 0 {
      var r := ApplyForward(ts[0], v, text);
      if r.Ok? {
        ForwardSnoc(ts[1..], i - 1, r.value, text);
      }
      assert ts[..i][1..] == ts[1..][..i - 1];
    } else {
      assert ts[..1][1..] == [];
    }
  }

  /** An error in a prefix is the error of the whole pipeline. */
  lemma {:induction false} ForwardStops(ts: seq<Transform>, i: nat, v: PropertyValue, text: NumberText)
    requires i <= |ts| && !ForwardAll(ts[..i], v, text).Ok?
    ensures ForwardAll(ts, v, text) == ForwardAll(ts[..i], v, text)
  {
    assert i > 0 && ts[..i][0] == ts[0] && ts[..i][1..] == ts[1..][..i - 1];
    var r := ApplyForward(ts[0], v, text);
    if r.Ok? {
      ForwardStops(ts[1..], i - 1, r.value, text);
    }
  }

  lemma {:induction false} ReverseSnoc(ts: seq<Transform>, i: nat, input: ValueType, v: PropertyValue, text: NumberText)
    requires i < |ts|
    ensures ReverseAll(ts[..i + 1], input, v, text) ==
              (var r := ApplyReverse(ts[i], v, TypeAfter(ts[..i], input), text);
               if r.Ok? then ReverseAll(ts[..i], input, r.value, text) else r)
  {
    assert ts[..i + 1][0] == ts[0] && ts[..i + 1][1..] == ts[1..][..i];
    if i > 0 {
      ReverseSnoc(ts[1..], i - 1, OutputType(input, ts[0]), v, text);
      assert ts[..i][1..] == ts[1..][..i - 1];
    } else {
      assert ts[..1][1..] == [];
    }
  }

  method RunForward(ts: seq<Transform>, ghost input: ValueType, v: PropertyValue, text: NumberText, before: seq<Step>)
    returns (r: Converted, steps: seq<Step>)
    requires Chained(before, v, v) && AllPerformed(ts, input, false, before, text)
    ensures r == ForwardAll(ts, v, text)
    ensures r.Ok? ==> Chained(steps, v, r.value) && |steps| == |before| + |ts| && before <= steps
    ensures r.Ok? ==> AllPerformed(ts, input, false, steps, text)
    ensures r.Ok? ==> forall j :: |before| <= j < |steps| ==> steps[j].index == j - |before|
  {
    var current := v;
    steps := before;
    for index := 0 to |ts|
      invariant ForwardAll(ts[..index], v, text) == Ok(current)
      invariant Chained(steps, v, current) && |steps| == |before| + index && before <= steps
      invariant AllPerformed(ts, input, false, steps, text)
      invariant forall j :: |before| <= j < |steps| ==> steps[j].index == j - |before|
    {
      ForwardSnoc(ts, index, v, text);
      var output := ApplyForward(ts[index], current, text);
      if !output.Ok? {
        ForwardStops(ts, index + 1, v, text);
        return output, steps;
      }
      var step := Step(index, Some(current), output.value);
      assert (steps + [step])[..|steps|] == steps;
      steps := steps + [step];
      current := output.value;
    }
    assert ts[..|ts|] == ts;
    return Ok(current), steps;
  }

  method RunReverse(p: Profile, v: PropertyValue, text: NumberText) returns (r: Converted, steps: seq<Step>)
    ensures r == ReverseAll(p.transforms, p.inputType, v, text)
    ensures r.Ok? ==> Chained(steps, v, r.value) && |steps| == |p.transforms|
    ensures r.Ok? ==> AllPerformed(p.transforms, p.inputType, true, steps, text)
    ensures r.Ok? ==> forall j :: 0 <= j < |steps| ==> steps[j].index == |p.transforms| - 1 - j
  {
    var ts := p.transforms;
    var types := [p.inputType];
    for index := 0 to |ts|
      invariant |types| == index + 1 && forall i :: 0 <= i <= index ==> types[i] == TypeAfter(ts[..i], p.inputType)
    {
      GoodStepsAt(ts, p.inputType, index);
      types := types + [OutputType(types[index], ts[index])];
    }
    var current := v;
    steps := [];
    assert ts[..|ts|] == ts;
    for index := |ts| downto 0
      invariant ReverseAll(ts[..index], p.inputType, current, text) == ReverseAll(ts, p.inputType, v, text)
      invariant Chained(steps, v, current) && |steps| == |ts| - index
      invariant AllPerformed(ts, p.inputType, true, steps, text)
      invariant forall j :: 0 <= j < |steps| ==> steps[j].index == |ts| - 1 - j
    {
      ReverseSnoc(ts, index, p.inputType, current, text);
      var output := ApplyReverse(ts[index], current, types[index], text);
      if !output.Ok? {
        return output, steps;
      }
      var step := Step(index, Some(current), output.value);
      assert (steps + [step])[..|steps|] == steps;
      steps := steps + [step];
      current := output.value;
    }
    return Ok(current), steps;
  }

  /** The last conversion, as the interpreter performs it: only the first rounding step is consulted. */
  method Finish(p: Profile, reverse: bool, v: PropertyValue) returns (r: Converted)
    ensures r == Settle(p, reverse, v)
  {
    var finalType := if reverse then p.inputType else p.outputType;
    if finalType == Int && v.kind == Number && v.number.Some? {
      var number := v.number.value;
      if Integral(number) {
        return WholeOr(number.Floor, OutOfRange);
      } else if reverse {
        for index := 0 to |p.transforms|
          invariant FirstRound(p.transforms) == FirstRound(p.transforms[index..])
        {
          if p.transforms[index].kind.Round? {
            return WholeOr(Rounded(p.transforms[index].mode, number), OutOfRange);
          }
        }
      }
    }
    return Ok(v);
  }

  /** Validate the profile and run a value through it; the steps taken are returned with the result. */
  method Preview(p: Profile, direction: Direction, value: Option<PropertyValue>, stableId: string -> bool, text: NumberText)
    returns (r: Outcome<PreviewResult>)
    ensures !GoodProfile(p, stableId) ==> r.Rejected? && r.reason.InvalidProfile?
    ensures GoodProfile(p, stableId) && direction.OtherDirection? ==> r == Rejected(BadDirection)
    ensures GoodProfile(p, stableId) && !direction.OtherDirection? ==>
              if value.Some? then Answers(r, Convert(p, direction.Reverse?, value.value, text))
              else if direction.Reverse? || p.default.None? then r == Rejected(MissingValue)
              else Answers(r, Convert(p, false, p.default.value, text))
    ensures r.Ok? ==> (value.Some? || p.default.Some?) && |r.value.steps| == |p.transforms| + if value.None? then 1 else 0
    ensures r.Ok? ==> AllPerformed(p.transforms, p.inputType, direction.Reverse?, r.value.steps, text)
    ensures r.Ok? ==> forall j :: 0 <= j < |r.value.steps| ==>
              r.value.steps[j].index == if direction.Reverse? then |p.transforms| - 1 - j else if value.None? then j - 1 else j
    ensures r.Ok? ==> exists piped :: Settle(p, direction.Reverse?, piped) == Ok(r.value.value)
                        && Chained(r.value.steps, if value.Some? then value.value else p.default.value, piped)
  {
    var fields := Validate(p, stableId);
    if fields != map[] {
      return Rejected(InvalidProfile(fields));
    }
    if direction.OtherDirection? {
      return Rejected(BadDirection);
    }
    var reverse := direction.Reverse?;
    var current: PropertyValue;
    var steps: seq<Step> := [];
    if value.None? {
      if reverse || p.default.None? {
        return Rejected(MissingValue);
      }
      current := p.default.value;
      steps := [Step(-1, None, current)];
    } else {
      current := value.value;
    }
    if !HasType(current, if reverse then p.outputType else p.inputType) {
      return Rejected(BadInput);
    }
    var piped: Converted;
    if reverse {
      piped, steps := RunReverse(p, current, text);
    } else {
      piped, steps := RunForward(p.transforms, p.inputType, current, text, steps);
    }
    if !piped.Ok? {
      return if piped.Rejected? then Rejected(piped.reason) else Panic;
    }
    var settled := Finish(p, reverse, piped.value);
    if !settled.Ok? {
      return if settled.Rejected? then Rejected(settled.reason) else Panic;
    }
    if !HasType(settled.value, if reverse then p.inputType else p.outputType) {
      return Rejected(BadOutput);
    }
    return Ok(PreviewResult(settled.value, steps));
  }

  /** The scan over the forward table that finds the source of a target. */
  method FindSource(t: Transform, target: string) returns (r: Outcome<string>)
    ensures r == EnumSource(t, target)
  {
    if target in t.reverseValues {
      return Ok(t.reverseValues[target]);
    }
    var found, matches := "", 0;
    var left := t.values.Keys;
    ghost var seen: set<string> := {};
    while left != {}
      invariant left <= t.values.Keys
      invariant seen == set s | s in t.values && s !in left && t.values[s] == target
      invariant matches == |seen| && (matches == 1 ==> seen == {found})
      decreases |left|
    {
      var source :| source in left;
      left := left - {source};
      if t.values[source] == target {
        assert seen == {} || matches > 0;
        seen := seen + {source};
        found := source;
        matches := matches + 1;
      }
    }
    assert seen == SourcesOf(t.values, target);
    if matches == 1 {
      return Ok(found);
    }
    return if matches > 1 then Rejected(Ambiguous) else Rejected(NoMapping);
  }
}
