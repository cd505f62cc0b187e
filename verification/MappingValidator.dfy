/** The validator, which collects a message per offending field. */
module MappingValidator {
  import opened Options
  import opened Values
  import opened Mapping

  datatype Field =
    | ProfileField(name: string)
    | StepField(step: nat, name: string)
    | BandField(step: nat, band: nat, name: string)
    | ReverseField(step: nat, target: string)

  type Fields = map<Field, string>

  function Report(fields: Fields, field: Field, message: string): (result: Fields)
    ensures result != map[] && fields.Keys <= result.Keys
  {
    assert field in fields[field := message];
    fields[field := message]
  }

  // ----- bands -----

  ghost predicate GoodPrefix(bands: seq<Band>, n: nat)
    requires n <= |bands|
  {
    && (forall i :: 0 <= i < n ==> !Blank(bands[i].value))
    && (forall i, j :: 0 <= i < j < n ==> bands[i].value != bands[j].value)
    && (forall i :: 0 <= i < n && bands[i].max.None? ==> i == |bands| - 1)
    && (forall i :: 0 <= i < n && bands[i].max.Some? ==> bands[i].reverse <= bands[i].max.value)
    && (forall i, j :: 0 <= i < j < n ==> bands[i].max.Some? && bands[i].max.value < bands[j].reverse)
    && (forall i, j :: 0 <= i < j < n && bands[j].max.Some? ==> bands[i].max.Some? && bands[i].max.value < bands[j].max.value)
  }

  lemma GoodPrefixIsGood(bands: seq<Band>)
    requires |bands| >= 2
    ensures GoodBands(bands) <==> GoodPrefix(bands, |bands|) && bands[|bands| - 1].max.None?
  {
  }

  /** What the checks on one band decide, given the bound of the band before it. */
  predicate BandFits(band: Band, previousMax: Option<real>, final: bool) {
    && !Blank(band.value)
    && (band.max.None? ==> final)
    && (band.max.Some? ==> band.reverse <= band.max.value)
    && (previousMax.Some? ==> previousMax.value < band.reverse)
    && (previousMax.Some? && band.max.Some? ==> previousMax.value < band.max.value)
  }

  lemma NextBand(bands: seq<Band>, n: nat)
    requires n < |bands| && GoodPrefix(bands, n)
    ensures n > 0 ==> bands[n - 1].max.Some?
    ensures GoodPrefix(bands, n + 1) <==>
              && (forall i :: 0 <= i < n ==> bands[i].value != bands[n].value)
              && BandFits(bands[n], if n == 0 then None else bands[n - 1].max, n == |bands| - 1)
  {
    if (forall i :: 0 <= i < n ==> bands[i].value != bands[n].value)
       && BandFits(bands[n], if n == 0 then None else bands[n - 1].max, n == |bands| - 1) {
      FittingBand(bands, n);
    }
  }

  /** A band that fits behind the last one fits behind all of them, since their bounds rise. */
  lemma FittingBand(bands: seq<Band>, n: nat)
    requires n < |bands| && GoodPrefix(bands, n)
    requires forall i :: 0 <= i < n ==> bands[i].value != bands[n].value
    requires BandFits(bands[n], if n == 0 then None else bands[n - 1].max, n == |bands| - 1)
    ensures GoodPrefix(bands, n + 1)
  {
  }

  method ValidateBand(fields: Fields, step: nat, index: nat, band: Band, previousMax: Option<real>, final: bool)
    returns (result: Fields)
    ensures fields.Keys <= result.Keys
    ensures result == map[] <==> fields == map[] && BandFits(band, previousMax, final)
  {
    result := fields;
    if Blank(band.value) {
      result := Report(result, BandField(step, index, "value"), "must not be empty");
    }
    if band.max.None? {
      if !final {
        result := Report(result, BandField(step, index, "max"), "only the final band may omit max");
      }
    } else if previousMax.Some? && band.max.value <= previousMax.value {
      result := Report(result, BandField(step, index, "max"), "must be greater than the previous max");
    }
    if previousMax.Some? && band.reverse <= previousMax.value {
      result := Report(result, BandField(step, index, "reverse"), "must be greater than the previous max");
    }
    if band.max.Some? && band.reverse > band.max.value {
      result := Report(result, BandField(step, index, "reverse"), "must be within this band");
    }
  }

  method ValidateNext(fields: Fields, step: nat, index: nat, band: Band, previousMax: Option<real>, final: bool, seen: set<string>)
    returns (result: Fields)
    ensures fields.Keys <= result.Keys
    ensures result == map[] <==> fields == map[] && BandFits(band, previousMax, final) && band.value !in seen
  {
    result := ValidateBand(fields, step, index, band, previousMax, final);
    if band.value in seen {
      result := Report(result, BandField(step, index, "value"), "must be unique for reverse mapping");
    }
  }

  method ValidateRangeBands(fields: Fields, step: nat, bands: seq<Band>) returns (result: Fields)
    ensures fields.Keys <= result.Keys
    ensures result == map[] <==> fields == map[] && GoodBands(bands)
  {
    result := fields;
    if |bands| < 2 {
      return Report(result, StepField(step, "bands"), "must contain at least two ordered bands");
    }
    var seen: set<string> := {};
    var previousMax: Option<real> := None;
    for index := 0 to |bands|
      invariant fields.Keys <= result.Keys
      invariant forall v :: v in seen <==> exists i :: 0 <= i < index && bands[i].value == v
      invariant result == map[] <==> fields == map[] && GoodPrefix(bands, index)
      invariant GoodPrefix(bands, index) && index < |bands| ==> previousMax == if index == 0 then None else bands[index - 1].max
    {
      var band := bands[index];
      if GoodPrefix(bands, index) {
        NextBand(bands, index);
      }
      result := ValidateNext(result, step, index, band, previousMax, index == |bands| - 1, seen);
      seen := seen + {band.value};
      if band.max.Some? {
        previousMax := band.max;
      }
    }
    GoodPrefixIsGood(bands);
    if bands[|bands| - 1].max.Some? {
      result := Report(result, StepField(step, "bands"), "final band must omit max to cover remaining values");
    }
  }

  // ----- thresholds and labels -----

  method ValidateThreshold(fields: Fields, step: nat, t: Transform) returns (result: Fields)
    ensures fields.Keys <= result.Keys
    ensures result == map[] <==> fields == map[] && GoodThreshold(t)
  {
    result := fields;
    if t.threshold.None? {
      result := Report(result, StepField(step, "threshold"), "must be a finite number");
    }
    if t.operator.OtherOperator? {
      result := Report(result, StepField(step, "operator"), "must be gte, gt, lte, or lt");
    }
    if t.trueNumber.None? {
      result := Report(result, StepField(step, "trueNumber"), "must be a finite reverse value");
    }
    if t.falseNumber.None? {
      result := Report(result, StepField(step, "falseNumber"), "must be a finite reverse value");
    }
    if t.threshold.Some? && t.trueNumber.Some? && t.falseNumber.Some? {
      if !Matches(t.trueNumber.value, t.threshold.value, t.operator) {
        result := Report(result, StepField(step, "trueNumber"), "reverse value must evaluate to true");
      }
      if Matches(t.falseNumber.value, t.threshold.value, t.operator) {
        result := Report(result, StepField(step, "falseNumber"), "reverse value must evaluate to false");
      }
    }
  }

  method ValidateLabels(fields: Fields, step: nat, trueValue: string, falseValue: string) returns (result: Fields)
    ensures fields.Keys <= result.Keys
    ensures result == map[] <==> fields == map[] && GoodLabels(trueValue, falseValue)
  {
    result := fields;
    if Blank(trueValue) || Blank(falseValue) {
      result := Report(result, StepField(step, ""), "trueValue and falseValue must not be empty");
    } else if trueValue == falseValue {
      result := Report(result, StepField(step, ""), "trueValue and falseValue must be different");
    }
  }

  // ----- enum tables -----

  /** The sources of each output, as the first loop of the validator collects them. */
  ghost predicate Grouped(values: map<string, string>, done: set<string>, sources: map<string, seq<string>>)
    requires done <= values.Keys
  {
    && (forall s :: s in done ==> s != "" && values[s] != "" && values[s] in sources && s in sources[values[s]])
    && (forall t, s :: t in sources && s in sources[t] ==> s in done && values[s] == t)
    && (forall t :: t in sources ==> sources[t] != [])
    && (forall t, i, j :: t in sources && 0 <= i < j < |sources[t]| ==> sources[t][i] != sources[t][j])
  }

  /** Several sources need a canonical one, and the canonical one is among them. */
  predicate CanonicalFits(sources: seq<string>, reverse: map<string, string>, target: string) {
    && (|sources| > 1 ==> target in reverse)
    && (target in reverse ==> reverse[target] != "" && reverse[target] in sources)
  }

  predicate ReverseFits(values: map<string, string>, sources: map<string, seq<string>>, source: string, target: string) {
    target != "" && source in values && (target in sources ==> source in sources[target])
  }

  lemma GroupsDecide(values: map<string, string>, reverse: map<string, string>, sources: map<string, seq<string>>)
    requires values != map[] && Grouped(values, values.Keys, sources)
    ensures GoodEnum(values, reverse) <==>
              && (forall t :: t in sources ==> CanonicalFits(sources[t], reverse, t))
              && (forall t :: t in reverse ==> ReverseFits(values, sources, reverse[t], t))
  {
    if GoodEnum(values, reverse) {
      forall t | t in sources
        ensures CanonicalFits(sources[t], reverse, t)
      {
        GroupedIsEmitted(values, sources, t);
        GoodIsCanonical(values, reverse, sources, t);
      }
      forall t | t in reverse
        ensures ReverseFits(values, sources, reverse[t], t)
      {
        GroupedIsEmitted(values, sources, t);
      }
    }
    if (forall t :: t in sources ==> CanonicalFits(sources[t], reverse, t))
       && (forall t :: t in reverse ==> ReverseFits(values, sources, reverse[t], t)) {
      FittingIsGood(values, reverse, sources);
    }
  }

  lemma GroupedIsEmitted(values: map<string, string>, sources: map<string, seq<string>>, t: string)
    requires Grouped(values, values.Keys, sources)
    ensures t in sources <==> Emitted(values, t)
  {
    if t in sources {
      var s := sources[t][0];
      assert s in sources[t];
      assert s in values && values[s] == t;
    }
  }

  lemma FittingIsGood(values: map<string, string>, reverse: map<string, string>, sources: map<string, seq<string>>)
    requires values != map[] && Grouped(values, values.Keys, sources)
    requires forall t :: t in sources ==> CanonicalFits(sources[t], reverse, t)
    requires forall t :: t in reverse ==> ReverseFits(values, sources, reverse[t], t)
    ensures GoodEnum(values, reverse)
  {
    forall a, b | a in values && b in values && a != b && values[a] == values[b]
      ensures values[a] in reverse
    {
      assert a in sources[values[a]] && b in sources[values[a]];
      assert CanonicalFits(sources[values[a]], reverse, values[a]);
    }
    forall t | t in reverse
      ensures t != "" && reverse[t] in values && (Emitted(values, t) ==> values[reverse[t]] == t)
    {
      assert ReverseFits(values, sources, reverse[t], t);
      GroupedIsEmitted(values, sources, t);
    }
  }

  lemma GoodIsCanonical(values: map<string, string>, reverse: map<string, string>, sources: map<string, seq<string>>, t: string)
    requires GoodEnum(values, reverse) && Grouped(values, values.Keys, sources) && t in sources && Emitted(values, t)
    ensures CanonicalFits(sources[t], reverse, t)
  {
    if |sources[t]| > 1 {
      var a, b := sources[t][0], sources[t][1];
      assert a in sources[t] && b in sources[t];
      assert values[a] == t && values[b] == t;
    }
    if t in reverse {
      assert reverse[t] in sources[values[reverse[t]]];
    }
  }

  lemma GroupOne(values: map<string, string>, done: set<string>, sources: map<string, seq<string>>, s: string)
    requires done <= values.Keys && Grouped(values, done, sources)
    requires s in values && s !in done && s != "" && values[s] != ""
    ensures var t := values[s];
            Grouped(values, done + {s}, sources[t := (if t in sources then sources[t] else []) + [s]])
  {
    if values[s] in sources {
      assert s !in sources[values[s]];
    }
  }

  method ValidateEnumValues(fields: Fields, step: nat, values: map<string, string>, reverse: map<string, string>)
    returns (result: Fields)
    ensures fields.Keys <= result.Keys
    ensures result == map[] <==> fields == map[] && GoodEnum(values, reverse)
  {
    result := fields;
    if values == map[] {
      return Report(result, StepField(step, "values"), "must not be empty");
    }
    var sources, named := GroupByTarget(values);
    if !named {
      return Report(result, StepField(step, "values"), "source and target values must not be empty");
    }
    result := ValidateTargets(result, step, sources, reverse);
    result := ValidateReverse(result, step, values, sources, reverse);
    GroupsDecide(values, reverse, sources);
  }

  /** The sources of each target, unless a name is empty. */
  method GroupByTarget(values: map<string, string>) returns (sources: map<string, seq<string>>, named: bool)
    ensures named ==> Grouped(values, values.Keys, sources)
    ensures !named ==> exists s :: s in values && (s == "" || values[s] == "")
  {
    sources := map[];
    var left := values.Keys;
    while left != {}
      invariant left <= values.Keys && Grouped(values, values.Keys - left, sources)
      decreases |left|
    {
      var source :| source in left;
      var target := values[source];
      if source == "" || target == "" {
        return sources, false;
      }
      GroupOne(values, values.Keys - left, sources, source);
      assert values.Keys - left + {source} == values.Keys - (left - {source});
      sources := sources[target := (if target in sources then sources[target] else []) + [source]];
      left := left - {source};
    }
    assert values.Keys - left == values.Keys;
    return sources, true;
  }

  method ValidateTargets(fields: Fields, step: nat, sources: map<string, seq<string>>, reverse: map<string, string>)
    returns (result: Fields)
    ensures fields.Keys <= result.Keys
    ensures result == map[] <==> fields == map[] && forall t :: t in sources ==> CanonicalFits(sources[t], reverse, t)
  {
    result := fields;
    var left := sources.Keys;
    while left != {}
      invariant left <= sources.Keys && fields.Keys <= result.Keys
      invariant result == map[] <==>
                  fields == map[] && forall t :: t in sources && t !in left ==> CanonicalFits(sources[t], reverse, t)
      decreases |left|
    {
      var target :| target in left;
      left := left - {target};
      if |sources[target]| > 1 && target !in reverse {
        result := Report(result, ReverseField(step, target), "required when multiple sources map to this target");
      } else if target in reverse {
        if reverse[target] == "" {
          result := Report(result, ReverseField(step, target), "must not be empty");
        } else if reverse[target] !in sources[target] {
          result := Report(result, ReverseField(step, target), "must be a source that maps to this target");
        }
      }
    }
  }

  method ValidateReverse(fields: Fields, step: nat, values: map<string, string>, sources: map<string, seq<string>>,
                         reverse: map<string, string>)
    returns (result: Fields)
    ensures fields.Keys <= result.Keys
    ensures result == map[] <==>
              fields == map[] && forall t :: t in reverse ==> ReverseFits(values, sources, reverse[t], t)
  {
    result := fields;
    var left := reverse.Keys;
    while left != {}
      invariant left <= reverse.Keys && fields.Keys <= result.Keys
      invariant result == map[] <==>
                  fields == map[] && forall t :: t in reverse && t !in left ==> ReverseFits(values, sources, reverse[t], t)
      decreases |left|
    {
      var target :| target in left;
      left := left - {target};
      if target == "" {
        result := Report(result, StepField(step, "reverseValues"), "reverse targets must not be empty");
      } else if reverse[target] !in values {
        result := Report(result, ReverseField(step, target), "must be a source defined by values");
      } else if target in sources && reverse[target] !in sources[target] {
        result := Report(result, ReverseField(step, target), "must be a source that maps to this target");
      }
    }
  }

  // ----- steps and profiles -----

  /** Check one step, given the type that reaches it, and return the type it leaves behind. */
  method ValidateStep(fields: Fields, step: nat, t: Transform, input: ValueType) returns (result: Fields, output: ValueType)
    ensures fields.Keys <= result.Keys
    ensures result == map[] <==> fields == map[] && GoodStep(t, input)
    ensures output == OutputType(input, t)
  {
    result := fields;
    if t.kind.Unsupported? {
      return Report(result, StepField(step, "type"), "unsupported transform"), input;
    }
    if !Accepts(t.kind, input) {
      result := Report(result, StepField(step, ""), "step does not accept this input type");
    }
    result := ValidateParameters(result, step, t);
    output := input;
    match t.kind {
      case Invert =>
      case EnumMap =>
      case RangeEnum => output := Enum;
      case BoolEnum => output := Enum;
      case Threshold => output := Bool;
      case EnumBool => output := Bool;
      case Round => output := Int;
      case NumberString => output := Text;
      case _ => output := Number;
    }
  }

  method ValidateParameters(fields: Fields, step: nat, t: Transform) returns (result: Fields)
    ensures fields.Keys <= result.Keys
    ensures result == map[] <==> fields == map[] && GoodParameters(t)
  {
    result := fields;
    match t.kind {
      case Scale =>
        if t.factor.GetOr(1.0) == 0.0 { result := Report(result, StepField(step, "factor"), "must be finite and non-zero"); }
      case Clamp =>
        if t.min.None? && t.max.None? { result := Report(result, StepField(step, ""), "clamp requires min or max"); }
        if t.min.Some? && t.max.Some? && t.min.value > t.max.value {
          result := Report(result, StepField(step, ""), "minimum exceeds maximum");
        }
      case EnumMap => result := ValidateEnumValues(result, step, t.values, t.reverseValues);
      case Unit =>
        if !UnitSupported(t.fromUnit, t.toUnit) { result := Report(result, StepField(step, ""), "unsupported unit conversion"); }
      case RangeEnum => result := ValidateRangeBands(result, step, t.bands);
      case EnumNumber => result := ValidateRangeBands(result, step, t.bands);
      case Threshold => result := ValidateThreshold(result, step, t);
      case BoolNumber => result := ValidateThreshold(result, step, t);
      case BoolEnum => result := ValidateLabels(result, step, t.trueValue, t.falseValue);
      case EnumBool => result := ValidateLabels(result, step, t.trueValue, t.falseValue);
      case MapRange => result := ValidateRange(result, step, t);
      case Round =>
        if t.mode.OtherMode? { result := Report(result, StepField(step, "mode"), "must be nearest, floor, or ceil"); }
      case _ =>
    }
  }

  method ValidateRange(fields: Fields, step: nat, t: Transform) returns (result: Fields)
    ensures fields.Keys <= result.Keys
    ensures result == map[] <==> fields == map[] && GoodRange(t)
  {
    result := fields;
    if t.inputMin.None? { result := Report(result, StepField(step, "inputMin"), "must be a finite number"); }
    if t.inputMax.None? { result := Report(result, StepField(step, "inputMax"), "must be a finite number"); }
    if t.outputMin.None? { result := Report(result, StepField(step, "outputMin"), "must be a finite number"); }
    if t.outputMax.None? { result := Report(result, StepField(step, "outputMax"), "must be a finite number"); }
    if t.inputMin.Some? && t.inputMax.Some? && t.inputMin.value == t.inputMax.value {
      result := Report(result, StepField(step, ""), "input range must not be zero");
    }
    if t.outputMin.Some? && t.outputMax.Some? && t.outputMin.value == t.outputMax.value {
      result := Report(result, StepField(step, ""), "output range must not be zero for reverse mapping");
    }
  }

  /** The validator accepts exactly the good profiles. */
  method Validate(p: Profile, stableId: string -> bool) returns (fields: Fields)
    ensures fields == map[] <==> GoodProfile(p, stableId)
  {
    fields := ValidateHeader(p, stableId);
    var current := p.inputType;
    for index := 0 to |p.transforms|
      invariant fields == map[] <==> GoodHeader(p, stableId) && GoodSteps(p.transforms[..index], p.inputType)
      invariant current == TypeAfter(p.transforms[..index], p.inputType)
    {
      GoodStepsAt(p.transforms, p.inputType, index);
      fields, current := ValidateStep(fields, index, p.transforms[index], current);
    }
    assert p.transforms[..|p.transforms|] == p.transforms;
    if !p.outputType.Unknown? && current != p.outputType {
      fields := Report(fields, ProfileField("outputType"), "pipeline produces another type");
    }
  }

  predicate GoodHeader(p: Profile, stableId: string -> bool) {
    && p.schemaVersion == SCHEMA_VERSION && stableId(p.id) && (p.identifier != "" ==> stableId(p.identifier))
    && p.version >= 1 && !p.kind.OtherProfile? && !p.inputType.Unknown? && !p.outputType.Unknown?
    && (p.default.Some? ==> HasType(p.default.value, p.inputType))
  }

  method ValidateHeader(p: Profile, stableId: string -> bool) returns (fields: Fields)
    ensures fields == map[] <==> GoodHeader(p, stableId)
  {
    fields := map[];
    if p.schemaVersion != SCHEMA_VERSION { fields := Report(fields, ProfileField("schemaVersion"), "must be 1"); }
    if !stableId(p.id) { fields := Report(fields, ProfileField("id"), "must be a stable lowercase identifier"); }
    if p.identifier != "" && !stableId(p.identifier) {
      fields := Report(fields, ProfileField("identifier"), "must be a stable lowercase identifier");
    }
    if p.version < 1 { fields := Report(fields, ProfileField("version"), "must be positive"); }
    if p.kind.OtherProfile? { fields := Report(fields, ProfileField("kind"), "must be provider, capability, or target"); }
    if p.inputType.Unknown? { fields := Report(fields, ProfileField("inputType"), "unsupported value type"); }
    if p.outputType.Unknown? { fields := Report(fields, ProfileField("outputType"), "unsupported value type"); }
    if p.default.Some? && !HasType(p.default.value, p.inputType) {
      fields := Report(fields, ProfileField("default"), "must contain exactly one typed payload");
    }
  }
}
