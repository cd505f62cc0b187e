/** Which profiles the validator accepts, said by input types, plain parameters and what the steps then do. */
module MappingAcceptance {
  import opened Options
  import opened Values
  import opened Mapping
  import opened MappingEngine
  import opened MappingMeaning
  import RoundTrip = MappingRoundTrip

  /** Everything about a profile but its steps is in order. */
  predicate HeaderInOrder(p: Profile, stableId: string -> bool) {
    && p.schemaVersion == 1 && p.version > 0 && stableId(p.id) && (p.identifier == "" || stableId(p.identifier))
    && (p.kind == ProviderProfile || p.kind == CapabilityProfile || p.kind == TargetProfile)
    && (match p.inputType case Unknown(_) => false case _ => true)
    && (match p.outputType case Unknown(_) => false case _ => true)
    && (match p.default case None => true case Some(v) => HasType(v, p.inputType))
  }

  /** What a step of each kind takes, needs and leaves behind. */
  ghost predicate StepInOrder(t: Transform, input: ValueType, output: ValueType) {
    match t.kind
    case Invert => input == Bool && output == Bool
    case Reciprocal => (input == Int || input == Number) && output == Number
    case IntNumber => input == Int && output == Number
    case Scale => (input == Int || input == Number) && output == Number && t.factor != Some(0.0)
    case Clamp =>
      (input == Int || input == Number) && output == Number
      && (match (t.min, t.max) case (None, None) => false case (Some(lo), Some(hi)) => lo <= hi case _ => true)
    case EnumMap => (input == Enum || input == Text) && output == input && TableInOrder(t)
    case Unit => (input == Int || input == Number) && output == Number && ConvertUnit(t.fromUnit, t.toUnit, 1.0).Ok?
    case RangeEnum => (input == Int || input == Number) && output == Enum && BandsInOrder(t.bands)
    case EnumNumber => (input == Enum || input == Text) && output == Number && BandsInOrder(t.bands)
    case Threshold => (input == Int || input == Number) && output == Bool && NumbersOnTheirSides(t)
    case BoolNumber => input == Bool && output == Number && NumbersOnTheirSides(t)
    case BoolEnum => input == Bool && output == Enum && LabelsTellApart(t)
    case EnumBool => (input == Enum || input == Text) && output == Bool && LabelsTellApart(t)
    case MapRange =>
      (input == Int || input == Number) && output == Number
      && t.inputMin.Some? && t.inputMax.Some? && t.outputMin.Some? && t.outputMax.Some?
      && t.inputMin != t.inputMax && t.outputMin != t.outputMax
    case Round => (input == Int || input == Number) && output == Int && (t.mode == Nearest || t.mode == Floor || t.mode == Ceil)
    case ParseNumber => input == Text && output == Number
    case NumberString => (input == Int || input == Number) && output == Text
    case Unsupported(_) => false
  }

  /** No empty name, and every output of the table can be written back so that it is read again. */
  ghost predicate TableInOrder(t: Transform) {
    && |t.values| > 0
    && (forall s :: s in t.values ==> |s| > 0 && |t.values[s]| > 0)
    && (forall w :: w in t.reverseValues ==> |w| > 0 && t.reverseValues[w] in t.values)
    && (forall s :: s in t.values ==> EnumSource(t, t.values[s]).Ok? && EnumSource(t, t.values[s]).value in t.values
                                      && t.values[EnumSource(t, t.values[s]).value] == t.values[s])
  }

  /** Different labels that say something, the last band open, and every label's number named by that label. */
  ghost predicate BandsInOrder(bands: seq<Band>) {
    && |bands| > 1 && bands[|bands| - 1].max == None
    && (forall i :: 0 <= i < |bands| ==> Says(bands[i].value) && BandOf(bands, bands[i].reverse) == Some(bands[i]))
    && (forall i, j :: 0 <= i < |bands| && 0 <= j < |bands| && bands[i].value == bands[j].value ==> i == j)
  }

  /** Something is left of the text when the spaces around it are taken away. */
  predicate Says(s: string) {
    s != "" && (!IsSpace(s[0]) || Says(s[1..]))
  }

  /** The number for true is on the true side of the threshold, and the number for false is not. */
  predicate NumbersOnTheirSides(t: Transform) {
    && t.threshold.Some? && t.trueNumber.Some? && t.falseNumber.Some?
    && (t.operator == Gte || t.operator == Gt || t.operator == Lte || t.operator == Lt)
    && IsAbove(t.operator, t.threshold.value, t.trueNumber.value, true)
    && IsAbove(t.operator, t.threshold.value, t.falseNumber.value, false)
  }

  predicate LabelsTellApart(t: Transform) {
    Says(t.trueValue) && Says(t.falseValue) && t.trueValue != t.falseValue
  }

  lemma {:induction false} BlankSaysNothing(s: string)
    ensures Blank(s) <==> !Says(s)
  {
    if s != "" {
      BlankSaysNothing(s[1..]);
      assert Blank(s) <==> IsSpace(s[0]) && Blank(s[1..]) by {
        if IsSpace(s[0]) && Blank(s[1..]) {
          forall i | 0 <= i < |s| ensures IsSpace(s[i]) { if i > 0 { assert s[i] == s[1..][i - 1]; } }
        }
        if Blank(s) {
          forall i | 0 <= i < |s[1..]| ensures IsSpace(s[1..][i]) { assert s[1..][i] == s[i + 1]; }
        }
      }
    }
  }

  /** A table is accepted exactly if all it gives can be written back to something that gives it. */
  lemma TablesInOrder(t: Transform)
    ensures GoodEnum(t.values, t.reverseValues) <==> TableInOrder(t)
  {
    if GoodEnum(t.values, t.reverseValues) {
      forall s | s in t.values
        ensures EnumSource(t, t.values[s]).Ok? && EnumSource(t, t.values[s]).value in t.values
        ensures t.values[EnumSource(t, t.values[s]).value] == t.values[s]
      {
        OutputIsWrittenBack(t, s);
      }
    }
    if TableInOrder(t) {
      forall a, b | a in t.values && b in t.values && a != b && t.values[a] == t.values[b]
        ensures t.values[a] in t.reverseValues
      {
        if t.values[a] !in t.reverseValues {
          SubsetSize({a, b}, SourcesOf(t.values, t.values[a]));
        }
      }
      forall target | target in t.reverseValues && Emitted(t.values, target)
        ensures t.values[t.reverseValues[target]] == target
      {
        var s :| s in t.values && t.values[s] == target;
        assert EnumSource(t, target) == Ok(t.reverseValues[target]);
      }
    }
  }

  lemma OutputIsWrittenBack(t: Transform, s: string)
    requires GoodEnum(t.values, t.reverseValues) && s in t.values
    ensures EnumSource(t, t.values[s]).Ok? && EnumSource(t, t.values[s]).value in t.values
    ensures t.values[EnumSource(t, t.values[s]).value] == t.values[s]
  {
    assert Emitted(t.values, t.values[s]);
    RoundTrip.ReadSourceComesBack(t, s);
    RoundTrip.WrittenSourceLeadsBack(t, t.values[s]);
  }

  /** The band a number falls into comes after none that would take it. */
  lemma {:induction false} BandIsFirst(bands: seq<Band>, x: real, i: nat)
    requires i < |bands| && BandOf(bands, x) == Some(bands[i])
    requires forall j, k :: 0 <= j < |bands| && 0 <= k < |bands| && bands[j].value == bands[k].value ==> j == k
    ensures bands[i].max.None? || x <= bands[i].max.value
    ensures forall j :: 0 <= j < i ==> bands[j].max.Some? && bands[j].max.value < x
  {
    if bands[0].max.None? || x <= bands[0].max.value {
      assert bands[0].value == bands[i].value;
    } else if i == 0 {
      var k := RoundTrip.BandOfIsThere(bands[1..], x);
    } else {
      forall j, k | 0 <= j < |bands| - 1 && 0 <= k < |bands| - 1 && bands[1..][j].value == bands[1..][k].value
        ensures j == k
      {
        assert bands[j + 1].value == bands[k + 1].value;
      }
      BandIsFirst(bands[1..], x, i - 1);
      forall j | 0 <= j < i
        ensures bands[j].max.Some? && bands[j].max.value < x
      {
        if j > 0 { assert bands[j] == bands[1..][j - 1]; }
      }
    }
  }

  /** Bands are accepted exactly if every label's number falls into the label's own band. */
  lemma BandsAreInOrder(bands: seq<Band>)
    ensures GoodBands(bands) <==> BandsInOrder(bands)
  {
    forall i | 0 <= i < |bands|
      ensures Blank(bands[i].value) <==> !Says(bands[i].value)
    {
      BlankSaysNothing(bands[i].value);
    }
    if GoodBands(bands) {
      forall i | 0 <= i < |bands|
        ensures BandOf(bands, bands[i].reverse) == Some(bands[i])
      {
        RoundTrip.BandAt(bands, bands[i].reverse, i);
      }
    }
    if BandsInOrder(bands) {
      forall i | 0 <= i < |bands|
        ensures bands[i].max.None? || bands[i].reverse <= bands[i].max.value
        ensures forall j :: 0 <= j < i ==> bands[j].max.Some? && bands[j].max.value < bands[i].reverse
      {
        BandIsFirst(bands, bands[i].reverse, i);
      }
    }
  }

  lemma UnitsThatConvert(source: UnitName, target: UnitName)
    ensures UnitSupported(source, target) <==> ConvertUnit(source, target, 1.0).Ok?
  {
  }

  /** One step is accepted, and leaves behind the given type, exactly if it is in order. */
  lemma StepsInOrder(t: Transform, input: ValueType, output: ValueType)
    ensures GoodStep(t, input) && OutputType(input, t) == output <==> StepInOrder(t, input, output)
  {
    match t.kind
    case EnumMap => TablesInOrder(t);
    case RangeEnum => BandsAreInOrder(t.bands);
    case EnumNumber => BandsAreInOrder(t.bands);
    case BoolEnum => BlankSaysNothing(t.trueValue); BlankSaysNothing(t.falseValue);
    case EnumBool => BlankSaysNothing(t.trueValue); BlankSaysNothing(t.falseValue);
    case _ =>
  }

  /** The types that go from step to step: each step is in order between the one before it and the one after it. */
  ghost predicate TypesInOrder(types: seq<ValueType>, p: Profile) {
    && |types| == |p.transforms| + 1 && types[0] == p.inputType && types[|p.transforms|] == p.outputType
    && forall i :: 0 <= i < |p.transforms| ==> StepInOrder(p.transforms[i], types[i], types[i + 1])
  }

  function TypesAlong(ts: seq<Transform>, input: ValueType): (types: seq<ValueType>)
    ensures |types| == |ts| + 1 && types[0] == input
  {
    if ts == [] then [input] else [input] + TypesAlong(ts[1..], OutputType(input, ts[0]))
  }

  lemma {:induction false} TypesOfGoodSteps(ts: seq<Transform>, input: ValueType)
    requires GoodSteps(ts, input)
    ensures TypesAlong(ts, input)[|ts|] == TypeAfter(ts, input)
    ensures forall i :: 0 <= i < |ts| ==> StepInOrder(ts[i], TypesAlong(ts, input)[i], TypesAlong(ts, input)[i + 1])
  {
    if ts != [] {
      StepsInOrder(ts[0], input, OutputType(input, ts[0]));
      TypesOfGoodSteps(ts[1..], OutputType(input, ts[0]));
      forall i | 0 < i < |ts|
        ensures StepInOrder(ts[i], TypesAlong(ts, input)[i], TypesAlong(ts, input)[i + 1])
      {
        assert ts[i] == ts[1..][i - 1];
      }
    }
  }

  lemma {:induction false} GoodStepsOfTypes(ts: seq<Transform>, types: seq<ValueType>)
    requires |types| == |ts| + 1 && forall i :: 0 <= i < |ts| ==> StepInOrder(ts[i], types[i], types[i + 1])
    ensures GoodSteps(ts, types[0]) && TypeAfter(ts, types[0]) == types[|ts|]
  {
    if ts != [] {
      StepsInOrder(ts[0], types[0], types[1]);
      forall i | 0 <= i < |ts| - 1
        ensures StepInOrder(ts[1..][i], types[1..][i], types[1..][i + 1])
      {
        assert ts[1..][i] == ts[i + 1];
      }
      GoodStepsOfTypes(ts[1..], types[1..]);
    }
  }

  /** A profile is accepted exactly if types can be found along its pipeline with every step in order between them. */
  lemma AcceptedProfiles(p: Profile, stableId: string -> bool)
    ensures GoodProfile(p, stableId) <==> HeaderInOrder(p, stableId) && exists types :: TypesInOrder(types, p)
  {
    if GoodProfile(p, stableId) {
      TypesOfGoodSteps(p.transforms, p.inputType);
      assert TypesInOrder(TypesAlong(p.transforms, p.inputType), p);
    }
    if types :| TypesInOrder(types, p) {
      GoodStepsOfTypes(p.transforms, types);
    }
  }
}
