/**
 Writes and reads undo each other, for pipelines of any length. Which steps take part is decided by
 their parameters alone, so a caller can check it when the profile is stored.
 */
module MappingRoundTrip {
  import opened Options
  import opened Values
  import opened Mapping
  import opened MappingEngine
  import opened MappingSoundness

  // ----- numbers -----

  lemma AffineCancels(x: real, factor: real, offset: real)
    requires factor != 0.0
    ensures InverseAffine(Affine(x, factor, offset), factor, offset) == x
    ensures Affine(InverseAffine(x, factor, offset), factor, offset) == x
  {
    QuotientIs(x * factor, factor, x);
    assert x * factor + offset - offset == x * factor;
    assert (x - offset) / factor * factor == x - offset;
  }

  lemma QuotientIs(a: real, b: real, q: real)
    requires b != 0.0 && a == q * b
    ensures a / b == q
  {
  }

  lemma QuotientCancels(a: real, b: real)
    requires a != 0.0 && b != 0.0
    ensures a / b != 0.0 && a / (a / b) == b
  {
    assert a / b * b == a;
  }

  /** A point carried from one range to another and back. */
  lemma RemapCancels(x: real, lo: real, hi: real, lo': real, hi': real)
    requires lo != hi && lo' != hi'
    ensures Remap(Remap(x, lo, hi, lo', hi'), lo', hi', lo, hi) == x
  {
    var span, span' := hi - lo, hi' - lo';
    var q := (x - lo) * span' / span;
    assert q * span == (x - lo) * span';
    QuotientIs(q * span, span', x - lo);
    assert Remap(x, lo, hi, lo', hi') == lo' + q;
    assert Remap(lo' + q, lo', hi', lo, hi) == lo + (lo' + q - lo') * span / span';
    assert lo' + q - lo' == q;
  }

  lemma RoundedInt(mode: Mode, n: int)
    ensures Rounded(mode, n as real) == n && Integral(n as real)
  {
    assert (n as real).Floor == n && (-(n as real)).Floor == -n;
    assert (n as real + 0.5).Floor == n && (-(n as real) + 0.5).Floor == -n;
  }

  /** Converting a unit there and back. */
  lemma UnitsCancel(source: UnitName, target: UnitName, x: real)
    requires UnitSupported(source, target) && ConvertUnit(source, target, x).Ok?
    ensures ConvertUnit(source, target, x).value == NumberValue(ConvertUnit(source, target, x).value.number.GetOr(0.0))
    ensures ConvertUnit(target, source, ConvertUnit(source, target, x).value.number.value) == Ok(NumberValue(x))
  {
    if Nonlinear(source, target) {
      QuotientCancels(1000000.0, x);
    }
  }

  // ----- bands -----

  lemma {:induction false} BandAt(bands: seq<Band>, x: real, i: nat)
    requires i < |bands| && (bands[i].max.None? || x <= bands[i].max.value)
    requires forall j :: 0 <= j < i ==> bands[j].max.Some? && bands[j].max.value < x
    ensures BandOf(bands, x) == Some(bands[i])
  {
    if i > 0 {
      BandAt(bands[1..], x, i - 1);
    }
  }

  lemma {:induction false} NamedBandAt(bands: seq<Band>, name: string) returns (i: nat)
    requires BandNamed(bands, name).Some?
    ensures i < |bands| && BandNamed(bands, name) == Some(bands[i]) && bands[i].value == name
  {
    if bands[0].value == name {
      i := 0;
    } else {
      var k := NamedBandAt(bands[1..], name);
      i := k + 1;
    }
  }

  lemma {:induction false} BandHasName(bands: seq<Band>, i: nat)
    requires i < |bands| && forall j :: 0 <= j < i ==> bands[j].value != bands[i].value
    ensures BandNamed(bands, bands[i].value) == Some(bands[i])
  {
    if i > 0 {
      BandHasName(bands[1..], i - 1);
    }
  }

  /** The number that stands for a label lies in the label's own band: what the validator checks bands for. */
  lemma ReverseNumberIsInBand(bands: seq<Band>, name: string)
    requires GoodBands(bands) && BandNamed(bands, name).Some?
    ensures var b := BandNamed(bands, name).value;
            b.value == name && BandOf(bands, b.reverse) == Some(b)
  {
    var i := NamedBandAt(bands, name);
    BandAt(bands, bands[i].reverse, i);
  }

  lemma {:induction false} BandOfIsThere(bands: seq<Band>, x: real) returns (i: nat)
    requires BandOf(bands, x).Some?
    ensures i < |bands| && BandOf(bands, x) == Some(bands[i])
  {
    if bands[0].max.None? || x <= bands[0].max.value {
      i := 0;
    } else {
      var k := BandOfIsThere(bands[1..], x);
      i := k + 1;
    }
  }

  // ----- enum tables -----

  /** Every value that can be written is also one that reads produce. */
  ghost predicate NoWriteOnlyAlias(t: Transform) {
    forall target :: target in t.reverseValues ==> Emitted(t.values, target)
  }

  ghost predicate Injective(values: map<string, string>) {
    forall a, b :: a in values && b in values && values[a] == values[b] ==> a == b
  }

  lemma WrittenSourceLeadsBack(t: Transform, target: string)
    requires GoodEnum(t.values, t.reverseValues) && EnumSource(t, target).Ok?
    ensures EnumSource(t, target).value in t.values
    ensures target !in t.reverseValues || Emitted(t.values, target) ==> t.values[EnumSource(t, target).value] == target
  {
    if target !in t.reverseValues {
      assert EnumSource(t, target).value in SourcesOf(t.values, target);
    }
  }

  /** Writing an enum and reading it back is exact for every writable value iff there is no write-only alias. */
  lemma AliasesBreakWrites(t: Transform)
    requires GoodEnum(t.values, t.reverseValues)
    ensures (forall w :: EnumSource(t, w).Ok? ==> t.values[Canonical(t, w)] == w) <==> NoWriteOnlyAlias(t)
  {
    forall w | EnumSource(t, w).Ok?
      ensures Canonical(t, w) in t.values
      ensures NoWriteOnlyAlias(t) ==> t.values[Canonical(t, w)] == w
    {
      WrittenSourceLeadsBack(t, w);
    }
    if !NoWriteOnlyAlias(t) {
      var w :| w in t.reverseValues && !Emitted(t.values, w);
      assert EnumSource(t, w) == Ok(t.reverseValues[w]);
    }
  }

  ghost function Canonical(t: Transform, w: string): (s: string)
    requires GoodEnum(t.values, t.reverseValues) && EnumSource(t, w).Ok?
    ensures s in t.values
  {
    WrittenSourceLeadsBack(t, w);
    EnumSource(t, w).value
  }

  lemma ReadSourceComesBack(t: Transform, s: string)
    requires GoodEnum(t.values, t.reverseValues) && s in t.values
    ensures EnumSource(t, t.values[s]).Ok?
    ensures Injective(t.values) ==> EnumSource(t, t.values[s]) == Ok(s)
  {
    var target := t.values[s];
    assert Emitted(t.values, target);
    if target !in t.reverseValues {
      assert SourcesOf(t.values, target) == {s};
    }
  }

  /** Reading an enum and writing it back is exact for every source iff the table is injective. */
  lemma MergesBreakReads(t: Transform)
    requires GoodEnum(t.values, t.reverseValues)
    ensures (forall s :: s in t.values ==> EnumSource(t, t.values[s]) == Ok(s)) <==> Injective(t.values)
  {
    forall s | s in t.values
      ensures Injective(t.values) ==> EnumSource(t, t.values[s]) == Ok(s)
    {
      ReadSourceComesBack(t, s);
    }
  }

  // ----- write, then read -----

  /** Steps whose reverse keeps everything the forward direction needs. */
  ghost predicate KeepsWrites(t: Transform) {
    && !t.kind.EnumNumber? && !t.kind.BoolNumber? && !t.kind.NumberString?
    && (t.kind.EnumMap? ==> NoWriteOnlyAlias(t))
  }

  /** The number a conversion produced. */
  function NumberOf(r: Converted): real {
    if r.Ok? then r.value.number.GetOr(0.0) else 0.0
  }

  lemma ReciprocalTwice(x: real)
    requires x != 0.0
    ensures ReciprocalValue(x).Ok? && ReciprocalValue(NumberOf(ReciprocalValue(x))) == Ok(NumberValue(x))
  {
    QuotientCancels(1.0, x);
  }

  /** The arithmetic steps, undone and redone. */
  lemma NumberStepWrites(t: Transform, x: real, input: ValueType, text: NumberText)
    requires t.kind.Scale? || t.kind.Reciprocal? || t.kind.Unit? || t.kind.MapRange?
    requires GoodParameters(t) && ReverseNumber(t, x, input, text).Ok?
    ensures ReverseNumber(t, x, input, text) == Ok(NumberValue(NumberOf(ReverseNumber(t, x, input, text))))
    ensures ForwardNumber(t, NumberOf(ReverseNumber(t, x, input, text)), text) == Ok(NumberValue(x))
  {
    if t.kind.Scale? {
      AffineCancels(x, t.factor.GetOr(1.0), t.offset.GetOr(0.0));
    } else if t.kind.Reciprocal? {
      ReciprocalTwice(x);
    } else if t.kind.Unit? {
      UnitsCancel(t.toUnit, t.fromUnit, x);
    } else {
      RemapCancels(x, t.outputMin.value, t.outputMax.value, t.inputMin.value, t.inputMax.value);
    }
  }

  /** The arithmetic steps, done and undone. */
  lemma NumberStepReads(t: Transform, x: real, input: ValueType, text: NumberText)
    requires t.kind.Scale? || t.kind.Reciprocal? || t.kind.Unit? || t.kind.MapRange?
    requires GoodParameters(t) && ForwardNumber(t, x, text).Ok?
    ensures ForwardNumber(t, x, text) == Ok(NumberValue(NumberOf(ForwardNumber(t, x, text))))
    ensures ReverseNumber(t, NumberOf(ForwardNumber(t, x, text)), input, text) == Ok(NumberValue(x))
  {
    if t.kind.Scale? {
      AffineCancels(x, t.factor.GetOr(1.0), t.offset.GetOr(0.0));
    } else if t.kind.Reciprocal? {
      ReciprocalTwice(x);
    } else if t.kind.Unit? {
      UnitsCancel(t.fromUnit, t.toUnit, x);
    } else {
      RemapCancels(x, t.inputMin.value, t.inputMax.value, t.outputMin.value, t.outputMax.value);
    }
  }

  /** parse-number writes its number as a text, and must be able to read that text again. */
  predicate WriteRecovers(t: Transform, w: PropertyValue, text: NumberText) {
    t.kind.ParseNumber? && w.number.Some? ==> Recovers(text, w.number.value)
  }

  lemma WriteStep(t: Transform, input: ValueType, w: PropertyValue, text: NumberText)
    requires GoodStep(t, input) && HasType(w, OutputType(input, t)) && KeepsWrites(t) && WriteRecovers(t, w, text)
    requires ApplyReverse(t, w, input, text).Ok?
    ensures ApplyForward(t, ApplyReverse(t, w, input, text).value, text) == Ok(w)
  {
    if t.kind.Scale? || t.kind.Reciprocal? || t.kind.Unit? || t.kind.MapRange? {
      NumberStepWrites(t, w.number.value, input, text);
    } else {
      match t.kind
      case EnumMap => WrittenSourceLeadsBack(t, w.text.value);
      case RangeEnum => ReverseNumberIsInBand(t.bands, w.text.value);
      case Round => RoundedInt(t.mode, w.whole.value as int);
      case _ =>
    }
  }

  /** An int that arises inside the pipeline is handed on exactly: only int-number may follow a rounding step. */
  ghost predicate KeepsWritesAll(ts: seq<Transform>, input: ValueType) {
    ts != [] ==>
      && KeepsWrites(ts[0])
      && (|ts| > 1 && OutputType(input, ts[0]) == Int ==> ts[1].kind.IntNumber?)
      && KeepsWritesAll(ts[1..], OutputType(input, ts[0]))
  }

  /** The numbers that a write turns into text, if it does, are read back from it. */
  predicate WritesRecover(ts: seq<Transform>, input: ValueType, w: PropertyValue, text: NumberText) {
    ts != [] ==>
      && WritesRecover(ts[1..], OutputType(input, ts[0]), w, text)
      && var y := ReverseAll(ts[1..], OutputType(input, ts[0]), w, text);
         y.Ok? ==> WriteRecovers(ts[0], y.value, text)
  }

  lemma {:induction false} WritePipeline(ts: seq<Transform>, input: ValueType, w: PropertyValue, text: NumberText)
    requires GoodSteps(ts, input) && KeepsWritesAll(ts, input) && HasType(w, TypeAfter(ts, input))
    requires WritesRecover(ts, input, w, text)
    requires ReverseAll(ts, input, w, text).Ok?
    ensures var x := ReverseAll(ts, input, w, text).value;
            && Carries(x, input)
            && (ts != [] && ts[0].kind.IntNumber? ==> HasType(x, Int))
            && ForwardAll(ts, x, text) == Ok(w)
  {
    ReverseIsTyped(ts, input, w, text);
    if ts != [] {
      WritePipeline(ts[1..], OutputType(input, ts[0]), w, text);
      var y := ReverseAll(ts[1..], OutputType(input, ts[0]), w, text).value;
      assert HasType(y, OutputType(input, ts[0]));
      WriteStep(ts[0], input, y, text);
    }
  }

  /** An int and the equal number are the same to every step that accepts a number. */
  lemma IntActsAsNumber(t: Transform, n: int64, text: NumberText)
    requires Accepts(t.kind, Int) && !t.kind.IntNumber?
    ensures ApplyForward(t, IntValue(n), text) == ApplyForward(t, NumberValue(n as int as real), text)
  {
  }

  /**
   What was written is what is read: for a pipeline of steps that keep writes, if a write succeeds,
   no fraction had to be rounded away at an int endpoint, and the numbers written as text can be read
   again, reading gives back the written value.
   */
  lemma WriteThenRead(p: Profile, stableId: string -> bool, w: PropertyValue, text: NumberText)
    requires GoodProfile(p, stableId) && KeepsWritesAll(p.transforms, p.inputType)
    requires WritesRecover(p.transforms, p.inputType, w, text)
    requires Convert(p, true, w, text).Ok? && !LeavesFraction(p, w, text)
    ensures Convert(p, false, Convert(p, true, w, text).value, text) == Ok(w)
  {
    var ts := p.transforms;
    WritePipeline(ts, p.inputType, w, text);
    var x, x' := ReverseAll(ts, p.inputType, w, text).value, Convert(p, true, w, text).value;
    if x' != x {
      var n := x'.whole.value;
      assert x' == IntValue(n) && x == NumberValue(n as int as real);
      IntActsAsNumber(ts[0], n, text);
    }
    assert ForwardAll(ts, x', text) == Ok(w);
  }

  predicate Without(ts: seq<Transform>, kind: StepKind) {
    forall i :: 0 <= i < |ts| ==> ts[i].kind != kind
  }

  lemma {:induction false} NoTextIsWritten(ts: seq<Transform>, input: ValueType, w: PropertyValue, text: NumberText)
    requires Without(ts, ParseNumber)
    ensures WritesRecover(ts, input, w, text)
  {
    if ts != [] {
      NoTextIsWritten(ts[1..], OutputType(input, ts[0]), w, text);
    }
  }

  /** Without parse-number steps this says nothing about texts. */
  lemma WriteThenReadWithoutText(p: Profile, stableId: string -> bool, w: PropertyValue, text: NumberText)
    requires GoodProfile(p, stableId) && KeepsWritesAll(p.transforms, p.inputType) && Without(p.transforms, ParseNumber)
    requires Convert(p, true, w, text).Ok? && !LeavesFraction(p, w, text)
    ensures Convert(p, false, Convert(p, true, w, text).value, text) == Ok(w)
  {
    NoTextIsWritten(p.transforms, p.inputType, w, text);
    WriteThenRead(p, stableId, w, text);
  }

  // ----- read, then write -----

  /** Steps whose forward direction keeps everything the reverse needs. */
  ghost predicate KeepsReads(t: Transform, input: ValueType) {
    && !t.kind.Clamp? && !t.kind.RangeEnum? && !t.kind.Threshold? && !t.kind.ParseNumber?
    && (t.kind.Round? ==> input == Int)
    && (t.kind.EnumMap? ==> Injective(t.values))
  }

  ghost predicate KeepsReadsAll(ts: seq<Transform>, input: ValueType) {
    ts != [] ==> KeepsReads(ts[0], input) && KeepsReadsAll(ts[1..], OutputType(input, ts[0]))
  }

  /** The same value, or the number equal to an int. */
  predicate Alike(y: PropertyValue, v: PropertyValue) {
    y == v || (v.kind == Int && v.whole.Some? && y == NumberValue(v.whole.value as int as real))
  }

  /** number-string reads its number as a text, and must be able to write that text back. */
  predicate ReadRecovers(t: Transform, v: PropertyValue, text: NumberText) {
    t.kind.NumberString? && NumericValue(v).Some? ==> Recovers(text, NumericValue(v).value)
  }

  /** The numbers that a read turns into text, if it does, are recovered from it. */
  predicate ReadsRecover(ts: seq<Transform>, v: PropertyValue, text: NumberText) {
    ts != [] ==>
      && ReadRecovers(ts[0], v, text)
      && (ApplyForward(ts[0], v, text).Ok? ==> ReadsRecover(ts[1..], ApplyForward(ts[0], v, text).value, text))
  }

  lemma ReadStep(t: Transform, input: ValueType, v: PropertyValue, y: PropertyValue, text: NumberText)
    requires GoodStep(t, input) && HasType(v, input) && KeepsReads(t, input) && ReadRecovers(t, v, text)
    requires ApplyForward(t, v, text).Ok? && Alike(y, ApplyForward(t, v, text).value)
    ensures ApplyReverse(t, y, input, text).Ok?
    ensures Alike(ApplyReverse(t, y, input, text).value, v)
  {
    if t.kind.Scale? || t.kind.Reciprocal? || t.kind.Unit? || t.kind.MapRange? {
      NumberStepReads(t, NumericValue(v).value, input, text);
    } else {
      match t.kind
      case EnumMap => ReadSourceComesBack(t, v.text.value);
      case EnumNumber => ReverseNumberIsInBand(t.bands, v.text.value);
      case Round => RoundedInt(t.mode, v.whole.value as int);
      case _ =>
    }
  }

  lemma {:induction false} ReadPipeline(ts: seq<Transform>, input: ValueType, v: PropertyValue, text: NumberText)
    requires GoodSteps(ts, input) && KeepsReadsAll(ts, input) && HasType(v, input)
    requires ReadsRecover(ts, v, text) && ForwardAll(ts, v, text).Ok?
    ensures var w := ForwardAll(ts, v, text).value;
            ReverseAll(ts, input, w, text).Ok? && Alike(ReverseAll(ts, input, w, text).value, v)
  {
    if ts != [] {
      ForwardStepIsTyped(ts[0], input, v, text);
      var u := ApplyForward(ts[0], v, text).value;
      ReadPipeline(ts[1..], OutputType(input, ts[0]), u, text);
      var w := ForwardAll(ts, v, text).value;
      ReadStep(ts[0], input, v, ReverseAll(ts[1..], OutputType(input, ts[0]), w, text).value, text);
    }
  }

  /**
   What was read can be written back: for a pipeline of steps that keep reads, whenever a read
   succeeds and the numbers read as text are recovered from it, writing its result yields the original
   value, int or not.
   */
  lemma ReadThenWrite(p: Profile, stableId: string -> bool, v: PropertyValue, text: NumberText)
    requires GoodProfile(p, stableId) && KeepsReadsAll(p.transforms, p.inputType)
    requires ReadsRecover(p.transforms, v, text) && Convert(p, false, v, text).Ok?
    ensures Convert(p, true, Convert(p, false, v, text).value, text) == Ok(v)
  {
    ForwardIsTyped(p.transforms, p.inputType, v, text);
    ReadPipeline(p.transforms, p.inputType, v, text);
  }

  lemma {:induction false} NoTextIsRead(ts: seq<Transform>, v: PropertyValue, text: NumberText)
    requires Without(ts, NumberString)
    ensures ReadsRecover(ts, v, text)
  {
    if ts != [] && ApplyForward(ts[0], v, text).Ok? {
      NoTextIsRead(ts[1..], ApplyForward(ts[0], v, text).value, text);
    }
  }

  /** Without number-string steps this says nothing about texts. */
  lemma ReadThenWriteWithoutText(p: Profile, stableId: string -> bool, v: PropertyValue, text: NumberText)
    requires GoodProfile(p, stableId) && KeepsReadsAll(p.transforms, p.inputType) && Without(p.transforms, NumberString)
    requires Convert(p, false, v, text).Ok?
    ensures Convert(p, true, Convert(p, false, v, text).value, text) == Ok(v)
  {
    NoTextIsRead(p.transforms, v, text);
    ReadThenWrite(p, stableId, v, text);
  }

  /** A text step gives back exactly the numbers that their own text gives back. */
  lemma TextSteps(t: Transform, x: real, text: NumberText)
    ensures t.kind.ParseNumber? ==>
              (ApplyForward(t, ApplyReverse(t, NumberValue(x), Text, text).value, text) == Ok(NumberValue(x)) <==> Recovers(text, x))
    ensures t.kind.NumberString? ==>
              (ApplyReverse(t, ApplyForward(t, NumberValue(x), text).value, Number, text) == Ok(NumberValue(x)) <==> Recovers(text, x))
  {
  }

  // ----- the steps that do not keep writes -----

  /**
   enum-number and bool-number snap a written number to the one that stands for its label: the
   write reads back unchanged exactly when it already was such a number.
   */
  lemma SnappingSteps(t: Transform, input: ValueType, x: real, text: NumberText)
    requires GoodStep(t, input) && (t.kind.EnumNumber? || t.kind.BoolNumber?)
    ensures ApplyReverse(t, NumberValue(x), input, text).Ok?
    ensures ApplyForward(t, ApplyReverse(t, NumberValue(x), input, text).value, text) == Ok(NumberValue(x)) <==>
              if t.kind.EnumNumber? then exists b :: b in t.bands && b.reverse == x
              else t.trueNumber == Some(x) || t.falseNumber == Some(x)
  {
    if t.kind.EnumNumber? {
      BandsCover(t.bands, x);
      var i := BandOfIsThere(t.bands, x);
      BandHasName(t.bands, i);
      if b :| b in t.bands && b.reverse == x {
        var k :| 0 <= k < |t.bands| && t.bands[k] == b;
        BandAt(t.bands, x, k);
      }
    }
  }

  /**
   range-enum, threshold and round forget where in a band, a half-line or a unit interval a number
   lay: a read can be written back unchanged exactly when the number was already the chosen one.
   */
  lemma ForgettingSteps(t: Transform, x: real, text: NumberText)
    requires GoodStep(t, Number) && (t.kind.RangeEnum? || t.kind.Threshold? || t.kind.Round?)
    requires ApplyForward(t, NumberValue(x), text).Ok?
    ensures ApplyReverse(t, ApplyForward(t, NumberValue(x), text).value, Number, text) == Ok(NumberValue(x)) <==>
              if t.kind.RangeEnum? then exists b :: b in t.bands && b.reverse == x
              else if t.kind.Threshold? then t.trueNumber == Some(x) || t.falseNumber == Some(x)
              else Integral(x)
  {
    if t.kind.RangeEnum? {
      var i := BandOfIsThere(t.bands, x);
      BandHasName(t.bands, i);
      if b :| b in t.bands && b.reverse == x {
        var k :| 0 <= k < |t.bands| && t.bands[k] == b;
        BandAt(t.bands, x, k);
      }
    } else if t.kind.Round? {
      RoundedInt(t.mode, x.Floor);
      RoundedInt(t.mode, Rounded(t.mode, x));
    }
  }
}
