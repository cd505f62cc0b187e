/** What validation buys: no pipeline of a good profile ever meets a missing payload or parameter. */
module MappingSoundness {
  import opened Options
  import opened Values
  import opened Mapping
  import opened MappingEngine

  /** Going backwards, a number may stand where an int is expected, until the last conversion. */
  predicate Carries(v: PropertyValue, t: ValueType) {
    HasType(v, t) || (t == Int && HasType(v, Number))
  }

  /** A pipeline step neither dereferences nil nor divides by zero; the type checks are not its business. */
  predicate Safe(r: Converted) {
    !r.Panic? && (r.Rejected? ==> r.reason != NotFinite && r.reason != BadOutput)
  }

  lemma {:induction false} BandsCover(bands: seq<Band>, x: real)
    requires bands != [] && bands[|bands| - 1].max.None?
    ensures BandOf(bands, x).Some? && BandOf(bands, x).value in bands
  {
    if |bands| > 1 {
      BandsCover(bands[1..], x);
    }
  }

  lemma ForwardStepIsTyped(t: Transform, input: ValueType, v: PropertyValue, text: NumberText)
    requires GoodStep(t, input) && HasType(v, input)
    ensures Safe(ApplyForward(t, v, text))
    ensures ApplyForward(t, v, text).Ok? ==> HasType(ApplyForward(t, v, text).value, OutputType(input, t))
  {
  }

  lemma ReverseStepIsTyped(t: Transform, input: ValueType, v: PropertyValue, text: NumberText)
    requires GoodStep(t, input) && Carries(v, OutputType(input, t))
    ensures Safe(ApplyReverse(t, v, input, text))
    ensures ApplyReverse(t, v, input, text).Ok? ==> Carries(ApplyReverse(t, v, input, text).value, input)
  {
  }

  lemma {:induction false} ForwardIsTyped(ts: seq<Transform>, input: ValueType, v: PropertyValue, text: NumberText)
    requires GoodSteps(ts, input) && HasType(v, input)
    ensures Safe(ForwardAll(ts, v, text))
    ensures ForwardAll(ts, v, text).Ok? ==> HasType(ForwardAll(ts, v, text).value, TypeAfter(ts, input))
  {
    if ts != [] {
      ForwardStepIsTyped(ts[0], input, v, text);
      var r := ApplyForward(ts[0], v, text);
      if r.Ok? {
        ForwardIsTyped(ts[1..], OutputType(input, ts[0]), r.value, text);
      }
    }
  }

  lemma {:induction false} ReverseIsTyped(ts: seq<Transform>, input: ValueType, v: PropertyValue, text: NumberText)
    requires GoodSteps(ts, input) && HasType(v, TypeAfter(ts, input))
    ensures Safe(ReverseAll(ts, input, v, text))
    ensures ReverseAll(ts, input, v, text).Ok? ==> Carries(ReverseAll(ts, input, v, text).value, input)
  {
    if ts != [] {
      ReverseIsTyped(ts[1..], OutputType(input, ts[0]), v, text);
      var r := ReverseAll(ts[1..], OutputType(input, ts[0]), v, text);
      if r.Ok? {
        ReverseStepIsTyped(ts[0], input, r.value, text);
      }
    }
  }

  /**
   Type soundness, forward: a validated profile never dereferences a missing payload or parameter,
   never divides by zero, and never fails its own final type check.
   */
  lemma ForwardIsSafe(p: Profile, stableId: string -> bool, v: PropertyValue, text: NumberText)
    requires GoodProfile(p, stableId)
    ensures Safe(Convert(p, false, v, text))
    ensures Convert(p, false, v, text).Ok? ==> HasType(Convert(p, false, v, text).value, p.outputType)
  {
    if HasType(v, p.inputType) {
      ForwardIsTyped(p.transforms, p.inputType, v, text);
    }
  }

  /** What is left after undoing every step, when the profile declares an int but a fraction remains. */
  predicate LeavesFraction(p: Profile, v: PropertyValue, text: NumberText) {
    var r := ReverseAll(p.transforms, p.inputType, v, text);
    p.inputType == Int && r.Ok? && r.value.kind == Number && r.value.number.Some? && !Integral(r.value.number.value)
  }

  /**
   Type soundness, in reverse: as forward, except that the final type check rejects exactly a
   fraction where an int is declared and no step of the pipeline rounds.
   */
  lemma ReverseIsSafe(p: Profile, stableId: string -> bool, v: PropertyValue, text: NumberText)
    requires GoodProfile(p, stableId)
    ensures Safe(Convert(p, true, v, text)) || Convert(p, true, v, text) == Rejected(BadOutput)
    ensures Convert(p, true, v, text).Ok? ==> HasType(Convert(p, true, v, text).value, p.inputType)
    ensures Convert(p, true, v, text) == Rejected(BadOutput) <==>
              HasType(v, p.outputType) && LeavesFraction(p, v, text) && FirstRound(p.transforms).None?
  {
    if HasType(v, p.outputType) {
      ReverseIsTyped(p.transforms, p.inputType, v, text);
    }
  }
}
