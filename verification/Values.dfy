/** Typed property values: a type tag and optional payloads of which exactly one is set. */
module Values {
  import opened Options

  newtype int64 = x: int | -0x8000_0000_0000_0000 <= x < 0x8000_0000_0000_0000

  const MIN_INT64: int := -0x8000_0000_0000_0000
  const MAX_INT64: int := 0x7fff_ffff_ffff_ffff

  datatype ValueType = Bool | Int | Number | Text | Enum | Unknown(name: string)

  datatype PropertyValue = PropertyValue(kind: ValueType, flag: Option<bool>, whole: Option<int64>,
                                         number: Option<real>, text: Option<string>)
  {
    predicate HasSinglePayload() {
      && (if flag.Some? then 1 else 0) + (if whole.Some? then 1 else 0)
         + (if number.Some? then 1 else 0) + (if text.Some? then 1 else 0) == 1
      && match kind
         case Bool => flag.Some?
         case Int => whole.Some?
         case Number => number.Some?
         case Text => text.Some?
         case Enum => text.Some?
         case Unknown(_) => false
    }

    /** Same type and same payload; a missing payload equals nothing. */
    predicate Equal(other: PropertyValue) {
      && kind == other.kind
      && match kind
         case Bool => flag.Some? && flag == other.flag
         case Int => whole.Some? && whole == other.whole
         case Number => number.Some? && number == other.number
         case Text => text.Some? && text == other.text
         case Enum => text.Some? && text == other.text
         case Unknown(_) => false
    }
  }

  function BoolValue(b: bool): PropertyValue { PropertyValue(Bool, Some(b), None, None, None) }

  function IntValue(n: int64): PropertyValue { PropertyValue(Int, None, Some(n), None, None) }

  function NumberValue(x: real): PropertyValue { PropertyValue(Number, None, None, Some(x), None) }

  function TextValue(s: string): PropertyValue { PropertyValue(Text, None, None, None, Some(s)) }

  function EnumValue(s: string): PropertyValue { PropertyValue(Enum, None, None, None, Some(s)) }

  /** A value of this type with its one payload. */
  predicate HasType(v: PropertyValue, t: ValueType) {
    v.kind == t && v.HasSinglePayload()
  }

  /** Between values with their one payload, equality is being the same value. */
  lemma EqualIsSame(v: PropertyValue, w: PropertyValue, t: ValueType)
    requires HasType(v, t) && w.HasSinglePayload()
    ensures v.Equal(w) <==> v == w
    ensures w.Equal(v) <==> v == w
  {
  }

  /** A value has a type exactly if it holds the payload of that type and no other. */
  lemma TypedValues(v: PropertyValue, t: ValueType)
    ensures HasType(v, t) <==>
              match t
              case Bool => v == PropertyValue(Bool, v.flag, None, None, None) && v.flag.Some?
              case Int => v == PropertyValue(Int, None, v.whole, None, None) && v.whole.Some?
              case Number => v == PropertyValue(Number, None, None, v.number, None) && v.number.Some?
              case Text => v == PropertyValue(Text, None, None, None, v.text) && v.text.Some?
              case Enum => v == PropertyValue(Enum, None, None, None, v.text) && v.text.Some?
              case Unknown(_) => false
  {
  }
}
