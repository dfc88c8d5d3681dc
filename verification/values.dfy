/**
  The crate's dynamic value type, as far as the tokenizer and the error model use it.
  Values only travel as payloads here: no arithmetic is defined on them.
 */
module Values {

  /** Bounds of `IntType`, the 64-bit signed integer of the value module. */
  const IntMin: int := -0x8000_0000_0000_0000
  const IntMax: int := 0x7FFF_FFFF_FFFF_FFFF

  /** `FloatType` kept opaque: a float is identified by the decimal text it was read from. */
  datatype FloatValue = FloatValue(spelling: string)

  /** `TupleType`: the items of a tuple value. */
  type TupleType = seq<Value>

  datatype Value =
    | String(s: string)
    | Int(i: int)
    | Float(f: FloatValue)
    | Boolean(b: bool)
    | Tuple(items: TupleType)
    | Empty

  /** The runtime kind of a value, without its payload. */
  datatype ValueType = String | Int | Float | Boolean | Tuple | Empty

  function TypeOf(v: Value): (t: ValueType)
  {
    match v
    case String(_) => ValueType.String
    case Int(_) => ValueType.Int
    case Float(_) => ValueType.Float
    case Boolean(_) => ValueType.Boolean
    case Tuple(_) => ValueType.Tuple
    case Empty => ValueType.Empty
  }
}
