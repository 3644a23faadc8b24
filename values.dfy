/**
 * The dynamic values a decoded JSON request body holds in Go (`interface{}`
 * values inside a `map[string]interface{}`), as far as the validators look at them.
 */
module GoValues {

  /** The signed integer types: `int`, `int8`, `int16`, `int32`, `int64`. */
  datatype IntType = PlainInt | Int8 | Int16 | Int32 | Int64

  /**
   * `Int` is a value of one of the signed integer types; `Uint` stands for the
   * unsigned integer types; `Float` for `float32`/`float64`, keeping only whether the
   * number equals zero; `List` is `[]interface{}` and `Object` is
   * `map[string]interface{}`. `Other` is every remaining dynamic type (structs,
   * pointers, typed slices such as `[]string`, typed maps), told apart by a tag.
   */
  datatype Value =
    | Nil
    | Str(s: string)
    | Int(intType: IntType, i: int)
    | Uint(u: nat)
    | Float(isZero: bool)
    | Bool(b: bool)
    | List(items: seq<Value>)
    | Object(fields: map<string, Value>)
    | Other(tag: nat)

  datatype Kind = NilKind | StringKind | IntKind(intType: IntType) | UintKind | FloatKind | BoolKind | ListKind | ObjectKind | OtherKind

  function KindOf(v: Value): Kind {
    match v
    case Nil => NilKind
    case Str(_) => StringKind
    case Int(t, _) => IntKind(t)
    case Uint(_) => UintKind
    case Float(_) => FloatKind
    case Bool(_) => BoolKind
    case List(_) => ListKind
    case Object(_) => ObjectKind
    case Other(_) => OtherKind
  }

  /** Go's zero value of a kind (an empty collection for the collection kinds). */
  function ZeroValue(k: Kind): (z: Value)
    requires k != OtherKind
    ensures KindOf(z) == k
  {
    match k
    case NilKind => Nil
    case StringKind => Str("")
    case IntKind(t) => Int(t, 0)
    case UintKind => Uint(0)
    case FloatKind => Float(true)
    case BoolKind => Bool(false)
    case ListKind => List([])
    case ObjectKind => Object(map[])
  }
}
