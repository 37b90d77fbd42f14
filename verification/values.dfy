/**
 * The dynamically typed values that flow through the integrations: Go's
 * `interface{}` as it is used for raw data bags, metric values and inventory
 * fields, and the 64-bit arithmetic the derived metrics perform.
 */
module Values {

  /**
   * A Go `float64`, up to rounding: a finite value kept exactly as a real,
   * or one of the special values IEEE 754 division produces.
   */
  datatype Float = Finite(r: real) | PosInf | NegInf | NaN

  /** A Go `interface{}` value as the integrations meet it. */
  datatype Value =
    | Int(i: int)                         // int (64-bit)
    | Float64(f: Float)                   // float64
    | Bool(b: bool)                       // bool
    | Str(s: string)                      // string
    | Nil                                 // the nil interface (a missing map entry)
    | List(items: seq<Value>)             // []interface{}
    | StrMap(fields: map<string, Value>)  // map[string]interface{} (a decoded JSON object)
    | AnyMap(entries: map<Value, Value>)  // map[interface{}]interface{} (a decoded YAML mapping)

  /** A raw data bag: `map[string]interface{}`. */
  type Bag = map<string, Value>

  /** One inventory item: field name to value. */
  type Item = map<string, Value>

  /**
   * One field of one inventory item set, the item created with just that
   * field when it is missing; every other item and field stays as it was.
   */
  function SetField(items: map<string, Item>, key: string, field: string, value: Value): (r: map<string, Item>)
    ensures r.Keys == items.Keys + {key}
    ensures r[key].Keys == (if key in items then items[key].Keys else {}) + {field}
    ensures r[key][field] == value
    ensures forall f | f in r[key] && f != field :: key in items && r[key][f] == items[key][f]
    ensures forall k | k in items && k != key :: r[k] == items[k]
  {
    var item := if key in items then items[key] else map[];
    items[key := item[field := value]]
  }

  /** The entry of a Go map, or nil when the key is absent. */
  function Get(bag: Bag, key: string): (v: Value)
    ensures key !in bag ==> v == Nil
    ensures key in bag ==> v == bag[key]
  {
    if key in bag then bag[key] else Nil
  }

  /** The comma-ok type assertion `bag[key].(int)`. */
  function IntAt(bag: Bag, key: string): (r: (int, bool))
    ensures r.1 <==> key in bag && bag[key].Int?
    ensures r.1 ==> r.0 == bag[key].i
    ensures !r.1 ==> r.0 == 0
  {
    if key in bag && bag[key].Int? then (bag[key].i, true) else (0, false)
  }

  /** The comma-ok type assertion `bag[key].(string)`. */
  function StrAt(bag: Bag, key: string): (r: (string, bool))
    ensures r.1 <==> key in bag && bag[key].Str?
    ensures r.1 ==> r.0 == bag[key].s
    ensures !r.1 ==> r.0 == ""
  {
    if key in bag && bag[key].Str? then (bag[key].s, true) else ("", false)
  }

  const MinInt64: int := -0x8000_0000_0000_0000
  const MaxInt64: int := 0x7fff_ffff_ffff_ffff
  const TwoTo64: int := 0x1_0000_0000_0000_0000

  predicate InInt64(i: int) {
    MinInt64 <= i <= MaxInt64
  }

  /** Two's-complement wrap-around of Go's 64-bit `int` arithmetic. */
  function Wrap64(i: int): (r: int)
    ensures InInt64(r)
    ensures (i - r) % TwoTo64 == 0
    ensures InInt64(i) ==> r == i
  {
    var m := i % TwoTo64;
    if m <= MaxInt64 then m else m - TwoTo64
  }

  /** `float64(a) / float64(b)` for two finite operands, with IEEE 754's division by zero. */
  function Quotient(a: real, b: real): (q: Float)
    ensures q.Finite? <==> b != 0.0
    ensures q.Finite? ==> q.r * b == a
    ensures q == NaN <==> a == 0.0 && b == 0.0
    ensures q == PosInf <==> a > 0.0 && b == 0.0
  {
    if b != 0.0 then Finite(a / b)
    else if a > 0.0 then PosInf
    else if a < 0.0 then NegInf
    else NaN
  }

  /** `1 - x` on a float64. */
  function OneMinus(x: Float): (y: Float)
    ensures x.Finite? <==> y.Finite?
    ensures x.Finite? ==> x.r + y.r == 1.0
    ensures x == NaN <==> y == NaN
    ensures x == PosInf <==> y == NegInf
  {
    match x
    case Finite(r) => Finite(1.0 - r)
    case PosInf => NegInf
    case NegInf => PosInf
    case NaN => NaN
  }

  /** `float64(n)`: the value of an integer as a float (rounding is not modelled). */
  function FromInt(n: int): (f: Float)
    ensures f.Finite? && f.r.Floor == n
  {
    Finite(n as real)
  }
}
