/** JSON values as the gateway holds them. Finite doubles are kept by their value. */
module JsonValues {
  import opened MachineInts

  type i64 = i: int | I64_MIN <= i <= I64_MAX

  type Negative = i: int | I64_MIN <= i < 0 witness -1

  /** A number is an unsigned integer, a negative integer, or a finite double; the three never compare equal. */
  datatype Number = PosInt(u: u64) | NegInt(i: Negative) | Double(value: real)

  datatype Json =
    | Null
    | Bool(b: bool)
    | Num(n: Number)
    | Str(s: string)
    | Arr(items: seq<Json>)
    | Obj(fields: seq<JsonField>)

  datatype JsonField = JsonField(key: string, value: Json)

  function IntToNumber(i: i64): Number {
    if i >= 0 then PosInt(i) else NegInt(i)
  }

  function ValueOf(n: Number): real {
    match n
    case PosInt(u) => u as real
    case NegInt(i) => i as real
    case Double(value) => value
  }
}
