/** JSON trees, as `serde_json::Value` has them, and the two coercions the evaluator applies to them. */
module JsonValues {
  import opened Wrappers

  // serde_json keeps three kinds of number apart: 1 and 1.0 are different values.
  datatype JsonNumber = Unsigned(n: nat) | Negative(i: int) | Float(r: real)

  datatype Json =
    | Null
    | Bool(b: bool)
    | Number(num: JsonNumber)
    | String(s: string)
    | Array(items: seq<Json>)
    | Object(fields: map<string, Json>)

  predicate IsScalar(j: Json) {
    !j.Array? && !j.Object?
  }

  function NumberValue(n: JsonNumber): real {
    match n
    case Unsigned(k) => k as real
    case Negative(i) => i as real
    case Float(r) => r
  }

  // The truth value of a JSON value.
  predicate BoolValue(j: Json) {
    match j
    case Null => false
    case Bool(b) => b
    case Number(n) => NumberValue(n) != 0.0
    case String(s) => s != ""
    case Array(_) => true
    case Object(_) => true
  }

  // The numeric value of a JSON value; None stands for NaN, which every non-number is read as.
  function F64Value(j: Json): Option<real> {
    if j.Number? then Some(NumberValue(j.num)) else None
  }
}
