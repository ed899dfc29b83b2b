/** JSON values and the lenient readers that the observers apply to them. */
module Json {
  import opened Wrappers
  import opened Text

  /** Integers keep their value; other numbers keep the text they are written as. */
  datatype Value =
    | Null
    | Bool(flag: bool)
    | Int(number: int)
    | Float(numeral: string)
    | Str(text: string)
    | Arr(items: seq<Value>)
    | Obj(fields: map<string, Value>)

  /** Member of an object; absent when the value is no object or has no such member. */
  function Get(value: Value, key: string): Option<Value> {
    if value.Obj? && key in value.fields then Some(value.fields[key]) else None
  }

  function GetIn(value: Option<Value>, key: string): Option<Value> {
    if value.Some? then Get(value.value, key) else None
  }

  function AsArray(value: Option<Value>): Option<seq<Value>> {
    if value.Some? && value.value.Arr? then Some(value.value.items) else None
  }

  function AsStr(value: Option<Value>): Option<string> {
    if value.Some? && value.value.Str? then Some(value.value.text) else None
  }

  /** A string member with surrounding white space removed; blank strings count as absent. */
  function OptionalString(value: Option<Value>): (r: Option<string>)
    ensures r.Some? ==> r.value != ""
  {
    var s := AsStr(value);
    if s.Some? && Trim(s.value) != "" then Some(Trim(s.value)) else None
  }

  /** A u32 given as a JSON integer or as decimal text. */
  function OptionalU32(value: Option<Value>): Option<u32> {
    if value.None? then None
    else match value.value
      case Int(n) => if 0 <= n <= U32_MAX then Some(n) else None
      case Str(s) => ParseU32(Trim(s))
      case _ => None
  }

  /** Decimal digits with an optional leading plus sign; out-of-range numerals are refused. */
  function ParseU32(s: string): Option<u32> {
    var digits := if s != "" && s[0] == '+' then s[1..] else s;
    if digits == "" || exists i :: 0 <= i < |digits| && !('0' <= digits[i] <= '9') then None
    else
      var n := NumeralValue(digits);
      if n <= U32_MAX then Some(n) else None
  }

  /** An optional value as the json! macro writes it. */
  function OfString(value: Option<string>): Value {
    if value.Some? then Str(value.value) else Null
  }

  function OfU32(value: Option<u32>): Value {
    if value.Some? then Int(value.value) else Null
  }
}
