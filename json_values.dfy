/**
 * The values encoding/json produces when it decodes into interface{}:
 * nil, bool, float64, string, []interface{} and map[string]interface{}.
 */
module JsonValues {
  import opened Base

  datatype Json =
    | Null
    | Bool(b: bool)
    | Number(n: real)
    | Str(s: string)
    | Array(items: seq<Json>)
    | Object(fields: map<string, Json>)

  /** m[key] on a map[string]interface{}: nil when the key is absent. */
  function Member(fields: map<string, Json>, key: string): Json
  {
    Get(fields, key, Null)
  }

  /** Go's int(x) of a float64: the integer part, truncated toward zero. */
  function Truncate(x: real): (n: int)
    ensures x >= 0.0 ==> n as real <= x < n as real + 1.0
    ensures x < 0.0 ==> n as real - 1.0 < x <= n as real
  {
    if x >= 0.0 then x.Floor else -((-x).Floor)
  }
}
