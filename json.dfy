/** The decoded response body, as the subscripts on line 135 of ContentView.swift
    see it. Decoding the bytes is not modelled: a body either decodes to one of these
    trees or the decoder throws. Subscripting never fails: a missing key, an index out
    of range or a subscript on the wrong kind of value yields `Null`. */
module Json {
  import opened Wrappers

  datatype Json =
    | Null
    | Bool(b: bool)
    | Number(n: real)
    | Str(s: string)
    | Array(items: seq<Json>)
    | Object(fields: map<string, Json>)

  /** `json[key]`. */
  function Member(j: Json, key: string): Json
  {
    if j.Object? && key in j.fields then j.fields[key] else Null
  }

  /** `json[index]`. */
  function Element(j: Json, index: int): Json
  {
    if j.Array? && 0 <= index < |j.items| then j.items[index] else Null
  }

  /** `json.rawValue as? String`: only a string value casts. */
  function AsString(j: Json): Option<string>
  {
    if j.Str? then Some(j.s) else None
  }

  /** `json.rawValue as? Double`: only a number casts. */
  function AsDouble(j: Json): Option<real>
  {
    if j.Number? then Some(j.n) else None
  }
}
