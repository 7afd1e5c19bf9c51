/**
 * Just enough of JavaScript values to state what the actions do with loosely
 * shaped objects: truthiness, `||` defaults, `??` defaults and property reads.
 * A property that is absent (`undefined`) is `None`.
 */
module JsValues {
  import opened Wrappers

  datatype Json =
    | JNull
    | JBool(b: bool)
    | JNum(n: real)
    | JStr(s: string)
    | JArr(elems: seq<Json>)
    | JObj(fields: map<string, Json>)

  /** JavaScript truthiness of a possibly undefined value (NaN is not modelled). */
  predicate Truthy(v: Option<Json>)
  {
    match v
    case None => false
    case Some(JNull) => false
    case Some(JBool(b)) => b
    case Some(JNum(n)) => n != 0.0
    case Some(JStr(s)) => s != ""
    case Some(_) => true
  }

  /** `v.key` on a value that is not null: only objects have the keys used here. */
  function Prop(v: Json, key: string): (r: Option<Json>)
    ensures r.Some? <==> v.JObj? && key in v.fields
    ensures r.Some? ==> r.value == v.fields[key]
  {
    if v.JObj? && key in v.fields then Some(v.fields[key]) else None
  }

  /** `v || fallback` */
  function Or(v: Option<Json>, fallback: Json): (r: Json)
    ensures Truthy(v) ==> Some(r) == v
    ensures !Truthy(v) ==> r == fallback
  {
    if Truthy(v) then v.value else fallback
  }

  /** `v ?? fallback`: only null and undefined are replaced. */
  function Coalesce(v: Option<Json>, fallback: Json): (r: Json)
    ensures v.Some? && v.value != JNull ==> r == v.value
    ensures v.None? || v.value == JNull ==> r == fallback
  {
    if v.Some? && v.value != JNull then v.value else fallback
  }
}
