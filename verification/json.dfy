/** A parsed JSON value, as base::Value holds it after the JSON reader has
    run. Reading JSON text is not part of this model. */
module Json {

  datatype Value =
    | Null
    | Boolean(b: bool)
    | Number(n: int)
    | Str(s: string)
    | List(items: seq<Value>)
    | Dictionary(fields: map<string, Value>)

  /** DictionaryValue::GetString: the string under `key`, when there is one. */
  predicate HasString(v: Value, key: string)
  {
    v.Dictionary? && key in v.fields && v.fields[key].Str?
  }

  function GetString(v: Value, key: string): string
    requires HasString(v, key)
  {
    v.fields[key].s
  }
}
