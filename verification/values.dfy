/** The GraphQL value a resolver produces and a parent value carries:
    null, scalars, lists and keyed objects. */
module Values {

  datatype Value =
    | Null
    | Boolean(b: bool)
    | Number(n: int)
    | String(s: string)
    | Enum(item: string)
    | List(items: seq<Value>)
    | Object(fields: map<string, Value>)
}
