/** GraphQL argument values as the mappers receive them: already parsed and
    validated, possibly still holding references to bound variables. */
module Graphql {

  datatype Value =
    | Null
    | Number(n: int)
    | String(s: string)
    | Boolean(b: bool)
    | Enum(name: string)
    | List(elems: seq<Value>)
    | Object(fields: seq<(string, Value)>)
    | Variable(name: string)
}
