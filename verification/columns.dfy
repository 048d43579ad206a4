/** SQL column operands as the mappers and the insert renderer build them. */
module Columns {
  import Graphql
  import JsonValues

  /** A column of a physical table. */
  datatype PhysicalColumn = PhysicalColumn(tableName: string, columnName: string)

  /** A physical column, the literal of a GraphQL argument, a positional
      parameter holding a value produced by an earlier step, or SQL NULL. */
  datatype Column =
    | Physical(column: PhysicalColumn)
    | Literal(value: Graphql.Value)
    | Param(param: JsonValues.Json)
    | Null
}
