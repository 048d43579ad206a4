/** The aggregate query resolver: the select it builds for an aggregate field
    (access and filter predicates combined, one JSON object of aggregate
    function projections). */
module AggregateQuery {
  import opened Wrappers
  import opened Columns
  import opened Predicates
  import opened ExecutionErrors
  import OrderByMapper

  /** How an entity field is stored. */
  datatype Relation =
    | Pk(column: PhysicalColumn)
    | Scalar(column: PhysicalColumn)
    | ManyToOne(otherTypeId: nat)
    | OneToMany(otherTypeId: nat)

  datatype EntityField = EntityField(name: string, relation: Relation)

  datatype EntityType = EntityType(name: string, tableId: nat, fields: seq<EntityField>)

  /** The schema: entity types and table names, both indexed by id. */
  datatype Subsystem = Subsystem(entityTypes: seq<EntityType>, tables: seq<string>)

  /** The query's declared return type: its name and the entity it refers to. */
  datatype ReturnType = ReturnType(typeName: string, typeId: nat)

  /** A field of the request after validation. */
  datatype ValidatedField = ValidatedField(name: string, alias: Option<string>, subfields: seq<ValidatedField>)

  function OutputName(f: ValidatedField): (n: string)
    ensures f.alias.Some? ==> n == f.alias.value
    ensures f.alias.None? ==> n == f.name
  {
    f.alias.GetOr(f.name)
  }

  datatype SelectionElement =
    | Constant(text: string)
    | Function(functionName: string, column: PhysicalColumn)
    | Object(elements: seq<(string, SelectionElement)>)

  datatype ColumnSelection = ColumnSelection(alias: string, column: SelectionElement)

  datatype Cardinality = One | Many

  datatype Selection = Json(content: seq<ColumnSelection>, cardinality: Cardinality)

  datatype AbstractSelect = AbstractSelect(
    table: string,
    selection: Selection,
    filter: AbstractPredicate,
    orderBy: Option<OrderByMapper.OrderBy>,
    offset: Option<nat>,
    limit: Option<nat>)

  const TypenameField: string := "__typename"

  const CompositeAggregationError := Generic("Invalid nested aggregation of a composite type")

  /** The entity has a field called `name`. */
  predicate HasField(e: EntityType, name: string) {
    exists i :: 0 <= i < |e.fields| && e.fields[i].name == name
  }

  /** The first field of the entity called `name`. */
  function FieldNamed(e: EntityType, name: string, from: nat): (f: EntityField)
    requires from <= |e.fields|
    requires exists i :: from <= i < |e.fields| && e.fields[i].name == name
    ensures exists i :: from <= i < |e.fields| && e.fields[i] == f && f.name == name &&
                        forall j :: from <= j < i ==> e.fields[j].name != name
    decreases |e.fields| - from
  {
    if e.fields[from].name == name then e.fields[from] else FieldNamed(e, name, from + 1)
  }

  /** A field the mapping can look up without crashing: `__typename`, or a
      field the return type's entity declares. */
  predicate Mappable(rt: ReturnType, s: Subsystem, f: ValidatedField) {
    f.name == TypenameField || (rt.typeId < |s.entityTypes| && HasField(s.entityTypes[rt.typeId], f.name))
  }

  /** One aggregate projection per subfield: the subfield's name is the
      aggregate function applied to the column. */
  function Aggregates(subfields: seq<ValidatedField>, column: PhysicalColumn): (elements: seq<(string, SelectionElement)>)
    ensures |elements| == |subfields|
    ensures forall i :: 0 <= i < |subfields| ==>
              elements[i] == (OutputName(subfields[i]), Function(subfields[i].name, column))
  {
    seq(|subfields|, i requires 0 <= i < |subfields| => (OutputName(subfields[i]), Function(subfields[i].name, column)))
  }

  /** One requested field of the aggregate: `__typename` is the return type's
      name as a constant; a column field is an object with one aggregate per
      subfield; a relation to another entity cannot be aggregated. */
  function MapField(rt: ReturnType, s: Subsystem, f: ValidatedField): (r: Result<ColumnSelection, ExecutionError>)
    requires Mappable(rt, s, f)
    ensures r.Success? ==> r.value.alias == OutputName(f)
    ensures f.name == TypenameField ==> r == Success(ColumnSelection(OutputName(f), Constant(rt.typeName)))
    ensures f.name != TypenameField ==>
              var rel := FieldNamed(s.entityTypes[rt.typeId], f.name, 0).relation;
              (r.Success? <==> rel.Pk? || rel.Scalar?) &&
              (r.Success? ==> r.value.column == Object(Aggregates(f.subfields, rel.column)))
    ensures r.Failure? ==> r.error == CompositeAggregationError
  {
    if f.name == TypenameField then Success(ColumnSelection(OutputName(f), Constant(rt.typeName)))
    else
      match FieldNamed(s.entityTypes[rt.typeId], f.name, 0).relation
      case Pk(column) => Success(ColumnSelection(OutputName(f), Object(Aggregates(f.subfields, column))))
      case Scalar(column) => Success(ColumnSelection(OutputName(f), Object(Aggregates(f.subfields, column))))
      case _ => Failure(CompositeAggregationError)
  }

  /** The fields mapped in order; the first failure, if any, is the result. */
  function ContentSelect(rt: ReturnType, s: Subsystem, fields: seq<ValidatedField>): (r: Result<seq<ColumnSelection>, ExecutionError>)
    requires forall i :: 0 <= i < |fields| ==> Mappable(rt, s, fields[i])
    ensures r.Success? ==> |r.value| == |fields|
    ensures r.Success? ==> forall i :: 0 <= i < |fields| ==> MapField(rt, s, fields[i]) == Success(r.value[i])
    ensures r.Failure? ==> exists i :: 0 <= i < |fields| && MapField(rt, s, fields[i]) == Failure(r.error) &&
                                       forall j :: 0 <= j < i ==> MapField(rt, s, fields[j]).Success?
    ensures r.Failure? <==> exists i :: 0 <= i < |fields| && MapField(rt, s, fields[i]).Failure?
  {
    if fields == [] then Success([])
    else
      match MapField(rt, s, fields[0])
      case Failure(e) => Failure(e)
      case Success(head) =>
        match ContentSelect(rt, s, fields[1..])
        case Failure(e) =>
          assert forall i :: 1 <= i < |fields| ==> fields[1..][i - 1] == fields[i];
          Failure(e)
        case Success(rest) =>
          assert forall i :: 1 <= i < |fields| ==> fields[1..][i - 1] == fields[i];
          Success([head] + rest)
  }

  /** The select for an aggregate query. The access check and the filter are
      computed by the caller and passed in; a failed access check wins over a
      failed filter, which wins over a failed field. */
  function ResolveSelect(rt: ReturnType, s: Subsystem, field: ValidatedField,
                         access: Result<AbstractPredicate, ExecutionError>,
                         query: Result<AbstractPredicate, ExecutionError>): (r: Result<AbstractSelect, ExecutionError>)
    requires rt.typeId < |s.entityTypes| && s.entityTypes[rt.typeId].tableId < |s.tables|
    requires forall i :: 0 <= i < |field.subfields| ==> Mappable(rt, s, field.subfields[i])
    ensures access.Failure? ==> r == Failure(access.error)
    ensures access.Success? && query.Failure? ==> r == Failure(query.error)
    ensures access.Success? && query.Success? ==>
              (r.Failure? <==> ContentSelect(rt, s, field.subfields).Failure?)
    ensures access.Success? && query.Success? && ContentSelect(rt, s, field.subfields).Failure? ==>
              r == Failure(ContentSelect(rt, s, field.subfields).error)
    ensures r.Success? ==> access.Success? && query.Success? && ContentSelect(rt, s, field.subfields).Success?
    ensures r.Success? ==> r.value.filter == Conj(query.value, access.value)
    ensures r.Success? ==> r.value.table == s.tables[s.entityTypes[rt.typeId].tableId]
    ensures r.Success? ==> r.value.selection == Json(ContentSelect(rt, s, field.subfields).value, One)
    ensures r.Success? ==> r.value.orderBy.None? && r.value.offset.None? && r.value.limit.None?
  {
    var accessPredicate :- access;
    var queryPredicate :- query;
    var combined := Conj(queryPredicate, accessPredicate);
    var table := s.tables[s.entityTypes[rt.typeId].tableId];
    var content :- ContentSelect(rt, s, field.subfields);
    Success(AbstractSelect(table, Json(content, One), combined, None, None, None))
  }
}
