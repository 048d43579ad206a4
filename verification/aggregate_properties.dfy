/** What the aggregate query resolver promises about the select it builds and
    about each field it maps. */
module AggregateProperties {
  import opened Wrappers
  import opened Columns
  import opened Predicates
  import opened ExecutionErrors
  import opened AggregateQuery

  /** A row passes the built select's filter exactly when it passes both the
      request's filter and the access rule: access control is never dropped. */
  lemma AccessAlwaysEnforced(rt: ReturnType, s: Subsystem, field: ValidatedField,
                             access: Result<AbstractPredicate, ExecutionError>,
                             query: Result<AbstractPredicate, ExecutionError>, db: Database)
    requires rt.typeId < |s.entityTypes| && s.entityTypes[rt.typeId].tableId < |s.tables|
    requires forall i :: 0 <= i < |field.subfields| ==> Mappable(rt, s, field.subfields[i])
    requires ResolveSelect(rt, s, field, access, query).Success?
    ensures Eval(ResolveSelect(rt, s, field, access, query).value.filter, db) <==>
              Eval(query.value, db) && Eval(access.value, db)
  {
    ConjMeaning(query.value, access.value, db);
  }

  /** A denied access rule (`False`) makes the select's filter reject every row. */
  lemma DeniedAccessSelectsNothing(rt: ReturnType, s: Subsystem, field: ValidatedField,
                                   query: Result<AbstractPredicate, ExecutionError>, db: Database)
    requires rt.typeId < |s.entityTypes| && s.entityTypes[rt.typeId].tableId < |s.tables|
    requires forall i :: 0 <= i < |field.subfields| ==> Mappable(rt, s, field.subfields[i])
    requires ResolveSelect(rt, s, field, Success(False), query).Success?
    ensures ResolveSelect(rt, s, field, Success(False), query).value.filter == False
    ensures !Eval(ResolveSelect(rt, s, field, Success(False), query).value.filter, db)
  {
  }

  /** `__typename` maps to the return type's name, whatever the schema holds:
      no entity is looked up. */
  lemma TypenameIsConstant(rt: ReturnType, s: Subsystem, f: ValidatedField)
    requires f.name == TypenameField
    ensures Mappable(rt, s, f)
    ensures MapField(rt, s, f) == Success(ColumnSelection(OutputName(f), Constant(rt.typeName)))
  {
  }

  /** A primary-key or scalar field maps to an object with one aggregate
      function projection per subfield, in subfield order, keyed by the
      subfield's output name, each over the field's column. */
  lemma ScalarFieldAggregates(rt: ReturnType, s: Subsystem, f: ValidatedField)
    requires f.name != TypenameField && Mappable(rt, s, f)
    requires FieldNamed(s.entityTypes[rt.typeId], f.name, 0).relation.Pk? ||
             FieldNamed(s.entityTypes[rt.typeId], f.name, 0).relation.Scalar?
    ensures MapField(rt, s, f).Success?
    ensures var c := FieldNamed(s.entityTypes[rt.typeId], f.name, 0).relation.column;
            var sel := MapField(rt, s, f).value;
            sel.alias == OutputName(f) && sel.column.Object? && |sel.column.elements| == |f.subfields| &&
            forall i :: 0 <= i < |f.subfields| ==>
              sel.column.elements[i] == (OutputName(f.subfields[i]), Function(f.subfields[i].name, c))
  {
  }

  /** Aggregating over a relation to other entities is rejected. */
  lemma CompositeFieldRejected(rt: ReturnType, s: Subsystem, f: ValidatedField)
    requires f.name != TypenameField && Mappable(rt, s, f)
    requires FieldNamed(s.entityTypes[rt.typeId], f.name, 0).relation.ManyToOne? ||
             FieldNamed(s.entityTypes[rt.typeId], f.name, 0).relation.OneToMany?
    ensures MapField(rt, s, f) == Failure(Generic("Invalid nested aggregation of a composite type"))
  {
  }

  /** Every successful mapping is named by its field's output name. */
  lemma ContentNamedByOutputNames(rt: ReturnType, s: Subsystem, fields: seq<ValidatedField>)
    requires forall i :: 0 <= i < |fields| ==> Mappable(rt, s, fields[i])
    requires ContentSelect(rt, s, fields).Success?
    ensures forall i :: 0 <= i < |fields| ==> ContentSelect(rt, s, fields).value[i].alias == OutputName(fields[i])
  {
    var content := ContentSelect(rt, s, fields).value;
    forall i | 0 <= i < |fields| ensures content[i].alias == OutputName(fields[i]) {
      assert MapField(rt, s, fields[i]) == Success(content[i]);
    }
  }
}
