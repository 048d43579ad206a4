/** What the order-by mapping produces: the flattening of per-entry and
    per-element results, the leaf pairs, the errors, and the paths. */
module OrderByProperties {
  import opened Wrappers
  import G = Graphql
  import opened Predicates
  import opened ExecutionErrors
  import opened OrderByMapper

  /** The per-entry results of an object argument, from entry `i` on. */
  function EntryResults(types: seq<OrderByParameterType>, typ: OrderByParameterType, arg: G.Value, parent: ColumnIdPath, i: nat): (rs: seq<Outcome>)
    requires WellFormed(types) && typ in types
    requires arg.Object? && i <= |arg.fields|
    requires forall k :: 0 <= k < |arg.fields| ==> EntryShaped(types, typ, arg.fields[k].0, arg.fields[k].1)
    ensures |rs| == |arg.fields| - i
    ensures forall k :: 0 <= k < |rs| ==> rs[k] == OrderByPair(types, typ, arg.fields[i + k].0, arg.fields[i + k].1, parent)
  {
    seq(|arg.fields| - i, k requires 0 <= k < |arg.fields| - i =>
      OrderByPair(types, typ, arg.fields[i + k].0, arg.fields[i + k].1, parent))
  }

  /** The per-element results of a list argument, from element `i` on. */
  function ElementResults(types: seq<OrderByParameterType>, param: OrderByParameter, arg: G.Value, parent: ColumnIdPath, i: nat): (rs: seq<Outcome>)
    requires WellFormed(types) && param.typeId < |types|
    requires arg.List? && i <= |arg.elems|
    requires forall k :: 0 <= k < |arg.elems| ==> Shaped(types, param, arg.elems[k])
    ensures |rs| == |arg.elems| - i
    ensures forall k :: 0 <= k < |rs| ==> rs[k] == MapToOrderBy(types, param, arg.elems[i + k], parent)
  {
    seq(|arg.elems| - i, k requires 0 <= k < |arg.elems| - i => MapToOrderBy(types, param, arg.elems[i + k], parent))
  }

  lemma {:induction false} MapEntriesIsFlatten(types: seq<OrderByParameterType>, typ: OrderByParameterType, arg: G.Value, parent: ColumnIdPath, i: nat)
    requires WellFormed(types) && typ in types
    requires arg.Object? && i <= |arg.fields|
    requires forall k :: 0 <= k < |arg.fields| ==> EntryShaped(types, typ, arg.fields[k].0, arg.fields[k].1)
    ensures MapEntries(types, typ, arg, parent, i) == Flatten(EntryResults(types, typ, arg, parent, i))
    decreases |arg.fields| - i
  {
    if i < |arg.fields| {
      MapEntriesIsFlatten(types, typ, arg, parent, i + 1);
      EntryResultsStep(types, typ, arg, parent, i);
      MapEntriesStep(types, typ, arg, parent, i);
      FlattenStep(EntryResults(types, typ, arg, parent, i), OrderByPair(types, typ, arg.fields[i].0, arg.fields[i].1, parent),
                  MapEntries(types, typ, arg, parent, i + 1), MapEntries(types, typ, arg, parent, i));
    }
  }

  lemma EntryResultsStep(types: seq<OrderByParameterType>, typ: OrderByParameterType, arg: G.Value, parent: ColumnIdPath, i: nat)
    requires WellFormed(types) && typ in types
    requires arg.Object? && i < |arg.fields|
    requires forall k :: 0 <= k < |arg.fields| ==> EntryShaped(types, typ, arg.fields[k].0, arg.fields[k].1)
    ensures EntryResults(types, typ, arg, parent, i) != []
    ensures EntryResults(types, typ, arg, parent, i)[0] == OrderByPair(types, typ, arg.fields[i].0, arg.fields[i].1, parent)
    ensures EntryResults(types, typ, arg, parent, i)[1..] == EntryResults(types, typ, arg, parent, i + 1)
  {
    assert EntryResults(types, typ, arg, parent, i)[1..] == EntryResults(types, typ, arg, parent, i + 1);
  }

  lemma MapEntriesStep(types: seq<OrderByParameterType>, typ: OrderByParameterType, arg: G.Value, parent: ColumnIdPath, i: nat)
    requires WellFormed(types) && typ in types
    requires arg.Object? && i < |arg.fields|
    requires forall k :: 0 <= k < |arg.fields| ==> EntryShaped(types, typ, arg.fields[k].0, arg.fields[k].1)
    ensures var head := OrderByPair(types, typ, arg.fields[i].0, arg.fields[i].1, parent);
            var tail := MapEntries(types, typ, arg, parent, i + 1);
            MapEntries(types, typ, arg, parent, i) ==
              if head.Failure? then head else if tail.Failure? then tail else Success(head.value + tail.value)
  {
  }

  lemma {:induction false} MapElementsIsFlatten(types: seq<OrderByParameterType>, param: OrderByParameter, arg: G.Value, parent: ColumnIdPath, i: nat)
    requires WellFormed(types) && param.typeId < |types|
    requires arg.List? && i <= |arg.elems|
    requires forall k :: 0 <= k < |arg.elems| ==> Shaped(types, param, arg.elems[k])
    ensures MapElements(types, param, arg, parent, i) == Flatten(ElementResults(types, param, arg, parent, i))
    decreases |arg.elems| - i
  {
    if i < |arg.elems| {
      MapElementsIsFlatten(types, param, arg, parent, i + 1);
      ElementResultsStep(types, param, arg, parent, i);
      MapElementsStep(types, param, arg, parent, i);
      FlattenStep(ElementResults(types, param, arg, parent, i), MapToOrderBy(types, param, arg.elems[i], parent),
                  MapElements(types, param, arg, parent, i + 1), MapElements(types, param, arg, parent, i));
    }
  }

  lemma ElementResultsStep(types: seq<OrderByParameterType>, param: OrderByParameter, arg: G.Value, parent: ColumnIdPath, i: nat)
    requires WellFormed(types) && param.typeId < |types|
    requires arg.List? && i < |arg.elems|
    requires forall k :: 0 <= k < |arg.elems| ==> Shaped(types, param, arg.elems[k])
    ensures ElementResults(types, param, arg, parent, i) != []
    ensures ElementResults(types, param, arg, parent, i)[0] == MapToOrderBy(types, param, arg.elems[i], parent)
    ensures ElementResults(types, param, arg, parent, i)[1..] == ElementResults(types, param, arg, parent, i + 1)
  {
    assert ElementResults(types, param, arg, parent, i)[1..] == ElementResults(types, param, arg, parent, i + 1);
  }

  lemma MapElementsStep(types: seq<OrderByParameterType>, param: OrderByParameter, arg: G.Value, parent: ColumnIdPath, i: nat)
    requires WellFormed(types) && param.typeId < |types|
    requires arg.List? && i < |arg.elems|
    requires forall k :: 0 <= k < |arg.elems| ==> Shaped(types, param, arg.elems[k])
    ensures var head := MapToOrderBy(types, param, arg.elems[i], parent);
            var tail := MapElements(types, param, arg, parent, i + 1);
            MapElements(types, param, arg, parent, i) ==
              if head.Failure? then head else if tail.Failure? then tail else Success(head.value + tail.value)
  {
  }

  /** A result built from a head and the flattening of the rest, the way the
      mapping combines them, is the flattening of the whole. */
  lemma FlattenStep(rs: seq<Outcome>, head: Outcome, tail: Outcome, whole: Outcome)
    requires rs != [] && rs[0] == head && Flatten(rs[1..]) == tail
    requires whole == if head.Failure? then head else if tail.Failure? then tail else Success(head.value + tail.value)
    ensures whole == Flatten(rs)
  {
    FlattenUnfolds(rs);
  }

  /** One step of the flattening: the head's failure, else the tail's failure, else the concatenation. */
  lemma FlattenUnfolds(rs: seq<Outcome>)
    requires rs != []
    ensures Flatten(rs) == if rs[0].Failure? then rs[0]
                           else if Flatten(rs[1..]).Failure? then Flatten(rs[1..])
                           else Success(rs[0].value + Flatten(rs[1..]).value)
  {
  }

  /** An object argument maps to the concatenation of its entries' mappings in
      entry order; if any entry fails, the first failure is the result and no
      partial list is returned. */
  lemma ObjectFlattensEntries(types: seq<OrderByParameterType>, param: OrderByParameter, arg: G.Value, parent: ColumnIdPath)
    requires WellFormed(types) && param.typeId < |types|
    requires arg.Object? && Shaped(types, param, arg)
    ensures MapToOrderBy(types, param, arg, parent) == Flatten(EntryResults(types, types[param.typeId], arg, parent, 0))
    ensures MapToOrderBy(types, param, arg, parent).Failure? <==>
              exists k :: 0 <= k < |arg.fields| &&
                OrderByPair(types, types[param.typeId], arg.fields[k].0, arg.fields[k].1, parent).Failure?
  {
    MapEntriesIsFlatten(types, types[param.typeId], arg, parent, 0);
    var rs := EntryResults(types, types[param.typeId], arg, parent, 0);
    if MapToOrderBy(types, param, arg, parent).Failure? {
      var k :| 0 <= k < |rs| && rs[k].Failure?;
      assert OrderByPair(types, types[param.typeId], arg.fields[k].0, arg.fields[k].1, parent).Failure?;
    }
    if exists k :: 0 <= k < |arg.fields| && OrderByPair(types, types[param.typeId], arg.fields[k].0, arg.fields[k].1, parent).Failure? {
      var k :| 0 <= k < |arg.fields| && OrderByPair(types, types[param.typeId], arg.fields[k].0, arg.fields[k].1, parent).Failure?;
      assert rs[k].Failure?;
    }
  }

  /** A list argument maps to the concatenation of its elements' mappings in
      list order, each with the same parameter and parent path. */
  lemma ListFlattensElements(types: seq<OrderByParameterType>, param: OrderByParameter, arg: G.Value, parent: ColumnIdPath)
    requires WellFormed(types) && param.typeId < |types|
    requires arg.List? && Shaped(types, param, arg)
    ensures MapToOrderBy(types, param, arg, parent) == Flatten(ElementResults(types, param, arg, parent, 0))
    ensures MapToOrderBy(types, param, arg, parent).Failure? <==>
              exists k :: 0 <= k < |arg.elems| && MapToOrderBy(types, param, arg.elems[k], parent).Failure?
  {
    MapElementsIsFlatten(types, param, arg, parent, 0);
    var rs := ElementResults(types, param, arg, parent, 0);
    if MapToOrderBy(types, param, arg, parent).Failure? {
      var k :| 0 <= k < |rs| && rs[k].Failure?;
      assert MapToOrderBy(types, param, arg.elems[k], parent).Failure?;
    }
    if exists k :: 0 <= k < |arg.elems| && MapToOrderBy(types, param, arg.elems[k], parent).Failure? {
      var k :| 0 <= k < |arg.elems| && MapToOrderBy(types, param, arg.elems[k], parent).Failure?;
      assert rs[k].Failure?;
    }
  }

  /** An entry whose name the type does not declare, or whose type is
      primitive, is a validation error. */
  lemma UnknownEntryIsRejected(types: seq<OrderByParameterType>, typ: OrderByParameterType, name: string, value: G.Value, parent: ColumnIdPath)
    requires WellFormed(types) && typ in types
    requires typ.kind.Primitive? || forall i :: 0 <= i < |typ.kind.parameters| ==> typ.kind.parameters[i].name != name
    ensures EntryShaped(types, typ, name, value)
    ensures typ.kind.Primitive? ==>
              OrderByPair(types, typ, name, value, parent) == Failure(Validation("Invalid primitive order by parameter"))
    ensures typ.kind.Composite? ==>
              OrderByPair(types, typ, name, value, parent) == Failure(Validation("Invalid order by parameter " + name))
  {
  }

  /** A leaf parameter yields exactly one pair: the parent path extended by the
      parameter's link, with the entry's direction. */
  lemma LeafYieldsOnePair(types: seq<OrderByParameterType>, typ: OrderByParameterType, name: string, value: G.Value, parent: ColumnIdPath)
    requires WellFormed(types) && typ in types
    requires FindParameter(typ, name).Success? && FindParameter(typ, name).value.typeName == LeafTypeName
    ensures EntryShaped(types, typ, name, value)
    ensures var p := FindParameter(typ, name).value;
            match ArgumentOrdering(value)
            case Success(o) => OrderByPair(types, typ, name, value, parent) == Success([(Physical(parent + [p.link]), o)])
            case Failure(e) => OrderByPair(types, typ, name, value, parent) == Failure(e)
  {
  }

  /** A non-leaf parameter maps its value with the parent path extended by its link. */
  lemma NonLeafRecurses(types: seq<OrderByParameterType>, typ: OrderByParameterType, name: string, value: G.Value, parent: ColumnIdPath)
    requires WellFormed(types) && typ in types
    requires EntryShaped(types, typ, name, value)
    requires FindParameter(typ, name).Success? && FindParameter(typ, name).value.typeName != LeafTypeName
    ensures var p := FindParameter(typ, name).value;
            p.typeId < |types| && Shaped(types, p, value) &&
            OrderByPair(types, typ, name, value, parent) == MapToOrderBy(types, p, value, parent + [p.link])
  {
    ParameterTypeKnown(types, typ, name);
  }

  // ---------------------------------------------------------------------------
  // A concert ordered by title, then by its venue's name

  const TitleLink := ColumnIdPathLink(ColumnId(0, 1), None)
  const VenueLink := ColumnIdPathLink(ColumnId(0, 2), Some(ColumnId(1, 0)))
  const VenueNameLink := ColumnIdPathLink(ColumnId(1, 1), None)

  const TitleParam := OrderByParameter("title", LeafTypeName, 2, TitleLink)
  const VenueParam := OrderByParameter("venue", "VenueOrdering", 1, VenueLink)
  const NameParam := OrderByParameter("name", LeafTypeName, 2, VenueNameLink)

  const ConcertTypes: seq<OrderByParameterType> := [
    OrderByParameterType("ConcertOrdering", Composite([TitleParam, VenueParam])),
    OrderByParameterType("VenueOrdering", Composite([NameParam])),
    OrderByParameterType(LeafTypeName, Primitive)]

  const OrderByParam := OrderByParameter("orderBy", "ConcertOrdering", 0, TitleLink)

  const VenueArg := G.Object([("name", G.Enum("DESC"))])

  /** The nested `{name: DESC}` below the venue link orders by the venue's
      name column, reached through that link. */
  lemma VenueNameScenario()
    ensures WellFormed(ConcertTypes)
    ensures Shaped(ConcertTypes, VenueParam, VenueArg) &&
            MapToOrderBy(ConcertTypes, VenueParam, VenueArg, [VenueLink]) ==
              Success([(Physical([VenueLink, VenueNameLink]), Desc)])
  {
    var leaf := [(Physical([VenueLink, VenueNameLink]), Desc)];
    assert FindParameter(ConcertTypes[1], "name") == Success(NameParam);
    assert [VenueLink] + [NameParam.link] == [VenueLink, VenueNameLink];
    assert ArgumentOrdering(G.Enum("DESC")) == Success(Desc);
    LeafYieldsOnePair(ConcertTypes, ConcertTypes[1], "name", G.Enum("DESC"), [VenueLink]);
    assert OrderByPair(ConcertTypes, ConcertTypes[1], "name", G.Enum("DESC"), [VenueLink]) == Success(leaf);
    assert MapEntries(ConcertTypes, ConcertTypes[1], VenueArg, [VenueLink], 1) == Success([]);
    assert leaf + [] == leaf;
    assert MapEntries(ConcertTypes, ConcertTypes[1], VenueArg, [VenueLink], 0) == Success(leaf);
  }

  /** `{title: ASC, venue: {name: DESC}}` orders by the title column, then by
      the venue's name column reached through the venue link. */
  lemma NestedOrderingScenario()
    ensures WellFormed(ConcertTypes)
    ensures var arg := G.Object([("title", G.Enum("ASC")), ("venue", VenueArg)]);
            Shaped(ConcertTypes, OrderByParam, arg) &&
            MapToOrderBy(ConcertTypes, OrderByParam, arg, []) ==
              Success([(Physical([TitleLink]), Asc), (Physical([VenueLink, VenueNameLink]), Desc)])
  {
    var arg := G.Object([("title", G.Enum("ASC")), ("venue", VenueArg)]);
    var leaf := [(Physical([VenueLink, VenueNameLink]), Desc)];
    VenueNameScenario();
    assert FindIn([TitleParam, VenueParam], "venue", 1) == Success(VenueParam);
    assert FindParameter(ConcertTypes[0], "venue") == Success(VenueParam);
    assert FindParameter(ConcertTypes[0], "title") == Success(TitleParam);
    assert [] + [VenueParam.link] == [VenueLink];
    NonLeafRecurses(ConcertTypes, ConcertTypes[0], "venue", VenueArg, []);
    assert OrderByPair(ConcertTypes, ConcertTypes[0], "venue", VenueArg, []) == Success(leaf);
    assert MapEntries(ConcertTypes, ConcertTypes[0], arg, [], 2) == Success([]);
    assert leaf + [] == leaf;
    assert MapEntries(ConcertTypes, ConcertTypes[0], arg, [], 1) == Success(leaf);
    assert [] + [TitleParam.link] == [TitleLink];
    assert ArgumentOrdering(G.Enum("ASC")) == Success(Asc);
    LeafYieldsOnePair(ConcertTypes, ConcertTypes[0], "title", G.Enum("ASC"), []);
    assert OrderByPair(ConcertTypes, ConcertTypes[0], "title", G.Enum("ASC"), []) == Success([(Physical([TitleLink]), Asc)]);
    assert [(Physical([TitleLink]), Asc)] + leaf == [(Physical([TitleLink]), Asc), (Physical([VenueLink, VenueNameLink]), Desc)];
    assert MapEntries(ConcertTypes, ConcertTypes[0], arg, [], 0) ==
           Success([(Physical([TitleLink]), Asc), (Physical([VenueLink, VenueNameLink]), Desc)]);
  }

  /** A direction token other than `ASC` or `DESC` fails the whole mapping. */
  lemma BadTokenScenario()
    ensures var arg := G.Object([("title", G.String("UP"))]);
            Shaped(ConcertTypes, OrderByParam, arg) &&
            MapToOrderBy(ConcertTypes, OrderByParam, arg, []) == Failure(Generic("Cannot match UP as valid ordering"))
  {
    var arg := G.Object([("title", G.String("UP"))]);
    assert FindParameter(ConcertTypes[0], "title") == Success(ConcertTypes[0].kind.parameters[0]);
    assert "Cannot match " + "UP" + " as valid ordering" == "Cannot match UP as valid ordering";
    assert ArgumentOrdering(G.String("UP")) == Failure(Generic("Cannot match UP as valid ordering"));
    LeafYieldsOnePair(ConcertTypes, ConcertTypes[0], "title", G.String("UP"), []);
    assert OrderByPair(ConcertTypes, ConcertTypes[0], "title", G.String("UP"), []) ==
           Failure(Generic("Cannot match UP as valid ordering"));
    assert MapEntries(ConcertTypes, ConcertTypes[0], arg, [], 0) == Failure(Generic("Cannot match UP as valid ordering"));
  }
}
