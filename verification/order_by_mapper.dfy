/** Mapping a GraphQL `orderBy` argument onto a flat list of (column path,
    direction) pairs, driven by the order-by parameter types of the schema. */
module OrderByMapper {
  import opened Wrappers
  import G = Graphql
  import opened Predicates
  import opened ExecutionErrors

  datatype Ordering = Asc | Desc

  datatype OrderByParameter = OrderByParameter(name: string, typeName: string, typeId: nat, link: ColumnIdPathLink)

  datatype OrderByParameterTypeKind = Primitive | Composite(parameters: seq<OrderByParameter>)

  datatype OrderByParameterType = OrderByParameterType(name: string, kind: OrderByParameterTypeKind)

  type OrderBy = seq<(ColumnPath, Ordering)>

  type Outcome = Result<OrderBy, ExecutionError>

  /** The type name that marks a leaf parameter (`{field: ASC}`). */
  const LeafTypeName: string := "Ordering"

  // ---------------------------------------------------------------------------
  // Directions

  function StrOrdering(token: string): (r: Result<Ordering, ExecutionError>)
    ensures r == Success(Asc) <==> token == "ASC"
    ensures r == Success(Desc) <==> token == "DESC"
    ensures r.Failure? <==> token != "ASC" && token != "DESC"
    ensures r.Failure? ==> r.error == Generic("Cannot match " + token + " as valid ordering")
  {
    if token == "ASC" then Success(Asc)
    else if token == "DESC" then Success(Desc)
    else Failure(Generic("Cannot match " + token + " as valid ordering"))
  }

  /** An enum or a string holds the direction token; any other value is an error. */
  function ArgumentOrdering(arg: G.Value): (r: Result<Ordering, ExecutionError>)
    ensures arg.Enum? ==> r == StrOrdering(arg.name)
    ensures arg.String? ==> r == StrOrdering(arg.s)
    ensures !arg.Enum? && !arg.String? ==> r == Failure(Generic("Unable to process ordering argument"))
  {
    match arg
    case Enum(token) => StrOrdering(token)
    case String(token) => StrOrdering(token)
    case _ => Failure(Generic("Unable to process ordering argument"))
  }

  // ---------------------------------------------------------------------------
  // Flattening the per-entry results

  function Concat(parts: seq<OrderBy>): OrderBy {
    if parts == [] then [] else parts[0] + Concat(parts[1..])
  }

  /** All results succeed and their lists are concatenated, or the first failure is the result. */
  function Flatten(rs: seq<Outcome>): (r: Outcome)
    ensures r.Failure? <==> exists i :: 0 <= i < |rs| && rs[i].Failure?
    ensures r.Failure? ==> exists i :: 0 <= i < |rs| && rs[i] == r && forall j :: 0 <= j < i ==> rs[j].Success?
    ensures r.Success? ==> r.value == Concat(seq(|rs|, i requires 0 <= i < |rs| => rs[i].value))
  {
    if rs == [] then Success([])
    else if rs[0].Failure? then rs[0]
    else
      var rest := Flatten(rs[1..]);
      if rest.Failure? then
        assert forall i :: 0 <= i < |rs| - 1 ==> rs[1..][i] == rs[i + 1];
        rest
      else
        assert seq(|rs| - 1, i requires 0 <= i < |rs| - 1 => rs[1..][i].value)
            == seq(|rs|, i requires 0 <= i < |rs| => rs[i].value)[1..];
        Success(rs[0].value + rest.value)
  }

  // ---------------------------------------------------------------------------
  // The mapping

  /** Every parameter of the schema refers to a known type. */
  predicate WellFormed(types: seq<OrderByParameterType>) {
    forall t :: 0 <= t < |types| && types[t].kind.Composite? ==>
      forall i :: 0 <= i < |types[t].kind.parameters| ==> types[t].kind.parameters[i].typeId < |types|
  }

  /** The first parameter of a composite type called `name`. */
  function FindParameter(typ: OrderByParameterType, name: string): (r: Result<OrderByParameter, ExecutionError>)
    ensures typ.kind.Primitive? ==> r == Failure(Validation("Invalid primitive order by parameter"))
    ensures typ.kind.Composite? && r.Success? ==>
              exists i :: 0 <= i < |typ.kind.parameters| && typ.kind.parameters[i] == r.value && r.value.name == name &&
                          forall j :: 0 <= j < i ==> typ.kind.parameters[j].name != name
    ensures typ.kind.Composite? && r.Failure? ==>
              r.error == Validation("Invalid order by parameter " + name) &&
              forall i :: 0 <= i < |typ.kind.parameters| ==> typ.kind.parameters[i].name != name
  {
    match typ.kind
    case Primitive => Failure(Validation("Invalid primitive order by parameter"))
    case Composite(ps) => FindIn(ps, name, 0)
  }

  function FindIn(ps: seq<OrderByParameter>, name: string, from: nat): (r: Result<OrderByParameter, ExecutionError>)
    requires from <= |ps|
    ensures r.Success? ==> exists i :: from <= i < |ps| && ps[i] == r.value && r.value.name == name &&
                                       forall j :: from <= j < i ==> ps[j].name != name
    ensures r.Failure? ==> r.error == Validation("Invalid order by parameter " + name) &&
                           forall i :: from <= i < |ps| ==> ps[i].name != name
    decreases |ps| - from
  {
    if from == |ps| then Failure(Validation("Invalid order by parameter " + name))
    else if ps[from].name == name then Success(ps[from])
    else FindIn(ps, name, from + 1)
  }

  /** Every argument the mapping treats as an order-by argument is an object
      or a list; anything else is a crash of the source. */
  predicate Shaped(types: seq<OrderByParameterType>, param: OrderByParameter, arg: G.Value)
    requires WellFormed(types) && param.typeId < |types|
    decreases arg, 1
  {
    match arg
    case Object(fs) => forall i :: 0 <= i < |fs| ==> EntryShaped(types, types[param.typeId], fs[i].0, fs[i].1)
    case List(es) => forall i :: 0 <= i < |es| ==> Shaped(types, param, es[i])
    case _ => false
  }

  predicate EntryShaped(types: seq<OrderByParameterType>, typ: OrderByParameterType, name: string, value: G.Value)
    requires WellFormed(types) && typ in types
    decreases value, 2
  {
    match FindParameter(typ, name)
    case Failure(_) => true
    case Success(p) => p.typeName == LeafTypeName || Shaped(types, p, value)
  }

  /** Every pair's path is physical and strictly extends `parent`. */
  predicate Extends(ob: OrderBy, parent: ColumnIdPath) {
    forall k :: 0 <= k < |ob| ==>
      ob[k].0.Physical? && |ob[k].0.path| > |parent| && ob[k].0.path[..|parent|] == parent
  }

  lemma ExtendsAppend(a: OrderBy, b: OrderBy, parent: ColumnIdPath)
    requires Extends(a, parent) && Extends(b, parent)
    ensures Extends(a + b, parent)
  {
    forall k | 0 <= k < |a + b|
      ensures (a + b)[k].0.Physical? && |(a + b)[k].0.path| > |parent| && (a + b)[k].0.path[..|parent|] == parent
    {
      if k < |a| { assert (a + b)[k] == a[k]; } else { assert (a + b)[k] == b[k - |a|]; }
    }
  }

  lemma ExtendsLonger(ob: OrderBy, parent: ColumnIdPath, link: ColumnIdPathLink)
    requires Extends(ob, parent + [link])
    ensures Extends(ob, parent)
  {
    forall k | 0 <= k < |ob| ensures ob[k].0.path[..|parent|] == parent {
      assert ob[k].0.path[..|parent|] == ob[k].0.path[..|parent| + 1][..|parent|];
    }
  }

  /** Maps an order-by argument below the column path `parent`; every path of
      a successful mapping is a physical path strictly below `parent`. */
  function MapToOrderBy(types: seq<OrderByParameterType>, param: OrderByParameter, arg: G.Value, parent: ColumnIdPath): (r: Outcome)
    requires WellFormed(types) && param.typeId < |types|
    requires Shaped(types, param, arg)
    ensures r.Success? ==> Extends(r.value, parent)
    decreases arg, 2, 0
  {
    match arg
    case Object(fs) => MapEntries(types, types[param.typeId], arg, parent, 0)
    case List(es) => MapElements(types, param, arg, parent, 0)
  }

  /** The entries of an object argument from index `i` on, mapped in entry order. */
  function MapEntries(types: seq<OrderByParameterType>, typ: OrderByParameterType, arg: G.Value, parent: ColumnIdPath, i: nat): (r: Outcome)
    requires WellFormed(types) && typ in types
    requires arg.Object? && i <= |arg.fields|
    requires forall k :: 0 <= k < |arg.fields| ==> EntryShaped(types, typ, arg.fields[k].0, arg.fields[k].1)
    ensures r.Success? ==> Extends(r.value, parent)
    ensures r.Failure? ==> exists k :: i <= k < |arg.fields| && OrderByPair(types, typ, arg.fields[k].0, arg.fields[k].1, parent) == r
    decreases arg, 1, |arg.fields| - i
  {
    if i == |arg.fields| then Success([])
    else
      var head := OrderByPair(types, typ, arg.fields[i].0, arg.fields[i].1, parent);
      if head.Failure? then head
      else
        var rest := MapEntries(types, typ, arg, parent, i + 1);
        if rest.Failure? then rest
        else ExtendsAppend(head.value, rest.value, parent); Success(head.value + rest.value)
  }

  /** The elements of a list argument from index `i` on, each mapped with the same parameter. */
  function MapElements(types: seq<OrderByParameterType>, param: OrderByParameter, arg: G.Value, parent: ColumnIdPath, i: nat): (r: Outcome)
    requires WellFormed(types) && param.typeId < |types|
    requires arg.List? && i <= |arg.elems|
    requires forall k :: 0 <= k < |arg.elems| ==> Shaped(types, param, arg.elems[k])
    ensures r.Success? ==> Extends(r.value, parent)
    ensures r.Failure? ==> exists k :: i <= k < |arg.elems| && MapToOrderBy(types, param, arg.elems[k], parent) == r
    decreases arg, 1, |arg.elems| - i
  {
    if i == |arg.elems| then Success([])
    else
      var head := MapToOrderBy(types, param, arg.elems[i], parent);
      if head.Failure? then head
      else
        var rest := MapElements(types, param, arg, parent, i + 1);
        if rest.Failure? then rest
        else ExtendsAppend(head.value, rest.value, parent); Success(head.value + rest.value)
  }

  /** One entry `name: value` of an object argument. */
  function OrderByPair(types: seq<OrderByParameterType>, typ: OrderByParameterType, name: string, value: G.Value, parent: ColumnIdPath): (r: Outcome)
    requires WellFormed(types) && typ in types
    requires EntryShaped(types, typ, name, value)
    ensures r.Success? ==> Extends(r.value, parent)
    decreases value, 3, 0
  {
    match FindParameter(typ, name)
    case Failure(e) => Failure(e)
    case Success(p) =>
      if p.typeName == LeafTypeName then
        match ArgumentOrdering(value)
        case Success(o) =>
          assert (parent + [p.link])[..|parent|] == parent;
          Success([(Physical(parent + [p.link]), o)])
        case Failure(e) => Failure(e)
      else
        assert p.typeId < |types| by { ParameterTypeKnown(types, typ, name); }
        var nested := MapToOrderBy(types, p, value, parent + [p.link]);
        if nested.Success? then ExtendsLonger(nested.value, parent, p.link); nested else nested
  }

  lemma ParameterTypeKnown(types: seq<OrderByParameterType>, typ: OrderByParameterType, name: string)
    requires WellFormed(types) && typ in types
    requires FindParameter(typ, name).Success?
    ensures FindParameter(typ, name).value.typeId < |types|
  {
    var p := FindParameter(typ, name).value;
    var i :| 0 <= i < |typ.kind.parameters| && typ.kind.parameters[i] == p && p.name == name;
    var t :| 0 <= t < |types| && types[t] == typ;
    assert types[t].kind.parameters[i] == p;
  }
}
