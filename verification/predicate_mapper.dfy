/** Mapping a GraphQL filter argument onto a predicate, driven by the filter's
    parameter type: an implicit equality, a set of named operators, or a
    composite of further filter parameters. */
module PredicateMapper {
  import opened Wrappers
  import G = Graphql
  import opened Columns
  import opened Predicates

  datatype PredicateParameter = PredicateParameter(name: string, typeId: nat, columnId: Option<PhysicalColumn>)

  datatype PredicateParameterTypeKind =
    | ImplicitEqual
    | Operator(parameters: seq<PredicateParameter>)
    | Composite(parameters: seq<PredicateParameter>)

  datatype PredicateParameterType = PredicateParameterType(name: string, kind: PredicateParameterTypeKind)

  /** The schema's filter types (indexed by type id) and the request's bound
      variables. */
  datatype OperationContext = OperationContext(types: seq<PredicateParameterType>, variables: map<string, G.Value>)

  type Filter = Predicate<Column>

  // ---------------------------------------------------------------------------
  // Argument values

  predicate VariableFree(v: G.Value) {
    match v
    case Variable(_) => false
    case List(es) => forall i :: 0 <= i < |es| ==> VariableFree(es[i])
    case Object(fs) => forall i :: 0 <= i < |fs| ==> VariableFree(fs[i].1)
    case _ => true
  }

  /** Every variable the value mentions has a binding. */
  predicate Bound(v: G.Value, variables: map<string, G.Value>) {
    match v
    case Variable(n) => n in variables
    case List(es) => forall i :: 0 <= i < |es| ==> Bound(es[i], variables)
    case Object(fs) => forall i :: 0 <= i < |fs| ==> Bound(fs[i].1, variables)
    case _ => true
  }

  /** The value with every bound variable replaced by its binding. */
  function Subst(v: G.Value, variables: map<string, G.Value>): G.Value {
    match v
    case Variable(n) => if n in variables then variables[n] else v
    case List(es) => G.List(seq(|es|, i requires 0 <= i < |es| => Subst(es[i], variables)))
    case Object(fs) => G.Object(seq(|fs|, i requires 0 <= i < |fs| => (fs[i].0, Subst(fs[i].1, variables))))
    case _ => v
  }

  lemma SubstVariableFree(v: G.Value, variables: map<string, G.Value>)
    requires VariableFree(v)
    ensures Subst(v, variables) == v
  {
    match v
    case List(es) =>
      forall i | 0 <= i < |es| ensures Subst(es[i], variables) == es[i] {
        SubstVariableFree(es[i], variables);
      }
      assert seq(|es|, i requires 0 <= i < |es| => Subst(es[i], variables)) == es;
    case Object(fs) =>
      forall i | 0 <= i < |fs| ensures (fs[i].0, Subst(fs[i].1, variables)) == fs[i] {
        SubstVariableFree(fs[i].1, variables);
      }
      assert seq(|fs|, i requires 0 <= i < |fs| => (fs[i].0, Subst(fs[i].1, variables))) == fs;
    case _ =>
  }

  /** The index of the first field called `name`. */
  function FieldIndex(fs: seq<(string, G.Value)>, name: string, from: nat): (k: Option<nat>)
    requires from <= |fs|
    ensures k.Some? ==> from <= k.value < |fs| && fs[k.value].0 == name
    ensures k.Some? ==> forall j :: from <= j < k.value ==> fs[j].0 != name
    ensures k.None? ==> forall j :: from <= j < |fs| ==> fs[j].0 != name
    decreases |fs| - from
  {
    if from == |fs| then None
    else if fs[from].0 == name then Some(from)
    else FieldIndex(fs, name, from + 1)
  }

  /** The argument's field called `name`, if the argument is an object that has one. */
  function GetArgumentField(v: G.Value, name: string): (r: Option<G.Value>)
    ensures r.Some? ==> v.Object? && exists k :: 0 <= k < |v.fields| && v.fields[k] == (name, r.value) &&
                                                 forall j :: 0 <= j < k ==> v.fields[j].0 != name
    ensures v.Object? && (exists k :: 0 <= k < |v.fields| && v.fields[k].0 == name) ==> r.Some?
  {
    if v.Object? then
      match FieldIndex(v.fields, name, 0)
      case Some(k) => Some(v.fields[k].1)
      case None => None
    else None
  }

  lemma FieldIsSmaller(v: G.Value, name: string, variables: map<string, G.Value>)
    requires GetArgumentField(v, name).Some?
    requires Bound(v, variables)
    ensures Subst(GetArgumentField(v, name).value, variables) < Subst(v, variables)
    ensures Bound(GetArgumentField(v, name).value, variables)
  {
    var x := GetArgumentField(v, name).value;
    var k :| 0 <= k < |v.fields| && v.fields[k] == (name, x);
    assert Subst(v, variables).fields[k] == (name, Subst(x, variables));
  }

  // ---------------------------------------------------------------------------
  // The mapping

  /** Every comparison compares a physical column (the key) with a literal. */
  predicate KeyedOnLiterals(p: Filter) {
    match p
    case True => true
    case False => true
    case Compare(_, l, r) => l.Physical? && r.Literal?
    case Named(_, l, r) => l.Physical? && r.Literal?
    case And(l, r) => KeyedOnLiterals(l) && KeyedOnLiterals(r)
    case Or(l, r) => KeyedOnLiterals(l) && KeyedOnLiterals(r)
    case Not(q) => KeyedOnLiterals(q)
  }

  /** Every comparison's key is the column `c`. */
  predicate KeyedOn(p: Filter, c: PhysicalColumn) {
    match p
    case True => true
    case False => true
    case Compare(_, l, _) => l == Column.Physical(c)
    case Named(_, l, _) => l == Column.Physical(c)
    case And(l, r) => KeyedOn(l, c) && KeyedOn(r, c)
    case Or(l, r) => KeyedOn(l, c) && KeyedOn(r, c)
    case Not(q) => KeyedOn(q, c)
  }

  predicate WellFormedParameter(types: seq<PredicateParameterType>, p: PredicateParameter) {
    p.typeId < |types| && (!types[p.typeId].kind.Composite? ==> p.columnId.Some?)
  }

  /** Every parameter a composite filter type lists is well formed, and bound
      variables hold constant values. */
  predicate WellFormed(ctx: OperationContext) {
    && (forall t :: 0 <= t < |ctx.types| && ctx.types[t].kind.Composite? ==>
          forall i :: 0 <= i < |ctx.types[t].kind.parameters| ==>
            WellFormedParameter(ctx.types, ctx.types[t].kind.parameters[i]))
    && (forall n :: n in ctx.variables ==> VariableFree(ctx.variables[n]))
  }

  function Resolve(v: G.Value, variables: map<string, G.Value>): (r: G.Value)
    requires Bound(v, variables)
    requires forall n :: n in variables ==> VariableFree(variables[n])
    ensures v.Variable? ==> r == variables[v.name]
    ensures !v.Variable? ==> r == v
    ensures !r.Variable?
    ensures Subst(r, variables) == Subst(v, variables)
    ensures Bound(r, variables)
  {
    if v.Variable? then
      SubstVariableFree(variables[v.name], variables);
      BoundVariableFree(variables[v.name], variables);
      variables[v.name]
    else v
  }

  lemma BoundVariableFree(v: G.Value, variables: map<string, G.Value>)
    requires VariableFree(v)
    ensures Bound(v, variables)
  {
    match v
    case List(es) =>
      forall i | 0 <= i < |es| ensures Bound(es[i], variables) {
        BoundVariableFree(es[i], variables);
      }
    case Object(fs) =>
      forall i | 0 <= i < |fs| ensures Bound(fs[i].1, variables) {
        BoundVariableFree(fs[i].1, variables);
      }
    case _ =>
  }

  /** The key operand is the parameter's column, the value operand the literal
      of the argument. */
  function Operands(param: PredicateParameter, opValue: G.Value): (operands: (Column, Column))
    requires param.columnId.Some?
    ensures operands.0 == Column.Physical(param.columnId.value)
    ensures operands.1 == Column.Literal(opValue)
  {
    (Column.Physical(param.columnId.value), Column.Literal(opValue))
  }

  /** Maps `arg` for `param`; a variable argument is first replaced by its binding. */
  function MapToSql(ctx: OperationContext, param: PredicateParameter, arg: G.Value): (p: Filter)
    requires WellFormed(ctx) && WellFormedParameter(ctx.types, param)
    requires Bound(arg, ctx.variables)
    ensures KeyedOnLiterals(p)
    decreases Subst(arg, ctx.variables), 2, 0
  {
    MapResolved(ctx, param, Resolve(arg, ctx.variables))
  }

  /** Maps a non-variable argument by the kind of the parameter's type. */
  function MapResolved(ctx: OperationContext, param: PredicateParameter, arg: G.Value): (p: Filter)
    requires WellFormed(ctx) && WellFormedParameter(ctx.types, param)
    requires Bound(arg, ctx.variables) && !arg.Variable?
    ensures KeyedOnLiterals(p)
    ensures !ctx.types[param.typeId].kind.Composite? ==> KeyedOn(p, param.columnId.value)
    decreases Subst(arg, ctx.variables), 1, 0
  {
    match ctx.types[param.typeId].kind
    case ImplicitEqual =>
      var (key, value) := Operands(param, arg);
      Compare(Eq, key, value)
    case Operator(ops) => OperatorChain(param, ops, arg, |ops|)
    case Composite(subs) => CompositeChain(ctx, param, arg, |subs|)
  }

  /** The conjunct an operator field contributes: the named comparison when the
      argument supplies the field, `True` when it does not. */
  function OperatorConjunct(param: PredicateParameter, op: PredicateParameter, arg: G.Value): (p: Filter)
    requires param.columnId.Some?
    ensures GetArgumentField(arg, op.name).None? ==> p == True
    ensures GetArgumentField(arg, op.name).Some? ==>
              p == FromName(op.name, Column.Physical(param.columnId.value), Column.Literal(GetArgumentField(arg, op.name).value))
    ensures KeyedOnLiterals(p) && KeyedOn(p, param.columnId.value)
  {
    match GetArgumentField(arg, op.name)
    case Some(opValue) =>
      var (key, value) := Operands(param, opValue);
      FromName(op.name, key, value)
    case None => True
  }

  /** The fold over the first `n` operator parameters, seeded with `True`. */
  function OperatorChain(param: PredicateParameter, ops: seq<PredicateParameter>, arg: G.Value, n: nat): (p: Filter)
    requires param.columnId.Some?
    requires n <= |ops|
    ensures KeyedOnLiterals(p) && KeyedOn(p, param.columnId.value)
  {
    if n == 0 then True
    else And(OperatorChain(param, ops, arg, n - 1), OperatorConjunct(param, ops[n - 1], arg))
  }

  /** The conjunct a composite field contributes: the field's own mapping when
      the argument supplies it, `True` when it does not. */
  function CompositeConjunct(ctx: OperationContext, sub: PredicateParameter, arg: G.Value): (p: Filter)
    requires WellFormed(ctx) && WellFormedParameter(ctx.types, sub)
    requires Bound(arg, ctx.variables) && !arg.Variable?
    ensures GetArgumentField(arg, sub.name).None? ==> p == True
    ensures KeyedOnLiterals(p)
    decreases Subst(arg, ctx.variables), 0, 0
  {
    match GetArgumentField(arg, sub.name)
    case Some(component) =>
      FieldIsSmaller(arg, sub.name, ctx.variables);
      MapToSql(ctx, sub, component)
    case None => True
  }

  /** The fold over the first `n` composite parameters, seeded with `True`. */
  function CompositeChain(ctx: OperationContext, param: PredicateParameter, arg: G.Value, n: nat): (p: Filter)
    requires WellFormed(ctx) && WellFormedParameter(ctx.types, param)
    requires ctx.types[param.typeId].kind.Composite?
    requires n <= |ctx.types[param.typeId].kind.parameters|
    requires Bound(arg, ctx.variables) && !arg.Variable?
    ensures KeyedOnLiterals(p)
    decreases Subst(arg, ctx.variables), 0, n
  {
    if n == 0 then True
    else
      var sub := ctx.types[param.typeId].kind.parameters[n - 1];
      And(CompositeChain(ctx, param, arg, n - 1), CompositeConjunct(ctx, sub, arg))
  }
}
