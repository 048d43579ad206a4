/** What the filter mapping produces for each kind of filter parameter. */
module PredicateMapperProperties {
  import opened Wrappers
  import G = Graphql
  import opened Columns
  import opened Predicates
  import opened PredicateMapper

  /** `p` is the left-nested chain `And(...And(And(True, cs[0]), cs[1])..., cs[n-1])`. */
  predicate LeftChain(p: Filter, cs: seq<Filter>)
    decreases |cs|
  {
    if cs == [] then p == True
    else p.And? && p.rhs == cs[|cs| - 1] && LeftChain(p.lhs, cs[..|cs| - 1])
  }

  /** Mapping a variable is mapping the value bound to it. */
  lemma VariableIsResolved(ctx: OperationContext, param: PredicateParameter, name: string)
    requires WellFormed(ctx) && WellFormedParameter(ctx.types, param)
    requires name in ctx.variables
    ensures Bound(ctx.variables[name], ctx.variables)
    ensures MapToSql(ctx, param, G.Variable(name)) == MapToSql(ctx, param, ctx.variables[name])
  {
    BoundVariableFree(ctx.variables[name], ctx.variables);
  }

  /** An implicit-equality parameter is exactly `Eq(column, literal)`. */
  lemma ImplicitEqualMapsToEq(ctx: OperationContext, param: PredicateParameter, arg: G.Value)
    requires WellFormed(ctx) && WellFormedParameter(ctx.types, param)
    requires Bound(arg, ctx.variables)
    requires ctx.types[param.typeId].kind.ImplicitEqual?
    ensures MapToSql(ctx, param, arg) ==
              Compare(Eq, Column.Physical(param.columnId.value), Column.Literal(Resolve(arg, ctx.variables)))
  {
  }

  lemma {:induction false} OperatorChainShape(param: PredicateParameter, ops: seq<PredicateParameter>, arg: G.Value, n: nat)
    requires param.columnId.Some?
    requires n <= |ops|
    ensures LeftChain(OperatorChain(param, ops, arg, n),
                      seq(n, i requires 0 <= i < n => OperatorConjunct(param, ops[i], arg)))
  {
    var cs := seq(n, i requires 0 <= i < n => OperatorConjunct(param, ops[i], arg));
    if n > 0 {
      OperatorChainShape(param, ops, arg, n - 1);
      assert cs[..n - 1] == seq(n - 1, i requires 0 <= i < n - 1 => OperatorConjunct(param, ops[i], arg));
    }
  }

  /** An operator parameter folds its declared operators in order into a
      left-nested `And` chain seeded with `True`, one conjunct per operator and
      `True` for an operator the argument leaves out; every comparison is keyed
      on the parameter's own column. */
  lemma OperatorMapsToChain(ctx: OperationContext, param: PredicateParameter, arg: G.Value)
    requires WellFormed(ctx) && WellFormedParameter(ctx.types, param)
    requires Bound(arg, ctx.variables)
    requires ctx.types[param.typeId].kind.Operator?
    ensures var ops := ctx.types[param.typeId].kind.parameters;
            var v := Resolve(arg, ctx.variables);
            LeftChain(MapToSql(ctx, param, arg),
                      seq(|ops|, i requires 0 <= i < |ops| => OperatorConjunct(param, ops[i], v)))
    ensures KeyedOn(MapToSql(ctx, param, arg), param.columnId.value)
  {
    var ops := ctx.types[param.typeId].kind.parameters;
    OperatorChainShape(param, ops, Resolve(arg, ctx.variables), |ops|);
  }

  lemma {:induction false} CompositeChainShape(ctx: OperationContext, param: PredicateParameter, arg: G.Value, n: nat)
    requires WellFormed(ctx) && WellFormedParameter(ctx.types, param)
    requires ctx.types[param.typeId].kind.Composite?
    requires n <= |ctx.types[param.typeId].kind.parameters|
    requires Bound(arg, ctx.variables) && !arg.Variable?
    ensures var subs := ctx.types[param.typeId].kind.parameters;
            LeftChain(CompositeChain(ctx, param, arg, n),
                      seq(n, i requires 0 <= i < n => CompositeConjunct(ctx, subs[i], arg)))
  {
    var subs := ctx.types[param.typeId].kind.parameters;
    var cs := seq(n, i requires 0 <= i < n => CompositeConjunct(ctx, subs[i], arg));
    if n > 0 {
      CompositeChainShape(ctx, param, arg, n - 1);
      assert cs[..n - 1] == seq(n - 1, i requires 0 <= i < n - 1 => CompositeConjunct(ctx, subs[i], arg));
    }
  }

  /** A composite parameter folds its declared fields in order the same way,
      each present field mapped by its own parameter. */
  lemma CompositeMapsToChain(ctx: OperationContext, param: PredicateParameter, arg: G.Value)
    requires WellFormed(ctx) && WellFormedParameter(ctx.types, param)
    requires Bound(arg, ctx.variables)
    requires ctx.types[param.typeId].kind.Composite?
    ensures var subs := ctx.types[param.typeId].kind.parameters;
            var v := Resolve(arg, ctx.variables);
            LeftChain(MapToSql(ctx, param, arg),
                      seq(|subs|, i requires 0 <= i < |subs| => CompositeConjunct(ctx, subs[i], v)))
  {
    CompositeChainShape(ctx, param, Resolve(arg, ctx.variables), |ctx.types[param.typeId].kind.parameters|);
  }
}
