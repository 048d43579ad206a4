/** Partial evaluation of an access-control policy against the request
    context. The result is `True` or `False` when the context decides the
    policy, and otherwise a residual predicate for the database to evaluate
    per row. */
module AccessSolver {
  import opened Wrappers
  import opened JsonValues
  import opened Predicates

  /** A path into the request context: `AuthContext` or `AuthContext.role`. */
  datatype ContextSelection = Single(key: string) | Select(path: ContextSelection, key: string)

  /** An operand of a relational policy expression. */
  datatype PrimitiveExpression =
    | ContextValue(selection: ContextSelection)
    | ColumnValue(column: ColumnIdPath)
    | StringLiteral(s: string)
    | BoolLiteral(b: bool)
    | NumberLiteral(n: int)

  datatype PolicyExpression =
    | LogicalNot(operand: PolicyExpression)
    | LogicalAnd(left: PolicyExpression, right: PolicyExpression)
    | LogicalOr(left: PolicyExpression, right: PolicyExpression)
    | RelationalOp(op: Comparison, lhs: PrimitiveExpression, rhs: PrimitiveExpression)
    | BooleanLiteral(value: bool)
    | BooleanColumn(path: ColumnIdPath)
    | BooleanContextSelection(selection: ContextSelection)

  /** An operand after looking into the context: a concrete value, a column
      left to the database, or a context lookup that found nothing. */
  datatype SolvedPrimitive =
    | SolvedValue(value: Json)
    | SolvedColumn(column: ColumnIdPath)
    | UnresolvedContext(selection: ContextSelection)

  /** Where a column-versus-value comparison puts the column. `ColumnFirst` is
      what the solver does; `AsDeclared` keeps the policy's operand order. */
  datatype OperandOrder = ColumnFirst | AsDeclared

  /** The value at the selection's path, if every key along it is present. */
  function SolveContextSelection(selection: ContextSelection, context: Json): (r: Option<Json>)
    ensures selection.Single? ==> r == Get(context, selection.key)
    ensures selection.Select? && SolveContextSelection(selection.path, context).None? ==> r.None?
    ensures selection.Select? && SolveContextSelection(selection.path, context).Some? ==>
              r == Get(SolveContextSelection(selection.path, context).value, selection.key)
    ensures r.Some? ==> context.JObject?
  {
    match selection
    case Single(key) => Get(context, key)
    case Select(path, key) =>
      (match SolveContextSelection(path, context)
       case None => None
       case Some(v) => Get(v, key))
  }

  function ReducePrimitive(e: PrimitiveExpression, context: Json): (r: SolvedPrimitive)
    ensures e.ColumnValue? <==> r.SolvedColumn?
    ensures e.ColumnValue? ==> r.column == e.column
    ensures r.UnresolvedContext? <==>
              e.ContextValue? && SolveContextSelection(e.selection, context).None?
    ensures e.ContextValue? && r.SolvedValue? ==>
              SolveContextSelection(e.selection, context) == Some(r.value)
    ensures e.StringLiteral? ==> r == SolvedValue(JString(e.s))
    ensures e.BoolLiteral? ==> r == SolvedValue(JBool(e.b))
    ensures e.NumberLiteral? ==> r == SolvedValue(JNumber(e.n))
  {
    match e
    case ContextValue(selection) =>
      (match SolveContextSelection(selection, context)
       case Some(v) => SolvedValue(v)
       case None => UnresolvedContext(selection))
    case ColumnValue(column) => SolvedColumn(column)
    case StringLiteral(s) => SolvedValue(JString(s))
    case BoolLiteral(b) => SolvedValue(JBool(b))
    case NumberLiteral(n) => SolvedValue(JNumber(n))
  }

  /** Values that can become a SQL literal operand (objects cannot). */
  predicate LiteralOperand(v: Json) {
    !v.JObject?
  }

  function LiteralColumn(v: Json): (c: ColumnPath)
    requires LiteralOperand(v)
    ensures c == Null || c == Literal(v)
    ensures c.Null? <==> v.JNull?
  {
    if v.JNull? then Null else Literal(v)
  }

  predicate IsOrdering(op: Comparison) {
    op.Lt? || op.Lte? || op.Gt? || op.Gte?
  }

  /** The value a comparison takes when either operand is missing from the
      context: deny, except that an inequality holds. */
  function UnresolvedDefault(op: Comparison): (p: AbstractPredicate)
    ensures p.True? <==> op == Neq
    ensures p.False? <==> op != Neq
  {
    if op == Neq then True else False
  }

  /** The conditions under which the solver does not reach one of its
      unreachable branches when comparing these operands. */
  predicate RelationalSolvable(op: Comparison, lhs: PrimitiveExpression, rhs: PrimitiveExpression, context: Json) {
    var l := ReducePrimitive(lhs, context);
    var r := ReducePrimitive(rhs, context);
    if l.UnresolvedContext? || r.UnresolvedContext? then true
    else if l.SolvedValue? && r.SolvedValue? then
      && (op == In ==> r.value.JArray?)
      && (IsOrdering(op) ==> LiteralOperand(l.value) && LiteralOperand(r.value))
    else
      && (l.SolvedValue? ==> LiteralOperand(l.value))
      && (r.SolvedValue? ==> LiteralOperand(r.value))
  }

  predicate Solvable(e: PolicyExpression, context: Json) {
    match e
    case LogicalNot(q) => Solvable(q, context)
    case LogicalAnd(l, r) => Solvable(l, context) && Solvable(r, context)
    case LogicalOr(l, r) => Solvable(l, context) && Solvable(r, context)
    case RelationalOp(op, lhs, rhs) => RelationalSolvable(op, lhs, rhs, context)
    case BooleanLiteral(_) => true
    case BooleanColumn(_) => true
    case BooleanContextSelection(selection) =>
      var v := SolveContextSelection(selection, context);
      v.None? || v.value.JBool?
  }

  /** Comparing two concrete values: equality, inequality and membership are
      decided here; the orderings are left to the database over two literals. */
  function ValuePredicate(op: Comparison, v1: Json, v2: Json): (p: AbstractPredicate)
    requires op == In ==> v2.JArray?
    requires IsOrdering(op) ==> LiteralOperand(v1) && LiteralOperand(v2)
    ensures op == Eq ==> (p.True? <==> v1 == v2) && (p.False? <==> v1 != v2)
    ensures op == Neq ==> (p.True? <==> v1 != v2) && (p.False? <==> v1 == v2)
    ensures op == In ==> (p.True? <==> v1 in v2.elems) && (p.False? <==> v1 !in v2.elems)
    ensures IsOrdering(op) ==> p == Compare(op, LiteralColumn(v1), LiteralColumn(v2))
  {
    match op
    case Eq => FromBool(v1 == v2)
    case Neq => FromBool(v1 != v2)
    case In => FromBool(v1 in v2.elems)
    case _ => Compare(op, LiteralColumn(v1), LiteralColumn(v2))
  }

  function SolveRelationalOp(op: Comparison, lhs: PrimitiveExpression, rhs: PrimitiveExpression,
                             context: Json, order: OperandOrder): (p: AbstractPredicate)
    requires RelationalSolvable(op, lhs, rhs, context)
    // a missing context value: fail closed, except `Neq` fails open
    ensures ReducePrimitive(lhs, context).UnresolvedContext? || ReducePrimitive(rhs, context).UnresolvedContext? ==>
              if op == Neq then p.True? else p.False?
    // two concrete values
    ensures ReducePrimitive(lhs, context).SolvedValue? && ReducePrimitive(rhs, context).SolvedValue? ==>
              var v1, v2 := ReducePrimitive(lhs, context).value, ReducePrimitive(rhs, context).value;
              && (op == Eq ==> (p.True? <==> v1 == v2) && (p.False? <==> v1 != v2))
              && (op == Neq ==> (p.True? <==> v1 != v2) && (p.False? <==> v1 == v2))
              && (op == In ==> (p.True? <==> v1 in v2.elems) && (p.False? <==> v1 !in v2.elems))
              && (IsOrdering(op) ==> p == Compare(op, LiteralColumn(v1), LiteralColumn(v2)))
    // two columns
    ensures ReducePrimitive(lhs, context).SolvedColumn? && ReducePrimitive(rhs, context).SolvedColumn? ==>
              p == Compare(op, Physical(lhs.column), Physical(rhs.column))
    // a column and a value: the column is put first unless the order is kept
    ensures ReducePrimitive(lhs, context).SolvedColumn? && ReducePrimitive(rhs, context).SolvedValue? ==>
              p == Compare(op, Physical(lhs.column), LiteralColumn(ReducePrimitive(rhs, context).value))
    ensures ReducePrimitive(lhs, context).SolvedValue? && ReducePrimitive(rhs, context).SolvedColumn? ==>
              p == if order == ColumnFirst
                   then Compare(op, Physical(rhs.column), LiteralColumn(ReducePrimitive(lhs, context).value))
                   else Compare(op, LiteralColumn(ReducePrimitive(lhs, context).value), Physical(rhs.column))
    ensures Normal(p)
  {
    var l := ReducePrimitive(lhs, context);
    var r := ReducePrimitive(rhs, context);
    match (l, r)
    case (UnresolvedContext(_), _) => UnresolvedDefault(op)
    case (_, UnresolvedContext(_)) => UnresolvedDefault(op)
    case (SolvedColumn(c1), SolvedColumn(c2)) => Compare(op, Physical(c1), Physical(c2))
    case (SolvedValue(v1), SolvedValue(v2)) => ValuePredicate(op, v1, v2)
    case (SolvedValue(v), SolvedColumn(c)) =>
      if order == ColumnFirst then Compare(op, Physical(c), LiteralColumn(v))
      else Compare(op, LiteralColumn(v), Physical(c))
    case (SolvedColumn(c), SolvedValue(v)) => Compare(op, Physical(c), LiteralColumn(v))
  }

  function SolvePredicateExpression(e: PolicyExpression, context: Json, order: OperandOrder): (p: AbstractPredicate)
    requires Solvable(e, context)
    ensures Normal(p)
    decreases e
  {
    match e
    case LogicalNot(q) => Negate(SolvePredicateExpression(q, context, order))
    case LogicalAnd(l, r) =>
      Conj(SolvePredicateExpression(l, context, order), SolvePredicateExpression(r, context, order))
    case LogicalOr(l, r) =>
      Disj(SolvePredicateExpression(l, context, order), SolvePredicateExpression(r, context, order))
    case RelationalOp(op, lhs, rhs) => SolveRelationalOp(op, lhs, rhs, context, order)
    case BooleanLiteral(b) => FromBool(b)
    case BooleanColumn(path) => Compare(Eq, Physical(path), Literal(JBool(true)))
    case BooleanContextSelection(selection) =>
      match SolveContextSelection(selection, context)
      case Some(v) => FromBool(v.b)
      case None => False
  }

  /** The solver as the engine runs it. */
  function SolveAccess(e: PolicyExpression, context: Json): (p: AbstractPredicate)
    requires Solvable(e, context)
    ensures Normal(p)
  {
    SolvePredicateExpression(e, context, ColumnFirst)
  }

  /** The solver with each comparison's operand order preserved. */
  function SolveAccessCorrected(e: PolicyExpression, context: Json): (p: AbstractPredicate)
    requires Solvable(e, context)
    ensures Normal(p)
  {
    SolvePredicateExpression(e, context, AsDeclared)
  }
}
