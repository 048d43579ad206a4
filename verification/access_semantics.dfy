/** What a policy means for one row, read directly off the policy: context
    lookups that find nothing give the comparison its fail-closed (or, for
    `Neq`, fail-open) value, and everything else compares values. The solver
    is checked against this reading. */
module AccessSemantics {
  import opened Wrappers
  import opened JsonValues
  import opened Predicates
  import opened AccessSolver

  function Operand(e: PrimitiveExpression, context: Json, db: Database): Option<Json> {
    match e
    case ContextValue(selection) => SolveContextSelection(selection, context)
    case ColumnValue(column) => Some(db.row(column))
    case StringLiteral(s) => Some(JString(s))
    case BoolLiteral(b) => Some(JBool(b))
    case NumberLiteral(n) => Some(JNumber(n))
  }

  predicate Holds(e: PolicyExpression, context: Json, db: Database) {
    match e
    case LogicalNot(q) => !Holds(q, context, db)
    case LogicalAnd(l, r) => Holds(l, context, db) && Holds(r, context, db)
    case LogicalOr(l, r) => Holds(l, context, db) || Holds(r, context, db)
    case RelationalOp(op, lhs, rhs) =>
      var x, y := Operand(lhs, context, db), Operand(rhs, context, db);
      if x.None? || y.None? then op == Neq
      else CompareValues(op, x.value, y.value, db.less)
    case BooleanLiteral(b) => b
    case BooleanColumn(path) => db.row(path) == JBool(true)
    case BooleanContextSelection(selection) => SolveContextSelection(selection, context) == Some(JBool(true))
  }

  /** No order-sensitive comparison has a column on its right and a
      non-column on its left. */
  predicate ColumnsLead(e: PolicyExpression) {
    match e
    case LogicalNot(q) => ColumnsLead(q)
    case LogicalAnd(l, r) => ColumnsLead(l) && ColumnsLead(r)
    case LogicalOr(l, r) => ColumnsLead(l) && ColumnsLead(r)
    case RelationalOp(op, lhs, rhs) => op == Eq || op == Neq || !rhs.ColumnValue? || lhs.ColumnValue?
    case _ => true
  }

  lemma RelationalMeaning(op: Comparison, lhs: PrimitiveExpression, rhs: PrimitiveExpression,
                          context: Json, db: Database, order: OperandOrder)
    requires RelationalSolvable(op, lhs, rhs, context)
    requires order == AsDeclared || op == Eq || op == Neq || !rhs.ColumnValue? || lhs.ColumnValue?
    ensures Eval(SolveRelationalOp(op, lhs, rhs, context, order), db) == Holds(RelationalOp(op, lhs, rhs), context, db)
  {
    var l, r := ReducePrimitive(lhs, context), ReducePrimitive(rhs, context);
    var p := SolveRelationalOp(op, lhs, rhs, context, order);
    if l.UnresolvedContext? || r.UnresolvedContext? {
    } else if l.SolvedValue? && r.SolvedValue? {
      if IsOrdering(op) {
        assert ValueOf(LiteralColumn(l.value), db) == l.value;
        assert ValueOf(LiteralColumn(r.value), db) == r.value;
      }
    } else if l.SolvedValue? {
      assert ValueOf(LiteralColumn(l.value), db) == l.value;
    } else if r.SolvedValue? {
      assert ValueOf(LiteralColumn(r.value), db) == r.value;
    }
  }

  lemma {:induction false} SolveMeaning(e: PolicyExpression, context: Json, db: Database, order: OperandOrder)
    requires Solvable(e, context)
    requires order == AsDeclared || ColumnsLead(e)
    ensures Eval(SolvePredicateExpression(e, context, order), db) == Holds(e, context, db)
    decreases e
  {
    match e
    case LogicalNot(q) =>
      SolveMeaning(q, context, db, order);
      NegateMeaning(SolvePredicateExpression(q, context, order), db);
    case LogicalAnd(l, r) =>
      SolveMeaning(l, context, db, order);
      SolveMeaning(r, context, db, order);
      ConjMeaning(SolvePredicateExpression(l, context, order), SolvePredicateExpression(r, context, order), db);
    case LogicalOr(l, r) =>
      SolveMeaning(l, context, db, order);
      SolveMeaning(r, context, db, order);
      DisjMeaning(SolvePredicateExpression(l, context, order), SolvePredicateExpression(r, context, order), db);
    case RelationalOp(op, lhs, rhs) =>
      RelationalMeaning(op, lhs, rhs, context, db, order);
    case BooleanLiteral(_) =>
    case BooleanColumn(_) =>
    case BooleanContextSelection(_) =>
  }

  /** The corrected solver is exact: for every row, the residual predicate
      holds exactly when the policy does. */
  lemma CorrectedSolverSound(e: PolicyExpression, context: Json, db: Database)
    requires Solvable(e, context)
    ensures Eval(SolveAccessCorrected(e, context), db) == Holds(e, context, db)
  {
    SolveMeaning(e, context, db, AsDeclared);
  }

  /** The solver as written is exact on policies whose order-sensitive
      comparisons already put the column first. */
  lemma SolverSoundWhenColumnsLead(e: PolicyExpression, context: Json, db: Database)
    requires Solvable(e, context)
    requires ColumnsLead(e)
    ensures Eval(SolveAccess(e, context), db) == Holds(e, context, db)
  {
    SolveMeaning(e, context, db, ColumnFirst);
  }

  predicate IntLess(x: Json, y: Json) {
    x.JNumber? && y.JNumber? && x.n < y.n
  }

  predicate NoNamedOperator(name: string, x: Json, y: Json) {
    false
  }

  /** `1 < self.c` on a row where `c` is 2: the policy allows the row, but the
      solver as written emits `c < 1`, which rejects it. */
  lemma SwappedOperandsCounterexample(c: ColumnIdPath)
    ensures var e := RelationalOp(Lt, NumberLiteral(1), ColumnValue(c));
            var db := Database(_ => JNumber(2), IntLess, NoNamedOperator);
            && Solvable(e, JNull)
            && Holds(e, JNull, db)
            && SolveAccess(e, JNull) == Compare(Lt, Physical(c), Literal(JNumber(1)))
            && !Eval(SolveAccess(e, JNull), db)
  {
  }

  /** `"a" in self.tags` on a row whose `tags` is `["a"]`: the policy allows
      the row, but the solver as written emits `tags in "a"`, which rejects it. */
  lemma SwappedInCounterexample(c: ColumnIdPath)
    ensures var e := RelationalOp(In, StringLiteral("a"), ColumnValue(c));
            var db := Database(_ => JArray([JString("a")]), IntLess, NoNamedOperator);
            && Solvable(e, JNull)
            && Holds(e, JNull, db)
            && SolveAccess(e, JNull) == Compare(In, Physical(c), Literal(JString("a")))
            && !Eval(SolveAccess(e, JNull), db)
  {
  }
}
