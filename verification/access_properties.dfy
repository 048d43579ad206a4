/** Facts about the access solver that the engine relies on: how each policy
    form solves, the fail-closed defaults, and the scenarios the solver's own
    test suite pins. */
module AccessProperties {
  import opened Wrappers
  import opened JsonValues
  import opened Predicates
  import opened AccessSolver

  // ---------------------------------------------------------------------------
  // Context lookups

  /** The keys a selection visits, outermost first. */
  function Keys(selection: ContextSelection): (ks: seq<string>)
    ensures |ks| > 0
  {
    match selection
    case Single(key) => [key]
    case Select(path, key) => Keys(path) + [key]
  }

  /** Walks the context one key at a time, failing at the first missing key. */
  function LookupPath(v: Json, keys: seq<string>): Option<Json>
    decreases |keys|
  {
    if keys == [] then Some(v)
    else
      match Get(v, keys[0])
      case None => None
      case Some(w) => LookupPath(w, keys[1..])
  }

  lemma {:induction false} LookupPathSnoc(v: Json, keys: seq<string>, key: string)
    ensures LookupPath(v, keys + [key]) ==
              match LookupPath(v, keys) case None => None case Some(w) => Get(w, key)
    decreases |keys|
  {
    if keys == [] {
      assert keys + [key] == [key];
      assert [key][1..] == [];
    } else {
      assert (keys + [key])[0] == keys[0];
      assert (keys + [key])[1..] == keys[1..] + [key];
      match Get(v, keys[0])
      case None =>
      case Some(w) => LookupPathSnoc(w, keys[1..], key);
    }
  }

  /** A nested selection is the left-to-right walk of its keys; in particular a
      `Select` fails whenever its inner path does. */
  lemma {:induction false} SelectionIsPathLookup(selection: ContextSelection, context: Json)
    ensures SolveContextSelection(selection, context) == LookupPath(context, Keys(selection))
    ensures selection.Select? && SolveContextSelection(selection.path, context).None? ==>
              SolveContextSelection(selection, context).None?
  {
    match selection
    case Single(key) =>
      assert LookupPath(context, [key]) == (match Get(context, key) case None => None case Some(w) => LookupPath(w, []));
    case Select(path, key) =>
      SelectionIsPathLookup(path, context);
      LookupPathSnoc(context, Keys(path), key);
  }

  lemma {:induction false} NothingFoundInNull(selection: ContextSelection)
    ensures SolveContextSelection(selection, JNull).None?
  {
    match selection
    case Single(_) =>
    case Select(path, _) => NothingFoundInNull(path);
  }

  // ---------------------------------------------------------------------------
  // Top-level forms

  lemma BooleanLiteralSolves(b: bool, context: Json)
    ensures SolveAccess(BooleanLiteral(b), context) == (if b then True else False)
  {
  }

  /** A bare boolean column is never decided by the context. */
  lemma BooleanColumnSolves(path: ColumnIdPath, context: Json)
    ensures SolveAccess(BooleanColumn(path), context) == Compare(Eq, Physical(path), Literal(JBool(true)))
  {
  }

  /** `not` of a bare boolean column becomes `column != true`, whatever the context. */
  lemma NotBooleanColumnSolves(path: ColumnIdPath, context: Json)
    ensures SolveAccess(LogicalNot(BooleanColumn(path)), context) == Compare(Neq, Physical(path), Literal(JBool(true)))
  {
    assert SolvePredicateExpression(BooleanColumn(path), context, ColumnFirst) == Compare(Eq, Physical(path), Literal(JBool(true)));
  }

  lemma BooleanContextSelectionSolves(selection: ContextSelection, context: Json)
    requires Solvable(BooleanContextSelection(selection), context)
    ensures SolveContextSelection(selection, context) == Some(JBool(true)) ==>
              SolveAccess(BooleanContextSelection(selection), context) == True
    ensures SolveContextSelection(selection, context) == Some(JBool(false)) ==>
              SolveAccess(BooleanContextSelection(selection), context) == False
    ensures SolveContextSelection(selection, context).None? ==>
              SolveAccess(BooleanContextSelection(selection), context) == False
  {
  }

  /** Comparing two columns yields the residual comparison whatever the context. */
  lemma ColumnComparisonIsResidual(op: Comparison, a: ColumnIdPath, b: ColumnIdPath, context: Json)
    ensures Solvable(RelationalOp(op, ColumnValue(a), ColumnValue(b)), context)
    ensures SolveAccess(RelationalOp(op, ColumnValue(a), ColumnValue(b)), context) ==
              Compare(op, Physical(a), Physical(b))
  {
  }

  /** With no context at all, a comparison against the context denies, except
      an inequality, and a boolean context flag denies. */
  lemma EmptyContextFailsClosed(op: Comparison, selection: ContextSelection, other: PrimitiveExpression)
    ensures SolveContextSelection(selection, JNull).None?
    ensures Solvable(RelationalOp(op, ContextValue(selection), other), JNull)
    ensures Solvable(RelationalOp(op, other, ContextValue(selection)), JNull)
    ensures SolveAccess(RelationalOp(op, ContextValue(selection), other), JNull) ==
              (if op == Neq then True else False)
    ensures SolveAccess(RelationalOp(op, other, ContextValue(selection)), JNull) ==
              (if op == Neq then True else False)
    ensures SolveAccess(BooleanContextSelection(selection), JNull) == False
  {
    NothingFoundInNull(selection);
  }

  // ---------------------------------------------------------------------------
  // Decidability

  /** Policies that never mention a column and compare only by equality,
      inequality and membership. */
  predicate ContextOnly(e: PolicyExpression) {
    match e
    case LogicalNot(q) => ContextOnly(q)
    case LogicalAnd(l, r) => ContextOnly(l) && ContextOnly(r)
    case LogicalOr(l, r) => ContextOnly(l) && ContextOnly(r)
    case RelationalOp(op, lhs, rhs) => (op == Eq || op == Neq || op == In) && !lhs.ColumnValue? && !rhs.ColumnValue?
    case BooleanLiteral(_) => true
    case BooleanColumn(_) => false
    case BooleanContextSelection(_) => true
  }

  /** Such a policy is decided by the context alone: it solves to exactly
      `True` or `False`, so the caller either skips filtering or reports that
      the request is not authorized. */
  lemma {:induction false} ContextOnlyIsDecided(e: PolicyExpression, context: Json, order: OperandOrder)
    requires Solvable(e, context)
    requires ContextOnly(e)
    ensures var p := SolvePredicateExpression(e, context, order); p.True? || p.False?
    decreases e
  {
    match e
    case LogicalNot(q) => ContextOnlyIsDecided(q, context, order);
    case LogicalAnd(l, r) =>
      ContextOnlyIsDecided(l, context, order);
      ContextOnlyIsDecided(r, context, order);
    case LogicalOr(l, r) =>
      ContextOnlyIsDecided(l, context, order);
      ContextOnlyIsDecided(r, context, order);
    case RelationalOp(op, lhs, rhs) =>
    case BooleanLiteral(_) =>
    case BooleanContextSelection(_) =>
  }

  // ---------------------------------------------------------------------------
  // Scenarios

  function AuthContext(role: string): Json {
    JObject(map["AccessContext" := JObject(map["role" := JString(role)])])
  }

  function RoleIs(role: string): PolicyExpression {
    RelationalOp(Eq, ContextValue(Select(Single("AccessContext"), "role")), StringLiteral(role))
  }

  /** A role check against a context that carries a role is decided by it. */
  lemma RoleCheck(role: string, actual: string)
    ensures Solvable(RoleIs(role), AuthContext(actual))
    ensures SolveAccess(RoleIs(role), AuthContext(actual)) == (if actual == role then True else False)
  {
    assert SolveContextSelection(Select(Single("AccessContext"), "role"), AuthContext(actual)) == Some(JString(actual));
  }

  /** A role check against a context without a role denies. */
  lemma RoleCheckWithoutRole(role: string, context: Json)
    requires SolveContextSelection(Select(Single("AccessContext"), "role"), context).None?
    ensures Solvable(RoleIs(role), context)
    ensures SolveAccess(RoleIs(role), context) == False
  {
  }

  /** `AccessContext.role == "ROLE_ADMIN"` is decided by the role alone. */
  lemma RoleScenario()
    ensures SolveAccess(RoleIs("ROLE_ADMIN"), AuthContext("ROLE_ADMIN")) == True
    ensures SolveAccess(RoleIs("ROLE_ADMIN"), AuthContext("ROLE_USER")) == False
  {
    RoleCheck("ROLE_ADMIN", "ROLE_ADMIN");
    RoleCheck("ROLE_ADMIN", "ROLE_USER");
    assert "ROLE_ADMIN" != "ROLE_USER";
  }

  lemma PublishedCheck(published: ColumnIdPath, context: Json)
    ensures Solvable(RelationalOp(Eq, ColumnValue(published), BoolLiteral(true)), context)
    ensures SolveAccess(RelationalOp(Eq, ColumnValue(published), BoolLiteral(true)), context) ==
              Compare(Eq, Physical(published), Literal(JBool(true)))
  {
  }

  /** How the composite policy below is solved, one combinator at a time. */
  lemma PublishedOrRoleUnfolds(published: ColumnIdPath, context: Json)
    requires Solvable(PublishedOrRole(published), context)
    ensures SolveAccess(PublishedOrRole(published), context) ==
              Disj(SolveAccess(RoleIs("ROLE_ADMIN"), context),
                   Conj(SolveAccess(RoleIs("ROLE_USER"), context),
                        Compare(Eq, Physical(published), Literal(JBool(true)))))
  {
    var data := RelationalOp(Eq, ColumnValue(published), BoolLiteral(true));
    PublishedCheck(published, context);
    assert SolvePredicateExpression(LogicalAnd(RoleIs("ROLE_USER"), data), context, ColumnFirst) ==
           Conj(SolveAccess(RoleIs("ROLE_USER"), context), SolveAccess(data, context));
  }

  function PublishedOrRole(published: ColumnIdPath): PolicyExpression {
    LogicalOr(RoleIs("ROLE_ADMIN"),
              LogicalAnd(RoleIs("ROLE_USER"), RelationalOp(Eq, ColumnValue(published), BoolLiteral(true))))
  }

  /** `role == "ROLE_ADMIN" || (role == "ROLE_USER" && self.published == true)`:
      admins pass, users get the residual filter, other roles are denied. */
  lemma VariedRuleForRolesScenario(published: ColumnIdPath, role: string)
    ensures Solvable(PublishedOrRole(published), AuthContext(role))
    ensures role == "ROLE_ADMIN" ==> SolveAccess(PublishedOrRole(published), AuthContext(role)) == True
    ensures role == "ROLE_USER" ==>
              SolveAccess(PublishedOrRole(published), AuthContext(role)) == Compare(Eq, Physical(published), Literal(JBool(true)))
    ensures role != "ROLE_ADMIN" && role != "ROLE_USER" ==>
              SolveAccess(PublishedOrRole(published), AuthContext(role)) == False
  {
    RoleCheck("ROLE_ADMIN", role);
    RoleCheck("ROLE_USER", role);
    PublishedCheck(published, AuthContext(role));
    PublishedOrRoleUnfolds(published, AuthContext(role));
    assert "ROLE_ADMIN" != "ROLE_USER";
  }

  /** The same policy denies an anonymous caller. */
  lemma VariedRuleForAnonymous(published: ColumnIdPath, context: Json)
    requires SolveContextSelection(Select(Single("AccessContext"), "role"), context).None?
    ensures Solvable(PublishedOrRole(published), context)
    ensures SolveAccess(PublishedOrRole(published), context) == False
  {
    RoleCheckWithoutRole("ROLE_ADMIN", context);
    RoleCheckWithoutRole("ROLE_USER", context);
    PublishedCheck(published, context);
    PublishedOrRoleUnfolds(published, context);
  }

  /** `AccessContext.role == "ROLE_ADMIN" || self.published == true`: admins
      pass, users get the published filter. */
  lemma ContextAndDynamicScenario(published: ColumnIdPath)
    ensures var e := LogicalOr(RoleIs("ROLE_ADMIN"), RelationalOp(Eq, ColumnValue(published), BoolLiteral(true)));
            && Solvable(e, AuthContext("ROLE_ADMIN")) && Solvable(e, AuthContext("ROLE_USER"))
            && SolveAccess(e, AuthContext("ROLE_ADMIN")) == True
            && SolveAccess(e, AuthContext("ROLE_USER")) == Compare(Eq, Physical(published), Literal(JBool(true)))
  {
    RoleScenario();
    PublishedCheck(published, AuthContext("ROLE_ADMIN"));
    PublishedCheck(published, AuthContext("ROLE_USER"));
  }

  function UserContext(id: string): Json {
    JObject(map["AccessContext" := JObject(map["user_id" := JString(id)])])
  }

  /** `AccessContext.user_id == self.owner_id` becomes the owner filter for the
      caller's id, with the column first. */
  lemma ContextComparedWithColumnScenario(owner: ColumnIdPath, id: string)
    ensures var e := RelationalOp(Eq, ContextValue(Select(Single("AccessContext"), "user_id")), ColumnValue(owner));
            Solvable(e, UserContext(id)) &&
            SolveAccess(e, UserContext(id)) == Compare(Eq, Physical(owner), Literal(JString(id)))
  {
    assert SolveContextSelection(Select(Single("AccessContext"), "user_id"), UserContext(id)) == Some(JString(id));
  }
}
