/** The abstract SQL predicate: a boolean expression tree over column operands,
    with the combinators that keep it algebraically simplified, and the
    per-row meaning the database gives it. */
module Predicates {
  import opened Wrappers
  import opened JsonValues

  /** A column of the schema catalog, by table id and column index. */
  datatype ColumnId = ColumnId(tableId: nat, columnIndex: nat)

  /** One hop of a column path, optionally joined to a column of another table. */
  datatype ColumnIdPathLink = ColumnIdPathLink(selfColumn: ColumnId, linkedColumn: Option<ColumnId>)

  /** A (possibly multi-hop) traversal from the root entity to a column. */
  type ColumnIdPath = seq<ColumnIdPathLink>

  /** The operand of a solved access predicate: a physical column reached by a
      path, a literal value, or SQL NULL. */
  datatype ColumnPath = Physical(path: ColumnIdPath) | Literal(value: Json) | Null

  datatype Comparison = Eq | Neq | Lt | Lte | Gt | Gte | In

  /** `Named` stands for the remaining operators a filter can name (string and
      JSON matching), whose definitions are not part of this model. */
  datatype Predicate<C> =
    | True
    | False
    | Compare(op: Comparison, left: C, right: C)
    | Named(name: string, left: C, right: C)
    | And(lhs: Predicate<C>, rhs: Predicate<C>)
    | Or(lhs: Predicate<C>, rhs: Predicate<C>)
    | Not(inner: Predicate<C>)

  type AbstractPredicate = Predicate<ColumnPath>

  function FromBool<C>(b: bool): (p: Predicate<C>)
    ensures p.True? <==> b
    ensures p.False? <==> !b
  {
    if b then True else False
  }

  /** No constant `True`/`False` appears anywhere inside the tree. */
  predicate Residual<C>(p: Predicate<C>) {
    match p
    case True => false
    case False => false
    case Compare(_, _, _) => true
    case Named(_, _, _) => true
    case And(l, r) => Residual(l) && Residual(r)
    case Or(l, r) => Residual(l) && Residual(r)
    case Not(q) => Residual(q)
  }

  /** Either a constant, or a tree with no redundant constant inside it. */
  predicate Normal<C>(p: Predicate<C>) {
    p.True? || p.False? || Residual(p)
  }

  /** Conjunction with the absorbing (`False`) and identity (`True`) laws applied. */
  function Conj<C>(l: Predicate<C>, r: Predicate<C>): (p: Predicate<C>)
    ensures l.False? || r.False? ==> p.False?
    ensures l.True? ==> p == r
    ensures r.True? ==> p == l
    ensures !l.True? && !l.False? && !r.True? && !r.False? ==> p == And(l, r)
    ensures Normal(l) && Normal(r) ==> Normal(p)
  {
    match (l, r)
    case (False, _) => False
    case (_, False) => False
    case (True, _) => r
    case (_, True) => l
    case _ => And(l, r)
  }

  /** Disjunction with the absorbing (`True`) and identity (`False`) laws applied. */
  function Disj<C>(l: Predicate<C>, r: Predicate<C>): (p: Predicate<C>)
    ensures l.True? || r.True? ==> p.True?
    ensures l.False? ==> p == r
    ensures r.False? ==> p == l
    ensures !l.True? && !l.False? && !r.True? && !r.False? ==> p == Or(l, r)
    ensures Normal(l) && Normal(r) ==> Normal(p)
  {
    match (l, r)
    case (True, _) => True
    case (_, True) => True
    case (False, _) => r
    case (_, False) => l
    case _ => Or(l, r)
  }

  /** Negation: constants flip, an equality becomes an inequality, and any other
      predicate is wrapped in `Not`. */
  function Negate<C>(p: Predicate<C>): (r: Predicate<C>)
    ensures r.True? <==> p.False?
    ensures r.False? <==> p.True?
    ensures Residual(p) ==> Residual(r)
    ensures p.Compare? && p.op == Eq ==> r == Compare(Neq, p.left, p.right)
  {
    match p
    case True => False
    case False => True
    case Compare(Eq, a, b) => Compare(Neq, a, b)
    case _ => Not(p)
  }

  /** The comparison a filter operator name denotes. */
  function FromName<C>(name: string, l: C, r: C): (p: Predicate<C>)
    ensures p.Compare? || p.Named?
    ensures p.left == l && p.right == r
  {
    if name == "eq" then Compare(Eq, l, r)
    else if name == "neq" then Compare(Neq, l, r)
    else if name == "lt" then Compare(Lt, l, r)
    else if name == "lte" then Compare(Lte, l, r)
    else if name == "gt" then Compare(Gt, l, r)
    else if name == "gte" then Compare(Gte, l, r)
    else Named(name, l, r)
  }

  // ---------------------------------------------------------------------------
  // Per-row meaning of a predicate

  /** What the database supplies when it evaluates a predicate against one row:
      the row's column values, the ordering it uses for `<`, and the meaning of
      the named operators. */
  datatype Database = Database(
    row: ColumnIdPath -> Json,
    less: (Json, Json) -> bool,
    named: (string, Json, Json) -> bool)

  function ValueOf(c: ColumnPath, db: Database): Json {
    match c
    case Physical(path) => db.row(path)
    case Literal(v) => v
    case Null => JNull
  }

  /** A comparison between two values, as the database decides it. */
  predicate CompareValues(op: Comparison, x: Json, y: Json, less: (Json, Json) -> bool) {
    match op
    case Eq => x == y
    case Neq => x != y
    case Lt => less(x, y)
    case Lte => less(x, y) || x == y
    case Gt => less(y, x)
    case Gte => less(y, x) || x == y
    case In => y.JArray? && x in y.elems
  }

  predicate Eval(p: AbstractPredicate, db: Database) {
    match p
    case True => true
    case False => false
    case Compare(op, a, b) => CompareValues(op, ValueOf(a, db), ValueOf(b, db), db.less)
    case Named(name, a, b) => db.named(name, ValueOf(a, db), ValueOf(b, db))
    case And(l, r) => Eval(l, db) && Eval(r, db)
    case Or(l, r) => Eval(l, db) || Eval(r, db)
    case Not(q) => !Eval(q, db)
  }

  lemma ConjMeaning(l: AbstractPredicate, r: AbstractPredicate, db: Database)
    ensures Eval(Conj(l, r), db) == (Eval(l, db) && Eval(r, db))
  {
  }

  lemma DisjMeaning(l: AbstractPredicate, r: AbstractPredicate, db: Database)
    ensures Eval(Disj(l, r), db) == (Eval(l, db) || Eval(r, db))
  {
  }

  lemma NegateMeaning(p: AbstractPredicate, db: Database)
    ensures Eval(Negate(p), db) == !Eval(p, db)
  {
  }
}
