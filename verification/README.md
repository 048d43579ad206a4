# Exograph query-core model

A Dafny model of the part of the Exograph engine that turns a GraphQL request
into the pieces of a SQL statement, with proofs about it. The model covers:

- the **access solver**: it reduces an access-control policy against the request's
  context to a residual database predicate (`True`, `False`, or a filter);
- the **predicate mapper**: it turns a `where` argument into a filter;
- the **order-by mapper**: it turns an `orderBy` argument into an ordered list of
  (column path, direction) pairs;
- the pure part of the **aggregate query** resolver: it combines the access and
  query predicates and projects one aggregate function per requested subfield;
- **insert statements**: template expansion of a multi-step mutation and the
  rendered `INSERT … VALUES … RETURNING` text;
- the `COALESCE(json_agg(…), '[]'::json)` expression;
- the case-insensitive HTTP **header map** and the path helpers.

Each operation has a partner it is proved against:

- the access solver against a direct per-row reading of the policy (`AccessSemantics.Holds`);
- the order-by mapping against a flatten-of-results reference;
- the insert builder method against a declarative statement text;
- `json_agg` text against its parse;
- the header operations against one another (get after insert, remove then get).

Modules follow the source layout:

- `Wrappers`, `JsonValues`, `Graphql`, `ExecutionErrors`: option and result, JSON context values, GraphQL argument values, the two error kinds;
- `Predicates`: the abstract predicate tree, its simplifying combinators and its meaning on a row;
- `AccessSolver`, `AccessSemantics`, `AccessProperties`: the access solver, its soundness and its test scenarios;
- `Columns`, `PredicateMapper`, `PredicateMapperProperties`: the filter mapping and the shape of the conjunctions it builds;
- `OrderByMapper`, `OrderByProperties`: the order-by mapping, flattening and path facts;
- `AggregateQuery`, `AggregateProperties`: the aggregate select;
- `SqlBuilder`, `InsertStatements`, `InsertProperties`, `JsonAgg`: statement text;
- `Http`, `HttpProperties`: headers and paths.

The access solver takes an `OperandOrder`:

- `ColumnFirst` reproduces the source, which always puts the column on the left of a (value, column) comparison;
- `AsDeclared` keeps the policy's own operand order.

`AccessSolver.SolveAccess` is the source as written and `AccessSolver.SolveAccessCorrected` is the corrected solver (see Findings). The two agree on every policy in which each comparison other than `==` and `!=` already puts the column first (`AccessSemantics.SolverSoundWhenColumnsLead`). A comparison under `<`, `<=`, `>`, `>=` or `in` with a value on the left and a column on the right is exactly what this agreement leaves out, and there the as-written solver reverses the operands. The solver's test of relational operators exercises such comparisons with a context value on the left of a column (payas-server-core/src/data/access_solver.rs:467-473).

## Model

| member | source | states |
|---|---|---|
| Predicates.FromBool | payas-server-core/src/data/access_solver.rs:44 | a boolean becomes the constant predicate: `True` exactly for true, `False` exactly for false |
| Predicates.Conj | payas-server-core/src/data/access_solver.rs:226-241 | `False` on either side absorbs, `True` is the identity, two residual sides are kept as `And`, and simplified inputs give a simplified output |
| Predicates.Disj | payas-server-core/src/data/access_solver.rs:242-257 | `True` on either side absorbs, `False` is the identity, two residual sides are kept as `Or`, and simplified inputs give a simplified output |
| Predicates.Negate | payas-server-core/src/data/access_solver.rs:221-225 | negation swaps the two constants, turns an equality into the inequality over the same operands, and keeps a residual predicate residual |
| Predicates.FromName | payas-server/src/data/predicate_mapper.rs:36 | an operator name becomes a comparison or named predicate over exactly the given key and value operands |
| Predicates.ConjMeaning | payas-server-core/src/data/access_solver.rs:226-241 | on every row the simplified conjunction holds iff both sides hold |
| Predicates.DisjMeaning | payas-server-core/src/data/access_solver.rs:242-257 | on every row the simplified disjunction holds iff either side holds |
| Predicates.NegateMeaning | payas-server-core/src/data/access_solver.rs:221-225 | on every row the negation holds iff the predicate does not |
| JsonValues.Get | payas-server-core/src/data/access_solver.rs:73 | a key lookup succeeds exactly on an object that has the key, and returns that key's value |
| AccessSolver.ReducePrimitive | payas-server-core/src/data/access_solver.rs:106-129 | columns stay columns; literals become their JSON values; a context selection becomes its value when found and is unresolved exactly when the lookup finds nothing |
| AccessSolver.SolveContextSelection | payas-server-core/src/data/access_solver.rs:68-78 | a single key is looked up in the context; a path is followed key by key, and a missing step makes the whole selection missing; only an object context can yield a value |
| AccessSolver.UnresolvedDefault | payas-server-core/src/data/access_solver.rs:172-211 | an unresolved context makes a comparison `True` for `Neq` and `False` for every other operator |
| AccessSolver.ValuePredicate | payas-server-core/src/data/access_solver.rs:172-211 | two known values: `Eq` and `Neq` are decided by equality, `In` by membership in the right-hand array, and an ordering operator stays a comparison of the two literals |
| AccessSolver.LiteralColumn | payas-server-core/src/data/access_solver.rs:80-92 | a JSON value becomes SQL `NULL` exactly when it is null, otherwise a literal of that same value |
| AccessSolver.SolveRelationalOp | payas-server-core/src/data/access_solver.rs:131-212 | an unresolved context on either side gives the operator's default (`True` for `Neq`, `False` otherwise); two values are compared at solve time (`Eq`, `Neq`, `In`) or kept as a literal comparison (ordering operators); two columns give the column comparison; one column and one value put the column first; the result is simplified |
| AccessSolver.SolvePredicateExpression | payas-server-core/src/data/access_solver.rs:34-66 | every policy solves to a constant or to a tree with no constant left inside |
| AccessSolver.SolveAccess | payas-server-core/src/data/access_solver.rs:26-32 | the solved policy is a constant or a tree with no constant left inside |
| AccessSolver.SolveAccessCorrected | payas-server-core/src/data/access_solver.rs:26-32 | the same for the solver that keeps each comparison's operand order |
| AccessSemantics.RelationalMeaning | payas-server-core/src/data/access_solver.rs:131-212 | a solved comparison holds on a row exactly when the comparison, read directly against context and row, holds (given column-first operands or the corrected order) |
| AccessSemantics.SolveMeaning | payas-server-core/src/data/access_solver.rs:34-66 | by induction over the policy: the residual predicate holds on a row iff the policy does |
| AccessSemantics.CorrectedSolverSound | payas-server-core/src/data/access_solver.rs:158-168 | the corrected solver is exact on every solvable policy and every row |
| AccessSemantics.SolverSoundWhenColumnsLead | payas-server-core/src/data/access_solver.rs:158-168 | the solver as written is exact whenever every comparison with a non-column on the left and a column on the right is `==` or `!=`; `<`, `<=`, `>`, `>=` and `in` in that position are left out |
| AccessSemantics.SwappedOperandsCounterexample | payas-server-core/src/data/access_solver.rs:158-168 | `1 < self.c` allows a row with `c = 2`, yet the solver as written emits `c < 1`, which rejects that row |
| AccessSemantics.SwappedInCounterexample | payas-server-core/src/data/access_solver.rs:158-168 | `"a" in self.tags` on a row whose `tags` is `["a"]` holds, but the as-written solver emits `tags in "a"`, which rejects the row |
| AccessProperties.LookupPathSnoc | payas-server-core/src/data/access_solver.rs:74-76 | walking one more key continues from wherever the shorter walk ended |
| AccessProperties.SelectionIsPathLookup | payas-server-core/src/data/access_solver.rs:68-78 | a nested context selection is the left-to-right walk of its keys, and it fails whenever its inner path fails |
| AccessProperties.NothingFoundInNull | payas-server-core/src/data/access_solver.rs:68-78 | no selection finds anything in a null context |
| AccessProperties.BooleanLiteralSolves | payas-server-core/src/data/access_solver.rs:1013-1027 | a literal policy solves to the matching constant |
| AccessProperties.BooleanColumnSolves | payas-server-core/src/data/access_solver.rs:1029-1051 | a bare boolean column becomes `column = true`, whatever the context |
| AccessProperties.NotBooleanColumnSolves | payas-server-core/src/data/access_solver.rs:812-828 | `not` of a bare boolean column becomes `column != true`, whatever the context |
| AccessProperties.BooleanContextSelectionSolves | payas-server-core/src/data/access_solver.rs:1053-1076 | a boolean context flag gives `True` when true, and `False` when false or missing |
| AccessProperties.ColumnComparisonIsResidual | payas-server-core/src/data/access_solver.rs:146-152 | comparing two columns is always left to the database |
| AccessProperties.EmptyContextFailsClosed | payas-server-core/src/data/access_solver.rs:143-145 | with a null context, any comparison against the context denies (except `!=`, which allows) on either side, and a context flag denies |
| AccessProperties.ContextOnlyIsDecided | payas-server-core/src/data/access_solver.rs:34-66 | a policy with no columns and only `==`, `!=`, `in` comparisons is decided outright, to `True` or `False` |
| AccessProperties.RoleCheck | payas-server-core/src/data/access_solver.rs:832-851 | `AccessContext.role == r` solves to `True` iff the caller's role is `r`, otherwise `False` |
| AccessProperties.RoleCheckWithoutRole | payas-server-core/src/data/access_solver.rs:143-145 | a role check against a context with no role denies |
| AccessProperties.RoleScenario | payas-server-core/src/data/access_solver.rs:832-851 | the admin check allows an admin and denies a user |
| AccessProperties.PublishedCheck | payas-server-core/src/data/access_solver.rs:154-168 | `self.published == true` becomes the filter `published = true` |
| AccessProperties.PublishedOrRoleUnfolds | payas-server-core/src/data/access_solver.rs:226-257 | the composite admin-or-user-published policy solves as the simplified disjunction and conjunction of its parts |
| AccessProperties.VariedRuleForRolesScenario | payas-server-core/src/data/access_solver.rs:939-1011 | for the admin-or-published-for-users policy: admins get `True`, users get the published filter, every other role gets `False` |
| AccessProperties.VariedRuleForAnonymous | payas-server-core/src/data/access_solver.rs:939-1011 | the same policy denies a caller whose context has no role |
| AccessProperties.ContextAndDynamicScenario | payas-server-core/src/data/access_solver.rs:854-897 | `role == ADMIN \|\| self.published`: admins get `True`, users get the published filter |
| AccessProperties.ContextComparedWithColumnScenario | payas-server-core/src/data/access_solver.rs:900-936 | `AccessContext.user_id == self.owner_id` becomes `owner_id = <caller's id>`, with the column first |
| PredicateMapper.GetArgumentField | payas-server/src/data/predicate_mapper.rs:31 | a field lookup succeeds iff an object argument has a field of that name, and then returns the first such field's value |
| PredicateMapper.Resolve | payas-server/src/data/predicate_mapper.rs:18-21 | a variable argument is replaced by its binding and any other argument is kept; the result is never a variable |
| PredicateMapper.Operands | payas-server/src/data/predicate_mapper.rs:61-71 | the key operand is the parameter's physical column and the value operand is the argument's literal |
| PredicateMapper.OperatorConjunct | payas-server/src/data/predicate_mapper.rs:31-39 | an operator field the argument supplies becomes that operator over (column, literal); an absent one becomes `True` |
| PredicateMapper.OperatorChain | payas-server/src/data/predicate_mapper.rs:29-43 | every comparison in the operator fold compares the parameter's own column with a literal |
| PredicateMapper.CompositeConjunct | payas-server/src/data/predicate_mapper.rs:46-52 | an absent field contributes `True`; a present one maps to a filter whose comparisons are all column against literal |
| PredicateMapper.CompositeChain | payas-server/src/data/predicate_mapper.rs:44-56 | every comparison in the composite fold compares a physical column with a literal |
| PredicateMapper.MapResolved | payas-server/src/data/predicate_mapper.rs:23-57 | every comparison is column against literal, and for a non-composite parameter the column is the parameter's own |
| PredicateMapper.MapToSql | payas-server/src/data/predicate_mapper.rs:10-58 | whatever the argument, every comparison the filter holds compares a physical column with a literal |
| PredicateMapperProperties.VariableIsResolved | payas-server/src/data/predicate_mapper.rs:18-21 | mapping a variable is the same as mapping the value it is bound to |
| PredicateMapperProperties.ImplicitEqualMapsToEq | payas-server/src/data/predicate_mapper.rs:24-28 | an implicit-equality parameter maps to `column = literal` |
| PredicateMapperProperties.OperatorChainShape | payas-server/src/data/predicate_mapper.rs:29-43 | the operator fold is the left-nested `And` chain seeded with `True`, one conjunct per declared operator in order |
| PredicateMapperProperties.OperatorMapsToChain | payas-server/src/data/predicate_mapper.rs:29-43 | an operator parameter maps to that chain, and every comparison in it is keyed on the parameter's own column |
| PredicateMapperProperties.CompositeChainShape | payas-server/src/data/predicate_mapper.rs:44-56 | the composite fold is the left-nested `And` chain seeded with `True`, one sub-mapping (or `True`) per declared field in order |
| PredicateMapperProperties.CompositeMapsToChain | payas-server/src/data/predicate_mapper.rs:44-56 | a composite parameter maps to that chain |
| OrderByMapper.StrOrdering | crates/postgres-subsystem/postgres-resolver/src/order_by_mapper.rs:101-112 | `ASC` and `DESC` are the only accepted tokens; anything else is a generic error naming the token |
| OrderByMapper.ArgumentOrdering | crates/postgres-subsystem/postgres-resolver/src/order_by_mapper.rs:114-121 | enum and string arguments are read as tokens; any other value is an error |
| OrderByMapper.Flatten | crates/postgres-subsystem/postgres-resolver/src/order_by_mapper.rs:30-33 | the combined result fails iff some part fails, and then it is the first failure |
| OrderByMapper.FindParameter | crates/postgres-subsystem/postgres-resolver/src/order_by_mapper.rs:73-85 | a composite type yields the first parameter with the entry's name; a missing name or a primitive type is a validation error |
| OrderByMapper.MapToOrderBy | crates/postgres-subsystem/postgres-resolver/src/order_by_mapper.rs:22-63 | every path in a successful mapping is physical and strictly extends the parent path |
| OrderByMapper.MapEntries | crates/postgres-subsystem/postgres-resolver/src/order_by_mapper.rs:36-50 | for any suffix of an object's entries: every path of a success is physical and strictly below the parent, and a failure is the failure of one of those entries |
| OrderByMapper.MapElements | crates/postgres-subsystem/postgres-resolver/src/order_by_mapper.rs:52-58 | for any suffix of a list's elements: every path of a success is physical and strictly below the parent, and a failure is the failure of one of those elements |
| OrderByMapper.OrderByPair | crates/postgres-subsystem/postgres-resolver/src/order_by_mapper.rs:66-98 | the same for one entry: a leaf pair sits one link below the parent, a nested mapping below the parent extended by that link |
| OrderByProperties.MapEntriesIsFlatten | crates/postgres-subsystem/postgres-resolver/src/order_by_mapper.rs:36-50 | the recursive walk over an object's entries equals flattening the per-entry results |
| OrderByProperties.MapElementsIsFlatten | crates/postgres-subsystem/postgres-resolver/src/order_by_mapper.rs:52-58 | the recursive walk over a list's elements equals flattening the per-element results |
| OrderByProperties.ObjectFlattensEntries | crates/postgres-subsystem/postgres-resolver/src/order_by_mapper.rs:36-50 | an object maps to its entries' pairs concatenated in entry order, and it fails iff some entry fails |
| OrderByProperties.ListFlattensElements | crates/postgres-subsystem/postgres-resolver/src/order_by_mapper.rs:52-58 | a list maps to its elements' pairs concatenated in list order, and it fails iff some element fails |
| OrderByProperties.UnknownEntryIsRejected | crates/postgres-subsystem/postgres-resolver/src/order_by_mapper.rs:73-85 | an undeclared entry name, or an entry against a primitive type, gives the matching validation error |
| OrderByProperties.LeafYieldsOnePair | crates/postgres-subsystem/postgres-resolver/src/order_by_mapper.rs:89-92 | a leaf entry yields exactly one pair: the parent path extended by its link, with its direction (or the direction's error) |
| OrderByProperties.NonLeafRecurses | crates/postgres-subsystem/postgres-resolver/src/order_by_mapper.rs:93-97 | a non-leaf entry maps its value with the parent path extended by its link |
| OrderByProperties.VenueNameScenario | crates/postgres-subsystem/postgres-resolver/src/order_by_mapper.rs:89-92 | the nested `{name: DESC}` below the venue link gives one pair: the venue's name column through that link, descending |
| OrderByProperties.NestedOrderingScenario | crates/postgres-subsystem/postgres-resolver/src/order_by_mapper.rs:66-98 | `{title: ASC, venue: {name: DESC}}` gives title ascending and then venue-name descending, with the join link on the venue path |
| OrderByProperties.BadTokenScenario | crates/postgres-subsystem/postgres-resolver/src/order_by_mapper.rs:107-110 | `{title: "UP"}` fails with `Cannot match UP as valid ordering` |
| AggregateQuery.OutputName | crates/postgres-subsystem/postgres-resolver/src/aggregate_query.rs:121 | a field is named by its alias when it has one, and by its name otherwise |
| AggregateQuery.FieldNamed | crates/postgres-subsystem/postgres-resolver/src/aggregate_query.rs:93 | the entity field found carries the requested name |
| AggregateQuery.Aggregates | crates/postgres-subsystem/postgres-resolver/src/aggregate_query.rs:96-111 | one aggregate function per subfield, in subfield order, named by its output name and applied to the field's column |
| AggregateQuery.MapField | crates/postgres-subsystem/postgres-resolver/src/aggregate_query.rs:82-122 | the selection is named by the field's output name; `__typename` is the return type's name as a constant; a key or scalar column gives one aggregate per subfield over that column; any other relation, and only that, is the composite-aggregation error |
| AggregateQuery.ContentSelect | crates/postgres-subsystem/postgres-resolver/src/aggregate_query.rs:68-80 | on success, one selection per field in order, each that field's mapping; otherwise it fails iff some field fails, with the first failure |
| AggregateQuery.ResolveSelect | crates/postgres-subsystem/postgres-resolver/src/aggregate_query.rs:24-64 | an access error comes first, then a query error, then a content error; success selects from the return type's table with filter = query AND access, a single JSON object of the content, and no order, offset or limit |
| AggregateProperties.AccessAlwaysEnforced | crates/postgres-subsystem/postgres-resolver/src/aggregate_query.rs:43 | a row passes the select's filter iff it passes both the query predicate and the access predicate |
| AggregateProperties.DeniedAccessSelectsNothing | crates/postgres-subsystem/postgres-resolver/src/aggregate_query.rs:30-43 | a denying access predicate makes the filter `False`, so no row is selected |
| AggregateProperties.TypenameIsConstant | crates/postgres-subsystem/postgres-resolver/src/aggregate_query.rs:88-89 | `__typename` selects the return type's name as a constant |
| AggregateProperties.ScalarFieldAggregates | crates/postgres-subsystem/postgres-resolver/src/aggregate_query.rs:96-111 | a key or scalar field becomes an object of aggregate functions over that field's column |
| AggregateProperties.CompositeFieldRejected | crates/postgres-subsystem/postgres-resolver/src/aggregate_query.rs:113-117 | a relation field is rejected with the nested-aggregation error |
| AggregateProperties.ContentNamedByOutputNames | crates/postgres-subsystem/postgres-resolver/src/aggregate_query.rs:121 | each content selection is named by its field's output name |
| SqlBuilder.PushElems | libs/exo-sql/src/sql/insert.rs:35 | pushing elements appends exactly their separator-joined text to the buffer |
| InsertStatements.HasTemplateColumns | libs/exo-sql/src/sql/insert.rs:61-67 | true iff some cell of some row is a template |
| InsertStatements.ExpandCell | libs/exo-sql/src/sql/insert.rs:78-84 | a concrete cell is kept and a template cell becomes the parameter holding the value its step produced at that row and column |
| InsertStatements.ExpandRow | libs/exo-sql/src/sql/insert.rs:69-89 | every row keeps its shape; concrete cells are kept, and template cells become the parameter value resolved for that step, row index and column |
| InsertStatements.ExpandAll | libs/exo-sql/src/sql/insert.rs:111-115 | one group of rows per row of the earlier step, each group as long as the template |
| InsertStatements.ExpandAllGroup | libs/exo-sql/src/sql/insert.rs:111-115 | group `i` is the template rows instantiated for row `i` of the earlier step, in row order |
| InsertStatements.Resolve | libs/exo-sql/src/sql/insert.rs:91-124 | the insert is skipped iff it has templates and the previous step produced no rows; otherwise it keeps table, columns and returning list, and its values are the expansion for every previous row |
| InsertStatements.ColumnTexts | libs/exo-sql/src/sql/insert.rs:34-36 | the column list is rendered unqualified, one name per column |
| InsertStatements.BuildInsert | libs/exo-sql/src/sql/insert.rs:29-49 | the builder's text equals the declared statement: `INSERT INTO t (cols) VALUES (row), (row)` followed by ` RETURNING …` only when there is something to return |
| InsertStatements.InsertSql | libs/exo-sql/src/sql/insert.rs:29-49 | the statement starts with `INSERT INTO `, the rendered table and ` (`, and without a returning list it ends with the closing `)` of the last value row |
| InsertProperties.ExpandedGroup | libs/exo-sql/src/sql/insert.rs:111-115 | there are `n * \|rows\|` value rows, and row `i * \|rows\| + k` is template row `k` expanded for previous row `i` |
| InsertProperties.ExpandedCells | libs/exo-sql/src/sql/insert.rs:76-85 | each expanded cell is the concrete column or the resolved parameter for its step, previous row and column |
| InsertProperties.ConcreteRowsRepeat | libs/exo-sql/src/sql/insert.rs:111-115 | without templates every group of value rows is an unchanged copy of the given rows |
| InsertProperties.NoRowsNoTemplateIsEmpty | libs/exo-sql/src/sql/insert.rs:101-115 | with no templates and no previous rows the insert still happens, with no value rows |
| InsertProperties.ReturningAppendedWhenNonEmpty | libs/exo-sql/src/sql/insert.rs:45-48 | an empty returning list adds nothing; a non-empty one appends ` RETURNING ` and its joined columns |
| InsertProperties.ColumnListIgnoresQualification | libs/exo-sql/src/sql/insert.rs:30-38 | for every insert and either qualification setting, the statement opens with `INSERT INTO `, the table, ` (`, the unqualified column names joined by `, `, and `) VALUES (` |
| JsonAgg.Build | libs/exo-sql/src/sql/json_agg.rs:21-25 | the text is the opening `COALESCE(json_agg(`, the inner column's text, and the closing `), '[]'::json)` |
| JsonAgg.Inner | libs/exo-sql/src/sql/json_agg.rs:21-25 | a text parses iff it has that opening and closing, and the parse is what lies between |
| JsonAgg.InnerOfBuild | libs/exo-sql/src/sql/json_agg.rs:21-25 | parsing a built expression recovers the inner column's text |
| JsonAgg.BuildOfInner | libs/exo-sql/src/sql/json_agg.rs:21-25 | rewrapping a parsed inner text gives back the original text |
| Http.Lower | crates/common/src/http.rs:49 | lower-casing keeps the length and lowers each character |
| Http.LowerNormalises | crates/common/src/http.rs:43-57 | lower-cased keys contain no upper case, lower-casing is idempotent, and it leaves lower-case keys alone |
| Http.New | crates/common/src/http.rs:30-34 | a new header map has no entries |
| Http.FromMap | crates/common/src/http.rs:36-38 | the map is adopted as is, without normalising its keys |
| Http.Get | crates/common/src/http.rs:48-50 | a lookup finds a value iff the lower-cased key is present, and returns that value |
| Http.Insert | crates/common/src/http.rs:52-54 | insertion adds the lower-cased key with the new value and leaves every other key unchanged |
| Http.Remove | crates/common/src/http.rs:56-58 | removal drops exactly the lower-cased key and returns its previous value |
| Http.FromVec | crates/common/src/http.rs:40-46 | the keys are exactly the lower-cased input keys, none has upper case, and for each key the last pair with that key wins |
| Http.GetHeader | crates/common/src/http.rs:89-91 | the first value for the lower-cased key, or nothing when there is none |
| Http.StripLeading | crates/common/src/http.rs:106-108 | a present prefix is removed (prefix + result = path); an absent one leaves the path unchanged |
| Http.StripLeadingSlash | crates/common/src/http.rs:102-104 | one leading `/` is dropped if present |
| HttpProperties.GetAfterInsert | crates/common/src/http.rs:48-54 | after an insert, any key that equals the inserted one ignoring case reads the new value |
| HttpProperties.InsertLeavesOthers | crates/common/src/http.rs:52-54 | an insert does not change any case-insensitively different key |
| HttpProperties.RemoveReturnsPrevious | crates/common/src/http.rs:56-58 | removal returns what a get would have returned, the key is then absent, and other keys are unchanged |
| HttpProperties.UppercaseKeyUnreachable | crates/common/src/http.rs:36-38 | a key with upper case adopted by `from_map` can never be read through `get` |
| HttpProperties.StripLeadingRoundTrip | crates/common/src/http.rs:106-108 | stripping a prefix from prefix + rest gives back rest |
| HttpProperties.GetHeaderIgnoresCase | crates/common/src/http.rs:89-91 | keys that agree ignoring case fetch the same header |

## Left out

- The request context (`serde_json::Value`) is modelled as JSON with integer numbers only; floating-point numbers are not modelled.
- AccessSemantics.SolverSoundWhenColumnsLead: says nothing about a policy with `<`, `<=`, `>`, `>=` or `in` between a non-column on the left and a column on the right, because the solver as written reverses those comparisons (see Findings); `AccessSemantics.CorrectedSolverSound` covers every policy.
- SQL's three-valued `NULL` logic is not modelled: `Predicates.Eval` gives every comparison a plain true or false, so `c = NULL` holds on a row whose `c` is null, unlike in SQL. The soundness lemmas (`AccessSemantics.CorrectedSolverSound`, `AccessSemantics.SolverSoundWhenColumnsLead`) hold under that two-valued reading.
- AccessSolver.LiteralColumn: does not model the truncation of a context number to 32 bits (`as_i64().unwrap() as i32`) or the panic on a non-integer; numbers are passed through unchanged, because the model has integers only.
- AccessSolver.LiteralColumn: an object value is a `todo!()` crash in the source; the model excludes it by precondition (`LiteralOperand`, which `RelationalSolvable` requires of every value that reaches `literal_column`) instead of modelling the crash.
- Panics become preconditions:
  - a non-boolean context flag and a non-array right side of `in` (`Solvable`, `RelationalSolvable`);
  - an unbound variable (`Bound`);
  - a parameter with no column, or an unknown type id (`WellFormed`, `WellFormedParameter`); `WellFormed` also requires variable bindings to be constant values, as GraphQL variable values are;
  - an order-by argument that is neither object nor list (`Shaped`);
  - an aggregate field missing from the entity (`Mappable`).
- OrderByMapper.MapToOrderBy: `Shaped` also rules out a malformed entry that comes after an entry that already failed; the source would return the earlier error there rather than crash.
- Definitions not shown in the modelled files are modelled by their evident meaning:
  - `AbstractPredicate::eq/neq/Lt…` are the comparison constructors;
  - `and`/`or`/`not` simplify constants, and `not` of an equality is the inequality over the same operands;
  - `Predicate::from_name` maps `eq`, `neq`, `lt`, `lte`, `gt`, `gte` to comparisons and every other operator to an uninterpreted named predicate;
  - `to_column_path`/`to_column_id_path` append the link to the parent path (an absent parent is the empty path);
  - `get_argument_field` finds the first field of that name;
  - the mapper's `literal_column` wraps the argument unchanged;
  - `get_column` is the stored column.
- SQL rendering of tables, columns and parameters is a parameter of the model (`Renderer`); placeholder numbering (`$1`, `$2`, …) is not modelled.
- The transaction context's row counts and resolved values are function parameters; how earlier steps produce them is not modelled.
- `check_access` and `compute_predicate` in the aggregate resolver are inputs (their results); the async runtime is not modelled.
- OrderByMapper.ArgumentOrdering: the error message omits the rendering of the offending argument, which depends on GraphQL value display.
- Http.Lower: lower-cases ASCII letters only; Unicode case mapping (`to_lowercase`) is not modelled.
- The `IntoIterator` impl, `ResponsePayload`/`ResponseBody`, and the `RequestHead` methods other than `get_header` are left out: they are plumbing with no logic.
- The `json_agg` doc comment shows one closing parenthesis more than the code emits; the model follows the code.
- InsertProperties.ConcreteRowsRepeat: stated under an explicit every-cell-is-concrete precondition (the negation of `HasTemplateColumns`, spelled out).

## Findings

| source | as written | input that shows it | evidently intended | confidence | as-written member | corrected member |
|---|---|---|---|---|---|---|
| payas-server-core/src/data/access_solver.rs:158-168 | a (value, column) comparison is emitted as `column op value`, so for every operator other than `==` and `!=` (`<`, `<=`, `>`, `>=`, `in`) the meaning is reversed | policy `1 < self.c`, row with `c = 2`: the policy holds, but the emitted `c < 1` rejects the row; likewise `"a" in self.tags` with `tags = ["a"]` is emitted as `tags in "a"` (`AccessSemantics.SwappedInCounterexample`); the solver's own tests at 450-481 pin the swapped form for every operator | keep the declared operand order, so the residual filter means what the policy says | not executed | AccessSemantics.SwappedOperandsCounterexample | AccessSemantics.CorrectedSolverSound |
