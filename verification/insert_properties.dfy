/** What expanding a templated insert and rendering an insert promise. */
module InsertProperties {
  import opened Wrappers
  import opened JsonValues
  import opened Columns
  import opened SqlBuilder
  import opened InsertStatements

  /** Row `i * |rows| + k` of the expansion is template row `k` instantiated
      for row `i` of the earlier step; there are `n * |rows|` rows in all. */
  lemma ExpandedGroup(rows: seq<seq<ProxyColumn>>, n: nat, tc: TransactionContext, i: nat, k: nat)
    requires i < n && k < |rows|
    ensures var out := ExpandAll(rows, n, tc);
            |out| == n * |rows| && i * |rows| + k < |out| && out[i * |rows| + k] == ExpandRow(rows, i, tc)[k]
  {
    ExpandAllGroup(rows, n, tc, i, k);
    OffsetIsProduct(i, |rows|);
    OffsetIsProduct(n, |rows|);
  }

  /** The expanded rows are grouped by the earlier step's row index in
      ascending order; inside group `i`, concrete cells are kept and every
      template cell takes the earlier step's value in row `i`. */
  lemma ExpandedCells(rows: seq<seq<ProxyColumn>>, n: nat, tc: TransactionContext, i: nat, k: nat, j: nat)
    requires i < n && k < |rows| && j < |rows[k]|
    ensures var out := ExpandAll(rows, n, tc);
            var idx := Offset(i, |rows|) + k;
            idx < |out| && |out[idx]| == |rows[k]| &&
            match rows[k][j]
            case Concrete(c) => out[idx][j] == c
            case Template(colIndex, stepId) => out[idx][j] == Param(tc.resolveValue(stepId, i, colIndex))
  {
    ExpandAllGroup(rows, n, tc, i, k);
    var out := ExpandAll(rows, n, tc);
    var idx := Offset(i, |rows|) + k;
    var expanded := ExpandRow(rows, i, tc);
    assert out[idx] == expanded[k];
    assert |expanded[k]| == |rows[k]|;
    assert expanded[k][j] == ExpandCell(rows[k][j], i, tc);
  }

  /** A template without template cells repeats its rows once per row of the
      earlier step. */
  lemma ConcreteRowsRepeat(rows: seq<seq<ProxyColumn>>, n: nat, tc: TransactionContext, i: nat, k: nat)
    requires forall r, j :: 0 <= r < |rows| && 0 <= j < |rows[r]| ==> rows[r][j].Concrete?
    requires i < n && k < |rows|
    ensures var out := ExpandAll(rows, n, tc);
            var idx := Offset(i, |rows|) + k;
            idx < |out| && |out[idx]| == |rows[k]| &&
            forall j :: 0 <= j < |rows[k]| ==> rows[k][j].Concrete? && out[idx][j] == rows[k][j].column
  {
    ExpandAllGroup(rows, n, tc, i, k);
    var out := ExpandAll(rows, n, tc);
    var idx := Offset(i, |rows|) + k;
    var expanded := ExpandRow(rows, i, tc);
    var row := expanded[k];
    assert out[idx] == row;
    assert |row| == |rows[k]|;
    forall j | 0 <= j < |rows[k]| ensures rows[k][j].Concrete? && row[j] == rows[k][j].column {
      assert expanded[k][j] == ExpandCell(rows[k][j], i, tc);
    }
  }

  /** With no earlier rows, a template without template cells still resolves,
      to an insert with no value rows. */
  lemma NoRowsNoTemplateIsEmpty(ti: TemplateInsert, prevStepId: nat, tc: TransactionContext)
    requires !HasTemplateColumns(ti.columnValuesSeq) && tc.rowCount(prevStepId) == 0
    ensures Resolve(ti, prevStepId, tc).Some? && Resolve(ti, prevStepId, tc).value.valuesSeq == []
  {
  }

  // ---------------------------------------------------------------------------
  // Rendering

  /** ` RETURNING <columns>` is appended exactly when there is something to
      return: the statement is the one without a returning list, extended. */
  lemma ReturningAppendedWhenNonEmpty(r: Renderer, ins: Insert, qualify: bool)
    ensures |ins.returning| == 0 ==> InsertSql(r, ins, qualify) == InsertSql(r, ins.(returning := []), qualify)
    ensures |ins.returning| > 0 ==>
              InsertSql(r, ins, qualify) ==
                InsertSql(r, ins.(returning := []), qualify) + " RETURNING " + Join(CellTexts(r, ins.returning, qualify), ", ")
  {
    var bare := ins.(returning := []);
    assert ColumnTexts(r, bare) == ColumnTexts(r, ins);
    assert RowTexts(r, bare, qualify, |ins.valuesSeq|) == RowTexts(r, ins, qualify, |ins.valuesSeq|);
  }

  /** Column names in the column list are rendered unqualified: whatever the
      builder's qualification, every insert opens with the table and its
      unqualified column names. */
  lemma ColumnListIgnoresQualification(r: Renderer, ins: Insert, qualify: bool)
    ensures var h := "INSERT INTO " + r.table(ins.table) + " ("
                     + Join(seq(|ins.columns|, i requires 0 <= i < |ins.columns| => r.physical(ins.columns[i], false)), ", ")
                     + ") VALUES (";
            |h| <= |InsertSql(r, ins, qualify)| && InsertSql(r, ins, qualify)[..|h|] == h
  {
    assert ColumnTexts(r, ins) == seq(|ins.columns|, i requires 0 <= i < |ins.columns| => r.physical(ins.columns[i], false));
  }
}
