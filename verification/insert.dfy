/** Insert statements: the templated insert of a multi-step transaction, its
    expansion once the earlier step's rows are known, and the SQL text of an
    insert. */
module InsertStatements {
  import opened Wrappers
  import opened JsonValues
  import opened Columns
  import opened SqlBuilder

  /** A cell of a templated insert: a known column, or a value to be taken
      from column `colIndex` of the rows step `stepId` produced. */
  datatype ProxyColumn = Concrete(column: Column) | Template(colIndex: nat, stepId: nat)

  datatype TemplateInsert = TemplateInsert(
    table: string,
    columnNames: seq<PhysicalColumn>,
    columnValuesSeq: seq<seq<ProxyColumn>>,
    returning: seq<Column>)

  datatype Insert = Insert(
    table: string,
    columns: seq<PhysicalColumn>,
    valuesSeq: seq<seq<Column>>,
    returning: seq<Column>)

  /** What the running transaction knows about its earlier steps: how many
      rows a step produced, and the value in a step's row and column. */
  datatype TransactionContext = TransactionContext(
    rowCount: nat -> nat,
    resolveValue: (nat, nat, nat) -> Json)

  // ---------------------------------------------------------------------------
  // Expansion

  function HasTemplateColumns(rows: seq<seq<ProxyColumn>>): (b: bool)
    ensures b <==> exists i, j :: 0 <= i < |rows| && 0 <= j < |rows[i]| && rows[i][j].Template?
  {
    if rows == [] then false
    else
      var rest := HasTemplateColumns(rows[1..]);
      assert forall i :: 1 <= i < |rows| ==> rows[1..][i - 1] == rows[i];
      (exists j :: 0 <= j < |rows[0]| && rows[0][j].Template?) || rest
  }

  /** One cell instantiated for row `rowIndex` of the earlier step: a concrete
      column is kept, a template becomes a parameter holding the value that
      step produced at that row and the template's column. */
  function ExpandCell(cell: ProxyColumn, rowIndex: nat, tc: TransactionContext): (c: Column)
    ensures cell.Concrete? ==> c == cell.column
    ensures cell.Template? ==> c == Param(tc.resolveValue(cell.stepId, rowIndex, cell.colIndex))
  {
    match cell
    case Concrete(c) => c
    case Template(colIndex, stepId) => Param(tc.resolveValue(stepId, rowIndex, colIndex))
  }

  /** Every templated row instantiated for row `rowIndex` of the earlier step. */
  function ExpandRow(rows: seq<seq<ProxyColumn>>, rowIndex: nat, tc: TransactionContext): (out: seq<seq<Column>>)
    ensures |out| == |rows|
    ensures forall k :: 0 <= k < |rows| ==> |out[k]| == |rows[k]|
    ensures forall k, j :: 0 <= k < |rows| && 0 <= j < |rows[k]| ==> out[k][j] == ExpandCell(rows[k][j], rowIndex, tc)
  {
    seq(|rows|, k requires 0 <= k < |rows| =>
      seq(|rows[k]|, j requires 0 <= j < |rows[k]| => ExpandCell(rows[k][j], rowIndex, tc)))
  }

  /** Where group `i` starts when every group holds `m` rows: `i * m`, built
      up by addition so that the proofs about it stay linear. */
  function Offset(i: nat, m: nat): nat {
    if i == 0 then 0 else Offset(i - 1, m) + m
  }

  lemma {:induction false} OffsetIsProduct(i: nat, m: nat)
    ensures Offset(i, m) == i * m
  {
    if i > 0 {
      OffsetIsProduct(i - 1, m);
      assert i * m == (i - 1) * m + m;
    }
  }

  /** The templated rows instantiated for row indexes `0 .. n`, grouped by row index. */
  function ExpandAll(rows: seq<seq<ProxyColumn>>, n: nat, tc: TransactionContext): (out: seq<seq<Column>>)
    ensures |out| == Offset(n, |rows|)
  {
    if n == 0 then [] else ExpandAll(rows, n - 1, tc) + ExpandRow(rows, n - 1, tc)
  }

  /** Group `i` of the expansion is the template instantiated for row `i`. */
  lemma {:induction false} ExpandAllGroup(rows: seq<seq<ProxyColumn>>, n: nat, tc: TransactionContext, i: nat, k: nat)
    requires i < n && k < |rows|
    ensures Offset(i, |rows|) + k < |ExpandAll(rows, n, tc)|
    ensures ExpandAll(rows, n, tc)[Offset(i, |rows|) + k] == ExpandRow(rows, i, tc)[k]
  {
    var prefix := ExpandAll(rows, n - 1, tc);
    var last := ExpandRow(rows, n - 1, tc);
    assert ExpandAll(rows, n, tc) == prefix + last;
    if i < n - 1 {
      ExpandAllGroup(rows, n - 1, tc, i, k);
      assert (prefix + last)[Offset(i, |rows|) + k] == prefix[Offset(i, |rows|) + k];
    } else {
      assert (prefix + last)[Offset(i, |rows|) + k] == last[k];
    }
  }

  /** The insert to run once the earlier step `prevStepId` has run, or nothing
      when the template needs that step's rows and there are none. */
  function Resolve(ti: TemplateInsert, prevStepId: nat, tc: TransactionContext): (r: Option<Insert>)
    ensures r.None? <==> HasTemplateColumns(ti.columnValuesSeq) && tc.rowCount(prevStepId) == 0
    ensures r.Some? ==> r.value.table == ti.table && r.value.columns == ti.columnNames && r.value.returning == ti.returning
    ensures r.Some? ==> r.value.valuesSeq == ExpandAll(ti.columnValuesSeq, tc.rowCount(prevStepId), tc)
  {
    var rowCount := tc.rowCount(prevStepId);
    if HasTemplateColumns(ti.columnValuesSeq) && rowCount == 0 then None
    else Some(Insert(ti.table, ti.columnNames, ExpandAll(ti.columnValuesSeq, rowCount, tc), ti.returning))
  }

  // ---------------------------------------------------------------------------
  // Rendering

  /** The column list, unqualified. */
  function ColumnTexts(r: Renderer, ins: Insert): (texts: seq<string>)
    ensures |texts| == |ins.columns|
    ensures forall i :: 0 <= i < |ins.columns| ==> texts[i] == r.physical(ins.columns[i], false)
  {
    seq(|ins.columns|, i requires 0 <= i < |ins.columns| => r.physical(ins.columns[i], false))
  }

  function CellTexts(r: Renderer, row: seq<Column>, qualify: bool): (texts: seq<string>)
    ensures |texts| == |row|
    ensures forall j :: 0 <= j < |row| ==> texts[j] == r.column(row[j], qualify)
  {
    seq(|row|, j requires 0 <= j < |row| => r.column(row[j], qualify))
  }

  function RowSql(r: Renderer, row: seq<Column>, qualify: bool): string {
    Join(CellTexts(r, row, qualify), ", ")
  }

  function RowTexts(r: Renderer, ins: Insert, qualify: bool, n: nat): (texts: seq<string>)
    requires n <= |ins.valuesSeq|
    ensures |texts| == n
    ensures forall i :: 0 <= i < n ==> texts[i] == RowSql(r, ins.valuesSeq[i], qualify)
  {
    seq(n, i requires 0 <= i < n => RowSql(r, ins.valuesSeq[i], qualify))
  }

  /** `INSERT INTO <table> (<columns>) VALUES (<row>), (<row>) [RETURNING <columns>]`,
      with the returning clause only when there is something to return; the
      column list is unqualified, the values and the returning list are
      rendered with the builder's current qualification. */
  function InsertSql(r: Renderer, ins: Insert, qualify: bool): (sql: string)
    ensures var head := "INSERT INTO " + r.table(ins.table) + " (";
            |head| <= |sql| && sql[..|head|] == head
    ensures |ins.returning| == 0 ==> sql[|sql| - 1] == ')'
  {
    "INSERT INTO " + r.table(ins.table) + " (" + Join(ColumnTexts(r, ins), ", ") + ") VALUES ("
      + Join(RowTexts(r, ins, qualify, |ins.valuesSeq|), "), (") + ")"
      + (if |ins.returning| == 0 then "" else " RETURNING " + Join(CellTexts(r, ins.returning, qualify), ", "))
  }

  /** The builder's pushes in order, as the insert's `build` issues them. */
  method BuildInsert(r: Renderer, ins: Insert, qualify: bool) returns (sql: string)
    ensures sql == InsertSql(r, ins, qualify)
  {
    sql := "INSERT INTO " + r.table(ins.table) + " (";
    sql := PushElems(sql, ColumnTexts(r, ins), ", ");
    sql := sql + ") VALUES (";
    var start := sql;
    var i := 0;
    while i < |ins.valuesSeq|
      invariant 0 <= i <= |ins.valuesSeq|
      invariant sql == start + Join(RowTexts(r, ins, qualify, i), "), (")
    {
      if i > 0 {
        sql := sql + "), (";
      }
      sql := PushElems(sql, CellTexts(r, ins.valuesSeq[i], qualify), ", ");
      assert RowTexts(r, ins, qualify, i + 1)[..i] == RowTexts(r, ins, qualify, i);
      i := i + 1;
    }
    sql := sql + ")";
    if |ins.returning| != 0 {
      sql := sql + " RETURNING ";
      sql := PushElems(sql, CellTexts(r, ins.returning, qualify), ", ");
    }
  }
}
