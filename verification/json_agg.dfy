/** Postgres' `json_agg` wrapped so that no matching rows give an empty array. */
module JsonAgg {
  import opened Wrappers
  import opened Columns
  import opened SqlBuilder

  const Opening: string := "COALESCE(json_agg("

  /** Closes the aggregate and supplies the empty JSON array as the fallback. */
  const Closing: string := "), '[]'::json)"

  /** The SQL text for the aggregate of `inner`. */
  function Build(r: Renderer, inner: Column, qualify: bool): (sql: string)
    ensures |sql| == |Opening| + |r.column(inner, qualify)| + |Closing|
    ensures sql[..|Opening|] == Opening
    ensures sql[|sql| - |Closing|..] == Closing
    ensures sql[|Opening|..|sql| - |Closing|] == r.column(inner, qualify)
  {
    var text := Opening + r.column(inner, qualify) + Closing;
    assert text[..|Opening|] == Opening;
    assert text[|text| - |Closing|..] == Closing;
    assert text[|Opening|..|text| - |Closing|] == r.column(inner, qualify);
    text
  }

  /** Reads back the inner column's text from an aggregate's SQL. */
  function Inner(sql: string): (inner: Option<string>)
    ensures inner.Some? <==>
              |sql| >= |Opening| + |Closing| && sql[..|Opening|] == Opening && sql[|sql| - |Closing|..] == Closing
  {
    if |sql| >= |Opening| + |Closing| && sql[..|Opening|] == Opening && sql[|sql| - |Closing|..] == Closing
    then Some(sql[|Opening|..|sql| - |Closing|])
    else None
  }

  /** The inner column's text appears once, unmodified, between the opening
      and the closing, so it can be read back. */
  lemma InnerOfBuild(r: Renderer, inner: Column, qualify: bool)
    ensures Inner(Build(r, inner, qualify)) == Some(r.column(inner, qualify))
  {
  }

  /** Conversely, any text `Inner` accepts is the aggregate of what it reads back. */
  lemma BuildOfInner(sql: string)
    requires Inner(sql).Some?
    ensures Opening + Inner(sql).value + Closing == sql
  {
    var mid := Inner(sql).value;
    assert sql == sql[..|Opening|] + sql[|Opening|..|sql| - |Closing|] + sql[|sql| - |Closing|..];
  }
}
