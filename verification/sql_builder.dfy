/** The text-building side of SQL generation: how tables and columns render,
    and joining rendered pieces with a separator. */
module SqlBuilder {
  import opened Columns

  /** How the builder renders its leaves. `physical` takes whether column
      names are to be qualified with their table. */
  datatype Renderer = Renderer(
    table: string -> string,
    physical: (PhysicalColumn, bool) -> string,
    column: (Column, bool) -> string)

  /** The pieces separated by `sep`. */
  function Join(parts: seq<string>, sep: string): string
    decreases |parts|
  {
    if |parts| == 0 then ""
    else if |parts| == 1 then parts[0]
    else Join(parts[..|parts| - 1], sep) + sep + parts[|parts| - 1]
  }

  /** The builder's `push_elems`: appends the pieces to `buffer`, one at a
      time, writing `sep` before every piece but the first. */
  method PushElems(buffer: string, parts: seq<string>, sep: string) returns (out: string)
    ensures out == buffer + Join(parts, sep)
  {
    out := buffer;
    var i := 0;
    while i < |parts|
      invariant 0 <= i <= |parts|
      invariant out == buffer + Join(parts[..i], sep)
    {
      if i > 0 {
        out := out + sep;
      }
      out := out + parts[i];
      assert parts[..i + 1][..i] == parts[..i];
      i := i + 1;
    }
    assert parts[..i] == parts;
  }
}
