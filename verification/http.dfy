/** The HTTP side of the server: a header map that ignores the case of its
    keys, the first-header default of a request head, and path prefix
    stripping. */
module Http {
  import opened Wrappers

  // ---------------------------------------------------------------------------
  // Lowercasing

  function LowerChar(c: char): char {
    if 'A' <= c <= 'Z' then (c as int + 32) as char else c
  }

  /** The key lowercased, letter by letter. */
  function Lower(s: string): (r: string)
    ensures |r| == |s|
    ensures forall i :: 0 <= i < |s| ==> r[i] == LowerChar(s[i])
  {
    seq(|s|, i requires 0 <= i < |s| => LowerChar(s[i]))
  }

  predicate HasNoUpper(s: string) {
    forall i :: 0 <= i < |s| ==> !('A' <= s[i] <= 'Z')
  }

  /** Lowercasing leaves no uppercase letter, changes nothing that has none,
      and so is idempotent. */
  lemma LowerNormalises(s: string)
    ensures HasNoUpper(Lower(s))
    ensures HasNoUpper(s) ==> Lower(s) == s
    ensures Lower(Lower(s)) == Lower(s)
  {
    assert HasNoUpper(Lower(s));
  }

  // ---------------------------------------------------------------------------
  // Headers

  datatype Headers = Headers(inner: map<string, string>)

  function New(): (h: Headers)
    ensures forall k :: k !in h.inner
  {
    Headers(map[])
  }

  /** The map taken as it is: its keys are not lowercased. */
  function FromMap(m: map<string, string>): (h: Headers)
    ensures h.inner == m
  {
    Headers(m)
  }

  /** The value under the lowercased key. */
  function Get(h: Headers, key: string): (r: Option<string>)
    ensures r.Some? <==> Lower(key) in h.inner
    ensures r.Some? ==> r.value == h.inner[Lower(key)]
  {
    if Lower(key) in h.inner then Some(h.inner[Lower(key)]) else None
  }

  function Insert(h: Headers, key: string, value: string): (r: Headers)
    ensures r.inner.Keys == h.inner.Keys + {Lower(key)}
    ensures r.inner[Lower(key)] == value
    ensures forall k :: k in h.inner && k != Lower(key) ==> r.inner[k] == h.inner[k]
  {
    Headers(h.inner[Lower(key) := value])
  }

  /** The headers without the lowercased key, and the value it held. */
  function Remove(h: Headers, key: string): (r: (Headers, Option<string>))
    ensures r.0.inner.Keys == h.inner.Keys - {Lower(key)}
    ensures forall k :: k in r.0.inner ==> r.0.inner[k] == h.inner[k]
    ensures r.1.Some? <==> Lower(key) in h.inner
    ensures r.1.Some? ==> r.1.value == h.inner[Lower(key)]
  {
    var k := Lower(key);
    (Headers(h.inner - {k}), if k in h.inner then Some(h.inner[k]) else None)
  }

  /** Inserts the pairs in order, each under its lowercased key. */
  method FromVec(pairs: seq<(string, string)>) returns (h: Headers)
    ensures forall k :: k in h.inner <==> exists i :: 0 <= i < |pairs| && Lower(pairs[i].0) == k
    ensures forall k :: k in h.inner ==> HasNoUpper(k)
    ensures forall i :: 0 <= i < |pairs| ==>
              (forall j :: i < j < |pairs| ==> Lower(pairs[j].0) != Lower(pairs[i].0)) ==>
              h.inner[Lower(pairs[i].0)] == pairs[i].1
  {
    h := New();
    var n := 0;
    while n < |pairs|
      invariant 0 <= n <= |pairs|
      invariant forall k :: k in h.inner <==> exists i :: 0 <= i < n && Lower(pairs[i].0) == k
      invariant forall k :: k in h.inner ==> HasNoUpper(k)
      invariant forall i :: 0 <= i < n ==>
                  (forall j :: i < j < n ==> Lower(pairs[j].0) != Lower(pairs[i].0)) ==>
                  h.inner[Lower(pairs[i].0)] == pairs[i].1
    {
      LowerNormalises(pairs[n].0);
      h := Insert(h, pairs[n].0, pairs[n].1);
      n := n + 1;
    }
  }

  // ---------------------------------------------------------------------------
  // Request heads and paths

  /** The request's first header under the lowercased key; `getHeaders` stands
      for the request's own lookup of every header value under a key. */
  function GetHeader(getHeaders: string -> seq<string>, key: string): (r: Option<string>)
    ensures r.Some? <==> |getHeaders(Lower(key))| > 0
    ensures r.Some? ==> r.value == getHeaders(Lower(key))[0]
  {
    var values := getHeaders(Lower(key));
    if |values| > 0 then Some(values[0]) else None
  }

  /** The path without the `leading` prefix when it has it, the path itself otherwise. */
  function StripLeading(path: string, leading: string): (r: string)
    ensures |leading| <= |path| && path[..|leading|] == leading ==> leading + r == path
    ensures !(|leading| <= |path| && path[..|leading|] == leading) ==> r == path
  {
    if |leading| <= |path| && path[..|leading|] == leading then
      assert path == path[..|leading|] + path[|leading|..];
      path[|leading|..]
    else path
  }

  function StripLeadingSlash(path: string): (r: string)
    ensures r == StripLeading(path, "/")
    ensures |path| > 0 && path[0] == '/' ==> r == path[1..]
    ensures (|path| == 0 || path[0] != '/') ==> r == path
  {
    StripLeading(path, "/")
  }
}
