/** What the header map and the path helpers promise. */
module HttpProperties {
  import opened Wrappers
  import opened Http

  /** After inserting under `key`, every spelling of that key reads the value. */
  lemma GetAfterInsert(h: Headers, key: string, value: string, other: string)
    requires Lower(other) == Lower(key)
    ensures Get(Insert(h, key, value), other) == Some(value)
  {
  }

  /** Inserting under `key` leaves every other lowercased key as it was. */
  lemma InsertLeavesOthers(h: Headers, key: string, value: string, other: string)
    requires Lower(other) != Lower(key)
    ensures Get(Insert(h, key, value), other) == Get(h, other)
  {
  }

  /** Removing returns the value `get` would have returned, leaves nothing
      under the key, and keeps the other keys. */
  lemma RemoveReturnsPrevious(h: Headers, key: string, other: string)
    ensures Remove(h, key).1 == Get(h, key)
    ensures Get(Remove(h, key).0, key) == None
    ensures Lower(other) != Lower(key) ==> Get(Remove(h, key).0, other) == Get(h, other)
  {
  }

  /** `FromMap` keeps keys verbatim, so an entry whose key has an uppercase
      letter is never what `get` reads, whatever key it is asked for. */
  lemma UppercaseKeyUnreachable(m: map<string, string>, key: string, query: string)
    requires key in m && !HasNoUpper(key)
    ensures Lower(query) != key
    ensures Get(FromMap(m), query) == Get(FromMap(m - {key}), query)
  {
    LowerNormalises(query);
  }

  /** Stripping a prefix that was just prepended gives the original back. */
  lemma StripLeadingRoundTrip(rest: string, leading: string)
    ensures StripLeading(leading + rest, leading) == rest
  {
    assert (leading + rest)[..|leading|] == leading;
  }

  /** The header lookup of a request ignores the case of the key. */
  lemma GetHeaderIgnoresCase(getHeaders: string -> seq<string>, key: string, other: string)
    requires Lower(key) == Lower(other)
    ensures GetHeader(getHeaders, key) == GetHeader(getHeaders, other)
  {
  }
}
