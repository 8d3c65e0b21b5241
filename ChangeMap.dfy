/** The change kinds met in one release (`internal/changelog/changeMap.go`). */
module ChangeMap {
  import opened Strings

  /** Go's `map[string]bool`; the validator only ever stores `true`. */
  type ChangeMap = map<string, bool>

  /** `order` lists the strings of `keys`, each exactly once. */
  ghost predicate Enumerates(order: seq<string>, keys: set<string>) {
    Distinct(order) && forall k :: k in order <==> k in keys
  }

  /**
   * `String`: every key once, joined by ", ". Go visits a map in an
   * unspecified order, so the order is only known to be some listing of the keys.
   */
  method String(c: ChangeMap) returns (r: string, ghost order: seq<string>)
    ensures Enumerates(order, c.Keys)
    ensures r == Join(order, ", ")
    ensures |c| == 0 ==> r == ""
    ensures |c| == 1 ==> c.Keys == {r}
  {
    var changes: seq<string> := [];
    var remaining := c.Keys;
    while remaining != {}
      invariant remaining <= c.Keys
      invariant Distinct(changes)
      invariant forall k :: k in changes <==> k in c.Keys && k !in remaining
      decreases remaining
    {
      var k :| k in remaining;
      DistinctConcat(changes, [k]);
      changes := changes + [k];
      remaining := remaining - {k};
    }
    order := changes;
    r := Join(changes, ", ");
    EnumeratesSmall(changes, c.Keys);
  }

  /** Listings of the empty set and of a singleton. */
  lemma EnumeratesSmall(order: seq<string>, keys: set<string>)
    requires Enumerates(order, keys)
    ensures |keys| == 0 ==> order == []
    ensures |keys| == 1 ==> |order| == 1 && keys == {order[0]}
  {
    DistinctCardinality(order, keys);
    if |keys| == 1 {
      assert order[0] in keys;
      assert |keys - {order[0]}| == 0;
      assert keys - {order[0]} == {};
    }
  }
}
