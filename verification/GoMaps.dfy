/** Go's loops over maps, whose order is arbitrary. */
module GoMaps {
  /** `for k, v := range entries { into[k] = v }`. */
  method StoreAll<V>(into: map<string, V>, entries: map<string, V>) returns (m: map<string, V>)
    ensures m == into + entries
  {
    m := into;
    var left := entries.Keys;
    while left != {}
      invariant left <= entries.Keys
      invariant m == into + (entries - left)
    {
      var k :| k in left;
      m := m[k := entries[k]];
      left := left - {k};
    }
    assert entries - left == entries;
  }
}
