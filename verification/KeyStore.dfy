/** The part of Redis the server uses: keys with a time to live, SET NX EX, SETEX and GET. */
module KeyStore {
  import opened Wrappers

  datatype Entry<+V> = Entry(value: V, expires: int)

  type Entries<K, V> = map<K, Entry<V>>

  // The key is present at time t.
  predicate Live<K, V>(entries: Entries<K, V>, k: K, t: int) {
    k in entries && t < entries[k].expires
  }

  // Times are seconds; every command names the moment at which the store executes it.
  class Redis<K(==), V> {
    var entries: Entries<K, V>

    constructor ()
      ensures entries == map[]
    {
      entries := map[];
    }

    method SetNx(k: K, v: V, ttl: int, at: int) returns (ok: bool)
      modifies this
      ensures ok <==> !Live(old(entries), k, at)
      ensures entries == if ok then old(entries)[k := Entry(v, at + ttl)] else old(entries)
    {
      ok := !Live(entries, k, at);
      if ok {
        entries := entries[k := Entry(v, at + ttl)];
      }
    }

    method SetEx(k: K, v: V, ttl: int, at: int)
      modifies this
      ensures entries == old(entries)[k := Entry(v, at + ttl)]
    {
      entries := entries[k := Entry(v, at + ttl)];
    }

    method Get(k: K, at: int) returns (v: Option<V>)
      ensures v == if Live(entries, k, at) then Some(entries[k].value) else None
    {
      v := if Live(entries, k, at) then Some(entries[k].value) else None;
    }
  }
}
