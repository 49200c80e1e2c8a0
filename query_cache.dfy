/**
 * The part of the client-side query cache the hooks use: entries stored under array keys, read
 * and overwritten in place, and invalidation requests, which mark every query whose key starts
 * with the given key as stale. A refetch that follows an invalidation happens outside the model;
 * the cache keeps the list of invalidated keys in the order they were requested.
 */
module QueryCache {
  import opened Wrappers

  type QueryKey = seq<string>

  /** An invalidation of `prefix` reaches the query with key `key`. */
  predicate Matches(prefix: QueryKey, key: QueryKey) {
    prefix <= key
  }

  /** One cache holding values of type `V`. */
  class QueryClient<V> {
    var data: map<QueryKey, V>
    var invalidated: seq<QueryKey>

    constructor()
      ensures data == map[] && invalidated == []
    {
      data := map[];
      invalidated := [];
    }

    /** `getQueryData(key)`: the cached value, or `undefined` when there is none. */
    function GetQueryData(key: QueryKey): (r: Option<V>)
      reads this
      ensures r.Some? <==> key in data
      ensures r.Some? ==> r.value == data[key]
    {
      if key in data then Some(data[key]) else None
    }

    /** `setQueryData(key, value)`. */
    method SetQueryData(key: QueryKey, value: V)
      modifies this
      ensures data == old(data)[key := value]
      ensures invalidated == old(invalidated)
      ensures GetQueryData(key) == Some(value)
      ensures forall k :: k != key ==> GetQueryData(k) == old(GetQueryData(k))
    {
      data := data[key := value];
    }

    /** `invalidateQueries({ queryKey: key })`: the entries stay, marked stale. */
    method InvalidateQueries(key: QueryKey)
      modifies this
      ensures data == old(data)
      ensures invalidated == old(invalidated) + [key]
    {
      invalidated := invalidated + [key];
    }
  }
}
