/**
  The key/value state service used to hold the warming session token.
  Lookups carry a default, as the state service's `get($key, $default)` does.
  */
module TokenStore {

  type Store = map<string, string>

  /** Result of a lookup: a stored string, or the caller's default `FALSE`. */
  datatype Lookup = Absent | Found(value: string)

  function Get(st: Store, key: string): (r: Lookup)
    ensures r.Found? <==> key in st
    ensures r.Found? ==> r.value == st[key]
  {
    if key in st then Found(st[key]) else Absent
  }

  function Set(st: Store, key: string, value: string): (r: Store)
    ensures Get(r, key) == Found(value)
    ensures forall k :: k != key ==> Get(r, k) == Get(st, k)
  {
    st[key := value]
  }

  function Delete(st: Store, key: string): (r: Store)
    ensures Get(r, key) == Absent
    ensures forall k :: k != key ==> Get(r, k) == Get(st, k)
  {
    st - {key}
  }

  /** A session is active when its token is stored under itself. */
  predicate IsActive(st: Store, token: string) {
    Get(st, token) == Found(token)
  }
}
