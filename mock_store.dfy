/** MockStore of tests/conftest.py: the store the test suite runs against, a dict
    updated in place. */
module MockStores {
  import opened Outcomes
  import opened Json

  /** The document _setup stores under each of its keys. */
  const Document: Value := Str("{\"key\": \"value\"}")

  /** What _setup puts in the dict. */
  const InitialContents: map<string, Value> := map["i:1" := Document, "i:2" := Document, "i:3" := Document]

  /** get's answer for a stored value (None for an absent key): the value when truthy,
      StoreKeyNotFound otherwise. */
  function Fetched(v: Value): (r: Outcome<Value>)
    ensures r.Returned? <==> Truthy(v)
    ensures r.Returned? ==> r.value == v
    ensures r.Raised? ==> r.exc == StoreKeyNotFound
  {
    if Truthy(v) then Returned(v) else Raised(StoreKeyNotFound)
  }

  class MockStore {
    var store: map<string, Value>

    /** BaseStore.__init__ calling _setup. */
    constructor ()
      ensures store == InitialContents
    {
      store := InitialContents;
    }

    /** cache_set: the ttl is ignored. */
    method CacheSet(key: string, data: Value, ttl: int)
      modifies this
      ensures store == old(store)[key := data]
    {
      store := store[key := data];
    }

    /** cache_get: dict.get, None for an absent key; it never raises. */
    method CacheGet(key: string) returns (v: Value)
      ensures key in store ==> v == store[key]
      ensures key !in store ==> v == Null
    {
      v := Json.Get(store, key);
    }

    /** get: the value from cache_get when it is truthy, StoreKeyNotFound otherwise. */
    method Get(key: string) returns (r: Outcome<Value>)
      ensures r == Fetched(Json.Get(store, key))
      ensures r.Returned? ==> key in store && r.value == store[key]
    {
      var value := CacheGet(key);
      if Truthy(value) {
        return Returned(value);
      }
      r := Raised(StoreKeyNotFound);
    }
  }

  /** After cache_set(k, d, ttl), cache_get(k) gives d and every other key keeps its value. */
  method SetThenGet(s: MockStore, key: string, data: Value, ttl: int) returns (v: Value)
    modifies s
    ensures v == data
    ensures forall k :: k != key ==> Json.Get(s.store, k) == Json.Get(old(s.store), k)
  {
    s.CacheSet(key, data, ttl);
    v := s.CacheGet(key);
  }

  /** A fresh store holds exactly i:1, i:2 and i:3, and get finds each of them. */
  lemma InitialKeys()
    ensures InitialContents.Keys == {"i:1", "i:2", "i:3"}
    ensures forall k :: k in InitialContents ==> Fetched(InitialContents[k]) == Returned(Document)
  {
  }
}
