/** SessionData: a session-scoped pull tool holding user data by name, in
    which a stored null is distinct from a missing name only to
    containsKey. */
module SessionData {
  import opened Wrappers

  /** Map.get: the stored value, or null (None) for a missing name or a
      stored null. */
  function Lookup<V>(storage: map<string, Option<V>>, key: string): (r: Option<V>)
    ensures r.Some? ==> key in storage && storage[key] == r
    ensures key !in storage ==> r == None
  {
    if key in storage then storage[key] else None
  }

  /** After a put, get gives the new value for its name and the old value
      for every other name. */
  lemma LookupAfterPut<V>(storage: map<string, Option<V>>, key: string, value: Option<V>, other: string)
    ensures Lookup(storage[key := value], key) == value
    ensures other != key ==> Lookup(storage[key := value], other) == Lookup(storage, other)
  {
  }

  /** A stored null and a missing name look alike to get; only
      containsKey tells them apart. */
  lemma NullLooksMissing<V>(storage: map<string, Option<V>>, key: string)
    ensures Lookup(storage[key := None], key) == Lookup(storage - {key}, key) == None
    ensures key in storage[key := None] && key !in storage - {key}
  {
  }

  class SessionData<V> {
    /** dataStorage: only meaningful once init has run. */
    var storage: map<string, Option<V>>
    /** Whether init has created the storage. */
    var initialized: bool

    /** The tool before init: dataStorage is still null. */
    constructor()
      ensures !initialized && storage == map[]
    {
      storage := map[];
      initialized := false;
    }

    /** init: a fresh, empty storage. */
    method Init()
      modifies this
      ensures initialized && storage == map[]
    {
      storage := map[];
      initialized := true;
    }

    /** refresh: does nothing. */
    method Refresh()
      ensures unchanged(this)
    {
    }

    /** get. */
    function Get(key: string): (r: Option<V>)
      requires initialized
      reads this
      ensures r == Lookup(storage, key)
    {
      Lookup(storage, key)
    }

    /** containsKey: true for every put name, a null value included. */
    function ContainsKey(key: string): (r: bool)
      requires initialized
      reads this
      ensures r <==> key in storage
      ensures !r ==> Get(key) == None
    {
      key in storage
    }

    /** put: overwrites the name's value and leaves the others alone. */
    method Put(key: string, value: Option<V>)
      requires initialized
      modifies this
      ensures initialized && storage == old(storage)[key := value]
      ensures Get(key) == value && ContainsKey(key)
      ensures forall k :: k != key ==> Get(k) == old(Get(k))
    {
      storage := storage[key := value];
    }

    /** clear: no name is left. */
    method Clear()
      requires initialized
      modifies this
      ensures initialized && storage == map[]
      ensures forall k :: !ContainsKey(k)
    {
      storage := map[];
    }

    /** The names stored, as the key-set iterator walks them (the order is
        not modelled). */
    function Keys(): (r: set<string>)
      requires initialized
      reads this
      ensures forall k :: k in r <==> ContainsKey(k)
    {
      storage.Keys
    }
  }
}
