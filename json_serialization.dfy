/**
 * `JsonSerializationFactory`: the process-wide dictionary from a type to the
 * serializer registered for it. The dictionary becomes a `map` field of a
 * class; a key stands for `typeof(T)` and a `None` value for a null
 * reference, which the dictionary stores like any other value.
 */
module JsonSerialization {
  import opened Wrappers
  import opened JsonModel

  /**
   * `IJsonSerializable<T>`: `deserialize` receives the parsed element, which
   * is null (None) when the parser read an empty buffer.
   */
  datatype Serializer<!T> = Serializer(serialize: T -> Element, deserialize: Option<Element> -> T)

  /**
   * The dictionary and the result after `TryRegister(s, ignoreExists)` for
   * `key`: `TryAdd` when `ignoreExists` is false, otherwise `AddOrUpdate`
   * with the update `o ?? serializer` and the test `!= null` on the value it
   * leaves.
   */
  function Registered<K, S>(entries: map<K, Option<S>>, key: K, s: Option<S>, ignoreExists: bool): (r: (map<K, Option<S>>, bool))
    ensures r.0.Keys == entries.Keys + {key}
    ensures forall k :: k in entries && k != key ==> r.0[k] == entries[k]
    ensures key !in entries ==> r.0[key] == s
    ensures key in entries && entries[key].Some? ==> r.0[key] == entries[key]
    ensures key in entries && entries[key].None? ==> r.0[key] == if ignoreExists then s else None
    ensures !ignoreExists ==> (r.1 <==> key !in entries)
    ensures ignoreExists ==> (r.1 <==> r.0[key].Some?)
  {
    if ignoreExists then
      var v := if key in entries && entries[key].Some? then entries[key] else s;
      (entries[key := v], v.Some?)
    else if key in entries then (entries, false)
    else (entries[key := s], true)
  }

  /** The registry: one dictionary, updated in place. */
  class SerializerRegistry<K(==), S> {
    var entries: map<K, Option<S>>

    constructor()
      ensures entries == map[]
    {
      entries := map[];
    }

    /** `GetSerializer<T>`: the stored serializer, or null when `T` has no entry. */
    function GetSerializer(key: K): (r: Option<S>)
      reads this
      ensures r.Some? <==> key in entries && entries[key].Some?
      ensures r.Some? ==> r == entries[key]
    {
      Lookup(entries, key)
    }

    /** `TryRegister<T>`. */
    method TryRegister(key: K, s: Option<S>, ignoreExists: bool) returns (ok: bool)
      modifies this
      ensures (entries, ok) == Registered(old(entries), key, s, ignoreExists)
      ensures forall k :: k != key ==> Lookup(entries, k) == Lookup(old(entries), k)
    {
      if ignoreExists {
        var v := if key in entries && entries[key].Some? then entries[key] else s;
        entries := entries[key := v];
        ok := v.Some?;
      } else if key in entries {
        ok := false;
      } else {
        entries := entries[key := s];
        ok := true;
      }
    }
  }

  /** `TryGetValue`, with null for a missing key. */
  function Lookup<K, S>(entries: map<K, Option<S>>, key: K): Option<S>
  {
    if key in entries then entries[key] else None
  }

  /**
   * The first registration of a key wins: a later `TryRegister` for that key,
   * in either mode, leaves the serializer in place; only the plain mode says
   * so by returning false.
   */
  lemma FirstRegistrationWins<K, S>(entries: map<K, Option<S>>, key: K, first: S, later: Option<S>, ignoreExists: bool)
    requires key !in entries
    ensures var (once, ok1) := Registered(entries, key, Some(first), false);
      var (twice, ok2) := Registered(once, key, later, ignoreExists);
      ok1 && Lookup(twice, key) == Some(first) && (ok2 <==> ignoreExists) && twice == once
  {
    var once := Registered(entries, key, Some(first), false).0;
    assert once[key] == Some(first);
    assert Registered(once, key, later, ignoreExists).0 == once;
  }

  /** Registering a key changes no lookup of another key. */
  lemma RegisterIsolated<K, S>(entries: map<K, Option<S>>, key: K, s: Option<S>, ignoreExists: bool, other: K)
    requires other != key
    ensures Lookup(Registered(entries, key, s, ignoreExists).0, other) == Lookup(entries, other)
  {
  }

  /** Registering a non-null serializer for a missing key always succeeds and is found afterwards. */
  lemma RegisterThenGet<K, S>(entries: map<K, Option<S>>, key: K, s: S, ignoreExists: bool)
    requires key !in entries
    ensures Registered(entries, key, Some(s), ignoreExists).1
    ensures Lookup(Registered(entries, key, Some(s), ignoreExists).0, key) == Some(s)
  {
  }

  /** In the overriding mode, registering a null over nothing stores the null and reports failure. */
  lemma RegisterNullFails<K, S>(entries: map<K, Option<S>>, key: K)
    requires key !in entries || entries[key].None?
    ensures Registered(entries, key, None, true) == (entries[key := None], false)
  {
  }
}
