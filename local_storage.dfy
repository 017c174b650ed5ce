/**
 * The in-memory stand-in for `window.localStorage` installed for the test
 * environment: a key-to-string dictionary whose reads turn an empty stored
 * string into `null`.
 */
module LocalStorage {
  import opened Wrappers
  import opened Jwt

  /** `String(value)` for the values callers store. */
  function StringOf(v: JsonValue): (r: string)
    ensures r == [] <==> v == JStr([])
  {
    match v
    case JNull => "null"
    case JBool(b) => if b then "true" else "false"
    case JNum(n) => Decimal(n)
    case JStr(s) => s
    case JObject => "[object Object]"
  }

  /** What `getItem(key)` returns for a store: `store[key] || null`. */
  function Lookup(store: map<string, string>, key: string): (r: Option<string>)
    ensures r.Some? <==> key in store && store[key] != []
    ensures r.Some? ==> r.value == store[key]
  {
    if key in store && store[key] != [] then Some(store[key]) else None
  }

  class LocalStorageMock {
    var store: map<string, string>

    constructor()
      ensures store == map[]
    {
      store := map[];
    }

    method Clear()
      modifies this
      ensures store == map[]
    {
      store := map[];
    }

    method GetItem(key: string) returns (r: Option<string>)
      ensures r == Lookup(store, key)
    {
      if key in store && store[key] != [] {
        r := Some(store[key]);
      } else {
        r := None;
      }
    }

    method SetItem(key: string, value: JsonValue)
      modifies this
      ensures store == old(store)[key := StringOf(value)]
    {
      store := store[key := StringOf(value)];
    }

    method RemoveItem(key: string)
      modifies this
      ensures store == old(store) - {key}
    {
      store := store - {key};
    }
  }

  /**
   * After `setItem(k, v)`, `getItem(k)` is `String(v)`, except that a stored
   * empty string reads back as `null`; every other key reads as before.
   */
  lemma ReadAfterSet(store: map<string, string>, k: string, v: JsonValue, other: string)
    requires other != k
    ensures Lookup(store[k := StringOf(v)], k) == if v == JStr([]) then None else Some(StringOf(v))
    ensures Lookup(store[k := StringOf(v)], other) == Lookup(store, other)
  {
  }

  /** Of two writes to one key the last one wins. */
  lemma LastWriteWins(store: map<string, string>, k: string, v: JsonValue, w: JsonValue)
    ensures store[k := StringOf(v)][k := StringOf(w)] == store[k := StringOf(w)]
  {
  }

  /**
   * After `removeItem(k)`, `k` reads `null` and every other key reads as
   * before; removing an absent key changes nothing.
   */
  lemma ReadAfterRemove(store: map<string, string>, k: string, other: string)
    requires other != k
    ensures Lookup(store - {k}, k) == None
    ensures Lookup(store - {k}, other) == Lookup(store, other)
    ensures k !in store ==> store - {k} == store
  {
  }

  /** After `clear()` every key reads `null`. */
  lemma ReadAfterClear(k: string)
    ensures Lookup(map[], k) == None
  {
  }
}
