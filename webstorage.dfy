/**
 * The browser's `localStorage`: one flat, origin-wide table from string keys to
 * string values, with `key(i)` enumerating its keys. Every store of the
 * application shares this one object.
 */
module WebStorage {
  import opened Wrappers

  /**
   * JSON serialisation of the values of type T, as the stores use it:
   * `encode` is `JSON.stringify`, `decode` is `JSON.parse` (None when it throws).
   */
  datatype Codec<!T> = Codec(encode: T -> string, decode: string -> Option<T>)

  /** `JSON.parse(JSON.stringify(v))` gives `v` back, and no value serialises to "". */
  ghost predicate Faithful<T(!new)>(c: Codec<T>) {
    forall v :: c.decode(c.encode(v)) == Some(v) && c.encode(v) != ""
  }

  predicate Distinct(keys: seq<string>) {
    forall i, j :: 0 <= i < j < |keys| ==> keys[i] != keys[j]
  }

  /** `keys` without `k`, the others in their order. */
  function Without(keys: seq<string>, k: string): (r: seq<string>)
    ensures forall x :: x in r <==> x in keys && x != k
    ensures Distinct(keys) ==> Distinct(r)
    ensures k !in keys ==> r == keys
  {
    if keys == [] then []
    else if keys[0] == k then Without(keys[1..], k)
    else
      var rest := Without(keys[1..], k);
      assert Distinct(keys) ==> keys[0] !in keys[1..];
      [keys[0]] + rest
  }

  class BrowserStore {
    /** The keys in the order `key(0)`, `key(1)`, ... reports them. */
    var keys: seq<string>
    var entries: map<string, string>

    ghost predicate Valid()
      reads this
    {
      Distinct(keys) && forall k :: k in entries <==> k in keys
    }

    constructor ()
      ensures Valid() && keys == [] && entries == map[]
    {
      keys, entries := [], map[];
    }

    /** `localStorage.getItem(k)`. */
    function GetItem(k: string): (r: Option<string>)
      reads this
      ensures r.Some? <==> k in entries
      ensures r.Some? ==> r.value == entries[k]
    {
      if k in entries then Some(entries[k]) else None
    }

    /** `localStorage.setItem(k, v)`: a new key is enumerated after the existing ones. */
    method SetItem(k: string, v: string)
      requires Valid()
      modifies this
      ensures Valid()
      ensures entries == old(entries)[k := v]
      ensures keys == if k in old(entries) then old(keys) else old(keys) + [k]
    {
      if k !in entries {
        keys := keys + [k];
      }
      entries := entries[k := v];
    }

    /** `localStorage.removeItem(k)`: a no-op when `k` is absent. */
    method RemoveItem(k: string)
      requires Valid()
      modifies this
      ensures Valid()
      ensures entries == old(entries) - {k}
      ensures keys == Without(old(keys), k)
      ensures k !in old(entries) ==> keys == old(keys) && entries == old(entries)
    {
      keys := Without(keys, k);
      entries := entries - {k};
    }
  }
}
