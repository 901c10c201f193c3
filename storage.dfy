/**
 * `LocalStorage`: a prefix-namespaced view of the shared browser table. Every
 * key `k` of the view lives in the table under `${prefix}-${k}`, and values are
 * stored as their JSON text.
 */
module Storage {
  import opened Wrappers
  import opened Text
  import opened WebStorage

  /** The table key under which the view with `prefix` keeps its key `key`. */
  function Prefixed(prefix: string, key: string): string {
    prefix + "-" + key
  }

  /** Within one prefix, distinct keys occupy distinct table keys. */
  lemma PrefixedInjective(prefix: string, k1: string, k2: string)
    ensures Prefixed(prefix, k1) == Prefixed(prefix, k2) ==> k1 == k2
  {
    if Prefixed(prefix, k1) == Prefixed(prefix, k2) {
      var n := |prefix| + 1;
      assert Prefixed(prefix, k1)[n..] == k1;
      assert Prefixed(prefix, k2)[n..] == k2;
    }
  }

  /**
   * Across prefixes they need not: the dash is not escaped, so the key
   * `x-y` of the view `prefix` and the key `y` of the view `prefix-x` are one
   * table key, for instance ("a", "b-c") and ("a-b", "c").
   */
  lemma PrefixedCollides(prefix: string, x: string, y: string)
    ensures Prefixed(prefix, x + "-" + y) == Prefixed(prefix + "-" + x, y)
    ensures prefix != prefix + "-" + x
  {
    assert |prefix| < |prefix + "-" + x|;
  }

  /** Every table key a view writes starts with that view's prefix. */
  lemma PrefixedStartsWith(prefix: string, key: string)
    ensures StartsWith(Prefixed(prefix, key), prefix)
  {
    assert Prefixed(prefix, key)[..|prefix|] == prefix;
  }

  /** `item ? JSON.parse(item) : null` for the raw string `item` the table returned. */
  function Parse<T>(item: Option<string>, codec: Codec<T>): (r: Result<Option<T>, Thrown>)
    ensures item.None? || item.value == "" ==> r == Ok(None)
    ensures item.Some? && item.value != "" ==>
              (r.Err? <==> codec.decode(item.value).None?) &&
              (r.Ok? ==> r.value == codec.decode(item.value))
    ensures r.Err? ==> r.error == MalformedJson
  {
    if item.None? || item.value == "" then Ok(None)
    else
      match codec.decode(item.value)
      case None => Err(MalformedJson)
      case Some(v) => Ok(Some(v))
  }

  function Raw(entries: map<string, string>, k: string): Option<string> {
    if k in entries then Some(entries[k]) else None
  }

  /** What `getItem(key)` of the view with `prefix` settles with against the table `entries`. */
  function Lookup<T>(entries: map<string, string>, prefix: string, key: string, codec: Codec<T>): Result<Option<T>, Thrown> {
    Parse(Raw(entries, Prefixed(prefix, key)), codec)
  }

  /** The table keys, in enumeration order, that `getAllItems` takes a value from. */
  function Selected(keys: seq<string>, entries: map<string, string>, prefix: string): (r: seq<string>)
    ensures forall k :: k in r <==> k in keys && StartsWith(k, prefix) && k in entries && entries[k] != ""
    ensures Distinct(keys) ==> Distinct(r)
  {
    if keys == [] then []
    else
      var init, k := keys[..|keys| - 1], keys[|keys| - 1];
      assert keys == init + [k];
      var r := Selected(init, entries, prefix);
      assert Distinct(keys) ==> Distinct(init) && k !in init;
      if StartsWith(k, prefix) && k in entries && entries[k] != "" then r + [k] else r
  }

  /**
   * What the `getAllItems` loop settles with once it has gone through `keys`:
   * the parsed value of every selected key, in order, or the SyntaxError of the
   * first selected value that is not JSON.
   */
  function Collect<T>(keys: seq<string>, entries: map<string, string>, prefix: string, codec: Codec<T>): (r: Result<seq<T>, Thrown>)
    ensures r.Ok? ==> |r.value| == |Selected(keys, entries, prefix)|
    ensures r.Ok? ==> forall j :: 0 <= j < |r.value| ==>
              codec.decode(entries[Selected(keys, entries, prefix)[j]]) == Some(r.value[j])
    ensures r.Err? <==> exists k :: k in Selected(keys, entries, prefix) && codec.decode(entries[k]).None?
    ensures r.Err? ==> r.error == MalformedJson
  {
    if keys == [] then Ok([])
    else
      var init, k := keys[..|keys| - 1], keys[|keys| - 1];
      assert keys == init + [k];
      match Collect(init, entries, prefix, codec)
      case Err(e) => Err(e)
      case Ok(items) =>
        if StartsWith(k, prefix) then
          match Parse(Raw(entries, k), codec)
          case Err(e) => Err(e)
          case Ok(None) => Ok(items)
          case Ok(Some(v)) => Ok(items + [v])
        else Ok(items)
  }

  /** Selection keeps the enumeration order: the keys of an earlier stretch come before those of a later one. */
  lemma {:induction false} SelectedAppend(a: seq<string>, b: seq<string>, entries: map<string, string>, prefix: string)
    ensures Selected(a + b, entries, prefix) == Selected(a, entries, prefix) + Selected(b, entries, prefix)
    decreases |b|
  {
    if b == [] {
      assert a + b == a;
    } else {
      var init, k := b[..|b| - 1], b[|b| - 1];
      assert (a + b)[..|a + b| - 1] == a + init;
      assert b[..|b| - 1] == init;
      SelectedAppend(a, init, entries, prefix);
    }
  }

  /** `Collect` reads only the entries of the keys it goes through. */
  lemma {:induction false} CollectIgnoresOtherEntries<T>(keys: seq<string>, entries: map<string, string>, k: string, s: string, prefix: string, codec: Codec<T>)
    requires k !in keys
    ensures Collect(keys, entries[k := s], prefix, codec) == Collect(keys, entries, prefix, codec)
  {
    if keys != [] {
      var init := keys[..|keys| - 1];
      assert keys[|keys| - 1] in keys;
      assert forall x :: x in init ==> x in keys;
      CollectIgnoresOtherEntries(init, entries, k, s, prefix, codec);
    }
  }

  /**
   * A value written under a new table key of the view is enumerated last:
   * `getAllItems` afterwards gives the previous items followed by it.
   */
  lemma SetFreshThenCollect<T(!new)>(keys: seq<string>, entries: map<string, string>, prefix: string, key: string, v: T, codec: Codec<T>)
    requires Faithful(codec) && Prefixed(prefix, key) !in keys
    ensures var after := Collect(keys + [Prefixed(prefix, key)], entries[Prefixed(prefix, key) := codec.encode(v)], prefix, codec);
            match Collect(keys, entries, prefix, codec)
            case Ok(items) => after == Ok(items + [v])
            case Err(e) => after == Err(e)
  {
    var k := Prefixed(prefix, key);
    CollectIgnoresOtherEntries(keys, entries, k, codec.encode(v), prefix, codec);
    PrefixedStartsWith(prefix, key);
    assert (keys + [k])[..|keys + [k]| - 1] == keys;
    assert codec.decode(codec.encode(v)) == Some(v) && codec.encode(v) != "";
  }

  /** A failure while going through a prefix of the keys is the failure of the whole loop. */
  lemma {:induction false} CollectErrPersists<T>(keys: seq<string>, n: nat, entries: map<string, string>, prefix: string, codec: Codec<T>)
    requires n <= |keys|
    requires Collect(keys[..n], entries, prefix, codec).Err?
    ensures Collect(keys, entries, prefix, codec) == Collect(keys[..n], entries, prefix, codec)
    decreases |keys| - n
  {
    if n < |keys| {
      var init := keys[..|keys| - 1];
      assert init[..n] == keys[..n];
      CollectErrPersists(init, n, entries, prefix, codec);
    } else {
      assert keys[..n] == keys;
    }
  }

  /** A value written by any view whose prefix extends `prefix` (say "ocr-sessions2") is enumerated by the view with `prefix` too. */
  lemma ExtendedPrefixSelected(keys: seq<string>, entries: map<string, string>, prefix: string, suffix: string, key: string)
    requires Prefixed(prefix + suffix, key) in keys
    requires Prefixed(prefix + suffix, key) in entries && entries[Prefixed(prefix + suffix, key)] != ""
    ensures Prefixed(prefix + suffix, key) in Selected(keys, entries, prefix)
  {
    assert Prefixed(prefix + suffix, key)[..|prefix|] == prefix;
  }

  /** The view the session service uses reads the entries of a view with prefix "ocr-sessions2". */
  lemma SessionsViewSeesSessions2(keys: seq<string>, entries: map<string, string>, key: string)
    requires Prefixed("ocr-sessions2", key) in keys
    requires Prefixed("ocr-sessions2", key) in entries && entries[Prefixed("ocr-sessions2", key)] != ""
    ensures Prefixed("ocr-sessions2", key) in Selected(keys, entries, "ocr-sessions")
  {
    assert "ocr-sessions2" == "ocr-sessions" + "2";
    ExtendedPrefixSelected(keys, entries, "ocr-sessions", "2", key);
  }

  /** After `setItem(key, v)`, `getItem(key)` gives `v` back (when JSON round-trips). */
  lemma SetThenGet<T(!new)>(entries: map<string, string>, prefix: string, key: string, v: T, codec: Codec<T>)
    requires Faithful(codec)
    ensures Lookup(entries[Prefixed(prefix, key) := codec.encode(v)], prefix, key, codec) == Ok(Some(v))
  {
    assert codec.decode(codec.encode(v)) == Some(v) && codec.encode(v) != "";
  }

  /** `setItem` leaves what `getItem` reports for every other key of the view alone. */
  lemma SetLeavesOtherKeys<T>(entries: map<string, string>, prefix: string, key: string, s: string, other: string, codec: Codec<T>)
    requires other != key
    ensures Lookup(entries[Prefixed(prefix, key) := s], prefix, other, codec) == Lookup(entries, prefix, other, codec)
  {
    PrefixedInjective(prefix, key, other);
  }

  /** Of two writes to one key, the later one is what `getItem` reports. */
  lemma LastWriteWins<T(!new)>(entries: map<string, string>, prefix: string, key: string, v: T, w: T, codec: Codec<T>)
    requires Faithful(codec)
    ensures Lookup(entries[Prefixed(prefix, key) := codec.encode(v)][Prefixed(prefix, key) := codec.encode(w)], prefix, key, codec) == Ok(Some(w))
  {
    var e := entries[Prefixed(prefix, key) := codec.encode(v)];
    assert e[Prefixed(prefix, key) := codec.encode(w)] == entries[Prefixed(prefix, key) := codec.encode(w)];
    SetThenGet(entries, prefix, key, w, codec);
  }

  /** After `removeItem(key)`, `getItem(key)` gives null and every other key reads as before. */
  lemma RemoveThenGet<T>(entries: map<string, string>, prefix: string, key: string, other: string, codec: Codec<T>)
    ensures Lookup(entries - {Prefixed(prefix, key)}, prefix, key, codec) == Ok(None)
    ensures other != key ==> Lookup(entries - {Prefixed(prefix, key)}, prefix, other, codec) == Lookup(entries, prefix, other, codec)
  {
    PrefixedInjective(prefix, key, other);
  }

  class LocalStorage<T> {
    const prefix: string
    const medium: BrowserStore
    const codec: Codec<T>

    constructor (prefix: string, medium: BrowserStore, codec: Codec<T>)
      ensures this.prefix == prefix && this.medium == medium && this.codec == codec
    {
      this.prefix := prefix;
      this.medium := medium;
      this.codec := codec;
    }

    /** `setItem(key, value)`: writes the one table key `${prefix}-${key}` and nothing else. */
    method SetItem(key: string, value: T)
      requires medium.Valid()
      modifies medium
      ensures medium.Valid()
      ensures medium.entries == old(medium.entries)[Prefixed(prefix, key) := codec.encode(value)]
      ensures medium.keys == if Prefixed(prefix, key) in old(medium.entries) then old(medium.keys)
                             else old(medium.keys) + [Prefixed(prefix, key)]
      ensures forall k :: k != Prefixed(prefix, key) ==> Raw(medium.entries, k) == Raw(old(medium.entries), k)
    {
      medium.SetItem(Prefixed(prefix, key), codec.encode(value));
    }

    /** `getItem(key)`: null when the table key is absent or empty, else the parsed value or JSON.parse's error. */
    function GetItem(key: string): (r: Result<Option<T>, Thrown>)
      reads medium
      ensures r == Lookup(medium.entries, prefix, key, codec)
      ensures Prefixed(prefix, key) !in medium.entries ==> r == Ok(None)
    {
      Parse(medium.GetItem(Prefixed(prefix, key)), codec)
    }

    /** `getAllItems()`: the index loop over `localStorage.key(i)`, keeping the keys that start with `prefix`. */
    method GetAllItems() returns (r: Result<seq<T>, Thrown>)
      requires medium.Valid()
      ensures r == Collect(medium.keys, medium.entries, prefix, codec)
    {
      var items: seq<T> := [];
      var i := 0;
      while i < |medium.keys|
        invariant 0 <= i <= |medium.keys|
        invariant Collect(medium.keys[..i], medium.entries, prefix, codec) == Ok(items)
      {
        var key := medium.keys[i];
        assert medium.keys[..i + 1][..i] == medium.keys[..i];
        if StartsWith(key, prefix) {
          var item := medium.GetItem(key);
          if item.Some? && item.value != "" {
            var parsed := codec.decode(item.value);
            if parsed.None? {
              CollectErrPersists(medium.keys, i + 1, medium.entries, prefix, codec);
              return Err(MalformedJson);
            }
            items := items + [parsed.value];
          }
        }
        i := i + 1;
      }
      assert medium.keys[..i] == medium.keys;
      r := Ok(items);
    }

    /** `removeItem(key)`: deletes the one table key `${prefix}-${key}`; nothing happens when it is absent. */
    method RemoveItem(key: string)
      requires medium.Valid()
      modifies medium
      ensures medium.Valid()
      ensures medium.entries == old(medium.entries) - {Prefixed(prefix, key)}
      ensures medium.keys == Without(old(medium.keys), Prefixed(prefix, key))
      ensures Prefixed(prefix, key) !in old(medium.entries) ==> medium.entries == old(medium.entries) && medium.keys == old(medium.keys)
    {
      medium.RemoveItem(Prefixed(prefix, key));
    }
  }
}
