// Reading a table through its natural key: keys maps each primary key to the
// row's natural key, vals to what the row says. Keyed is the same information
// with the primary keys erased.
module NaturalKeys {
  import opened Common

  ghost predicate Injective<K(!new)>(keys: map<Pk, K>) {
    forall a, b :: a in keys && b in keys && keys[a] == keys[b] ==> a == b
  }

  /** The primary key of the row whose natural key is k. */
  ghost function PkOf<K(!new)>(keys: map<Pk, K>, k: K): (pk: Pk)
    requires k in keys.Values
    ensures pk in keys && keys[pk] == k
  {
    var pk :| pk in keys && keys[pk] == k;
    pk
  }

  ghost function Keyed<K(!new), V(!new)>(keys: map<Pk, K>, vals: map<Pk, V>): map<K, V>
    requires keys.Keys == vals.Keys
  {
    map k | k in keys.Values :: vals[PkOf(keys, k)]
  }

  lemma KeyedAt<K(!new), V(!new)>(keys: map<Pk, K>, vals: map<Pk, V>, pk: Pk)
    requires keys.Keys == vals.Keys && Injective(keys) && pk in keys
    ensures keys[pk] in Keyed(keys, vals) && Keyed(keys, vals)[keys[pk]] == vals[pk]
  {
    assert keys[pk] in keys.Values;
    assert PkOf(keys, keys[pk]) == pk;
  }

  /** Two keyed tables are equal when each row of one is a row of the other. */
  lemma KeyedEqual<K(!new), V(!new)>(keys: map<Pk, K>, vals: map<Pk, V>, m: map<K, V>)
    requires keys.Keys == vals.Keys && Injective(keys)
    requires forall pk :: pk in keys ==> keys[pk] in m && m[keys[pk]] == vals[pk]
    requires forall k :: k in m ==> k in keys.Values
    ensures Keyed(keys, vals) == m
  {
    forall k | k in keys.Values
      ensures k in m && Keyed(keys, vals)[k] == m[k]
    {
      var pk := PkOf(keys, k);
      assert keys[pk] == k;
    }
  }

  /** Writing one row, new or keeping its natural key, writes one entry. */
  lemma KeyedWritten<K(!new), V(!new)>(keys: map<Pk, K>, vals: map<Pk, V>, pk: Pk, k: K, v: V)
    requires keys.Keys == vals.Keys && Injective(keys)
    requires pk in keys ==> keys[pk] == k
    requires pk !in keys ==> k !in keys.Values
    ensures Injective(keys[pk := k])
    ensures Keyed(keys[pk := k], vals[pk := v]) == Keyed(keys, vals)[k := v]
  {
    var keys', vals' := keys[pk := k], vals[pk := v];
    var m := Keyed(keys, vals)[k := v];
    forall a, b | a in keys' && b in keys' && keys'[a] == keys'[b]
      ensures a == b
    {
      if a in keys { assert keys[a] in keys.Values; }
      if b in keys { assert keys[b] in keys.Values; }
    }
    forall a | a in keys'
      ensures keys'[a] in m && m[keys'[a]] == vals'[a]
    {
      if a in keys { KeyedAt(keys, vals, a); }
    }
    forall n | n in m
      ensures n in keys'.Values
    {
      if n == k {
        assert keys'[pk] == n;
      } else {
        var a := PkOf(keys, n);
        assert keys'[a] == n;
      }
    }
    KeyedEqual(keys', vals', m);
  }

  /** Deleting rows: what is left is read through the same keys. */
  lemma KeyedRestricted<K(!new), V(!new)>(keys: map<Pk, K>, vals: map<Pk, V>, keys': map<Pk, K>, vals': map<Pk, V>,
    m: map<K, V>)
    requires keys.Keys == vals.Keys && keys'.Keys == vals'.Keys && Injective(keys)
    requires forall pk :: pk in keys' ==> pk in keys && keys'[pk] == keys[pk]
    requires forall pk :: pk in keys ==> (pk in keys' <==> keys[pk] in m)
    requires forall pk :: pk in keys' ==> keys[pk] in m && m[keys[pk]] == vals'[pk]
    requires forall k :: k in m ==> k in keys.Values
    ensures Injective(keys') && Keyed(keys', vals') == m
  {
    forall k | k in m
      ensures k in keys'.Values
    {
      var pk := PkOf(keys, k);
      assert pk in keys' && keys'[pk] == k;
    }
    KeyedEqual(keys', vals', m);
  }

  // ---- Writing a file's rows one by one ----

  /** From keys0 to keys, rows with the natural keys in listed were written: keep is exactly those rows. */
  ghost predicate Touched<K(!new)>(keys0: map<Pk, K>, keys: map<Pk, K>, listed: set<K>, keep: set<Pk>, created: nat) {
    && (forall pk :: pk in keys0 ==> pk in keys && keys[pk] == keys0[pk])
    && (forall pk :: pk in keys ==> pk in keys0 || pk in keep)
    && (forall pk :: pk in keep ==> pk in keys)
    && (forall pk :: pk in keys ==> (pk in keep <==> keys[pk] in listed))
    && created == |keys| - |keys0|
  }

  lemma TouchStep<K(!new)>(keys0: map<Pk, K>, keys: map<Pk, K>, listed: set<K>, keep: set<Pk>, created: nat, pk: Pk,
    k: K)
    requires Touched(keys0, keys, listed, keep, created) && Injective(keys)
    requires pk in keys ==> keys[pk] == k
    requires pk !in keys ==> k !in keys.Values
    ensures Touched(keys0, keys[pk := k], listed + {k}, keep + {pk}, if pk in keys then created else created + 1)
  {
    var keys' := keys[pk := k];
    forall a | a in keys'
      ensures a in keep + {pk} <==> keys'[a] in listed + {k}
    {
      assert a in keys && keys[a] == k ==> k in keys.Values;
    }
  }

  /** remap takes the file's primary keys to rows with the natural keys the file means. */
  ghost predicate Maps<K(!new)>(remap: map<Pk, Pk>, keys: map<Pk, K>, names: map<Pk, K>) {
    && remap.Keys == names.Keys
    && forall id :: id in remap ==> remap[id] in keys && keys[remap[id]] == names[id]
  }

  lemma MapsStep<K(!new)>(remap: map<Pk, Pk>, keys: map<Pk, K>, names: map<Pk, K>, id: Pk, pk: Pk, k: K)
    requires Maps(remap, keys, names)
    requires pk in keys ==> keys[pk] == k
    ensures Maps(remap[id := pk], keys[pk := k], names[id := k])
  {
  }
}
