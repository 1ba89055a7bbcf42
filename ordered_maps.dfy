/** Insertion-ordered dictionaries: the JavaScript objects and `Map`s and the
    PHP arrays the parsers key by column, index or constraint name. Entries
    keep the order in which their keys were first set; setting an existing
    key overwrites its value in place; deleting a key drops its entry. */
module OrderedMaps {
  import opened Wrappers

  type OMap<K, V> = seq<(K, V)>

  function Keys<K, V>(m: OMap<K, V>): (ks: seq<K>)
  {
    if m == [] then [] else [m[0].0] + Keys(m[1..])
  }

  function Values<K, V>(m: OMap<K, V>): (vs: seq<V>)
  {
    if m == [] then [] else [m[0].1] + Values(m[1..])
  }

  /** No key has two entries. */
  predicate NoDupKeys<K(==), V>(m: OMap<K, V>) {
    forall i, j :: 0 <= i < j < |m| ==> m[i].0 != m[j].0
  }

  /** The value stored under `k` (JavaScript `m[k]`, PHP `$m[$k]`). */
  function Get<K(==), V>(m: OMap<K, V>, k: K): Option<V>
  {
    if m == [] then None
    else if m[0].0 == k then Some(m[0].1)
    else Get(m[1..], k)
  }

  /** `m[k] = v`: overwrite the value of an existing key where it stands,
      or append a new entry at the end. */
  function Set<K(==), V>(m: OMap<K, V>, k: K, v: V): OMap<K, V>
  {
    if m == [] then [(k, v)]
    else if m[0].0 == k then [(k, v)] + m[1..]
    else [m[0]] + Set(m[1..], k, v)
  }

  /** `delete m[k]` / `unset($m[$k])`. */
  function Remove<K(==), V>(m: OMap<K, V>, k: K): OMap<K, V>
  {
    if m == [] then []
    else if m[0].0 == k then Remove(m[1..], k)
    else [m[0]] + Remove(m[1..], k)
  }

  lemma {:induction false} KeysAt<K, V>(m: OMap<K, V>)
    ensures |Keys(m)| == |m|
    ensures forall i :: 0 <= i < |m| ==> Keys(m)[i] == m[i].0
  {
    if m != [] {
      KeysAt(m[1..]);
      assert forall i :: 1 <= i < |m| ==> m[i] == m[1..][i - 1];
    }
  }

  lemma {:induction false} ValuesAt<K, V>(m: OMap<K, V>)
    ensures |Values(m)| == |m|
    ensures forall i :: 0 <= i < |m| ==> Values(m)[i] == m[i].1
  {
    if m != [] {
      ValuesAt(m[1..]);
      assert forall i :: 1 <= i < |m| ==> m[i] == m[1..][i - 1];
    }
  }

  /** A key has a value exactly when it is one of the keys. */
  lemma {:induction false} GetNone<K, V>(m: OMap<K, V>, k: K)
    ensures Get(m, k).None? <==> k !in Keys(m)
  {
    if m != [] {
      GetNone(m[1..], k);
    }
  }

  /** Without duplicate keys, the value under a key is that of its entry. */
  lemma {:induction false} GetAt<K, V>(m: OMap<K, V>, i: nat)
    requires NoDupKeys(m) && i < |m|
    ensures Get(m, m[i].0) == Some(m[i].1)
  {
    if i > 0 {
      assert m[1..][i - 1] == m[i];
      GetAt(m[1..], i - 1);
    }
  }

  /** Reading after `m[k] = v`: `v` under `k`, the old value elsewhere. */
  lemma {:induction false} GetSet<K, V>(m: OMap<K, V>, k: K, v: V, j: K)
    ensures Get(Set(m, k, v), j) == if j == k then Some(v) else Get(m, j)
  {
    if m != [] && m[0].0 != k {
      GetSet(m[1..], k, v, j);
    }
  }

  /** Setting a key keeps the order of the keys already present; a new key
      goes last. */
  lemma {:induction false} SetKeys<K, V>(m: OMap<K, V>, k: K, v: V)
    ensures k in Keys(m) ==> Keys(Set(m, k, v)) == Keys(m)
    ensures k !in Keys(m) ==> Keys(Set(m, k, v)) == Keys(m) + [k]
    ensures k !in Keys(m) ==> Set(m, k, v) == m + [(k, v)]
  {
    if m == [] {
    } else if m[0].0 == k {
      assert ([(k, v)] + m[1..])[1..] == m[1..];
    } else {
      SetKeys(m[1..], k, v);
      var t := Set(m[1..], k, v);
      assert ([m[0]] + t)[1..] == t;
      assert m == [m[0]] + m[1..];
    }
  }

  /** Setting adds no entry other than `(k, v)`. */
  lemma {:induction false} SetEntries<K, V>(m: OMap<K, V>, k: K, v: V)
    ensures forall e :: e in Set(m, k, v) ==> e == (k, v) || e in m
  {
    if m != [] && m[0].0 != k {
      SetEntries(m[1..], k, v);
    }
  }

  /** Setting a key on a map without duplicate keys creates none. */
  lemma {:induction false} SetNoDup<K, V>(m: OMap<K, V>, k: K, v: V)
    requires NoDupKeys(m)
    ensures NoDupKeys(Set(m, k, v))
  {
    if m != [] {
      if m[0].0 == k {
        assert forall i :: 0 < i < |m| ==> m[i].0 != k;
      } else {
        assert NoDupKeys(m[1..]);
        SetNoDup(m[1..], k, v);
        SetEntries(m[1..], k, v);
        var t := Set(m[1..], k, v);
        assert forall e :: e in m[1..] ==> e.0 != m[0].0;
        assert forall e :: e in t ==> e.0 != m[0].0;
      }
    }
  }

  /** On a map without duplicate keys, setting an existing key is an update
      of its entry in place. */
  lemma {:induction false} SetInPlace<K, V>(m: OMap<K, V>, k: K, v: V, i: nat)
    requires NoDupKeys(m) && i < |m| && m[i].0 == k
    ensures Set(m, k, v) == m[i := (k, v)]
  {
    if i == 0 {
    } else {
      assert NoDupKeys(m[1..]);
      assert m[1..][i - 1].0 == k;
      SetInPlace(m[1..], k, v, i - 1);
      assert m[0].0 != k;
    }
  }

  /** Reading after `delete m[k]`: nothing under `k`, the old value elsewhere. */
  lemma {:induction false} GetRemove<K, V>(m: OMap<K, V>, k: K, j: K)
    ensures Get(Remove(m, k), j) == if j == k then None else Get(m, j)
  {
    if m != [] {
      GetRemove(m[1..], k, j);
    }
  }

  /** Deleting keeps only entries that were there, in their order. */
  lemma {:induction false} RemoveKeys<K, V>(m: OMap<K, V>, k: K)
    ensures forall e :: e in Remove(m, k) ==> e in m && e.0 != k
    ensures k !in Keys(m) ==> Remove(m, k) == m
  {
    if m != [] {
      RemoveKeys(m[1..], k);
    }
  }

  /** Deleting a key keeps the keys distinct. */
  lemma {:induction false} RemoveNoDup<K, V>(m: OMap<K, V>, k: K)
    requires NoDupKeys(m)
    ensures NoDupKeys(Remove(m, k))
  {
    if m != [] {
      assert NoDupKeys(m[1..]);
      RemoveNoDup(m[1..], k);
      RemoveKeys(m[1..], k);
      if m[0].0 != k {
        var t := Remove(m[1..], k);
        forall e | e in t ensures e.0 != m[0].0 {
          var x :| 0 <= x < |m[1..]| && m[1..][x] == e;
          assert m[x + 1] == e;
        }
        assert Remove(m, k) == [m[0]] + t;
      }
    }
  }

  /** Deleting a key drops exactly its entry and keeps the others in order. */
  lemma {:induction false} RemoveEntry<K, V>(m: OMap<K, V>, k: K, i: nat)
    requires NoDupKeys(m) && i < |m| && m[i].0 == k
    ensures Remove(m, k) == m[..i] + m[i + 1..]
  {
    assert NoDupKeys(m[1..]);
    if i == 0 {
      RemoveKeys(m[1..], k);
      KeysAt(m[1..]);
      forall x | 0 <= x < |m[1..]| ensures Keys(m[1..])[x] != k {
        assert m[1..][x] == m[x + 1];
      }
      assert k !in Keys(m[1..]);
      assert m[..0] + m[1..] == m[1..];
    } else {
      assert m[1..][i - 1].0 == k;
      RemoveEntry(m[1..], k, i - 1);
      assert m[0].0 != k;
      assert m[..i] + m[i + 1..] == [m[0]] + (m[1..][..i - 1] + m[1..][i..]);
    }
  }
}
