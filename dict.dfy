/** Python dictionaries as the microcode tools use them: an association
    list in insertion order. `d[k] = v` replaces the value of an existing
    key where it stands and appends a new key at the end; `d.get(k)` finds
    the entry of `k`. A dictionary built by Python, or loaded from a YAML
    mapping, never repeats a key. */
module Dict {
  import opened Common

  type Mapping<K, V> = seq<(K, V)>

  function Keys<K, V>(m: Mapping<K, V>): seq<K>
  {
    seq(|m|, i requires 0 <= i < |m| => m[i].0)
  }

  predicate UniqueKeys<K(==), V>(m: Mapping<K, V>)
  {
    forall i, j :: 0 <= i < j < |m| ==> m[i].0 != m[j].0
  }

  /** `m.get(k)`. */
  function Lookup<K(==), V>(m: Mapping<K, V>, k: K): Option<V>
  {
    if m == [] then None
    else if m[0].0 == k then Some(m[0].1)
    else Lookup(m[1..], k)
  }

  /** `m[k] = v`. */
  function Put<K(==), V>(m: Mapping<K, V>, k: K, v: V): Mapping<K, V>
  {
    if m == [] then [(k, v)]
    else if m[0].0 == k then [(k, v)] + m[1..]
    else [m[0]] + Put(m[1..], k, v)
  }

  /** Lookup finds the first entry with the key, and nothing when no entry
      has it. */
  lemma {:induction false} LookupAt<K, V>(m: Mapping<K, V>, k: K, j: int)
    requires 0 <= j <= |m|
    requires forall t :: 0 <= t < j ==> m[t].0 != k
    ensures j < |m| && m[j].0 == k ==> Lookup(m, k) == Some(m[j].1)
    ensures j == |m| ==> Lookup(m, k) == None
    decreases j
  {
    if j > 0 {
      LookupAt(m[1..], k, j - 1);
    }
  }

  /** In a dictionary every entry is what its key looks up. */
  lemma LookupEntry<K, V>(m: Mapping<K, V>, j: int)
    requires UniqueKeys(m) && 0 <= j < |m|
    ensures Lookup(m, m[j].0) == Some(m[j].1)
  {
    LookupAt(m, m[j].0, j);
  }

  /** After `m[k] = v`, `k` looks up `v` and every other key what it did. */
  lemma {:induction false} PutLookup<K, V>(m: Mapping<K, V>, k: K, v: V, k': K)
    ensures Lookup(Put(m, k, v), k') == if k' == k then Some(v) else Lookup(m, k')
  {
    if m != [] && m[0].0 != k {
      PutLookup(m[1..], k, v, k');
      assert Put(m, k, v)[1..] == Put(m[1..], k, v);
    }
  }

  /** `m[k] = v` keeps the key order, appending `k` if it is new. */
  lemma {:induction false} PutKeys<K, V>(m: Mapping<K, V>, k: K, v: V)
    ensures Keys(Put(m, k, v)) == if k in Keys(m) then Keys(m) else Keys(m) + [k]
  {
    if m != [] {
      assert Keys(m) == [m[0].0] + Keys(m[1..]);
      if m[0].0 != k {
        PutKeys(m[1..], k, v);
        assert Keys(Put(m, k, v)) == [m[0].0] + Keys(Put(m[1..], k, v));
      } else {
        assert Keys(Put(m, k, v)) == [k] + Keys(m[1..]);
      }
    }
  }

  /** A new key is appended. */
  lemma {:induction false} PutNew<K, V>(m: Mapping<K, V>, k: K, v: V)
    requires forall t :: 0 <= t < |m| ==> m[t].0 != k
    ensures Put(m, k, v) == m + [(k, v)]
  {
    if m != [] {
      PutNew(m[1..], k, v);
      assert m == [m[0]] + m[1..];
    }
  }

  /** Assigning to the last key replaces the last entry. */
  lemma PutLast<K, V>(m: Mapping<K, V>, k: K, u: V, v: V)
    requires forall t :: 0 <= t < |m| ==> m[t].0 != k
    ensures Put(m + [(k, u)], k, v) == m + [(k, v)]
  {
    PutAt(m + [(k, u)], k, v, |m|);
  }

  /** Assigning to the key of entry `j` replaces entry `j`. */
  lemma {:induction false} PutAt<K, V>(m: Mapping<K, V>, k: K, v: V, j: int)
    requires 0 <= j < |m| && m[j].0 == k
    requires forall t :: 0 <= t < j ==> m[t].0 != k
    ensures Put(m, k, v) == m[j := (k, v)]
    decreases j
  {
    if j > 0 {
      PutAt(m[1..], k, v, j - 1);
      assert m[j := (k, v)] == [m[0]] + m[1..][j - 1 := (k, v)];
    }
  }

  /** Copying a dictionary entry by entry with `r[k] = v` rebuilds it. */
  lemma CopyStep<K, V>(m: Mapping<K, V>, i: int)
    requires UniqueKeys(m) && 0 <= i < |m|
    ensures Put(m[..i], m[i].0, m[i].1) == m[..i + 1]
  {
    PutNew(m[..i], m[i].0, m[i].1);
  }

  /** `m[k] = v` adds no entry but `(k, v)`. */
  lemma {:induction false} PutEntries<K, V>(m: Mapping<K, V>, k: K, v: V)
    ensures forall e :: e in Put(m, k, v) ==> e == (k, v) || e in m
  {
    if m != [] && m[0].0 != k {
      PutEntries(m[1..], k, v);
    }
  }
}
