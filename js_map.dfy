/**
 The JavaScript `Map` that holds the peer registry: a finite map that remembers the order in which
 its keys were first inserted. `set` on a key already present replaces the value in place (the key
 keeps its position); `set` on a new key appends it; `delete` removes the key and keeps the order
 of the others. Iteration (`values()`) follows that order.

 A map is represented by its entries in iteration order, with pairwise distinct keys.
 */
module JsMap {
  import opened Wrappers

  type Entries<K, V> = seq<(K, V)>

  ghost predicate DistinctKeys<K, V>(m: Entries<K, V>) {
    forall i, j :: 0 <= i < j < |m| ==> m[i].0 != m[j].0
  }

  /** Position of `k` in `m`, or `|m|` when `k` is absent. */
  function IndexOf<K(==), V>(m: Entries<K, V>, k: K): (r: nat)
    ensures r <= |m|
    ensures r < |m| ==> m[r].0 == k
    ensures forall i :: 0 <= i < r ==> m[i].0 != k
  {
    if |m| == 0 then 0
    else if m[0].0 == k then 0
    else 1 + IndexOf(m[1..], k)
  }

  predicate Has<K(==), V>(m: Entries<K, V>, k: K) {
    IndexOf(m, k) < |m|
  }

  /** `Map.prototype.get`: the value stored under `k`, if any. */
  function Get<K(==), V>(m: Entries<K, V>, k: K): (r: Option<V>)
    ensures r.None? <==> forall i :: 0 <= i < |m| ==> m[i].0 != k
    ensures DistinctKeys(m) ==> forall i :: 0 <= i < |m| && m[i].0 == k ==> r == Some(m[i].1)
  {
    var i := IndexOf(m, k);
    if i < |m| then Some(m[i].1) else None
  }

  /** `Map.prototype.set`. */
  function Set<K(==), V>(m: Entries<K, V>, k: K, v: V): (r: Entries<K, V>)
  {
    var i := IndexOf(m, k);
    if i < |m| then m[i := (k, v)] else m + [(k, v)]
  }

  /** `Map.prototype.delete`. */
  function Delete<K(==), V>(m: Entries<K, V>, k: K): (r: Entries<K, V>)
  {
    var i := IndexOf(m, k);
    if i < |m| then m[..i] + m[i + 1..] else m
  }

  /** The keys in iteration order. */
  function Keys<K, V>(m: Entries<K, V>): (r: seq<K>)
    ensures |r| == |m| && forall i :: 0 <= i < |m| ==> r[i] == m[i].0
  {
    seq(|m|, i requires 0 <= i < |m| => m[i].0)
  }

  /** After `set(k, v)`, `k` maps to `v` and no other key changes. */
  lemma GetSet<K, V>(m: Entries<K, V>, k: K, v: V, k': K)
    requires DistinctKeys(m)
    ensures DistinctKeys(Set(m, k, v))
    ensures Get(Set(m, k, v), k') == if k' == k then Some(v) else Get(m, k')
  {
    var r := Set(m, k, v);
    var i := IndexOf(m, k);
    var pos := if i < |m| then i else |m|;
    assert pos < |r| && r[pos] == (k, v);
    assert forall j :: 0 <= j < |r| && j != pos ==> r[j] == m[j];
    if k' != k {
      if j :| 0 <= j < |m| && m[j].0 == k' {
        assert r[j] == m[j];
      } else {
        assert forall j :: 0 <= j < |r| ==> r[j].0 != k';
      }
    }
  }

  /** `set` on a present key keeps the iteration order; on a new key it appends the key. */
  lemma KeysSet<K, V>(m: Entries<K, V>, k: K, v: V)
    ensures Keys(Set(m, k, v)) == if Has(m, k) then Keys(m) else Keys(m) + [k]
  {
  }

  /** After `delete(k)`, `k` is absent and no other key changes. */
  lemma GetDelete<K, V>(m: Entries<K, V>, k: K, k': K)
    requires DistinctKeys(m)
    ensures DistinctKeys(Delete(m, k))
    ensures Get(Delete(m, k), k') == if k' == k then None else Get(m, k')
  {
    var r := Delete(m, k);
    var i := IndexOf(m, k);
    if i < |m| {
      assert forall j :: 0 <= j < i ==> r[j] == m[j];
      assert forall j :: i <= j < |r| ==> r[j] == m[j + 1];
      if k' != k {
        if j :| 0 <= j < |m| && m[j].0 == k' {
          assert j < i ==> r[j] == m[j];
          assert j > i ==> r[j - 1] == m[j];
        } else {
          assert forall j :: 0 <= j < |r| ==> r[j].0 != k';
        }
      } else {
        assert forall j :: 0 <= j < |r| ==> r[j].0 != k;
      }
    }
  }

  /** `ks` with every occurrence of `k` filtered out, the others in their order. */
  function Without<K(==)>(ks: seq<K>, k: K): (r: seq<K>)
    ensures forall i :: 0 <= i < |r| ==> r[i] in ks && r[i] != k
    ensures forall i :: 0 <= i < |ks| && ks[i] != k ==> ks[i] in r
    ensures k !in ks ==> r == ks
  {
    if ks == [] then []
    else if ks[0] == k then Without(ks[1..], k)
    else [ks[0]] + Without(ks[1..], k)
  }

  /** `delete(k)` leaves exactly the other keys, in their iteration order. */
  lemma {:induction false} KeysDelete<K, V>(m: Entries<K, V>, k: K)
    requires DistinctKeys(m)
    ensures Keys(Delete(m, k)) == Without(Keys(m), k)
  {
    if m != [] {
      var rest := m[1..];
      KeysCons(m[0], rest);
      assert m == [m[0]] + rest;
      if m[0].0 == k {
        assert Delete(m, k) == rest;
        assert k !in Keys(rest) by {
          forall i | 0 <= i < |rest| ensures Keys(rest)[i] != k {
            assert rest[i] == m[i + 1];
          }
        }
      } else {
        assert DistinctKeys(rest) by {
          forall i, j | 0 <= i < j < |rest| ensures rest[i].0 != rest[j].0 {
            assert rest[i] == m[i + 1] && rest[j] == m[j + 1];
          }
        }
        KeysDelete(rest, k);
        DeleteCons(m[0], rest, k);
        KeysCons(m[0], Delete(rest, k));
      }
    }
  }

  lemma KeysCons<K, V>(e: (K, V), m: Entries<K, V>)
    ensures Keys([e] + m) == [e.0] + Keys(m)
  {
  }

  lemma DeleteCons<K, V>(e: (K, V), m: Entries<K, V>, k: K)
    requires e.0 != k
    ensures Delete([e] + m, k) == [e] + Delete(m, k)
  {
    assert ([e] + m)[1..] == m;
    var i := IndexOf(m, k);
    if i < |m| {
      assert ([e] + m)[..i + 1] == [e] + m[..i];
      assert ([e] + m)[i + 2..] == m[i + 1..];
    }
  }
}
