/** The map a JavaScript `Map` holds after `set(key(x), i)` for every element in
    order: one entry per key, pointing at the LAST position carrying it. The
    label index, the starter catalogue by slug and the languages by id are all
    built this way. */
module KeyedIndex {
  import opened Basics

  /** Some element at a position below `n` carries key `k`. */
  ghost predicate Carried<T, K(!new)>(s: seq<T>, key: T -> Option<K>, k: K, n: int)
    requires n <= |s|
  {
    exists i :: 0 <= i < n && key(s[i]) == Some(k)
  }

  /** Positions of the last element per key; elements whose key is `None` are skipped. */
  function LastPositions<T, K(==,!new)>(s: seq<T>, key: T -> Option<K>): (m: map<K, nat>)
    ensures forall k :: k in m <==> Carried(s, key, k, |s|)
    ensures forall k :: k in m ==> m[k] < |s| && key(s[m[k]]) == Some(k)
    ensures forall k :: k in m ==> forall j :: m[k] < j < |s| ==> key(s[j]) != Some(k)
    decreases |s|
  {
    if |s| == 0 then map[]
    else
      var front := s[..|s| - 1];
      var m := LastPositions(front, key);
      assert forall i :: 0 <= i < |front| ==> front[i] == s[i];
      match key(s[|s| - 1])
      case None => m
      case Some(k) => m[k := |s| - 1]
  }

  /** Lookup through the index: the element stored last under `k`, if any. */
  function LastByKey<T, K(==,!new)>(s: seq<T>, key: T -> Option<K>, k: K): (r: Option<T>)
    ensures r.None? <==> !Carried(s, key, k, |s|)
    ensures r.Some? ==> r.value in s && key(r.value) == Some(k)
    ensures r.Some? ==> exists i :: 0 <= i < |s| && s[i] == r.value && key(s[i]) == Some(k)
                                    && forall j :: i < j < |s| ==> key(s[j]) != Some(k)
  {
    var m := LastPositions(s, key);
    if k in m then Some(s[m[k]]) else None
  }

  /** When exactly one position carries `k`, the index points at it. */
  lemma UniqueKeyPosition<T, K(!new)>(s: seq<T>, key: T -> Option<K>, k: K, i: nat)
    requires i < |s| && key(s[i]) == Some(k)
    requires forall j :: 0 <= j < |s| && j != i ==> key(s[j]) != Some(k)
    ensures k in LastPositions(s, key) && LastPositions(s, key)[k] == i
  {
    assert Carried(s, key, k, |s|);
  }
}
