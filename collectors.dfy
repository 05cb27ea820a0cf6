/**
 * The two ways the core turns a stream of (key, value) pairs into a map:
 * `Collectors.toMap(key, value)` with no merge function, which fails on the
 * first repeated key, and `Collectors.toMap(key, value, (e1, e2) -> e1,
 * LinkedHashMap::new)`, which keeps the first value of every key and the
 * order in which keys were first seen. An insertion-ordered map is modelled
 * as a sequence of pairs whose keys are pairwise distinct.
 */
module Collectors {

  datatype Result<T, E> = Ok(value: T) | Err(error: E)

  /** No key occurs twice. */
  predicate DistinctKeys<K(==), V>(pairs: seq<(K, V)>) {
    forall i, j :: 0 <= i < j < |pairs| ==> pairs[i].0 != pairs[j].0
  }

  /** Some pair has key `k`. */
  predicate KeyIn<K(==), V>(pairs: seq<(K, V)>, k: K) {
    exists i :: 0 <= i < |pairs| && pairs[i].0 == k
  }

  /** The keys of an insertion-ordered map, in order (`new ArrayList<>(m.keySet())`). */
  function KeysOf<K, V>(pairs: seq<(K, V)>): (ks: seq<K>)
    ensures |ks| == |pairs|
    ensures forall i :: 0 <= i < |pairs| ==> ks[i] == pairs[i].0
  {
    seq(|pairs|, i requires 0 <= i < |pairs| => pairs[i].0)
  }

  /** Position of the first pair with key `k`, or `|pairs|` when there is none. */
  function FirstIndex<K(==), V>(pairs: seq<(K, V)>, k: K): (i: nat)
    ensures i <= |pairs|
    ensures i < |pairs| ==> pairs[i].0 == k
    ensures forall j :: 0 <= j < i ==> pairs[j].0 != k
  {
    if |pairs| == 0 || pairs[0].0 == k then 0 else 1 + FirstIndex(pairs[1..], k)
  }

  lemma FirstIndexPins<K, V>(pairs: seq<(K, V)>, k: K, i: nat)
    requires i <= |pairs|
    requires i < |pairs| ==> pairs[i].0 == k
    requires forall j :: 0 <= j < i ==> pairs[j].0 != k
    ensures FirstIndex(pairs, k) == i
  {
  }

  /** The first occurrence of a key in `a + b` is in `a` when `a` has that key. */
  lemma FirstIndexAppend<K, V>(a: seq<(K, V)>, b: seq<(K, V)>, k: K)
    ensures FirstIndex(a, k) < |a| ==> FirstIndex(a + b, k) == FirstIndex(a, k)
    ensures FirstIndex(a, k) == |a| ==> FirstIndex(a + b, k) == |a| + FirstIndex(b, k)
  {
    var f := FirstIndex(a, k);
    if f < |a| {
      FirstIndexPins(a + b, k, f);
    } else {
      var g := FirstIndex(b, k);
      forall j | 0 <= j < |a| + g ensures (a + b)[j].0 != k {
        if j >= |a| { assert (a + b)[j] == b[j - |a|]; }
      }
      FirstIndexPins(a + b, k, |a| + g);
    }
  }

  lemma FirstIndexSnocAll<K, V>(a: seq<(K, V)>, last: (K, V))
    ensures forall k :: FirstIndex(a, k) < |a| ==> FirstIndex(a + [last], k) == FirstIndex(a, k)
    ensures forall k :: FirstIndex(a, k) == |a| ==> FirstIndex(a + [last], k) == (if last.0 == k then |a| else |a| + 1)
  {
    forall k ensures FirstIndex(a, k) < |a| ==> FirstIndex(a + [last], k) == FirstIndex(a, k)
      ensures FirstIndex(a, k) == |a| ==> FirstIndex(a + [last], k) == (if last.0 == k then |a| else |a| + 1)
    {
      FirstIndexAppend(a, [last], k);
    }
  }

  /**
   * `Collectors.toMap` without a merge function, applied to a sequential
   * stream: pairs are added left to right and the first key that repeats an
   * earlier one makes the collection fail (an IllegalStateException naming
   * that key).
   */
  function ToMap<K(==), V(==)>(pairs: seq<(K, V)>): (r: Result<map<K, V>, K>)
    ensures r.Ok? <==> DistinctKeys(pairs)
    ensures r.Ok? ==> r.value.Keys == (set p | p in pairs :: p.0)
    ensures r.Ok? ==> forall p :: p in pairs ==> p.0 in r.value && r.value[p.0] == p.1
    ensures r.Err? ==> exists i, j :: 0 <= i < j < |pairs| && pairs[i].0 == r.error && pairs[j].0 == r.error
                                      && DistinctKeys(pairs[..j])
  {
    if |pairs| == 0 then Ok(map[])
    else
      var init, last := pairs[..|pairs| - 1], pairs[|pairs| - 1];
      assert pairs == init + [last];
      match ToMap(init)
      case Err(k) =>
        assert forall j :: 0 < j < |init| ==> init[..j] == pairs[..j];
        Err(k)
      case Ok(m) =>
        if last.0 in m then
          assert init == pairs[..|pairs| - 1];
          var i :| 0 <= i < |init| && init[i].0 == last.0;
          assert pairs[i] == init[i];
          Err(last.0)
        else
          assert forall i :: 0 <= i < |init| ==> init[i].0 != last.0 by {
            forall i | 0 <= i < |init| ensures init[i].0 != last.0 { assert init[i] in init; }
          }
          Ok(m[last.0 := last.1])
  }

  /**
   * `Collectors.toMap(key, value, (e1, e2) -> e1, LinkedHashMap::new)`:
   * pairs are merged left to right; a key already present keeps its value
   * and its place, a new key is appended.
   */
  function FirstWins<K(==), V>(pairs: seq<(K, V)>): (r: seq<(K, V)>)
    ensures DistinctKeys(r)
    ensures forall i :: 0 <= i < |pairs| ==> KeyIn(r, pairs[i].0)
    ensures forall x :: 0 <= x < |r| ==> KeyIn(pairs, r[x].0)
  {
    if |pairs| == 0 then []
    else
      var init, last := pairs[..|pairs| - 1], pairs[|pairs| - 1];
      var r := FirstWins(init);
      if KeyIn(r, last.0) then r
      else
        var r' := r + [last];
        assert r'[|r|].0 == last.0;
        assert forall x :: 0 <= x < |r| ==> r'[x] == r[x];
        assert forall i :: 0 <= i < |init| ==> pairs[i] == init[i];
        r'
  }

  /** Every pair of `r` is the first pair of `pairs` with that key. */
  ghost predicate KeepsFirst<K, V>(pairs: seq<(K, V)>, r: seq<(K, V)>) {
    forall x :: 0 <= x < |r| ==>
      FirstIndex(pairs, r[x].0) < |pairs| && pairs[FirstIndex(pairs, r[x].0)] == r[x]
  }

  /** The keys of `r` appear in the order in which `pairs` first mentions them. */
  ghost predicate InFirstSeenOrder<K, V>(pairs: seq<(K, V)>, r: seq<(K, V)>) {
    forall x, y :: 0 <= x < y < |r| ==> FirstIndex(pairs, r[x].0) < FirstIndex(pairs, r[y].0)
  }

  /**
   * Every key of `FirstWins(pairs)` carries the value of that key's first
   * occurrence, and keys appear in the order of their first occurrences.
   */
  lemma {:induction false} FirstWinsFirstOccurrence<K, V>(pairs: seq<(K, V)>)
    ensures KeepsFirst(pairs, FirstWins(pairs))
    ensures InFirstSeenOrder(pairs, FirstWins(pairs))
  {
    if |pairs| > 0 {
      var init, last := pairs[..|pairs| - 1], pairs[|pairs| - 1];
      assert pairs == init + [last];
      FirstWinsFirstOccurrence(init);
      FirstWinsStep(init, last);
    }
  }

  lemma FirstWinsStep<K, V>(init: seq<(K, V)>, last: (K, V))
    requires KeepsFirst(init, FirstWins(init)) && InFirstSeenOrder(init, FirstWins(init))
    ensures KeepsFirst(init + [last], FirstWins(init + [last]))
    ensures InFirstSeenOrder(init + [last], FirstWins(init + [last]))
  {
    var pairs := init + [last];
    assert pairs[..|pairs| - 1] == init;
    var r := FirstWins(init);
    FirstIndexSnocAll(init, last);
    forall x | 0 <= x < |r| ensures FirstIndex(pairs, r[x].0) == FirstIndex(init, r[x].0) < |init| {
    }
    if KeyIn(r, last.0) {
      assert FirstWins(pairs) == r;
      forall x | 0 <= x < |r|
        ensures FirstIndex(pairs, r[x].0) < |pairs| && pairs[FirstIndex(pairs, r[x].0)] == r[x]
      {
        assert pairs[FirstIndex(init, r[x].0)] == init[FirstIndex(init, r[x].0)];
      }
    } else {
      assert FirstWins(pairs) == r + [last];
      FirstWinsAppended(init, last, r);
    }
  }

  lemma FirstWinsAppended<K, V>(init: seq<(K, V)>, last: (K, V), r: seq<(K, V)>)
    requires KeepsFirst(init, r) && InFirstSeenOrder(init, r)
    requires forall i :: 0 <= i < |init| ==> KeyIn(r, init[i].0)
    requires !KeyIn(r, last.0)
    ensures KeepsFirst(init + [last], r + [last])
    ensures InFirstSeenOrder(init + [last], r + [last])
  {
    var pairs, r' := init + [last], r + [last];
    FirstIndexSnocAll(init, last);
    assert FirstIndex(init, last.0) == |init|;
    assert FirstIndex(pairs, last.0) == |init|;
    forall x | 0 <= x < |r| ensures FirstIndex(pairs, r[x].0) == FirstIndex(init, r[x].0) < |init| {
    }
    forall x | 0 <= x < |r'|
      ensures FirstIndex(pairs, r'[x].0) < |pairs| && pairs[FirstIndex(pairs, r'[x].0)] == r'[x]
    {
      if x < |r| {
        assert r'[x] == r[x];
        assert pairs[FirstIndex(init, r[x].0)] == init[FirstIndex(init, r[x].0)];
      }
    }
    forall x, y | 0 <= x < y < |r'|
      ensures FirstIndex(pairs, r'[x].0) < FirstIndex(pairs, r'[y].0)
    {
      assert r'[x] == r[x];
      if y < |r| { assert r'[y] == r[y]; }
    }
  }

  /** An input without repeated keys is kept as it is. */
  lemma {:induction false} FirstWinsKeepsDistinct<K, V>(pairs: seq<(K, V)>)
    requires DistinctKeys(pairs)
    ensures FirstWins(pairs) == pairs
  {
    if |pairs| > 0 {
      var init, last := pairs[..|pairs| - 1], pairs[|pairs| - 1];
      assert pairs == init + [last];
      FirstWinsKeepsDistinct(init);
      assert !KeyIn(init, last.0) by {
        forall i | 0 <= i < |init| ensures init[i].0 != last.0 { assert init[i] == pairs[i]; }
      }
    }
  }
}
