/**
 Stable sorting by key. Both places that sort rely on elements of equal key keeping their order:
 the grouping of filters by model and the ranking of recommendations by score.
 */
module StableSort {
  import opened Common

  datatype Keyed<K, V> = Keyed(key: K, value: V)

  ghost predicate TotalOrder<K(!new)>(leq: (K, K) -> bool) {
    && (forall a, b :: leq(a, b) || leq(b, a))
    && (forall a, b :: leq(a, b) && leq(b, a) ==> a == b)
    && (forall a, b, c :: leq(a, b) && leq(b, c) ==> leq(a, c))
  }

  predicate Sorted<K, V>(s: seq<Keyed<K, V>>, leq: (K, K) -> bool) {
    forall i, j :: 0 <= i < j < |s| ==> leq(s[i].key, s[j].key)
  }

  /** The elements of one key, in order. */
  function With<K(==), V>(s: seq<Keyed<K, V>>, k: K): (r: seq<Keyed<K, V>>) {
    if s == [] then []
    else if Last(s).key == k then With(Init(s), k) + [Last(s)]
    else With(Init(s), k)
  }

  /** `x` behind the last element whose key is not above its own. */
  function Insert<K, V>(s: seq<Keyed<K, V>>, x: Keyed<K, V>, leq: (K, K) -> bool): (r: seq<Keyed<K, V>>) {
    if s == [] then [x]
    else if leq(Last(s).key, x.key) then s + [x]
    else Insert(Init(s), x, leq) + [Last(s)]
  }

  function Sort<K, V>(s: seq<Keyed<K, V>>, leq: (K, K) -> bool): (r: seq<Keyed<K, V>>) {
    if s == [] then [] else Insert(Sort(Init(s), leq), Last(s), leq)
  }

  lemma WithSnoc<K, V>(s: seq<Keyed<K, V>>, x: Keyed<K, V>, k: K)
    ensures With(s + [x], k) == if x.key == k then With(s, k) + [x] else With(s, k)
  {
    assert Init(s + [x]) == s;
  }

  lemma {:induction false} InsertWith<K(!new), V>(s: seq<Keyed<K, V>>, x: Keyed<K, V>, leq: (K, K) -> bool, k: K)
    requires TotalOrder(leq)
    ensures With(Insert(s, x, leq), k) == if x.key == k then With(s, k) + [x] else With(s, k)
  {
    if s == [] {
      WithSnoc([], x, k);
      assert [] + [x] == [x];
    } else if leq(Last(s).key, x.key) {
      WithSnoc(s, x, k);
    } else {
      InsertWith(Init(s), x, leq, k);
      WithSnoc(Insert(Init(s), x, leq), Last(s), k);
      assert leq(x.key, x.key);
    }
  }

  /** Elements of equal key keep their order, and nothing is lost or added. */
  lemma {:induction false} SortIsStable<K(!new), V>(s: seq<Keyed<K, V>>, leq: (K, K) -> bool, k: K)
    requires TotalOrder(leq)
    ensures With(Sort(s, leq), k) == With(s, k)
  {
    if s != [] {
      SortIsStable(Init(s), leq, k);
      InsertWith(Sort(Init(s), leq), Last(s), leq, k);
    }
  }

  lemma {:induction false} InsertMember<K, V>(s: seq<Keyed<K, V>>, x: Keyed<K, V>, leq: (K, K) -> bool, y: Keyed<K, V>)
    requires y in Insert(s, x, leq)
    ensures y in s || y == x
  {
    if s != [] && !leq(Last(s).key, x.key) {
      if y in Insert(Init(s), x, leq) {
        InsertMember(Init(s), x, leq, y);
      }
    }
  }

  lemma SortedSnoc<K, V>(s: seq<Keyed<K, V>>, x: Keyed<K, V>, leq: (K, K) -> bool)
    requires Sorted(s, leq) && forall y :: y in s ==> leq(y.key, x.key)
    ensures Sorted(s + [x], leq)
  {
  }

  lemma {:induction false} InsertSorted<K(!new), V>(s: seq<Keyed<K, V>>, x: Keyed<K, V>, leq: (K, K) -> bool)
    requires TotalOrder(leq) && Sorted(s, leq)
    ensures Sorted(Insert(s, x, leq), leq)
  {
    if s != [] {
      var init, last := Init(s), Last(s);
      assert forall i :: 0 <= i < |init| ==> leq(s[i].key, last.key);
      if leq(last.key, x.key) {
        forall y | y in s ensures leq(y.key, x.key) { assert y == last || y in init; }
        SortedSnoc(s, x, leq);
      } else {
        InsertSorted(init, x, leq);
        forall y | y in Insert(init, x, leq) ensures leq(y.key, last.key) { InsertMember(init, x, leq, y); }
        SortedSnoc(Insert(init, x, leq), last, leq);
      }
    }
  }

  lemma {:induction false} SortIsSorted<K(!new), V>(s: seq<Keyed<K, V>>, leq: (K, K) -> bool)
    requires TotalOrder(leq)
    ensures Sorted(Sort(s, leq), leq)
  {
    if s != [] {
      SortIsSorted(Init(s), leq);
      InsertSorted(Sort(Init(s), leq), Last(s), leq);
    }
  }

  lemma {:induction false} CountWith<K, V>(s: seq<Keyed<K, V>>, x: Keyed<K, V>)
    ensures multiset(s)[x] == multiset(With(s, x.key))[x]
  {
    if s != [] {
      CountWith(Init(s), x);
      assert s == Init(s) + [Last(s)];
    }
  }

  /** Two sequences with the same elements of every key hold the same elements. */
  ghost predicate SameByKey<K(!new), V(!new)>(a: seq<Keyed<K, V>>, b: seq<Keyed<K, V>>) {
    forall k :: With(a, k) == With(b, k)
  }

  lemma SameByKeyIsPermutation<K(!new), V(!new)>(a: seq<Keyed<K, V>>, b: seq<Keyed<K, V>>)
    requires SameByKey(a, b)
    ensures multiset(a) == multiset(b)
  {
    forall x ensures multiset(a)[x] == multiset(b)[x] {
      CountWith(a, x);
      CountWith(b, x);
      assert With(a, x.key) == With(b, x.key);
    }
  }

  lemma SortIsPermutation<K(!new), V(!new)>(s: seq<Keyed<K, V>>, leq: (K, K) -> bool)
    requires TotalOrder(leq)
    ensures SameByKey(Sort(s, leq), s) && multiset(Sort(s, leq)) == multiset(s)
  {
    forall k ensures With(Sort(s, leq), k) == With(s, k) { SortIsStable(s, leq, k); }
    SameByKeyIsPermutation(Sort(s, leq), s);
  }

  lemma SortKeepsMembers<K(!new), V(!new)>(s: seq<Keyed<K, V>>, leq: (K, K) -> bool, x: Keyed<K, V>)
    requires TotalOrder(leq)
    ensures x in Sort(s, leq) <==> x in s
  {
    SortIsPermutation(s, leq);
    assert x in Sort(s, leq) <==> x in multiset(Sort(s, leq));
    assert x in s <==> x in multiset(s);
  }

  /** Sorted order and the order within each key leave only one sequence. */
  lemma {:induction false} StableOrderIsUnique<K(!new), V(!new)>(a: seq<Keyed<K, V>>, b: seq<Keyed<K, V>>, leq: (K, K) -> bool)
    requires TotalOrder(leq) && Sorted(a, leq) && Sorted(b, leq) && SameByKey(a, b)
    ensures a == b
    decreases |a|
  {
    SameByKeyIsPermutation(a, b);
    if a == [] {
      assert multiset(b) == multiset{};
      assert forall x :: x in b ==> x in multiset(b);
    } else {
      assert Last(a) in multiset(a);
      assert b != [];
      LastIsSame(a, b, leq);
      forall k ensures With(Init(a), k) == With(Init(b), k) {
        assert With(a, k) == With(b, k);
        if Last(a).key == k { assert Init(With(a, k)) == With(Init(a), k) && Init(With(b, k)) == With(Init(b), k); }
      }
      StableOrderIsUnique(Init(a), Init(b), leq);
      assert a == Init(a) + [Last(a)] && b == Init(b) + [Last(b)];
    }
  }

  lemma LastIsSame<K(!new), V(!new)>(a: seq<Keyed<K, V>>, b: seq<Keyed<K, V>>, leq: (K, K) -> bool)
    requires TotalOrder(leq) && Sorted(a, leq) && Sorted(b, leq) && SameByKey(a, b) && a != [] && b != []
    ensures Last(a) == Last(b)
  {
    SameByKeyIsPermutation(a, b);
    LastIsGreatest(a, leq, Last(b));
    LastIsGreatest(b, leq, Last(a));
    var k := Last(a).key;
    assert Last(b).key == k;
    assert Last(With(a, k)) == Last(a) && Last(With(b, k)) == Last(b);
    assert With(a, k) == With(b, k);
  }

  lemma LastIsGreatest<K(!new), V(!new)>(a: seq<Keyed<K, V>>, leq: (K, K) -> bool, x: Keyed<K, V>)
    requires TotalOrder(leq) && Sorted(a, leq) && a != [] && x in multiset(a)
    ensures leq(x.key, Last(a).key)
  {
    assert x in a;
  }
}
