/** Facts about finite sets that more than one module needs. */
module Sets {

  lemma SomeMember<T>(s: set<T>) returns (x: T)
    requires s != {}
    ensures x in s
  {
    x :| x in s;
  }

  lemma SubsetSize<T>(a: set<T>, b: set<T>)
    requires a <= b
    ensures |b - a| == |b| - |a|
  {
    assert b == a + (b - a);
  }

  lemma EmptySet<T>(s: set<T>)
    ensures |s| == 0 <==> s == {}
  {
  }

  lemma {:induction false} DistinctSize<T>(items: seq<T>, members: set<T>)
    requires forall x :: multiset(items)[x] <= 1
    requires forall x :: x in items <==> x in members
    ensures |items| == |members|
  {
    if items == [] {
      EmptySet(members);
    } else {
      var n := |items| - 1;
      var last := items[n];
      assert items == items[..n] + [last];
      assert multiset(items) == multiset(items[..n]) + multiset{last};
      assert multiset(items)[last] <= 1;
      assert last !in multiset(items[..n]);
      assert forall x :: multiset(items[..n])[x] <= multiset(items)[x];
      DistinctSize(items[..n], members - {last});
    }
  }
}
