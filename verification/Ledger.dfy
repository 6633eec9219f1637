/** Bags of stream entries, and the bags of pings they stand for. */
module Ledger {
  import opened Pings

  type Id = nat
  type Log = seq<seq<Ping>>

  function Repeat<T>(bag: multiset<T>, times: nat): multiset<T> {
    if times == 0 then multiset{} else bag + Repeat(bag, times - 1)
  }

  /** Every ping of every entry in `ids`, as often as `ids` holds the entry. */
  function Spread(log: Log, ids: multiset<Id>): multiset<Ping> {
    if log == [] then multiset{}
    else
      var last := |log| - 1;
      Spread(log[..last], ids) + Repeat(multiset(log[last]), ids[last])
  }

  /** How many pings the entries in `ids` hold. */
  function Weight(log: Log, ids: multiset<Id>): nat {
    |Spread(log, ids)|
  }

  function AllIds(n: nat): multiset<Id> {
    if n == 0 then multiset{} else AllIds(n - 1) + multiset{n - 1}
  }

  lemma {:induction false} RepeatAdd<T>(bag: multiset<T>, m: nat, n: nat)
    ensures Repeat(bag, m + n) == Repeat(bag, m) + Repeat(bag, n)
  {
    if m != 0 { RepeatAdd(bag, m - 1, n); }
  }

  lemma SpreadLast(log: Log, ids: multiset<Id>)
    requires log != []
    ensures var last := |log| - 1; Spread(log, ids) == Spread(log[..last], ids) + Repeat(multiset(log[last]), ids[last])
  {
  }

  lemma SpreadNothing(ids: multiset<Id>)
    ensures Spread([], ids) == multiset{}
  {
  }

  lemma {:induction false} SpreadAdd(log: Log, a: multiset<Id>, b: multiset<Id>)
    ensures Spread(log, a + b) == Spread(log, a) + Spread(log, b)
    ensures Weight(log, a + b) == Weight(log, a) + Weight(log, b)
  {
    hide Repeat, Spread;
    if log == [] {
      SpreadNothing(a);
      SpreadNothing(b);
      SpreadNothing(a + b);
    } else {
      var last := |log| - 1;
      var entry := multiset(log[last]);
      SpreadLast(log, a);
      SpreadLast(log, b);
      SpreadLast(log, a + b);
      SpreadAdd(log[..last], a, b);
      RepeatAdd(entry, a[last], b[last]);
      Interleave(Spread(log[..last], a), Spread(log[..last], b), Repeat(entry, a[last]), Repeat(entry, b[last]));
    }
  }

  lemma Interleave<T>(x: multiset<T>, y: multiset<T>, a: multiset<T>, b: multiset<T>)
    ensures x + y + (a + b) == (x + a) + (y + b)
  {
  }

  lemma {:induction false} SpreadEmpty(log: Log)
    ensures Spread(log, multiset{}) == multiset{}
  {
    if log != [] { SpreadEmpty(log[..|log| - 1]); }
  }

  lemma SpreadMonotone(log: Log, a: multiset<Id>, b: multiset<Id>)
    requires a <= b
    ensures Spread(log, a) <= Spread(log, b)
    ensures Weight(log, a) <= Weight(log, b)
  {
    assert b == a + (b - a);
    SpreadAdd(log, a, b - a);
  }

  /** Appending an entry does not change what older entries stand for. */
  lemma SpreadAppend(log: Log, entry: seq<Ping>, ids: multiset<Id>)
    requires forall i <- ids :: i < |log|
    ensures Spread(log + [entry], ids) == Spread(log, ids)
  {
    assert (log + [entry])[..|log|] == log;
    assert ids[|log|] == 0;
  }

  lemma {:induction false} SpreadOutside(log: Log, ids: multiset<Id>)
    requires forall i <- ids :: i >= |log|
    ensures Spread(log, ids) == multiset{}
  {
    if log != [] {
      assert |log| - 1 !in ids;
      SpreadOutside(log[..|log| - 1], ids);
    }
  }

  lemma {:induction false} SpreadOne(log: Log, i: Id)
    requires i < |log|
    ensures Spread(log, multiset{i}) == multiset(log[i])
    ensures Weight(log, multiset{i}) == |log[i]|
  {
    var last := |log| - 1;
    if i == last {
      SpreadOutside(log[..last], multiset{i});
    } else {
      SpreadOne(log[..last], i);
      assert multiset{i}[last] == 0;
    }
    assert Repeat(multiset(log[last]), 1) == multiset(log[last]) + Repeat(multiset(log[last]), 0);
  }

  lemma {:induction false} AllIdsExact(n: nat)
    ensures forall i: nat :: AllIds(n)[i] == if i < n then 1 else 0
  {
    if n != 0 { AllIdsExact(n - 1); }
  }

  lemma Swap<T>(x: multiset<T>, a: multiset<T>, y: multiset<T>, b: multiset<T>, c: multiset<T>)
    requires x + a == y + b
    ensures x + c + a == y + c + b
  {
    assert x + c + a == x + a + c;
    assert y + c + b == y + b + c;
  }

  lemma Cancel<T>(x: multiset<T>, y: multiset<T>, a: multiset<T>)
    requires x + a == y + a
    ensures x == y
  {
    assert x == x + a - a;
    assert y == y + a - a;
  }

  lemma DisjointBags<T>(a: set<T>, b: set<T>)
    requires a !! b
    ensures multiset(a + b) == multiset(a) + multiset(b)
  {
  }
}
