/** What the `pings:pending` counter means: an exact conservation law for every reachable
    state, when it equals the true backlog, and how it can drift. */
module Accounting {
  import opened Pings
  import opened Ledger
  import opened Protocol
  import opened Invariant
  import opened Interference
  import opened Runs
  import opened Delivery
  import opened Sets

  /** Entries not acknowledged, lost ones included. */
  function Outstanding(s: State): set<Id> {
    Interval(0, |s.log|) - s.acked
  }

  function LostIds(s: State): set<Id> {
    Interval(0, s.low) - s.pel.Keys - s.acked
  }

  /** Pings a consumer can still be given: undelivered ones and pending ones. */
  function TrueBacklog(s: State): nat {
    Weight(s.log, multiset(Interval(NextRead(s), |s.log|))) + Weight(s.log, multiset(s.pel.Keys))
  }

  function Uncounted(s: State): nat { Weight(s.log, PubTally(s.pubs, false)) }
  function UnsettledAcks(s: State): nat { Weight(s.log, Tally(s.batches, Unsettled)) }
  function DoubleDecrements(s: State): nat { Weight(s.log, Tally(s.batches, Doubled)) }

  lemma {:induction false} SettledSplits(bs: seq<Batch>, cursor: Id)
    requires forall b <- bs :: BatchOk(b, cursor)
    ensures Tally(bs, Decremented) + Tally(bs, Unsettled) == Tally(bs, Removed) + Tally(bs, Doubled)
  {
    if bs != [] {
      var b, rest := bs[|bs| - 1], bs[..|bs| - 1];
      SettledSplits(rest, cursor);
      assert b in bs;
      var d, u, r, x := Share(b, Decremented), Share(b, Unsettled), Share(b, Removed), Share(b, Doubled);
      assert multiset(d) + multiset(u) == multiset(r) + multiset(x);
      assert Tally(rest, Decremented) + multiset(d) + (Tally(rest, Unsettled) + multiset(u))
          == Tally(rest, Decremented) + Tally(rest, Unsettled) + (multiset(d) + multiset(u));
      assert Tally(rest, Removed) + multiset(r) + (Tally(rest, Doubled) + multiset(x))
          == Tally(rest, Removed) + Tally(rest, Doubled) + (multiset(r) + multiset(x));
    }
  }

  /** A split of all entries in two splits their weight. */
  lemma SplitWeight(log: Log, part: set<Id>, rest: set<Id>)
    requires part !! rest && part + rest == Interval(0, |log|)
    ensures Weight(log, multiset(part)) + Weight(log, multiset(rest)) == Weight(log, AllIds(|log|))
  {
    AllIdsExact(|log|);
    assert multiset(part) + multiset(rest) == AllIds(|log|);
    SpreadAdd(log, multiset(part), multiset(rest));
  }

  /** The counter is the unacknowledged pings, less those added but not yet counted, plus those
      acknowledged but not yet subtracted, less those subtracted by a flush that had not removed
      them, less what resets took off. */
  lemma CounterLaw(s: State)
    requires Reachable(s)
    ensures s.counter == Weight(s.log, multiset(Outstanding(s)))
                         - Uncounted(s) + UnsettledAcks(s) - DoubleDecrements(s) - s.forgiven
  {
    ReachableInv(s);
    assert s.acked + Outstanding(s) == Interval(0, |s.log|);
    SplitWeight(s.log, s.acked, Outstanding(s));
    SpreadAdd(s.log, PubTally(s.pubs, true), PubTally(s.pubs, false));
    SettledSplits(s.batches, s.cursor);
    SpreadAdd(s.log, Tally(s.batches, Decremented), Tally(s.batches, Unsettled));
    SpreadAdd(s.log, Tally(s.batches, Removed), Tally(s.batches, Doubled));
  }

  lemma DisjointWeight(log: Log, a: set<Id>, b: set<Id>)
    requires a !! b
    ensures Weight(log, multiset(a + b)) == Weight(log, multiset(a)) + Weight(log, multiset(b))
  {
    assert multiset(a + b) == multiset(a) + multiset(b);
    SpreadAdd(log, multiset(a), multiset(b));
  }

  lemma FourParts(all: set<Id>, unread: set<Id>, pending: set<Id>, acked: set<Id>, lost: set<Id>)
    requires forall i :: i in all <==> i in unread || i in pending || i in acked || i in lost
    requires unread !! pending !! acked !! lost
    ensures all - acked == unread + pending + lost
    ensures unread + pending !! lost
  {
  }

  lemma OutstandingSplits(s: State, unread: set<Id>, lost: set<Id>)
    requires Shape(s) && lost == LostIds(s) && unread == Interval(NextRead(s), |s.log|)
    ensures Outstanding(s) == unread + s.pel.Keys + lost
    ensures unread !! s.pel.Keys && unread + s.pel.Keys !! lost
  {
    var all, trimmed := Interval(0, |s.log|), Interval(0, s.low);
    assert lost == trimmed - s.pel.Keys - s.acked;
    forall i ensures i in all <==> i in unread || i in s.pel.Keys || i in s.acked || i in lost {
      if i in all { assert i in unread || i < NextRead(s); }
    }
    FourParts(all, unread, s.pel.Keys, s.acked, lost);
  }

  lemma OutstandingWeight(s: State)
    requires Shape(s)
    ensures Weight(s.log, multiset(Outstanding(s))) == TrueBacklog(s) + Weight(s.log, multiset(LostIds(s)))
  {
    hide Spread, Weight, Interval, LostIds, Outstanding;
    var unread, lost := Interval(NextRead(s), |s.log|), LostIds(s);
    OutstandingSplits(s, unread, lost);
    DisjointWeight(s.log, unread, s.pel.Keys);
    DisjointWeight(s.log, unread + s.pel.Keys, lost);
  }

  /** The counter equals the true backlog if and only if its four errors cancel out. */
  lemma CounterExactIff(s: State)
    requires Reachable(s)
    ensures s.counter == TrueBacklog(s) <==>
            Weight(s.log, multiset(LostIds(s))) + UnsettledAcks(s)
              == Uncounted(s) + DoubleDecrements(s) + s.forgiven
  {
    hide Spread, Weight, Interval, LostIds, Outstanding;
    ReachableInv(s);
    CounterLaw(s);
    OutstandingWeight(s);
  }

  lemma {:induction false} NothingUncounted(pubs: seq<Publication>)
    requires forall pub <- pubs :: pub.stage == Counted || pub.ids == {}
    ensures PubTally(pubs, false) == multiset{}
  {
    if pubs != [] {
      NothingUncounted(pubs[..|pubs| - 1]);
      assert pubs[|pubs| - 1] in pubs;
    }
  }

  lemma {:induction false} NothingMissettled(bs: seq<Batch>)
    requires forall b <- bs :: b.stage != Acked && (b.stage == Settled ==> b.removed == b.ids)
    ensures Tally(bs, Unsettled) == multiset{} && Tally(bs, Doubled) == multiset{}
  {
    if bs != [] {
      NothingMissettled(bs[..|bs| - 1]);
      var b := bs[|bs| - 1];
      assert b in bs;
      assert Share(b, Unsettled) == {} && Share(b, Doubled) == {};
    }
  }

  /** With no publish or ack in flight or cut short, no entry trimmed away or acknowledged twice,
      and no reset, the counter is the size of all undelivered and pending entries. */
  lemma CounterExactAtRest(s: State)
    requires Reachable(s)
    requires forall pub <- s.pubs :: pub.stage == Counted || pub.ids == {}
    requires forall b <- s.batches :: b.stage != Acked && (b.stage == Settled ==> b.removed == b.ids)
    requires LostIds(s) == {} && s.forgiven == 0
    ensures s.counter == TrueBacklog(s)
  {
    CounterExactIff(s);
    NothingUncounted(s.pubs);
    NothingMissettled(s.batches);
    SpreadEmpty(s.log);
    assert multiset(LostIds(s)) == multiset{};
  }

  // ----- Resets -----

  lemma WeightZeroIff(log: Log, ids: set<Id>)
    requires forall entry <- log :: entry != []
    requires forall i <- ids :: i < |log|
    ensures Weight(log, multiset(ids)) == 0 <==> ids == {}
  {
    if ids == {} {
      SpreadEmpty(log);
      assert multiset(ids) == multiset{};
    } else {
      var i :| i in ids;
      assert log[i] in log;
      SpreadOne(log, i);
      SpreadMonotone(log, multiset{i}, multiset(ids));
    }
  }

  lemma NoBacklogIff(s: State)
    requires Reachable(s)
    ensures TrueBacklog(s) == 0 <==> forall i: Id :: i < |s.log| ==> i in s.acked || IsLost(s, i)
  {
    hide Weight, Spread, Interval, Inv;
    ReachableInv(s);
    EntriesNotEmpty(s);
    var unread := Interval(NextRead(s), |s.log|);
    assert Shape(s) by { ShapeOf(s); }
    forall i <- s.pel.Keys ensures i < |s.log| {}
    WeightZeroIff(s.log, unread);
    WeightZeroIff(s.log, s.pel.Keys);
    NowhereIff(s, unread);
  }

  lemma EntriesNotEmpty(s: State)
    requires Inv(s)
    ensures forall entry <- s.log :: entry != []
  {
  }

  lemma NowhereIff(s: State, unread: set<Id>)
    requires Shape(s) && unread == Interval(NextRead(s), |s.log|)
    ensures unread == {} && s.pel.Keys == {} <==> forall i: Id :: i < |s.log| ==> i in s.acked || IsLost(s, i)
  {
    if i: Id :| i < |s.log| && i !in s.acked && !IsLost(s, i) { assert i in unread || i in s.pel.Keys; }
    if i: Id :| i in unread || i in s.pel.Keys { assert i < |s.log| && i !in s.acked && !IsLost(s, i); }
    if unread != {} || s.pel.Keys != {} { var i := SomeMember(unread + s.pel.Keys); }
  }

  /** What was acknowledged or lost in a state with nothing pending stays so. */
  lemma SettledStays(s: State, t: State, i: Id)
    requires Shape(s) && Later(s, t, NOTHING) && s.pel == map[] && i < NextRead(s) && i < |s.log|
    ensures i in t.acked || IsLost(t, i)
  {
  }

  /** A reconciliation from its check in s to its SET 0, whatever runs in between: it leaves the
      counter equal to the backlog if and only if every entry that was unread at the check or added
      since is acknowledged or lost by then. With the lag known nothing was unread at the check, so
      a reconciliation during which nothing is added always does. */
  lemma ResetExactIff(s: State, lagKnown: bool, between: seq<Step>)
    requires Reachable(s) && Legal(s, [SeeEmpty(lagKnown)] + between)
    requires Enabled(Final(s, [SeeEmpty(lagKnown)] + between), SetZero(|s.resets|))
    ensures var t := Apply(Final(s, [SeeEmpty(lagKnown)] + between), SetZero(|s.resets|));
            && (t.counter == TrueBacklog(t) <==>
                  forall i: Id :: NextRead(s) <= i < |t.log| ==> i in t.acked || IsLost(t, i))
            && (lagKnown ==> NextRead(s) >= |s.log|)
            && (lagKnown && |t.log| == |s.log| ==> t.counter == TrueBacklog(t))
  {
    hide Enabled, Apply, TrueBacklog, Inv;
    var steps := [SeeEmpty(lagKnown)] + between;
    var m := Final(s, steps);
    ReachableInv(s);
    CheckFacts(s, lagKnown, between);
    forall step <- steps ensures Respects(step, NOTHING) {}
    RunIsLater(s, steps, NOTHING);
    StillReachable(s, steps);
    var t := Apply(m, SetZero(|s.resets|));
    SetZeroFacts(m, |s.resets|);
    StillReachable(m, [SetZero(|s.resets|)]);
    NoBacklogIff(t);
    forall i: Id | i < NextRead(s) && i < |t.log| ensures i in t.acked || IsLost(t, i) {
      ShapeOf(s);
      if i < |s.log| { SettledStays(s, m, i); }
    }
  }

  lemma CheckFacts(s: State, lagKnown: bool, between: seq<Step>)
    requires Legal(s, [SeeEmpty(lagKnown)] + between)
    ensures s.pel == map[] && (lagKnown ==> NextRead(s) >= |s.log|)
    ensures Shape(s) ==> NextRead(s) <= |s.log|
  {
    assert ([SeeEmpty(lagKnown)] + between)[0] == SeeEmpty(lagKnown);
  }

  lemma SetZeroFacts(s: State, r: nat)
    requires Enabled(s, SetZero(r))
    ensures Legal(s, [SetZero(r)]) && Final(s, [SetZero(r)]) == Apply(s, SetZero(r))
    ensures var t := Apply(s, SetZero(r));
            && t.counter == 0 && t.log == s.log && t.low == s.low && t.cursor == s.cursor
            && t.pel == s.pel && t.acked == s.acked && t.pubs == s.pubs && t.batches == s.batches
            && t.forgiven == s.forgiven + s.counter
  {
    RunPrepend(s, SetZero(r), []);
    assert [SetZero(r)] + [] == [SetZero(r)];
  }

  /** The permanent errors of the counter cancel: once nothing is in flight it is exact. */
  ghost predicate Balanced(s: State) {
    Weight(s.log, multiset(LostIds(s))) == DoubleDecrements(s) + s.forgiven
  }

  lemma BalancedAtRest(s: State)
    requires Reachable(s) && Uncounted(s) == 0 && UnsettledAcks(s) == 0
    ensures s.counter == TrueBacklog(s) <==> Balanced(s)
  {
    CounterExactIff(s);
  }

  /** Exact for good: a SET 0 balances the counter if and only if, at that moment, the pings waiting
      and those acknowledged but not subtracted are as many as those added but not counted. */
  lemma ResetBalancesIff(s: State, r: nat)
    requires Reachable(s) && Enabled(s, SetZero(r))
    ensures Balanced(Apply(s, SetZero(r))) <==> TrueBacklog(s) + UnsettledAcks(s) == Uncounted(s)
  {
    hide Spread, Weight, Interval, Enabled, Apply, PubTally, Tally;
    ReachableInv(s);
    CounterLaw(s);
    OutstandingWeight(s);
    SetZeroFacts(s, r);
  }

  // ----- Drift -----

  /** Two requests published, the first one read, committed and acknowledged but for its DECRBY. */
  lemma ResetOvertakesPublish(p: Ping) returns (steps: seq<Step>, t: State)
    ensures Legal(Init(), steps) && t == Final(Init(), steps)
    ensures t.log == [[p], [p]] && t.low == 0 && t.cursor == 1 && t.pel == map[]
    ensures t.counter == 0 && |t.batches| == 1 && t.batches[0].ids == {0} && t.batches[0].stage == Acked
  {
    hide First, Spread, Weight, Legal, Final;
    steps := OneCommitted(p, "ingest-0");
    steps := Extend(steps, XAck(0));
    assert Final(Init(), steps).pel == map[];
    steps := Extend(steps, SeeEmpty(true));
    steps := Extend(steps, SeeBacklog(0));
    var more := PublishOne(Final(Init(), steps), p, 0);
    RunConcat(Init(), steps, more);
    steps := Extend(steps + more, SetZero(0));
    t := Final(Init(), steps);
  }

  /** The check and the SET 0 of a reconciliation are apart: when a publish falls between them,
      the counter can end below zero with a ping waiting. */
  lemma LateResetUndercounts(p: Ping) returns (steps: seq<Step>)
    ensures Legal(Init(), steps)
    ensures Final(Init(), steps).counter == -1 && TrueBacklog(Final(Init(), steps)) == 1
  {
    var t: State;
    steps, t := ResetOvertakesPublish(p);
    SingleWeight(t.log, 0);
    SingleWeight(t.log, 1);
    SpreadEmpty(t.log);
    steps := Extend(steps, DecrBy(0));
    var u := Final(Init(), steps);
    assert Interval(NextRead(u), |u.log|) == {1};
    var none: set<Id> := {};
    assert multiset(none) == multiset{};
    assert u.pel.Keys == none;
  }

  lemma SingleWeight(log: Log, i: Id)
    requires i < |log|
    ensures var one: set<Id> := {i}; Weight(log, multiset(one)) == |log[i]|
  {
    var one: set<Id> := {i};
    assert multiset(one) == multiset{i};
    SpreadOne(log, i);
  }

  /** Once below zero, with no reset already under way, the counter is not repaired by anything
      but new publications: reconciliation reads it as 0 and leaves it alone. */
  lemma {:induction false} NegativeDriftPersists(s: State, steps: seq<Step>)
    requires Legal(s, steps) && s.counter < 0 && SawBacklog !in s.resets
    requires forall step <- steps :: !step.IncrBy?
    ensures Final(s, steps).counter <= s.counter && SawBacklog !in Final(s, steps).resets
    decreases |steps|
  {
    if steps != [] {
      var t := Apply(s, steps[0]);
      assert t.counter <= s.counter && SawBacklog !in t.resets;
      NegativeDriftPersists(t, steps[1..]);
    }
  }
}
