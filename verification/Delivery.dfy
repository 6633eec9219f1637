/** What the ingest protocol promises about entries: at-least-once persistence, no
    entry out of reach before it is trimmed, and bounded duplication. */
module Delivery {
  import opened Settings
  import opened Pings
  import opened Ledger
  import opened Protocol
  import opened Invariant
  import opened Interference
  import opened Recovery
  import opened Runs

  // ----- At least once -----

  lemma {:induction false} RemovedWereWritten(bs: seq<Batch>, cursor: Id)
    requires forall b <- bs :: BatchOk(b, cursor)
    ensures Tally(bs, Removed) <= Tally(bs, Written)
    ensures Tally(bs, Written) <= Tally(bs, Read)
  {
    if bs != [] {
      RemovedWereWritten(bs[..|bs| - 1], cursor);
      assert bs[|bs| - 1] in bs;
    }
  }

  lemma PersistedOne(s: State, i: Id)
    requires i in s.acked && i < |s.log| && Spread(s.log, multiset(s.acked)) <= s.rows
    ensures multiset(s.log[i]) <= s.rows
  {
    SpreadOne(s.log, i);
    SpreadMonotone(s.log, multiset{i}, multiset(s.acked));
  }

  /** Nothing acknowledged is unpersisted: the table holds the pings of all acknowledged
      entries together, and so of each of them. */
  lemma AcknowledgedIsPersisted(s: State)
    requires Reachable(s)
    ensures Spread(s.log, multiset(s.acked)) <= s.rows
    ensures forall i <- s.acked :: i < |s.log| && multiset(s.log[i]) <= s.rows
  {
    hide Spread, Tally;
    ReachableInv(s);
    RemovedWereWritten(s.batches, s.cursor);
    SpreadMonotone(s.log, Tally(s.batches, Removed), Tally(s.batches, Written));
    forall i <- s.acked ensures i < |s.log| && multiset(s.log[i]) <= s.rows {
      PersistedOne(s, i);
    }
  }

  /** End to end: once every entry of a fully published request is acknowledged, the table
      holds the request's pings. */
  lemma AcceptedRequestIsPersisted(s: State, p: nat)
    requires Reachable(s) && p < |s.pubs| && s.pubs[p].todo == [] && s.pubs[p].ids <= s.acked
    ensures multiset(s.pubs[p].pings) <= s.rows
  {
    ReachableInv(s);
    assert PubOk(s.pubs[p], s.log);
    SpreadMonotone(s.log, multiset(s.pubs[p].ids), multiset(s.acked));
    AcknowledgedIsPersisted(s);
  }

  // ----- Where an entry is -----

  ghost predicate IsUndelivered(s: State, i: Id) { NextRead(s) <= i < |s.log| }
  ghost predicate IsPending(s: State, i: Id) { i in s.pel }
  ghost predicate IsAcknowledged(s: State, i: Id) { i in s.acked }
  ghost predicate IsLost(s: State, i: Id) { i < s.low && i !in s.pel && i !in s.acked }

  predicate ExactlyOne(a: bool, b: bool, c: bool, d: bool) {
    (a || b || c || d) && !(a && b) && !(a && c) && !(a && d) && !(b && c) && !(b && d) && !(c && d)
  }

  /** Every entry ever added is undelivered, pending, acknowledged or lost, and only one of them. */
  lemma ExactlyOnePlace(s: State, i: Id)
    requires Reachable(s) && i < |s.log|
    ensures ExactlyOne(IsUndelivered(s, i), IsPending(s, i), IsAcknowledged(s, i), IsLost(s, i))
  {
    ReachableInv(s);
  }

  /** An entry is lost only once at least STREAM_MAX_LEN newer entries have been added. */
  lemma LossNeedsFullStream(s: State, i: Id)
    requires Reachable(s) && IsLost(s, i)
    ensures i + STREAM_MAX_LEN < |s.log|
  {
    ReachableInv(s);
  }

  /** The next XADD can lose an unread entry if and only if some request still has a chunk to add
      and STREAM_MAX_LEN entries from this one on are in the stream. */
  lemma MayBeLostNextIff(s: State, i: Id)
    requires Reachable(s) && IsUndelivered(s, i)
    ensures (exists p, low :: Enabled(s, XAdd(p, low)) && IsLost(Apply(s, XAdd(p, low)), i))
            <==> (exists p :: 0 <= p < |s.pubs| && s.pubs[p].stage == Open && s.pubs[p].todo != [])
                 && i + STREAM_MAX_LEN <= |s.log|
  {
    ReachableInv(s);
    if p :| 0 <= p < |s.pubs| && s.pubs[p].stage == Open && s.pubs[p].todo != [] && i + STREAM_MAX_LEN <= |s.log| {
      assert Enabled(s, XAdd(p, i + 1)) && IsLost(Apply(s, XAdd(p, i + 1)), i);
    }
  }

  // ----- An entry that is not trimmed can always still be acknowledged -----

  /** A read of new entries and the flush of what it delivered. */
  lemma ReadRound(s: State, reader: Consumer) returns (steps: seq<Step>)
    requires Undelivered(s) > 0
    ensures Legal(s, steps) && OwnSteps(steps, reader, |s.batches|)
    ensures var t := Final(s, steps);
            && NextRead(s) < t.cursor <= |s.log| && t.low == s.low && t.log == s.log
            && Interval(NextRead(s), t.cursor) <= t.acked && |s.batches| <= |t.batches|
  {
    hide First, Spread, Weight, Batched;
    var m, b := Apply(s, ReadNew(reader)), |s.batches|;
    assert NextRead(s) in m.batches[b].ids;
    FlushRun(m, b);
    RunPrepend(s, ReadNew(reader), FlushSteps(b));
    steps := [ReadNew(reader)] + FlushSteps(b);
  }

  lemma RecoverUndelivered(s: State, i: Id, reader: Consumer, n: nat) returns (steps: seq<Step>)
    requires IsUndelivered(s, i) && n <= |s.batches|
    ensures Legal(s, steps) && OwnSteps(steps, reader, n) && i in Final(s, steps).acked
    decreases |s.log| - NextRead(s)
  {
    hide Enabled, Apply, Legal, Final;
    steps := ReadRound(s, reader);
    var u := Final(s, steps);
    if i >= u.cursor {
      var rest := RecoverUndelivered(u, i, reader, n);
      RunConcat(s, steps, rest);
      steps := steps + rest;
    }
  }

  lemma RecoverPending(s: State, i: Id, reader: Consumer, n: nat) returns (steps: seq<Step>)
    requires i in Stale(s) && Due(s) == s.pel.Keys && n <= |s.batches|
    ensures Legal(s, steps) && OwnSteps(steps, reader, n) && i in Final(s, steps).acked
  {
    hide First;
    assert Blocking(s, i) == {};
    StaleRecoveredIff(s, reader, i);
    steps := RoundsRun(s, reader, |Due(s)|, n);
  }

  /** In every reachable state, whatever has crashed before, any consumer on its own can bring every
      entry that is neither acknowledged nor trimmed to an acknowledgement: by reading it if it is
      unread, by waiting and claiming it if it is pending, and by flushing what it got itself. */
  lemma CanStillBeAcknowledged(s: State, i: Id, reader: Consumer) returns (steps: seq<Step>)
    requires Reachable(s) && s.low <= i < |s.log| && i !in s.acked
    ensures OwnSteps(steps, reader, |s.batches|) && Legal(s, steps) && i in Final(s, steps).acked
  {
    hide First, Inv, Apply, Enabled, Legal, Final;
    ReachableInv(s);
    ShapeOf(s);
    if i in s.pel {
      WaitForAll(s);
      var rest := RecoverPending(Apply(s, Tick(CLAIM_IDLE_MS)), i, reader, |s.batches|);
      RunPrepend(s, Tick(CLAIM_IDLE_MS), rest);
      steps := [Tick(CLAIM_IDLE_MS)] + rest;
    } else {
      steps := RecoverUndelivered(s, i, reader, |s.batches|);
    }
  }

  lemma WaitForAll(s: State)
    requires Shape(s)
    ensures Enabled(s, Tick(CLAIM_IDLE_MS))
    ensures var t := Apply(s, Tick(CLAIM_IDLE_MS));
            && Due(t) == t.pel.Keys && t.batches == s.batches
            && forall i <- s.pel :: s.low <= i ==> i in Stale(t)
  {
    hide First;
  }

  // ----- Duplicates -----

  /** How often each entry's pings were committed. */
  function Commits(s: State): multiset<Id> {
    Tally(s.batches, Written)
  }

  /** The table is exactly the committed entries, each as often as it was committed; no entry is
      committed more often than delivered, nor delivered more than once but for redeliveries. */
  lemma CommitsBoundedByDeliveries(s: State)
    requires Reachable(s)
    ensures s.rows == Spread(s.log, Commits(s))
    ensures Commits(s) <= s.deliveries
    ensures forall i: Id :: Commits(s)[i] <= 1 + s.redeliveries[i]
  {
    ReachableInv(s);
    RemovedWereWritten(s.batches, s.cursor);
  }

  /** Without claims and pending re-reads nothing is written twice. */
  lemma NoRedeliveryNoDuplicates(s: State)
    requires Reachable(s) && s.redeliveries == multiset{}
    ensures s.rows <= Spread(s.log, AllIds(|s.log|))
  {
    CommitsBoundedByDeliveries(s);
    ReachableInv(s);
    AllIdsExact(|s.log|);
    Bounded(s, Read);
    forall i: Id ensures Commits(s)[i] <= AllIds(|s.log|)[i] {
      if i >= |s.log| { assert i !in Tally(s.batches, Read); }
    }
    SpreadMonotone(s.log, Commits(s), AllIds(|s.log|));
  }

  predicate IsRead(step: Step) { step.ReadNew? || step.ReadOwn? || step.Claim? }

  ghost predicate NoReads(steps: seq<Step>) { forall step <- steps :: !IsRead(step) }

  lemma DeliveriesStayStep(s: State, step: Step)
    requires Enabled(s, step) && !IsRead(step)
    ensures Apply(s, step).deliveries == s.deliveries
  {
  }

  lemma {:induction false} DeliveriesStay(s: State, steps: seq<Step>)
    requires Legal(s, steps) && NoReads(steps)
    ensures Final(s, steps).deliveries == s.deliveries
    decreases |steps|
  {
    hide Enabled, Apply;
    if steps != [] {
      assert !IsRead(steps[0]);
      DeliveriesStayStep(s, steps[0]);
      DeliveriesStay(Apply(s, steps[0]), steps[1..]);
    }
  }

  ghost predicate MayBeWritten(b: Batch) { b.stage != Held || b.ids == {} }

  lemma CommitOne(s: State, k: nat)
    requires k < |s.batches| && !MayBeWritten(s.batches[k])
    ensures Enabled(s, Commit(k))
    ensures Apply(s, Commit(k)).batches == s.batches[k := s.batches[k].(stage := Committed)]
  {
  }

  /** The attempts up to the kth, those that are still held, commit one after the other. */
  lemma {:induction false} CommitUpTo(s: State, k: nat) returns (steps: seq<Step>)
    requires k <= |s.batches|
    ensures Legal(s, steps) && NoReads(steps)
    ensures var bs := Final(s, steps).batches;
            && |bs| == |s.batches| && (forall j :: 0 <= j < k ==> MayBeWritten(bs[j]))
            && (forall j :: k <= j < |bs| ==> bs[j] == s.batches[j])
    decreases k
  {
    hide Enabled, Apply;
    if k == 0 {
      steps := [];
    } else {
      steps := CommitUpTo(s, k - 1);
      var t := Final(s, steps);
      if !MayBeWritten(t.batches[k - 1]) {
        CommitOne(t, k - 1);
        RunExtend(s, steps, Commit(k - 1));
        steps := steps + [Commit(k - 1)];
      }
    }
  }

  lemma {:induction false} AllWritten(bs: seq<Batch>)
    requires forall b <- bs :: MayBeWritten(b)
    ensures Tally(bs, Written) == Tally(bs, Read)
  {
    if bs != [] {
      var b := bs[|bs| - 1];
      assert b in bs;
      AllWritten(bs[..|bs| - 1]);
      assert Share(b, Written) == Share(b, Read);
    }
  }

  /** Every delivery may still end in a commit: some run without any further read commits each entry
      as often as it has been delivered. */
  lemma EveryDeliveryMayCommit(s: State) returns (steps: seq<Step>)
    requires Reachable(s)
    ensures Legal(s, steps) && NoReads(steps) && Commits(Final(s, steps)) == s.deliveries
  {
    hide Inv;
    steps := CommitUpTo(s, |s.batches|);
    var t := Final(s, steps);
    StillReachable(s, steps);
    DeliveriesStay(s, steps);
    BooksBalance(t);
    forall b <- t.batches ensures MayBeWritten(b) {}
    AllWritten(t.batches);
  }

  lemma BooksBalance(s: State)
    requires Reachable(s)
    ensures s.deliveries == Tally(s.batches, Read) && Commits(s) <= s.deliveries
    ensures forall i: Id :: s.deliveries[i] == s.redeliveries[i] + if i in s.deliveries then 1 else 0
  {
    ReachableInv(s);
    RemovedWereWritten(s.batches, s.cursor);
  }

  /** Without further reads and claims an entry can come to be written twice if and only if it has
      been claimed or read again before. */
  lemma WrittenTwiceIff(s: State, i: Id)
    requires Reachable(s)
    ensures (exists steps :: Legal(s, steps) && NoReads(steps) && Commits(Final(s, steps))[i] >= 2)
            <==> i in s.redeliveries
  {
    hide Tally;
    BooksBalance(s);
    if i in s.redeliveries {
      var steps := EveryDeliveryMayCommit(s);
    }
    if steps :| Legal(s, steps) && NoReads(steps) && Commits(Final(s, steps))[i] >= 2 {
      StillReachable(s, steps);
      DeliveriesStay(s, steps);
      BooksBalance(Final(s, steps));
    }
  }

  /** Duplicates do happen: an entry committed, not acknowledged in time, claimed and committed
      again is in the table twice. */
  lemma WrittenTwice(p: Ping) returns (steps: seq<Step>)
    ensures Legal(Init(), steps)
    ensures var t := Final(Init(), steps); t.log == [[p]] && Commits(t)[0] == 2 && t.rows == multiset{p, p}
  {
    hide Tally, Spread, Weight, First, Legal, Final, Enabled, Apply;
    steps := CommittedTwice(p);
    var t := Final(Init(), steps);
    var zero: Id := 0;
    TwoCommits(t.batches);
    CommitsBoundedByDeliveries(t);
    SpreadAdd(t.log, multiset{zero}, multiset{zero});
    SpreadOne(t.log, zero);
  }

  lemma CommittedTwice(p: Ping) returns (steps: seq<Step>)
    ensures Legal(Init(), steps)
    ensures var t, bs := Final(Init(), steps), Final(Init(), steps).batches;
            && t.log == [[p]] && |bs| == 2 && bs[0].ids == bs[1].ids == {0} && bs[0].stage == bs[1].stage == Committed
  {
    hide Tally, Spread, Weight, First, Legal, Final;
    steps := OneCommitted(p, "ingest-0");
    steps := Extend(steps, Tick(CLAIM_IDLE_MS));
    OnlyOneTaken(Final(Init(), steps));
    steps := Extend(steps, Claim("ingest-1"));
    assert Final(Init(), steps).batches[1].ids == {0};
    steps := Extend(steps, Commit(1));
  }

  lemma OnlyOneTaken(s: State)
    requires s.pel.Keys == {0} && Stale(s) == {0}
    ensures Taken(s) == {0}
  {
    assert First(s.pel.Keys, CLAIM_SCAN) == {0} by { assert Below(s.pel.Keys, 0) == {}; }
    assert Candidates(s) == {0};
    assert Below(Candidates(s), 0) == {};
  }

  lemma TwoCommits(bs: seq<Batch>)
    requires |bs| == 2 && bs[0].ids == bs[1].ids == {0} && bs[0].stage == bs[1].stage == Committed
    ensures Tally(bs, Written) == multiset{0} + multiset{0}
  {
    assert bs[..1][..0] == [];
    assert Tally(bs[..1], Written) == multiset{0};
  }
}
