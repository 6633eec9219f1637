/** The order of a request's pings in the stream. */
module Order {
  import opened Settings
  import opened Pings
  import opened Ledger
  import opened Chunks
  import opened Protocol

  /** The entries of a request, by increasing id, and what it still has to add are its batch, split. */
  ghost predicate InOrder(pub: Publication, log: Log) {
    && (forall i <- pub.ids :: i < |log|)
    && Payloads(ChunksOf(log, pub.ids)) + pub.todo == Batched(pub.pings, CHUNK_SIZE)
  }

  ghost predicate AllInOrder(s: State) {
    forall pub <- s.pubs :: InOrder(pub, s.log)
  }

  lemma OrderKeptByXAdd(s: State, p: nat, low: Id)
    requires AllInOrder(s) && Enabled(s, XAdd(p, low))
    ensures AllInOrder(Apply(s, XAdd(p, low)))
  {
    hide Batched, Payloads, ChunksOf;
    var t, pub := Apply(s, XAdd(p, low)), s.pubs[p];
    var chunk := StreamChunk(|s.log|, pub.todo[0]);
    assert pub in s.pubs;
    forall q <- t.pubs ensures InOrder(q, t.log) {
      ChunksAppend(s.log, pub.todo[0], q.ids);
      if q in s.pubs {
        assert InOrder(q, s.log) && |s.log| !in q.ids;
        assert ChunksOf(s.log, q.ids) + [] == ChunksOf(s.log, q.ids);
      } else {
        assert q == t.pubs[p] && InOrder(pub, s.log);
        var added := ChunksOf(s.log, pub.ids);
        ChunksSame(s.log, q.ids, pub.ids);
        PayloadsAppend(added, chunk);
        assert Payloads(added) + [pub.todo[0]] + pub.todo[1..] == Payloads(added) + pub.todo;
      }
    }
  }

  lemma NothingAdded(log: Log)
    ensures Payloads(ChunksOf(log, {})) == []
  {
    ChunksNone(log);
  }

  lemma OrderKept(s: State, step: Step)
    requires AllInOrder(s) && Enabled(s, step)
    ensures AllInOrder(Apply(s, step))
  {
    hide Batched, Payloads, ChunksOf, Spread, Weight, First, Interval;
    match step
    case XAdd(p, low) => OrderKeptByXAdd(s, p, low);
    case Admit(pings) =>
      NothingAdded(s.log);
      assert [] + Batched(pings, CHUNK_SIZE) == Batched(pings, CHUNK_SIZE);
    case IncrBy(p) => OrderKeptByStage(s, p, Counted);
    case Abandon(p) => OrderKeptByStage(s, p, PublishStage.Abandoned);
    case _ =>
  }

  lemma OrderKeptByStage(s: State, p: nat, stage: PublishStage)
    requires AllInOrder(s) && p < |s.pubs|
    ensures AllInOrder(s.(pubs := s.pubs[p := s.pubs[p].(stage := stage)]))
  {
    hide Batched, Payloads, ChunksOf;
    assert s.pubs[p] in s.pubs;
  }

  lemma {:induction false} OrderOverRun(s: State, steps: seq<Step>)
    requires AllInOrder(s) && Legal(s, steps)
    ensures AllInOrder(Final(s, steps))
    decreases |steps|
  {
    hide Enabled, Apply, AllInOrder;
    if steps != [] {
      OrderKept(s, steps[0]);
      OrderOverRun(Apply(s, steps[0]), steps[1..]);
    }
  }

  /** In every reachable state the entries of a request hold, in the order of their ids, the first
      chunks of its batch, whatever other requests have added in between: concatenated they are a prefix of
      the batch, and the whole of it once nothing is left to add. */
  lemma RequestKeepsOrder(s: State, p: nat)
    requires Reachable(s) && p < |s.pubs|
    ensures var pub := s.pubs[p];
            var added := ChunksOf(s.log, pub.ids);
            && Lists(s.log, pub.ids, added)
            && Payloads(added) <= Batched(pub.pings, CHUNK_SIZE)
            && Flatten(Payloads(added)) <= pub.pings
            && (pub.todo == [] <==> |added| == |Batched(pub.pings, CHUNK_SIZE)|)
            && (pub.todo == [] ==> Flatten(Payloads(added)) == pub.pings)
  {
    hide Batched, Payloads, ChunksOf, Lists, Flatten;
    AllReachedInOrder(s);
    var pub := s.pubs[p];
    assert pub in s.pubs;
    assert InOrder(pub, s.log);
    var added := Payloads(ChunksOf(s.log, pub.ids));
    ChunksExact(s.log, pub.ids, ChunksOf(s.log, pub.ids));
    FlattenConcat(added, pub.todo);
    BatchedSplits(pub.pings, CHUNK_SIZE);
    PayloadsSize(ChunksOf(s.log, pub.ids));
    if pub.todo == [] { assert added + pub.todo == added; }
  }

  lemma PayloadsSize(chunks: seq<StreamChunk>)
    ensures |Payloads(chunks)| == |chunks|
  {
  }

  lemma AllReachedInOrder(s: State)
    requires Reachable(s)
    ensures AllInOrder(s)
  {
    hide Enabled, Apply, InOrder;
    var steps :| Legal(Init(), steps) && Final(Init(), steps) == s;
    OrderOverRun(Init(), steps);
  }

  lemma {:induction false} FlattenConcat<T>(a: seq<seq<T>>, b: seq<seq<T>>)
    ensures Flatten(a + b) == Flatten(a) + Flatten(b)
    decreases |a|
  {
    if a == [] {
      assert a + b == b;
    } else {
      FlattenConcat(a[1..], b);
      assert (a + b)[1..] == a[1..] + b;
    }
  }
}
