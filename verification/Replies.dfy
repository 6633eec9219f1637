/** What reads and claims deliver, and what an acknowledgement settles. */
module Replies {
  import opened Settings
  import opened Pings
  import opened Ledger
  import opened Chunks
  import opened Protocol
  import opened Invariant
  import opened Interference
  import opened Recovery

  // ----- What reads deliver -----

  /** The flush attempt b of `reader` holds the entries of `chunks`. */
  ghost predicate Holds(s: State, b: nat, reader: Consumer, chunks: seq<StreamChunk>) {
    && b < |s.batches|
    && s.batches[b] == Batch(reader, s.batches[b].ids, {}, Held)
    && s.batches[b].ids != {}
    && (forall i <- s.batches[b].ids :: i < |s.log|)
    && chunks == ChunksOf(s.log, s.batches[b].ids)
  }

  /** The entries with a payload in the reply to a read: the consumer's own pending ones, or the
      next unread ones. */
  function ReadIds(s: State, reader: Consumer, pending: bool): set<Id> {
    if pending then Live(s, First(Owned(s, reader), READ_COUNT)) else Interval(NextRead(s), ReadUntil(s))
  }

  function ReadState(s: State, reader: Consumer, pending: bool): State {
    if pending then Apply(s, ReadOwn(reader))
    else if Undelivered(s) > 0 then Apply(s, ReadNew(reader))
    else s
  }

  lemma NewIds(s: State, reader: Consumer)
    ensures ReadIds(s, reader, false) == {} <==> Undelivered(s) == 0
  {
    if Undelivered(s) > 0 { assert NextRead(s) in ReadIds(s, reader, false); }
  }

  lemma HeldBatch(t: State, b: nat, reader: Consumer, ids: set<Id>)
    requires b < |t.batches| && t.batches[b] == Batch(reader, ids, {}, Held)
    requires forall i <- ids :: i < |t.log|
    ensures ChunksOf(t.log, ids) == [] <==> ids == {}
    ensures ids != {} ==> Holds(t, b, reader, ChunksOf(t.log, ids))
  {
    hide ChunksOf;
    ChunksCover(t.log, ids);
  }

  /** A read gives the consumer `ids`, and opens a flush attempt for them. */
  ghost predicate HasRead(s: State, m: State, reader: Consumer, ids: set<Id>) {
    && |s.batches| <= |m.batches|
    && (ids != {} ==> |s.batches| < |m.batches|)
    && (|s.batches| < |m.batches| ==> m.batches[|s.batches|] == Batch(reader, ids, {}, Held))
    && m.log == s.log && m.low == s.low && m.acked == s.acked
    && Owned(m, reader) == Owned(s, reader) + ids && (forall i <- ids :: m.low <= i < |m.log|)
  }

  lemma PendingEffect(s: State, reader: Consumer)
    requires Shape(s)
    ensures var m, ids := ReadState(s, reader, true), ReadIds(s, reader, true);
            && HasRead(s, m, reader, ids)
            && m.cursor == s.cursor && ids <= Owned(s, reader) && Owned(m, reader) == Owned(s, reader)
  {
    hide First, Spread, Weight, Batched;
  }

  lemma NewEffect(s: State, reader: Consumer)
    requires Shape(s)
    ensures var m, ids := ReadState(s, reader, false), ReadIds(s, reader, false);
            && HasRead(s, m, reader, ids)
            && m.cursor == (if Undelivered(s) > 0 then ReadUntil(s) else s.cursor)
            && Owned(s, reader) !! ids
  {
    hide Interval, Undelivered, Enabled, Apply;
    NewIds(s, reader);
    ReadRange(s);
    if Undelivered(s) > 0 {
      GivesNew(s, reader);
    } else {
      assert Owned(s, reader) + {} == Owned(s, reader);
    }
  }

  lemma GivesNew(s: State, reader: Consumer)
    requires Undelivered(s) > 0 && forall i <- s.pel :: i < s.cursor
    ensures var m, ids := Apply(s, ReadNew(reader)), Interval(NextRead(s), ReadUntil(s));
            && |m.batches| == |s.batches| + 1 && m.batches[|s.batches|] == Batch(reader, ids, {}, Held)
            && m.log == s.log && m.low == s.low && m.acked == s.acked && m.cursor == ReadUntil(s)
            && Owned(m, reader) == Owned(s, reader) + ids
  {
    hide First, Spread, Weight, Batched, Interval, Undelivered;
  }

  lemma ReadEffect(s: State, reader: Consumer, pending: bool)
    requires Shape(s)
    ensures HasRead(s, ReadState(s, reader, pending), reader, ReadIds(s, reader, pending))
  {
    hide ReadState, ReadIds, HasRead;
    if pending { PendingEffect(s, reader); } else { NewEffect(s, reader); }
  }

  lemma ReadFacts(s: State, reader: Consumer, pending: bool)
    requires Shape(s)
    ensures var m, ids := ReadState(s, reader, pending), ReadIds(s, reader, pending);
            && Later(s, m, NOTHING) && m.log == s.log
            && (ChunksOf(m.log, ids) == [] <==> ids == {}) && Lists(s.log, ids, ChunksOf(m.log, ids))
            && (ids != {} ==> Holds(m, |s.batches|, reader, ChunksOf(m.log, ids)))
  {
    hide ChunksOf, Lists, First, Enabled, Apply, Later, Holds;
    var m, ids := ReadState(s, reader, pending), ReadIds(s, reader, pending);
    ReadEffect(s, reader, pending);
    ChunksCover(m.log, ids);
    ChunksExact(s.log, ids, ChunksOf(m.log, ids));
    if ids != {} { HeldBatch(m, |s.batches|, reader, ids); }
    ReadStateIsLater(s, reader, pending);
  }

  lemma ReadStateIsLater(s: State, reader: Consumer, pending: bool)
    requires Shape(s)
    ensures Later(s, ReadState(s, reader, pending), NOTHING)
  {
    hide Apply, Later, First;
    if pending { ReadIsLater(s, ReadOwn(reader), NOTHING); }
    else if Undelivered(s) > 0 { ReadIsLater(s, ReadNew(reader), NOTHING); }
    else { LaterReflexive(s, NOTHING); }
  }

  lemma ClaimFacts(s: State, reader: Consumer)
    requires Shape(s)
    ensures var m, ids := Apply(s, Claim(reader)), Live(s, Taken(s));
            && Later(s, m, NOTHING) && m.log == s.log
            && |m.batches| == |s.batches| + 1 && m.batches[|s.batches|].ids == ids
            && (ChunksOf(m.log, ids) == [] <==> ids == {}) && Lists(s.log, ids, ChunksOf(m.log, ids))
            && (ids != {} ==> Holds(m, |s.batches|, reader, ChunksOf(m.log, ids)))
  {
    hide ChunksOf, Lists, First, Apply, Later, Holds;
    ClaimEffect(s, reader);
    ClaimedIds(s);
    ChunksExact(s.log, Live(s, Taken(s)), ChunksOf(Apply(s, Claim(reader)).log, Live(s, Taken(s))));
    HeldBatch(Apply(s, Claim(reader)), |s.batches|, reader, Live(s, Taken(s)));
    ReadIsLater(s, Claim(reader), NOTHING);
  }

  lemma ClaimedIds(s: State)
    requires Shape(s)
    ensures forall i <- Taken(s) :: i in s.pel && i < |s.log|
  {
    hide First;
  }

  // ----- Acknowledging -----

  /** An entry is out of the pending list for good, acknowledged unless it was trimmed first. */
  ghost predicate Gone(s: State, i: Id) {
    i < s.cursor && i !in s.pel && (i in s.acked || i < s.low)
  }

  lemma XAckFacts(s: State, b: nat)
    requires Shape(s) && b < |s.batches| && s.batches[b].stage == Committed && BatchOk(s.batches[b], s.cursor)
    ensures Enabled(s, XAck(b))
    ensures var t := Apply(s, XAck(b));
            && b < |t.batches| && t.batches[b].stage == Acked && t.batches[b].ids == s.batches[b].ids
            && (forall i <- s.batches[b].ids :: Gone(t, i))
            && Later(s, t, NOTHING)
  {
    hide Batched, Spread, Weight, First;
  }

  lemma DecrByFacts(s: State, b: nat)
    requires Shape(s) && b < |s.batches| && s.batches[b].stage == Acked
    ensures Enabled(s, DecrBy(b))
    ensures var t := Apply(s, DecrBy(b));
            && b < |t.batches| && t.batches[b].stage == Settled && t.batches[b].ids == s.batches[b].ids
            && Later(s, t, NOTHING)
  {
    hide Batched, Spread, Weight, First;
  }

  lemma GoneStays(s: State, t: State, ids: set<Id>)
    requires Later(s, t, NOTHING) && forall i <- ids :: Gone(s, i)
    ensures forall i <- ids :: Gone(t, i)
  {
  }

  /** What an undisturbed flush of `ids` does to the stream. */
  ghost predicate FlushedFrom(s: State, t: State, ids: set<Id>) {
    && t.log == s.log && t.low == s.low && t.cursor == s.cursor
    && t.pel == s.pel - ids && t.acked == s.acked + ids * s.pel.Keys
  }

  lemma FlushFacts(s: State, b: nat)
    requires b < |s.batches| && s.batches[b].stage == Held && s.batches[b].ids != {}
    ensures FlushedFrom(s, Apply(Apply(Apply(s, Commit(b)), XAck(b)), DecrBy(b)), s.batches[b].ids)
  {
    hide Spread, Weight, Batched, First;
  }

  /** Entries a claim drops because they were trimmed are out for good, too. */
  lemma DroppedAreGone(s: State, reader: Consumer)
    requires Shape(s)
    ensures forall i <- Taken(s) - Live(s, Taken(s)) :: Gone(Apply(s, Claim(reader)), i)
  {
    hide First, Spread, Weight, Batched;
  }

  lemma {:induction false} SpreadPrefix(log: Log, longer: Log, ids: multiset<Id>)
    requires log <= longer && forall i <- ids :: i < |log|
    ensures Spread(longer, ids) == Spread(log, ids)
    decreases |longer|
  {
    if log == longer {
    } else {
      var last := |longer| - 1;
      assert log <= longer[..last];
      SpreadPrefix(log, longer[..last], ids);
      SpreadAppend(longer[..last], longer[last], ids);
      assert longer[..last] + [longer[last]] == longer;
    }
  }
}
