/** The chunks that a set of stream entries holds. */
module Chunks {
  import opened Pings
  import opened Ledger
  import opened Sets

  /** Entries of a reply in stream order, as parse_stream_chunk returns them. */
  function ChunksOf(log: Log, ids: set<Id>): seq<StreamChunk> {
    if log == [] then []
    else
      var last := |log| - 1;
      ChunksOf(log[..last], ids) + if last in ids then [StreamChunk(last, log[last])] else []
  }

  lemma {:induction false} ChunksCover(log: Log, ids: set<Id>)
    requires forall i <- ids :: i < |log|
    ensures ChunksOf(log, ids) == [] <==> ids == {}
    ensures multiset(Flatten(Payloads(ChunksOf(log, ids)))) == Spread(log, multiset(ids))
  {
    ChunkBags(log, ids);
    if ids != {} {
      var i :| i in ids;
      ChunkPresent(log, ids, i);
    } else {
      ChunksNone(log);
    }
  }

  lemma {:induction false} ChunksNone(log: Log)
    ensures ChunksOf(log, {}) == []
  {
    if log != [] { ChunksNone(log[..|log| - 1]); }
  }

  lemma {:induction false} ChunkPresent(log: Log, ids: set<Id>, i: Id)
    requires i in ids && i < |log|
    ensures StreamChunk(i, log[i]) in ChunksOf(log, ids)
  {
    if i < |log| - 1 { ChunkPresent(log[..|log| - 1], ids, i); }
  }

  lemma {:induction false} FlattenAppend<T>(chunks: seq<seq<T>>, chunk: seq<T>)
    ensures Flatten(chunks + [chunk]) == Flatten(chunks) + chunk
  {
    if chunks == [] {
      assert [chunk][1..] == [];
    } else {
      FlattenAppend(chunks[1..], chunk);
      assert (chunks + [chunk])[1..] == chunks[1..] + [chunk];
    }
  }

  lemma NoPayloads()
    ensures Payloads([]) == [] && Flatten(Payloads([])) == []
  {
  }

  lemma PayloadsAppend(chunks: seq<StreamChunk>, chunk: StreamChunk)
    ensures Payloads(chunks + [chunk]) == Payloads(chunks) + [chunk.pings]
    ensures Flatten(Payloads(chunks + [chunk])) == Flatten(Payloads(chunks)) + chunk.pings
  {
    assert Payloads(chunks + [chunk]) == Payloads(chunks) + [chunk.pings];
    FlattenAppend(Payloads(chunks), chunk.pings);
  }

  lemma RepeatOnce<T>(bag: multiset<T>)
    ensures Repeat(bag, 1) == bag && Repeat(bag, 0) == multiset{}
  {
    assert Repeat(bag, 1) == bag + Repeat(bag, 0);
  }

  lemma {:induction false} ChunkBags(log: Log, ids: set<Id>)
    ensures multiset(Flatten(Payloads(ChunksOf(log, ids)))) == Spread(log, multiset(ids))
  {
    hide Repeat;
    if log != [] {
      hide Payloads, Flatten;
      var last := |log| - 1;
      ChunkBags(log[..last], ids);
      RepeatOnce(multiset(log[last]));
      var front := ChunksOf(log[..last], ids);
      if last in ids {
        PayloadsAppend(front, StreamChunk(last, log[last]));
        assert multiset(Flatten(Payloads(front)) + log[last])
            == multiset(Flatten(Payloads(front))) + multiset(log[last]);
      } else {
        assert ChunksOf(log, ids) == front;
      }
    }
  }

  // ----- Order -----

  /** One chunk for every entry, in increasing order of id, with what the entry holds. */
  ghost predicate Lists(log: Log, ids: set<Id>, chunks: seq<StreamChunk>) {
    && |chunks| == |ids|
    && (forall k :: 0 <= k < |chunks| ==> chunks[k].id in ids && chunks[k].id < |log|)
    && (forall k :: 0 <= k < |chunks| ==> chunks[k].id < |log| && chunks[k].pings == log[chunks[k].id])
    && (forall j, k :: 0 <= j < k < |chunks| ==> chunks[j].id < chunks[k].id)
  }

  /** The chunks of a set of entries list it, and nothing else does. */
  lemma {:induction false} ChunksExact(log: Log, ids: set<Id>, chunks: seq<StreamChunk>)
    requires forall i <- ids :: i < |log|
    ensures Lists(log, ids, chunks) <==> chunks == ChunksOf(log, ids)
  {
    if log == [] {
      assert ids == {};
    } else {
      var last := |log| - 1;
      var lower := ids - {last};
      ChunksSame(log[..last], ids, lower);
      if last !in ids {
        assert lower == ids;
        ChunksExact(log[..last], ids, chunks);
        ListsBelow(log, ids, chunks);
      } else {
        var chunk := StreamChunk(last, log[last]);
        ChunksExact(log[..last], lower, ChunksOf(log[..last], lower));
        ListsOneMore(log, ids, ChunksOf(log[..last], lower));
        if Lists(log, ids, chunks) {
          HighestIsLast(log, ids, chunks);
          ChunksExact(log[..last], lower, chunks[..|chunks| - 1]);
          assert chunks == chunks[..|chunks| - 1] + [chunk];
        }
      }
    }
  }

  /** The last chunk is that of the last entry. */
  lemma HighestIsLast(log: Log, ids: set<Id>, chunks: seq<StreamChunk>)
    requires log != [] && |log| - 1 in ids && Lists(log, ids, chunks)
    ensures var last := |log| - 1;
            && chunks != [] && chunks[|chunks| - 1] == StreamChunk(last, log[last])
            && Lists(log[..last], ids - {last}, chunks[..|chunks| - 1])
  {
    var k := AllListed(log, ids, chunks, |log| - 1);
    var n := |chunks| - 1;
    assert chunks[k].id <= chunks[n].id < |log|;
  }

  lemma AllListed(log: Log, ids: set<Id>, chunks: seq<StreamChunk>, i: Id) returns (k: nat)
    requires Lists(log, ids, chunks) && i in ids
    ensures k < |chunks| && chunks[k].id == i
  {
    var listed := set k | 0 <= k < |chunks| :: chunks[k].id;
    DistinctSize(chunks, listed);
    SubsetSize(listed, ids);
    EmptySet(ids - listed);
    assert i in listed;
    k :| 0 <= k < |chunks| && chunks[k].id == i;
  }

  lemma {:induction false} DistinctSize(chunks: seq<StreamChunk>, listed: set<Id>)
    requires forall j, k :: 0 <= j < k < |chunks| ==> chunks[j].id < chunks[k].id
    requires listed == set k | 0 <= k < |chunks| :: chunks[k].id
    ensures |listed| == |chunks|
  {
    if chunks != [] {
      var n := |chunks| - 1;
      var fewer := set k | 0 <= k < n :: chunks[k].id;
      assert fewer == set k | 0 <= k < |chunks[..n]| :: chunks[..n][k].id;
      DistinctSize(chunks[..n], fewer);
      assert listed == fewer + {chunks[n].id};
    }
  }

  lemma ListsBelow(log: Log, ids: set<Id>, chunks: seq<StreamChunk>)
    requires log != [] && |log| - 1 !in ids
    ensures Lists(log, ids, chunks) <==> Lists(log[..|log| - 1], ids, chunks)
  {
  }

  lemma ListsOneMore(log: Log, ids: set<Id>, chunks: seq<StreamChunk>)
    requires log != [] && |log| - 1 in ids && Lists(log[..|log| - 1], ids - {|log| - 1}, chunks)
    ensures Lists(log, ids, chunks + [StreamChunk(|log| - 1, log[|log| - 1])])
  {
  }

  lemma {:induction false} ChunksSame(log: Log, a: set<Id>, b: set<Id>)
    requires forall i :: 0 <= i < |log| ==> (i in a <==> i in b)
    ensures ChunksOf(log, a) == ChunksOf(log, b)
  {
    if log != [] { ChunksSame(log[..|log| - 1], a, b); }
  }

  lemma ChunksAppend(log: Log, entry: seq<Ping>, ids: set<Id>)
    ensures ChunksOf(log + [entry], ids)
         == ChunksOf(log, ids) + if |log| in ids then [StreamChunk(|log|, entry)] else []
  {
    assert (log + [entry])[..|log|] == log;
  }

  lemma {:induction false} ChunksPrefix(log: Log, longer: Log, ids: set<Id>)
    requires log <= longer && forall i <- ids :: i < |log|
    ensures ChunksOf(longer, ids) == ChunksOf(log, ids)
    decreases |longer|
  {
    if log != longer { ChunksPrefix(log, longer[..|longer| - 1], ids); }
  }
}
