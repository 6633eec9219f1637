/** Pings, the chunks a batch is split into, and their trip through the stream. */
module Pings {

  datatype Option<+T> = None | Some(value: T)

  type Time = int

  datatype Ping = Ping(device: string, lat: real, lon: real, recordedAt: Time)

  type Bytes = seq<bv8>

  // ----- Splitting -----

  /** What `itertools.batched` yields: full chunks and one shorter last chunk. */
  function Batched<T>(items: seq<T>, size: nat): seq<seq<T>>
    requires size > 0
  {
    if items == [] then []
    else if |items| <= size then [items]
    else [items[..size]] + Batched(items[size..], size)
  }

  function Flatten<T>(chunks: seq<seq<T>>): seq<T> {
    if chunks == [] then [] else chunks[0] + Flatten(chunks[1..])
  }

  function Length<T>(chunks: seq<seq<T>>): nat {
    if chunks == [] then 0 else |chunks[0]| + Length(chunks[1..])
  }

  lemma {:induction false} FlattenLength<T>(chunks: seq<seq<T>>)
    ensures |Flatten(chunks)| == Length(chunks)
  {
    if chunks != [] { FlattenLength(chunks[1..]); }
  }

  /** Splitting keeps every item in order and makes no empty or oversized chunk. */
  lemma {:induction false} BatchedSplits<T>(items: seq<T>, size: nat)
    requires size > 0
    ensures Flatten(Batched(items, size)) == items
    ensures Length(Batched(items, size)) == |items|
    ensures forall c <- Batched(items, size) :: 1 <= |c| <= size
  {
    if |items| <= size {
      assert items != [] ==> Flatten([items]) == items + Flatten<T>([]);
    } else {
      BatchedSplits(items[size..], size);
      assert items[..size] + items[size..] == items;
    }
  }

  /** The number of chunks is |items| / size, rounded up. */
  lemma {:induction false} BatchedCount<T>(items: seq<T>, size: nat)
    requires size > 0
    ensures var n := |Batched(items, size)|; |items| <= n * size < |items| + size
  {
    if |items| > size {
      BatchedCount(items[size..], size);
      var rest := |Batched(items[size..], size)|;
      assert (rest + 1) * size == rest * size + size;
    } else if items != [] {
      assert |Batched(items, size)| == 1;
    }
  }

  /** The items of all chunks, whatever their order. */
  function Bag<T>(chunks: seq<seq<T>>): multiset<T> {
    if chunks == [] then multiset{} else multiset(chunks[0]) + Bag(chunks[1..])
  }

  lemma {:induction false} FlattenBag<T>(chunks: seq<seq<T>>)
    ensures multiset(Flatten(chunks)) == Bag(chunks)
  {
    if chunks != [] { FlattenBag(chunks[1..]); }
  }

  // ----- Encoding -----

  /** The JSON codec: `decode` is None where orjson or Ping.from_json raises. */
  datatype Codec = Codec(encode: seq<Ping> -> Bytes, decode: Bytes -> Option<seq<Ping>>) {
    ghost predicate RoundTrips() {
      forall pings: seq<Ping> :: encode(pings) != [] && decode(encode(pings)) == Some(pings)
    }
  }

  datatype RawEntry = RawEntry(id: nat, payload: Option<Bytes>)
  datatype StreamChunk = StreamChunk(id: nat, pings: seq<Ping>)

  /** An entry without the payload field, or with an empty one, is malformed. */
  predicate Malformed(entry: RawEntry) {
    entry.payload.None? || entry.payload.value == []
  }

  /** Specification of `ParseStreamChunk`: None when some payload does not decode. */
  function Parsed(codec: Codec, entries: seq<RawEntry>): Option<seq<StreamChunk>> {
    if entries == [] then Some([])
    else
      var last := entries[|entries| - 1];
      match Parsed(codec, entries[..|entries| - 1])
      case None => None
      case Some(chunks) =>
        if Malformed(last) then Some(chunks)
        else match codec.decode(last.payload.value)
          case None => None
          case Some(pings) => Some(chunks + [StreamChunk(last.id, pings)])
  }

  method ParseStreamChunk(codec: Codec, entries: seq<RawEntry>) returns (r: Option<seq<StreamChunk>>)
    ensures r == Parsed(codec, entries)
  {
    var chunks: seq<StreamChunk> := [];
    for i := 0 to |entries|
      invariant Parsed(codec, entries[..i]) == Some(chunks)
    {
      assert entries[..i + 1][..i] == entries[..i];
      if !Malformed(entries[i]) {
        var decoded := codec.decode(entries[i].payload.value);
        if decoded.None? {
          FailsOnwards(codec, entries, i + 1);
          return None;
        }
        chunks := chunks + [StreamChunk(entries[i].id, decoded.value)];
      }
    }
    assert entries[..|entries|] == entries;
    return Some(chunks);
  }

  /** The entries that carry a payload, in order. */
  function WellFormed(entries: seq<RawEntry>): seq<RawEntry> {
    if entries == [] then []
    else
      var last := entries[|entries| - 1];
      WellFormed(entries[..|entries| - 1]) + if Malformed(last) then [] else [last]
  }

  /** They are all the entries with a payload, each as often as it occurs, ... */
  lemma {:induction false} WellFormedExact(entries: seq<RawEntry>, e: RawEntry)
    ensures multiset(WellFormed(entries))[e] == if Malformed(e) then 0 else multiset(entries)[e]
  {
    if entries != [] {
      var n := |entries| - 1;
      WellFormedExact(entries[..n], e);
      assert entries == entries[..n] + [entries[n]];
    }
  }

  /** ... in their order. */
  lemma {:induction false} WellFormedInOrder(entries: seq<RawEntry>, p: nat)
    requires p < |entries| && !Malformed(entries[p])
    ensures var k := |WellFormed(entries[..p])|; k < |WellFormed(entries)| && WellFormed(entries)[k] == entries[p]
  {
    var n := |entries| - 1;
    if p < n {
      WellFormedInOrder(entries[..n], p);
      assert entries[..n][..p] == entries[..p];
    }
  }

  /** Parsing fails if and only if some payload does not decode; otherwise it gives one chunk for each
      entry with a payload, in order, under the entry's id and with what its payload decodes to. */
  lemma {:induction false} ParsedExact(codec: Codec, entries: seq<RawEntry>)
    ensures forall e <- WellFormed(entries) :: !Malformed(e) && e in entries
    ensures Parsed(codec, entries).None? <==>
            exists e <- entries :: !Malformed(e) && codec.decode(e.payload.value).None?
    ensures Parsed(codec, entries).Some? ==>
              var chunks, whole := Parsed(codec, entries).value, WellFormed(entries);
              && |chunks| == |whole|
              && forall i :: 0 <= i < |whole| ==>
                   chunks[i].id == whole[i].id && codec.decode(whole[i].payload.value) == Some(chunks[i].pings)
  {
    if entries != [] {
      var n := |entries| - 1;
      ParsedExact(codec, entries[..n]);
      assert entries == entries[..n] + [entries[n]];
    }
  }

  lemma {:induction false} FailsOnwards(codec: Codec, entries: seq<RawEntry>, n: nat)
    requires n <= |entries| && Parsed(codec, entries[..n]).None?
    ensures Parsed(codec, entries).None?
    decreases |entries| - n
  {
    if n == |entries| {
      assert entries[..n] == entries;
    } else {
      assert entries[..n + 1][..n] == entries[..n];
      FailsOnwards(codec, entries, n + 1);
    }
  }

  /** The entries one call of publish writes, under consecutive ids. */
  function Written(codec: Codec, chunks: seq<seq<Ping>>, firstId: nat): seq<RawEntry> {
    if chunks == [] then []
    else
      var n := |chunks| - 1;
      Written(codec, chunks[..n], firstId) + [RawEntry(firstId + n, Some(codec.encode(chunks[n])))]
  }

  function Payloads(chunks: seq<StreamChunk>): seq<seq<Ping>> {
    seq(|chunks|, i requires 0 <= i < |chunks| => chunks[i].pings)
  }

  lemma {:induction false} ReadsBackChunks(codec: Codec, chunks: seq<seq<Ping>>, firstId: nat)
    requires codec.RoundTrips()
    ensures Parsed(codec, Written(codec, chunks, firstId)).Some?
    ensures Payloads(Parsed(codec, Written(codec, chunks, firstId)).value) == chunks
  {
    if chunks != [] {
      var n := |chunks| - 1;
      ReadsBackChunks(codec, chunks[..n], firstId);
      var entries := Written(codec, chunks, firstId);
      assert |Written(codec, chunks[..n], firstId)| == |entries| - 1;
      assert entries[..|entries| - 1] == Written(codec, chunks[..n], firstId);
      assert chunks == chunks[..n] + [chunks[n]];
    }
  }

  /** A published batch, split, encoded, stored, parsed and flattened, is the batch. */
  lemma PublishedBatchReadsBack(codec: Codec, pings: seq<Ping>, size: nat, firstId: nat)
    requires codec.RoundTrips() && size > 0
    ensures var parsed := Parsed(codec, Written(codec, Batched(pings, size), firstId));
            parsed.Some? && Flatten(Payloads(parsed.value)) == pings
  {
    ReadsBackChunks(codec, Batched(pings, size), firstId);
    BatchedSplits(pings, size);
  }
}
