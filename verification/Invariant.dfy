/** What every step of the ingest protocol keeps. */
module Invariant {
  import opened Settings
  import opened Pings
  import opened Ledger
  import opened Protocol

  // ----- Tallies over flush attempts and publications -----

  datatype Kind = Read | Written | Removed | Unsettled | Doubled | Decremented

  /** The entries a flush attempt has read, written to the database, removed from the
      pending list, removed without the DECRBY yet, subtracted though it did not remove
      them, and subtracted. */
  function Share(b: Batch, kind: Kind): set<Id> {
    match kind
    case Read => b.ids
    case Written => if b.stage == Held then {} else b.ids
    case Removed => b.removed
    case Unsettled => if b.stage == Acked then b.removed else {}
    case Doubled => if b.stage == Settled then b.ids - b.removed else {}
    case Decremented => if b.stage == Settled then b.ids else {}
  }

  function Tally(bs: seq<Batch>, kind: Kind): multiset<Id> {
    if bs == [] then multiset{}
    else Tally(bs[..|bs| - 1], kind) + multiset(Share(bs[|bs| - 1], kind))
  }

  lemma TallyAppend(bs: seq<Batch>, b: Batch, kind: Kind)
    ensures Tally(bs + [b], kind) == Tally(bs, kind) + multiset(Share(b, kind))
  {
    assert (bs + [b])[..|bs|] == bs;
  }

  lemma {:induction false} TallyUpdate(bs: seq<Batch>, i: nat, b: Batch, kind: Kind)
    requires i < |bs|
    ensures Tally(bs[i := b], kind) + multiset(Share(bs[i], kind)) == Tally(bs, kind) + multiset(Share(b, kind))
  {
    var last := |bs| - 1;
    if i == last {
      assert bs[i := b][..last] == bs[..last];
    } else {
      assert bs[i := b][..last] == bs[..last][i := b];
      assert bs[i := b][last] == bs[last] && bs[..last][i] == bs[i];
      TallyUpdate(bs[..last], i, b, kind);
      Swap(Tally(bs[..last][i := b], kind), multiset(Share(bs[i], kind)),
           Tally(bs[..last], kind), multiset(Share(b, kind)), multiset(Share(bs[last], kind)));
    }
  }

  lemma TallySame(bs: seq<Batch>, i: nat, b: Batch, kind: Kind)
    requires i < |bs| && Share(b, kind) == Share(bs[i], kind)
    ensures Tally(bs[i := b], kind) == Tally(bs, kind)
  {
    TallyUpdate(bs, i, b, kind);
    Cancel(Tally(bs[i := b], kind), Tally(bs, kind), multiset(Share(b, kind)));
  }

  lemma TallyGains(bs: seq<Batch>, i: nat, b: Batch, kind: Kind, gain: set<Id>)
    requires i < |bs| && Share(bs[i], kind) == {} && Share(b, kind) == gain
    ensures Tally(bs[i := b], kind) == Tally(bs, kind) + multiset(gain)
  {
    TallyUpdate(bs, i, b, kind);
  }

  lemma {:induction false} TallyBounded(bs: seq<Batch>, kind: Kind, n: nat)
    requires forall b <- bs, i <- b.ids :: i < n
    requires forall b <- bs :: b.removed <= b.ids
    ensures forall i <- Tally(bs, kind) :: i < n
  {
    if bs != [] {
      TallyBounded(bs[..|bs| - 1], kind, n);
      assert bs[|bs| - 1] in bs;
    }
  }

  function PubShare(pub: Publication, counted: bool): multiset<Id> {
    if (pub.stage == Counted) == counted then multiset(pub.ids) else multiset{}
  }

  /** Entries added by publications whose INCRBY has run, or has not. */
  function PubTally(pubs: seq<Publication>, counted: bool): multiset<Id> {
    if pubs == [] then multiset{}
    else PubTally(pubs[..|pubs| - 1], counted) + PubShare(pubs[|pubs| - 1], counted)
  }

  lemma PubTallyAppend(pubs: seq<Publication>, pub: Publication, counted: bool)
    ensures PubTally(pubs + [pub], counted) == PubTally(pubs, counted) + PubShare(pub, counted)
  {
    assert (pubs + [pub])[..|pubs|] == pubs;
  }

  lemma {:induction false} PubTallyUpdate(pubs: seq<Publication>, i: nat, pub: Publication, counted: bool)
    requires i < |pubs|
    ensures PubTally(pubs[i := pub], counted) + PubShare(pubs[i], counted)
         == PubTally(pubs, counted) + PubShare(pub, counted)
  {
    var last := |pubs| - 1;
    if i == last {
      assert pubs[i := pub][..last] == pubs[..last];
    } else {
      assert pubs[i := pub][..last] == pubs[..last][i := pub];
      assert pubs[i := pub][last] == pubs[last] && pubs[..last][i] == pubs[i];
      PubTallyUpdate(pubs[..last], i, pub, counted);
      Swap(PubTally(pubs[..last][i := pub], counted), PubShare(pubs[i], counted),
           PubTally(pubs[..last], counted), PubShare(pub, counted), PubShare(pubs[last], counted));
    }
  }

  // ----- The invariant -----

  /** Where entries are: unread from the cursor on; below it pending, acknowledged or trimmed. */
  ghost predicate Shape(s: State) {
    && s.low <= |s.log| && s.cursor <= |s.log|
    && (s.low > 0 ==> s.low + STREAM_MAX_LEN <= |s.log|)
    && (forall i <- s.pel :: i < s.cursor && i !in s.acked && s.pel[i].since <= s.now)
    && (forall i <- s.acked :: i < s.cursor)
    && (forall i: Id :: i < s.cursor && i !in s.pel && i !in s.acked ==> i < s.low)
  }

  ghost predicate BatchOk(b: Batch, cursor: Id) {
    && (forall i <- b.ids :: i < cursor)
    && b.removed <= b.ids
    && (b.stage == Held || b.stage == Committed ==> b.removed == {})
  }

  ghost predicate BatchesOk(s: State) {
    forall b <- s.batches :: BatchOk(b, s.cursor)
  }

  /** Redis' delivery counts, the table and the acknowledgements agree with the flush attempts. */
  ghost predicate BooksOk(s: State) {
    && s.deliveries == Tally(s.batches, Read)
    && s.rows == Spread(s.log, Tally(s.batches, Written))
    && multiset(s.acked) == Tally(s.batches, Removed)
    && (forall i: Id :: s.deliveries[i] == s.redeliveries[i] + if i in s.deliveries then 1 else 0)
    && (forall i <- s.pel :: i in s.deliveries)
  }

  ghost predicate PubOk(pub: Publication, log: Log) {
    && (forall i <- pub.ids :: i < |log|)
    && Spread(log, multiset(pub.ids)) + Bag(pub.todo) == multiset(pub.pings)
    && (pub.stage == Counted ==> pub.todo == [])
    && (forall chunk <- pub.todo :: 1 <= |chunk| <= CHUNK_SIZE)
    && pub.Total() <= MAX_HTTP_BATCH_SIZE
  }

  /** Every entry was added by exactly one publication, and holds 1 to CHUNK_SIZE pings. */
  ghost predicate PubsOk(s: State) {
    && (forall pub <- s.pubs :: PubOk(pub, s.log))
    && PubTally(s.pubs, true) + PubTally(s.pubs, false) == AllIds(|s.log|)
    && (forall entry <- s.log :: 1 <= |entry| <= CHUNK_SIZE)
  }

  ghost predicate CounterOk(s: State) {
    s.counter + s.forgiven + Weight(s.log, Tally(s.batches, Decremented))
      == Weight(s.log, PubTally(s.pubs, true))
  }

  ghost predicate Inv(s: State) {
    Shape(s) && BatchesOk(s) && BooksOk(s) && PubsOk(s) && CounterOk(s)
  }

  // ----- Preservation -----

  lemma ShapeKeptByReadNew(s: State, reader: Consumer)
    requires Shape(s) && Enabled(s, ReadNew(reader))
    ensures Shape(Apply(s, ReadNew(reader)))
  {
    hide Batched, Spread, Weight, First;
  }

  lemma ShapeKeptByRead(s: State, step: Step)
    requires Shape(s) && Enabled(s, step) && (step.ReadOwn? || step.Claim?)
    ensures Shape(Apply(s, step))
  {
    hide Batched, Spread, Weight, First;
  }

  lemma ShapeKeptByXAck(s: State, b: nat)
    requires Shape(s) && Enabled(s, XAck(b))
    ensures Shape(Apply(s, XAck(b)))
  {
    hide Batched, Spread, Weight, First;
  }

  lemma ShapeKept(s: State, step: Step)
    requires Shape(s) && Enabled(s, step)
    ensures Shape(Apply(s, step))
  {
    hide Batched, Spread, Weight, First;
    match step
    case ReadNew(reader) => ShapeKeptByReadNew(s, reader);
    case ReadOwn(_) => ShapeKeptByRead(s, step);
    case Claim(_) => ShapeKeptByRead(s, step);
    case XAck(b) => ShapeKeptByXAck(s, b);
    case _ =>
  }

  lemma BatchesKeptByFlush(s: State, step: Step, k: nat)
    requires BatchesOk(s) && Enabled(s, step)
    requires step == Commit(k) || step == XAck(k) || step == DecrBy(k)
    ensures BatchesOk(Apply(s, step))
  {
    hide Batched, Spread, Weight, First;
    assert BatchOk(s.batches[k], s.cursor);
    var t := Apply(s, step);
    forall b <- t.batches ensures BatchOk(b, t.cursor) {
      if b in s.batches { assert BatchOk(b, s.cursor); }
    }
  }

  lemma BatchesKeptByRead(s: State, step: Step)
    requires Shape(s) && BatchesOk(s) && Enabled(s, step) && (step.ReadNew? || step.ReadOwn? || step.Claim?)
    ensures BatchesOk(Apply(s, step))
  {
    hide Batched, Spread, Weight, First;
    var t := Apply(s, step);
    assert BatchOk(t.batches[|s.batches|], t.cursor);
    forall b <- t.batches ensures BatchOk(b, t.cursor) {
      if b in s.batches { assert BatchOk(b, s.cursor); }
    }
  }

  lemma BatchesKept(s: State, step: Step)
    requires Shape(s) && BatchesOk(s) && Enabled(s, step)
    ensures BatchesOk(Apply(s, step))
  {
    hide Batched, Spread, Weight, First;
    match step
    case ReadNew(_) => BatchesKeptByRead(s, step);
    case ReadOwn(_) => BatchesKeptByRead(s, step);
    case Claim(_) => BatchesKeptByRead(s, step);
    case Commit(k) => BatchesKeptByFlush(s, step, k);
    case XAck(k) => BatchesKeptByFlush(s, step, k);
    case DecrBy(k) => BatchesKeptByFlush(s, step, k);
    case _ =>
  }

  lemma TallyAppendHeld(bs: seq<Batch>, b: Batch)
    requires b.stage == Held && b.removed == {}
    ensures Tally(bs + [b], Read) == Tally(bs, Read) + multiset(b.ids)
    ensures forall kind: Kind :: kind != Read ==> Tally(bs + [b], kind) == Tally(bs, kind)
  {
    TallyAppend(bs, b, Read);
    forall kind: Kind | kind != Read ensures Tally(bs + [b], kind) == Tally(bs, kind) {
      TallyAppend(bs, b, kind);
      assert Share(b, kind) == {};
    }
  }

  lemma Bounded(s: State, kind: Kind)
    requires BatchesOk(s)
    ensures forall i <- Tally(s.batches, kind) :: i < s.cursor
  {
    forall b <- s.batches ensures (forall i <- b.ids :: i < s.cursor) && b.removed <= b.ids {
      assert BatchOk(b, s.cursor);
    }
    TallyBounded(s.batches, kind, s.cursor);
  }

  /** What the three steps of a flush add to the tallies. */
  lemma FlushTallies(bs: seq<Batch>, k: nat, b: Batch)
    requires k < |bs| && b.ids == bs[k].ids
    requires b.stage == Committed || b.stage == Acked || b.stage == Settled
    requires b.stage == Committed ==> bs[k].stage == Held && b.removed == bs[k].removed
    requires b.stage == Acked ==> bs[k].stage == Committed && bs[k].removed == {}
    requires b.stage == Settled ==> bs[k].stage == Acked && b.removed == bs[k].removed
    ensures Tally(bs[k := b], Read) == Tally(bs, Read)
    ensures Tally(bs[k := b], Written)
         == if b.stage == Committed then Tally(bs, Written) + multiset(b.ids) else Tally(bs, Written)
    ensures Tally(bs[k := b], Removed)
         == if b.stage == Acked then Tally(bs, Removed) + multiset(b.removed) else Tally(bs, Removed)
    ensures Tally(bs[k := b], Decremented)
         == if b.stage == Settled then Tally(bs, Decremented) + multiset(b.ids) else Tally(bs, Decremented)
  {
    TallySame(bs, k, b, Read);
    if b.stage == Committed { TallyGains(bs, k, b, Written, b.ids); } else { TallySame(bs, k, b, Written); }
    if b.stage == Acked { TallyGains(bs, k, b, Removed, b.removed); } else { TallySame(bs, k, b, Removed); }
    if b.stage == Settled { TallyGains(bs, k, b, Decremented, b.ids); } else { TallySame(bs, k, b, Decremented); }
  }

  lemma BooksKeptByRead(s: State, step: Step)
    requires Shape(s) && BatchesOk(s) && BooksOk(s) && Enabled(s, step)
    requires step.ReadNew? || step.ReadOwn? || step.Claim?
    ensures BooksOk(Apply(s, step))
  {
    hide Batched, Spread, Weight, First, Tally;
    Bounded(s, Read);
    TallyAppendHeld(s.batches, Apply(s, step).batches[|s.batches|]);
  }

  lemma BooksKeptByCommit(s: State, k: nat)
    requires BatchesOk(s) && BooksOk(s) && Enabled(s, Commit(k))
    ensures BooksOk(Apply(s, Commit(k)))
  {
    hide Batched, Spread, Tally;
    var b := Apply(s, Commit(k)).batches[k];
    FlushTallies(s.batches, k, b);
    SpreadAdd(s.log, Tally(s.batches, Written), multiset(b.ids));
  }

  lemma BooksKeptByXAck(s: State, k: nat)
    requires Shape(s) && BatchesOk(s) && BooksOk(s) && Enabled(s, XAck(k))
    ensures BooksOk(Apply(s, XAck(k)))
  {
    hide Batched, Spread, Weight, First, Tally;
    var b := Apply(s, XAck(k)).batches[k];
    assert BatchOk(s.batches[k], s.cursor);
    FlushTallies(s.batches, k, b);
    assert s.acked !! b.removed;
    DisjointBags(s.acked, b.removed);
  }

  lemma BooksKeptByDecrBy(s: State, k: nat)
    requires BatchesOk(s) && BooksOk(s) && Enabled(s, DecrBy(k))
    ensures BooksOk(Apply(s, DecrBy(k)))
  {
    hide Batched, Spread, Tally;
    FlushTallies(s.batches, k, Apply(s, DecrBy(k)).batches[k]);
  }

  lemma BooksKept(s: State, step: Step)
    requires Shape(s) && BatchesOk(s) && BooksOk(s) && Enabled(s, step)
    ensures BooksOk(Apply(s, step))
  {
    hide Batched, Spread, Tally;
    match step
    case XAdd(p, _) =>
      Bounded(s, Written);
      SpreadAppend(s.log, s.pubs[p].todo[0], Tally(s.batches, Written));
    case ReadNew(_) => BooksKeptByRead(s, step);
    case ReadOwn(_) => BooksKeptByRead(s, step);
    case Claim(_) => BooksKeptByRead(s, step);
    case Commit(k) => BooksKeptByCommit(s, k);
    case XAck(k) => BooksKeptByXAck(s, k);
    case DecrBy(k) => BooksKeptByDecrBy(s, k);
    case _ =>
  }

  lemma PubGrows(pub: Publication, log: Log, entry: seq<Ping>)
    requires PubOk(pub, log)
    ensures PubOk(pub, log + [entry])
  {
    SpreadAppend(log, entry, multiset(pub.ids));
  }

  /** A publication after its next XADD. */
  function Advanced(pub: Publication, added: Id): Publication
    requires pub.todo != []
  {
    pub.(todo := pub.todo[1..], ids := pub.ids + {added})
  }

  lemma AddedBag(pub: Publication, added: Id)
    requires pub.todo != [] && forall i <- pub.ids :: i < added
    ensures multiset(Advanced(pub, added).ids) == multiset(pub.ids) + multiset{added}
  {
  }

  lemma AddedEntry(pub: Publication, log: Log)
    requires PubOk(pub, log) && pub.todo != [] && pub.stage == Open
    ensures PubOk(Advanced(pub, |log|), log + [pub.todo[0]])
  {
    hide Spread;
    var log', added: Id := log + [pub.todo[0]], |log|;
    AddedBag(pub, added);
    SpreadAppend(log, pub.todo[0], multiset(pub.ids));
    SpreadAdd(log', multiset(pub.ids), multiset{added});
    SpreadOne(log', added);
    assert pub.todo[0] in pub.todo;
    var x, y, z := Spread(log, multiset(pub.ids)), multiset(pub.todo[0]), Bag(pub.todo[1..]);
    assert (x + y) + z == x + (y + z);
  }

  lemma PubTallySame(pubs: seq<Publication>, p: nat, pub: Publication, counted: bool)
    requires p < |pubs| && PubShare(pub, counted) == PubShare(pubs[p], counted)
    ensures PubTally(pubs[p := pub], counted) == PubTally(pubs, counted)
  {
    PubTallyUpdate(pubs, p, pub, counted);
    Cancel(PubTally(pubs[p := pub], counted), PubTally(pubs, counted), PubShare(pub, counted));
  }

  lemma PubTallyGains(pubs: seq<Publication>, p: nat, pub: Publication, counted: bool, gain: multiset<Id>)
    requires p < |pubs| && PubShare(pub, counted) == PubShare(pubs[p], counted) + gain
    ensures PubTally(pubs[p := pub], counted) == PubTally(pubs, counted) + gain
  {
    PubTallyUpdate(pubs, p, pub, counted);
    var share := PubShare(pubs[p], counted);
    assert PubTally(pubs, counted) + (share + gain) == PubTally(pubs, counted) + gain + share;
    Cancel(PubTally(pubs[p := pub], counted), PubTally(pubs, counted) + gain, share);
  }

  lemma PubTallyMoves(pubs: seq<Publication>, p: nat, pub: Publication)
    requires p < |pubs| && pubs[p].stage == Open && pub.stage == Counted && pub.ids == pubs[p].ids
    ensures PubTally(pubs[p := pub], true) == PubTally(pubs, true) + multiset(pub.ids)
    ensures PubTally(pubs[p := pub], true) + PubTally(pubs[p := pub], false)
         == PubTally(pubs, true) + PubTally(pubs, false)
  {
    PubTallyGains(pubs, p, pub, true, multiset(pub.ids));
    PubTallyUpdate(pubs, p, pub, false);
    assert PubTally(pubs[p := pub], false) + multiset(pub.ids) == PubTally(pubs, false);
    assert PubTally(pubs, true) + multiset(pub.ids) + PubTally(pubs[p := pub], false)
        == PubTally(pubs, true) + (PubTally(pubs[p := pub], false) + multiset(pub.ids));
  }

  lemma FreshPub(pings: seq<Ping>, log: Log)
    requires 1 <= |pings| <= MAX_HTTP_BATCH_SIZE
    ensures PubOk(Publication(Batched(pings, CHUNK_SIZE), {}, pings, Open), log)
  {
    BatchedSplits(pings, CHUNK_SIZE);
    FlattenBag(Batched(pings, CHUNK_SIZE));
    SpreadEmpty(log);
    var none: set<Id> := {};
    assert multiset(none) == multiset{};
  }

  lemma PubsKeptByAdmit(s: State, pings: seq<Ping>)
    requires PubsOk(s) && Enabled(s, Admit(pings))
    ensures PubsOk(Apply(s, Admit(pings)))
    ensures PubTally(Apply(s, Admit(pings)).pubs, true) == PubTally(s.pubs, true)
  {
    hide Spread, PubTally, Bag;
    var pub := Publication(Batched(pings, CHUNK_SIZE), {}, pings, Open);
    PubTallyAppend(s.pubs, pub, true);
    PubTallyAppend(s.pubs, pub, false);
    FreshPub(pings, s.log);
    assert PubShare(pub, false) == multiset{};
  }

  lemma XAddTallies(pubs: seq<Publication>, p: nat, n: nat)
    requires p < |pubs| && pubs[p].stage == Open && pubs[p].todo != []
    requires forall i <- pubs[p].ids :: i < n
    requires PubTally(pubs, true) + PubTally(pubs, false) == AllIds(n)
    ensures var pubs' := pubs[p := Advanced(pubs[p], n)];
            && PubTally(pubs', true) == PubTally(pubs, true)
            && PubTally(pubs', true) + PubTally(pubs', false) == AllIds(n + 1)
  {
    hide PubTally;
    var added: Id := n;
    AddedBag(pubs[p], added);
    PubTallySame(pubs, p, Advanced(pubs[p], added), true);
    PubTallyGains(pubs, p, Advanced(pubs[p], added), false, multiset{added});
    assert PubTally(pubs, true) + (PubTally(pubs, false) + multiset{added})
        == (PubTally(pubs, true) + PubTally(pubs, false)) + multiset{added};
  }

  lemma PubsKeptByXAdd(s: State, p: nat, low: Id)
    requires PubsOk(s) && Enabled(s, XAdd(p, low))
    ensures PubsOk(Apply(s, XAdd(p, low)))
    ensures PubTally(Apply(s, XAdd(p, low)).pubs, true) == PubTally(s.pubs, true)
  {
    hide Spread, PubTally, Bag, AllIds;
    var t, pub := Apply(s, XAdd(p, low)), s.pubs[p];
    assert PubOk(pub, s.log);
    assert t.pubs == s.pubs[p := Advanced(pub, |s.log|)];
    AddedEntry(pub, s.log);
    XAddTallies(s.pubs, p, |s.log|);
    forall q <- t.pubs ensures PubOk(q, t.log) {
      if q != Advanced(pub, |s.log|) { PubGrows(q, s.log, pub.todo[0]); }
    }
  }

  lemma PubsKeptByStage(s: State, p: nat, stage: PublishStage)
    requires PubsOk(s) && p < |s.pubs| && s.pubs[p].stage == Open && stage != Open
    requires stage == Counted ==> s.pubs[p].todo == []
    ensures PubsOk(s.(pubs := s.pubs[p := s.pubs[p].(stage := stage)]))
    ensures PubTally(s.pubs[p := s.pubs[p].(stage := stage)], true)
         == if stage == Counted then PubTally(s.pubs, true) + multiset(s.pubs[p].ids) else PubTally(s.pubs, true)
  {
    hide Spread, PubTally, Bag;
    var pub := s.pubs[p].(stage := stage);
    assert PubOk(s.pubs[p], s.log) && PubOk(pub, s.log);
    if stage == Counted {
      PubTallyMoves(s.pubs, p, pub);
    } else {
      PubTallySame(s.pubs, p, pub, true);
      PubTallySame(s.pubs, p, pub, false);
    }
  }

  lemma PubsKept(s: State, step: Step)
    requires PubsOk(s) && Enabled(s, step)
    ensures PubsOk(Apply(s, step))
  {
    match step
    case Admit(pings) => PubsKeptByAdmit(s, pings);
    case XAdd(p, low) => PubsKeptByXAdd(s, p, low);
    case IncrBy(p) => PubsKeptByStage(s, p, Counted);
    case Abandon(p) => PubsKeptByStage(s, p, PublishStage.Abandoned);
    case _ =>
  }

  lemma CounterKeptByXAdd(s: State, p: nat, low: Id)
    requires Shape(s) && BatchesOk(s) && PubsOk(s) && CounterOk(s) && Enabled(s, XAdd(p, low))
    ensures CounterOk(Apply(s, XAdd(p, low)))
  {
    var entry := s.pubs[p].todo[0];
    PubsKeptByXAdd(s, p, low);
    AllIdsExact(|s.log|);
    assert forall i <- PubTally(s.pubs, true) :: AllIds(|s.log|)[i] > 0;
    SpreadAppend(s.log, entry, PubTally(s.pubs, true));
    Bounded(s, Decremented);
    SpreadAppend(s.log, entry, Tally(s.batches, Decremented));
  }

  lemma CounterKeptByFlush(s: State, step: Step, k: nat)
    requires BatchesOk(s) && CounterOk(s) && Enabled(s, step)
    requires step == Commit(k) || step == XAck(k) || step == DecrBy(k)
    ensures CounterOk(Apply(s, step))
  {
    var b := Apply(s, step).batches[k];
    assert BatchOk(s.batches[k], s.cursor);
    FlushTallies(s.batches, k, b);
    SpreadAdd(s.log, Tally(s.batches, Decremented), multiset(b.ids));
  }

  lemma CounterKeptByRead(s: State, step: Step)
    requires CounterOk(s) && Enabled(s, step)
    requires step.ReadNew? || step.ReadOwn? || step.Claim?
    ensures CounterOk(Apply(s, step))
  {
    TallyAppendHeld(s.batches, Apply(s, step).batches[|s.batches|]);
  }

  lemma CounterKeptByIncrBy(s: State, p: nat)
    requires PubsOk(s) && CounterOk(s) && Enabled(s, IncrBy(p))
    ensures CounterOk(Apply(s, IncrBy(p)))
  {
    hide Batched, Spread, Weight, PubOk, PubTally, Tally;
    PublishedWeight(s.pubs[p], s.log);
    PubsKeptByStage(s, p, Counted);
    SpreadAdd(s.log, PubTally(s.pubs, true), multiset(s.pubs[p].ids));
  }

  lemma PublishedWeight(pub: Publication, log: Log)
    requires PubOk(pub, log) && pub.todo == []
    ensures Weight(log, multiset(pub.ids)) == pub.Total()
  {
    hide Spread, Batched;
    assert Spread(log, multiset(pub.ids)) == multiset(pub.pings);
  }

  lemma CounterKept(s: State, step: Step)
    requires Shape(s) && BatchesOk(s) && PubsOk(s) && CounterOk(s) && Enabled(s, step)
    ensures CounterOk(Apply(s, step))
  {
    hide Batched, Spread, PubTally, Tally;
    match step
    case Admit(pings) => PubsKeptByAdmit(s, pings);
    case XAdd(p, low) => CounterKeptByXAdd(s, p, low);
    case IncrBy(p) => CounterKeptByIncrBy(s, p);
    case Abandon(p) => PubsKeptByStage(s, p, PublishStage.Abandoned);
    case ReadNew(_) => CounterKeptByRead(s, step);
    case ReadOwn(_) => CounterKeptByRead(s, step);
    case Claim(_) => CounterKeptByRead(s, step);
    case Commit(k) => CounterKeptByFlush(s, step, k);
    case XAck(k) => CounterKeptByFlush(s, step, k);
    case DecrBy(k) => CounterKeptByFlush(s, step, k);
    case _ =>
  }

  lemma StepKeepsInv(s: State, step: Step)
    requires Inv(s) && Enabled(s, step)
    ensures Inv(Apply(s, step))
  {
    ShapeKept(s, step);
    BatchesKept(s, step);
    BooksKept(s, step);
    PubsKept(s, step);
    CounterKept(s, step);
  }

  lemma {:induction false} RunKeepsInv(s: State, steps: seq<Step>)
    requires Inv(s) && Legal(s, steps)
    ensures Inv(Final(s, steps))
    decreases |steps|
  {
    if steps != [] {
      StepKeepsInv(s, steps[0]);
      RunKeepsInv(Apply(s, steps[0]), steps[1..]);
    }
  }

  lemma InitInv()
    ensures Inv(Init())
  {
    SpreadEmpty([]);
  }

  /** The invariant holds in every reachable state. */
  lemma ReachableInv(s: State)
    requires Reachable(s)
    ensures Inv(s)
  {
    var steps :| Legal(Init(), steps) && Final(Init(), steps) == s;
    InitInv();
    RunKeepsInv(Init(), steps);
  }
}
