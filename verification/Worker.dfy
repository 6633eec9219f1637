/** The ingest worker: flush, claim, drain, position snapshots and pacing. */
module Worker {
  import opened Settings
  import opened Pings
  import opened Ledger
  import opened Chunks
  import opened Positions
  import opened Protocol
  import opened Invariant
  import opened Interference
  import opened Recovery
  import opened Replies
  import opened Drain
  import opened Stream
  import opened Pacing

  // ----- Flushing -----

  /** True, False, or a Redis error escaping from _flush. */
  datatype FlushResult = Flushed | NotFlushed | Raised
  datatype DrainResult = Drained | Aborted | TimedOut | DrainFailed

  function PingsOf(chunks: seq<StreamChunk>): seq<Ping> { Flatten(Payloads(chunks)) }

  /** What the entries in `ids` hold, in stream order. */
  function PingsIn(log: Log, ids: set<Id>): seq<Ping> { PingsOf(ChunksOf(log, ids)) }

  /** Every device with a ping in the entries is remembered with its last ping in the highest of them. */
  ghost predicate Remembers(positions: map<string, Ping>, log: Log, ids: set<Id>) {
    forall i, p :: NewestIn(log, ids, i, p) ==> p.device in positions && positions[p.device] == p
  }

  lemma FlushRemembers(before: map<string, Ping>, log: Log, ids: set<Id>)
    ensures Remembers(before + Latest(PingsIn(log, ids)), log, ids)
  {
    hide Latest, ChunksOf, Flatten, NewestIn, Payloads;
    forall i, p | NewestIn(log, ids, i, p)
      ensures p.device in Latest(PingsIn(log, ids)) && Latest(PingsIn(log, ids))[p.device] == p
    {
      NewestIsLatest(log, ids, p);
    }
  }

  lemma HeldPings(s: State, b: nat, reader: Consumer, chunks: seq<StreamChunk>)
    requires PubsOk(s) && Holds(s, b, reader, chunks)
    ensures PingsOf(chunks) != [] && b < |s.batches|
  {
    hide ChunksOf, Spread;
    var ids := s.batches[b].ids;
    var i :| i in ids;
    ChunksCover(s.log, ids);
    SpreadOne(s.log, i);
    SpreadMonotone(s.log, multiset{i}, multiset(ids));
    assert s.log[i] in s.log && s.log[i][0] in multiset(s.log[i]);
  }

  // ----- Claiming -----

  /** The lowest stale and trimmed pending entries, as many as a claim may take, have left the pending
      list, those still in the stream acknowledged. */
  ghost predicate Recovered(s: State, t: State) {
    && t.pel == s.pel - Taken(s) && t.acked == s.acked + Live(s, Taken(s))
    && t.log == s.log && t.low == s.low && t.cursor == s.cursor
  }

  lemma ClaimAndFlush(s: State, t: State, reader: Consumer)
    requires var m, ids := Apply(s, Claim(reader)), Live(s, Taken(s));
             if ids == {} then t == m else FlushedFrom(m, t, ids)
    ensures Recovered(s, t)
  {
    hide Apply, Taken;
    ClaimEffect(s, reader);
    var m, ids := Apply(s, Claim(reader)), Live(s, Taken(s));
    if ids == {} {
      assert m.pel - ids == m.pel;
    } else {
      assert ids * m.pel.Keys == ids;
    }
  }

  /** Taken over and flushed, or dropped: everything the claim took is out of the pending list for good. */
  lemma AllTakenGone(s: State, t: State, reader: Consumer)
    requires Shape(s) && Later(Apply(s, Claim(reader)), t, NOTHING)
    requires forall i <- Live(s, Taken(s)) :: Gone(t, i)
    ensures forall i <- Taken(s) :: Gone(t, i)
  {
    hide Apply, Taken, Gone, Later;
    DroppedAreGone(s, reader);
    GoneStays(Apply(s, Claim(reader)), t, Taken(s) - Live(s, Taken(s)));
  }

  lemma RecoveredStill(s: State, t: State, u: State)
    requires SameStream(t, u)
    ensures Recovered(s, t) ==> Recovered(s, u)
    ensures u.pel == t.pel && Undelivered(u) == Undelivered(t)
  {
    hide Taken;
  }

  lemma RecoveredUnread(s: State, t: State)
    requires Recovered(s, t)
    ensures Undelivered(t) == Undelivered(s)
  {
  }

  /** A reconciliation of a client that is alone. */
  lemma QuietReconcile(s: State, t: State, lagKnown: bool, reset: bool)
    requires var r := |s.resets|;
             if EntryBacklog(s, lagKnown) != 0 then t == s && !reset
             else
               && Enabled(s, SeeEmpty(lagKnown))
               && var a := Apply(s, SeeEmpty(lagKnown));
                  if Backlog(a) == 0 then t == a && !reset
                  else
                    && reset && Enabled(a, SeeBacklog(r))
                    && var b := Apply(a, SeeBacklog(r)); Enabled(b, SetZero(r)) && t == Apply(b, SetZero(r))
    ensures SameStream(s, t) && (s.pel == map[] && Undelivered(s) == 0 ==> t.counter <= 0)
  {
    hide First, Spread, Weight, Batched;
  }

  /** A flush does not read. */
  lemma FlushReadsNothing(s: State, t: State, ids: set<Id>)
    requires FlushedFrom(s, t, ids)
    ensures Undelivered(t) == Undelivered(s)
  {
  }

  // ----- Pacing -----

  /** The clock and the two ticker periods of one step. */
  datatype Turn = Turn(now: real, claimPeriod: real, positionPeriod: real)

  /** What one step did: the states its claim, if due, and its read took place in, the pings it flushed, and
      those its snapshot, if any, covered. */
  datatype Did = Did(claimDue: bool, claimedAt: State, readAt: State, flushed: seq<Ping>, covered: seq<Ping>)

  /** The claim comes before the read, both within the step from s to t. */
  ghost predicate Spans(s: State, did: Did, t: State) {
    && Later(s, did.claimedAt, NOTHING) && Later(did.claimedAt, did.readAt, NOTHING)
    && Later(did.readAt, t, NOTHING)
  }

  /** All that the step claimed and read is out of the pending list for good, and was flushed. */
  ghost predicate Done(did: Did, me: Consumer, t: State) {
    && (did.claimDue ==> forall i <- Taken(did.claimedAt) :: Gone(t, i))
    && (forall i <- ReadIds(did.readAt, me, false) :: Gone(t, i))
    && did.flushed == Claimed(did) + PingsIn(did.readAt.log, ReadIds(did.readAt, me, false))
  }

  function Claimed(did: Did): seq<Ping> {
    if did.claimDue then PingsIn(did.claimedAt.log, Live(did.claimedAt, Taken(did.claimedAt))) else []
  }

  /** A step whose claim, if due, and read were flushed: `kept` was unsent before it, `mid` in between, `after`
      at the end. */
  lemma DoneBy(did: Did, me: Consumer, m: State, t: State, kept: seq<Ping>, mid: seq<Ping>, after: seq<Ping>)
    requires Later(m, did.readAt, NOTHING) && Later(did.readAt, t, NOTHING) && kept + did.flushed == after
    requires did.claimDue ==> forall i <- Taken(did.claimedAt) :: Gone(m, i)
    requires mid == kept + Claimed(did) && after == mid + PingsIn(did.readAt.log, ReadIds(did.readAt, me, false))
    requires forall i <- ReadIds(did.readAt, me, false) :: Gone(t, i)
    ensures Done(did, me, t)
  {
    hide Gone, Later, Taken, ReadIds, ChunksOf, PingsIn, Claimed;
    LaterTransitive(m, did.readAt, t, NOTHING);
    if did.claimDue { GoneStays(m, t, Taken(did.claimedAt)); }
    var read := PingsIn(did.readAt.log, ReadIds(did.readAt, me, false));
    assert kept + did.flushed == kept + (Claimed(did) + read);
    assert did.flushed == (kept + did.flushed)[|kept|..];
    assert Claimed(did) + read == (kept + (Claimed(did) + read))[|kept|..];
  }

  /** What a read in state a gives the consumer is unread no more. */
  ghost predicate HaveBeenRead(a: State, me: Consumer, t: State) {
    forall i <- ReadIds(a, me, false) :: i < NextRead(t)
  }

  lemma ReadIsOver(a: State, me: Consumer, t: State)
    requires Shape(a) && Later(ReadState(a, me, false), t, NOTHING)
    ensures HaveBeenRead(a, me, t)
  {
    hide ReadState, Shape;
    NewEffect(a, me);
    NewIds(a, me);
  }

  lemma CoveredIsOpen(s: State, did: Did, me: Consumer, t: State, covered: seq<Ping>)
    ensures Done(did, me, t) <==> Done(did.(covered := covered), me, t)
    ensures Spans(s, did, t) <==> Spans(s, did.(covered := covered), t)
  {
    hide Later, Gone, Taken, ReadIds, PingsIn;
  }

  lemma SpansOn(r: State, s: State, did: Did, t: State, u: State)
    requires Later(r, s, NOTHING) && Spans(s, did, t) && Later(t, u, NOTHING)
    ensures Spans(r, did, u)
  {
    hide Later;
    LaterTransitive(r, s, did.claimedAt, NOTHING);
    LaterTransitive(did.readAt, t, u, NOTHING);
  }

  lemma SpansForward(s: State, did: Did, t: State)
    requires Spans(s, did, t)
    ensures Later(s, t, NOTHING)
  {
    hide Later;
    LaterTransitive(s, did.claimedAt, did.readAt, NOTHING);
    LaterTransitive(s, did.readAt, t, NOTHING);
  }

  lemma DoneStill(did: Did, me: Consumer, t: State, u: State)
    requires Done(did, me, t) && Later(t, u, NOTHING)
    ensures Done(did, me, u)
  {
    hide Gone, Later, Taken, ReadIds, ChunksOf;
    if did.claimDue { GoneStays(t, u, Taken(did.claimedAt)); }
    GoneStays(t, u, ReadIds(did.readAt, me, false));
  }

  /** The pings flushed in a row of steps, and those covered by their snapshots. */
  function Flushes(dids: seq<Did>): seq<Ping> {
    if dids == [] then [] else Flushes(dids[..|dids| - 1]) + dids[|dids| - 1].flushed
  }

  function Snapshots(dids: seq<Did>): seq<Ping> {
    if dids == [] then [] else Snapshots(dids[..|dids| - 1]) + dids[|dids| - 1].covered
  }

  /** The polls of the claim ticker. */
  function Polls(turns: seq<Turn>): seq<Poll> {
    seq(|turns|, k requires 0 <= k < |turns| => Poll(turns[k].now, turns[k].claimPeriod))
  }

  /** What the steps of a run from s to t have done. */
  ghost predicate AllDid(s: State, t: State, dids: seq<Did>, outcomes: seq<bool>, me: Consumer) {
    && |dids| == |outcomes|
    && forall k :: 0 <= k < |dids| ==> Spans(s, dids[k], t) && (outcomes[k] ==> Done(dids[k], me, t))
  }

  /** Each of them claimed exactly when the ticker, polled once a step after n earlier polls, was due. */
  ghost predicate ClaimsOnTime(firstAt: real, polls: seq<Poll>, n: nat, turns: seq<Turn>, dids: seq<Did>) {
    && |dids| <= |turns| && n + |dids| <= |polls|
    && forall k :: 0 <= k < |dids| ==> (dids[k].claimDue <==> turns[k].now >= Armed(firstAt, polls[..n + k]))
  }

  lemma NothingDid(s: State, me: Consumer, unsent: seq<Ping>, firstAt: real, polls: seq<Poll>, turns: seq<Turn>)
    ensures Later(s, s, NOTHING) && AllDid(s, s, [], [], me) && ClaimsOnTime(firstAt, polls, |polls|, turns, [])
    ensures unsent + Flushes([]) == Snapshots([]) + unsent
  {
    assert unsent + [] == [] + unsent;
  }

  lemma AllDidStill(s: State, t: State, u: State, dids: seq<Did>, outcomes: seq<bool>, me: Consumer)
    requires AllDid(s, t, dids, outcomes, me) && Later(s, s, NOTHING) && Later(t, u, NOTHING)
    ensures AllDid(s, u, dids, outcomes, me)
  {
    hide Spans, Done, Later;
    forall k | 0 <= k < |dids| ensures Spans(s, dids[k], u) && (outcomes[k] ==> Done(dids[k], me, u)) {
      SpansOn(s, s, dids[k], t, u);
      if outcomes[k] { DoneStill(dids[k], me, t, u); }
    }
  }

  lemma StepAdds(s: State, t: State, u: State, dids: seq<Did>, did: Did, outcomes: seq<bool>, succeeded: bool,
                 me: Consumer)
    requires Later(s, t, NOTHING) && AllDid(s, t, dids, outcomes, me)
    requires Spans(t, did, u) && (succeeded ==> Done(did, me, u))
    ensures Later(s, u, NOTHING) && AllDid(s, u, dids + [did], outcomes + [succeeded], me)
  {
    hide Spans, Done, Later;
    LaterReflexive(s, NOTHING);
    LaterReflexive(u, NOTHING);
    SpansForward(t, did, u);
    LaterTransitive(s, t, u, NOTHING);
    AllDidStill(s, t, u, dids, outcomes, me);
    SpansOn(s, t, did, u, u);
  }

  lemma PolledOneMore(firstAt: real, polls: seq<Poll>, n: nat, turns: seq<Turn>, dids: seq<Did>, did: Did, poll: Poll)
    requires ClaimsOnTime(firstAt, polls, n, turns, dids) && n + |dids| == |polls| && |dids| < |turns|
    requires did.claimDue <==> turns[|dids|].now >= Armed(firstAt, polls)
    ensures ClaimsOnTime(firstAt, polls + [poll], n, turns, dids + [did])
  {
    hide Armed;
    assert (polls + [poll])[..|polls|] == polls;
    var all, longer := polls + [poll], dids + [did];
    forall k | 0 <= k < |longer| ensures longer[k].claimDue <==> turns[k].now >= Armed(firstAt, all[..n + k]) {
      if k < |dids| { assert all[..n + k] == polls[..n + k]; }
    }
  }

  /** The books of the snapshots: `start` was unsent before the steps, `before` and `after` are around the last one. */
  lemma DidOneMore(dids: seq<Did>, did: Did, start: seq<Ping>, before: seq<Ping>, after: seq<Ping>)
    requires start + Flushes(dids) == Snapshots(dids) + before && before + did.flushed == did.covered + after
    ensures start + Flushes(dids + [did]) == Snapshots(dids + [did]) + after
  {
    assert (dids + [did])[..|dids|] == dids;
    var flushes, snapshots := Flushes(dids), Snapshots(dids);
    assert start + (flushes + did.flushed) == (start + flushes) + did.flushed;
    assert (snapshots + before) + did.flushed == snapshots + (before + did.flushed);
    assert snapshots + (did.covered + after) == (snapshots + did.covered) + after;
  }

  /** How many steps have failed since the last success, after `before` earlier failures. */
  function Failures(before: nat, outcomes: seq<bool>): nat {
    if outcomes == [] then before
    else if outcomes[|outcomes| - 1] then 0
    else 1 + Failures(before, outcomes[..|outcomes| - 1])
  }

  /** The delay of every step, 0 after a success. */
  function Delays(start: real, limit: real, before: nat, outcomes: seq<bool>): seq<real> {
    if outcomes == [] then []
    else
      Delays(start, limit, before, outcomes[..|outcomes| - 1]) + [NthDelay(start, limit, Failures(before, outcomes))]
  }

  lemma ZeroDelay(start: real, limit: real)
    ensures NthDelay(start, limit, 0) == 0.0
  {
  }

  lemma NoDelays(start: real, limit: real, before: nat)
    ensures Delays(start, limit, before, []) == [] && Failures(before, []) == before
  {
  }

  lemma DelaysStep(start: real, limit: real, before: nat, outcomes: seq<bool>, succeeded: bool)
    ensures var longer := outcomes + [succeeded];
            && Failures(before, longer) == (if succeeded then 0 else Failures(before, outcomes) + 1)
            && Delays(start, limit, before, longer)
               == Delays(start, limit, before, outcomes) + [NthDelay(start, limit, Failures(before, longer))]
  {
    assert (outcomes + [succeeded])[..|outcomes|] == outcomes;
  }

  /** A success costs no delay, and the n-th failure in a row the n-th delay of the backoff. Failures from
      before the steps count if there has been no success since. */
  lemma {:induction false} DelayAfterFailures(start: real, limit: real, before: nat, outcomes: seq<bool>,
                                              k: nat, n: nat)
    requires n <= k + 1 <= |outcomes| && forall i :: k - n < i <= k ==> !outcomes[i]
    requires n <= k ==> outcomes[k - n]
    ensures Failures(before, outcomes[..k + 1]) == n + if n <= k then 0 else before
    ensures |Delays(start, limit, before, outcomes)| == |outcomes|
    ensures Delays(start, limit, before, outcomes)[k] == NthDelay(start, limit, n + if n <= k then 0 else before)
    decreases |outcomes|, n
  {
    hide NthDelay;
    var last := |outcomes| - 1;
    if k < last {
      DelayAfterFailures(start, limit, before, outcomes[..last], k, n);
      assert outcomes[..last][..k + 1] == outcomes[..k + 1];
    } else {
      assert outcomes[..k + 1] == outcomes;
      DelaysSize(start, limit, before, outcomes);
      if n > 0 && k > 0 {
        DelayAfterFailures(start, limit, before, outcomes[..last], k - 1, n - 1);
        assert outcomes[..last][..k] == outcomes[..last];
      }
    }
  }

  lemma {:induction false} DelaysSize(start: real, limit: real, before: nat, outcomes: seq<bool>)
    ensures |Delays(start, limit, before, outcomes)| == |outcomes|
  {
    hide NthDelay;
    if outcomes != [] { DelaysSize(start, limit, before, outcomes[..|outcomes| - 1]); }
  }

  class IngestWorker {
    const consumer: Consumer
    var heartbeat: real
    var positions: map<string, Ping>
    const backoff: Backoff
    const claimTicker: Ticker
    const positionTicker: Ticker
    /** Pings flushed since the last snapshot. */
    ghost var unsent: seq<Ping>

    ghost predicate Valid() reads this, backoff, claimTicker, positionTicker {
      && backoff.Valid() && claimTicker.Valid() && positionTicker.Valid()
      && claimTicker != positionTicker
      && positions == Latest(unsent)
    }

    constructor (id: Consumer, backoff: Backoff, claimTicker: Ticker, positionTicker: Ticker, now: real)
      requires backoff.Valid() && claimTicker.Valid() && positionTicker.Valid()
      requires claimTicker != positionTicker
      ensures Valid() && unsent == [] && consumer == id && heartbeat == now
      ensures this.backoff == backoff && this.claimTicker == claimTicker && this.positionTicker == positionTicker
    {
      consumer := id;
      heartbeat := now;
      positions := map[];
      this.backoff, this.claimTicker, this.positionTicker := backoff, claimTicker, positionTicker;
      unsent := [];
    }

    /** Commit first, then remember the positions, then acknowledge. Alerting, between the last
        two, swallows its errors and does not touch the stream. */
    method Flush(svc: Services, chunks: seq<StreamChunk>, b: nat) returns (r: FlushResult)
      requires svc.Valid() && Holds(svc.state, b, consumer, chunks) && chunks != []
      requires positions == Latest(unsent)
      modifies `positions, `unsent, svc
      ensures svc.Onwards() && svc.OnlyDrains(consumer) && positions == Latest(unsent)
      ensures Later(old(svc.state), svc.state, NOTHING)
      ensures r.Flushed? <==> svc.faults == old(svc.faults)
      ensures !r.NotFlushed? ==> Remembers(positions, old(svc.state).log, old(svc.state).batches[b].ids)
      ensures svc.calm ==> PeerLater(old(svc.state), svc.state, svc.watched, svc.twins)
      ensures PingsOf(chunks) == [] ==> r.Flushed? && svc.state == old(svc.state) && unsent == old(unsent)
      ensures r.NotFlushed? ==>
                && unsent == old(unsent)
                && b < |svc.state.batches| && svc.state.batches[b].removed == {}
                && svc.state.batches[b].stage in {Held, Committed}
      ensures !r.NotFlushed? ==>
                && unsent == old(unsent) + PingsOf(chunks)
                && (PingsOf(chunks) != [] ==> multiset(PingsOf(chunks)) <= svc.state.rows)
      ensures r.Flushed? && PingsOf(chunks) != [] ==>
                forall i <- old(svc.state).batches[b].ids :: Gone(svc.state, i)
      ensures svc.alone && r.Flushed? && PingsOf(chunks) != [] ==>
                FlushedFrom(old(svc.state), svc.state, old(svc.state).batches[b].ids)
    {
      hide Inv, Spread, Weight, Batched, First, ChunksOf, Latest, FlushedFrom, PeerLater, Remembers;
      var pings := PingsOf(chunks);
      ghost var first := svc.state;
      FlushRemembers(positions, first.log, first.batches[b].ids);
      if pings == [] {
        assert unsent + pings == unsent;
        LatestConcat(unsent, pings);
        LaterReflexive(first, NOTHING);
        PeerLaterReflexive(first, svc.watched, svc.twins);
        return Flushed;
      }
      var committed := svc.CommitChunks(b, consumer, chunks);
      FlushFacts(first, b);
      if !committed { return NotFlushed; }

      ghost var second := svc.state;
      LatestConcat(unsent, pings);
      positions := positions + Latest(pings);
      unsent := unsent + pings;

      var acked := svc.Ack(b, consumer);
      LaterTransitive(first, second, svc.state, NOTHING);
      if svc.calm { PeerLaterTransitive(first, second, svc.state, svc.watched, svc.twins); }
      r := if acked then Flushed else Raised;
    }

    /** One turn of a drain loop: a read in state `at`, and a flush of what it delivered, `got`. None
        means that the loop goes on, or ends when there was nothing to flush. */
    method DrainTurn(svc: Services, pending: bool)
      returns (r: Option<DrainResult>, more: bool, ghost at: State, ghost got: set<Id>)
      requires svc.Valid() && positions == Latest(unsent)
      modifies `positions, `unsent, svc
      ensures svc.Onwards() && svc.OnlyDrains(consumer) && positions == Latest(unsent) && old(unsent) <= unsent
      ensures r.None? <==> svc.faults == old(svc.faults)
      ensures r == None || r == Some(DrainFailed) || r == Some(Aborted)
      ensures svc.Moved(old(svc.state), at, NOTHING) && Later(at, svc.state, NOTHING)
      ensures r.None? ==>
                && got == ReadIds(at, consumer, pending) && (more <==> got != {})
                && forall i <- got :: Gone(svc.state, i)
      ensures svc.calm && svc.watched == consumer ==>
                && Kept(old(svc.state), svc.state, consumer, got)
                && (r.None? ==> Achieved(old(svc.state), svc.state, consumer, pending, got, svc.twins))
      ensures svc.alone && r.None? && (pending ==> Hidden(old(svc.state), consumer)) ==>
                LiveOwn(svc.state, consumer) == LiveOwn(old(svc.state), consumer)
    {
      hide Inv, Shape, ChunksOf, Latest, Enabled, Apply, Holds, Legal, Final, Later, PeerLater, Gone;
      hide ReadState, ReadIds, HasRead, Kept, LiveOwn, TrimmedOwn, FlushedFrom, Undelivered, Achieved;
      ghost var first := svc.state;
      more, got := false, {};
      var ok, chunks, b;
      ok, chunks, b, at := svc.ReadNew(consumer, pending);
      ghost var m := svc.state;
      ReadEffect(at, consumer, pending);
      ReadStateIsLater(at, consumer, pending);
      NewOnesWereNotOwned(at, consumer);
      LaterReflexive(at, NOTHING);
      if !ok {
        got := if m == at then {} else ReadIds(at, consumer, pending);
        if svc.calm && svc.watched == consumer { UnheardTurn(first, at, m, consumer, pending, got, svc.twins); }
        return Some(DrainFailed), more, at, got;
      }
      got := ReadIds(at, consumer, pending);
      if chunks != [] {
        svc.Sound();
        HeldPings(m, b, consumer, chunks);
        var flushed := Flush(svc, chunks, b);
        LaterTransitive(at, m, svc.state, NOTHING);
        if !flushed.Flushed? {
          if svc.calm && svc.watched == consumer { TurnFailed(first, at, m, svc.state, consumer, got, svc.twins); }
          return Some(if flushed.Raised? then DrainFailed else Aborted), more, at, got;
        }
        more := true;
      }
      if svc.calm && svc.watched == consumer { GoodTurn(first, at, m, svc.state, consumer, pending, got, svc.twins); }
      if svc.alone {
        QuietTurn(at, m, svc.state, consumer, got);
        assert LiveOwn(at, consumer) - {} == LiveOwn(at, consumer);
      }
      r := None;
    }

    /** One phase of _drain: read and flush until a reply, in state `at`, holds nothing to flush. At
        most `rounds` reads fit the drain timeout. Result None means: on to the next phase. */
    method DrainPhase(svc: Services, pending: bool, rounds: nat)
      returns (r: Option<DrainResult>, left: nat, ghost at: State, ghost got: set<Id>)
      requires svc.Valid() && positions == Latest(unsent)
      modifies `positions, `unsent, svc
      ensures svc.Onwards() && svc.OnlyDrains(consumer) && positions == Latest(unsent) && left <= rounds
      ensures old(unsent) <= unsent && Later(old(svc.state), svc.state, NOTHING)
      ensures r != Some(Drained) && (r == None || r == Some(TimedOut) <==> svc.faults == old(svc.faults))
      ensures r.None? ==> ReadIds(at, consumer, pending) == {} && Later(at, svc.state, NOTHING)
      ensures svc.calm && svc.watched == consumer ==>
                && Kept(old(svc.state), svc.state, consumer, got)
                && (r.None? || r == Some(TimedOut) ==>
                      && PeerLater(old(svc.state), svc.state, consumer, svc.twins) && got <= svc.state.acked
                      && (pending ==> Undelivered(svc.state) <= Undelivered(old(svc.state))))
                && (r == Some(TimedOut) ==> rounds <= Work(old(svc.state), consumer, pending, svc.twins))
                && (r.None? ==>
                      rounds + Work(svc.state, consumer, pending, svc.twins)
                        <= left + 1 + Work(old(svc.state), consumer, pending, svc.twins))
                && (r.None? && pending ==>
                      LiveOwn(svc.state, consumer) == {} || |TrimmedOwn(old(svc.state), consumer)| >= READ_COUNT)
                && (r.None? && !pending ==> Undelivered(svc.state) == 0)
      ensures svc.alone && r.None? && (pending ==> Hidden(old(svc.state), consumer)) ==>
                LiveOwn(svc.state, consumer) == LiveOwn(old(svc.state), consumer)
    {
      hide Latest, Kept, PeerLater, Later, LiveOwn, TrimmedOwn, Work, Undelivered, Legal, Final, ReadIds, Gone;
      ghost var first := svc.state;
      PeerLaterReflexive(first, consumer, svc.twins);
      NothingKept(first, first, consumer, svc.twins);
      left, got, at := rounds, {}, first;
      LaterReflexive(first, NOTHING);
      var more := true;
      while more
        invariant svc.Onwards() && svc.OnlyDrains(consumer) && positions == Latest(unsent) && left <= rounds
        invariant old(unsent) <= unsent && Later(first, svc.state, NOTHING) && svc.faults == old(svc.faults)
        invariant !more ==> ReadIds(at, consumer, pending) == {} && Later(at, svc.state, NOTHING)
        invariant svc.calm && svc.watched == consumer ==>
                    && Kept(first, svc.state, consumer, got)
                    && PeerLater(first, svc.state, consumer, svc.twins) && got <= svc.state.acked
                    && (pending ==> Undelivered(svc.state) <= Undelivered(first))
                    && rounds + Work(svc.state, consumer, pending, svc.twins)
                         <= left + Work(first, consumer, pending, svc.twins) + (if more then 0 else 1)
                    && (!more && pending ==>
                          LiveOwn(svc.state, consumer) == {} || |TrimmedOwn(first, consumer)| >= READ_COUNT)
                    && (!more && !pending ==> Undelivered(svc.state) == 0)
        invariant svc.alone && (pending ==> Hidden(first, consumer)) ==>
                    LiveOwn(svc.state, consumer) == LiveOwn(first, consumer) && (pending && more ==> svc.state == first)
        decreases left, more
      {
        if left == 0 { return Some(TimedOut), 0, at, got; }
        left := left - 1;
        ghost var before, sofar, gained := svc.state, got, {};
        r, more, at, gained := DrainTurn(svc, pending);
        LaterTransitive(before, at, svc.state, NOTHING);
        LaterTransitive(first, before, svc.state, NOTHING);
        got := sofar + gained;
        if svc.calm && svc.watched == consumer {
          KeptOn(first, before, svc.state, consumer, sofar, gained, svc.twins);
          OwnShrinks(first, before, consumer, svc.twins);
        }
        if r.Some? { return; }
        if svc.calm && svc.watched == consumer { PeerLaterTransitive(first, before, svc.state, consumer, svc.twins); }
      }
      r := None;
    }

    /** _drain: the consumer's own pending entries first, then new ones. The results are for drains during
        which the others are peers, or with `twins` twins: they may drain, too, under other names, or any. */
    method Drain(svc: Services, rounds: nat, ghost twins: bool) returns (r: DrainResult, ghost got: set<Id>)
      requires svc.Valid() && Valid()
      modifies `positions, `unsent, svc
      ensures svc.Valid() && old(svc.trace) <= svc.trace && Valid()
      ensures old(unsent) <= unsent && Later(old(svc.state), svc.state, NOTHING) && old(svc.faults) <= svc.faults
      ensures r.Drained? || r.TimedOut? <==> svc.faults == old(svc.faults)
      ensures svc.OnlyDrains(consumer) && svc.watched == consumer && svc.twins == twins && (svc.alone ==> svc.calm)
      ensures svc.calm ==> Kept(old(svc.state), svc.state, consumer, got)
      ensures svc.calm && r.Drained? ==> DrainedFrom(old(svc.state), svc.state, consumer, got, twins)
      ensures svc.calm && r.TimedOut? ==>
                rounds < |LiveOwn(old(svc.state), consumer)| + Undelivered(old(svc.state)) + 2
      // with peers, no faults and enough time it succeeds
      ensures svc.calm && svc.faults == old(svc.faults) ==>
                r.Drained? || rounds < |LiveOwn(old(svc.state), consumer)| + Undelivered(old(svc.state)) + 2
      ensures svc.alone && r.Drained? && Hidden(old(svc.state), consumer) ==>
                LiveOwn(svc.state, consumer) == LiveOwn(old(svc.state), consumer)
    {
      hide Inv, Latest, Kept, PeerLater, Later, LiveOwn, TrimmedOwn, Undelivered, Legal, Final, ReadIds, DrainedFrom;
      ghost var first := svc.state;
      svc.Watch(consumer, twins);
      ghost var at, gained;
      var phase, left;
      phase, left, at, got := DrainPhase(svc, true, rounds);
      ghost var second := svc.state;
      if phase.None? {
        phase, left, at, gained := DrainPhase(svc, false, left);
        LaterTransitive(first, second, svc.state, NOTHING);
        if svc.calm {
          KeptOn(first, second, svc.state, consumer, got, gained, svc.twins);
          if phase.None? { DrainEnds(first, second, svc.state, consumer, got + gained, svc.twins); }
        }
        got := got + gained;
      }
      r := if phase.Some? then phase.value else Drained;
    }

    /** _claim_stale: success puts all that the claim took, in state `at`, out of the pending list for good. */
    method ClaimStale(svc: Services) returns (r: FlushResult, ghost at: State)
      requires svc.Valid() && Valid()
      modifies `positions, `unsent, svc
      ensures svc.Onwards() && Valid() && (r.Flushed? <==> svc.faults == old(svc.faults))
      ensures svc.Moved(old(svc.state), at, NOTHING) && Later(at, svc.state, NOTHING)
      ensures r.Flushed? ==> forall i <- Taken(at) :: Gone(svc.state, i)
      ensures unsent == old(unsent) + PingsIn(at.log, Live(at, Taken(at))) || (!r.Flushed? && unsent == old(unsent))
      ensures svc.alone && r.Flushed? ==> Recovered(old(svc.state), svc.state)
    {
      hide Recovered, FlushedFrom, Latest, Later, PeerLater, Legal, Final, Gone;
      hide Inv, Shape, ChunksOf, Enabled, Apply, Holds, Taken;
      var ok, chunks, b;
      ok, chunks, b, at := svc.ClaimStale(consumer);
      ghost var m := svc.state;
      if !ok { return Raised, at; }
      r := Flushed;
      LaterReflexive(m, NOTHING);
      if chunks != [] {
        svc.Sound();
        HeldPings(m, b, consumer, chunks);
        r := Flush(svc, chunks, b);
        LaterTransitive(at, m, svc.state, NOTHING);
      } else {
        assert PingsOf(chunks) == [] by { NoPayloads(); }
        assert unsent + [] == unsent;
      }
      if r.Flushed? {
        AllTakenGone(at, svc.state, consumer);
        if svc.alone { ClaimAndFlush(at, svc.state, consumer); }
      }
    }

    /** _broadcast_positions. `sent` is the snapshot handed to publish_positions, which is given up
        even if publishing fails. */
    method BroadcastPositions(now: real, period: real) returns (sent: map<string, Ping>, ghost covered: seq<Ping>)
      requires Valid() && period >= positionTicker.interval
      modifies `positions, `unsent, positionTicker
      ensures Valid()
      ensures sent == Latest(covered) && old(unsent) == covered + unsent
      // a snapshot is sent exactly when there is something to send and the ticker, asked only then, is due
      ensures covered == if now >= old(positionTicker.nextAt) then old(unsent) else []
      ensures positionTicker.polls == old(positionTicker.polls) + if old(unsent) == [] then [] else [Poll(now, period)]
      ensures covered != [] ==>
                now - positionTicker.createdAt
                  >= Span(Firings(positionTicker.firstAt, positionTicker.polls), positionTicker.interval)
    {
      sent, covered := map[], [];
      NothingKnown(unsent);
      EmptyLatest();
      assert positionTicker.polls + [] == positionTicker.polls;
      if positions == map[] { return; }
      var due := positionTicker.Due(now, period);
      if !due { return; }
      sent, positions := positions, map[];
      covered, unsent := unsent, [];
    }

    /** The claim and reconcile part of _process_once, which does nothing until its ticker is due. */
    method Maintain(svc: Services, now: real, period: real) returns (r: FlushResult, ghost at: State)
      requires svc.Valid() && Valid() && period >= claimTicker.interval
      modifies `positions, `unsent, svc, claimTicker
      ensures svc.Onwards() && Valid() && (r.Flushed? <==> svc.faults == old(svc.faults))
      ensures claimTicker.polls == old(claimTicker.polls) + [Poll(now, period)]
      ensures svc.Moved(old(svc.state), at, NOTHING) && Later(at, svc.state, NOTHING)
      ensures now < old(claimTicker.nextAt) ==>
                r.Flushed? && at == svc.state == old(svc.state) && unsent == old(unsent)
      ensures now >= old(claimTicker.nextAt) ==>
                && (r.Flushed? ==> forall i <- Taken(at) :: Gone(svc.state, i))
                && (unsent == old(unsent) + PingsIn(at.log, Live(at, Taken(at)))
                    || (!r.Flushed? && unsent == old(unsent)))
      // undisturbed: stale entries recovered, and no backlog counted when there is none
      ensures svc.alone && r.Flushed? && now >= old(claimTicker.nextAt) ==>
                && Recovered(old(svc.state), svc.state)
                && (svc.state.pel == map[] && Undelivered(svc.state) == 0 ==> svc.state.counter <= 0)
    {
      hide Recovered, Latest, Inv, Later, PeerLater, Legal, Final, Gone, Taken, Apply, Enabled;
      r, at := Flushed, svc.state;
      LaterReflexive(at, NOTHING);
      PeerLaterReflexive(at, svc.watched, svc.twins);
      var due := claimTicker.Due(now, period);
      if due {
        r, at := ClaimStale(svc);
        if r.Raised? { return; }
        ghost var recovered := svc.state;
        var ok, reset, lagKnown;
        ghost var checked, looked, resetting;
        ok, reset, lagKnown, checked, looked, resetting := svc.ReconcileBacklog();
        LaterTransitive(at, recovered, svc.state, NOTHING);
        if r.Flushed? { GoneStays(recovered, svc.state, Taken(at)); }
        if !ok { return Raised, at; }
        if svc.alone {
          QuietReconcile(recovered, svc.state, lagKnown, reset);
          RecoveredStill(old(svc.state), recovered, svc.state);
        }
      }
    }

    /** The read, in state `at`, and flush of _process_once. */
    method ReadAndFlush(svc: Services) returns (r: FlushResult, ghost at: State)
      requires svc.Valid() && Valid()
      modifies `positions, `unsent, svc
      ensures svc.Onwards() && Valid() && (r.Flushed? <==> svc.faults == old(svc.faults))
      ensures svc.Moved(old(svc.state), at, NOTHING) && Later(at, svc.state, NOTHING)
      ensures r.Flushed? ==> forall i <- ReadIds(at, consumer, false) :: Gone(svc.state, i)
      ensures !r.Raised? ==> HaveBeenRead(at, consumer, svc.state)
      ensures unsent == old(unsent) + PingsIn(at.log, ReadIds(at, consumer, false))
              || (!r.Flushed? && unsent == old(unsent))
      ensures svc.alone && r.Flushed? ==>
                && Undelivered(svc.state) <= Undelivered(old(svc.state))
                && (Undelivered(svc.state) < Undelivered(old(svc.state)) || Undelivered(svc.state) == 0)
    {
      hide Latest, ChunksOf, Holds, Enabled, Apply, Inv, Shape, FlushedFrom, ReadState, ReadIds;
      hide Later, PeerLater, Legal, Final, Gone, Undelivered, HaveBeenRead;
      var ok, chunks, b;
      ok, chunks, b, at := svc.ReadNew(consumer, false);
      ghost var m := svc.state;
      if !ok { return Raised, at; }
      r := Flushed;
      if chunks != [] {
        svc.Sound();
        HeldPings(m, b, consumer, chunks);
        r := Flush(svc, chunks, b);
        LaterTransitive(at, m, svc.state, NOTHING);
      } else {
        assert PingsOf(chunks) == [] by { NoPayloads(); }
        assert unsent + [] == unsent;
        LaterReflexive(m, NOTHING);
      }
      ReadIsOver(at, consumer, svc.state);
      if svc.alone && r.Flushed? {
        ReadShrinks(at, consumer);
        NewIds(at, consumer);
        if chunks != [] { FlushReadsNothing(m, svc.state, ReadIds(at, consumer, false)); }
      }
    }

    /** _process_once up to the snapshot. */
    method ClaimAndRead(svc: Services, now: real, claimPeriod: real) returns (r: FlushResult, ghost did: Did)
      requires svc.Valid() && Valid() && claimPeriod >= claimTicker.interval
      modifies `positions, `unsent, svc, claimTicker
      ensures svc.Onwards() && Valid() && (r.Flushed? <==> svc.faults == old(svc.faults))
      ensures claimTicker.polls == old(claimTicker.polls) + [Poll(now, claimPeriod)]
      ensures did.claimDue <==> now >= old(claimTicker.nextAt)
      ensures Spans(old(svc.state), did, svc.state)
      ensures r.Flushed? ==> Done(did, consumer, svc.state)
      ensures !r.Raised? ==> HaveBeenRead(did.readAt, consumer, svc.state)
      ensures unsent == old(unsent) + did.flushed && did.covered == []
      ensures svc.alone ==> did.claimedAt == old(svc.state)
      ensures svc.alone && r.Flushed? ==>
                && (if did.claimDue then Recovered(old(svc.state), did.readAt) else did.readAt == old(svc.state))
                && (Undelivered(svc.state) < Undelivered(old(svc.state)) || Undelivered(svc.state) == 0)
    {
      hide Latest, Firings, Armed, Recovered, Inv, Later, PeerLater, Legal, Final, Gone, Taken;
      hide ReadIds, Undelivered, ChunksOf, PingsIn, Live, Done, HaveBeenRead;
      ghost var first, kept, due := svc.state, unsent, now >= claimTicker.nextAt;
      var claimed, flushed;
      ghost var claimedAt, readAt;
      claimed, claimedAt := Maintain(svc, now, claimPeriod);
      ghost var second, mid := svc.state, unsent;
      assert unsent == kept + unsent[|kept|..];
      LaterReflexive(second, NOTHING);
      did := Did(due, claimedAt, second, unsent[|kept|..], []);
      if claimed.Raised? { return Raised, did; }
      flushed, readAt := ReadAndFlush(svc);
      LaterTransitive(claimedAt, second, readAt, NOTHING);
      assert unsent == kept + unsent[|kept|..];
      did := Did(due, claimedAt, readAt, unsent[|kept|..], []);
      if flushed.Raised? { return Raised, did; }
      r := if claimed.Flushed? && flushed.Flushed? then Flushed else NotFlushed;
      if r.Flushed? { DoneBy(did, consumer, second, svc.state, kept, mid, unsent); }
      if svc.alone && due && claimed.Flushed? { RecoveredUnread(first, second); }
    }

    /** _process_once. What it sends is the last ping of every device flushed since the last snapshot. */
    method ProcessOnce(svc: Services, now: real, claimPeriod: real, positionPeriod: real)
      returns (r: FlushResult, sent: map<string, Ping>, ghost did: Did)
      requires svc.Valid() && Valid()
      requires claimPeriod >= claimTicker.interval && positionPeriod >= positionTicker.interval
      modifies `positions, `unsent, svc, claimTicker, positionTicker
      ensures svc.Onwards() && Valid() && (r.Flushed? <==> svc.faults == old(svc.faults))
      ensures claimTicker.polls == old(claimTicker.polls) + [Poll(now, claimPeriod)]
      ensures did.claimDue <==> now >= old(claimTicker.nextAt)
      // success settles all that was claimed, if due, and read; what was flushed is sent or kept for later
      ensures Spans(old(svc.state), did, svc.state)
      ensures r.Flushed? ==> Done(did, consumer, svc.state)
      ensures sent == Latest(did.covered) && old(unsent) + did.flushed == did.covered + unsent
      ensures did.covered == if !r.Raised? && now >= old(positionTicker.nextAt) then old(unsent) + did.flushed else []
      ensures positionTicker.polls == old(positionTicker.polls)
                                      + if r.Raised? || old(unsent) + did.flushed == [] then []
                                        else [Poll(now, positionPeriod)]
      // a flush that failed does not keep the step from reading on
      ensures !r.Raised? ==> HaveBeenRead(did.readAt, consumer, svc.state)
      // undisturbed: stale entries are recovered first, and a backlog shrinks
      ensures svc.alone ==> did.claimedAt == old(svc.state)
      ensures svc.alone && r.Flushed? ==>
                && (if did.claimDue then Recovered(old(svc.state), did.readAt) else did.readAt == old(svc.state))
                && (Undelivered(svc.state) < Undelivered(old(svc.state)) || Undelivered(svc.state) == 0)
    {
      hide Latest, Firings, Armed, Recovered, Inv, Later, Legal, Final, Undelivered, Done, Spans, HaveBeenRead;
      EmptyLatest();
      r, did := ClaimAndRead(svc, now, claimPeriod);
      sent := map[];
      assert [] + unsent == unsent && positionTicker.polls + [] == positionTicker.polls;
      if r.Raised? { return; }
      ghost var covered;
      sent, covered := BroadcastPositions(now, positionPeriod);
      CoveredIsOpen(old(svc.state), did, consumer, svc.state, covered);
      did := did.(covered := covered);
    }

    /** _step: success resets the backoff, anything else sleeps. `slept` is 0 on success. */
    method Step(svc: Services, turn: Turn)
      returns (succeeded: bool, slept: real, sent: map<string, Ping>, ghost did: Did)
      requires svc.Valid() && Valid()
      requires turn.claimPeriod >= claimTicker.interval && turn.positionPeriod >= positionTicker.interval
      modifies this, svc, backoff, claimTicker, positionTicker
      ensures svc.Onwards() && Valid() && (succeeded <==> svc.faults == old(svc.faults))
      ensures claimTicker.polls == old(claimTicker.polls) + [Poll(turn.now, turn.claimPeriod)]
      ensures did.claimDue <==> turn.now >= old(claimTicker.nextAt)
      ensures Spans(old(svc.state), did, svc.state)
      ensures succeeded ==> Done(did, consumer, svc.state)
      ensures sent == Latest(did.covered) && old(unsent) + did.flushed == did.covered + unsent
      ensures succeeded ==>
                && did.covered == (if turn.now >= old(positionTicker.nextAt) then old(unsent) + did.flushed else [])
                && positionTicker.polls == old(positionTicker.polls)
                                           + if old(unsent) + did.flushed == [] then []
                                             else [Poll(turn.now, turn.positionPeriod)]
      ensures svc.alone ==> did.claimedAt == old(svc.state)
      ensures svc.alone && succeeded ==>
                && (if did.claimDue then Recovered(old(svc.state), did.readAt) else did.readAt == old(svc.state))
                && (Undelivered(svc.state) < Undelivered(old(svc.state)) || Undelivered(svc.state) == 0)
      ensures backoff.failures == if succeeded then 0 else old(backoff.failures) + 1
      ensures slept == NthDelay(backoff.start, backoff.limit, backoff.failures)
    {
      hide Latest, Firings, Armed, NthDelay, Later, Legal, Final, Gone, Taken, ReadIds, Undelivered, Spans, Done;
      hide Recovered, HaveBeenRead;
      var r;
      r, sent, did := ProcessOnce(svc, turn.now, turn.claimPeriod, turn.positionPeriod);
      succeeded := r.Flushed?;
      slept := 0.0;
      if succeeded { backoff.Reset(); } else { slept := backoff.Sleep(); }
      ZeroDelay(backoff.start, backoff.limit);
    }

    /** run: steps until cancelled, here after as many as there are `turns`, then the drain, from state
        `stopped` on. The clock and the jitter of each step come with its turn; `slept` are the delays of
        all steps. A restart calls run again, with the backoff where it was. */
    method Run(svc: Services, turns: seq<Turn>, rounds: nat, ghost twins: bool)
      returns (outcomes: seq<bool>, slept: seq<real>, r: DrainResult,
               ghost dids: seq<Did>, ghost stopped: State, ghost got: set<Id>)
      requires svc.Valid() && Valid()
      requires forall t <- turns :: t.claimPeriod >= claimTicker.interval && t.positionPeriod >= positionTicker.interval
      modifies this, svc, backoff, claimTicker, positionTicker
      ensures svc.Valid() && old(svc.trace) <= svc.trace && Valid()
      ensures |outcomes| == |dids| == |turns|
      ensures slept == Delays(backoff.start, backoff.limit, old(backoff.failures), outcomes)
      ensures turns != [] ==> heartbeat == turns[|turns| - 1].now
      // every step polls the claim ticker once, and what a successful one claimed and read is settled for good
      ensures claimTicker.polls == old(claimTicker.polls) + Polls(turns)
      ensures ClaimsOnTime(claimTicker.firstAt, claimTicker.polls, |old(claimTicker.polls)|, turns, dids)
      ensures AllDid(old(svc.state), svc.state, dids, outcomes, consumer)
      // the snapshots cover what has been flushed, in order, up to what is left for the next one
      ensures old(unsent) + Flushes(dids) <= Snapshots(dids) + unsent
      ensures svc.faults == old(svc.faults) ==> forall o <- outcomes :: o
      ensures svc.alone && (forall o <- outcomes :: o) ==>
                Undelivered(stopped) == 0 || Undelivered(stopped) + |turns| <= Undelivered(old(svc.state))
      // as long as the others are peers, or twins, from the cancellation on
      ensures svc.calm ==> Kept(stopped, svc.state, consumer, got)
      ensures svc.calm && r.Drained? ==> DrainedFrom(stopped, svc.state, consumer, got, twins)
      ensures svc.calm && r.TimedOut? ==> rounds < |LiveOwn(stopped, consumer)| + Undelivered(stopped) + 2
    {
      hide NthDelay, Latest, Armed, Firings, LiveOwn, Undelivered, DrainedFrom, Kept, Spans, Done, Recovered;
      hide Delays, Failures, Legal, Final, Inv, Later, PeerLater, Flushes, Snapshots, AllDid, ClaimsOnTime;
      outcomes, slept, dids := [], [], [];
      ghost var before, first, polled := backoff.failures, svc.state, claimTicker.polls;
      NoDelays(backoff.start, backoff.limit, before);
      NothingDid(first, consumer, unsent, claimTicker.firstAt, polled, turns);
      assert polled + Polls(turns[..0]) == polled;
      for k := 0 to |turns|
        invariant svc.Valid() && old(svc.trace) <= svc.trace && Valid() && old(svc.faults) <= svc.faults
        invariant |outcomes| == |dids| == k && backoff.failures == Failures(before, outcomes)
        invariant slept == Delays(backoff.start, backoff.limit, before, outcomes)
        invariant k > 0 ==> heartbeat == turns[k - 1].now
        invariant claimTicker.polls == polled + Polls(turns[..k]) && Later(first, svc.state, NOTHING)
        invariant ClaimsOnTime(claimTicker.firstAt, claimTicker.polls, |polled|, turns, dids)
        invariant AllDid(first, svc.state, dids, outcomes, consumer)
        invariant old(unsent) + Flushes(dids) == Snapshots(dids) + unsent
        invariant svc.faults == old(svc.faults) ==> forall o <- outcomes :: o
        invariant svc.alone && (forall o <- outcomes :: o) ==>
                    Undelivered(svc.state) == 0 || Undelivered(svc.state) + k <= Undelivered(first)
      {
        assert turns[k] in turns;
        ghost var mid, polls, kept := svc.state, claimTicker.polls, unsent;
        ghost var poll := Poll(turns[k].now, turns[k].claimPeriod);
        assert Polls(turns[..k + 1]) == Polls(turns[..k]) + [poll];
        var succeeded, delay, sent;
        ghost var did;
        succeeded, delay, sent, did := Step(svc, turns[k]);
        DelaysStep(backoff.start, backoff.limit, before, outcomes, succeeded);
        StepAdds(first, mid, svc.state, dids, did, outcomes, succeeded, consumer);
        PolledOneMore(claimTicker.firstAt, polls, |polled|, turns, dids, did, poll);
        DidOneMore(dids, did, old(unsent), kept, unsent);
        assert forall o <- outcomes :: o in outcomes + [succeeded];
        assert succeeded in outcomes + [succeeded];
        outcomes, slept, dids := outcomes + [succeeded], slept + [delay], dids + [did];
        heartbeat := turns[k].now;
      }
      stopped := svc.state;
      r, got := Drain(svc, rounds, twins);
      LaterReflexive(first, NOTHING);
      AllDidStill(first, stopped, svc.state, dids, outcomes, consumer);
      assert turns[..|turns|] == turns;
    }
  }
}
