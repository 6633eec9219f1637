/** Redis and the database as the clients see them, and the functions of stream.py on top.
    Between two commands of a caller any other client may run. */
module Stream {
  import opened Settings
  import opened Faults
  import opened Pings
  import opened Ledger
  import opened Chunks
  import opened Protocol
  import opened Invariant
  import opened Interference
  import opened Replies

  datatype SaveResult = Accepted(accepted: nat, backlog: nat) | Overloaded | Unavailable

  /** get_entry_backlog: the lag, which Redis does not always know, counts as 0 then. */
  function EntryBacklog(s: State, lagKnown: bool): nat {
    (if lagKnown then Undelivered(s) else 0) + |s.pel|
  }

  /** Nothing but the counter and the bookkeeping of resets differs. */
  ghost predicate SameStream(s: State, t: State) {
    t == s.(counter := t.counter, forgiven := t.forgiven, resets := t.resets)
  }

  lemma PendingEnabled(s: State, reader: Consumer)
    ensures Enabled(s, ReadOwn(reader))
  {
  }

  lemma NewEnabled(s: State, reader: Consumer)
    ensures Undelivered(s) > 0 ==> Enabled(s, ReadNew(reader))
  {
  }

  lemma CommitFacts(first: State, at: State, b: nat)
    requires Later(first, at, TheBatch(b)) && Shape(at)
    requires b < |first.batches| && first.batches[b].stage == Held && first.batches[b].ids != {}
    requires forall i <- first.batches[b].ids :: i < |first.log|
    ensures Enabled(at, Commit(b)) && Later(at, Apply(at, Commit(b)), NOTHING)
    ensures var t := Apply(at, Commit(b));
            && b < |t.batches| && t.batches[b] == first.batches[b].(stage := Committed)
            && multiset(Flatten(Payloads(ChunksOf(first.log, first.batches[b].ids)))) <= t.rows
  {
    hide ChunksOf;
    var ids := first.batches[b].ids;
    SpreadPrefix(first.log, at.log, multiset(ids));
    ChunksCover(first.log, ids);
    hide Spread;
  }

  /** What the check of a reconciliation means for the steps that may follow. */
  lemma ResetSteps(s: State, lagKnown: bool)
    ensures EntryBacklog(s, lagKnown) == 0 ==>
              && Enabled(s, SeeEmpty(lagKnown)) && Later(s, Apply(s, SeeEmpty(lagKnown)), NOTHING)
              && Apply(s, SeeEmpty(lagKnown)).resets == s.resets + [SawEmpty]
  {
    if |s.pel| == 0 { assert s.pel == map[]; }
  }

  lemma SeeBacklogFacts(s: State, r: nat)
    requires r < |s.resets| && s.resets[r] == SawEmpty && Backlog(s) != 0
    ensures Enabled(s, SeeBacklog(r)) && Later(s, Apply(s, SeeBacklog(r)), NOTHING)
    ensures Apply(s, SeeBacklog(r)).resets == s.resets[r := SawBacklog]
  {
  }

  lemma SetZeroIsLater(s: State, r: nat)
    requires r < |s.resets| && s.resets[r] == SawBacklog
    ensures Enabled(s, SetZero(r)) && Later(s, Apply(s, SetZero(r)), NOTHING)
  {
  }

  class Services {
    var state: State
    ghost var trace: seq<Step>
    /** The commands the caller itself has issued. */
    ghost var issued: set<Step>
    /** No other client is connected. */
    ghost const alone: bool
    /** Since `watched` was set, others have behaved as its peers, or as its twins if so set. */
    ghost var watched: Consumer
    ghost var twins: bool
    ghost var calm: bool
    /** How many errors of Redis, the database or the network have struck the caller. */
    ghost var faults: nat

    /** The state is the outcome of a legal run. */
    ghost predicate Valid() reads this {
      Legal(Init(), trace) && state == Final(Init(), trace)
    }

    constructor (ghost alone: bool)
      ensures Valid() && trace == [] && issued == {} && faults == 0 && this.alone == alone
    {
      this.alone := alone;
      faults := 0;
      state := Init();
      trace, issued := [], {};
      watched, twins, calm := "", false, false;
    }

    /** How the state may have moved while others ran. */
    ghost predicate Moved(s: State, t: State, own: Own) reads this {
      Later(s, t, own) && (alone ==> t == s) && (calm ==> PeerLater(s, t, watched, twins))
    }

    /** The run has gone on, and calm is never restored. */
    twostate predicate Onwards() reads this {
      && Valid() && old(trace) <= trace && old(faults) <= faults
      && watched == old(watched) && twins == old(twins) && (calm ==> old(calm)) && (alone ==> calm == old(calm))
    }

    /** The caller has issued no commands but those of a drain of `me`. */
    twostate predicate OnlyDrains(me: Consumer) reads this {
      forall step <- issued :: step in old(issued) || DrainStep(step, me)
    }

    lemma Sound()
      requires Valid()
      ensures Reachable(state) && Inv(state) && Shape(state)
      ensures forall b <- state.batches :: BatchOk(b, state.cursor)
    {
      ReachableInv(state);
    }

    /** From now on `calm` tells whether others behave as peers of `me`. */
    ghost method Watch(me: Consumer, withTwins: bool)
      requires Valid()
      modifies `watched, `twins, `calm
      ensures Valid() && watched == me && twins == withTwins && calm
    {
      watched, twins, calm := me, withTwins, true;
    }

    /** One Redis command or database commit of the caller. */
    method Do(step: Step)
      requires Valid() && Enabled(state, step)
      modifies `state, `trace, `issued
      ensures Valid() && state == Apply(old(state), step) && trace == old(trace) + [step]
      ensures issued == old(issued) + {step}
    {
      RunExtend(Init(), trace, step);
      state := Apply(state, step);
      trace := trace + [step];
      issued := issued + {step};
    }

    /** Any legal steps of other clients, which do not touch what the caller works on. */
    method Others(ghost own: Own)
      requires Valid()
      modifies `state, `trace, `calm
      ensures Onwards()
      ensures Legal(old(state), trace[|old(trace)|..])
      ensures state == Final(old(state), trace[|old(trace)|..])
      ensures forall step <- trace[|old(trace)|..] :: Respects(step, own)
      ensures calm ==> PeerRun(old(state), trace[|old(trace)|..], watched, twins)
      ensures alone ==> trace == old(trace)
    {
      assert trace[|trace|..] == [];
    }

    /** Others run, and what the caller may still rely on. */
    method Yield(ghost own: Own)
      requires Valid()
      modifies `state, `trace, `calm
      ensures Onwards() && Moved(old(state), state, own)
    {
      hide Inv, Enabled, Apply, Later, PeerLater;
      Others(own);
      ghost var more := trace[|old(trace)|..];
      ReachableInv(old(state));
      RunIsLater(old(state), more, own);
      if calm { PeerRunIsLater(old(state), more, watched, twins); }
    }

    // ----- app/domains/devices/service.py, app/pipeline/stream.py -----

    /** save_points, which reads the backlog in state `at`. A Redis error may strike at any command
        and may leave the request published in part, or in full. */
    method SavePoints(points: seq<Ping>) returns (r: SaveResult, ghost p: Option<nat>, ghost at: State)
      requires Valid() && 1 <= |points| <= MAX_HTTP_BATCH_SIZE
      modifies `state, `trace, `calm, `issued, `faults
      ensures Onwards() && Moved(old(state), at, NOTHING)
      ensures r.Unavailable? <==> faults != old(faults)
      ensures faults == old(faults) ==>
                r == if Backlog(at) > BACKLOG_LIMIT then Overloaded else Accepted(|points|, Backlog(at))
      ensures r.Overloaded? ==> p.None? && Backlog(at) > BACKLOG_LIMIT
      ensures r.Accepted? ==> p.Some? && r.accepted == |points| && r.backlog == Backlog(at)
      ensures p.None? ==> state == at
      ensures p.Some? ==>
                && Backlog(at) <= BACKLOG_LIMIT && p.value < |state.pubs|
                && state.pubs[p.value].pings == points
                && state.pubs[p.value].stage in {Open, Counted}
                && (r.Accepted? ==> state.pubs[p.value].stage == Counted && state.pubs[p.value].todo == [])
      ensures alone && r.Accepted? ==> state.counter == old(state).counter + |points|
    {
      hide Inv, Spread, Weight, Batched, First, Later, PeerLater;
      p := None;
      Yield(NOTHING);
      at := state;
      var lost;
      lost, faults := Strike(faults);
      if lost { return Unavailable, p, at; }
      var backlog := Backlog(state);
      if backlog > BACKLOG_LIMIT { return Overloaded, p, at; }
      var k := |state.pubs|;
      Do(Admit(points));
      p := Some(k);
      var published := Publish(k);
      r := if published then Accepted(|points|, backlog) else Unavailable;
    }

    /** publish: XADD for every chunk, then INCRBY. */
    method Publish(p: nat) returns (ok: bool)
      requires Valid() && p < |state.pubs| && state.pubs[p].stage == Open
      modifies `state, `trace, `calm, `issued, `faults
      ensures Onwards() && (ok <==> faults == old(faults))
      ensures p < |state.pubs| && state.pubs[p].pings == old(state.pubs[p].pings)
      ensures state.pubs[p].stage in {Open, Counted}
      ensures ok ==> state.pubs[p].stage == Counted && state.pubs[p].todo == []
      ensures alone && ok ==> state.counter == old(state).counter + old(state).pubs[p].Total()
    {
      hide Inv, Spread, Weight, Batched, First, PeerLater;
      while true
        invariant Onwards() && faults == old(faults)
        invariant p < |state.pubs| && state.pubs[p].stage == Open
        invariant state.pubs[p].pings == old(state.pubs[p].pings)
        invariant alone ==> state.counter == old(state).counter
        decreases |state.pubs[p].todo|
      {
        Yield(ThePub(p));
        var lost;
        lost, faults := Strike(faults);
        if lost { return false; }
        if state.pubs[p].todo == [] { break; }
        var low := TrimPoint();
        Do(XAdd(p, low));
      }
      Do(IncrBy(p));
      var unheard;
      unheard, faults := Strike(faults);
      ok := !unheard;
    }

    /** How far XADD MAXLEN ~ trims is up to Redis, short of the configured length. */
    method TrimPoint() returns (low: Id)
      requires Valid()
      ensures low == state.low || (state.low <= low && low + STREAM_MAX_LEN <= |state.log| + 1)
    {
      var extra: nat :| true;
      low := state.low + extra;
      if low + STREAM_MAX_LEN > |state.log| + 1 { low := state.low; }
    }

    /** The command alone. With nothing unread, `>` does nothing. */
    method ReadCommand(reader: Consumer, pending: bool)
      requires Valid()
      modifies `state, `trace, `issued
      ensures Valid() && old(trace) <= trace && OnlyDrains(reader)
      ensures state == ReadState(old(state), reader, pending)
    {
      hide Enabled, Apply, First;
      if pending {
        PendingEnabled(state, reader);
        Do(ReadOwn(reader));
      } else if Undelivered(state) > 0 {
        NewEnabled(state, reader);
        Do(Step.ReadNew(reader));
      }
    }

    /** XREADGROUP with `>`, or with `0` for the consumer's own pending entries, in state `at`. Pending
        entries trimmed meanwhile come back without a payload and are skipped. A reply can get lost. */
    method ReadNew(reader: Consumer, pending: bool)
      returns (ok: bool, chunks: seq<StreamChunk>, b: nat, ghost at: State)
      requires Valid()
      modifies `state, `trace, `calm, `issued, `faults
      ensures Onwards() && OnlyDrains(reader) && (ok <==> faults == old(faults))
      ensures Moved(old(state), at, NOTHING) && Shape(at)
      ensures (state == ReadState(at, reader, pending) || (!ok && state == at)) && Later(at, state, NOTHING)
      ensures ok ==>
                && chunks == ChunksOf(at.log, ReadIds(at, reader, pending))
                && Lists(at.log, ReadIds(at, reader, pending), chunks)
      ensures ok ==> (chunks == [] <==> ReadIds(at, reader, pending) == {})
      ensures ok && chunks != [] ==>
                && b == |at.batches| && Holds(state, b, reader, chunks)
                && state.batches[b].ids == ReadIds(at, reader, pending)
    {
      hide Inv, Shape, ChunksOf, Enabled, Apply, Later, PeerLater, Holds, ReadState, ReadIds, Legal, Final;
      Yield(NOTHING);
      at := state;
      chunks, b := [], |state.batches|;
      Sound();
      var lost;
      lost, faults := Strike(faults);
      LaterReflexive(at, NOTHING);
      if lost { return false, [], b, at; }
      ReadCommand(reader, pending);
      ReadFacts(at, reader, pending);
      ReadEffect(at, reader, pending);
      var unheard;
      unheard, faults := Strike(faults);
      if unheard { return false, [], b, at; }
      ok := true;
      chunks := if |state.batches| > b then ChunksOf(state.log, state.batches[b].ids) else [];
    }

    /** XAUTOCLAIM of entries idle for CLAIM_IDLE_MS, in state `at`. A reply can get lost. */
    method ClaimStale(reader: Consumer) returns (ok: bool, chunks: seq<StreamChunk>, b: nat, ghost at: State)
      requires Valid()
      modifies `state, `trace, `calm, `issued, `faults
      ensures Onwards() && (ok <==> faults == old(faults))
      ensures Moved(old(state), at, NOTHING) && Shape(at)
      ensures (state == Apply(at, Claim(reader)) || (!ok && state == at)) && Later(at, state, NOTHING)
      ensures ok ==> chunks == ChunksOf(at.log, Live(at, Taken(at))) && Lists(at.log, Live(at, Taken(at)), chunks)
      ensures ok ==> (chunks == [] <==> Live(at, Taken(at)) == {})
      ensures ok && chunks != [] ==>
                b == |at.batches| && Holds(state, b, reader, chunks) && state.batches[b].ids == Live(at, Taken(at))
    {
      hide Inv, Shape, ChunksOf, Apply, Later, PeerLater, Holds, Legal, Final;
      Yield(NOTHING);
      at := state;
      chunks, b := [], |state.batches|;
      Sound();
      var lost;
      lost, faults := Strike(faults);
      LaterReflexive(at, NOTHING);
      if lost { return false, [], b, at; }
      Do(Claim(reader));
      ClaimFacts(at, reader);
      var unheard;
      unheard, faults := Strike(faults);
      if unheard { return false, [], b, at; }
      ok := true;
      chunks := ChunksOf(state.log, state.batches[b].ids);
    }

    /** The transaction of _flush. An error may be reported though the commit was applied. */
    method CommitChunks(b: nat, reader: Consumer, chunks: seq<StreamChunk>) returns (ok: bool)
      requires Valid() && Holds(state, b, reader, chunks) && chunks != []
      modifies `state, `trace, `calm, `issued, `faults
      ensures Onwards() && OnlyDrains(reader) && Later(old(state), state, NOTHING) && (ok <==> faults == old(faults))
      ensures calm ==> PeerLater(old(state), state, watched, twins)
      ensures b < |state.batches| && state.batches[b].ids == old(state).batches[b].ids
      ensures state.batches[b].removed == {} && state.batches[b].stage in {Held, Committed}
      ensures ok ==> state.batches[b].stage == Committed && multiset(Flatten(Payloads(chunks))) <= state.rows
      ensures alone ==> state == old(state) || state == Apply(old(state), Commit(b))
      ensures alone && ok ==> state == Apply(old(state), Commit(b))
    {
      hide Inv, Shape, Weight, Batched, ChunksOf, Apply, Later, PeerLater, Legal, Final, Spread;
      ghost var first := state;
      Yield(TheBatch(b));
      ghost var at := state;
      LaterForAll(first, at, TheBatch(b));
      Sound();
      var lost;
      lost, faults := Strike(faults);
      if lost { return false; }
      CommitFacts(first, at, b);
      Do(Commit(b));
      if calm { PeerStepIsLater(at, Commit(b), watched, twins); PeerLaterTransitive(first, at, state, watched, twins); }
      LaterTransitive(first, at, state, NOTHING);
      var unheard;
      unheard, faults := Strike(faults);
      ok := !unheard;
    }

    /** The XACK of ack. */
    method AckEntries(b: nat, ghost reader: Consumer) returns (ok: bool)
      requires Valid() && b < |state.batches| && state.batches[b].stage == Committed
      modifies `state, `trace, `calm, `issued, `faults
      ensures Onwards() && OnlyDrains(reader) && Later(old(state), state, NOTHING) && (ok <==> faults == old(faults))
      ensures calm ==> PeerLater(old(state), state, watched, twins)
      ensures b < |state.batches| && state.batches[b].ids == old(state).batches[b].ids
      ensures state.batches[b].stage == if ok then Acked else Committed
      ensures ok ==> forall i <- state.batches[b].ids :: Gone(state, i)
      ensures alone ==> state == if ok then Apply(old(state), XAck(b)) else old(state)
    {
      hide Inv, Shape, BatchOk, Apply, Later, PeerLater, Gone, Legal, Final;
      ghost var first := state;
      Yield(TheBatch(b));
      ghost var second := state;
      LaterForAll(first, second, TheBatch(b));
      Sound();
      var lost;
      lost, faults := Strike(faults);
      ok := !lost;
      if lost { return; }
      assert second.batches[b] in second.batches;
      XAckFacts(second, b);
      Do(XAck(b));
      if calm {
        PeerStepIsLater(second, XAck(b), watched, twins);
        PeerLaterTransitive(first, second, state, watched, twins);
      }
      LaterTransitive(first, second, state, NOTHING);
    }

    /** Its DECRBY, whatever the XACK removed. */
    method AckPings(b: nat, ghost reader: Consumer) returns (ok: bool)
      requires Valid() && b < |state.batches| && state.batches[b].stage == Acked
      modifies `state, `trace, `calm, `issued, `faults
      ensures Onwards() && OnlyDrains(reader) && Later(old(state), state, NOTHING) && (ok <==> faults == old(faults))
      ensures calm ==> PeerLater(old(state), state, watched, twins)
      ensures b < |state.batches| && state.batches[b].ids == old(state).batches[b].ids
      ensures state.batches[b].stage == if ok then Settled else Acked
      ensures alone ==> state == if ok then Apply(old(state), DecrBy(b)) else old(state)
    {
      hide Inv, Shape, Apply, Later, PeerLater, Legal, Final;
      ghost var first := state;
      Yield(TheBatch(b));
      ghost var second := state;
      LaterForAll(first, second, TheBatch(b));
      Sound();
      var lost;
      lost, faults := Strike(faults);
      ok := !lost;
      if lost { return; }
      DecrByFacts(second, b);
      Do(DecrBy(b));
      if calm {
        PeerStepIsLater(second, DecrBy(b), watched, twins);
        PeerLaterTransitive(first, second, state, watched, twins);
      }
      LaterTransitive(first, second, state, NOTHING);
    }

    /** ack: XACK then DECRBY. Either may be the last to run, and the reply may get lost. */
    method Ack(b: nat, ghost reader: Consumer) returns (ok: bool)
      requires Valid() && b < |state.batches| && state.batches[b].stage == Committed
      modifies `state, `trace, `calm, `issued, `faults
      ensures Onwards() && OnlyDrains(reader) && Later(old(state), state, NOTHING) && (ok <==> faults == old(faults))
      ensures calm ==> PeerLater(old(state), state, watched, twins)
      ensures b < |state.batches| && state.batches[b].ids == old(state).batches[b].ids
      ensures state.batches[b].stage in {Committed, Acked, Settled}
      ensures state.batches[b].stage != Committed ==> forall i <- state.batches[b].ids :: Gone(state, i)
      ensures ok ==> state.batches[b].stage == Settled
      ensures alone ==> state in {old(state), Apply(old(state), XAck(b)), Apply(Apply(old(state), XAck(b)), DecrBy(b))}
      ensures alone && ok ==> state == Apply(Apply(old(state), XAck(b)), DecrBy(b))
    {
      hide Inv, Shape, Apply, Enabled, Later, PeerLater, Gone, Legal, Final;
      ghost var first := state;
      var acked := AckEntries(b, reader);
      if !acked { return false; }
      ghost var second := state;
      var counted := AckPings(b, reader);
      LaterTransitive(first, second, state, NOTHING);
      if calm { PeerLaterTransitive(first, second, state, watched, twins); }
      GoneStays(second, state, first.batches[b].ids);
      if !counted { return false; }
      var unheard;
      unheard, faults := Strike(faults);
      ok := !unheard;
    }

    /** The XINFO GROUPS of reconcile_backlog, in state `at`. The mark r is set when there is nothing
        pending and no lag. */
    method CheckIdle() returns (ok: bool, idle: bool, lagKnown: bool, r: nat, ghost at: State)
      requires Valid()
      modifies `state, `trace, `calm, `issued, `faults
      ensures Onwards() && Moved(old(state), at, NOTHING) && Later(old(state), state, NOTHING)
      ensures (idle ==> ok) && (ok <==> faults == old(faults))
      ensures ok ==> (idle <==> EntryBacklog(at, lagKnown) == 0)
      ensures !idle ==> state == at
      ensures idle ==>
                && Enabled(at, SeeEmpty(lagKnown)) && state == Apply(at, SeeEmpty(lagKnown))
                && r == |at.resets| && state.resets == at.resets + [SawEmpty]
    {
      hide Inv, Shape, Apply, Later, PeerLater, Legal, Final, EntryBacklog;
      ghost var first := state;
      Yield(NOTHING);
      at, r, idle := state, |state.resets|, false;
      lagKnown := *;
      var lost;
      lost, faults := Strike(faults);
      ok := !lost;
      if lost { return; }
      ResetSteps(at, lagKnown);
      if EntryBacklog(state, lagKnown) != 0 { return; }
      idle := true;
      Do(SeeEmpty(lagKnown));
      LaterTransitive(first, at, state, NOTHING);
    }

    /** Its GET, in state `looked`, and its SET 0, in state `resetting`. */
    method ResetIfCounted(r: nat) returns (ok: bool, reset: bool, ghost looked: State, ghost resetting: State)
      requires Valid() && r < |state.resets| && state.resets[r] == SawEmpty
      modifies `state, `trace, `calm, `issued, `faults
      ensures Onwards() && Moved(old(state), looked, TheReset(r)) && Later(old(state), state, NOTHING)
      ensures ok <==> faults == old(faults)
      ensures ok ==> (reset <==> Backlog(looked) != 0)
      ensures !reset && ok ==> state == looked
      ensures reset ==>
                && Enabled(looked, SeeBacklog(r))
                && Moved(Apply(looked, SeeBacklog(r)), resetting, TheReset(r))
                && Enabled(resetting, SetZero(r)) && state == Apply(resetting, SetZero(r))
    {
      hide Inv, Shape, Apply, Later, PeerLater, Legal, Final, Backlog;
      ghost var first := state;
      reset := false;
      Yield(TheReset(r));
      looked, resetting := state, state;
      LaterForAll(first, looked, TheReset(r));
      var lost;
      lost, faults := Strike(faults);
      if lost { return false, false, looked, resetting; }
      if Backlog(state) == 0 { return true, false, looked, resetting; }
      SeeBacklogFacts(looked, r);
      Do(SeeBacklog(r));
      ghost var marked := state;
      Yield(TheReset(r));
      resetting := state;
      LaterForAll(marked, resetting, TheReset(r));
      LaterTransitive(first, looked, marked, NOTHING);
      LaterTransitive(first, marked, resetting, NOTHING);
      var cut;
      cut, faults := Strike(faults);
      if cut { return false, false, looked, resetting; }
      SetZeroIsLater(resetting, r);
      Do(SetZero(r));
      LaterTransitive(first, resetting, state, NOTHING);
      reset := true;
      var unheard;
      unheard, faults := Strike(faults);
      ok := !unheard;
    }

    /** reconcile_backlog: the counter is read only if there was nothing pending and no lag, and reset
        only if it was then positive; others may run at both points in between. */
    method ReconcileBacklog()
      returns (ok: bool, reset: bool, lagKnown: bool, ghost checked: State, ghost looked: State, ghost resetting: State)
      requires Valid()
      modifies `state, `trace, `calm, `issued, `faults
      ensures Onwards() && Moved(old(state), checked, NOTHING) && Later(old(state), state, NOTHING)
      ensures ok <==> faults == old(faults)
      ensures ok ==> (reset <==> EntryBacklog(checked, lagKnown) == 0 && Backlog(looked) != 0)
      ensures ok && !reset ==> state == if EntryBacklog(checked, lagKnown) == 0 then looked else checked
      ensures reset || (ok && EntryBacklog(checked, lagKnown) == 0) ==>
                && Enabled(checked, SeeEmpty(lagKnown))
                && Moved(Apply(checked, SeeEmpty(lagKnown)), looked, TheReset(|checked.resets|))
      ensures reset ==>
                var r := |checked.resets|;
                && Enabled(looked, SeeBacklog(r))
                && Moved(Apply(looked, SeeBacklog(r)), resetting, TheReset(r))
                && Enabled(resetting, SetZero(r)) && state == Apply(resetting, SetZero(r))
    {
      hide Inv, Shape, Apply, Enabled, Later, PeerLater, Legal, Final, Backlog, EntryBacklog;
      ghost var first := state;
      var idle, r;
      ok, idle, lagKnown, r, checked := CheckIdle();
      looked, resetting, reset := state, state, false;
      if !idle { return; }
      ghost var marked := state;
      ok, reset, looked, resetting := ResetIfCounted(r);
      LaterTransitive(first, marked, state, NOTHING);
    }
  }
}
