/** What steps of other clients leave alone. */
module Interference {
  import opened Pings
  import opened Ledger
  import opened Protocol
  import opened Invariant

  // ----- Any clients -----

  /** The flush attempt, the request and the reconciliation a caller is working on, if any. */
  datatype Own = Own(batch: Option<nat>, pub: Option<nat>, reset: Option<nat>)

  const NOTHING := Own(None, None, None)
  function TheBatch(b: nat): Own { Own(Some(b), None, None) }
  function ThePub(p: nat): Own { Own(None, Some(p), None) }
  function TheReset(r: nat): Own { Own(None, None, Some(r)) }

  predicate Respects(step: Step, own: Own) {
    match step
    case XAdd(p, _) => own.pub != Some(p)
    case IncrBy(p) => own.pub != Some(p)
    case Abandon(p) => own.pub != Some(p)
    case Commit(b) => own.batch != Some(b)
    case XAck(b) => own.batch != Some(b)
    case DecrBy(b) => own.batch != Some(b)
    case SeeBacklog(r) => own.reset != Some(r)
    case SetZero(r) => own.reset != Some(r)
    case _ => true
  }

  /** The caller's own records are as they were. */
  ghost predicate OwnKept(s: State, t: State, own: Own) {
    && |s.batches| <= |t.batches| && |s.pubs| <= |t.pubs| && |s.resets| <= |t.resets|
    && (own.batch.Some? && own.batch.value < |s.batches| ==> t.batches[own.batch.value] == s.batches[own.batch.value])
    && (own.pub.Some? && own.pub.value < |s.pubs| ==> t.pubs[own.pub.value] == s.pubs[own.pub.value])
    && (own.reset.Some? && own.reset.value < |s.resets| ==> t.resets[own.reset.value] == s.resets[own.reset.value])
  }

  /** What no run undoes, and what a run that respects `own` leaves alone. */
  ghost predicate Later(s: State, t: State, own: Own) {
    && s.log <= t.log && s.low <= t.low && s.cursor <= t.cursor
    && s.acked <= t.acked && s.rows <= t.rows
    && (forall i <- t.pel :: i in s.pel || NextRead(s) <= i)
    && OwnKept(s, t, own)
  }

  lemma ReadIsLater(s: State, step: Step, own: Own)
    requires Shape(s) && Enabled(s, step) && (step.ReadNew? || step.ReadOwn? || step.Claim?)
    ensures Later(s, Apply(s, step), own)
  {
    hide Batched, Spread, Weight, First;
  }

  lemma StepIsLater(s: State, step: Step, own: Own)
    requires Shape(s) && Enabled(s, step) && Respects(step, own)
    ensures Later(s, Apply(s, step), own)
  {
    hide Batched, Spread, Weight, First, Stale, Vanished;
    match step
    case ReadNew(_) => ReadIsLater(s, step, own);
    case ReadOwn(_) => ReadIsLater(s, step, own);
    case Claim(_) => ReadIsLater(s, step, own);
    case _ =>
  }

  lemma LaterReflexive(s: State, own: Own)
    ensures Later(s, s, own)
  {
  }

  lemma LaterTransitive(s: State, t: State, u: State, own: Own)
    requires Later(s, t, own) && Later(t, u, own)
    ensures Later(s, u, own)
  {
  }

  /** What is kept for a caller with records of its own is kept for any. */
  lemma LaterForAll(s: State, t: State, own: Own)
    requires Later(s, t, own)
    ensures Later(s, t, NOTHING) && OwnKept(s, t, own)
  {
  }

  lemma {:induction false} RunIsLater(s: State, steps: seq<Step>, own: Own)
    requires Inv(s) && Legal(s, steps) && forall step <- steps :: Respects(step, own)
    ensures Inv(Final(s, steps)) && Later(s, Final(s, steps), own)
    decreases |steps|
  {
    hide Enabled, Apply, Inv, Respects, Later;
    if steps == [] {
      LaterReflexive(s, own);
    } else {
      var t := Apply(s, steps[0]);
      StepKeepsInv(s, steps[0]);
      ShapeOf(s);
      StepIsLater(s, steps[0], own);
      RunIsLater(t, steps[1..], own);
      LaterTransitive(s, t, Final(t, steps[1..]), own);
    }
  }

  lemma ShapeOf(s: State)
    requires Inv(s)
    ensures Shape(s)
  {
  }

  // ----- Peers of a consumer, once the producers have stopped -----

  /** The consumer's pending entries still in the stream, and those trimmed out of it. */
  function LiveOwn(s: State, me: Consumer): set<Id> { Live(s, Owned(s, me)) }
  function TrimmedOwn(s: State, me: Consumer): set<Id> { Owned(s, me) - LiveOwn(s, me) }

  /** Others add no entry and claim none of the consumer's live entries, nor anything under its name.
      With `twins` they may still read under its name, as a process does that has the same consumer
      names and drains, too. They may read, commit, acknowledge, reconcile, and claim or drop anything
      else. */
  ghost predicate PeerStep(s: State, step: Step, me: Consumer, twins: bool) {
    match step
    case XAdd(_, _) => false
    case ReadNew(r) => twins || r != me
    case ReadOwn(r) => twins || r != me
    case Claim(r) => r != me && Live(s, Taken(s)) !! Owned(s, me)
    case _ => true
  }

  ghost predicate PeerRun(s: State, steps: seq<Step>, me: Consumer, twins: bool)
    requires Legal(s, steps)
    decreases |steps|
  {
    steps == [] || (PeerStep(s, steps[0], me, twins) && PeerRun(Apply(s, steps[0]), steps[1..], me, twins))
  }

  /** Nothing is added or trimmed, and the consumer's live entries leave its pending list only by
      being acknowledged; only twins make it gain any, from the unread ones. */
  ghost predicate PeerLater(s: State, t: State, me: Consumer, twins: bool) {
    && t.log == s.log && t.low == s.low && s.acked <= t.acked
    && s.cursor <= t.cursor && (t.cursor == s.cursor || t.cursor <= |t.log|)
    && (forall i <- LiveOwn(t, me) :: i in LiveOwn(s, me) || (twins && NextRead(s) <= i < t.cursor))
    && TrimmedOwn(t, me) <= TrimmedOwn(s, me)
    && (forall i <- LiveOwn(s, me) :: i in LiveOwn(t, me) || i in t.acked)
  }

  lemma ReadNewOwned(s: State, reader: Consumer, me: Consumer)
    requires Undelivered(s) > 0 && forall i <- s.pel :: i < s.cursor
    ensures var t, ids := Apply(s, ReadNew(reader)), Interval(NextRead(s), ReadUntil(s));
            && t.log == s.log && t.low == s.low && t.acked == s.acked && t.cursor == ReadUntil(s)
            && Owned(t, me) == if reader == me then Owned(s, me) + ids else Owned(s, me)
  {
    hide Batched, Spread, Weight, First, Interval, Undelivered;
  }

  lemma ReadRange(s: State)
    ensures NextRead(s) <= ReadUntil(s) && (Undelivered(s) > 0 ==> ReadUntil(s) <= |s.log|)
  {
  }

  lemma PeerReadNewIsLater(s: State, reader: Consumer, me: Consumer, twins: bool)
    requires Shape(s) && Undelivered(s) > 0 && (twins || reader != me)
    ensures PeerLater(s, Apply(s, ReadNew(reader)), me, twins)
  {
    hide Enabled, Apply, Interval, Undelivered, Owned;
    ReadNewOwned(s, reader, me);
    ReadRange(s);
  }

  lemma PeerReadOwnIsLater(s: State, reader: Consumer, me: Consumer, twins: bool)
    requires Shape(s)
    ensures PeerLater(s, Apply(s, ReadOwn(reader)), me, twins)
  {
    hide Batched, Spread, Weight, First;
    assert Owned(Apply(s, ReadOwn(reader)), me) == Owned(s, me);
  }

  lemma PeerClaimIsLater(s: State, reader: Consumer, me: Consumer, twins: bool)
    requires Shape(s) && PeerStep(s, Claim(reader), me, twins)
    ensures PeerLater(s, Apply(s, Claim(reader)), me, twins)
  {
    hide Batched, Spread, Weight, First, Stale, Vanished;
    assert Owned(Apply(s, Claim(reader)), me) == Owned(s, me) - (Taken(s) - Live(s, Taken(s)));
  }

  lemma PeerXAckIsLater(s: State, b: nat, me: Consumer, twins: bool)
    requires Shape(s) && Enabled(s, XAck(b))
    ensures PeerLater(s, Apply(s, XAck(b)), me, twins)
  {
    hide Batched, Spread, Weight, First;
    var t := Apply(s, XAck(b));
    assert Owned(t, me) == Owned(s, me) - s.batches[b].ids;
  }

  lemma PeerStepIsLater(s: State, step: Step, me: Consumer, twins: bool)
    requires Shape(s) && Enabled(s, step) && PeerStep(s, step, me, twins)
    ensures PeerLater(s, Apply(s, step), me, twins)
  {
    hide Batched, Spread, Weight, First, Stale, Vanished;
    match step
    case ReadNew(r) => PeerReadNewIsLater(s, r, me, twins);
    case ReadOwn(r) => PeerReadOwnIsLater(s, r, me, twins);
    case Claim(r) => PeerClaimIsLater(s, r, me, twins);
    case XAck(b) => PeerXAckIsLater(s, b, me, twins);
    case _ =>
  }

  lemma PeerLaterReflexive(s: State, me: Consumer, twins: bool)
    ensures PeerLater(s, s, me, twins)
  {
  }

  lemma PeerLaterTransitive(s: State, t: State, u: State, me: Consumer, twins: bool)
    requires PeerLater(s, t, me, twins) && PeerLater(t, u, me, twins)
    ensures PeerLater(s, u, me, twins)
  {
    hide LiveOwn, TrimmedOwn;
  }

  lemma {:induction false} PeerRunIsLater(s: State, steps: seq<Step>, me: Consumer, twins: bool)
    requires Inv(s) && Legal(s, steps) && PeerRun(s, steps, me, twins)
    ensures PeerLater(s, Final(s, steps), me, twins)
    decreases |steps|
  {
    hide Enabled, Apply, Inv, PeerStep, PeerLater;
    if steps == [] {
      PeerLaterReflexive(s, me, twins);
    } else {
      var t := Apply(s, steps[0]);
      StepKeepsInv(s, steps[0]);
      ShapeOf(s);
      PeerStepIsLater(s, steps[0], me, twins);
      PeerRunIsLater(t, steps[1..], me, twins);
      PeerLaterTransitive(s, t, Final(t, steps[1..]), me, twins);
    }
  }

  lemma PeersReadOn(s: State, t: State, me: Consumer, twins: bool)
    requires PeerLater(s, t, me, twins)
    ensures Undelivered(t) <= Undelivered(s)
  {
    hide LiveOwn, TrimmedOwn;
  }

  /** The commands of a drain. */
  predicate DrainStep(step: Step, me: Consumer) {
    match step
    case ReadNew(r) => r == me
    case ReadOwn(r) => r == me
    case Commit(_) => true
    case XAck(_) => true
    case DecrBy(_) => true
    case _ => false
  }

  /** Drains can run at the same time: each is a peer of the others, a twin if it has the same name. */
  lemma DrainsArePeers(s: State, step: Step, other: Consumer, me: Consumer, twins: bool)
    requires DrainStep(step, other) && (twins || other != me)
    ensures PeerStep(s, step, me, twins)
  {
  }
}
