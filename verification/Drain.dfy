/** What a drain achieves while others are at work, alone and together with the other drains. */
module Drain {
  import opened Settings
  import opened Pings
  import opened Ledger
  import opened Protocol
  import opened Invariant
  import opened Interference
  import opened Recovery
  import opened Replies
  import opened Runs
  import opened Sets

  /** An upper bound on the flushes a drain phase can make. Twins turn unread entries into own ones. */
  function Work(s: State, me: Consumer, pending: bool, twins: bool): nat {
    if !pending then Undelivered(s)
    else |LiveOwn(s, me)| + if twins then Undelivered(s) else 0
  }

  /** Whatever the others do, the work left of the first phase shrinks by what is removed. */
  lemma WorkShrinks(s: State, u: State, me: Consumer, twins: bool, removed: set<Id>)
    requires PeerLater(s, u, me, twins) && removed <= LiveOwn(s, me) && removed !! LiveOwn(u, me)
    ensures Work(u, me, true, twins) + |removed| <= Work(s, me, true, twins)
  {
    hide LiveOwn, TrimmedOwn;
    var gained := if twins then Interval(NextRead(s), u.cursor) else {};
    SubsetSize(removed, LiveOwn(s, me));
    SubsetSize(LiveOwn(u, me), LiveOwn(s, me) - removed + gained);
    SumSize(LiveOwn(s, me) - removed, gained);
  }

  lemma SumSize<T>(a: set<T>, b: set<T>)
    ensures |a + b| <= |a| + |b|
  {
  }

  /** What a drain leaves, however it ends: the consumer's live entries, and those it has read, are
      acknowledged or still in its pending list. */
  ghost predicate Kept(s: State, t: State, me: Consumer, got: set<Id>) {
    && t.log == s.log && t.low == s.low && s.acked <= t.acked
    && forall i <- LiveOwn(s, me) + got :: i in t.acked || i in LiveOwn(t, me)
  }

  /** Trimmed entries come first in the reply: READ_COUNT of them leave no room for a live one. */
  lemma ReplyRoom(s: State, me: Consumer)
    ensures ReadIds(s, me, true) == {} <==> LiveOwn(s, me) == {} || |TrimmedOwn(s, me)| >= READ_COUNT
    ensures ReadIds(s, me, true) <= LiveOwn(s, me)
  {
    hide First, Owned;
    var own, live, trimmed := Owned(s, me), LiveOwn(s, me), TrimmedOwn(s, me);
    var reply := First(own, READ_COUNT);
    FirstSize(own, READ_COUNT);
    if i :| i in live && i in reply {
      forall j <- trimmed ensures j in reply - {i} { FirstIsLowest(own, READ_COUNT, i, j); }
      SubsetSize(trimmed, reply - {i});
      assert i in ReadIds(s, me, true);
    } else if live != {} {
      assert reply <= trimmed;
      SubsetSize(reply, trimmed);
      if |own| < READ_COUNT { SubsetSize(reply, own); EmptySet(own - reply); }
    }
  }

  /** How much a reply from the pending list holds, and that it is the lowest live entries: the trimmed
      ones before them take up its room. */
  lemma PendingReply(s: State, me: Consumer)
    ensures var ids, live, trimmed := ReadIds(s, me, true), LiveOwn(s, me), |TrimmedOwn(s, me)|;
            && ids <= live
            && |ids| == (if trimmed >= READ_COUNT then 0
                         else if |live| < READ_COUNT - trimmed then |live| else READ_COUNT - trimmed)
            && forall i, j :: i in ids && j in live - ids ==> i < j
  {
    hide First, Owned;
    var own, live, trimmed := Owned(s, me), LiveOwn(s, me), TrimmedOwn(s, me);
    var reply, ids := First(own, READ_COUNT), ReadIds(s, me, true);
    FirstSize(own, READ_COUNT);
    SubsetSize(live, own);
    ReplyRoom(s, me);
    if i :| i in ids {
      forall j <- trimmed ensures j in reply { FirstIsLowest(own, READ_COUNT, i, j); }
      assert ids == reply - trimmed;
      SubsetSize(trimmed, reply);
      SubsetSize(trimmed, reply - {i});
    }
    forall i, j | i in ids && j in live - ids ensures i < j {
      if j < i { FirstIsLowest(own, READ_COUNT, i, j); }
    }
  }

  /** A read of new entries gives the lowest unread ones, READ_COUNT of them or all. */
  lemma NewReply(s: State, me: Consumer)
    requires Shape(s)
    ensures var ids := ReadIds(s, me, false);
            && |ids| == (if Undelivered(s) < READ_COUNT then Undelivered(s) else READ_COUNT)
            && (forall i <- ids :: NextRead(s) <= i < |s.log|)
            && forall i, j :: i in ids && NextRead(s) <= j < |s.log| && j !in ids ==> i < j
  {
  }

  /** One turn of the drain loop that flushed what it read: s is where it started, a where the read
      took place and m where it left off, u where the flush ended. */
  lemma TurnDone(s: State, a: State, m: State, u: State, me: Consumer, ids: set<Id>, twins: bool)
    requires PeerLater(s, a, me, twins) && HasRead(a, m, me, ids) && PeerLater(m, u, me, twins)
    requires a.cursor <= m.cursor && (m.cursor == a.cursor || m.cursor <= |m.log|)
    requires forall i <- ids :: Gone(u, i)
    ensures PeerLater(s, u, me, twins) && Kept(s, u, me, ids) && ids <= u.acked && ids !! LiveOwn(u, me)
  {
    hide Owned;
    LiveAfterRead(a, m, me, ids);
    forall i <- LiveOwn(u, me) ensures i !in ids { OwnedIsPending(u, me, i); }
  }

  lemma OwnedIsPending(s: State, me: Consumer, i: Id)
    requires i in Owned(s, me)
    ensures i in s.pel
  {
  }

  lemma LiveAfterRead(a: State, m: State, me: Consumer, ids: set<Id>)
    requires HasRead(a, m, me, ids)
    ensures LiveOwn(m, me) == LiveOwn(a, me) + ids && TrimmedOwn(m, me) == TrimmedOwn(a, me)
  {
    hide Owned;
  }

  /** A turn of the drain loop whose read or flush failed, at whatever point. */
  lemma TurnFailed(s: State, a: State, m: State, u: State, me: Consumer, ids: set<Id>, twins: bool)
    requires PeerLater(s, a, me, twins) && HasRead(a, m, me, ids) && PeerLater(m, u, me, twins)
    ensures Kept(s, u, me, ids)
  {
    hide Owned, LiveOwn, TrimmedOwn;
    LiveAfterRead(a, m, me, ids);
  }

  lemma NothingKept(s: State, t: State, me: Consumer, twins: bool)
    requires PeerLater(s, t, me, twins)
    ensures Kept(s, t, me, {})
  {
  }

  lemma KeptOn(s: State, t: State, u: State, me: Consumer, got: set<Id>, more: set<Id>, twins: bool)
    requires PeerLater(s, t, me, twins) && got <= t.acked && Kept(t, u, me, more)
    ensures Kept(s, u, me, got + more) && got <= u.acked
  {
    hide LiveOwn, TrimmedOwn;
  }

  /** What a read with nothing in its reply says. */
  lemma NothingRead(s: State, a: State, m: State, me: Consumer, pending: bool, twins: bool)
    requires PeerLater(s, a, me, twins) && Shape(a) && ReadIds(a, me, pending) == {} && m == ReadState(a, me, pending)
    ensures pending ==> LiveOwn(m, me) == {} || |TrimmedOwn(s, me)| >= READ_COUNT
    ensures !pending ==> Undelivered(m) == 0
    ensures a.cursor <= m.cursor
  {
    hide ReadIds, ReadState, LiveOwn, TrimmedOwn, Owned;
    ReadEffect(a, me, pending);
    LiveAfterRead(a, m, me, {});
    if pending {
      PendingEffect(a, me);
      ReplyRoom(a, me);
      SubsetSize(TrimmedOwn(a, me), TrimmedOwn(s, me));
    } else {
      NewEffect(a, me);
      NewIds(a, me);
    }
  }

  /** An undisturbed turn takes exactly what it read out of the consumer's live entries. */
  lemma QuietTurn(a: State, m: State, u: State, me: Consumer, ids: set<Id>)
    requires HasRead(a, m, me, ids)
    requires if ids == {} then u == m else FlushedFrom(m, u, ids)
    ensures LiveOwn(u, me) == LiveOwn(a, me) - ids
  {
    hide Owned;
    LiveAfterRead(a, m, me, ids);
    if ids != {} { OwnedAfterFlush(m, u, me, ids); }
  }

  lemma NewOnesWereNotOwned(a: State, me: Consumer)
    requires Shape(a)
    ensures LiveOwn(a, me) - ReadIds(a, me, false) == LiveOwn(a, me)
  {
    hide ReadState, ReadIds, Owned;
    NewEffect(a, me);
  }

  lemma OwnedAfterFlush(m: State, u: State, me: Consumer, ids: set<Id>)
    requires FlushedFrom(m, u, ids)
    ensures Owned(u, me) == Owned(m, me) - ids && u.low == m.low
  {
  }

  lemma UnheardTurn(s: State, a: State, m: State, me: Consumer, pending: bool, got: set<Id>, twins: bool)
    requires PeerLater(s, a, me, twins)
    requires (m == a && got == {}) || HasRead(a, m, me, got)
    ensures Kept(s, m, me, got)
  {
    hide Kept, PeerLater, HasRead;
    PeerLaterReflexive(m, me, twins);
    if m == a && got == {} { NothingKept(s, a, me, twins); } else { TurnFailed(s, a, m, m, me, got, twins); }
  }

  lemma ReadShrinks(a: State, me: Consumer)
    requires Shape(a)
    ensures var m := ReadState(a, me, false);
            Undelivered(m) + (if ReadIds(a, me, false) != {} then 1 else 0) <= Undelivered(a)
  {
    hide ReadState, ReadIds;
    NewEffect(a, me);
    NewIds(a, me);
  }

  /** What a turn achieves that flushed all it read. */
  ghost predicate Achieved(s: State, u: State, me: Consumer, pending: bool, got: set<Id>, twins: bool) {
    && PeerLater(s, u, me, twins) && got <= u.acked && Kept(s, u, me, got)
    && Work(u, me, pending, twins) + (if got != {} then 1 else 0) <= Work(s, me, pending, twins)
    && Undelivered(u) <= Undelivered(s)
    && (got == {} && pending ==> LiveOwn(u, me) == {} || |TrimmedOwn(s, me)| >= READ_COUNT)
    && (got == {} && !pending ==> Undelivered(u) == 0)
  }

  lemma GoodTurn(s: State, a: State, m: State, u: State, me: Consumer, pending: bool, ids: set<Id>, twins: bool)
    requires PeerLater(s, a, me, twins) && Shape(a) && m == ReadState(a, me, pending) && ids == ReadIds(a, me, pending)
    requires if ids == {} then u == m else PeerLater(m, u, me, twins) && forall i <- ids :: Gone(u, i)
    ensures Achieved(s, u, me, pending, ids, twins) && Kept(s, u, me, ids)
  {
    hide ReadState, ReadIds, HasRead, LiveOwn, TrimmedOwn, Gone, Kept, Undelivered, PeerLater;
    ReadEffect(a, me, pending);
    PeerLaterReflexive(m, me, twins);
    ReadForward(a, me, pending);
    TurnDone(s, a, m, u, me, ids, twins);
    PeersReadOn(s, a, me, twins);
    PeersReadOn(s, u, me, twins);
    PeersReadOn(m, u, me, twins);
    TurnWorks(s, a, m, u, me, pending, ids, twins);
    if ids == {} { NothingRead(s, a, m, me, pending, twins); }
  }

  lemma ReadForward(a: State, me: Consumer, pending: bool)
    requires Shape(a)
    ensures var m := ReadState(a, me, pending);
            a.cursor <= m.cursor && (m.cursor == a.cursor || m.cursor <= |m.log|)
  {
    hide ReadState, ReadIds;
    if pending { PendingEffect(a, me); } else { NewEffect(a, me); ReadRange(a); }
  }

  lemma OwnShrinks(s: State, u: State, me: Consumer, twins: bool)
    requires PeerLater(s, u, me, twins)
    ensures Work(u, me, true, twins) <= Work(s, me, true, twins)
    ensures |TrimmedOwn(u, me)| <= |TrimmedOwn(s, me)|
  {
    hide LiveOwn, TrimmedOwn, Work;
    WorkShrinks(s, u, me, twins, {});
    SubsetSize(TrimmedOwn(u, me), TrimmedOwn(s, me));
  }

  /** The flushes of a phase are paid for by its work. */
  lemma TurnWorks(s: State, a: State, m: State, u: State, me: Consumer, pending: bool, ids: set<Id>, twins: bool)
    requires PeerLater(s, a, me, twins) && Shape(a) && m == ReadState(a, me, pending) && ids == ReadIds(a, me, pending)
    requires PeerLater(m, u, me, twins) && ids !! LiveOwn(u, me)
    ensures Work(u, me, pending, twins) + (if ids != {} then 1 else 0) <= Work(s, me, pending, twins)
  {
    hide ReadState, ReadIds, LiveOwn, TrimmedOwn, PeerLater, Undelivered;
    PeersReadOn(s, a, me, twins);
    PeersReadOn(m, u, me, twins);
    if pending {
      PendingEffect(a, me);
      SameCursor(a, m);
      ReplyRoom(a, me);
      LiveAfterRead(a, m, me, ids);
      assert LiveOwn(a, me) + ids == LiveOwn(a, me);
      OwnShrinks(s, a, me, twins);
      WorkShrinks(m, u, me, twins, ids);
      EmptySet(ids);
    } else {
      ReadShrinks(a, me);
    }
  }

  lemma SameCursor(a: State, m: State)
    requires m.log == a.log && m.low == a.low && m.cursor == a.cursor
    ensures Undelivered(m) == Undelivered(a)
  {
  }

  lemma DrainEnds(s: State, m: State, t: State, me: Consumer, got: set<Id>, twins: bool)
    requires PeerLater(s, m, me, twins) && PeerLater(m, t, me, twins) && Undelivered(t) == 0 && got <= t.acked
    requires LiveOwn(m, me) == {} || |TrimmedOwn(s, me)| >= READ_COUNT
    ensures DrainedFrom(s, t, me, got, twins)
  {
    hide LiveOwn, TrimmedOwn, Undelivered;
    PeerLaterTransitive(s, m, t, me, twins);
  }

  /** A drain of `me` from s to t that succeeded, having read `got`: nothing is left to read, what it
      read is acknowledged, and so are the live entries it had, unless READ_COUNT or more of its pending
      entries had been trimmed. Without twins it has no live entry left then. */
  ghost predicate DrainedFrom(s: State, t: State, me: Consumer, got: set<Id>, twins: bool) {
    && Undelivered(t) == 0 && got <= t.acked
    && (|TrimmedOwn(s, me)| < READ_COUNT ==>
          LiveOwn(s, me) <= t.acked && (!twins ==> LiveOwn(t, me) == {}))
  }

  /** When nothing is left to read and no consumer has a live entry pending, as after the drains of
      all of them, every entry still in the stream is acknowledged. */
  lemma AllDrained(s: State)
    requires Reachable(s) && Undelivered(s) == 0 && forall c :: LiveOwn(s, c) == {}
    ensures forall i: Id :: s.low <= i < |s.log| ==> i in s.acked
  {
    hide Inv;
    ReachableInv(s);
    ShapeOf(s);
    forall i: Id | s.low <= i < |s.log| ensures i in s.acked {
      assert i in s.pel ==> i in LiveOwn(s, s.pel[i].owner);
    }
  }

  // ----- All drains together -----

  /** The state of a run after its first k steps. */
  function At(s: State, steps: seq<Step>, k: nat): State
    requires Legal(s, steps) && k <= |steps|
    decreases k
  {
    if k == 0 then s else At(Apply(s, steps[0]), steps[1..], k - 1)
  }

  lemma AtSplits(s: State, steps: seq<Step>, k: nat)
    requires Legal(s, steps) && k <= |steps|
    ensures Legal(s, steps[..k]) && At(s, steps, k) == Final(s, steps[..k])
    ensures Legal(At(s, steps, k), steps[k..]) && Final(At(s, steps, k), steps[k..]) == Final(s, steps)
  {
    AtIsFinal(s, steps, k);
    assert steps[..k] + steps[k..] == steps;
    RunSplit(s, steps[..k], steps[k..]);
  }

  lemma {:induction false} AtIsFinal(s: State, steps: seq<Step>, k: nat)
    requires Legal(s, steps) && k <= |steps|
    ensures Legal(s, steps[..k]) && At(s, steps, k) == Final(s, steps[..k])
    decreases k
  {
    hide Enabled, Apply;
    if k > 0 {
      AtIsFinal(Apply(s, steps[0]), steps[1..], k - 1);
      assert steps[..k][1..] == steps[1..][..k - 1] && steps[..k][0] == steps[0];
    }
  }

  lemma AtReached(s: State, steps: seq<Step>, k: nat)
    requires Reachable(s) && Legal(s, steps) && k <= |steps|
    ensures Inv(At(s, steps, k))
  {
    hide Inv, Enabled, Apply;
    AtSplits(s, steps, k);
    StillReachable(s, steps[..k]);
    ReachableInv(At(s, steps, k));
  }

  predicate ReadsAs(step: Step, me: Consumer) {
    (step.ReadNew? && step.reader == me) || (step.ReadOwn? && step.reader == me)
  }

  /** Nobody adds or claims, and only workers read. */
  predicate JointStep(step: Step, workers: set<Consumer>) {
    match step
    case XAdd(_, _) => false
    case Claim(_) => false
    case ReadNew(r) => r in workers
    case ReadOwn(r) => r in workers
    case _ => true
  }

  lemma {:induction false} JointIsPeerRun(s: State, steps: seq<Step>, workers: set<Consumer>, me: Consumer, twins: bool)
    requires Legal(s, steps) && forall step <- steps :: JointStep(step, workers) && (twins || !ReadsAs(step, me))
    ensures PeerRun(s, steps, me, twins)
    decreases |steps|
  {
    hide Enabled, Apply;
    if steps != [] {
      assert JointStep(steps[0], workers);
      JointIsPeerRun(Apply(s, steps[0]), steps[1..], workers, me, twins);
    }
  }

  ghost predicate OwnersIn(s: State, workers: set<Consumer>) {
    forall i <- s.pel :: s.pel[i].owner in workers
  }

  lemma OwnersStayStep(s: State, step: Step, workers: set<Consumer>)
    requires OwnersIn(s, workers) && Enabled(s, step) && JointStep(step, workers)
    ensures OwnersIn(Apply(s, step), workers)
  {
    hide First, Spread, Weight, Batched, Interval;
  }

  lemma {:induction false} OwnersStay(s: State, steps: seq<Step>, workers: set<Consumer>)
    requires OwnersIn(s, workers) && Legal(s, steps) && forall step <- steps :: JointStep(step, workers)
    ensures OwnersIn(Final(s, steps), workers)
    decreases |steps|
  {
    hide Enabled, Apply, OwnersIn;
    if steps != [] {
      assert JointStep(steps[0], workers);
      OwnersStayStep(s, steps[0], workers);
      OwnersStay(Apply(s, steps[0]), steps[1..], workers);
    }
  }

  /** A worker's drain is over after k steps: it had nothing live and nothing to read left, as a successful
      drain has, and it reads no more. */
  ghost predicate OverAt(s: State, steps: seq<Step>, me: Consumer, k: nat)
    requires Legal(s, steps)
  {
    && k <= |steps|
    && LiveOwn(At(s, steps, k), me) == {} && Undelivered(At(s, steps, k)) == 0
    && forall j :: k <= j < |steps| ==> !ReadsAs(steps[j], me)
  }

  lemma StaysOver(s: State, steps: seq<Step>, workers: set<Consumer>, me: Consumer, k: nat)
    requires Reachable(s) && Legal(s, steps) && (forall step <- steps :: JointStep(step, workers))
    requires OverAt(s, steps, me, k)
    ensures LiveOwn(Final(s, steps), me) == {} && Undelivered(Final(s, steps)) == 0
  {
    hide Inv, Enabled, Apply, Undelivered, LiveOwn, TrimmedOwn;
    var t, rest := At(s, steps, k), steps[k..];
    AtSplits(s, steps, k);
    AtReached(s, steps, k);
    JointIsPeerRun(t, rest, workers, me, false);
    PeerRunIsLater(t, rest, me, false);
    PeersReadOn(t, Final(s, steps), me, false);
  }

  /** The drains of all workers at once, as a supervisor's stop runs them: whatever the interleaving of their
      commands, of flushes under way and of reconciliations, when each drain is over every entry still in
      the stream is acknowledged. */
  lemma JointDrain(s: State, steps: seq<Step>, workers: set<Consumer>, ends: map<Consumer, nat>)
    requires Reachable(s) && Legal(s, steps) && (forall step <- steps :: JointStep(step, workers))
    requires workers != {} && OwnersIn(s, workers)
    requires forall w <- workers :: w in ends && OverAt(s, steps, w, ends[w])
    ensures var t := Final(s, steps); forall i: Id :: t.low <= i < |t.log| ==> i in t.acked
  {
    hide Enabled, Apply, OverAt, Undelivered, JointStep;
    var t := Final(s, steps);
    forall w <- workers ensures LiveOwn(t, w) == {} && Undelivered(t) == 0 {
      StaysOver(s, steps, workers, w, ends[w]);
    }
    OwnersStay(s, steps, workers);
    forall c ensures LiveOwn(t, c) == {} {
      if c !in workers { assert Owned(t, c) == {}; }
    }
    var w := SomeMember(workers);
    StillReachable(s, steps);
    AllDrained(t);
  }

  /** A drain during a run: under which name, after which step it began and ended, and what it read. */
  datatype DrainRun = DrainRun(me: Consumer, from: nat, to: nat, got: set<Id>)

  /** It succeeded, with fewer than READ_COUNT of its entries trimmed. */
  ghost predicate Succeeded(s: State, steps: seq<Step>, d: DrainRun)
    requires Legal(s, steps)
  {
    && d.from <= d.to <= |steps|
    && DrainedFrom(At(s, steps, d.from), At(s, steps, d.to), d.me, d.got, true)
    && |TrimmedOwn(At(s, steps, d.from), d.me)| < READ_COUNT
  }

  lemma DrainSettles(s: State, steps: seq<Step>, workers: set<Consumer>, d: DrainRun)
    requires Reachable(s) && Legal(s, steps) && (forall step <- steps :: JointStep(step, workers))
    requires Succeeded(s, steps, d)
    ensures var t := Final(s, steps);
            && LiveOwn(s, d.me) + d.got <= t.acked && t.low == s.low && t.log == s.log && s.acked <= t.acked
            && Undelivered(t) == 0
  {
    hide Inv, Enabled, Apply, Undelivered, LiveOwn, TrimmedOwn;
    var a, b, t := At(s, steps, d.from), At(s, steps, d.to), Final(s, steps);
    AtSplits(s, steps, d.from);
    AtSplits(s, steps, d.to);
    AtReached(s, steps, d.from);
    AtReached(s, steps, d.to);
    ReachableInv(s);
    JointIsPeerRun(a, steps[d.from..], workers, d.me, true);
    PeerRunIsLater(a, steps[d.from..], d.me, true);
    JointIsPeerRun(s, steps[..d.from], workers, d.me, true);
    PeerRunIsLater(s, steps[..d.from], d.me, true);
    JointIsPeerRun(s, steps, workers, d.me, true);
    PeerRunIsLater(s, steps, d.me, true);
    JointIsPeerRun(b, steps[d.to..], workers, d.me, true);
    PeerRunIsLater(b, steps[d.to..], d.me, true);
    PeersReadOn(b, t, d.me, true);
  }

  ghost predicate DrainedName(drains: seq<DrainRun>, c: Consumer) { exists d <- drains :: d.me == c }
  ghost predicate DrainedEntry(drains: seq<DrainRun>, i: Id) { exists d <- drains :: i in d.got }

  /** Processes with the same consumer names drain together, too: when the drains cover the names that
      own pending entries and have read between them whatever was read, all that is still in the stream
      is acknowledged. */
  lemma JointDrainOfTwins(s: State, steps: seq<Step>, workers: set<Consumer>, drains: seq<DrainRun>)
    requires Reachable(s) && Legal(s, steps) && (forall step <- steps :: JointStep(step, workers))
    requires drains != [] && forall d <- drains :: Succeeded(s, steps, d)
    requires forall i <- s.pel :: DrainedName(drains, s.pel[i].owner)
    requires forall i <- Interval(NextRead(s), Final(s, steps).cursor) :: DrainedEntry(drains, i)
    ensures var t := Final(s, steps); forall i: Id :: t.low <= i < |t.log| ==> i in t.acked
  {
    hide Enabled, Apply, Succeeded, JointStep, Inv, Shape, TrimmedOwn, LiveOwn, Undelivered;
    var t := Final(s, steps);
    forall d <- drains ensures LiveOwn(s, d.me) + d.got <= t.acked { DrainSettles(s, steps, workers, d); }
    assert drains[0] in drains;
    DrainSettles(s, steps, workers, drains[0]);
    ReachableInv(s);
    ShapeOf(s);
    forall i: Id | t.low <= i < |t.log| ensures i in t.acked {
      Whereabouts(s, t, i);
      if i in s.pel {
        assert DrainedName(drains, s.pel[i].owner);
        var d :| d in drains && d.me == s.pel[i].owner;
        assert i in LiveOwn(s, d.me) + d.got;
      } else if i !in s.acked {
        assert DrainedEntry(drains, i);
        var d :| d in drains && i in d.got;
        assert i in LiveOwn(s, d.me) + d.got;
      }
    }
  }

  lemma Whereabouts(s: State, t: State, i: Id)
    requires Shape(s) && t.low == s.low && t.log == s.log && Undelivered(t) == 0 && s.low <= i < |s.log|
    ensures i in s.pel ==> i in LiveOwn(s, s.pel[i].owner)
    ensures i in s.pel || i in s.acked || i in Interval(NextRead(s), t.cursor)
  {
  }

  // ----- Hidden entries -----

  /** A consumer whose own live entries hide behind READ_COUNT trimmed ones: a drain reads none of them. */
  ghost predicate Hidden(s: State, me: Consumer) {
    |TrimmedOwn(s, me)| >= READ_COUNT && LiveOwn(s, me) != {} && ReadIds(s, me, true) == {}
  }

  /** Such a state is reachable: 26 reads cut short before their flush, and then enough requests to
      trim a full stream node of 100 entries. */
  lemma HiddenIsReachable(p: Ping, me: Consumer) returns (steps: seq<Step>)
    ensures Legal(Init(), steps) && Hidden(Final(Init(), steps), me)
  {
    hide Legal, Final, Enabled, Apply, Live, Owned, Hidden, Interval;
    NoStepsYet();
    steps := PublishMany([], 104, p);
    steps := ReadMany(steps, 26, me);
    steps := PublishMany(steps, STREAM_MAX_LEN - 5, p);
    var s := Final(Init(), steps);
    var more := PublishOne(s, p, 100);
    RunConcat(Init(), steps, more);
    steps := steps + more;
    HiddenBehind(Final(Init(), steps), me);
  }

  lemma NoStepsYet()
    ensures Legal(Init(), []) && Final(Init(), []) == Init()
  {
  }

  lemma HiddenBehind(s: State, me: Consumer)
    requires s.low == 100 && s.pel.Keys == Interval(0, 104) && forall i <- s.pel :: s.pel[i].owner == me
    ensures Hidden(s, me)
  {
    hide First, Interval;
    assert 100 in LiveOwn(s, me);
    assert TrimmedOwn(s, me) == Interval(0, 100);
    ReplyRoom(s, me);
  }
}
