/** What XAUTOCLAIM takes, and which pending entries rounds of claiming and flushing recover. */
module Recovery {
  import opened Settings
  import opened Pings
  import opened Ledger
  import opened Protocol
  import opened Runs
  import opened Sets

  // ----- The lowest ids of a set -----

  lemma FirstIsLowest(all: set<Id>, n: nat, i: Id, j: Id)
    requires i in First(all, n) && j in all && j < i
    ensures j in First(all, n)
  {
    SubsetSize(Below(all, j), Below(all, i));
  }

  lemma Least(all: set<Id>) returns (least: Id)
    requires all != {}
    ensures least in all && forall i <- all :: least <= i
    decreases |all|
  {
    least :| least in all;
    if all != {least} {
      var other := Least(all - {least});
      assert all - {least} + {least} == all;
      if other < least { least := other; }
    }
  }

  lemma FirstWithoutLeast(all: set<Id>, n: nat, least: Id, i: Id)
    requires n > 0 && least in all && forall j <- all :: least <= j
    ensures i in First(all, n) <==> i == least || i in First(all - {least}, n - 1)
  {
    if i == least {
      assert Below(all, i) == {};
    } else if i in all {
      var rest := Below(all - {least}, i);
      assert Below(all, i) == rest + {least} && least !in rest;
    }
  }

  lemma FirstOfNone(all: set<Id>, n: nat)
    requires n == 0 || all == {}
    ensures First(all, n) == {}
  {
  }

  lemma {:induction false} FirstSize(all: set<Id>, n: nat)
    ensures |First(all, n)| == if |all| < n then |all| else n
    decreases n
  {
    hide First;
    if n == 0 || all == {} {
      FirstOfNone(all, n);
    } else {
      var least := Least(all);
      var rest := all - {least};
      var some := First(rest, n - 1);
      FirstSize(rest, n - 1);
      forall i: Id ensures i in First(all, n) <==> i in some + {least} { FirstWithoutLeast(all, n, least, i); }
      assert First(all, n) == some + {least} && least !in some;
    }
  }

  lemma FirstEmptyIff(all: set<Id>, n: nat)
    requires n > 0
    ensures First(all, n) == {} <==> all == {}
  {
    FirstSize(all, n);
    if all != {} { assert |all| > 0; }
  }

  // ----- Rounds of claims, on sets of ids -----

  /** What a claim takes out of the pending ids, of which `due` are stale or trimmed. */
  function Take(pending: set<Id>, due: set<Id>): (taken: set<Id>)
    ensures taken <= due
  {
    First(First(pending, CLAIM_SCAN) * due, READ_COUNT)
  }

  /** A claim takes nothing if and only if none of the first CLAIM_SCAN pending entries is due. */
  lemma TakesNothingIff(pending: set<Id>, due: set<Id>)
    ensures Take(pending, due) == {} <==> First(pending, CLAIM_SCAN) * due == {}
  {
    hide First;
    var scanned := First(pending, CLAIM_SCAN);
    FirstEmptyIff(scanned * due, READ_COUNT);
  }

  /** The due ids left after k rounds. */
  function Left(pending: set<Id>, due: set<Id>, k: nat): (rest: set<Id>)
    ensures rest <= due
  {
    if k == 0 then due
    else Left(pending - Take(pending, due), due - Take(pending, due), k - 1)
  }

  lemma FreshStay(pending: set<Id>, due: set<Id>, taken: set<Id>)
    requires due <= pending && taken <= due
    ensures due - taken <= pending - taken && (pending - taken) - (due - taken) == pending - due
  {
  }

  /** As long as some due entry has fewer than CLAIM_SCAN fresh ones below it, claims take something. */
  lemma TakesSomething(pending: set<Id>, due: set<Id>, i: Id)
    requires due <= pending && i in due && |Below(pending - due, i)| < CLAIM_SCAN
    ensures Take(pending, due) != {}
  {
    hide First;
    TakesNothingIff(pending, due);
    var scanned, notDue := First(pending, CLAIM_SCAN), pending - due;
    if scanned * due == {} {
      assert i !in scanned * due;
      forall j <- scanned ensures j in Below(notDue, i) {
        assert j !in scanned * due;
        if i < j { FirstIsLowest(pending, CLAIM_SCAN, j, i); }
      }
      SubsetSize(scanned, Below(notDue, i));
      FirstSize(pending, CLAIM_SCAN);
      SubsetSize(scanned, pending);
      EmptySet(pending - scanned);
    }
  }

  lemma {:induction false} LeftWithout(pending: set<Id>, due: set<Id>, i: Id, k: nat)
    requires due <= pending && i in due && |Below(pending - due, i)| < CLAIM_SCAN && k >= |due|
    ensures i !in Left(pending, due, k)
    decreases k
  {
    hide Take;
    var taken := Take(pending, due);
    TakesSomething(pending, due, i);
    SubsetSize(taken, due);
    if i !in taken {
      FreshStay(pending, due, taken);
      LeftWithout(pending - taken, due - taken, i, k - 1);
    }
  }

  lemma {:induction false} LeftWith(pending: set<Id>, due: set<Id>, i: Id, k: nat)
    requires due <= pending && i in due && |Below(pending - due, i)| >= CLAIM_SCAN
    ensures i in Left(pending, due, k)
    decreases k
  {
    if k > 0 {
      var taken := Take(pending, due);
      SubsetSize(Below(pending - due, i), Below(pending, i));
      FreshStay(pending, due, taken);
      LeftWith(pending - taken, due - taken, i, k - 1);
    }
  }

  /** When everything pending is due, each round takes READ_COUNT entries as long as there are so many. */
  lemma {:induction false} LeftOfAllDue(pending: set<Id>, k: nat)
    ensures |Left(pending, pending, k)| == if |pending| < k * READ_COUNT then 0 else |pending| - k * READ_COUNT
    decreases k
  {
    if k > 0 {
      var taken := Take(pending, pending);
      assert First(pending, CLAIM_SCAN) * pending == First(pending, CLAIM_SCAN);
      FirstSize(pending, CLAIM_SCAN);
      FirstSize(First(pending, CLAIM_SCAN), READ_COUNT);
      SubsetSize(taken, pending);
      LeftOfAllDue(pending - taken, k - 1);
    }
  }

  // ----- Rounds of claims, as runs -----

  function Due(s: State): set<Id> { Stale(s) + Vanished(s) }

  /** A claim takes as many candidates as there are, up to READ_COUNT. */
  lemma TakenSize(s: State)
    ensures |Taken(s)| == if |Candidates(s)| < READ_COUNT then |Candidates(s)| else READ_COUNT
    ensures |s.pel.Keys - Taken(s)| == |s.pel.Keys| - |Taken(s)|
  {
    hide First;
    FirstSize(Candidates(s), READ_COUNT);
    SubsetSize(Taken(s), s.pel.Keys);
  }

  /** It takes nothing if and only if the first CLAIM_SCAN pending entries are all fresh and in the stream. */
  lemma ClaimTakesNothingIff(s: State)
    ensures Taken(s) == {} <==>
            forall i <- First(s.pel.Keys, CLAIM_SCAN) :: s.low <= i && s.now < s.pel[i].since + CLAIM_IDLE_MS
  {
    hide First;
    TakesNothingIff(s.pel.Keys, Due(s));
    var scanned := First(s.pel.Keys, CLAIM_SCAN);
    forall i <- scanned ensures i in Due(s) <==> !(s.low <= i && s.now < s.pel[i].since + CLAIM_IDLE_MS) {}
    if i :| i in scanned && i in Due(s) { assert i in scanned * Due(s); }
  }

  /** The steps one consumer can take on its own, with flush attempts from the nth on. */
  predicate OwnStep(step: Step, reader: Consumer, n: nat) {
    match step
    case ReadNew(r) => r == reader
    case Claim(r) => r == reader
    case Commit(b) => b >= n
    case XAck(b) => b >= n
    case DecrBy(b) => b >= n
    case Tick(_) => true
    case _ => false
  }

  ghost predicate OwnSteps(steps: seq<Step>, reader: Consumer, n: nat) {
    forall step <- steps :: OwnStep(step, reader, n)
  }

  /** What flushing a batch of pending entries does to the stream. */
  ghost predicate Acknowledged(s: State, t: State, ids: set<Id>) {
    && t.acked == s.acked + ids && t.pel == s.pel - ids && |t.batches| == |s.batches|
    && t.log == s.log && t.low == s.low && t.cursor == s.cursor && t.now == s.now
  }

  function FlushSteps(b: nat): seq<Step> { [Commit(b), XAck(b), DecrBy(b)] }

  lemma FlushRun(s: State, b: nat)
    requires b < |s.batches| && s.batches[b].stage == Held
    requires s.batches[b].ids != {} && s.batches[b].ids <= s.pel.Keys
    ensures Legal(s, FlushSteps(b)) && Acknowledged(s, Final(s, FlushSteps(b)), s.batches[b].ids)
  {
    hide First, Spread, Weight, Batched;
    var ids := s.batches[b].ids;
    var t1 := Apply(s, Commit(b));
    var t2 := Apply(t1, XAck(b));
    var t3 := Apply(t2, DecrBy(b));
    assert ids * s.pel.Keys == ids;
    RunPrepend(t2, DecrBy(b), []);
    RunPrepend(t1, XAck(b), [DecrBy(b)] + []);
    RunPrepend(s, Commit(b), [XAck(b)] + ([DecrBy(b)] + []));
    assert FlushSteps(b) == [Commit(b)] + ([XAck(b)] + ([DecrBy(b)] + []));
    assert Final(s, FlushSteps(b)) == t3;
  }

  /** A claim, and the flush of what it took over, if anything. */
  function Round(s: State, reader: Consumer): seq<Step> {
    [Claim(reader)] + if Live(s, Taken(s)) == {} then [] else FlushSteps(|s.batches|)
  }

  lemma TakeOverAndDrop<V>(pel: map<Id, V>, after: map<Id, V>, ids: set<Id>, gone: set<Id>)
    requires ids !! gone && after.Keys == pel.Keys + ids - gone
    requires forall i <- pel :: i !in ids && i !in gone ==> after[i] == pel[i]
    ensures after - ids == pel - (ids + gone) && ids <= after.Keys
  {
  }

  lemma ClaimEffect(s: State, reader: Consumer)
    ensures var m, ids := Apply(s, Claim(reader)), Live(s, Taken(s));
            && |m.batches| == |s.batches| + 1 && m.batches[|s.batches|] == Batch(reader, ids, {}, Held)
            && ids <= m.pel.Keys && m.pel - ids == s.pel - Taken(s)
            && m.acked == s.acked && m.log == s.log && m.low == s.low && m.cursor == s.cursor && m.now == s.now
  {
    hide First, Spread, Weight, Batched;
    var m, ids, gone := Apply(s, Claim(reader)), Live(s, Taken(s)), Taken(s) - Live(s, Taken(s));
    TakeOverAndDrop(s.pel, m.pel, ids, gone);
    assert ids + gone == Taken(s);
  }

  /** One round: what the claim takes leaves the pending list, acknowledged if still in the stream. */
  ghost predicate RoundDone(s: State, t: State) {
    && t.pel == s.pel - Taken(s) && t.acked == s.acked + Live(s, Taken(s))
    && |s.batches| <= |t.batches|
    && t.log == s.log && t.low == s.low && t.cursor == s.cursor && t.now == s.now
  }

  lemma RoundRun(s: State, reader: Consumer)
    ensures Legal(s, Round(s, reader)) && OwnSteps(Round(s, reader), reader, |s.batches|)
    ensures RoundDone(s, Final(s, Round(s, reader)))
  {
    hide Taken, Apply, Live, Enabled, Legal, Final;
    ClaimEnabled(s, reader);
    var m, ids := Apply(s, Claim(reader)), Live(s, Taken(s));
    ClaimEffect(s, reader);
    if ids == {} {
      NoSteps(m);
      RunPrepend(s, Claim(reader), []);
      assert m.pel - ids == m.pel;
    } else {
      FlushRun(m, |s.batches|);
      RunPrepend(s, Claim(reader), FlushSteps(|s.batches|));
    }
  }

  lemma ClaimEnabled(s: State, reader: Consumer)
    ensures Enabled(s, Claim(reader))
  {
  }

  /** The state after k rounds of one consumer that nobody disturbs. */
  ghost function AfterRounds(s: State, reader: Consumer, k: nat): State
    decreases k
  {
    if k == 0 then s
    else
      RoundRun(s, reader);
      AfterRounds(Final(s, Round(s, reader)), reader, k - 1)
  }

  lemma DueAfterRound(s: State, t: State)
    requires RoundDone(s, t)
    ensures Due(s) <= s.pel.Keys && Taken(s) == Take(s.pel.Keys, Due(s))
    ensures t.pel.Keys == s.pel.Keys - Taken(s) && Due(t) == Due(s) - Taken(s)
  {
    hide First;
  }

  /** The rounds are a legal run of the consumer's own steps, and leave pending what was fresh and
      what is left of the due entries; everything else still in the stream is acknowledged. */
  lemma {:induction false} RoundsRun(s: State, reader: Consumer, k: nat, n: nat) returns (steps: seq<Step>)
    requires n <= |s.batches|
    ensures Legal(s, steps) && OwnSteps(steps, reader, n) && Final(s, steps) == AfterRounds(s, reader, k)
    ensures var t, left := AfterRounds(s, reader, k), Left(s.pel.Keys, Due(s), k);
            && t.pel.Keys == s.pel.Keys - Due(s) + left && t.low == s.low && s.acked <= t.acked
            && forall i <- Due(s) - left :: s.low <= i ==> i in t.acked
    decreases k
  {
    hide First, Round, Due, Taken, Take, Legal, Final;
    if k == 0 {
      steps := [];
      NoSteps(s);
      DueIsPending(s);
    } else {
      RoundRun(s, reader);
      var t := Final(s, Round(s, reader));
      DueAfterRound(s, t);
      var rest := RoundsRun(t, reader, k - 1, n);
      RunConcat(s, Round(s, reader), rest);
      steps := Round(s, reader) + rest;
    }
  }

  lemma NoSteps(s: State)
    ensures Legal(s, []) && Final(s, []) == s
  {
  }

  lemma DueIsPending(s: State)
    ensures Due(s) <= s.pel.Keys
  {
  }

  /** The entries that hide i from every claim: pending below it, neither stale nor trimmed. */
  function Blocking(s: State, i: Id): set<Id> { Below(s.pel.Keys - Due(s), i) }

  /** Repeated claims recover a stale entry, to an acknowledgement, if and only if fewer than
      CLAIM_SCAN pending entries block it; then as many rounds as there are stale and trimmed
      entries are enough. */
  lemma StaleRecoveredIff(s: State, reader: Consumer, i: Id)
    requires i in Stale(s)
    ensures (exists k: nat :: i !in AfterRounds(s, reader, k).pel) <==> |Blocking(s, i)| < CLAIM_SCAN
    ensures forall k: nat :: i !in AfterRounds(s, reader, k).pel ==> i in AfterRounds(s, reader, k).acked
    ensures |Blocking(s, i)| < CLAIM_SCAN ==> i !in AfterRounds(s, reader, |Due(s)|).pel
  {
    hide First, Left, AfterRounds;
    DueIsPending(s);
    var pending, due := s.pel.Keys, Due(s);
    forall k: nat
      ensures i !in AfterRounds(s, reader, k).pel <==> i !in Left(pending, due, k)
      ensures i !in AfterRounds(s, reader, k).pel ==> i in AfterRounds(s, reader, k).acked
    {
      var _ := RoundsRun(s, reader, k, 0);
    }
    if |Blocking(s, i)| < CLAIM_SCAN {
      LeftWithout(pending, due, i, |due|);
      assert i !in AfterRounds(s, reader, |due|).pel;
    } else {
      forall k: nat ensures i in Left(pending, due, k) { LeftWith(pending, due, i, k); }
    }
  }

  /** When every pending entry has been idle long enough or been trimmed, k rounds take exactly
      k times READ_COUNT of them, or all. */
  lemma RoundsTakeCount(s: State, reader: Consumer, k: nat)
    requires Due(s) == s.pel.Keys
    ensures var t := AfterRounds(s, reader, k);
            |t.pel.Keys| == if |s.pel.Keys| < k * READ_COUNT then 0 else |s.pel.Keys| - k * READ_COUNT
  {
    hide Left, AfterRounds;
    var _ := RoundsRun(s, reader, k, 0);
    LeftOfAllDue(s.pel.Keys, k);
    var left := Left(s.pel.Keys, Due(s), k);
    assert s.pel.Keys - Due(s) + left == left;
  }

  // ----- Rounds while time passes -----

  function Elapsed(waits: seq<nat>): nat {
    if waits == [] then 0 else waits[0] + Elapsed(waits[1..])
  }

  /** The state after a round following each wait, with nobody else at work. */
  ghost function AfterWaits(s: State, reader: Consumer, waits: seq<nat>): State
    decreases |waits|
  {
    if waits == [] then s
    else
      var t := Apply(s, Tick(waits[0]));
      RoundRun(t, reader);
      AfterWaits(Final(t, Round(t, reader)), reader, waits[1..])
  }

  /** What a wait and a round do to the pending list. */
  ghost predicate Waited(s: State, t: State, wait: nat) {
    && t.now == s.now + wait && t.low == s.low && s.acked <= t.acked
    && t.pel.Keys <= s.pel.Keys && (forall i <- t.pel :: t.pel[i] == s.pel[i])
    && forall i <- s.pel.Keys - t.pel.Keys :: s.low <= i ==> i in t.acked
  }

  lemma WaitAndRound(s: State, reader: Consumer, wait: nat) returns (t: State)
    ensures forall rest :: AfterWaits(s, reader, [wait] + rest) == AfterWaits(t, reader, rest)
    ensures Waited(s, t, wait)
    ensures (forall i <- s.pel :: s.pel[i].since + CLAIM_IDLE_MS <= s.now + wait) ==>
              |t.pel.Keys| == if |s.pel.Keys| < READ_COUNT then 0 else |s.pel.Keys| - READ_COUNT
  {
    hide First, Legal, Final, Round;
    var m := Apply(s, Tick(wait));
    RoundRun(m, reader);
    t := Final(m, Round(m, reader));
    forall rest ensures AfterWaits(s, reader, [wait] + rest) == AfterWaits(t, reader, rest) {
      assert ([wait] + rest)[1..] == rest;
    }
    if forall i <- s.pel :: s.pel[i].since + CLAIM_IDLE_MS <= s.now + wait {
      AllDueTaken(m);
    }
  }

  lemma AllDueTaken(s: State)
    requires forall i <- s.pel :: s.pel[i].since + CLAIM_IDLE_MS <= s.now
    ensures Taken(s) <= s.pel.Keys && |Taken(s)| == if |s.pel.Keys| < READ_COUNT then |s.pel.Keys| else READ_COUNT
    ensures |s.pel.Keys - Taken(s)| == |s.pel.Keys| - |Taken(s)|
  {
    hide First;
    assert Due(s) == s.pel.Keys;
    assert Candidates(s) == First(s.pel.Keys, CLAIM_SCAN);
    FirstSize(s.pel.Keys, CLAIM_SCAN);
    TakenSize(s);
  }

  /** However the clock advances between the rounds of a consumer that nobody disturbs: what leaves the
      pending list and is still in the stream is acknowledged, and once CLAIM_IDLE_MS have passed, after
      the first n rounds, every further round takes READ_COUNT entries, or all that are left. */
  lemma {:induction false} WaitingRecovers(s: State, reader: Consumer, waits: seq<nat>, n: nat)
    requires n <= |waits| && forall i <- s.pel :: s.pel[i].since + CLAIM_IDLE_MS <= s.now + Elapsed(waits[..n])
    ensures var t := AfterWaits(s, reader, waits);
            && Waited(s, t, Elapsed(waits))
            && (t.pel.Keys == {} || |t.pel.Keys| + (|waits| - n) * READ_COUNT <= |s.pel.Keys|)
    decreases |waits|
  {
    hide Waited, AfterWaits;
    if waits == [] {
      NoWaits(s, reader);
    } else {
      var rest := waits[1..];
      assert waits == [waits[0]] + rest;
      var t := WaitAndRound(s, reader, waits[0]);
      WaitedFacts(s, t, waits[0]);
      if n == 0 {
        WaitingRecovers(t, reader, rest, 0);
        EmptySet(t.pel.Keys);
      } else {
        assert waits[..n][1..] == rest[..n - 1] && waits[..n][0] == waits[0];
        WaitingRecovers(t, reader, rest, n - 1);
      }
      WaitedOn(s, t, AfterWaits(t, reader, rest), waits[0], Elapsed(rest));
    }
  }

  lemma NoWaits(s: State, reader: Consumer)
    ensures AfterWaits(s, reader, []) == s && Waited(s, s, 0)
  {
  }

  lemma WaitedFacts(s: State, t: State, wait: nat)
    requires Waited(s, t, wait)
    ensures t.now == s.now + wait && forall i <- t.pel :: i in s.pel && t.pel[i] == s.pel[i]
    ensures |t.pel.Keys| <= |s.pel.Keys|
  {
    SubsetSize(t.pel.Keys, s.pel.Keys);
  }

  lemma WaitedOn(s: State, t: State, u: State, one: nat, other: nat)
    requires Waited(s, t, one) && Waited(t, u, other)
    ensures Waited(s, u, one + other) && u.pel.Keys <= t.pel.Keys
  {
  }

  // ----- Idle time -----

  /** If pending at all, the entry was last delivered at n or later. */
  ghost predicate DeliveredSince(s: State, i: Id, n: nat) {
    n <= s.now && (i in s.pel ==> s.pel[i].since >= n)
  }

  lemma DeliveredSinceStep(s: State, step: Step, i: Id, n: nat)
    requires DeliveredSince(s, i, n) && Enabled(s, step)
    ensures DeliveredSince(Apply(s, step), i, n)
  {
    hide First, Spread, Weight, Batched, Interval, Stale, Vanished, Candidates;
  }

  lemma {:induction false} DeliveredSinceRun(s: State, steps: seq<Step>, i: Id, n: nat)
    requires DeliveredSince(s, i, n) && Legal(s, steps)
    ensures DeliveredSince(Final(s, steps), i, n)
    decreases |steps|
  {
    hide Enabled, Apply, DeliveredSince;
    if steps != [] {
      DeliveredSinceStep(s, steps[0], i, n);
      DeliveredSinceRun(Apply(s, steps[0]), steps[1..], i, n);
    }
  }

  /** Every delivery, be it a read, another read of a pending entry or a claim, starts the idle time of
      its entries over: whatever runs until CLAIM_IDLE_MS have passed, no claim takes one of them over. */
  lemma DeliveredIsNotClaimed(s: State, step: Step, steps: seq<Step>, i: Id)
    requires Enabled(s, step) && (step.ReadNew? || step.ReadOwn? || step.Claim?)
    requires i in Apply(s, step).batches[|s.batches|].ids && Legal(Apply(s, step), steps)
    ensures var t := Final(Apply(s, step), steps);
            t.now < s.now + CLAIM_IDLE_MS ==> i !in Stale(t) && i !in Live(t, Taken(t))
  {
    hide Final, Legal, First;
    DeliveredNow(s, step, i);
    DeliveredSinceRun(Apply(s, step), steps, i, s.now);
    var t := Final(Apply(s, step), steps);
    if i in Taken(t) { assert i in Candidates(t); }
  }

  lemma DeliveredNow(s: State, step: Step, i: Id)
    requires Enabled(s, step) && (step.ReadNew? || step.ReadOwn? || step.Claim?)
    requires i in Apply(s, step).batches[|s.batches|].ids
    ensures DeliveredSince(Apply(s, step), i, s.now)
  {
    hide First, Spread, Weight, Batched, Interval, Stale, Vanished, Candidates;
  }

  // ----- A blocked entry -----

  lemma FirstOfInterval(a: Id, b: Id, n: nat)
    ensures First(Interval(a, b), n) == Interval(a, if b < a + n then b else a + n)
  {
    hide Interval;
    forall i <- Interval(a, b) ensures |Below(Interval(a, b), i)| == i - a {
      assert Below(Interval(a, b), i) == Interval(a, i);
    }
  }

  /** 44 entries are pending in an otherwise untouched stream, the first c of them claimed just now, the
      others idle for CLAIM_IDLE_MS. */
  ghost predicate Overtaken(s: State, c: nat) {
    && s.low == 0 && s.now == CLAIM_IDLE_MS && s.pel.Keys == Interval(0, CLAIM_SCAN + READ_COUNT)
    && forall i <- s.pel :: s.pel[i].since == if i < c then CLAIM_IDLE_MS else 0
  }

  lemma DueWhenOvertaken(s: State, c: nat)
    requires Overtaken(s, c)
    ensures Due(s) == Interval(c, CLAIM_SCAN + READ_COUNT)
    ensures c <= CLAIM_SCAN ==> Candidates(s) == Interval(c, CLAIM_SCAN)
    ensures c + READ_COUNT <= CLAIM_SCAN ==> Taken(s) == Interval(c, c + READ_COUNT)
  {
    hide Interval, First;
    FirstOfInterval(0, CLAIM_SCAN + READ_COUNT, CLAIM_SCAN);
    assert Due(s) == Interval(c, CLAIM_SCAN + READ_COUNT);
    if c <= CLAIM_SCAN {
      assert Candidates(s) == Interval(c, CLAIM_SCAN);
      FirstOfInterval(c, CLAIM_SCAN, READ_COUNT);
    }
  }

  lemma ClaimPel(s: State, reader: Consumer)
    ensures var t := Apply(s, Claim(reader));
            && t.low == s.low && t.now == s.now
            && t.pel.Keys == s.pel.Keys + Live(s, Taken(s)) - (Taken(s) - Live(s, Taken(s)))
            && forall i <- t.pel :: t.pel[i] == if i in Live(s, Taken(s)) then Pending(reader, s.now) else s.pel[i]
  {
    hide First, Spread, Weight, Batched, Candidates;
  }

  lemma ClaimOvertakes(s: State, c: nat, reader: Consumer)
    requires Overtaken(s, c) && c + READ_COUNT <= CLAIM_SCAN
    ensures Overtaken(Apply(s, Claim(reader)), c + READ_COUNT)
  {
    hide Apply, Taken, Due, Candidates, Interval;
    DueWhenOvertaken(s, c);
    ClaimPel(s, reader);
    assert Live(s, Taken(s)) == Taken(s);
  }

  lemma {:induction false} ClaimMany(steps: seq<Step>, k: nat, reader: Consumer) returns (longer: seq<Step>)
    requires Legal(Init(), steps) && Overtaken(Final(Init(), steps), 0) && k * READ_COUNT <= CLAIM_SCAN
    ensures Legal(Init(), longer) && Overtaken(Final(Init(), longer), k * READ_COUNT)
    decreases k
  {
    hide Enabled, Apply, Legal, Final, Overtaken;
    longer := steps;
    if k > 0 {
      longer := ClaimMany(steps, k - 1, reader);
      ClaimOvertakes(Final(Init(), longer), (k - 1) * READ_COUNT, reader);
      ClaimEnabled(Final(Init(), longer), reader);
      longer := Extend(longer, Claim(reader));
    }
  }

  lemma TickOvertakes(s: State, reader: Consumer)
    requires AllHeld(s, CLAIM_SCAN + READ_COUNT, reader) && s.now == 0
    ensures Enabled(s, Tick(CLAIM_IDLE_MS)) && Overtaken(Apply(s, Tick(CLAIM_IDLE_MS)), 0)
  {
    hide Interval, First;
  }

  /** Blocking happens: one consumer reads 44 entries and stops; another claims the first 40 of them and
      does not get to flush them. The last four are then stale, and no claim takes them. */
  lemma BlockedIsReachable(p: Ping, one: Consumer, other: Consumer) returns (steps: seq<Step>)
    ensures Legal(Init(), steps)
    ensures var t := Final(Init(), steps);
            CLAIM_SCAN in Stale(t) && |Blocking(t, CLAIM_SCAN)| >= CLAIM_SCAN && Taken(t) == {}
  {
    hide Enabled, Apply, Legal, Final, Overtaken;
    NoSteps(Init());
    steps := PublishMany([], CLAIM_SCAN + READ_COUNT, p);
    Untouched(Final(Init(), steps), one);
    steps := ReadMany(steps, 11, one);
    TickOvertakes(Final(Init(), steps), one);
    steps := Extend(steps, Tick(CLAIM_IDLE_MS));
    steps := ClaimMany(steps, 10, other);
    BlockedThen(Final(Init(), steps));
  }

  lemma Untouched(s: State, reader: Consumer)
    requires s.low == 0 && s.cursor == 0 && s.pel == map[]
    ensures AllHeld(s, 0, reader)
  {
  }

  lemma BlockedThen(s: State)
    requires Overtaken(s, CLAIM_SCAN)
    ensures CLAIM_SCAN in Stale(s) && |Blocking(s, CLAIM_SCAN)| >= CLAIM_SCAN && Taken(s) == {}
  {
    hide Interval, First;
    DueWhenOvertaken(s, CLAIM_SCAN);
    assert Blocking(s, CLAIM_SCAN) == Interval(0, CLAIM_SCAN);
    assert Candidates(s) == {};
    FirstEmptyIff(Candidates(s), READ_COUNT);
  }
}
