/** The admission gate of save_points: how far check-then-publish can overshoot, that the
    bound is reached, and what the gate does not prevent. */
module Gate {
  import opened Settings
  import opened Pings
  import opened Ledger
  import opened Protocol
  import opened Invariant
  import opened Delivery
  import opened Runs

  /** Requests that passed the gate and whose INCRBY may still run. */
  function InFlight(pubs: seq<Publication>): nat {
    if pubs == [] then 0
    else InFlight(pubs[..|pubs| - 1]) + if pubs[|pubs| - 1].stage == Open then 1 else 0
  }

  /** The pings they were admitted with. */
  function Owed(pubs: seq<Publication>): nat {
    if pubs == [] then 0
    else Owed(pubs[..|pubs| - 1]) + if pubs[|pubs| - 1].stage == Open then pubs[|pubs| - 1].Total() else 0
  }

  /** At most m requests are in flight in every state of the run. */
  ghost predicate Crowd(s: State, steps: seq<Step>, m: nat)
    requires Legal(s, steps)
    decreases |steps|
  {
    InFlight(s.pubs) <= m && (steps == [] || Crowd(Apply(s, steps[0]), steps[1..], m))
  }

  lemma InFlightAppend(pubs: seq<Publication>, pub: Publication)
    requires pub.stage == Open
    ensures InFlight(pubs + [pub]) == InFlight(pubs) + 1
    ensures Owed(pubs + [pub]) == Owed(pubs) + pub.Total()
  {
    assert (pubs + [pub])[..|pubs|] == pubs;
  }

  lemma {:induction false} InFlightUpdate(pubs: seq<Publication>, p: nat, pub: Publication)
    requires p < |pubs| && pubs[p].stage == Open && pub.Total() == pubs[p].Total()
    ensures InFlight(pubs[p := pub]) == InFlight(pubs) - if pub.stage == Open then 0 else 1
    ensures Owed(pubs[p := pub]) == Owed(pubs) - if pub.stage == Open then 0 else pub.Total()
  {
    var last := |pubs| - 1;
    if p == last {
      assert pubs[p := pub][..last] == pubs[..last];
    } else {
      assert pubs[p := pub][..last] == pubs[..last][p := pub];
      InFlightUpdate(pubs[..last], p, pub);
    }
  }

  lemma {:induction false} OwedBounded(pubs: seq<Publication>)
    requires forall pub <- pubs :: pub.Total() <= MAX_HTTP_BATCH_SIZE
    ensures Owed(pubs) <= MAX_HTTP_BATCH_SIZE * InFlight(pubs)
  {
    if pubs != [] {
      OwedBounded(pubs[..|pubs| - 1]);
      assert pubs[|pubs| - 1] in pubs;
    }
  }

  lemma OvershootStep(s: State, step: Step, m: nat)
    requires Inv(s) && Enabled(s, step) && InFlight(Apply(s, step).pubs) <= m
    requires s.counter + Owed(s.pubs) <= BACKLOG_LIMIT + m * MAX_HTTP_BATCH_SIZE
    ensures var t := Apply(s, step);
            t.counter + Owed(t.pubs) <= BACKLOG_LIMIT + m * MAX_HTTP_BATCH_SIZE
  {
    hide Batched, Spread, Tally, PubTally, Stale, Vanished, First;
    var t := Apply(s, step);
    StepKeepsInv(s, step);
    forall pub <- t.pubs ensures pub.Total() <= MAX_HTTP_BATCH_SIZE { assert PubOk(pub, t.log); }
    OwedBounded(t.pubs);
    match step
    case Admit(_) => InFlightAppend(s.pubs, t.pubs[|s.pubs|]);
    case XAdd(p, _) => InFlightUpdate(s.pubs, p, t.pubs[p]);
    case IncrBy(p) => InFlightUpdate(s.pubs, p, t.pubs[p]);
    case Abandon(p) => InFlightUpdate(s.pubs, p, t.pubs[p]);
    case _ =>
  }

  lemma {:induction false} OvershootRun(done: seq<Step>, s: State, steps: seq<Step>, m: nat)
    requires Legal(Init(), done) && s == Final(Init(), done)
    requires Legal(s, steps) && Crowd(s, steps, m)
    requires s.counter + Owed(s.pubs) <= BACKLOG_LIMIT + m * MAX_HTTP_BATCH_SIZE
    ensures var t := Final(s, steps);
            t.counter + Owed(t.pubs) <= BACKLOG_LIMIT + m * MAX_HTTP_BATCH_SIZE
    decreases |steps|
  {
    hide Inv, Enabled, Apply, Spread, Owed, InFlight;
    if steps != [] {
      assert Reachable(s);
      ReachableInv(s);
      OvershootStep(s, steps[0], m);
      RunExtend(Init(), done, steps[0]);
      OvershootRun(done + [steps[0]], Apply(s, steps[0]), steps[1..], m);
    }
  }

  /** With at most m requests in flight at any time, the counter plus the pings admitted but not
      yet counted never exceeds the limit by more than m full requests; acks, double
      decrements and resets included. */
  lemma OvershootBounded(steps: seq<Step>, m: nat)
    requires Legal(Init(), steps) && Crowd(Init(), steps, m)
    ensures var t := Final(Init(), steps);
            t.counter + Owed(t.pubs) <= BACKLOG_LIMIT + m * MAX_HTTP_BATCH_SIZE
  {
    OvershootRun([], Init(), steps, m);
  }

  // ----- The bound is reached -----

  lemma CrowdPrepend(s: State, step: Step, steps: seq<Step>, m: nat)
    requires Enabled(s, step) && Legal(Apply(s, step), steps)
    requires InFlight(s.pubs) <= m && Crowd(Apply(s, step), steps, m)
    ensures Legal(s, [step] + steps) && Crowd(s, [step] + steps, m)
    ensures Final(s, [step] + steps) == Final(Apply(s, step), steps)
  {
    RunPrepend(s, step, steps);
    assert ([step] + steps)[1..] == steps;
  }

  lemma {:induction false} CrowdConcat(s: State, first: seq<Step>, second: seq<Step>, m: nat)
    requires Legal(s, first) && Legal(Final(s, first), second)
    requires Crowd(s, first, m) && Crowd(Final(s, first), second, m)
    ensures Legal(s, first + second) && Crowd(s, first + second, m)
    decreases |first|
  {
    hide Enabled, Apply;
    if first == [] {
      assert first + second == second;
    } else {
      CrowdConcat(Apply(s, first[0]), first[1..], second, m);
      CrowdPrepend(s, first[0], first[1..] + second, m);
      assert first + second == [first[0]] + (first[1..] + second);
    }
  }

  /** A request past the gate runs its XADDs and its INCRBY without interruption. */
  lemma FinishRequest(s: State, p: nat, m: nat) returns (steps: seq<Step>)
    requires p < |s.pubs| && s.pubs[p].stage == Open && InFlight(s.pubs) <= m
    ensures Legal(s, steps) && Crowd(s, steps, m)
    ensures var t := Final(s, steps);
            && t.counter == s.counter + s.pubs[p].Total()
            && InFlight(t.pubs) == InFlight(s.pubs) - 1
            && |t.pubs| == |s.pubs|
            && forall q :: 0 <= q < |s.pubs| && q != p ==> t.pubs[q] == s.pubs[q]
    decreases |s.pubs[p].todo|
  {
    var step := if s.pubs[p].todo == [] then IncrBy(p) else XAdd(p, s.low);
    var t := Apply(s, step);
    InFlightUpdate(s.pubs, p, t.pubs[p]);
    var rest: seq<Step> := [];
    if s.pubs[p].todo != [] {
      rest := FinishRequest(t, p, m);
    }
    CrowdPrepend(s, step, rest, m);
    steps := [step] + rest;
  }

  function FullRequest(p: Ping): seq<Ping> { seq(MAX_HTTP_BATCH_SIZE, _ => p) }

  /** k full requests pass the gate one after the other, before any of them publishes. */
  lemma {:induction false} AdmitMany(s: State, k: nat, p: Ping, m: nat) returns (steps: seq<Step>)
    requires Backlog(s) <= BACKLOG_LIMIT && InFlight(s.pubs) + k <= m
    ensures Legal(s, steps) && Crowd(s, steps, m)
    ensures var t := Final(s, steps);
            && t.counter == s.counter && InFlight(t.pubs) == InFlight(s.pubs) + k
            && |t.pubs| == |s.pubs| + k && s.pubs <= t.pubs
            && forall q :: |s.pubs| <= q < |t.pubs| ==>
                 t.pubs[q].stage == Open && t.pubs[q].Total() == MAX_HTTP_BATCH_SIZE
    decreases k
  {
    hide Batched, Spread;
    steps := [];
    if k > 0 {
      var step := Admit(FullRequest(p));
      var t := Apply(s, step);
      InFlightAppend(s.pubs, t.pubs[|s.pubs|]);
      var rest := AdmitMany(t, k - 1, p, m);
      CrowdPrepend(s, step, rest, m);
      steps := [step] + rest;
    }
  }

  /** The last k requests, all admitted, publish one after the other. */
  lemma {:induction false} FinishMany(s: State, k: nat, m: nat) returns (steps: seq<Step>)
    requires k <= |s.pubs| && InFlight(s.pubs) <= m
    requires forall q :: |s.pubs| - k <= q < |s.pubs| ==>
               s.pubs[q].stage == Open && s.pubs[q].Total() == MAX_HTTP_BATCH_SIZE
    ensures Legal(s, steps) && Crowd(s, steps, m)
    ensures var t := Final(s, steps);
            t.counter == s.counter + k * MAX_HTTP_BATCH_SIZE && InFlight(t.pubs) + k == InFlight(s.pubs)
    decreases k
  {
    steps := [];
    if k > 0 {
      steps := FinishRequest(s, |s.pubs| - k, m);
      var rest := FinishMany(Final(s, steps), k - 1, m);
      CrowdConcat(s, steps, rest, m);
      RunConcat(s, steps, rest);
      steps := steps + rest;
    }
  }

  /** A volley: k requests pass the gate together and then all publish. */
  lemma Volley(s: State, k: nat, p: Ping, m: nat) returns (steps: seq<Step>)
    requires Backlog(s) <= BACKLOG_LIMIT && InFlight(s.pubs) + k <= m
    ensures Legal(s, steps) && Crowd(s, steps, m)
    ensures var t := Final(s, steps);
            t.counter == s.counter + k * MAX_HTTP_BATCH_SIZE && InFlight(t.pubs) == InFlight(s.pubs)
  {
    var admits := AdmitMany(s, k, p, m);
    var finishes := FinishMany(Final(s, admits), k, m);
    CrowdConcat(s, admits, finishes, m);
    RunConcat(s, admits, finishes);
    steps := admits + finishes;
  }

  /** Full requests, one at a time, fill the backlog to any multiple of their size up to the limit. */
  lemma {:induction false} Fill(k: nat, p: Ping, m: nat) returns (steps: seq<Step>)
    requires k * MAX_HTTP_BATCH_SIZE <= BACKLOG_LIMIT && m > 0
    ensures Legal(Init(), steps) && Crowd(Init(), steps, m)
    ensures var t := Final(Init(), steps);
            t.counter == k * MAX_HTTP_BATCH_SIZE && InFlight(t.pubs) == 0
    decreases k
  {
    steps := [];
    if k > 0 {
      steps := Fill(k - 1, p, m);
      var rest := Volley(Final(Init(), steps), 1, p, m);
      CrowdConcat(Init(), steps, rest, m);
      RunConcat(Init(), steps, rest);
      steps := steps + rest;
    }
  }

  /** The overshoot bound is exact: for every m some run with at most m requests in flight
      brings the counter to the limit plus m full requests. */
  lemma OvershootReached(m: nat, p: Ping) returns (steps: seq<Step>)
    requires m > 0
    ensures Legal(Init(), steps) && Crowd(Init(), steps, m)
    ensures Final(Init(), steps).counter == BACKLOG_LIMIT + m * MAX_HTTP_BATCH_SIZE
  {
    steps := Fill(BACKLOG_LIMIT / MAX_HTTP_BATCH_SIZE, p, m);
    var rest := Volley(Final(Init(), steps), m, p, m);
    CrowdConcat(Init(), steps, rest, m);
    RunConcat(Init(), steps, rest);
    steps := steps + rest;
  }

  // ----- What the gate does not prevent -----

  /** Entries in a full stream node of small entries, the unit in which XADD MAXLEN ~ trims. */
  const NODE_ENTRIES := 100

  /** The gate counts pings while the stream is capped in entries: small requests that nobody reads
      lose a whole node of entries to trimming long before the gate closes. */
  lemma LossWithOpenGate(p: Ping) returns (steps: seq<Step>)
    ensures Legal(Init(), steps)
    ensures var t := Final(Init(), steps);
            && (forall i: Id :: IsLost(t, i) <==> i < NODE_ENTRIES)
            && Backlog(t) == STREAM_MAX_LEN + NODE_ENTRIES < BACKLOG_LIMIT
  {
    hide Enabled, Apply;
    steps := PublishMany([], STREAM_MAX_LEN + NODE_ENTRIES - 1, p);
    var more := PublishOne(Final(Init(), steps), p, NODE_ENTRIES);
    RunConcat(Init(), steps, more);
    steps := steps + more;
  }
}
