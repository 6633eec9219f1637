/** Retry delays and periodic ticks. Clock readings and random draws are parameters. */
module Pacing {

  // ----- Backoff -----

  function Power2(n: nat): real {
    if n == 0 then 1.0 else 2.0 * Power2(n - 1)
  }

  function Min(a: real, b: real): real { if a < b then a else b }

  /** The n-th consecutive sleep since the last reset: the first is `start` whatever the limit. */
  function NthDelay(start: real, limit: real, n: nat): real {
    if n == 0 then 0.0
    else if n == 1 then start
    else Min(start * Power2(n - 1), limit)
  }

  lemma {:induction false} NthDelayDoubles(start: real, limit: real, n: nat)
    requires limit > 0.0 && n > 0
    ensures NthDelay(start, limit, n + 1) == Min(NthDelay(start, limit, n) * 2.0, limit)
  {
    assert start * Power2(n) == start * Power2(n - 1) * 2.0;
    if n == 1 { assert Power2(0) == 1.0 && Power2(1) == 2.0; }
  }

  lemma {:induction false} NthDelayNonZero(start: real, limit: real, n: nat)
    requires limit > 0.0 && n > 0
    ensures NthDelay(start, limit, n) == 0.0 <==> start == 0.0
  {
    PowerPositive(n - 1);
    var p := Power2(n - 1);
    if start > 0.0 { assert start * p > 0.0; }
    if start < 0.0 { assert (-start) * p > 0.0; assert start * p == -((-start) * p); }
  }

  lemma {:induction false} PowerPositive(n: nat)
    ensures Power2(n) >= 1.0
  {
    if n > 0 { PowerPositive(n - 1); }
  }

  /** No delay exceeds the limit, if and only if the first one does not. */
  lemma DelayWithinLimitIff(start: real, limit: real)
    requires limit > 0.0
    ensures (forall n: nat :: NthDelay(start, limit, n) <= limit) <==> start <= limit
  {
    assert NthDelay(start, limit, 1) == start;
  }

  class Backoff {
    const start: real
    const limit: real
    var delay: real
    ghost var failures: nat  // sleeps since the last reset

    ghost predicate Valid() reads this {
      limit > 0.0 && delay == NthDelay(start, limit, failures)
    }

    constructor (start: real, limit: real)
      requires limit > 0.0
      ensures Valid() && failures == 0 && this.start == start && this.limit == limit
    {
      this.start, this.limit := start, limit;
      delay := 0.0;
      failures := 0;
    }

    method Reset()
      requires Valid()
      modifies this
      ensures Valid() && failures == 0
    {
      delay := 0.0;
      failures := 0;
    }

    method Sleep() returns (slept: real)
      requires Valid()
      modifies this
      ensures Valid() && failures == old(failures) + 1
      ensures slept == NthDelay(start, limit, failures)
    {
      if failures > 0 {
        NthDelayDoubles(start, limit, failures);
        NthDelayNonZero(start, limit, failures);
      }
      delay := if delay == 0.0 then start else Min(delay * 2.0, limit);
      failures := failures + 1;
      if start == 0.0 { assert NthDelay(start, limit, failures) == 0.0; }
      slept := delay;
    }
  }

  // ----- Ticker -----

  /** One poll of a ticker: the clock, and the interval plus this poll's jitter. */
  datatype Poll = Poll(now: real, period: real)

  /** k intervals. */
  function Span(k: nat, interval: real): real {
    if k == 0 then 0.0 else interval + Span(k - 1, interval)
  }

  /** When a ticker first armed for `firstAt` is next due, after a history of polls. */
  function Armed(firstAt: real, polls: seq<Poll>): real {
    if polls == [] then firstAt
    else
      var last, before := polls[|polls| - 1], Armed(firstAt, polls[..|polls| - 1]);
      if last.now < before then before else last.now + last.period
  }

  /** How often it has fired. */
  function Firings(firstAt: real, polls: seq<Poll>): nat {
    if polls == [] then 0
    else
      var last, init := polls[|polls| - 1], polls[..|polls| - 1];
      Firings(firstAt, init) + if last.now < Armed(firstAt, init) then 0 else 1
  }

  lemma NextPoll(firstAt: real, polls: seq<Poll>, poll: Poll)
    ensures Armed(firstAt, polls + [poll])
         == if poll.now < Armed(firstAt, polls) then Armed(firstAt, polls) else poll.now + poll.period
    ensures Firings(firstAt, polls + [poll])
         == Firings(firstAt, polls) + if poll.now < Armed(firstAt, polls) then 0 else 1
  {
    assert (polls + [poll])[..|polls|] == polls;
  }

  /** However often and unevenly the ticker is polled, k firings take at least k intervals
      from its creation, and the next one is at least a further interval away. */
  lemma {:induction false} FiringsTakeTime(created: real, firstAt: real, polls: seq<Poll>, interval: real)
    requires firstAt >= created + interval
    requires forall p <- polls :: p.period >= interval
    ensures Armed(firstAt, polls) >= created + Span(Firings(firstAt, polls) + 1, interval)
    ensures polls != [] && Firings(firstAt, polls) > Firings(firstAt, polls[..|polls| - 1]) ==>
              polls[|polls| - 1].now - created >= Span(Firings(firstAt, polls), interval)
  {
    if polls != [] {
      var last, init := polls[|polls| - 1], polls[..|polls| - 1];
      assert last in polls;
      FiringsTakeTime(created, firstAt, init, interval);
    }
  }

  class Ticker {
    const interval: real
    var nextAt: real
    ghost const createdAt: real
    ghost const firstAt: real
    ghost var polls: seq<Poll>

    ghost predicate Valid() reads this {
      && firstAt >= createdAt + interval
      && (forall p <- polls :: p.period >= interval)
      && nextAt == Armed(firstAt, polls)
    }

    constructor (now: real, interval: real, period: real)
      requires period >= interval
      ensures Valid() && polls == [] && createdAt == now && this.interval == interval && nextAt == now + period
    {
      this.interval := interval;
      nextAt := now + period;
      createdAt := now;
      firstAt := now + period;
      polls := [];
    }

    method Due(now: real, period: real) returns (due: bool)
      requires Valid() && period >= interval
      modifies this
      ensures Valid() && polls == old(polls) + [Poll(now, period)]
      ensures Firings(firstAt, polls) == old(Firings(firstAt, polls)) + (if due then 1 else 0)
      ensures due <==> now >= old(nextAt)
      ensures nextAt == if due then now + period else old(nextAt)
      ensures due ==> now - createdAt >= Span(Firings(firstAt, polls), interval)
    {
      ghost var before, poll := polls, Poll(now, period);
      NextPoll(firstAt, before, poll);
      polls := before + [poll];
      if now < nextAt { return false; }
      nextAt := now + period;
      due := true;
      assert polls[..|polls| - 1] == before && polls[|polls| - 1] == poll;
      FiringsTakeTime(createdAt, firstAt, polls, interval);
    }
  }
}
