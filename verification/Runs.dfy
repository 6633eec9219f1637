/** Runs built step by step from the initial state, for results that exhibit one. */
module Runs {
  import opened Settings
  import opened Pings
  import opened Ledger
  import opened Protocol

  lemma Extend(steps: seq<Step>, step: Step) returns (longer: seq<Step>)
    requires Legal(Init(), steps) && Enabled(Final(Init(), steps), step)
    ensures Legal(Init(), longer)
    ensures Final(Init(), longer) == Apply(Final(Init(), steps), step)
  {
    RunExtend(Init(), steps, step);
    longer := steps + [step];
  }

  /** A request with one ping, from the gate to its INCRBY, with the trim left to the caller. */
  lemma PublishOne(s: State, p: Ping, low: Id) returns (steps: seq<Step>)
    requires Backlog(s) <= BACKLOG_LIMIT
    requires low == s.low || (s.low <= low && low + STREAM_MAX_LEN <= |s.log| + 1)
    ensures Legal(s, steps)
    ensures Final(s, steps) == s.(log := s.log + [[p]], low := low, counter := s.counter + 1,
                                  pubs := s.pubs + [Publication([], {|s.log|}, [p], Counted)])
  {
    hide First, Spread, Weight;
    var k := |s.pubs|;
    assert Batched([p], CHUNK_SIZE) == [[p]] && [[p]][1..] == [];
    var t1 := Apply(s, Admit([p]));
    var t2 := Apply(t1, XAdd(k, low));
    var t3 := Apply(t2, IncrBy(k));
    RunPrepend(t2, IncrBy(k), []);
    RunPrepend(t1, XAdd(k, low), [IncrBy(k)] + []);
    RunPrepend(s, Admit([p]), [XAdd(k, low)] + ([IncrBy(k)] + []));
    steps := [Admit([p])] + ([XAdd(k, low)] + ([IncrBy(k)] + []));
    assert t3.pubs[k].todo == [] && t3.pubs[k].ids == {|s.log|};
    assert t3.pubs == s.pubs + [t3.pubs[k]];
  }

  /** n requests of one ping each, none of them trimming anything. */
  lemma {:induction false} PublishMany(steps: seq<Step>, n: nat, p: Ping) returns (longer: seq<Step>)
    requires Legal(Init(), steps)
    requires var s := Final(Init(), steps); 0 <= s.counter && s.counter + n <= BACKLOG_LIMIT
    ensures Legal(Init(), longer)
    ensures var s, t := Final(Init(), steps), Final(Init(), longer);
            && |t.log| == |s.log| + n && t.counter == s.counter + n
            && t == s.(log := t.log, pubs := t.pubs, counter := t.counter)
    decreases n
  {
    hide Enabled, Apply, Legal;
    longer := steps;
    if n > 0 {
      longer := PublishMany(steps, n - 1, p);
      var s := Final(Init(), longer);
      var more := PublishOne(s, p, s.low);
      RunConcat(Init(), longer, more);
      longer := longer + more;
    }
  }

  /** The first c entries have been read by one consumer and none of them flushed. */
  ghost predicate AllHeld(s: State, c: nat, reader: Consumer) {
    && s.low == 0 && s.cursor == c && s.pel.Keys == Interval(0, c)
    && forall i <- s.pel :: s.pel[i] == Pending(reader, s.now)
  }

  lemma FullRead(s: State, c: nat, reader: Consumer)
    requires AllHeld(s, c, reader) && c + READ_COUNT <= |s.log|
    ensures Enabled(s, ReadNew(reader))
    ensures var t := Apply(s, ReadNew(reader));
            AllHeld(t, c + READ_COUNT, reader) && t.log == s.log && t.counter == s.counter && t.now == s.now
  {
    hide Apply, Interval;
    ReadNewEffect(s, reader);
    JoinIntervals(c, c + READ_COUNT);
  }

  lemma ReadNewEffect(s: State, reader: Consumer)
    requires Undelivered(s) > 0
    ensures var t := Apply(s, ReadNew(reader));
            && t.log == s.log && t.counter == s.counter && t.low == s.low && t.cursor == ReadUntil(s)
            && t.pel.Keys == s.pel.Keys + Interval(NextRead(s), ReadUntil(s))
            && t.now == s.now
            && forall i <- t.pel :: t.pel[i] == Pending(reader, s.now) || (i in s.pel && t.pel[i] == s.pel[i])
  {
    hide First, Spread, Weight, Interval, Batched;
  }

  lemma JoinIntervals(c: Id, d: Id)
    requires c <= d
    ensures Interval(0, c) + Interval(c, d) == Interval(0, d)
  {
    hide Interval;
  }

  /** k full reads by one consumer, none of them flushed. */
  lemma {:induction false} ReadMany(steps: seq<Step>, k: nat, reader: Consumer) returns (longer: seq<Step>)
    requires Legal(Init(), steps)
    requires AllHeld(Final(Init(), steps), 0, reader) && k * READ_COUNT <= |Final(Init(), steps).log|
    ensures Legal(Init(), longer)
    ensures var s, t := Final(Init(), steps), Final(Init(), longer);
            AllHeld(t, k * READ_COUNT, reader) && t.log == s.log && t.counter == s.counter && t.now == s.now
    decreases k
  {
    hide Legal, Final, Enabled, Apply, AllHeld;
    longer := steps;
    if k > 0 {
      longer := ReadMany(steps, k - 1, reader);
      FullRead(Final(Init(), longer), (k - 1) * READ_COUNT, reader);
      longer := Extend(longer, ReadNew(reader));
    }
  }

  /** One ping published, read by a consumer and committed, but not acknowledged. */
  lemma OneCommitted(p: Ping, reader: Consumer) returns (steps: seq<Step>)
    ensures Legal(Init(), steps)
    ensures var t := Final(Init(), steps);
            && t.log == [[p]] && t.low == 0 && t.cursor == 1 && t.now == 0 && t.counter == 1 && t.resets == []
            && t.pel == map[0 := Pending(reader, 0)] && t.batches == [Batch(reader, {0}, {}, Committed)]
  {
    hide First, Spread, Weight, Legal, Final;
    steps := FromStart(p);
    steps := Extend(steps, ReadNew(reader));
    var ids := Final(Init(), steps).batches[0].ids;
    assert ids == {0};
    steps := Extend(steps, Commit(0));
  }

  lemma FromStart(p: Ping) returns (steps: seq<Step>)
    ensures Legal(Init(), steps)
    ensures Final(Init(), steps)
         == Init().(log := [[p]], counter := 1, pubs := [Publication([], {0}, [p], Counted)])
  {
    steps := PublishOne(Init(), p, 0);
  }
}
