/** The ingest pipeline as a protocol between HTTP requests, ingest workers, one
    Redis stream with its consumer group and counter, and the database.

    Every Redis command and every database commit is one step. Pipelines are not
    transactions, so steps of different clients interleave freely. A request or a
    flush that crashes, is cancelled or loses its connection is one whose next
    step is never taken; nothing below assumes that a step is ever taken. */
module Protocol {
  import opened Settings
  import opened Pings
  import opened Ledger

  type Consumer = string

  /** An ingest request that passed the gate with `pings`: `todo` holds the XADDs still to
      run, `ids` the entries already added. */
  datatype Publication = Publication(todo: seq<seq<Ping>>, ids: set<Id>, pings: seq<Ping>, stage: PublishStage) {
    /** The amount of the final INCRBY. */
    function Total(): nat { |pings| }
  }
  datatype PublishStage = Open | Counted | Abandoned

  /** One attempt to flush delivered entries. `removed` is what its XACK found pending. */
  datatype Batch = Batch(reader: Consumer, ids: set<Id>, removed: set<Id>, stage: BatchStage)
  datatype BatchStage = Held | Committed | Acked | Settled

  /** How far a reconcile_backlog has come: it found the group empty, then the counter positive. */
  datatype ResetStage = SawEmpty | SawBacklog | Reset

  datatype Pending = Pending(owner: Consumer, since: nat)

  datatype State = State(
    // Redis: entries ever added (id = position), first id not trimmed, first id the
    // group has not read, pending entries list, `pings:pending` counter, clock in ms
    log: Log, low: Id, cursor: Id, pel: map<Id, Pending>, counter: int, now: nat,
    // PostgreSQL: rows ever inserted into location_pings
    rows: multiset<Ping>,
    // clients: requests past the gate, flush attempts, and reconciliations
    pubs: seq<Publication>, batches: seq<Batch>, resets: seq<ResetStage>,
    // observations: entries XACK removed, deliveries, repeated deliveries,
    // and what SET 0 took off the counter
    acked: set<Id>, deliveries: multiset<Id>, redeliveries: multiset<Id>, forgiven: int)

  function Init(): State {
    State([], 0, 0, map[], 0, 0, multiset{}, [], [], [], {}, multiset{}, multiset{}, 0)
  }

  datatype Step =
    | Admit(pings: seq<Ping>)
    | XAdd(p: nat, low: Id)
    | IncrBy(p: nat)
    | Abandon(p: nat)
    | ReadNew(reader: Consumer)
    | ReadOwn(reader: Consumer)
    | Claim(reader: Consumer)
    | Commit(b: nat)
    | XAck(b: nat)
    | DecrBy(b: nat)
    | SeeEmpty(lagKnown: bool)
    | SeeBacklog(r: nat)
    | SetZero(r: nat)
    | Tick(ms: nat)

  /** get_backlog: the counter, never below zero. */
  function Backlog(s: State): nat {
    if s.counter < 0 then 0 else s.counter
  }

  /** Where the group reads next: trimmed entries are skipped. */
  function NextRead(s: State): Id {
    if s.cursor < s.low then s.low else s.cursor
  }

  function Undelivered(s: State): nat {
    if NextRead(s) <= |s.log| then |s.log| - NextRead(s) else 0
  }

  /** And how far: up to READ_COUNT entries. */
  function ReadUntil(s: State): Id {
    NextRead(s) + if Undelivered(s) < READ_COUNT then Undelivered(s) else READ_COUNT
  }

  function Owned(s: State, reader: Consumer): set<Id> {
    set i | i in s.pel && s.pel[i].owner == reader
  }

  function Live(s: State, ids: set<Id>): set<Id> {
    set i | i in ids && s.low <= i
  }

  /** The pending entries XAUTOCLAIM acts on: those idle for long enough, which it
      takes over, and those trimmed meanwhile, which it drops. */
  function Stale(s: State): set<Id> {
    set i | i in s.pel && s.low <= i && s.pel[i].since + CLAIM_IDLE_MS <= s.now
  }

  function Vanished(s: State): set<Id> {
    set i | i in s.pel && i < s.low
  }

  function Below(all: set<Id>, i: Id): set<Id> {
    set j | j in all && j < i
  }

  /** The n lowest ids, or all of them. */
  function First(all: set<Id>, n: nat): (some: set<Id>)
    ensures some <= all
  {
    set i | i in all && |Below(all, i)| < n
  }

  /** XAUTOCLAIM from 0-0 looks at no more than ten times COUNT pending entries. */
  function Candidates(s: State): set<Id> {
    First(s.pel.Keys, CLAIM_SCAN) * (Stale(s) + Vanished(s))
  }

  /** What it takes over or drops: the lowest candidates, up to COUNT. */
  function Taken(s: State): set<Id> {
    First(Candidates(s), READ_COUNT)
  }

  function Interval(lo: Id, hi: Id): (ids: set<Id>)
    ensures forall i: Id :: i in ids <==> lo <= i < hi
    ensures |ids| == if lo < hi then hi - lo else 0
  {
    if hi <= lo then {} else Interval(lo, hi - 1) + {hi - 1}
  }

  ghost predicate Enabled(s: State, step: Step) {
    match step
    // save_points: GET pings:pending passes the gate
    case Admit(pings) => 1 <= |pings| <= MAX_HTTP_BATCH_SIZE && Backlog(s) <= BACKLOG_LIMIT
    // XADD MAXLEN ~: the trim keeps at least STREAM_MAX_LEN entries
    case XAdd(p, low) =>
      && p < |s.pubs| && s.pubs[p].stage == Open && s.pubs[p].todo != []
      && (low == s.low || (s.low <= low && low + STREAM_MAX_LEN <= |s.log| + 1))
    case IncrBy(p) => p < |s.pubs| && s.pubs[p].stage == Open && s.pubs[p].todo == []
    case Abandon(p) => p < |s.pubs| && s.pubs[p].stage == Open
    // XREADGROUP >
    case ReadNew(_) => Undelivered(s) > 0
    // XREADGROUP 0
    case ReadOwn(_) => true
    // XAUTOCLAIM from 0-0
    case Claim(_) => true
    case Commit(b) => b < |s.batches| && s.batches[b].stage == Held && s.batches[b].ids != {}
    case XAck(b) => b < |s.batches| && s.batches[b].stage == Committed
    case DecrBy(b) => b < |s.batches| && s.batches[b].stage == Acked
    // reconcile_backlog: XINFO GROUPS (an unknown lag counts as 0), GET, SET 0
    case SeeEmpty(lagKnown) => s.pel == map[] && (lagKnown ==> Undelivered(s) == 0)
    case SeeBacklog(r) => r < |s.resets| && s.resets[r] == SawEmpty && Backlog(s) != 0
    case SetZero(r) => r < |s.resets| && s.resets[r] == SawBacklog
    case Tick(_) => true
  }

  function Deliver(s: State, reader: Consumer, ids: set<Id>): State {
    s.(pel := s.pel + map i | i in ids :: Pending(reader, s.now),
       batches := s.batches + [Batch(reader, ids, {}, Held)],
       deliveries := s.deliveries + multiset(ids))
  }

  function Apply(s: State, step: Step): State
    requires Enabled(s, step)
  {
    match step
    case Admit(pings) =>
      s.(pubs := s.pubs + [Publication(Batched(pings, CHUNK_SIZE), {}, pings, Open)])
    case XAdd(p, low) =>
      var pub := s.pubs[p];
      s.(log := s.log + [pub.todo[0]], low := low,
         pubs := s.pubs[p := pub.(todo := pub.todo[1..], ids := pub.ids + {|s.log|})])
    case IncrBy(p) =>
      s.(counter := s.counter + s.pubs[p].Total(), pubs := s.pubs[p := s.pubs[p].(stage := Counted)])
    case Abandon(p) =>
      s.(pubs := s.pubs[p := s.pubs[p].(stage := Abandoned)])
    case ReadNew(reader) =>
      Deliver(s, reader, Interval(NextRead(s), ReadUntil(s))).(cursor := ReadUntil(s))
    case ReadOwn(reader) =>
      var ids := Live(s, First(Owned(s, reader), READ_COUNT));
      Deliver(s, reader, ids).(redeliveries := s.redeliveries + multiset(ids))
    case Claim(reader) =>
      var ids := Live(s, Taken(s));
      Deliver(s, reader, ids).(pel := s.pel + (map i | i in ids :: Pending(reader, s.now)) - (Taken(s) - ids),
                               redeliveries := s.redeliveries + multiset(ids))
    case Commit(b) =>
      s.(rows := s.rows + Spread(s.log, multiset(s.batches[b].ids)),
         batches := s.batches[b := s.batches[b].(stage := Committed)])
    case XAck(b) =>
      var removed := s.batches[b].ids * s.pel.Keys;
      s.(pel := s.pel - removed, acked := s.acked + removed,
         batches := s.batches[b := s.batches[b].(removed := removed, stage := Acked)])
    case DecrBy(b) =>
      s.(counter := s.counter - Weight(s.log, multiset(s.batches[b].ids)),
         batches := s.batches[b := s.batches[b].(stage := Settled)])
    case SeeEmpty(_) => s.(resets := s.resets + [SawEmpty])
    case SeeBacklog(r) => s.(resets := s.resets[r := SawBacklog])
    case SetZero(r) =>
      s.(counter := 0, forgiven := s.forgiven + s.counter, resets := s.resets[r := Reset])
    case Tick(ms) => s.(now := s.now + ms)
  }

  // ----- Runs -----

  ghost predicate Legal(s: State, steps: seq<Step>)
    decreases |steps|
  {
    steps == [] || (Enabled(s, steps[0]) && Legal(Apply(s, steps[0]), steps[1..]))
  }

  function Final(s: State, steps: seq<Step>): State
    requires Legal(s, steps)
    decreases |steps|
  {
    if steps == [] then s else Final(Apply(s, steps[0]), steps[1..])
  }

  ghost predicate Reachable(s: State) {
    exists steps :: Legal(Init(), steps) && Final(Init(), steps) == s
  }

  lemma RunPrepend(s: State, step: Step, steps: seq<Step>)
    requires Enabled(s, step) && Legal(Apply(s, step), steps)
    ensures Legal(s, [step] + steps)
    ensures Final(s, [step] + steps) == Final(Apply(s, step), steps)
  {
    assert ([step] + steps)[1..] == steps;
  }

  lemma {:induction false} RunConcat(s: State, first: seq<Step>, second: seq<Step>)
    requires Legal(s, first) && Legal(Final(s, first), second)
    ensures Legal(s, first + second)
    ensures Final(s, first + second) == Final(Final(s, first), second)
    decreases |first|
  {
    hide Enabled, Apply;
    if first == [] {
      assert first + second == second;
    } else {
      RunConcat(Apply(s, first[0]), first[1..], second);
      RunPrepend(s, first[0], first[1..] + second);
      assert first + second == [first[0]] + (first[1..] + second);
    }
  }

  lemma RunExtend(s: State, steps: seq<Step>, step: Step)
    requires Legal(s, steps) && Enabled(Final(s, steps), step)
    ensures Legal(s, steps + [step])
    ensures Final(s, steps + [step]) == Apply(Final(s, steps), step)
  {
    RunPrepend(Final(s, steps), step, []);
    assert [step] + [] == [step];
    RunConcat(s, steps, [step]);
  }

  lemma {:induction false} RunSplit(s: State, first: seq<Step>, second: seq<Step>)
    requires Legal(s, first + second)
    ensures Legal(s, first) && Legal(Final(s, first), second)
    ensures Final(s, first + second) == Final(Final(s, first), second)
    decreases |first|
  {
    hide Enabled, Apply;
    if first == [] {
      assert first + second == second;
    } else {
      assert (first + second)[0] == first[0] && (first + second)[1..] == first[1..] + second;
      RunSplit(Apply(s, first[0]), first[1..], second);
    }
  }

  lemma StillReachable(s: State, steps: seq<Step>)
    requires Reachable(s) && Legal(s, steps)
    ensures Reachable(Final(s, steps))
  {
    var first :| Legal(Init(), first) && Final(Init(), first) == s;
    RunConcat(Init(), first, steps);
  }
}
