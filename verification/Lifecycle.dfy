/** The supervisor: restart bookkeeping of one task, and the monitor's restarts and stop
    interleaved with tasks that exit, hang or take their time to drain. */
module Lifecycle {
  import opened Sets

  const FLAPPING_WINDOW_S := 120.0
  const FLAPPING_RESTARTS := 3

  // ----- Restart bookkeeping -----

  /** The restarts less than the window ago. */
  function Recent(restarts: seq<real>, now: real): seq<real> {
    if restarts == [] then []
    else
      var n := |restarts| - 1;
      Recent(restarts[..n], now) + if now - restarts[n] < FLAPPING_WINDOW_S then [restarts[n]] else []
  }

  predicate IsFlapping(restarts: seq<real>, now: real) {
    |Recent(restarts, now)| >= FLAPPING_RESTARTS
  }

  /** Flapping means three restarts, no matter when, that each lie less than the window back. */
  lemma FlappingIff(restarts: seq<real>, now: real)
    ensures IsFlapping(restarts, now) <==> exists i, j, k :: ThreeRecent(restarts, now, i, j, k)
  {
    if IsFlapping(restarts, now) {
      var k := LastKept(restarts, now);
      var j := LastKept(restarts[..k], now);
      assert restarts[..k][..j] == restarts[..j];
      var i := LastKept(restarts[..j], now);
      assert ThreeRecent(restarts, now, i, j, k);
    }
    if i, j, k :| ThreeRecent(restarts, now, i, j, k) {
      CountRecent(restarts, now, [i, j, k]);
    }
  }

  ghost predicate ThreeRecent(restarts: seq<real>, now: real, i: nat, j: nat, k: nat) {
    i < j < k < |restarts| && now - restarts[i] < FLAPPING_WINDOW_S
    && now - restarts[j] < FLAPPING_WINDOW_S && now - restarts[k] < FLAPPING_WINDOW_S
  }

  /** Recent restarts at the given positions are all kept. */
  lemma {:induction false} CountRecent(restarts: seq<real>, now: real, at: seq<nat>)
    requires forall i, j :: 0 <= i < j < |at| ==> at[i] < at[j]
    requires forall p <- at :: p < |restarts| && now - restarts[p] < FLAPPING_WINDOW_S
    ensures |Recent(restarts, now)| >= |at|
    decreases |restarts|
  {
    if at != [] {
      var n, m := |restarts| - 1, |at| - 1;
      assert at[m] in at;
      var lower := if at[m] == n then at[..m] else at;
      forall p <- lower ensures p < n {
        var i :| 0 <= i < |lower| && lower[i] == p;
        assert lower[i] == at[i];
      }
      CountRecent(restarts[..n], now, lower);
    }
  }

  /** The last restart that is kept. */
  lemma {:induction false} LastKept(restarts: seq<real>, now: real) returns (i: nat)
    requires Recent(restarts, now) != []
    ensures i < |restarts| && now - restarts[i] < FLAPPING_WINDOW_S
    ensures |Recent(restarts[..i], now)| == |Recent(restarts, now)| - 1
  {
    i := |restarts| - 1;
    if now - restarts[i] >= FLAPPING_WINDOW_S {
      var n := i;
      i := LastKept(restarts[..n], now);
      assert restarts[..n][..i] == restarts[..i];
    }
  }

  lemma RecentAppend(restarts: seq<real>, at: real, now: real)
    ensures Recent(restarts + [at], now)
         == Recent(restarts, now) + if now - at < FLAPPING_WINDOW_S then [at] else []
  {
    assert (restarts + [at])[..|restarts|] == restarts;
  }

  /** What a later look would keep is not lost by pruning earlier. */
  lemma {:induction false} PruningForgetsNothing(restarts: seq<real>, earlier: real, now: real)
    requires earlier <= now
    ensures Recent(Recent(restarts, earlier), now) == Recent(restarts, now)
  {
    if restarts != [] {
      var n := |restarts| - 1;
      PruningForgetsNothing(restarts[..n], earlier, now);
      if earlier - restarts[n] < FLAPPING_WINDOW_S {
        RecentAppend(Recent(restarts[..n], earlier), restarts[n], now);
      } else {
        assert Recent(restarts, earlier) == Recent(restarts[..n], earlier);
      }
    }
  }

  /** The two clock readings of note_restart: in _recent, then for the new restart. */
  datatype Reading = Reading(pruneAt: real, at: real)

  function Noted(restarts: seq<real>, r: Reading): seq<real> {
    Recent(restarts, r.pruneAt) + [r.at]
  }

  function Pruned(readings: seq<Reading>): seq<real> {
    if readings == [] then []
    else Noted(Pruned(readings[..|readings| - 1]), readings[|readings| - 1])
  }

  /** Every restart ever noted. */
  function Full(readings: seq<Reading>): seq<real> {
    if readings == [] then []
    else Full(readings[..|readings| - 1]) + [readings[|readings| - 1].at]
  }

  lemma {:induction false} FullIsAll(readings: seq<Reading>)
    ensures |Full(readings)| == |readings| && forall i :: 0 <= i < |readings| ==> Full(readings)[i] == readings[i].at
  {
    if readings != [] { FullIsAll(readings[..|readings| - 1]); }
  }

  /** At least three of the restarts noted lie less than the window back. */
  ghost predicate ThreeNoted(readings: seq<Reading>, now: real) {
    exists i: nat, j: nat, k: nat :: i < j < k && NotedLately(readings, now, i) && NotedLately(readings, now, j)
                      && NotedLately(readings, now, k)
  }

  ghost predicate NotedLately(readings: seq<Reading>, now: real, i: nat) {
    i < |readings| && now - readings[i].at < FLAPPING_WINDOW_S
  }

  lemma ThreeNotedIff(readings: seq<Reading>, now: real)
    ensures IsFlapping(Full(readings), now) <==> ThreeNoted(readings, now)
  {
    hide IsFlapping;
    FullIsAll(readings);
    FlappingIff(Full(readings), now);
    if i, j, k :| ThreeRecent(Full(readings), now, i, j, k) {
      assert NotedLately(readings, now, i) && NotedLately(readings, now, j) && NotedLately(readings, now, k);
    }
    if ThreeNoted(readings, now) {
      var i: nat, j: nat, k: nat :|
        i < j < k && NotedLately(readings, now, i) && NotedLately(readings, now, j) && NotedLately(readings, now, k);
      assert ThreeRecent(Full(readings), now, i, j, k);
    }
  }

  ghost predicate ClockOrdered(readings: seq<Reading>, now: real) {
    && (forall r <- readings :: r.pruneAt <= r.at <= now)
    && (forall i, j :: 0 <= i < j < |readings| ==> readings[i].at <= readings[j].pruneAt)
  }

  /** On a monotone clock the pruned list answers every question about flapping as the full
      history would: the same recent restarts, in the same order. */
  lemma {:induction false} PrunedEqualsFull(readings: seq<Reading>, now: real)
    requires ClockOrdered(readings, now)
    ensures Recent(Pruned(readings), now) == Recent(Full(readings), now)
    ensures IsFlapping(Pruned(readings), now) <==> IsFlapping(Full(readings), now)
  {
    if readings != [] {
      var n := |readings| - 1;
      var r := readings[n];
      assert r in readings;
      assert forall q <- readings[..n] :: q in readings;
      PrunedEqualsFull(readings[..n], now);
      PruningForgetsNothing(Pruned(readings[..n]), r.pruneAt, now);
      RecentAppend(Recent(Pruned(readings[..n]), r.pruneAt), r.at, now);
      RecentAppend(Full(readings[..n]), r.at, now);
    }
  }

  class TaskSpec {
    const name: string
    var restarts: seq<real>
    ghost var readings: seq<Reading>
    ghost var clock: real

    ghost predicate Valid() reads this {
      restarts == Pruned(readings) && ClockOrdered(readings, clock)
    }

    constructor (name: string, now: real)
      ensures Valid() && readings == [] && this.name == name && clock == now
    {
      this.name := name;
      restarts, readings, clock := [], [], now;
    }

    method NoteRestart(r: Reading)
      requires Valid() && clock <= r.pruneAt <= r.at
      modifies this
      ensures Valid() && readings == old(readings) + [r] && clock == r.at
    {
      ghost var before := readings;
      restarts := Noted(restarts, r);
      readings, clock := readings + [r], r.at;
      assert readings[..|readings| - 1] == before;
    }

    method Flapping(now: real) returns (flapping: bool)
      requires Valid() && clock <= now
      modifies `clock
      ensures Valid() && readings == old(readings)
      ensures flapping <==> ThreeNoted(readings, now)
    {
      clock := now;
      PrunedEqualsFull(readings, now);
      ThreeNotedIff(readings, now);
      flapping := |Recent(restarts, now)| >= FLAPPING_RESTARTS;
    }
  }

  // ----- The supervisor -----

  type TaskId = nat

  /** Where the monitor loop is suspended, or which spec it is looking at. */
  datatype Monitor =
    | Absent
    | Sleeping
    | Checking(i: nat)
    | Draining(i: nat, task: TaskId)
    | Delaying(i: nat)

  datatype Stage = Idle | Running | StoppingMonitor | StoppingTasks(waiting: set<TaskId>)

  /** `names` is the name of every task ever created, `round` the task each spec was found healthy
      with, or given, in the current round. */
  datatype State = State(specs: seq<string>, names: seq<string>, live: set<TaskId>, tasks: map<string, TaskId>,
                         monitor: Monitor, stage: Stage, round: map<string, TaskId>)

  function Init(specs: seq<string>): State {
    State(specs, [], {}, map[], Absent, Idle, map[])
  }

  function Spawned(s: State, name: string): State {
    s.(names := s.names + [name], live := s.live + {|s.names|}, tasks := s.tasks[name := |s.names|])
  }

  function SpawnAll(s: State, n: nat): State
    requires n <= |s.specs|
    ensures SpawnAll(s, n).specs == s.specs
  {
    if n == 0 then s else Spawned(SpawnAll(s, n - 1), s.specs[n - 1])
  }

  datatype Step =
    | Start
    | TaskExits(task: TaskId)
    | Wake
    | FindHealthy
    | BeginRestart
    | DrainEnds
    | Spawn
    | RoundEnds
    | BeginStop
    | MonitorEnds
    | CancelTasks
    | StopEnds

  predicate Enabled(s: State, step: Step) {
    match step
    case Start => s.stage == Idle
    // on its own, by an error, or at the end of draining a cancellation
    case TaskExits(t) => t in s.live
    case Wake => s.monitor == Sleeping && s.stage == Running
    case FindHealthy =>
      && s.monitor.Checking? && s.monitor.i < |s.specs|
      && s.specs[s.monitor.i] in s.tasks && s.tasks[s.specs[s.monitor.i]] in s.live
    // missing, exited, or stalled: a live task may always have stalled
    case BeginRestart => s.monitor.Checking? && s.monitor.i < |s.specs|
    case DrainEnds => s.monitor.Draining? && s.monitor.task !in s.live
    case Spawn => s.monitor.Delaying? && s.stage == Running && s.monitor.i < |s.specs|
    case RoundEnds => s.monitor.Checking? && s.monitor.i >= |s.specs|
    case BeginStop => s.stage == Running
    // the cancellation reaches the monitor in one of its sleeps
    case MonitorEnds => s.stage == StoppingMonitor && (s.monitor == Sleeping || s.monitor.Delaying?)
    case CancelTasks => s.stage == StoppingMonitor && s.monitor == Absent
    case StopEnds => s.stage.StoppingTasks? && s.stage.waiting !! s.live
  }

  function Apply(s: State, step: Step): State
    requires Enabled(s, step)
  {
    match step
    case Start => SpawnAll(s, |s.specs|).(monitor := Sleeping, stage := Running)
    case TaskExits(t) => s.(live := s.live - {t})
    case Wake => s.(monitor := Checking(0), round := map[])
    case FindHealthy =>
      var name := s.specs[s.monitor.i];
      s.(monitor := Checking(s.monitor.i + 1), round := s.round[name := s.tasks[name]])
    case BeginRestart =>
      var i, name := s.monitor.i, s.specs[s.monitor.i];
      var popped := s.(tasks := s.tasks - {name});
      if name in s.tasks && s.tasks[name] in s.live then popped.(monitor := Draining(i, s.tasks[name]))
      else popped.(monitor := Delaying(i))
    case DrainEnds =>
      // a cancelled gather still waits for its task, then the cancellation ends the monitor
      if s.stage == StoppingMonitor then s.(monitor := Absent) else s.(monitor := Delaying(s.monitor.i))
    case Spawn =>
      var i, name := s.monitor.i, s.specs[s.monitor.i];
      Spawned(s, name).(monitor := Checking(i + 1), round := s.round[name := |s.names|])
    case RoundEnds => s.(monitor := Sleeping)
    case BeginStop => s.(stage := StoppingMonitor)
    case MonitorEnds => s.(monitor := Absent)
    case CancelTasks => s.(stage := StoppingTasks(s.tasks.Values))
    case StopEnds => s.(tasks := map[], stage := Idle)
  }

  ghost predicate Legal(s: State, steps: seq<Step>)
    decreases |steps|
  {
    steps != [] ==> Enabled(s, steps[0]) && Legal(Apply(s, steps[0]), steps[1..])
  }

  function Final(s: State, steps: seq<Step>): State
    requires Legal(s, steps)
    decreases |steps|
  {
    if steps == [] then s else Final(Apply(s, steps[0]), steps[1..])
  }

  ghost predicate Distinct(specs: seq<string>) {
    forall i, j :: 0 <= i < j < |specs| ==> specs[i] != specs[j]
  }

  /** A live task is the registered one of its name, or the one the monitor waits for. */
  ghost predicate Accounted(s: State, t: TaskId) {
    && t < |s.names|
    && ((s.names[t] in s.tasks && s.tasks[s.names[t]] == t) || (s.monitor.Draining? && s.monitor.task == t))
  }

  ghost predicate TasksOk(s: State) {
    && (forall t <- s.live :: Accounted(s, t))
    && (forall name <- s.tasks :: s.tasks[name] < |s.names| && s.names[s.tasks[name]] == name && name in s.specs)
  }

  ghost predicate MonitorOk(s: State) {
    match s.monitor
    case Absent => s.stage != Running
    case Sleeping => s.stage == Running || s.stage == StoppingMonitor
    case Checking(_) => s.stage == Running || s.stage == StoppingMonitor
    case Draining(i, t) =>
      && (s.stage == Running || s.stage == StoppingMonitor)
      && i < |s.specs| && s.specs[i] !in s.tasks && t < |s.names| && s.names[t] == s.specs[i]
    case Delaying(i) =>
      && (s.stage == Running || s.stage == StoppingMonitor)
      && i < |s.specs| && s.specs[i] !in s.tasks
  }

  ghost predicate StageOk(s: State) {
    && (s.stage == Idle ==> s.live == {} && s.tasks == map[] && s.monitor == Absent)
    && (s.stage.StoppingTasks? ==> s.monitor == Absent && s.stage.waiting == s.tasks.Values)
  }

  /** The specs before `done` have the task they were found with or given in this round. */
  ghost predicate RoundOk(s: State) {
    var done := match s.monitor
                case Checking(i) => i
                case Draining(i, _) => i
                case Delaying(i) => i
                case _ => 0;
    forall j :: 0 <= j < done && j < |s.specs| ==>
      s.specs[j] in s.tasks && s.specs[j] in s.round && s.tasks[s.specs[j]] == s.round[s.specs[j]]
  }

  ghost predicate Inv(s: State) {
    Distinct(s.specs) && TasksOk(s) && MonitorOk(s) && StageOk(s) && RoundOk(s)
  }

  /** Registered tasks are named after the first n specs, and live tasks are registered. */
  ghost predicate SpawnedOk(s: State, n: nat)
    requires n <= |s.specs|
  {
    && (forall name <- s.tasks :: name in s.specs[..n] && s.tasks[name] < |s.names| && s.names[s.tasks[name]] == name)
    && (forall k <- s.live :: k < |s.names| && s.names[k] in s.tasks && s.tasks[s.names[k]] == k)
  }

  lemma SpawnedStep(s: State, n: nat)
    requires n < |s.specs| && Distinct(s.specs) && SpawnedOk(s, n)
    ensures SpawnedOk(Spawned(s, s.specs[n]), n + 1)
  {
    assert s.specs[..n + 1] == s.specs[..n] + [s.specs[n]];
  }

  lemma {:induction false} SpawnAllEffect(s: State, n: nat)
    requires n <= |s.specs| && Distinct(s.specs) && s.live == {} && s.tasks == map[]
    ensures SpawnedOk(SpawnAll(s, n), n)
    ensures SpawnAll(s, n).monitor == s.monitor && SpawnAll(s, n).stage == s.stage
  {
    hide SpawnedOk;
    if n == 0 {
      SpawnedNone(s);
    } else {
      SpawnAllEffect(s, n - 1);
      SpawnedStep(SpawnAll(s, n - 1), n - 1);
    }
  }

  lemma SpawnedNone(s: State)
    requires s.live == {} && s.tasks == map[]
    ensures SpawnedOk(s, 0)
  {
  }

  lemma StartKeepsInv(s: State)
    requires Inv(s) && Enabled(s, Start)
    ensures Inv(Apply(s, Start))
  {
    hide SpawnAll;
    SpawnAllEffect(s, |s.specs|);
  }

  lemma SpawnKeepsTasks(s: State)
    requires Inv(s) && Enabled(s, Spawn)
    ensures TasksOk(Apply(s, Spawn))
  {
    hide SpawnAll, RoundOk, StageOk;
  }

  lemma SpawnKeepsRound(s: State)
    requires Inv(s) && Enabled(s, Spawn)
    ensures RoundOk(Apply(s, Spawn))
  {
    hide SpawnAll, TasksOk, StageOk;
  }

  lemma SpawnKeepsInv(s: State)
    requires Inv(s) && Enabled(s, Spawn)
    ensures Inv(Apply(s, Spawn))
  {
    SpawnKeepsTasks(s);
    SpawnKeepsRound(s);
    hide SpawnAll, TasksOk, RoundOk, Distinct;
  }

  lemma RestartKeepsTasks(s: State)
    requires Inv(s) && Enabled(s, BeginRestart)
    ensures TasksOk(Apply(s, BeginRestart))
  {
    hide SpawnAll, RoundOk, StageOk;
  }

  lemma RestartKeepsRound(s: State)
    requires Inv(s) && Enabled(s, BeginRestart)
    ensures RoundOk(Apply(s, BeginRestart))
  {
    hide SpawnAll, TasksOk, StageOk;
  }

  lemma RestartKeepsInv(s: State)
    requires Inv(s) && Enabled(s, BeginRestart)
    ensures Inv(Apply(s, BeginRestart))
  {
    RestartKeepsTasks(s);
    RestartKeepsRound(s);
    hide SpawnAll, TasksOk, RoundOk, Distinct;
  }

  lemma FindHealthyKeepsInv(s: State)
    requires Inv(s) && Enabled(s, FindHealthy)
    ensures Inv(Apply(s, FindHealthy))
  {
    hide SpawnAll;
  }

  lemma StepKeepsInv(s: State, step: Step)
    requires Inv(s) && Enabled(s, step)
    ensures Inv(Apply(s, step))
  {
    match step
    case Start => StartKeepsInv(s);
    case FindHealthy => FindHealthyKeepsInv(s);
    case BeginRestart => RestartKeepsInv(s);
    case Spawn => SpawnKeepsInv(s);
    case _ =>
  }

  lemma {:induction false} RunKeepsInv(s: State, steps: seq<Step>)
    requires Inv(s) && Legal(s, steps)
    ensures Inv(Final(s, steps)) && Final(s, steps).specs == s.specs
    decreases |steps|
  {
    if steps != [] {
      StepKeepsInv(s, steps[0]);
      RunKeepsInv(Apply(s, steps[0]), steps[1..]);
    }
  }

  /** No two live tasks have the same name. */
  ghost predicate AtMostOneLive(s: State) {
    forall t, u :: t in s.live && u in s.live && t < |s.names| && u < |s.names| && s.names[t] == s.names[u] ==> t == u
  }

  /** For specs of distinct names: in every reachable state at most one task per name is live, the
      one still draining during a restart included; at the end of a monitor round every spec has
      the task it was found healthy with or given in that round; and once stopped none is live. */
  lemma SupervisionHolds(specs: seq<string>, steps: seq<Step>)
    requires Distinct(specs) && Legal(Init(specs), steps)
    ensures var s := Final(Init(specs), steps);
            && AtMostOneLive(s)
            && (s.monitor == Checking(|specs|) ==>
                  forall name <- specs :: name in s.tasks && name in s.round && s.tasks[name] == s.round[name])
            && (s.stage == Idle ==> s.live == {})
  {
    RunKeepsInv(Init(specs), steps);
  }

  lemma {:induction false} SpawnAllNames(specs: seq<string>, n: nat)
    requires n <= |specs|
    ensures SpawnAll(Init(specs), n).names == specs[..n]
    ensures forall t: TaskId :: t in SpawnAll(Init(specs), n).live <==> t < n
  {
    if n > 0 {
      SpawnAllNames(specs, n - 1);
      assert specs[..n] == specs[..n - 1] + [specs[n - 1]];
    }
  }

  /** The names must be distinct: two specs of one name have two live tasks from the start. */
  lemma AtMostOneLiveIffDistinct(specs: seq<string>)
    ensures AtMostOneLive(Apply(Init(specs), Start)) <==> Distinct(specs)
  {
    SpawnAllNames(specs, |specs|);
    assert specs[..|specs|] == specs;
    var s := Apply(Init(specs), Start);
    if AtMostOneLive(s) {
      forall i, j | 0 <= i < j < |specs| ensures specs[i] != specs[j] {
        assert i in s.live && j in s.live && s.names[i] == specs[i] && s.names[j] == specs[j];
      }
    }
  }

  /** The spec has a task that has not exited. */
  predicate Healthy(s: State, name: string) {
    name in s.tasks && s.tasks[name] in s.live
  }

  /** One task has been created for the spec and is live; the one it had before is not. */
  ghost predicate Replaced(s: State, t: State, name: string) {
    && t.names == s.names + [name]
    && name in t.tasks && t.tasks[name] == |s.names| && t.tasks[name] in t.live
    && (name in s.tasks ==> s.tasks[name] !in t.live)
  }

  /** The task of the spec was created after s, and the one it had in s is not live. */
  ghost predicate Renewed(s: State, t: State, name: string) {
    && name in t.tasks && t.tasks[name] >= |s.names|
    && (name in s.tasks ==> s.tasks[name] !in t.live)
  }

  lemma RenewedStill(s: State, t: State, u: State, name: string)
    requires Renewed(s, t, name) && u.tasks == t.tasks && u.live == t.live
    ensures Renewed(s, u, name)
  {
  }

  ghost predicate SameTask(s: State, t: State, name: string) {
    (name in s.tasks <==> name in t.tasks) && (name in s.tasks ==> s.tasks[name] == t.tasks[name])
  }

  /** The other specs keep their tasks, and no task comes back to life. */
  ghost predicate OthersKept(s: State, t: State, name: string) {
    && s.names <= t.names && t.tasks - {name} == s.tasks - {name}
    && forall k <- t.live :: k in s.live || |s.names| <= k < |t.names|
  }

  /** What one check means for the round that began in state s. */
  lemma CheckedOne(s: State, t: State, u: State, specs: seq<string>, i: nat, stalled: seq<bool>)
    requires Distinct(specs) && i < |specs| == |stalled| && s.names <= t.names && TasksOk(s)
    requires forall k <- t.live :: k in s.live || k >= |s.names|
    requires forall j :: 0 <= j < i && (stalled[j] || !Healthy(s, specs[j])) ==> Renewed(s, t, specs[j])
    requires forall j :: i <= j < |specs| ==> SameTask(s, t, specs[j])
    requires OthersKept(t, u, specs[i])
    requires stalled[i] || !Healthy(t, specs[i]) ==> Replaced(t, u, specs[i])
    ensures s.names <= u.names && forall k <- u.live :: k in s.live || k >= |s.names|
    ensures forall j :: 0 <= j <= i && (stalled[j] || !Healthy(s, specs[j])) ==> Renewed(s, u, specs[j])
    ensures forall j :: i < j < |specs| ==> SameTask(s, u, specs[j])
  {
    forall j | 0 <= j < |specs| && j != i ensures SameTask(t, u, specs[j]) {
      assert specs[j] in t.tasks <==> specs[j] in t.tasks - {specs[i]};
      assert specs[j] in u.tasks <==> specs[j] in u.tasks - {specs[i]};
    }
    forall j | 0 <= j <= i && (stalled[j] || !Healthy(s, specs[j])) ensures Renewed(s, u, specs[j]) {
      if j == i { assert SameTask(s, t, specs[i]); } else { assert SameTask(t, u, specs[j]); }
    }
  }

  class Supervisor {
    const specs: seq<string>
    var state: State
    ghost var trace: seq<Step>

    ghost predicate Valid() reads this {
      Distinct(specs) && Legal(Init(specs), trace) && state == Final(Init(specs), trace)
    }

    constructor (specs: seq<string>)
      requires Distinct(specs)
      ensures Valid() && state == Init(specs) && this.specs == specs
    {
      this.specs := specs;
      state, trace := Init(specs), [];
    }

    lemma Sound()
      requires Valid()
      ensures Inv(state) && state.specs == specs && AtMostOneLive(state)
    {
      RunKeepsInv(Init(specs), trace);
      SupervisionHolds(specs, trace);
    }

    lemma TasksAreKnown()
      requires Valid()
      ensures forall name <- state.tasks :: state.tasks[name] < |state.names|
    {
      Sound();
    }

    method Do(step: Step)
      requires Valid() && Enabled(state, step)
      modifies this
      ensures Valid() && state == Apply(old(state), step) && trace == old(trace) + [step]
    {
      RunExtend(Init(specs), trace, step);
      state := Apply(state, step);
      trace := trace + [step];
    }

    /** At an await any tasks may exit; nothing else happens. */
    method Others()
      requires Valid()
      modifies this
      ensures Valid() && old(trace) <= trace
      ensures state == old(state).(live := state.live) && state.live <= old(state).live
    {
    }

    method StartTasks()
      requires Valid() && state.stage == Idle
      modifies this
      ensures Valid() && state.stage == Running && state.monitor == Sleeping
      ensures forall name <- specs :: name in state.tasks && state.tasks[name] in state.live
    {
      Sound();
      ghost var before := state;
      Do(Start);
      SpawnAllRegisters(before, |specs|);
    }

    /** One turn of the monitor loop after its sleep. `stalled` says whose heartbeat is too old. */
    method MonitorRound(stalled: seq<bool>)
      requires Valid() && state.stage == Running && state.monitor == Sleeping && |stalled| == |specs|
      modifies this
      ensures Valid() && state.stage == Running && state.monitor == Sleeping
      ensures forall name <- specs ::
                name in state.tasks && name in state.round && state.tasks[name] == state.round[name]
      // a task that hung, had exited or was missing has been replaced by one created in this round
      ensures forall i :: 0 <= i < |specs| && (stalled[i] || !Healthy(old(state), specs[i])) ==>
                Renewed(old(state), state, specs[i])
      ensures old(state).names <= state.names
    {
      hide Legal, Final, SpawnAll, Renewed;
      Sound();
      ghost var first := state;
      Do(Wake);
      for i := 0 to |specs|
        invariant Valid() && state.specs == specs && state.stage == Running && state.monitor == Checking(i)
        invariant first.names <= state.names
        invariant forall t <- state.live :: t in first.live || t >= |first.names|
        invariant forall j :: 0 <= j < i && (stalled[j] || !Healthy(first, specs[j])) ==>
                    Renewed(first, state, specs[j])
        invariant forall j :: i <= j < |specs| ==> SameTask(first, state, specs[j])
      {
        ghost var before := state;
        Check(i, stalled[i]);
        CheckedOne(first, before, state, specs, i, stalled);
      }
      Sound();
      ghost var done := state;
      Do(RoundEnds);
      forall i | 0 <= i < |specs| && (stalled[i] || !Healthy(first, specs[i]))
        ensures Renewed(first, state, specs[i])
      {
        RenewedStill(first, done, state, specs[i]);
      }
    }

    method Check(i: nat, stalled: bool)
      requires Valid() && i < |specs| && state.specs == specs
      requires state.stage == Running && state.monitor == Checking(i)
      modifies this
      ensures Valid() && state.specs == specs && state.stage == Running && state.monitor == Checking(i + 1)
      ensures Healthy(old(state), specs[i]) && !stalled ==>
                state.tasks == old(state).tasks && state.live == old(state).live && state.names == old(state).names
      ensures !Healthy(old(state), specs[i]) || stalled ==> Replaced(old(state), state, specs[i])
      ensures OthersKept(old(state), state, specs[i])
    {
      hide Distinct, Legal, Final, SpawnAll;
      var name := specs[i];
      if name !in state.tasks || state.tasks[name] !in state.live || stalled {
        Restart(i);
      } else {
        Do(FindHealthy);
      }
    }

    /** Take the task out, cancel it and wait for it, pause, and only then spawn the next one. */
    method Restart(i: nat)
      requires Valid() && i < |specs| && state.specs == specs
      requires state.stage == Running && state.monitor == Checking(i)
      modifies this
      ensures Valid() && state.specs == specs && state.stage == Running && state.monitor == Checking(i + 1)
      ensures Replaced(old(state), state, specs[i]) && OthersKept(old(state), state, specs[i])
    {
      hide Distinct, Legal, Final, SpawnAll;
      TasksAreKnown();
      Do(BeginRestart);
      if state.monitor.Draining? {
        Others();
        WaitFor(state.monitor.task);
        Do(DrainEnds);
      }
      Others();
      Do(Spawn);
    }

    /** Waiting for a task ends when it has exited. */
    method WaitFor(task: TaskId)
      requires Valid()
      modifies this
      ensures Valid() && state == old(state).(live := old(state).live - {task})
    {
      if task in state.live {
        Do(TaskExits(task));
      }
    }

    /** stop, called while the monitor sleeps, delays or waits for a task it is restarting. */
    method Stop()
      requires Valid() && state.stage == Running && !state.monitor.Checking?
      modifies this
      ensures Valid() && state.stage == Idle && state.live == {} && state.tasks == map[]
    {
      hide Distinct, TasksOk, RoundOk, Legal, Final, AtMostOneLive;
      Sound();
      Do(BeginStop);
      if state.monitor.Draining? {
        Others();
        WaitFor(state.monitor.task);
        Do(DrainEnds);
      } else {
        Do(MonitorEnds);
      }
      Do(CancelTasks);
      WaitForAll(state.stage.waiting);
      Sound();
      Do(StopEnds);
      Sound();
    }

    /** gather over all cancelled tasks. */
    method WaitForAll(waiting: set<TaskId>)
      requires Valid()
      modifies this
      ensures Valid() && state == old(state).(live := old(state).live - waiting)
    {
      hide Inv, Legal, Final;
      var left := waiting;
      while left != {}
        invariant Valid() && left <= waiting
        invariant state == old(state).(live := old(state).live - (waiting - left))
        decreases |left|
      {
        ghost var some := SomeMember(left);
        var task: TaskId :| task in left;
        WaitFor(task);
        left := left - {task};
      }
    }
  }

  lemma {:induction false} SpawnAllRegisters(s: State, n: nat)
    requires n <= |s.specs| && Distinct(s.specs)
    ensures forall j :: 0 <= j < n ==>
              s.specs[j] in SpawnAll(s, n).tasks && SpawnAll(s, n).tasks[s.specs[j]] in SpawnAll(s, n).live
  {
    if n > 0 { SpawnAllRegisters(s, n - 1); }
  }

  lemma {:induction false} RunExtend(s: State, steps: seq<Step>, step: Step)
    requires Legal(s, steps) && Enabled(Final(s, steps), step)
    ensures Legal(s, steps + [step]) && Final(s, steps + [step]) == Apply(Final(s, steps), step)
    decreases |steps|
  {
    if steps == [] {
      assert [step][1..] == [];
      assert steps + [step] == [step];
    } else {
      RunExtend(Apply(s, steps[0]), steps[1..], step);
      assert (steps + [step])[1..] == steps[1..] + [step];
    }
  }
}
