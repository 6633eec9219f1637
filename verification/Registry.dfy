/** WebSocket connections: a bounded queue per connection, and who is connected. */
module Registry {
  import opened Pings
  import opened Presence
  import opened Sets

  type User = string

  datatype Message = Alerts(hits: seq<ZoneHit>) | Positions(pings: seq<Ping>)

  // ----- One connection's queue -----

  /** A queue and its history: `accepted` holds every message ever queued, those at positions
      below `removed` have left it, taken by the sender or evicted. */
  datatype Box = Box(queue: seq<Message>, dropped: nat, offered: nat,
                     accepted: seq<Message>, removed: nat, taken: seq<nat>, evicted: seq<nat>)

  function EmptyBox(): Box { Box([], 0, 0, [], 0, [], []) }

  /** asyncio.Queue.full: a maxsize of 0 or less means no bound. */
  predicate Full(box: Box, capacity: int) {
    capacity > 0 && |box.queue| >= capacity
  }

  function Discarded(box: Box): Box {
    if box.queue == [] then box
    else box.(queue := box.queue[1..], dropped := box.dropped + 1,
              removed := box.removed + 1, evicted := box.evicted + [box.removed])
  }

  function Put(box: Box, message: Message): Box {
    box.(queue := box.queue + [message], accepted := box.accepted + [message])
  }

  function Offered(box: Box, message: Message, priority: bool, capacity: int): Box {
    var counted := box.(offered := box.offered + 1);
    if !Full(box, capacity) then Put(counted, message)
    else if !priority then counted.(dropped := counted.dropped + 1)
    else Put(Discarded(counted), message)
  }

  function Taken(box: Box): Box {
    if box.queue == [] then box
    else box.(queue := box.queue[1..], removed := box.removed + 1, taken := box.taken + [box.removed])
  }

  datatype QueueOp = Offer(message: Message, priority: bool) | Take

  function Apply(box: Box, op: QueueOp, capacity: int): Box {
    match op
    case Offer(message, priority) => Offered(box, message, priority, capacity)
    case Take => Taken(box)
  }

  function RunOps(ops: seq<QueueOp>, capacity: int): Box {
    if ops == [] then EmptyBox()
    else Apply(RunOps(ops[..|ops| - 1], capacity), ops[|ops| - 1], capacity)
  }

  ghost predicate Increasing(positions: seq<nat>, bound: nat) {
    && (forall i, j :: 0 <= i < j < |positions| ==> positions[i] < positions[j])
    && (forall p <- positions :: p < bound)
  }

  /** The queue is what was accepted and has not left; positions leave in order, each taken or
      evicted; an evicted message has at least `capacity` accepted ones after it; and every
      message offered is taken, queued or dropped. */
  ghost predicate BoxOk(box: Box, capacity: int) {
    && box.removed <= |box.accepted| && box.queue == box.accepted[box.removed..]
    && (capacity > 0 ==> |box.queue| <= capacity)
    && box.offered == |box.taken| + |box.queue| + box.dropped
    && Increasing(box.taken, box.removed) && Increasing(box.evicted, box.removed)
    && (forall p: nat :: p < box.removed ==> (p in box.taken <==> p !in box.evicted))
    && (forall p <- box.evicted :: p + capacity < |box.accepted|)
  }

  lemma PutKeepsBox(box: Box, message: Message, capacity: int)
    requires BoxOk(box, capacity) && !Full(box, capacity)
    ensures BoxOk(Put(box.(offered := box.offered + 1), message), capacity)
  {
  }

  lemma IncreasingAppend(positions: seq<nat>, bound: nat)
    requires Increasing(positions, bound)
    ensures Increasing(positions, bound + 1) && Increasing(positions + [bound], bound + 1)
    ensures forall p :: p in positions + [bound] <==> p in positions || p == bound
  {
    var more := positions + [bound];
    assert more[|positions|] == bound;
    forall i, j | 0 <= i < j < |more| ensures more[i] < more[j] {
      assert more[i] == positions[i] && positions[i] in positions;
      if j < |positions| { assert more[j] == positions[j]; }
    }
  }

  lemma TakeKeepsBox(box: Box, capacity: int)
    requires BoxOk(box, capacity)
    ensures BoxOk(Taken(box), capacity)
  {
    IncreasingAppend(box.taken, box.removed);
    IncreasingAppend(box.evicted, box.removed);
  }

  lemma EvictKeepsBox(box: Box, message: Message, capacity: int)
    requires BoxOk(box, capacity) && Full(box, capacity)
    ensures BoxOk(Put(Discarded(box.(offered := box.offered + 1)), message), capacity)
  {
    IncreasingAppend(box.taken, box.removed);
    IncreasingAppend(box.evicted, box.removed);
  }

  lemma OpKeepsBox(box: Box, op: QueueOp, capacity: int)
    requires BoxOk(box, capacity)
    ensures BoxOk(Apply(box, op, capacity), capacity)
  {
    match op
    case Take => TakeKeepsBox(box, capacity);
    case Offer(message, priority) =>
      if !Full(box, capacity) { PutKeepsBox(box, message, capacity); }
      else if priority { EvictKeepsBox(box, message, capacity); }
  }

  /** The queue discipline over every run of sends and dequeues. */
  lemma {:induction false} QueueDiscipline(ops: seq<QueueOp>, capacity: int)
    ensures BoxOk(RunOps(ops, capacity), capacity)
  {
    if ops != [] {
      QueueDiscipline(ops[..|ops| - 1], capacity);
      OpKeepsBox(RunOps(ops[..|ops| - 1], capacity), ops[|ops| - 1], capacity);
    }
  }

  lemma QueuedOnArrivalIff(box: Box, message: Message, priority: bool, capacity: int)
    requires BoxOk(box, capacity)
    ensures Offered(box, message, priority, capacity).accepted
         == box.accepted + (if priority || !Full(box, capacity) then [message] else [])
    ensures |Offered(box, message, priority, capacity).evicted|
         == |box.evicted| + if priority && Full(box, capacity) then 1 else 0
    ensures Full(box, capacity) <==> 0 < capacity == |box.queue|
  {
  }

  function Offers(ops: seq<QueueOp>): seq<QueueOp> {
    if ops == [] then []
    else Offers(ops[..|ops| - 1]) + if ops[|ops| - 1].Offer? then [ops[|ops| - 1]] else []
  }

  /** The offers that were queued, in order. */
  function Queued(ops: seq<QueueOp>, capacity: int): seq<QueueOp> {
    if ops == [] then []
    else
      var before, last := ops[..|ops| - 1], ops[|ops| - 1];
      Queued(before, capacity)
      + if last.Offer? && |RunOps(before, capacity).accepted| < |RunOps(ops, capacity).accepted| then [last] else []
  }

  function Urgent(ops: seq<QueueOp>): seq<QueueOp> {
    if ops == [] then []
    else
      var last := ops[|ops| - 1];
      Urgent(ops[..|ops| - 1]) + if last.Offer? && last.priority then [last] else []
  }

  function MessagesOf(ops: seq<QueueOp>): seq<Message>
    requires forall op <- ops :: op.Offer?
  {
    seq(|ops|, i requires 0 <= i < |ops| => assert ops[i] in ops; ops[i].message)
  }

  lemma OneMore(ops: seq<QueueOp>, op: QueueOp, capacity: int)
    ensures RunOps(ops + [op], capacity) == Apply(RunOps(ops, capacity), op, capacity)
    ensures Urgent(ops + [op]) == if op.Offer? && op.priority then Urgent(ops) + [op] else Urgent(ops)
    ensures Offers(ops + [op]) == if op.Offer? then Offers(ops) + [op] else Offers(ops)
    ensures Queued(ops + [op], capacity)
         == if op.Offer? && |RunOps(ops, capacity).accepted| < |RunOps(ops + [op], capacity).accepted|
            then Queued(ops, capacity) + [op] else Queued(ops, capacity)
  {
    assert (ops + [op])[..|ops|] == ops;
  }

  lemma MessagesOneMore(ops: seq<QueueOp>, op: QueueOp)
    requires op.Offer? && forall o <- ops :: o.Offer?
    ensures (forall o <- ops + [op] :: o.Offer?) && MessagesOf(ops + [op]) == MessagesOf(ops) + [op.message]
  {
  }

  /** What one operation does to the run's record. */
  lemma Recorded(ops: seq<QueueOp>, op: QueueOp, capacity: int)
    ensures var box, next := RunOps(ops, capacity), RunOps(ops + [op], capacity);
            var queued := op.Offer? && (op.priority || !Full(box, capacity));
            && Queued(ops + [op], capacity) == (if queued then Queued(ops, capacity) + [op] else Queued(ops, capacity))
            && next.accepted == (if queued then box.accepted + [op.message] else box.accepted)
            && |next.evicted| == |box.evicted| + (if op.Offer? && op.priority && Full(box, capacity) then 1 else 0)
            && next.dropped == box.dropped + if op.Offer? && Full(box, capacity) then 1 else 0
  {
    hide BoxOk, Offered, Queued, RunOps, Full;
    QueueDiscipline(ops, capacity);
    OneMore(ops, op, capacity);
    if op.Offer? {
      QueuedOnArrivalIff(RunOps(ops, capacity), op.message, op.priority, capacity);
      DroppedOnArrivalIff(RunOps(ops, capacity), op.message, op.priority, capacity);
    }
  }

  /** Over every run: what has been accepted is what was queued; no priority message is ever refused;
      every eviction is owed to a priority message; and what is dropped was evicted or refused. */
  lemma {:induction false} PriorityIsNeverRefused(ops: seq<QueueOp>, capacity: int)
    ensures forall op <- Queued(ops, capacity) :: op.Offer?
    ensures RunOps(ops, capacity).accepted == MessagesOf(Queued(ops, capacity))
    ensures Urgent(Queued(ops, capacity)) == Urgent(Offers(ops))
    ensures |RunOps(ops, capacity).evicted| <= |Urgent(Offers(ops))|
    ensures RunOps(ops, capacity).dropped
         == |RunOps(ops, capacity).evicted| + |Offers(ops)| - |Queued(ops, capacity)|
  {
    if ops != [] {
      hide RunOps, Queued, Offers, Urgent, MessagesOf, Full;
      var before, last := ops[..|ops| - 1], ops[|ops| - 1];
      assert ops == before + [last];
      PriorityIsNeverRefused(before, capacity);
      OneMore(before, last, capacity);
      Recorded(before, last, capacity);
      OneMore(Offers(before), last, capacity);
      OneMore(Queued(before, capacity), last, capacity);
      if last.Offer? { MessagesOneMore(Queued(before, capacity), last); }
    }
  }

  lemma DroppedOnArrivalIff(box: Box, message: Message, priority: bool, capacity: int)
    requires BoxOk(box, capacity)
    ensures Offered(box, message, priority, capacity).dropped == box.dropped + if Full(box, capacity) then 1 else 0
  {
  }

  lemma OpOnlyAdds(box: Box, op: QueueOp, capacity: int)
    ensures box.evicted <= Apply(box, op, capacity).evicted && box.accepted <= Apply(box, op, capacity).accepted
  {
  }

  lemma {:induction false} RunOnlyAdds(ops: seq<QueueOp>, more: seq<QueueOp>, capacity: int)
    ensures RunOps(ops, capacity).evicted <= RunOps(ops + more, capacity).evicted
    ensures RunOps(ops, capacity).accepted <= RunOps(ops + more, capacity).accepted
  {
    hide Apply;
    if more == [] {
      assert ops + more == ops;
    } else {
      var n := |more| - 1;
      RunOnlyAdds(ops, more[..n], capacity);
      assert (ops + more)[..|ops + more| - 1] == ops + more[..n];
      OpOnlyAdds(RunOps(ops + more[..n], capacity), more[n], capacity);
    }
  }

  /** Priority does not protect a queued alert: at the head of a full queue it is gone for good with
      the next alert to arrive, whatever happens later. */
  lemma AlertsEvictAlerts(ops: seq<QueueOp>, alert: Message, more: seq<QueueOp>, capacity: int)
    requires alert.Alerts? && Full(RunOps(ops, capacity), capacity) && RunOps(ops, capacity).queue[0].Alerts?
    ensures var box, t := RunOps(ops, capacity), RunOps(ops + [Offer(alert, true)] + more, capacity);
            && box.removed < |t.accepted| && t.accepted[box.removed] == box.queue[0]
            && box.removed in t.evicted && box.removed !in t.taken
  {
    hide BoxOk;
    var box, next := RunOps(ops, capacity), ops + [Offer(alert, true)];
    assert next[..|next| - 1] == ops;
    QueueDiscipline(ops, capacity);
    HeadIsEvicted(box, alert, capacity);
    RunOnlyAdds(next, more, capacity);
    QueueDiscipline(next + more, capacity);
    EvictedNotTaken(RunOps(next + more, capacity), box.removed, capacity);
    var evicted, all := RunOps(next, capacity).evicted, RunOps(next + more, capacity).evicted;
    assert all[|evicted| - 1] == evicted[|evicted| - 1];
  }

  lemma HeadIsEvicted(box: Box, alert: Message, capacity: int)
    requires BoxOk(box, capacity) && Full(box, capacity)
    ensures box.queue != []
    ensures var t := Offered(box, alert, true, capacity);
            && t.evicted == box.evicted + [box.removed]
            && box.removed < |t.accepted| && t.accepted[box.removed] == box.queue[0]
  {
  }

  lemma EvictedNotTaken(box: Box, p: nat, capacity: int)
    requires BoxOk(box, capacity)
    ensures p in box.evicted ==> p !in box.taken
  {
  }

  class Connection {
    const userId: User
    const capacity: int
    var queue: seq<Message>
    var dropped: nat
    ghost var box: Box

    ghost predicate Valid() reads this {
      BoxOk(box, capacity) && queue == box.queue && dropped == box.dropped
    }

    constructor (userId: User, capacity: int)
      ensures Valid() && box == EmptyBox() && this.userId == userId && this.capacity == capacity
    {
      this.userId, this.capacity := userId, capacity;
      queue, dropped, box := [], 0, EmptyBox();
    }

    method Send(message: Message, priority: bool)
      requires Valid()
      modifies this
      ensures Valid() && box == Offered(old(box), message, priority, capacity)
      ensures if capacity <= 0 || |old(queue)| < capacity
              then queue == old(queue) + [message] && dropped == old(dropped)
              else
                && |old(queue)| == capacity && dropped == old(dropped) + 1
                && queue == if priority then old(queue)[1..] + [message] else old(queue)
    {
      OpKeepsBox(box, Offer(message, priority), capacity);
      box := Offered(box, message, priority, capacity);
      if capacity > 0 && |queue| >= capacity {
        if !priority {
          dropped := dropped + 1;
          return;
        }
        DiscardOldest();
      }
      queue := queue + [message];
    }

    method DiscardOldest()
      modifies `queue, `dropped
      ensures if old(queue) == [] then queue == [] && dropped == old(dropped)
              else queue == old(queue)[1..] && dropped == old(dropped) + 1
    {
      if queue == [] { return; }
      queue := queue[1..];
      dropped := dropped + 1;
    }

    /** The sender takes the head of the queue; None where it would wait. */
    method TakeNext() returns (message: Option<Message>)
      requires Valid()
      modifies this
      ensures Valid() && box == Taken(old(box))
      ensures message == if old(queue) == [] then None else Some(old(queue)[0])
      // what is taken leaves the queue, and its position is noted
      ensures old(queue) == [] ==> box == old(box)
      ensures old(queue) != [] ==>
                && queue == old(queue)[1..] && box.taken == old(box).taken + [old(box).removed]
                && old(box).removed < |box.accepted| && message == Some(box.accepted[old(box).removed])
    {
      OpKeepsBox(box, Take, capacity);
      box := Taken(box);
      if queue == [] { return None; }
      message := Some(queue[0]);
      queue := queue[1..];
    }
  }

  // ----- Who is connected -----

  function Sessions<C>(connections: map<User, set<C>>, user: User): set<C> {
    if user in connections then connections[user] else {}
  }

  function Added<C>(connections: map<User, set<C>>, user: User, c: C): map<User, set<C>> {
    connections[user := Sessions(connections, user) + {c}]
  }

  function Removed<C>(connections: map<User, set<C>>, user: User, c: C): map<User, set<C>> {
    var rest := Sessions(connections, user) - {c};
    if Sessions(connections, user) == {} then connections
    else if rest == {} then connections - {user}
    else connections[user := rest]
  }

  /** A session is there until it is removed, and no other session is touched. */
  lemma SessionsExact<C>(connections: map<User, set<C>>, user: User, c: C, u: User, d: C)
    ensures d in Sessions(Added(connections, user, c), u) <==> d in Sessions(connections, u) || (u == user && d == c)
    ensures d in Sessions(Removed(connections, user, c), u) <==> d in Sessions(connections, u) && !(u == user && d == c)
  {
    if u == user {
      var rest := Sessions(connections, user) - {c};
      assert d in rest <==> d in Sessions(connections, user) && d != c;
    }
  }

  ghost predicate NoEmptySessions<C>(connections: map<User, set<C>>) {
    forall u <- connections :: connections[u] != {}
  }

  /** add answers True if and only if the user had no session, or this very one; discard if and only
      if it was the last one. The users listed are those with a session, before and after. */
  lemma SignalsIff<C>(connections: map<User, set<C>>, user: User, c: C)
    requires NoEmptySessions(connections)
    ensures NoEmptySessions(Added(connections, user, c)) && NoEmptySessions(Removed(connections, user, c))
    ensures |Sessions(Added(connections, user, c), user)| == 1 <==> Sessions(connections, user) <= {c}
    ensures (user in connections && user !in Removed(connections, user, c)) <==> Sessions(connections, user) == {c}
    ensures Added(connections, user, c).Keys == connections.Keys + {user}
  {
    var sessions := Sessions(connections, user) + {c};
    if |sessions| == 1 {
      assert |sessions - {c}| == 0;
      assert sessions - {c} == {};
    } else {
      assert sessions != {c};
    }
  }

  class ConnectionRegistry {
    var connections: map<User, set<Connection>>

    ghost function All(): set<Connection> reads this {
      set u, c | u in connections && c in connections[u] :: c
    }

    ghost predicate Valid() reads this, All() {
      && NoEmptySessions(connections)
      && forall u <- connections, c <- connections[u] :: c.userId == u && c.Valid()
    }

    constructor ()
      ensures Valid() && connections == map[]
    {
      connections := map[];
    }

    method Add(connection: Connection) returns (first: bool)
      requires Valid() && connection.Valid()
      modifies this
      ensures Valid() && connections == Added(old(connections), connection.userId, connection)
      ensures first <==> Sessions(old(connections), connection.userId) <= {connection}
      ensures forall u, d :: d in Sessions(connections, u) <==>
                d in Sessions(old(connections), u) || (u == connection.userId && d == connection)
    {
      forall u, d { SessionsExact(connections, connection.userId, connection, u, d); }
      SignalsIff(connections, connection.userId, connection);
      connections := Added(connections, connection.userId, connection);
      first := |connections[connection.userId]| == 1;
    }

    method Discard(connection: Connection) returns (last: bool)
      requires Valid()
      modifies this
      ensures Valid() && connections == Removed(old(connections), connection.userId, connection)
      ensures last <==> Sessions(old(connections), connection.userId) == {connection}
      ensures forall u, d :: d in Sessions(connections, u) <==>
                d in Sessions(old(connections), u) && !(u == connection.userId && d == connection)
    {
      forall u, d { SessionsExact(connections, connection.userId, connection, u, d); }
      SignalsIff(connections, connection.userId, connection);
      var user := connection.userId;
      if user !in connections || connections[user] == {} { return false; }
      var sessions := connections[user] - {connection};
      if sessions != {} {
        connections := connections[user := sessions];
        return false;
      }
      connections := connections - {user};
      last := true;
    }

    /** Every session of the user is offered the message, and no other connection is touched. */
    method SendToUser(user: User, message: Message, priority: bool)
      requires Valid()
      modifies Sessions(connections, user)
      ensures Valid() && connections == old(connections)
      ensures user in connections ==>
                forall c <- connections[user] :: c.box == Offered(old(c.box), message, priority, c.capacity)
    {
      SendAll(Sessions(connections, user), message, priority);
    }

    method Broadcast(message: Message, priority: bool)
      requires Valid()
      modifies All()
      ensures Valid() && connections == old(connections)
      ensures forall u <- connections, c <- connections[u] ::
                c.box == Offered(old(c.box), message, priority, c.capacity)
    {
      var left := connections.Keys;
      while left != {}
        invariant Valid() && left <= connections.Keys
        invariant forall u <- connections.Keys - left, c <- connections[u] ::
                    c.box == Offered(old(c.box), message, priority, c.capacity)
        invariant forall u <- left, c <- connections[u] :: c.box == old(c.box)
        decreases |left|
      {
        ghost var some := SomeMember(left);
        var user :| user in left;
        SendAll(connections[user], message, priority);
        left := left - {user};
      }
    }
  }

  method SendAll(targets: set<Connection>, message: Message, priority: bool)
    requires forall c <- targets :: c.Valid()
    modifies targets
    ensures forall c <- targets :: c.Valid() && c.box == Offered(old(c.box), message, priority, c.capacity)
  {
    var left := targets;
    while left != {}
      invariant left <= targets
      invariant forall c <- targets :: c.Valid()
      invariant forall c <- targets - left :: c.box == Offered(old(c.box), message, priority, c.capacity)
      invariant forall c <- left :: c.box == old(c.box)
      decreases |left|
    {
      var c :| c in left;
      c.Send(message, priority);
      left := left - {c};
    }
  }
}
