/** The pub/sub subscription of a process against the connections it serves. */
module Subscriber {
  import opened Faults
  import opened Presence
  import opened Registry
  import opened Events

  // ----- Commands on the wire -----

  datatype Cmd = Subscribe(names: set<string>) | Unsubscribe(name: string)

  function Executed(channels: set<string>, cmd: Cmd): set<string> {
    match cmd
    case Subscribe(names) => channels + names
    case Unsubscribe(name) => channels - {name}
  }

  /** The channels subscribed once all outstanding commands have run, in the order issued. */
  function Replay(channels: set<string>, cmds: seq<Cmd>): set<string> {
    if cmds == [] then channels
    else Executed(Replay(channels, cmds[..|cmds| - 1]), cmds[|cmds| - 1])
  }

  lemma ReplayIssue(channels: set<string>, cmds: seq<Cmd>, cmd: Cmd)
    ensures Replay(channels, cmds + [cmd]) == Executed(Replay(channels, cmds), cmd)
  {
    assert (cmds + [cmd])[..|cmds|] == cmds;
  }

  lemma {:induction false} ReplayFirst(channels: set<string>, cmds: seq<Cmd>)
    requires cmds != []
    ensures Replay(Executed(channels, cmds[0]), cmds[1..]) == Replay(channels, cmds)
    decreases |cmds|
  {
    var n := |cmds| - 1;
    if n > 0 {
      ReplayFirst(channels, cmds[..n]);
      assert cmds[..n][1..] == cmds[1..][..n - 1];
      assert cmds[1..][n - 1] == cmds[n];
    } else {
      assert cmds[1..] == [] && cmds[..n] == [];
    }
  }

  /** The shared channel, and one per user with a session. */
  function Wanted(users: set<User>): set<string> {
    {POSITION_CHANNEL} + set u | u in users :: AlertChannel(u)
  }

  lemma WantedGrows(users: set<User>, user: User)
    ensures Wanted(users + {user}) == Wanted(users) + {AlertChannel(user)}
  {
    forall u | u in users ensures AlertChannel(u) in Wanted(users + {user}) {}
  }

  lemma WantedShrinks(users: set<User>, user: User)
    requires user in users
    ensures Wanted(users - {user}) == Wanted(users) - {AlertChannel(user)}
  {
    ChannelLeadsBack(user);
    forall u | u in users ensures AlertChannel(u) == AlertChannel(user) <==> u == user { ChannelsDiffer(u, user); }
  }

  // ----- The process as a state machine -----

  datatype State<!C> = State(connections: map<User, set<C>>, channels: set<string>, outstanding: seq<Cmd>)

  datatype Event<!C> =
    | Attach(user: User, c: C, sent: bool)  // `sent`: its command, if any, got out
    | Detach(user: User, c: C, sent: bool)
    | Execute                     // Redis runs the first outstanding command
    | Drop(kept: set<string>)     // the connection drops: outstanding commands are lost
    | Resubscribe                 // _resubscribe gets its command through

  function Target<C>(s: State<C>): set<string> { Wanted(s.connections.Keys) }
  function Eventual<C>(s: State<C>): set<string> { Replay(s.channels, s.outstanding) }

  /** After start(): the shared channel is being subscribed, nobody is connected. */
  function Started<C>(): State<C> { State(map[], {}, [Subscribe({POSITION_CHANNEL})]) }

  function Next<C>(s: State<C>, e: Event<C>): State<C> {
    match e
    case Attach(user, c, sent) =>
      s.(connections := Added(s.connections, user, c),
         outstanding := s.outstanding + if sent && Sessions(s.connections, user) <= {c}
                                        then [Subscribe({AlertChannel(user)})] else [])
    case Detach(user, c, sent) =>
      s.(connections := Removed(s.connections, user, c),
         outstanding := s.outstanding + if sent && Sessions(s.connections, user) == {c}
                                        then [Unsubscribe(AlertChannel(user))] else [])
    case Execute =>
      if s.outstanding == [] then s
      else s.(channels := Executed(s.channels, s.outstanding[0]), outstanding := s.outstanding[1..])
    case Drop(kept) => s.(channels := kept, outstanding := [])
    case Resubscribe => s.(outstanding := s.outstanding + [Subscribe(Target(s))])
  }

  function Run<C>(s: State<C>, events: seq<Event<C>>): State<C>
    decreases |events|
  {
    if events == [] then s else Run(Next(s, events[0]), events[1..])
  }

  /** The session has been attached and not detached since. */
  ghost predicate AttachedSince<C>(events: seq<Event<C>>, user: User, c: C) {
    exists i :: 0 <= i < |events| && events[i].Attach? && events[i].user == user && events[i].c == c
                && !DetachedFrom(events, i + 1, user, c)
  }

  ghost predicate DetachedFrom<C>(events: seq<Event<C>>, i: nat, user: User, c: C) {
    exists j :: i <= j < |events| && events[j].Detach? && events[j].user == user && events[j].c == c
  }

  /** Over every run, whatever drops and fails, the sessions of a user are exactly those attached and not
      detached since. */
  lemma SessionsOverRuns<C>(events: seq<Event<C>>, user: User, c: C)
    ensures c in Sessions(Run(Started<C>(), events).connections, user) <==> AttachedSince(events, user, c)
  {
    SessionsFrom(Started<C>(), events, user, c);
  }

  lemma {:induction false} SessionsFrom<C>(s: State<C>, events: seq<Event<C>>, user: User, c: C)
    ensures c in Sessions(Run(s, events).connections, user) <==>
            || AttachedSince(events, user, c)
            || (c in Sessions(s.connections, user) && !DetachedFrom(events, 0, user, c))
    decreases |events|
  {
    hide Sessions, AttachedSince, DetachedFrom;
    if events == [] {
      NoEvents<C>(user, c);
    } else {
      SessionsFrom(Next(s, events[0]), events[1..], user, c);
      FirstEvent(events, user, c);
      match events[0]
      case Attach(u, d, _) => SessionsExact(s.connections, u, d, user, c);
      case Detach(u, d, _) => SessionsExact(s.connections, u, d, user, c);
      case _ =>
    }
  }

  lemma NoEvents<C>(user: User, c: C)
    ensures !AttachedSince<C>([], user, c) && !DetachedFrom<C>([], 0, user, c)
  {
  }

  lemma FirstEvent<C>(events: seq<Event<C>>, user: User, c: C)
    requires events != []
    ensures var e, rest := events[0], events[1..];
            && (AttachedSince(events, user, c) <==>
                  || AttachedSince(rest, user, c)
                  || (e.Attach? && e.user == user && e.c == c && !DetachedFrom(rest, 0, user, c)))
            && (DetachedFrom(events, 0, user, c) <==>
                  (e.Detach? && e.user == user && e.c == c) || DetachedFrom(rest, 0, user, c))
  {
    hide DetachedFrom;
    var rest := events[1..];
    forall i: nat ensures DetachedFrom(events, i + 1, user, c) <==> DetachedFrom(rest, i, user, c) {
      DetachedTail(events, i, user, c);
    }
    DetachedHead(events, user, c);
    if AttachedSince(rest, user, c) {
      var i :| 0 <= i < |rest| && rest[i].Attach? && rest[i].user == user && rest[i].c == c
               && !DetachedFrom(rest, i + 1, user, c);
      assert events[i + 1] == rest[i];
    }
    if AttachedSince(events, user, c) {
      var i :| 0 <= i < |events| && events[i].Attach? && events[i].user == user && events[i].c == c
               && !DetachedFrom(events, i + 1, user, c);
      if i > 0 { assert rest[i - 1] == events[i]; }
    }
  }

  lemma DetachedTail<C>(events: seq<Event<C>>, i: nat, user: User, c: C)
    requires events != []
    ensures DetachedFrom(events, i + 1, user, c) <==> DetachedFrom(events[1..], i, user, c)
  {
    if j :| i + 1 <= j < |events| && events[j].Detach? && events[j].user == user && events[j].c == c {
      assert events[1..][j - 1] == events[j];
    }
    if j :| i <= j < |events[1..]| && events[1..][j].Detach? && events[1..][j].user == user && events[1..][j].c == c {
      assert events[j + 1] == events[1..][j];
    }
  }

  lemma DetachedHead<C>(events: seq<Event<C>>, user: User, c: C)
    requires events != []
    ensures DetachedFrom(events, 0, user, c) <==>
            (events[0].Detach? && events[0].user == user && events[0].c == c) || DetachedFrom(events, 1, user, c)
  {
  }

  /** Nothing goes wrong: no drop, and every command gets out. */
  predicate Smooth<C>(e: Event<C>) {
    !e.Drop? && (e.Attach? || e.Detach? ==> e.sent)
  }

  lemma AttachEffect<C>(s: State<C>, user: User, c: C, sent: bool)
    requires NoEmptySessions(s.connections)
    ensures var t := Next(s, Attach(user, c, sent));
            && NoEmptySessions(t.connections)
            && Target(t) == Target(s) + {AlertChannel(user)}
            && Eventual(t) == Eventual(s)
                              + (if sent && Sessions(s.connections, user) <= {c} then {AlertChannel(user)} else {})
            && (!(Sessions(s.connections, user) <= {c}) ==> AlertChannel(user) in Target(s))
  {
    SignalsIff(s.connections, user, c);
    WantedGrows(s.connections.Keys, user);
    ReplayIssue(s.channels, s.outstanding, Subscribe({AlertChannel(user)}));
    assert s.outstanding + [] == s.outstanding;
  }

  lemma DetachEffect<C>(s: State<C>, user: User, c: C, sent: bool)
    requires NoEmptySessions(s.connections)
    ensures var t := Next(s, Detach(user, c, sent));
            && NoEmptySessions(t.connections)
            && Target(t) == Target(s) - (if Sessions(s.connections, user) == {c} then {AlertChannel(user)} else {})
            && Eventual(t) == Eventual(s)
                              - (if sent && Sessions(s.connections, user) == {c} then {AlertChannel(user)} else {})
  {
    SignalsIff(s.connections, user, c);
    ReplayIssue(s.channels, s.outstanding, Unsubscribe(AlertChannel(user)));
    assert s.outstanding + [] == s.outstanding;
    var t := Next(s, Detach(user, c, sent));
    if Sessions(s.connections, user) == {c} {
      WantedShrinks(s.connections.Keys, user);
      assert t.connections.Keys == s.connections.Keys - {user};
    } else {
      assert t.connections.Keys == s.connections.Keys;
    }
  }

  /** What keeps coverage and containment, and so exactness. */
  lemma EventKeeps<C>(s: State<C>, e: Event<C>)
    requires NoEmptySessions(s.connections)
    ensures NoEmptySessions(Next(s, e).connections)
    ensures Target(s) <= Eventual(s) && !e.Drop? && (e.Attach? ==> e.sent) ==>
              Target(Next(s, e)) <= Eventual(Next(s, e))
    ensures Eventual(s) <= Target(s) && !e.Drop? && (e.Detach? ==> e.sent) ==>
              Eventual(Next(s, e)) <= Target(Next(s, e))
  {
    hide Target, Eventual, Next;
    match e
    case Attach(user, c, sent) => AttachEffect(s, user, c, sent);
    case Detach(user, c, sent) => DetachEffect(s, user, c, sent);
    case Execute => ExecuteEffect(s);
    case Resubscribe => ResubscribeEffect(s);
    case Drop(kept) => DropEffect(s, kept);
  }

  lemma DropEffect<C>(s: State<C>, kept: set<string>)
    ensures Next(s, Drop(kept)).connections == s.connections && Eventual(Next(s, Drop(kept))) == kept
  {
  }

  lemma ExecuteEffect<C>(s: State<C>)
    ensures Eventual(Next(s, Execute)) == Eventual(s) && Next(s, Execute).connections == s.connections
    ensures Target(Next(s, Execute)) == Target(s)
  {
    if s.outstanding != [] { ReplayFirst(s.channels, s.outstanding); }
  }

  lemma ResubscribeEffect<C>(s: State<C>)
    ensures var t := Next(s, Resubscribe);
            t.connections == s.connections && Target(t) == Target(s) && Eventual(t) == Eventual(s) + Target(s)
  {
    ReplayIssue(s.channels, s.outstanding, Subscribe(Target(s)));
  }

  lemma {:induction false} RunKeeps<C>(s: State<C>, events: seq<Event<C>>)
    requires NoEmptySessions(s.connections) && forall e <- events :: Smooth(e)
    ensures NoEmptySessions(Run(s, events).connections)
    ensures Target(s) <= Eventual(s) ==> Target(Run(s, events)) <= Eventual(Run(s, events))
    ensures Eventual(s) <= Target(s) ==> Eventual(Run(s, events)) <= Target(Run(s, events))
    decreases |events|
  {
    hide Target, Eventual, Next;
    if events != [] {
      assert Smooth(events[0]);
      EventKeeps(s, events[0]);
      RunKeeps(Next(s, events[0]), events[1..]);
    }
  }

  lemma {:induction false} RunKeepsSessions<C>(s: State<C>, events: seq<Event<C>>)
    requires NoEmptySessions(s.connections)
    ensures NoEmptySessions(Run(s, events).connections)
    decreases |events|
  {
    hide Target, Eventual;
    if events != [] {
      EventKeeps(s, events[0]);
      RunKeepsSessions(Next(s, events[0]), events[1..]);
    }
  }

  /** As long as the connection holds and commands get out, the subscription is at any time going
      to be exactly the shared channel and one channel per connected user. */
  lemma SubscriptionTracksSessions<C>(events: seq<Event<C>>)
    requires forall e <- events :: Smooth(e)
    ensures Eventual(Run(Started<C>(), events)) == Target(Run(Started<C>(), events))
    ensures POSITION_CHANNEL in Eventual(Run(Started<C>(), events))
  {
    var s: State<C> := Started();
    assert Eventual(s) == {POSITION_CHANNEL} == Target(s) by {
      ReplayIssue({}, [], Subscribe({POSITION_CHANNEL}));
      assert [] + [Subscribe({POSITION_CHANNEL})] == [Subscribe({POSITION_CHANNEL})];
    }
    RunKeeps(s, events);
  }

  /** After any history of drops and failed commands, a resubscription that gets through covers every connected user
      again, from then on for as long as the connection holds; it is exact from then on if no
      channel of a departed user was left subscribed. */
  lemma ResubscribeRestores<C>(before: seq<Event<C>>, after: seq<Event<C>>)
    requires forall e <- after :: Smooth(e)
    ensures var s := Run(Started<C>(), before);
            var t := Run(Next(s, Resubscribe), after);
            && Target(t) <= Eventual(t)
            && (Eventual(s) <= Target(s) ==> Eventual(t) == Target(t))
    ensures var s := Run(Started<C>(), before);
            Eventual(Next(s, Resubscribe)) == Target(Next(s, Resubscribe)) <==> Eventual(s) <= Target(s)
  {
    hide Target, Eventual, Next;
    var s := Run(Started<C>(), before);
    RunKeepsSessions(Started<C>(), before);
    ResubscribeEffect(s);
    RunKeeps(Next(s, Resubscribe), after);
  }

  /** A departed user's channel can be left, and no resubscription removes it: the user attaches, and
      the UNSUBSCRIBE of the detach fails. */
  lemma DepartedChannelStays<C>(user: User, c: C)
    ensures var s := Run(Started<C>(), [Attach(user, c, true), Detach(user, c, false)]);
            && s.connections == map[]
            && AlertChannel(user) in Eventual(Next(s, Resubscribe))
            && AlertChannel(user) !in Target(Next(s, Resubscribe))
  {
    var s0: State<C> := Started();
    var s1 := Next(s0, Attach(user, c, true));
    var s2 := Next(s1, Detach(user, c, false));
    assert [Attach(user, c, true), Detach(user, c, false)][1..] == [Detach(user, c, false)];
    assert [Detach(user, c, false)][1..] == [];
    assert Run(s1, [Detach(user, c, false)]) == Run(s2, []) == s2;
    assert Sessions(s0.connections, user) + {c} == {c};
    assert s1.connections == map[user := {c}];
    assert s2.connections == map[];
    AttachEffect(s0, user, c, true);
    DetachEffect(s1, user, c, false);
    ResubscribeEffect(s2);
    UserCovered(s2, user);
  }

  lemma {:induction false} ForgettingDropsContain<C>(s: State<C>, events: seq<Event<C>>)
    requires NoEmptySessions(s.connections) && Eventual(s) <= Target(s)
    requires forall e <- events :: (e.Drop? ==> e.kept == {}) && (e.Detach? ==> e.sent)
    ensures Eventual(Run(s, events)) <= Target(Run(s, events))
    decreases |events|
  {
    if events != [] {
      var t := Next(s, events[0]);
      EventKeeps(s, events[0]);
      ForgettingDropsContain(t, events[1..]);
    }
  }

  /** When Redis forgets the subscriptions of a dropped connection and no UNSUBSCRIBE has failed,
      a resubscription is exact, whichever SUBSCRIBEs have failed. */
  lemma ResubscribeExactAfterForgetting<C>(before: seq<Event<C>>, after: seq<Event<C>>)
    requires forall e <- before :: (e.Drop? ==> e.kept == {}) && (e.Detach? ==> e.sent)
    requires forall e <- after :: Smooth(e)
    ensures var t := Run(Next(Run(Started<C>(), before), Resubscribe), after); Eventual(t) == Target(t)
  {
    ForgettingDropsContain(Started<C>(), before);
    ResubscribeRestores(before, after);
  }

  // ----- A SUBSCRIBE that fails -----

  /** `lost` is a session of the user that stays registered. */
  predicate LeavesAlone<C(==)>(e: Event<C>, user: User, lost: C) {
    match e
    case Attach(u, c, _) => u == user ==> c != lost
    case Detach(u, c, _) => u == user ==> c != lost
    case Drop(kept) => AlertChannel(user) !in kept
    case Resubscribe => false
    case Execute => true
  }

  lemma StillSilent<C>(s: State<C>, e: Event<C>, user: User, lost: C)
    requires NoEmptySessions(s.connections) && lost in Sessions(s.connections, user) && LeavesAlone(e, user, lost)
    requires AlertChannel(user) !in Eventual(s)
    ensures lost in Sessions(Next(s, e).connections, user) && AlertChannel(user) !in Eventual(Next(s, e))
  {
    hide Target, Eventual;
    match e
    case Attach(u, c, sent) => AttachEffect(s, u, c, sent); ChannelsDiffer(u, user);
    case Detach(u, c, sent) => DetachEffect(s, u, c, sent);
    case Execute => ExecuteEffect(s);
    case Drop(kept) => DropEffect(s, kept);
  }

  /** A session registered without its channel silences its user: as long as it stays and nothing
      resubscribes, no further session of the user brings the channel back. */
  lemma {:induction false} SilencedUntilResubscribe<C>(s: State<C>, events: seq<Event<C>>, user: User, lost: C)
    requires NoEmptySessions(s.connections) && lost in Sessions(s.connections, user)
    requires AlertChannel(user) !in Eventual(s) && forall e <- events :: LeavesAlone(e, user, lost)
    ensures AlertChannel(user) !in Eventual(Run(s, events)) && AlertChannel(user) in Target(Run(s, events))
    decreases |events|
  {
    hide Next, Eventual;
    if events != [] {
      EventKeeps(s, events[0]);
      StillSilent(s, events[0], user, lost);
      SilencedUntilResubscribe(Next(s, events[0]), events[1..], user, lost);
    }
  }

  /** From an exact subscription, an attach leaves its user covered if and only if its command got out
      or the user had a session before. */
  lemma AttachCoversIff<C>(s: State<C>, user: User, c: C, sent: bool)
    requires NoEmptySessions(s.connections) && Eventual(s) == Target(s)
    ensures var t := Next(s, Attach(user, c, sent));
            && (Target(t) <= Eventual(t) <==> sent || user in s.connections)
            && (Target(t) <= Eventual(t) <==> Eventual(t) == Target(t))
  {
    AttachEffect(s, user, c, sent);
    UserCovered(s, user);
  }

  lemma UserCovered<C>(s: State<C>, user: User)
    ensures AlertChannel(user) in Target(s) <==> user in s.connections
  {
    ChannelLeadsBack(user);
    forall u ensures AlertChannel(u) == AlertChannel(user) <==> u == user { ChannelsDiffer(u, user); }
  }

  /** The first SUBSCRIBE of a user fails: attach raises with the session registered, and since the
      route enters its try block only after attach, nothing ever detaches it. */
  lemma FailedSubscribeSilences<C>(s: State<C>, events: seq<Event<C>>, user: User, c: C)
    requires NoEmptySessions(s.connections) && user !in s.connections && AlertChannel(user) !in Eventual(s)
    requires forall e <- events :: LeavesAlone(e, user, c)
    ensures var t := Run(Next(s, Attach(user, c, false)), events);
            AlertChannel(user) in Target(t) && AlertChannel(user) !in Eventual(t)
  {
    AttachEffect(s, user, c, false);
    SilencedUntilResubscribe(Next(s, Attach(user, c, false)), events, user, c);
  }

  // ----- The True results of add and discard -----

  datatype Signal = Signal(user: User, joined: bool)

  /** The True result of an event, if any: of add (joined) or of discard. */
  function SignalOf<C>(s: State<C>, e: Event<C>): seq<Signal> {
    match e
    case Attach(user, c, _) => if Sessions(s.connections, user) <= {c} then [Signal(user, true)] else []
    case Detach(user, c, _) => if Sessions(s.connections, user) == {c} then [Signal(user, false)] else []
    case _ => []
  }

  /** The True results of a run. */
  function Signals<C>(s: State<C>, events: seq<Event<C>>): seq<Signal>
    decreases |events|
  {
    if events == [] then [] else SignalOf(s, events[0]) + Signals(Next(s, events[0]), events[1..])
  }

  predicate FreshAttach<C(==)>(s: State<C>, e: Event<C>) {
    e.Attach? ==> e.c !in Sessions(s.connections, e.user)
  }

  /** No connection is attached while it already is. */
  ghost predicate AttachedOnce<C>(s: State<C>, events: seq<Event<C>>)
    decreases |events|
  {
    events != [] ==>
      && FreshAttach(s, events[0])
      && AttachedOnce(Next(s, events[0]), events[1..])
  }

  function Of(signals: seq<Signal>, user: User): seq<bool> {
    if signals == [] then []
    else (if signals[0].user == user then [signals[0].joined] else []) + Of(signals[1..], user)
  }

  /** joined, left, joined, ... from `first` on. */
  predicate Alternating(flags: seq<bool>, first: bool)
    decreases |flags|
  {
    flags == [] || (flags[0] == first && Alternating(flags[1..], !first))
  }

  lemma OfConcat(first: seq<Signal>, rest: seq<Signal>, user: User)
    requires |first| <= 1
    ensures Of(first + rest, user) == Of(first, user) + Of(rest, user)
  {
    if first == [] {
      assert first + rest == rest;
    } else {
      assert (first + rest)[1..] == rest && first[1..] == [];
    }
  }

  /** A user's presence changes exactly with a True result of the matching kind. */
  lemma SignalFollowsPresence<C>(s: State<C>, e: Event<C>, user: User)
    requires NoEmptySessions(s.connections) && FreshAttach(s, e)
    ensures NoEmptySessions(Next(s, e).connections) && |SignalOf(s, e)| <= 1
    ensures var before, after := user in s.connections, user in Next(s, e).connections;
            Of(SignalOf(s, e), user) == if before == after then [] else [after]
  {
    match e
    case Attach(u, c, _) =>
      SignalsIff(s.connections, u, c);
      assert [Signal(u, true)][1..] == [];
    case Detach(u, c, _) =>
      SignalsIff(s.connections, u, c);
      assert [Signal(u, false)][1..] == [];
    case _ =>
  }

  /** Per user, the True results strictly alternate, starting with a join if the user is absent. */
  lemma {:induction false} SignalsAlternate<C>(s: State<C>, events: seq<Event<C>>, user: User)
    requires NoEmptySessions(s.connections) && AttachedOnce(s, events)
    ensures Alternating(Of(Signals(s, events), user), user !in s.connections)
    decreases |events|
  {
    hide Next, SignalOf, FreshAttach, Of;
    if events == [] {
      OfNone(user);
    } else {
      var e, t := events[0], Next(s, events[0]);
      SignalFollowsPresence(s, e, user);
      SignalsAlternate(t, events[1..], user);
      var rest := Signals(t, events[1..]);
      OfConcat(SignalOf(s, e), rest, user);
      if Of(SignalOf(s, e), user) == [] {
        assert [] + Of(rest, user) == Of(rest, user);
      } else {
        AlternatingCons(user !in s.connections, Of(rest, user));
      }
    }
  }

  lemma OfNone(user: User)
    ensures Of([], user) == []
  {
  }

  lemma AlternatingCons(flag: bool, flags: seq<bool>)
    ensures Alternating([flag] + flags, flag) <==> Alternating(flags, !flag)
  {
    assert ([flag] + flags)[1..] == flags;
  }

  // ----- The class -----

  /** A message as publish_alerts or publish_positions puts it on a channel. */
  ghost predicate Genuine(channel: string, message: Message) {
    if channel == POSITION_CHANNEL then message.Positions?
    else OnlyFor(message, RemovePrefix(channel, ALERT_CHANNEL_PREFIX))
  }

  lemma PublishedIsGenuine(hits: seq<ZoneHit>)
    ensures forall m <- Messages(hits) :: Genuine(m.channel, m.message)
  {
    forall m <- Messages(hits) ensures Genuine(m.channel, m.message) {
      DispatchIsPrivate(hits, m, RemovePrefix(m.channel, ALERT_CHANNEL_PREFIX), EmptyBox(), 0);
    }
  }

  class Subscriber {
    const registry: ConnectionRegistry
    /** The channels Redis has for this process, and the commands on their way to it. */
    var channels: set<string>
    var outstanding: seq<Cmd>
    ghost var faults: nat

    ghost function View(): State<Connection> reads this, registry {
      State(registry.connections, channels, outstanding)
    }

    /** Every registered connection holds, and has sent, alerts of its own user alone. */
    ghost predicate Valid() reads this, registry, registry.All() {
      registry.Valid() && forall c <- registry.All() :: Private(c.box, c.userId)
    }

    constructor (registry: ConnectionRegistry)
      requires registry.Valid() && registry.connections == map[]
      ensures Valid() && View() == Started() && this.registry == registry
    {
      this.registry := registry;
      channels, outstanding, faults := {}, [Subscribe({POSITION_CHANNEL})], 0;
    }

    /** attach. The session stays registered when the command fails. */
    method Attach(connection: Connection) returns (ok: bool)
      requires Valid() && connection.Valid() && Private(connection.box, connection.userId)
      modifies this, registry
      ensures Valid() && View() == Next(old(View()), Event.Attach(connection.userId, connection, ok))
      ensures ok <==> faults == old(faults)
      ensures !ok ==> Sessions(old(View()).connections, connection.userId) <= {connection}
    {
      var first := registry.Add(connection);
      ok := true;
      if first {
        var struck;
        struck, faults := Strike(faults);
        ok := !struck;
        if ok { outstanding := outstanding + [Subscribe({AlertChannel(connection.userId)})]; }
      }
      assert forall c <- registry.All() :: c == connection || c in old(registry.All());
      assert outstanding == Next(old(View()), Event.Attach(connection.userId, connection, ok)).outstanding;
    }

    method Detach(connection: Connection) returns (ok: bool)
      requires Valid()
      modifies this, registry
      ensures Valid() && View() == Next(old(View()), Event.Detach(connection.userId, connection, ok))
      ensures ok <==> faults == old(faults)
      ensures !ok ==> Sessions(old(View()).connections, connection.userId) == {connection}
    {
      var last := registry.Discard(connection);
      ok := true;
      if last {
        var struck;
        struck, faults := Strike(faults);
        ok := !struck;
        if ok { outstanding := outstanding + [Unsubscribe(AlertChannel(connection.userId))]; }
      }
      assert forall c <- registry.All() :: c in old(registry.All());
      assert outstanding == Next(old(View()), Event.Detach(connection.userId, connection, ok)).outstanding;
    }

    /** _resubscribe after a read error; a failure is logged and left to the next read. */
    method ResubscribeAll() returns (ok: bool)
      requires Valid()
      modifies this
      ensures Valid() && View() == if ok then Next(old(View()), Resubscribe) else old(View())
      ensures ok <==> faults == old(faults)
    {
      var struck;
      struck, faults := Strike(faults);
      ok := !struck;
      if struck { return; }
      outstanding := outstanding + [Subscribe(Wanted(registry.connections.Keys))];
    }

    /** _dispatch: positions go to everyone, alerts to the user the channel names. */
    method Dispatch(channel: string, message: Message)
      requires Valid() && Genuine(channel, message)
      modifies registry.All()
      ensures Valid() && View() == old(View())
      ensures forall c <- registry.All() :: c.box ==
                if channel == POSITION_CHANNEL then Offered(old(c.box), message, false, c.capacity)
                else if c.userId == RemovePrefix(channel, ALERT_CHANNEL_PREFIX)
                then Offered(old(c.box), message, true, c.capacity)
                else old(c.box)
    {
      if channel == POSITION_CHANNEL {
        registry.Broadcast(message, false);
      } else {
        registry.SendToUser(RemovePrefix(channel, ALERT_CHANNEL_PREFIX), message, true);
      }
    }
  }
}
