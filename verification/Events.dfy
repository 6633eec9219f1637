/** Publishing alerts: one message per user, on that user's channel. */
module Events {
  import opened Presence
  import opened Registry

  const ALERT_CHANNEL_PREFIX := "alerts:"
  const POSITION_CHANNEL := "positions"

  function AlertChannel(user: User): string { ALERT_CHANNEL_PREFIX + user }

  function RemovePrefix(s: string, prefix: string): string {
    if prefix <= s then s[|prefix|..] else s
  }

  /** A user's channel leads back to that user, whatever the user id, and is never the shared one. */
  lemma ChannelLeadsBack(user: User)
    ensures RemovePrefix(AlertChannel(user), ALERT_CHANNEL_PREFIX) == user
    ensures AlertChannel(user) != POSITION_CHANNEL
  {
    assert AlertChannel(user)[0] == 'a' && POSITION_CHANNEL[0] == 'p';
  }

  lemma ChannelsDiffer(a: User, b: User)
    ensures AlertChannel(a) == AlertChannel(b) <==> a == b
  {
    ChannelLeadsBack(a);
    ChannelLeadsBack(b);
  }

  datatype Published = Published(channel: string, message: Message)

  function Users(hits: seq<ZoneHit>): seq<User> {
    if hits == [] then [] else Users(hits[..|hits| - 1]) + [hits[|hits| - 1].user]
  }

  /** The user's hits, in order. */
  function HitsOfUser(hits: seq<ZoneHit>, user: User): seq<ZoneHit> {
    if hits == [] then []
    else
      var n := |hits| - 1;
      HitsOfUser(hits[..n], user) + if hits[n].user == user then [hits[n]] else []
  }

  /** One message per user with a hit, in the order of first hits. */
  function Messages(hits: seq<ZoneHit>): seq<Published> {
    var users := Entered({}, Users(hits));
    seq(|users|, i requires 0 <= i < |users| =>
      Published(AlertChannel(users[i]), Alerts(HitsOfUser(hits, users[i]))))
  }

  /** `by_user`: a dictionary, and its insertion order. */
  method Group(hits: seq<ZoneHit>) returns (byUser: map<User, seq<ZoneHit>>, order: seq<User>)
    ensures order == Entered({}, Users(hits))
    ensures forall u :: u in byUser <==> u in Users(hits)
    ensures forall u <- byUser :: byUser[u] == HitsOfUser(hits, u)
  {
    hide Users, HitsOfUser, Entered;
    byUser, order := map[], [];
    NoGroups();
    for i := 0 to |hits|
      invariant order == Entered({}, Users(hits[..i]))
      invariant forall u :: u in byUser <==> u in Users(hits[..i])
      invariant forall u :: (if u in byUser then byUser[u] else []) == HitsOfUser(hits[..i], u)
    {
      var hit := hits[i];
      GroupingStep(hits, i);
      if hit.user !in byUser {
        order := order + [hit.user];
        byUser := byUser[hit.user := []];
      }
      byUser := byUser[hit.user := byUser[hit.user] + [hit]];
    }
    assert hits[..|hits|] == hits;
  }

  /** publish_alerts. */
  method PublishAlerts(hits: seq<ZoneHit>) returns (sent: seq<Published>, count: nat)
    ensures sent == Messages(hits) && count == |hits|
  {
    hide Users, HitsOfUser, Entered, AlertChannel;
    var byUser, order := Group(hits);
    sent := [];
    EnteredExact({}, Users(hits));
    for k := 0 to |order|
      invariant |sent| == k
      invariant forall i :: 0 <= i < k ==>
                  sent[i] == Published(AlertChannel(order[i]), Alerts(HitsOfUser(hits, order[i])))
    {
      assert order[k] in Users(hits);
      sent := sent + [Published(AlertChannel(order[k]), Alerts(byUser[order[k]]))];
    }
    count := |hits|;
  }

  lemma NoGroups()
    ensures Users([]) == [] && Entered({}, Users([])) == []
    ensures forall u :: HitsOfUser([], u) == []
  {
  }

  lemma GroupingStep(hits: seq<ZoneHit>, i: nat)
    requires i < |hits|
    ensures var before, user := hits[..i], hits[i].user;
            && Users(hits[..i + 1]) == Users(before) + [user]
            && Entered({}, Users(hits[..i + 1]))
               == Entered({}, Users(before)) + (if user in Users(before) then [] else [user])
            && forall u :: HitsOfUser(hits[..i + 1], u) == HitsOfUser(before, u) + if u == user then [hits[i]] else []
  {
    assert hits[..i + 1][..i] == hits[..i];
    assert (Users(hits[..i]) + [hits[i].user])[..|Users(hits[..i])|] == Users(hits[..i]);
  }

  // ----- Isolation and conservation -----

  ghost predicate OnlyFor(message: Message, user: User) {
    message.Alerts? ==> forall h <- message.hits :: h.user == user
  }

  lemma {:induction false} HitsOfUserExact(hits: seq<ZoneHit>, user: User)
    ensures forall h :: h in HitsOfUser(hits, user) <==> h in hits && h.user == user
    ensures multiset(HitsOfUser(hits, user)) <= multiset(hits)
  {
    if hits != [] {
      var n := |hits| - 1;
      HitsOfUserExact(hits[..n], user);
      assert hits == hits[..n] + [hits[n]];
    }
  }

  /** Every user's message goes to the user's own channel and carries the user's hits alone,
      all of them; and every user with a hit gets one message. */
  lemma MessagesArePerUser(hits: seq<ZoneHit>, user: User)
    ensures Published(AlertChannel(user), Alerts(HitsOfUser(hits, user))) in Messages(hits) <==> user in Users(hits)
    ensures forall m <- Messages(hits) :: m.channel == AlertChannel(user) ==>
              m.message == Alerts(HitsOfUser(hits, user)) && OnlyFor(m.message, user)
    ensures forall i, j :: 0 <= i < j < |Messages(hits)| ==> Messages(hits)[i].channel != Messages(hits)[j].channel
  {
    var users := Entered({}, Users(hits));
    EnteredExact({}, Users(hits));
    HitsOfUserExact(hits, user);
    forall u ensures AlertChannel(u) == AlertChannel(user) <==> u == user { ChannelsDiffer(u, user); }
    forall i, j | 0 <= i < j < |users| ensures AlertChannel(users[i]) != AlertChannel(users[j]) {
      ChannelsDiffer(users[i], users[j]);
    }
    if user in Users(hits) {
      var i :| 0 <= i < |users| && users[i] == user;
      assert Messages(hits)[i] == Published(AlertChannel(user), Alerts(HitsOfUser(hits, user)));
    }
  }

  /** A user's hits keep their order. */
  lemma {:induction false} HitsOfUserInOrder(hits: seq<ZoneHit>, user: User, p: nat)
    requires p < |hits| && hits[p].user == user
    ensures var k := |HitsOfUser(hits[..p], user)|;
            k < |HitsOfUser(hits, user)| && HitsOfUser(hits, user)[k] == hits[p]
  {
    var n := |hits| - 1;
    if p < n {
      HitsOfUserInOrder(hits[..n], user, p);
      assert hits[..n][..p] == hits[..p];
    }
  }

  lemma {:induction false} UsersAt(hits: seq<ZoneHit>, p: nat)
    requires p <= |hits|
    ensures |Users(hits)| == |hits| && Users(hits)[..p] == Users(hits[..p])
    ensures p < |hits| ==> Users(hits)[p] == hits[p].user
  {
    if hits != [] {
      var n := |hits| - 1;
      UsersAt(hits[..n], if p < n then p else n);
      if p < n { assert hits[..n][..p] == hits[..p]; } else { assert hits[..|hits|] == hits; }
    }
  }

  /** Messages come in the order of the users' first hits. */
  lemma MessagesInOrder(hits: seq<ZoneHit>, p: nat)
    requires p < |hits| && hits[p].user !in Users(hits[..p])
    ensures var k, user := |Messages(hits[..p])|, hits[p].user;
            && k < |Messages(hits)|
            && Messages(hits)[k] == Published(AlertChannel(user), Alerts(HitsOfUser(hits, user)))
  {
    hide HitsOfUser;
    UsersAt(hits, p);
    EnteredInOrder({}, Users(hits), p);
  }

  /** The hits of several users together. */
  function Pooled(hits: seq<ZoneHit>, users: seq<User>): multiset<ZoneHit> {
    if users == [] then multiset{}
    else Pooled(hits, users[..|users| - 1]) + multiset(HitsOfUser(hits, users[|users| - 1]))
  }

  lemma {:induction false} PooledGains(hits: seq<ZoneHit>, i: nat, users: seq<User>)
    requires i < |hits|
    requires forall j, k :: 0 <= j < k < |users| ==> users[j] != users[k]
    ensures Pooled(hits[..i + 1], users)
         == Pooled(hits[..i], users) + if hits[i].user in users then multiset{hits[i]} else multiset{}
    decreases |users|
  {
    hide Users, HitsOfUser, Entered;
    if users != [] {
      var n := |users| - 1;
      PooledGains(hits, i, users[..n]);
      GroupingStep(hits, i);
      assert users == users[..n] + [users[n]];
    }
  }

  lemma PooledSnoc(hits: seq<ZoneHit>, users: seq<User>, user: User)
    ensures Pooled(hits, users + [user]) == Pooled(hits, users) + multiset(HitsOfUser(hits, user))
  {
    assert (users + [user])[..|users|] == users;
  }

  lemma SnocBag<T>(items: seq<T>)
    requires items != []
    ensures multiset(items) == multiset(items[..|items| - 1]) + multiset{items[|items| - 1]}
    ensures items[..|items|] == items
  {
    assert items == items[..|items| - 1] + [items[|items| - 1]];
  }

  /** No hit is lost, duplicated or invented by the grouping. */
  lemma {:induction false} GroupingConserves(hits: seq<ZoneHit>)
    ensures Pooled(hits, Entered({}, Users(hits))) == multiset(hits)
  {
    if hits == [] {
      NoGroups();
    } else {
      hide Users, HitsOfUser, Entered, Pooled;
      var n := |hits| - 1;
      var users, user := Entered({}, Users(hits[..n])), hits[n].user;
      GroupingConserves(hits[..n]);
      GroupingStep(hits, n);
      EnteredExact({}, Users(hits[..n]));
      PooledGains(hits, n, users);
      SnocBag(hits);
      if user in Users(hits[..n]) {
        assert users + [] == users;
      } else {
        PooledSnoc(hits, users, user);
        NoHits(hits[..n], user);
        assert HitsOfUser(hits, user) == [hits[n]];
      }
    }
  }

  /** The hits carried by several messages together. */
  function Carried(sent: seq<Published>): multiset<ZoneHit> {
    if sent == [] then multiset{}
    else
      var last := sent[|sent| - 1].message;
      Carried(sent[..|sent| - 1]) + if last.Alerts? then multiset(last.hits) else multiset{}
  }

  lemma {:induction false} CarriedUpTo(hits: seq<ZoneHit>, n: nat)
    requires n <= |Entered({}, Users(hits))|
    ensures Carried(Messages(hits)[..n]) == Pooled(hits, Entered({}, Users(hits))[..n])
  {
    hide Users, HitsOfUser, Entered;
    if n > 0 {
      CarriedUpTo(hits, n - 1);
      assert Messages(hits)[..n][..n - 1] == Messages(hits)[..n - 1];
      var users := Entered({}, Users(hits));
      assert users[..n][..n - 1] == users[..n - 1];
    }
  }

  /** The messages published carry the hits, each as often as it was given. */
  lemma MessagesConserve(hits: seq<ZoneHit>)
    ensures Carried(Messages(hits)) == multiset(hits)
  {
    hide Users, HitsOfUser, Entered, Pooled, Carried;
    var n := |Entered({}, Users(hits))|;
    CarriedUpTo(hits, n);
    GroupingConserves(hits);
    assert Messages(hits)[..n] == Messages(hits);
    assert Entered({}, Users(hits))[..n] == Entered({}, Users(hits));
  }

  lemma {:induction false} NoHits(hits: seq<ZoneHit>, user: User)
    requires user !in Users(hits)
    ensures HitsOfUser(hits, user) == []
  {
    if hits != [] { NoHits(hits[..|hits| - 1], user); }
  }

  /** Every message accepted by a connection of the user is the user's own. */
  ghost predicate Private(box: Box, user: User) {
    forall m <- box.accepted :: OnlyFor(m, user)
  }

  /** End to end: what publish_alerts makes of any hits, dispatched by channel name to a connection
      of the user it names, carries that user's alerts alone. */
  lemma DispatchIsPrivate(hits: seq<ZoneHit>, m: Published, user: User, box: Box, capacity: int)
    requires m in Messages(hits) && user == RemovePrefix(m.channel, ALERT_CHANNEL_PREFIX)
    requires Private(box, user)
    ensures m.channel != POSITION_CHANNEL && m.message.Alerts? && OnlyFor(m.message, user)
    ensures Private(Offered(box, m.message, true, capacity), user)
  {
    var users := Entered({}, Users(hits));
    var i :| 0 <= i < |users| && Messages(hits)[i] == m;
    ChannelLeadsBack(users[i]);
    HitsOfUserExact(hits, users[i]);
  }
}
