/** From the hits of a flush to the alerts on the wire: presence and publishing put together. */
module Alerting {
  import opened Faults
  import opened Sets
  import opened Pings
  import opened Presence
  import opened Registry
  import opened Events
  import Matcher

  /** Some published message carries the hit on the user's channel. */
  ghost predicate ReachesUser(sent: seq<Published>, user: User, h: ZoneHit) {
    exists m <- sent :: m.channel == AlertChannel(user) && m.message.Alerts? && h in m.message.hits
  }

  lemma MessagesCarry(entries: seq<ZoneHit>, user: User, h: ZoneHit)
    ensures ReachesUser(Messages(entries), user, h) <==> h in entries && h.user == user
  {
    hide Users, Messages, AlertChannel;
    MessagesArePerUser(entries, user);
    HitsOfUserExact(entries, user);
    if h in entries && h.user == user {
      HasUser(entries, h);
      var m := Published(AlertChannel(user), Alerts(HitsOfUser(entries, user)));
      assert m in Messages(entries) && h in m.message.hits;
    }
  }

  lemma {:induction false} HasUser(entries: seq<ZoneHit>, h: ZoneHit)
    requires h in entries
    ensures h.user in Users(entries)
  {
    var n := |entries| - 1;
    if h != entries[n] {
      assert entries == entries[..n] + [entries[n]];
      HasUser(entries[..n], h);
    }
  }

  /** End to end: after a flush that matched and alerted, a user has been sent a hit if and only if
      the hit is one of the match, it is the user's, and its device has just entered its zone. */
  lemma AlertedIff(w: Matcher.World, zones: seq<Matcher.Geozone>, pings: seq<Ping>, hits: seq<ZoneHit>,
                   devices: seq<Device>, history: seq<Sync>, runs: seq<nat>, ttl: Time, user: User, h: ZoneHit)
    requires w.TextOrder() && Matcher.IsMatch(w, zones, pings, hits)
    requires RunsOf(hits, devices, history, runs)
    ensures ReachesUser(Messages(Answer(hits, devices, history, runs, ttl)), user, h) <==>
            h in hits && h.user == user && JustEntered(devices, history, runs, ttl, h)
  {
    hide Matcher.IsMatch, JustEntered, ReachesUser, DistinctPairs;
    Matcher.MatchIsDistinct(w, zones, pings, hits);
    AnswerIsRisingEdges(hits, devices, history, runs, ttl, h);
    MessagesCarry(Answer(hits, devices, history, runs, ttl), user, h);
  }

  /** The hits whose devices have just entered their zones. */
  ghost function Due(hits: seq<ZoneHit>, devices: seq<Device>, history: seq<Sync>, runs: seq<nat>, ttl: Time)
      : set<ZoneHit>
    requires |runs| == |devices| && forall j :: 0 <= j < |runs| ==> runs[j] < |history|
  {
    set h | h in hits && JustEntered(devices, history, runs, ttl, h)
  }

  /** Each of them is carried once, by one message, and nothing else is; the count is theirs. */
  lemma AlertedOnce(hits: seq<ZoneHit>, devices: seq<Device>, history: seq<Sync>, runs: seq<nat>, ttl: Time)
    requires DistinctPairs(hits) && DistinctDevices(devices) && RunsOf(hits, devices, history, runs)
    ensures var answer, due := Answer(hits, devices, history, runs, ttl), Due(hits, devices, history, runs, ttl);
            && Carried(Messages(answer)) == multiset(due)
            && |answer| == |due|
  {
    hide DistinctPairs, DistinctDevices, RunsOf, Answer, JustEntered, Messages, Carried;
    RunsInHistory(hits, devices, history, runs);
    var answer, due := Answer(hits, devices, history, runs, ttl), Due(hits, devices, history, runs, ttl);
    forall h ensures multiset(answer)[h] == multiset(due)[h] && (h in answer <==> h in due) {
      AnsweredOnce(hits, devices, history, runs, ttl, h);
      AnswerIsRisingEdges(hits, devices, history, runs, ttl, h);
    }
    DistinctSize(answer, due);
    MessagesConserve(answer);
  }

  lemma OneMessageEach(entries: seq<ZoneHit>, i: nat, j: nat, h: ZoneHit)
    requires i < |Messages(entries)| && j < |Messages(entries)|
    requires Messages(entries)[i].message.Alerts? && h in Messages(entries)[i].message.hits
    requires Messages(entries)[j].message.Alerts? && h in Messages(entries)[j].message.hits
    ensures i == j
  {
    var users := Entered({}, Users(entries));
    EnteredExact({}, Users(entries));
    HitsOfUserExact(entries, users[i]);
    HitsOfUserExact(entries, users[j]);
  }

  /** The devices of a flush, one for every ping. */
  function DeviceIds(pings: seq<Ping>): seq<Device> {
    seq(|pings|, i requires 0 <= i < |pings| => pings[i].device)
  }

  /** A flush asks about the device of every hit, so each hit of its match is sent if and only if the
      sync k of its device in this flush found it just inside. */
  lemma FlushAlertsIff(w: Matcher.World, zones: seq<Matcher.Geozone>, pings: seq<Ping>, hits: seq<ZoneHit>,
                       history: seq<Sync>, runs: seq<nat>, ttl: Time, h: ZoneHit) returns (k: nat)
    requires w.TextOrder() && Matcher.IsMatch(w, zones, pings, hits) && h in hits
    requires RunsOf(hits, Entered({}, DeviceIds(pings)), history, runs)
    ensures k < |runs| && runs[k] < |history| && history[runs[k]].device == h.device
    ensures ReachesUser(Messages(Answer(hits, Entered({}, DeviceIds(pings)), history, runs, ttl)), h.user, h)
            <==> RisingEdge(history, runs[k], ttl, h.zone)
  {
    hide Matcher.IsMatch, RisingEdge, ReachesUser, Messages, Answer, Entered;
    var devices := Entered({}, DeviceIds(pings));
    EnteredIsDistinct(DeviceIds(pings));
    EnteredExact({}, DeviceIds(pings));
    var j := Matcher.HitIsFromPing(w, zones, pings, hits, h);
    assert DeviceIds(pings)[j] == h.device;
    assert h.device in devices;
    k :| 0 <= k < |devices| && devices[k] == h.device;
    AlertedIff(w, zones, pings, hits, devices, history, runs, ttl, h.user, h);
    assert JustEntered(devices, history, runs, ttl, h) <==> RisingEdge(history, runs[k], ttl, h.zone);
  }

  // ----- Lost alerts -----

  /** From sync k on, and before n, every sync of the device is inside the zone and comes less than
      ttl after the one before it. */
  ghost predicate StaysInside(history: seq<Sync>, k: nat, n: nat, ttl: Time, z: Zone)
    requires k < n <= |history|
  {
    forall m: nat :: k < m < n && history[m].device == history[k].device ==> Continues(history, m, ttl, z)
  }

  ghost predicate Continues(history: seq<Sync>, m: nat, ttl: Time, z: Zone)
    requires m < |history|
  {
    var last := LastSync(history, m, history[m].device);
    z in history[m].zones && last.Some? && history[m].at < history[last.value].at + ttl
  }

  /** From c on, and before n, no sync of the device is inside the zone. */
  ghost predicate StaysAway(history: seq<Sync>, device: Device, c: nat, n: nat, z: Zone)
    requires n <= |history|
  {
    forall m: nat :: c <= m < n && history[m].device == device ==> z !in history[m].zones
  }

  /** After a sync k inside the zone, no sync before n reports it if and only if the device stayed
      inside, without a gap of ttl or more, up to some point c, and away from then on: having left it
      once, or been silent for so long, it must not be seen in the zone again. */
  lemma UnreportedIff(history: seq<Sync>, k: nat, n: nat, ttl: Time, z: Zone)
    requires k < n <= |history| && z in history[k].zones
    ensures (forall m: nat :: k < m < n && history[m].device == history[k].device ==> z !in Reported(history, m, ttl))
            <==> exists c: nat :: k < c <= n && StaysInside(history, k, c, ttl, z)
                                  && StaysAway(history, history[k].device, c, n, z)
  {
    hide Reported, StaysInside, StaysAway;
    if c: nat :| k < c <= n && StaysInside(history, k, c, ttl, z) && StaysAway(history, history[k].device, c, n, z) {
      forall m: nat | k < m < n && history[m].device == history[k].device ensures z !in Reported(history, m, ttl) {
        UnreportedAt(history, k, c, n, ttl, z, m);
      }
    }
    if forall m: nat :: k < m < n && history[m].device == history[k].device ==> z !in Reported(history, m, ttl) {
      var c := LeavingPoint(history, k, n, ttl, z);
    }
  }

  lemma UnreportedAt(history: seq<Sync>, k: nat, c: nat, n: nat, ttl: Time, z: Zone, m: nat)
    requires k < c <= n <= |history| && z in history[k].zones
    requires StaysInside(history, k, c, ttl, z) && StaysAway(history, history[k].device, c, n, z)
    requires k < m < n && history[m].device == history[k].device
    ensures z !in Reported(history, m, ttl)
  {
    ReportsAreRisingEdges(history, m, ttl, z);
    LastSyncIsLast(history, m, history[m].device, k);
    var j := LastSync(history, m, history[m].device).value;
    if m < c { assert Continues(history, m, ttl, z); assert j == k || Continues(history, j, ttl, z); }
  }

  /** Without reports, the device was inside up to the point returned, and away after it. */
  lemma {:induction false} LeavingPoint(history: seq<Sync>, k: nat, n: nat, ttl: Time, z: Zone) returns (c: nat)
    requires k < n <= |history| && z in history[k].zones
    requires forall m: nat :: k < m < n && history[m].device == history[k].device ==> z !in Reported(history, m, ttl)
    ensures k < c <= n && StaysInside(history, k, c, ttl, z) && StaysAway(history, history[k].device, c, n, z)
    decreases n
  {
    hide Reported;
    c := n;
    if n > k + 1 {
      c := LeavingPoint(history, k, n - 1, ttl, z);
      var m := n - 1;
      if history[m].device == history[k].device {
        ReportsAreRisingEdges(history, m, ttl, z);
        LastSyncIsLast(history, m, history[m].device, k);
        var j := LastSync(history, m, history[m].device).value;
        if z in history[m].zones {
          assert z in history[j].zones && history[m].at < history[j].at + ttl;
          assert Continues(history, m, ttl, z);
          assert j < c;
          NoSyncBetween(history, k, c, m, j);
          c := n;
        }
      }
    }
  }

  /** With the last sync of the device before c, staying away from c on says nothing about it. */
  lemma NoSyncBetween(history: seq<Sync>, k: nat, c: nat, m: nat, j: nat)
    requires k < c <= m < |history| && j < c
    requires forall i :: j < i < m ==> history[i].device != history[k].device
    ensures forall i :: c <= i < m ==> history[i].device != history[k].device
  {
  }

  /** An alert whose device was synced but that was not sent, because the rest of the pipeline or the
      publishing failed, is not made up for: as long as the device stays inside without a gap of ttl,
      no later call answers any hit of the same device and zone. */
  lemma LostAlertStaysLost(hits: seq<ZoneHit>, devices: seq<Device>, history: seq<Sync>, runs: seq<nat>, j: nat,
                           laterHits: seq<ZoneHit>, laterDevices: seq<Device>, longer: seq<Sync>, laterRuns: seq<nat>,
                           ttl: Time, h: ZoneHit)
    requires RunsOf(hits, devices, history, runs) && history <= longer
    requires j < |devices| && h.device == devices[j] && h.zone in Arguments(hits, devices[j])
    requires DistinctPairs(laterHits) && RunsOf(laterHits, laterDevices, longer, laterRuns)
    requires forall r <- laterRuns :: r >= |history|
    requires StaysInside(longer, runs[j], |longer|, ttl, h.zone)
    ensures h !in Answer(laterHits, laterDevices, longer, laterRuns, ttl)
  {
    hide Reported, StaysInside, RisingEdge, Arguments, DistinctPairs;
    AnswerIsRisingEdges(laterHits, laterDevices, longer, laterRuns, ttl, h);
    var k := runs[j];
    forall i | 0 <= i < |laterDevices| && laterDevices[i] == h.device
      ensures !RisingEdge(longer, laterRuns[i], ttl, h.zone)
    {
      assert laterRuns[i] in laterRuns;
      UnreportedAt(longer, k, |longer|, |longer|, ttl, h.zone, laterRuns[i]);
      ReportsAreRisingEdges(longer, laterRuns[i], ttl, h.zone);
    }
  }

  lemma RunsInHistory(hits: seq<ZoneHit>, devices: seq<Device>, history: seq<Sync>, runs: seq<nat>)
    requires RunsOf(hits, devices, history, runs)
    ensures |runs| == |devices| && forall j :: 0 <= j < |runs| ==> runs[j] < |history|
  {
  }

  lemma EnteredIsDistinct(deviceIds: seq<Device>)
    ensures DistinctDevices(Entered({}, deviceIds))
  {
    EnteredExact({}, deviceIds);
  }

  datatype AlertResult = Alerted(count: nat) | FilterFailed | PublishFailed

  /** _alert: an error of Redis is swallowed, at the cost of the alerts. `runs` are the devices synced. */
  method Alert(store: PresenceStore, hits: seq<ZoneHit>, deviceIds: seq<Device>)
      returns (r: AlertResult, sent: seq<Published>, ghost runs: seq<nat>)
    requires store.Valid()
    modifies store
    ensures store.Valid() && old(store.history) <= store.history
    ensures forall run <- runs :: run >= |old(store.history)|
    ensures r.FilterFailed? ==>
              && sent == [] && |runs| <= |Entered({}, deviceIds)|
              && RunsOf(hits, Entered({}, deviceIds)[..|runs|], store.history, runs)
    ensures !r.FilterFailed? ==> RunsOf(hits, Entered({}, deviceIds), store.history, runs)
    ensures r.Alerted? ==>
              && sent == Messages(Answer(hits, Entered({}, deviceIds), store.history, runs, store.ttl))
              && r.count == |Answer(hits, Entered({}, deviceIds), store.history, runs, store.ttl)|
    ensures r.Alerted? <==> store.faults == old(store.faults)
    // with hits as a match answers them, every alert due is sent once, and counted
    ensures r.Alerted? && DistinctPairs(hits) ==>
              var due := Due(hits, Entered({}, deviceIds), store.history, runs, store.ttl);
              Carried(sent) == multiset(due) && r.count == |due|
    ensures r.PublishFailed? ==>
              sent <= Messages(Answer(hits, Entered({}, deviceIds), store.history, runs, store.ttl))
  {
    hide RunsOf, Answer, Messages, Entered, Carried, Due, DistinctPairs, DistinctDevices;
    sent := [];
    var ok, entries;
    ok, entries, runs := store.FilterNewEntries(hits, deviceIds);
    if !ok { return FilterFailed, sent, runs; }
    var all, count := PublishAlerts(entries);
    if DistinctPairs(hits) {
      EnteredIsDistinct(deviceIds);
      AlertedOnce(hits, Entered({}, deviceIds), store.history, runs, store.ttl);
    }
    var cut;
    cut, store.faults := Strike(store.faults);
    if cut {
      var n: nat :| n <= |all|;
      return PublishFailed, all[..n], runs;
    }
    return Alerted(count), all, runs;
  }
}
