/** "Just entered" detection: the set-sync script, the history it must agree with, and the
    mapping of its answers back to zone hits. */
module Presence {
  import opened Faults
  import opened Pings
  import opened Sets

  type Device = string
  type Zone = int

  datatype ZoneHit = ZoneHit(user: string, zone: Zone, zoneName: string, device: Device,
                             lat: real, lon: real, recordedAt: Time)

  /** The Redis key of a device. */
  datatype Record = Record(zones: set<Zone>, expiresAt: Time)

  /** The zones a device is in at `now`, as far as Redis remembers. */
  function Inside(keys: map<Device, Record>, device: Device, now: Time): set<Zone> {
    if device in keys && now < keys[device].expiresAt then keys[device].zones else {}
  }

  function ToSet<T>(items: seq<T>): set<T> { set z | z in items }

  /** The items not in `known`, in order, each once: also what `dict.fromkeys` keeps. */
  function Entered<T(==)>(known: set<T>, items: seq<T>): seq<T> {
    if items == [] then []
    else
      var n := |items| - 1;
      Entered(known, items[..n])
      + if items[n] in known || items[n] in items[..n] then [] else [items[n]]
  }

  lemma {:induction false} EnteredExact<T>(known: set<T>, items: seq<T>)
    ensures forall z :: z in Entered(known, items) <==> z in items && z !in known
    ensures forall i, j :: 0 <= i < j < |Entered(known, items)| ==> Entered(known, items)[i] != Entered(known, items)[j]
  {
    if items != [] {
      var n := |items| - 1;
      EnteredExact(known, items[..n]);
      assert items == items[..n] + [items[n]];
    }
  }

  /** What is entered comes in the order of first occurrences. */
  lemma {:induction false} EnteredInOrder<T>(known: set<T>, items: seq<T>, p: nat)
    requires p < |items| && items[p] !in known && items[p] !in items[..p]
    ensures var k := |Entered(known, items[..p])|; k < |Entered(known, items)| && Entered(known, items)[k] == items[p]
  {
    var n := |items| - 1;
    if p < n {
      EnteredInOrder(known, items[..n], p);
      assert items[..n][..p] == items[..p];
    }
  }

  lemma EnteredStep(known: set<Zone>, zones: seq<Zone>, i: nat)
    requires i < |zones|
    ensures Entered(known, zones[..i + 1])
         == Entered(known, zones[..i]) + if zones[i] in known || zones[i] in zones[..i] then [] else [zones[i]]
    ensures ToSet(zones[..i + 1]) == ToSet(zones[..i]) + {zones[i]}
  {
    assert zones[..i + 1][..i] == zones[..i] && zones[..i + 1] == zones[..i] + [zones[i]];
  }

  lemma NothingEntered<T>(known: set<T>)
    ensures Entered(known, []) == []
  {
  }

  lemma RemoveStep(known: set<Zone>, zones: seq<Zone>, members: set<Zone>, zone: Zone)
    requires members <= known && zone in members
    ensures members - {zone} + known * ToSet(zones)
         == members + known * ToSet(zones) - if zone in zones then {} else {zone}
  {
  }

  // ----- History -----

  /** One run of the script: the device was in exactly `zones` at time `at`. */
  datatype Sync = Sync(device: Device, at: Time, zones: seq<Zone>)

  /** The last sync of `device` among the first k. */
  function LastSync(history: seq<Sync>, k: nat, device: Device): (last: Option<nat>)
    requires k <= |history|
    ensures last.Some? ==> last.value < k && history[last.value].device == device
  {
    if k == 0 then None
    else if history[k - 1].device == device then Some(k - 1)
    else LastSync(history, k - 1, device)
  }

  /** Before sync k its device was in zone z: its previous sync said so, less than ttl ago. */
  predicate WasInside(history: seq<Sync>, k: nat, ttl: Time, z: Zone)
    requires k < |history|
  {
    var last := LastSync(history, k, history[k].device);
    && last.Some?
    && history[k].at < history[last.value].at + ttl
    && z in history[last.value].zones
  }

  /** Zone z is entered at sync k: the device is in it now and was not before. */
  predicate RisingEdge(history: seq<Sync>, k: nat, ttl: Time, z: Zone)
    requires k < |history|
  {
    z in history[k].zones && !WasInside(history, k, ttl, z)
  }

  /** The keys after a history of syncs. */
  function KeysAfter(history: seq<Sync>, ttl: Time): map<Device, Record> {
    if history == [] then map[]
    else
      var last := history[|history| - 1];
      AfterSync(KeysAfter(history[..|history| - 1], ttl), last, ttl)
  }

  function AfterSync(keys: map<Device, Record>, sync: Sync, ttl: Time): map<Device, Record> {
    if sync.zones == [] then keys - {sync.device}
    else keys[sync.device := Record(ToSet(sync.zones), sync.at + ttl)]
  }

  /** What sync k reports. */
  function Reported(history: seq<Sync>, k: nat, ttl: Time): seq<Zone>
    requires k < |history|
  {
    Entered(Inside(KeysAfter(history[..k], ttl), history[k].device, history[k].at), history[k].zones)
  }

  lemma {:induction false} KeysRememberLastSync(history: seq<Sync>, k: nat, ttl: Time, device: Device)
    requires k <= |history|
    ensures var keys, last := KeysAfter(history[..k], ttl), LastSync(history, k, device);
            if last.None? || history[last.value].zones == [] then device !in keys
            else device in keys
                 && keys[device] == Record(ToSet(history[last.value].zones), history[last.value].at + ttl)
  {
    if k > 0 {
      assert history[..k][..k - 1] == history[..k - 1];
      if history[k - 1].device != device { KeysRememberLastSync(history, k - 1, ttl, device); }
    }
  }

  /** The incremental script reports exactly the rising edges of zone membership: none is missed,
      none is reported twice, nothing else is reported. */
  lemma {:induction false} ReportsAreRisingEdges(history: seq<Sync>, k: nat, ttl: Time, z: Zone)
    requires k < |history|
    ensures z in Reported(history, k, ttl) <==> RisingEdge(history, k, ttl, z)
  {
    var device := history[k].device;
    KeysRememberLastSync(history, k, ttl, device);
    EnteredExact(Inside(KeysAfter(history[..k], ttl), device, history[k].at), history[k].zones);
  }

  lemma {:induction false} LastSyncIsLast(history: seq<Sync>, k: nat, device: Device, i: nat)
    requires i < k <= |history| && history[i].device == device
    ensures var last := LastSync(history, k, device);
            && last.Some? && i <= last.value < k && history[last.value].device == device
            && forall j :: last.value < j < k ==> history[j].device != device
  {
    if history[k - 1].device != device { LastSyncIsLast(history, k - 1, device, i); }
  }

  /** Between two reports of the same device and zone the device synced outside the zone, or it
      stayed silent for at least ttl. */
  lemma RepeatedReportsAreSeparated(history: seq<Sync>, i: nat, k: nat, ttl: Time, z: Zone) returns (j: nat)
    requires i < k < |history| && history[i].device == history[k].device
    requires z in Reported(history, i, ttl) && z in Reported(history, k, ttl)
    ensures i <= j < k && history[j].device == history[k].device
    ensures forall m :: j < m < k ==> history[m].device != history[k].device
    ensures (i < j && z !in history[j].zones) || history[k].at >= history[j].at + ttl
  {
    ReportsAreRisingEdges(history, i, ttl, z);
    ReportsAreRisingEdges(history, k, ttl, z);
    LastSyncIsLast(history, k, history[k].device, i);
    j := LastSync(history, k, history[k].device).value;
  }

  // ----- Zone hits -----

  /** The zones hit by a device, in order, repeats included. */
  function ZonesHit(hits: seq<ZoneHit>, device: Device): seq<Zone> {
    if hits == [] then []
    else
      var n := |hits| - 1;
      ZonesHit(hits[..n], device) + if hits[n].device == device then [hits[n].zone] else []
  }

  /** The keys of the device's dictionary: what the script gets as arguments. */
  function Arguments(hits: seq<ZoneHit>, device: Device): seq<Zone> {
    Entered({}, ZonesHit(hits, device))
  }

  /** The device's dictionary: a later hit of the same zone replaces an earlier one. */
  function HitsOf(hits: seq<ZoneHit>, device: Device): map<Zone, ZoneHit> {
    if hits == [] then map[]
    else
      var n := |hits| - 1;
      if hits[n].device == device then HitsOf(hits[..n], device)[hits[n].zone := hits[n]]
      else HitsOf(hits[..n], device)
  }

  lemma {:induction false} HitsOfKeys(hits: seq<ZoneHit>, device: Device)
    ensures forall z :: z in HitsOf(hits, device) <==> z in ZonesHit(hits, device)
    ensures forall z <- HitsOf(hits, device) ::
              var h := HitsOf(hits, device)[z]; h in hits && h.device == device && h.zone == z
  {
    if hits != [] { HitsOfKeys(hits[..|hits| - 1], device); }
  }

  /** No (device, zone) pair is hit twice, as DISTINCT ON guarantees. */
  ghost predicate DistinctPairs(hits: seq<ZoneHit>) {
    forall i, j :: 0 <= i < j < |hits| ==> hits[i].device != hits[j].device || hits[i].zone != hits[j].zone
  }

  lemma {:induction false} DistinctHitsKept(hits: seq<ZoneHit>, i: nat)
    requires DistinctPairs(hits) && i < |hits|
    ensures hits[i].zone in HitsOf(hits, hits[i].device) && HitsOf(hits, hits[i].device)[hits[i].zone] == hits[i]
  {
    var n := |hits| - 1;
    if i < n { DistinctHitsKept(hits[..n], i); }
  }

  /** Without that guarantee the last hit of a zone is kept. */
  lemma {:induction false} LastHitIsKept(hits: seq<ZoneHit>, i: nat)
    requires i < |hits|
    requires forall j :: i < j < |hits| ==> hits[j].device != hits[i].device || hits[j].zone != hits[i].zone
    ensures hits[i].zone in HitsOf(hits, hits[i].device) && HitsOf(hits, hits[i].device)[hits[i].zone] == hits[i]
  {
    var n := |hits| - 1;
    if i < n { LastHitIsKept(hits[..n], i); }
  }

  /** The hits of the zones a device has entered. */
  function HitsFor(dictionary: map<Zone, ZoneHit>, entered: seq<Zone>): seq<ZoneHit> {
    if entered == [] then []
    else
      var n := |entered| - 1;
      HitsFor(dictionary, entered[..n])
      + if entered[n] in dictionary then [dictionary[entered[n]]] else []
  }

  lemma HitsForOneMore(dictionary: map<Zone, ZoneHit>, entered: seq<Zone>, z: Zone)
    ensures HitsFor(dictionary, entered + [z])
         == HitsFor(dictionary, entered) + if z in dictionary then [dictionary[z]] else []
  {
    assert (entered + [z])[..|entered|] == entered;
  }

  /** A zone that is not among the entered ones does not matter. */
  lemma {:induction false} HitsForOthers(dictionary: map<Zone, ZoneHit>, entered: seq<Zone>, z: Zone, h: ZoneHit)
    requires z !in entered
    ensures HitsFor(dictionary[z := h], entered) == HitsFor(dictionary, entered)
  {
    if entered != [] { HitsForOthers(dictionary, entered[..|entered| - 1], z, h); }
  }

  /** The hits of a device outside the zones it was in, in their order: what the dictionaries and the
      script are there to find. */
  function NewHits(hits: seq<ZoneHit>, device: Device, known: set<Zone>): seq<ZoneHit> {
    if hits == [] then []
    else
      var n := |hits| - 1;
      NewHits(hits[..n], device, known)
      + if hits[n].device == device && hits[n].zone !in known then [hits[n]] else []
  }

  lemma {:induction false} DictionaryFindsNewHits(hits: seq<ZoneHit>, device: Device, known: set<Zone>)
    requires DistinctPairs(hits)
    ensures HitsFor(HitsOf(hits, device), Entered(known, Arguments(hits, device))) == NewHits(hits, device, known)
  {
    hide HitsFor, HitsOf, Arguments, Entered;
    if hits == [] {
      GroupNone();
      NothingEntered(known);
      NoHitsFor();
    } else {
      var n := |hits| - 1;
      var before, h := hits[..n], hits[n];
      DictionaryFindsNewHits(before, device, known);
      GroupStep(hits, n);
      assert hits[..n + 1] == hits;
      if h.device == device {
        NewArgument(hits);
        var arguments := Arguments(before, device);
        OneMoreEntered(known, arguments, h.zone);
        EnteredExact(known, arguments);
        HitsForOthers(HitsOf(before, device), Entered(known, arguments), h.zone, h);
        HitsForOneMore(HitsOf(hits, device), Entered(known, arguments), h.zone);
        assert Arguments(hits, device) == arguments + [h.zone];
        assert Entered(known, arguments) + [] == Entered(known, arguments);
      }
    }
  }

  lemma NewArgument(hits: seq<ZoneHit>)
    requires DistinctPairs(hits) && hits != []
    ensures var before, h := hits[..|hits| - 1], hits[|hits| - 1];
            h.zone !in HitsOf(before, h.device) && h.zone !in Arguments(before, h.device)
  {
    var before, h := hits[..|hits| - 1], hits[|hits| - 1];
    HitsOfKeys(before, h.device);
    EnteredExact({}, ZonesHit(before, h.device));
    forall g <- before ensures g.device != h.device || g.zone != h.zone {
      var i :| 0 <= i < |before| && before[i] == g;
      assert hits[i] == g;
    }
  }

  lemma OneMoreEntered<T>(known: set<T>, items: seq<T>, z: T)
    requires z !in items
    ensures Entered(known, items + [z]) == Entered(known, items) + if z in known then [] else [z]
  {
    assert (items + [z])[..|items|] == items;
  }

  lemma NoHitsFor()
    ensures HitsFor(map[], []) == []
  {
  }

  /** Each of the new hits once, and nothing else. */
  lemma {:induction false} NewHitsExact(hits: seq<ZoneHit>, device: Device, known: set<Zone>, h: ZoneHit)
    requires DistinctPairs(hits)
    ensures multiset(NewHits(hits, device, known))[h]
         == if h in hits && h.device == device && h.zone !in known then 1 else 0
  {
    if hits != [] {
      var n := |hits| - 1;
      NewHitsExact(hits[..n], device, known, h);
      assert hits == hits[..n] + [hits[n]];
      LastIsNew(hits);
    }
  }

  lemma LastIsNew(hits: seq<ZoneHit>)
    requires DistinctPairs(hits) && hits != []
    ensures hits[|hits| - 1] !in hits[..|hits| - 1]
  {
  }

  /** a comes before b in the list. */
  ghost predicate Precedes(hits: seq<ZoneHit>, a: ZoneHit, b: ZoneHit) {
    exists p, q :: 0 <= p < q < |hits| && hits[p] == a && hits[q] == b
  }

  lemma {:induction false} NewHitsInOrder(hits: seq<ZoneHit>, device: Device, known: set<Zone>, i: nat, j: nat)
    requires i < j < |NewHits(hits, device, known)|
    ensures var found := NewHits(hits, device, known); Precedes(hits, found[i], found[j])
  {
    var n := |hits| - 1;
    var found, before := NewHits(hits, device, known), NewHits(hits[..n], device, known);
    if j < |before| {
      NewHitsInOrder(hits[..n], device, known, i, j);
      var p, q :| 0 <= p < q < n && hits[..n][p] == before[i] && hits[..n][q] == before[j];
      assert hits[p] == found[i] && hits[q] == found[j];
    } else {
      NewHitsAreHits(hits[..n], device, known);
      assert found[i] in before;
      var p :| 0 <= p < n && hits[..n][p] == found[i];
      assert hits[p] == found[i] && hits[n] == found[j];
    }
  }

  lemma {:induction false} NewHitsAreHits(hits: seq<ZoneHit>, device: Device, known: set<Zone>)
    ensures forall h <- NewHits(hits, device, known) :: h in hits && h.device == device
  {
    if hits != [] { NewHitsAreHits(hits[..|hits| - 1], device, known); }
  }

  /** The answer of filter_new_entries whose scripts ran, device by device, as the syncs `runs`. */
  function Answer(hits: seq<ZoneHit>, devices: seq<Device>, history: seq<Sync>, runs: seq<nat>, ttl: Time): seq<ZoneHit>
    requires |runs| == |devices| && forall j :: 0 <= j < |runs| ==> runs[j] < |history|
  {
    if devices == [] then []
    else
      var n := |devices| - 1;
      Answer(hits, devices[..n], history, runs[..n], ttl)
      + HitsFor(HitsOf(hits, devices[n]), Reported(history, runs[n], ttl))
  }

  ghost predicate RunsOf(hits: seq<ZoneHit>, devices: seq<Device>, history: seq<Sync>, runs: seq<nat>) {
    && |runs| == |devices|
    && forall j :: 0 <= j < |runs| ==>
         && runs[j] < |history|
         && history[runs[j]].device == devices[j] && history[runs[j]].zones == Arguments(hits, devices[j])
  }

  lemma RunsGrow(hits: seq<ZoneHit>, devices: seq<Device>, history: seq<Sync>, longer: seq<Sync>,
                 runs: seq<nat>, ttl: Time)
    requires RunsOf(hits, devices, history, runs) && history <= longer
    ensures RunsOf(hits, devices, longer, runs)
    ensures forall j :: 0 <= j < |runs| ==> Reported(longer, runs[j], ttl) == Reported(history, runs[j], ttl)
  {
    forall j | 0 <= j < |runs| ensures Reported(longer, runs[j], ttl) == Reported(history, runs[j], ttl) {
      assert longer[..runs[j]] == history[..runs[j]];
    }
  }

  /** One of the runs is that of the hit's device, and enters the hit's zone. */
  ghost predicate JustEntered(devices: seq<Device>, history: seq<Sync>, runs: seq<nat>, ttl: Time, h: ZoneHit)
    requires |runs| == |devices| && forall j :: 0 <= j < |runs| ==> runs[j] < |history|
  {
    exists j :: 0 <= j < |devices| && devices[j] == h.device && RisingEdge(history, runs[j], ttl, h.zone)
  }

  lemma JustEnteredSplits(devices: seq<Device>, history: seq<Sync>, runs: seq<nat>, ttl: Time, h: ZoneHit)
    requires |runs| == |devices| > 0 && forall j :: 0 <= j < |runs| ==> runs[j] < |history|
    ensures var n := |devices| - 1;
            JustEntered(devices, history, runs, ttl, h) <==>
              || JustEntered(devices[..n], history, runs[..n], ttl, h)
              || (devices[n] == h.device && RisingEdge(history, runs[n], ttl, h.zone))
  {
    hide RisingEdge;
    var n := |devices| - 1;
    if JustEntered(devices[..n], history, runs[..n], ttl, h) {
      var j :| 0 <= j < n && devices[..n][j] == h.device && RisingEdge(history, runs[..n][j], ttl, h.zone);
      assert devices[j] == h.device && RisingEdge(history, runs[j], ttl, h.zone);
    }
    if JustEntered(devices, history, runs, ttl, h) {
      var j :| 0 <= j <= n && devices[j] == h.device && RisingEdge(history, runs[j], ttl, h.zone);
      if j < n { assert devices[..n][j] == h.device && RisingEdge(history, runs[..n][j], ttl, h.zone); }
    }
  }

  /** What a sync does for the answer: the new hits of its device, in their order. */
  lemma AnswerOfDevice(hits: seq<ZoneHit>, history: seq<Sync>, k: nat, ttl: Time)
    requires DistinctPairs(hits) && k < |history| && history[k].zones == Arguments(hits, history[k].device)
    ensures HitsFor(HitsOf(hits, history[k].device), Reported(history, k, ttl))
         == NewHits(hits, history[k].device, Inside(KeysAfter(history[..k], ttl), history[k].device, history[k].at))
  {
    DictionaryFindsNewHits(hits, history[k].device,
                           Inside(KeysAfter(history[..k], ttl), history[k].device, history[k].at));
  }

  /** The script is told exactly the zones the device has hits in. */
  lemma {:induction false} ArgumentsExact(hits: seq<ZoneHit>, device: Device, z: Zone)
    ensures z in Arguments(hits, device) <==> exists h <- hits :: h.device == device && h.zone == z
  {
    hide Arguments;
    if hits == [] {
      GroupNone();
    } else {
      var n := |hits| - 1;
      ArgumentsExact(hits[..n], device, z);
      GroupStep(hits, n);
      HitsOfKeys(hits[..n], hits[n].device);
      assert hits[..n + 1] == hits && hits == hits[..n] + [hits[n]];
    }
  }

  lemma CountOfDevice(hits: seq<ZoneHit>, history: seq<Sync>, k: nat, ttl: Time, h: ZoneHit)
    requires DistinctPairs(hits) && k < |history| && history[k].zones == Arguments(hits, history[k].device)
    ensures multiset(HitsFor(HitsOf(hits, history[k].device), Reported(history, k, ttl)))[h]
         == if h in hits && h.device == history[k].device && RisingEdge(history, k, ttl, h.zone) then 1 else 0
  {
    hide HitsFor, HitsOf, Arguments, Entered, Inside, WasInside;
    var device := history[k].device;
    var known := Inside(KeysAfter(history[..k], ttl), device, history[k].at);
    AnswerOfDevice(hits, history, k, ttl);
    NewHitsExact(hits, device, known, h);
    if h in hits && h.device == device {
      ArgumentsExact(hits, device, h.zone);
      ReportsAreRisingEdges(history, k, ttl, h.zone);
      EnteredExact(known, history[k].zones);
    }
  }

  ghost predicate DistinctDevices(devices: seq<Device>) {
    forall i, j :: 0 <= i < j < |devices| ==> devices[i] != devices[j]
  }

  /** Every hit of a device asked for is answered if and only if its device has just entered its zone: no
      hit is lost or invented on the way through the per-device dictionaries. */
  lemma {:induction false} AnswerIsRisingEdges(hits: seq<ZoneHit>, devices: seq<Device>, history: seq<Sync>,
                                               runs: seq<nat>, ttl: Time, h: ZoneHit)
    requires DistinctPairs(hits) && RunsOf(hits, devices, history, runs)
    ensures h in Answer(hits, devices, history, runs, ttl) <==> h in hits && JustEntered(devices, history, runs, ttl, h)
  {
    hide RisingEdge, DistinctPairs, HitsFor, HitsOf, Reported, Arguments;
    if devices != [] {
      var n := |devices| - 1;
      AnswerIsRisingEdges(hits, devices[..n], history, runs[..n], ttl, h);
      JustEnteredSplits(devices, history, runs, ttl, h);
      CountOfDevice(hits, history, runs[n], ttl, h);
      BagOfBoth(Answer(hits, devices[..n], history, runs[..n], ttl),
                HitsFor(HitsOf(hits, devices[n]), Reported(history, runs[n], ttl)), h);
    }
  }

  /** And it is answered once, the devices asked for being distinct. */
  lemma {:induction false} AnsweredOnce(hits: seq<ZoneHit>, devices: seq<Device>, history: seq<Sync>,
                                        runs: seq<nat>, ttl: Time, h: ZoneHit)
    requires DistinctPairs(hits) && RunsOf(hits, devices, history, runs) && DistinctDevices(devices)
    ensures multiset(Answer(hits, devices, history, runs, ttl))[h]
         == if h in hits && JustEntered(devices, history, runs, ttl, h) then 1 else 0
  {
    hide RisingEdge, DistinctPairs, HitsFor, HitsOf, Reported, Arguments;
    if devices != [] {
      var n := |devices| - 1;
      AnsweredOnce(hits, devices[..n], history, runs[..n], ttl, h);
      JustEnteredSplits(devices, history, runs, ttl, h);
      CountOfDevice(hits, history, runs[n], ttl, h);
      BagOfBoth(Answer(hits, devices[..n], history, runs[..n], ttl),
                HitsFor(HitsOf(hits, devices[n]), Reported(history, runs[n], ttl)), h);
    }
  }

  lemma BagOfBoth<T>(a: seq<T>, b: seq<T>, x: T)
    ensures multiset(a + b)[x] == multiset(a)[x] + multiset(b)[x]
    ensures x in a + b <==> multiset(a + b)[x] > 0
  {
    assert multiset(a + b) == multiset(a) + multiset(b);
    assert x in a + b <==> x in multiset(a + b);
  }

  /** So an answer has no pair twice, either, ... */
  lemma AnswerIsDistinct(hits: seq<ZoneHit>, devices: seq<Device>, history: seq<Sync>, runs: seq<nat>, ttl: Time)
    requires DistinctPairs(hits) && RunsOf(hits, devices, history, runs) && DistinctDevices(devices)
    ensures DistinctPairs(Answer(hits, devices, history, runs, ttl))
  {
    hide Answer, JustEntered, DistinctDevices;
    var answer := Answer(hits, devices, history, runs, ttl);
    forall i, j | 0 <= i < j < |answer|
      ensures answer[i].device != answer[j].device || answer[i].zone != answer[j].zone
    {
      AnswerIsRisingEdges(hits, devices, history, runs, ttl, answer[i]);
      AnswerIsRisingEdges(hits, devices, history, runs, ttl, answer[j]);
      AnsweredOnce(hits, devices, history, runs, ttl, answer[i]);
      assert answer[i] in hits && answer[j] in hits;
      if answer[i] == answer[j] { TwiceIsTwo(answer, i, j); }
      var p :| 0 <= p < |hits| && hits[p] == answer[i];
      var q :| 0 <= q < |hits| && hits[q] == answer[j];
    }
  }

  lemma TwiceIsTwo<T>(items: seq<T>, i: nat, j: nat)
    requires i < j < |items| && items[i] == items[j]
    ensures multiset(items)[items[i]] >= 2
  {
    assert items == items[..j] + items[j..];
    assert items[i] == items[..j][i] && items[j] == items[j..][0];
    BagOfBoth(items[..j], items[j..], items[i]);
    assert items[i] in multiset(items[..j]) && items[i] in multiset(items[j..]);
  }

  /** ... and keeps the order of the devices asked for, and of the hits of each. */
  lemma {:induction false} AnswerInOrder(hits: seq<ZoneHit>, devices: seq<Device>, history: seq<Sync>, runs: seq<nat>,
                                         ttl: Time, i: nat, j: nat)
    requires DistinctPairs(hits) && RunsOf(hits, devices, history, runs)
    requires i < j < |Answer(hits, devices, history, runs, ttl)|
    ensures var answer := Answer(hits, devices, history, runs, ttl);
            || (answer[i].device == answer[j].device && Precedes(hits, answer[i], answer[j]))
            || exists a, b :: 0 <= a < b < |devices| && devices[a] == answer[i].device && devices[b] == answer[j].device
  {
    hide DistinctPairs, HitsFor, HitsOf, Reported, Arguments, Precedes;
    var n := |devices| - 1;
    var answer := Answer(hits, devices, history, runs, ttl);
    var before := Answer(hits, devices[..n], history, runs[..n], ttl);
    AnswerOfDevice(hits, history, runs[n], ttl);
    var known := Inside(KeysAfter(history[..runs[n]], ttl), devices[n], history[runs[n]].at);
    NewHitsAreHits(hits, devices[n], known);
    assert answer == before + NewHits(hits, devices[n], known);
    if j < |before| {
      AnswerInOrder(hits, devices[..n], history, runs[..n], ttl, i, j);
      if a, b :| 0 <= a < b < n && devices[..n][a] == before[i].device && devices[..n][b] == before[j].device {
        assert devices[a] == answer[i].device && devices[b] == answer[j].device;
      }
    } else if i >= |before| {
      NewHitsInOrder(hits, devices[n], known, i - |before|, j - |before|);
    } else {
      AnsweredAreAsked(hits, devices[..n], history, runs[..n], ttl);
      assert answer[i] in before;
      var a :| 0 <= a < n && devices[..n][a] == answer[i].device;
      assert devices[a] == answer[i].device && devices[n] == answer[j].device;
    }
  }

  lemma {:induction false} AnsweredAreAsked(hits: seq<ZoneHit>, devices: seq<Device>, history: seq<Sync>,
                                            runs: seq<nat>, ttl: Time)
    requires DistinctPairs(hits) && RunsOf(hits, devices, history, runs)
    ensures forall h <- Answer(hits, devices, history, runs, ttl) :: h.device in devices
  {
    hide DistinctPairs, HitsFor, HitsOf, Reported, Arguments;
    if devices != [] {
      var n := |devices| - 1;
      AnsweredAreAsked(hits, devices[..n], history, runs[..n], ttl);
      AnswerOfDevice(hits, history, runs[n], ttl);
      NewHitsAreHits(hits, devices[n], Inside(KeysAfter(history[..runs[n]], ttl), devices[n], history[runs[n]].at));
      assert devices[n] in devices;
    }
  }

  lemma GroupNone()
    ensures forall d :: Arguments([], d) == [] && HitsOf([], d) == map[]
  {
  }

  lemma GroupStep(hits: seq<ZoneHit>, i: nat)
    requires i < |hits|
    ensures var hit, before := hits[i], hits[..i];
            && HitsOf(hits[..i + 1], hit.device) == HitsOf(before, hit.device)[hit.zone := hit]
            && Arguments(hits[..i + 1], hit.device)
               == Arguments(before, hit.device) + (if hit.zone in HitsOf(before, hit.device) then [] else [hit.zone])
            && forall d :: d != hit.device ==>
                 HitsOf(hits[..i + 1], d) == HitsOf(before, d) && Arguments(hits[..i + 1], d) == Arguments(before, d)
  {
    var hit := hits[i];
    assert hits[..i + 1][..i] == hits[..i];
    HitsOfKeys(hits[..i], hit.device);
    var zones := ZonesHit(hits[..i], hit.device);
    assert ZonesHit(hits[..i + 1], hit.device) == zones + [hit.zone];
    assert (zones + [hit.zone])[..|zones|] == zones;
    forall d | d != hit.device ensures ZonesHit(hits[..i + 1], d) == ZonesHit(hits[..i], d) {}
  }

  // ----- The store and the script -----

  class PresenceStore {
    const ttl: Time
    var keys: map<Device, Record>
    var now: Time
    ghost var history: seq<Sync>
    ghost var faults: nat

    ghost predicate Valid() reads this {
      forall device, at :: at >= now ==>
        Inside(keys, device, at) == Inside(KeysAfter(history, ttl), device, at)
    }

    constructor (ttl: Time, now: Time)
      ensures Valid() && history == [] && this.ttl == ttl && this.now == now
    {
      this.ttl, this.now := ttl, now;
      keys := map[];
      history, faults := [], 0;
    }

    /** Time passes, and Redis drops expired keys when it likes. */
    method Pass(later: Time)
      requires Valid() && later >= now
      modifies `keys, `now
      ensures Valid() && now == later
    {
      now := later;
      var dropped := set d | d in keys && keys[d].expiresAt <= now;
      keys := keys - dropped;
    }

    /** Other workers run the script and time passes. */
    method Others()
      requires Valid()
      modifies `keys, `now, `history
      ensures Valid() && old(history) <= history && old(now) <= now
    {
    }

    /** filter_new_entries. `runs` says which syncs of the history are its own. The pipeline may break off,
        with an error, after any number of its scripts. */
    method FilterNewEntries(hits: seq<ZoneHit>, deviceIds: seq<Device>)
      returns (ok: bool, entries: seq<ZoneHit>, ghost runs: seq<nat>)
      requires Valid()
      modifies `keys, `now, `history, `faults
      ensures Valid() && old(history) <= history && old(faults) <= faults && (ok <==> faults == old(faults))
      ensures |runs| <= |Entered({}, deviceIds)| && RunsOf(hits, Entered({}, deviceIds)[..|runs|], history, runs)
      ensures forall r <- runs :: r >= |old(history)|
      ensures ok ==>
                && |runs| == |Entered({}, deviceIds)| && RunsOf(hits, Entered({}, deviceIds), history, runs)
                && entries == Answer(hits, Entered({}, deviceIds), history, runs, ttl)
    {
      hide RisingEdge, Arguments, HitsOf, Reported, HitsFor, KeysAfter, Entered, Inside;
      runs, entries, ok := [], [], true;
      NothingEntered<Device>({});
      if deviceIds == [] { return; }

      var order, dictionaries := Group(hits);
      var devices := Entered({}, deviceIds);
      var results: seq<seq<Zone>> := [];
      for k := 0 to |devices|
        invariant Valid() && old(history) <= history && faults == old(faults)
        invariant |results| == |runs| == k && RunsOf(hits, devices[..k], history, runs)
        invariant forall r <- runs :: r >= |old(history)|
        invariant forall j :: 0 <= j < k ==> results[j] == Reported(history, runs[j], ttl)
      {
        ghost var before := history;
        Others();
        RunsGrow(hits, devices[..k], before, history, runs, ttl);
        var broken;
        broken, faults := Strike(faults);
        if broken { return false, [], runs; }
        before := history;
        ghost var run := |history|;
        var entered := Run(devices[k], if devices[k] in order then order[devices[k]] else []);
        RunsGrow(hits, devices[..k], before, history, runs, ttl);
        runs, results := runs + [run], results + [entered];
        assert devices[..k + 1] == devices[..k] + [devices[k]];
      }
      assert devices[..|devices|] == devices;
      var unheard;
      unheard, faults := Strike(faults);
      if unheard { return false, [], runs; }

      for k := 0 to |devices|
        invariant entries == Answer(hits, devices[..k], history, runs[..k], ttl)
      {
        var device := devices[k];
        var zones := if device in dictionaries then dictionaries[device] else map[];
        entries := entries + HitsFor(zones, results[k]);
        assert devices[..k + 1][..k] == devices[..k] && runs[..k + 1][..k] == runs[..k];
      }
      assert runs[..|devices|] == runs;
    }

    /** hits_by_device: a dictionary per device, and the order of its keys. */
    method Group(hits: seq<ZoneHit>)
      returns (order: map<Device, seq<Zone>>, dictionaries: map<Device, map<Zone, ZoneHit>>)
      ensures order.Keys == dictionaries.Keys
      ensures forall d :: d in order ==> order[d] == Arguments(hits, d) && dictionaries[d] == HitsOf(hits, d)
      ensures forall d :: d !in order ==> Arguments(hits, d) == [] && HitsOf(hits, d) == map[]
    {
      hide Arguments, HitsOf;
      order, dictionaries := map[], map[];
      GroupNone();
      for i := 0 to |hits|
        invariant order.Keys == dictionaries.Keys
        invariant forall d :: d in order ==>
                    order[d] == Arguments(hits[..i], d) && dictionaries[d] == HitsOf(hits[..i], d)
        invariant forall d :: d !in order ==> Arguments(hits[..i], d) == [] && HitsOf(hits[..i], d) == map[]
      {
        var hit := hits[i];
        var keys := if hit.device in order then order[hit.device] else [];
        var dictionary := if hit.device in dictionaries then dictionaries[hit.device] else map[];
        GroupStep(hits, i);
        order := order[hit.device := if hit.zone in dictionary then keys else keys + [hit.zone]];
        dictionaries := dictionaries[hit.device := dictionary[hit.zone := hit]];
      }
      assert hits[..|hits|] == hits;
    }

    /** SYNC_ZONES_LUA. */
    method Run(device: Device, zones: seq<Zone>) returns (entered: seq<Zone>)
      requires Valid()
      modifies `keys, `history
      ensures Valid() && history == old(history) + [Sync(device, now, zones)]
      ensures entered == Reported(history, |old(history)|, ttl)
    {
      var known := Inside(keys, device, now);
      var stored := RemoveLeft(known, zones);
      stored, entered := AddCurrent(known, stored, zones);

      // EXPIRE or DEL
      ghost var sync, before := Sync(device, now, zones), KeysAfter(history, ttl);
      ghost var keysBefore := keys;
      keys := if |stored| > 0 then keys[device := Record(stored, now + ttl)] else keys - {device};
      assert stored == {} ==> zones == [] by { if zones != [] { assert zones[0] in stored; } }
      history := history + [sync];
      assert history[..|history| - 1] == old(history);
      forall d, at | at >= now ensures Inside(keys, d, at) == Inside(AfterSync(before, sync, ttl), d, at) {
        assert Inside(keysBefore, d, at) == Inside(before, d, at);
      }
    }

    /** SMEMBERS, in whatever order Redis returns them, and SREM of what is not current. */
    method RemoveLeft(known: set<Zone>, zones: seq<Zone>) returns (stored: set<Zone>)
      ensures stored == known * ToSet(zones)
    {
      stored := known;
      var members := known;
      while members != {}
        invariant members <= known
        invariant stored == members + known * ToSet(zones)
        decreases |members|
      {
        ghost var some := SomeMember(members);
        var zone :| zone in members;
        RemoveStep(known, zones, members, zone);
        if zone !in zones { stored := stored - {zone}; }
        members := members - {zone};
      }
    }

    /** SADD of every argument; those that were not members have been entered. */
    method AddCurrent(ghost known: set<Zone>, kept: set<Zone>, zones: seq<Zone>)
      returns (stored: set<Zone>, entered: seq<Zone>)
      requires kept == known * ToSet(zones)
      ensures stored == ToSet(zones) && entered == Entered(known, zones)
    {
      hide Entered;
      stored, entered := kept, [];
      assert Entered(known, []) == [] by { NothingEntered(known); }
      for i := 0 to |zones|
        invariant stored == kept + ToSet(zones[..i])
        invariant entered == Entered(known, zones[..i])
      {
        EnteredStep(known, zones, i);
        if zones[i] !in stored { entered := entered + [zones[i]]; }
        stored := stored + {zones[i]};
      }
      assert zones[..|zones|] == zones;
    }
  }
}
