/** Matching a batch of pings against the zones: a prefiltered join, sorted, of which the first
    row of every (zone, device) group is kept. */
module Matcher {
  import opened Pings
  import opened Presence

  type Owner = string
  datatype Geozone = Geozone(id: Zone, owner: Owner, name: string)

  /** Geometry and the database's text order, as far as matching depends on them. */
  datatype World = World(
    within: (Geozone, Ping) -> bool,      // ST_DWithin on geography
    inBounds: (Geozone, Ping) -> bool,    // the GiST prefilter on bounds
    before: (string, string) -> bool)     // device ids in ORDER BY, equal ones included
  {
    ghost predicate TextOrder() {
      && (forall a, b :: before(a, b) || before(b, a))
      && (forall a, b :: before(a, b) && before(b, a) ==> a == b)
      && (forall a, b, c :: before(a, b) && before(b, c) ==> before(a, c))
    }
  }

  function Hit(zone: Geozone, p: Ping): ZoneHit {
    ZoneHit(zone.owner, zone.id, zone.name, p.device, p.lat, p.lon, p.recordedAt)
  }

  /** The hits of one ping, zone by zone. */
  function HitsOfPing(w: World, zones: seq<Geozone>, p: Ping, prefilter: bool): seq<ZoneHit> {
    if zones == [] then []
    else
      (if w.within(zones[0], p) && (prefilter ==> w.inBounds(zones[0], p)) then [Hit(zones[0], p)] else [])
      + HitsOfPing(w, zones[1..], p, prefilter)
  }

  /** The rows of the join, with or without the bounds condition. */
  function Join(w: World, zones: seq<Geozone>, pings: seq<Ping>, prefilter: bool): seq<ZoneHit> {
    if pings == [] then []
    else HitsOfPing(w, zones, pings[0], prefilter) + Join(w, zones, pings[1..], prefilter)
  }

  // ----- The prefilter -----

  lemma {:induction false} HitsOfPingFewer(w: World, zones: seq<Geozone>, p: Ping)
    ensures |HitsOfPing(w, zones, p, true)| <= |HitsOfPing(w, zones, p, false)|
    ensures HitsOfPing(w, zones, p, true) == HitsOfPing(w, zones, p, false)
            <==> forall z <- zones :: w.within(z, p) ==> w.inBounds(z, p)
    ensures HitsOfPing(w, zones, p, true) != HitsOfPing(w, zones, p, false)
            ==> |HitsOfPing(w, zones, p, true)| < |HitsOfPing(w, zones, p, false)|
    decreases |zones|
  {
    if zones != [] {
      var z, rest := zones[0], zones[1..];
      HitsOfPingFewer(w, rest, p);
      assert zones == [z] + rest;
      var a, b := HitsOfPing(w, rest, p, true), HitsOfPing(w, rest, p, false);
      if w.within(z, p) && w.inBounds(z, p) {
        assert ([Hit(z, p)] + a)[1..] == a && ([Hit(z, p)] + b)[1..] == b;
      }
    }
  }

  lemma {:induction false} JoinFewer(w: World, zones: seq<Geozone>, pings: seq<Ping>)
    ensures |Join(w, zones, pings, true)| <= |Join(w, zones, pings, false)|
    ensures Join(w, zones, pings, true) == Join(w, zones, pings, false)
            <==> forall p <- pings, z <- zones :: w.within(z, p) ==> w.inBounds(z, p)
    ensures Join(w, zones, pings, true) != Join(w, zones, pings, false)
            ==> |Join(w, zones, pings, true)| < |Join(w, zones, pings, false)|
    decreases |pings|
  {
    if pings != [] {
      var p, rest := pings[0], pings[1..];
      HitsOfPingFewer(w, zones, p);
      JoinFewer(w, zones, rest);
      assert pings == [p] + rest;
    }
  }

  // ----- DISTINCT ON over ORDER BY -----

  /** ORDER BY zone, device, recorded_at DESC. */
  predicate InOrder(w: World, a: ZoneHit, b: ZoneHit) {
    a.zone < b.zone
    || (a.zone == b.zone && a.device != b.device && w.before(a.device, b.device))
    || (a.zone == b.zone && a.device == b.device && a.recordedAt >= b.recordedAt)
  }

  ghost predicate Sorted(w: World, rows: seq<ZoneHit>) {
    forall i, j :: 0 <= i < j < |rows| ==> InOrder(w, rows[i], rows[j])
  }

  predicate SamePair(a: ZoneHit, b: ZoneHit) { a.zone == b.zone && a.device == b.device }

  /** The first row of every run of equal (zone, device). */
  function FirstOfEach(rows: seq<ZoneHit>): seq<ZoneHit> {
    if rows == [] then []
    else
      var n := |rows| - 1;
      FirstOfEach(rows[..n]) + if n > 0 && SamePair(rows[n - 1], rows[n]) then [] else [rows[n]]
  }

  /** In sorted rows a pair seen before was seen in the row just before. */
  lemma GroupsAreRuns(w: World, rows: seq<ZoneHit>, i: nat, n: nat)
    requires w.TextOrder() && Sorted(w, rows) && i < n < |rows| && SamePair(rows[i], rows[n])
    ensures SamePair(rows[n - 1], rows[n])
  {
    if i < n - 1 {
      assert InOrder(w, rows[i], rows[n - 1]) && InOrder(w, rows[n - 1], rows[n]);
    }
  }

  /** The last row starts a new group if and only if no earlier row is of its pair. */
  lemma LastStartsGroup(w: World, rows: seq<ZoneHit>)
    requires w.TextOrder() && Sorted(w, rows) && rows != []
    ensures var n := |rows| - 1;
            (n > 0 && SamePair(rows[n - 1], rows[n])) <==> exists i :: 0 <= i < n && SamePair(rows[i], rows[n])
  {
    var n := |rows| - 1;
    if i :| 0 <= i < n && SamePair(rows[i], rows[n]) { GroupsAreRuns(w, rows, i, n); }
  }

  lemma DistinctPlusOne(hits: seq<ZoneHit>, h: ZoneHit)
    requires DistinctPairs(hits) && forall g <- hits :: !SamePair(g, h)
    ensures DistinctPairs(hits + [h])
  {
    forall i, j | 0 <= i < j < |hits + [h]|
      ensures (hits + [h])[i].device != (hits + [h])[j].device || (hits + [h])[i].zone != (hits + [h])[j].zone
    {
      assert hits[i] in hits;
    }
  }

  /** The groups come in the order of the rows. */
  lemma {:induction false} FirstOfEachIsSorted(w: World, rows: seq<ZoneHit>)
    requires Sorted(w, rows)
    ensures Sorted(w, FirstOfEach(rows)) && forall h <- FirstOfEach(rows) :: h in rows
  {
    hide InOrder;
    if rows != [] {
      var n := |rows| - 1;
      FirstOfEachIsSorted(w, rows[..n]);
      forall h <- FirstOfEach(rows[..n]) ensures InOrder(w, h, rows[n]) {
        var i :| 0 <= i < n && rows[..n][i] == h;
        assert rows[i] == h;
      }
    }
  }

  lemma {:induction false} FirstOfEachIsDistinct(w: World, rows: seq<ZoneHit>)
    requires w.TextOrder() && Sorted(w, rows)
    ensures DistinctPairs(FirstOfEach(rows))
    ensures forall h <- FirstOfEach(rows) :: h in rows
  {
    if rows != [] {
      var n := |rows| - 1;
      FirstOfEachIsDistinct(w, rows[..n]);
      LastStartsGroup(w, rows);
      if !(n > 0 && SamePair(rows[n - 1], rows[n])) {
        forall h <- FirstOfEach(rows[..n]) ensures !SamePair(h, rows[n]) {
          var i :| 0 <= i < n && rows[..n][i] == h;
          assert rows[i] == h;
        }
        DistinctPlusOne(FirstOfEach(rows[..n]), rows[n]);
      }
    }
  }

  lemma {:induction false} FirstOfEachCovers(w: World, rows: seq<ZoneHit>, r: ZoneHit) returns (h: ZoneHit)
    requires w.TextOrder() && Sorted(w, rows) && r in rows
    ensures h in FirstOfEach(rows) && SamePair(h, r)
  {
    var n := |rows| - 1;
    if r in rows[..n] {
      h := FirstOfEachCovers(w, rows[..n], r);
    } else {
      assert r == rows[n] by { assert rows == rows[..n] + [rows[n]]; }
      if n > 0 && SamePair(rows[n - 1], rows[n]) {
        assert rows[..n][n - 1] == rows[n - 1];
        h := FirstOfEachCovers(w, rows[..n], rows[n - 1]);
      } else {
        h := r;
      }
    }
  }

  lemma {:induction false} FirstOfEachIsLatest(w: World, rows: seq<ZoneHit>, h: ZoneHit)
    requires w.TextOrder() && Sorted(w, rows) && h in FirstOfEach(rows)
    ensures forall r <- rows :: SamePair(r, h) ==> r.recordedAt <= h.recordedAt
  {
    var n := |rows| - 1;
    FirstOfEachIsDistinct(w, rows);
    LastStartsGroup(w, rows);
    assert rows == rows[..n] + [rows[n]];
    if h in FirstOfEach(rows[..n]) {
      FirstOfEachIsLatest(w, rows[..n], h);
      FirstOfEachIsDistinct(w, rows[..n]);
      var i :| 0 <= i < n && rows[..n][i] == h;
      assert InOrder(w, rows[i], rows[n]);
    } else {
      assert h == rows[n];
      forall r <- rows | SamePair(r, h) ensures r.recordedAt <= h.recordedAt {
        var i :| 0 <= i < |rows| && rows[i] == r;
        assert i == n;
      }
    }
  }

  // ----- What a match answers -----

  lemma {:induction false} HitsOfPingExact(w: World, zones: seq<Geozone>, p: Ping, h: ZoneHit)
    ensures h in HitsOfPing(w, zones, p, false) <==>
            exists i :: 0 <= i < |zones| && w.within(zones[i], p) && h == Hit(zones[i], p)
    decreases |zones|
  {
    if zones != [] {
      HitsOfPingExact(w, zones[1..], p, h);
      if i :| 0 <= i < |zones[1..]| && w.within(zones[1..][i], p) && h == Hit(zones[1..][i], p) {
        assert zones[i + 1] == zones[1..][i];
      }
      if i :| 0 < i < |zones| && w.within(zones[i], p) && h == Hit(zones[i], p) {
        assert zones[1..][i - 1] == zones[i];
      }
    }
  }

  lemma {:induction false} JoinExact(w: World, zones: seq<Geozone>, pings: seq<Ping>, h: ZoneHit)
    ensures h in Join(w, zones, pings, false) <==>
            exists i, j :: 0 <= i < |zones| && 0 <= j < |pings| && w.within(zones[i], pings[j])
                           && h == Hit(zones[i], pings[j])
    decreases |pings|
  {
    if pings != [] {
      JoinExact(w, zones, pings[1..], h);
      HitsOfPingExact(w, zones, pings[0], h);
      if i, j :| 0 <= i < |zones| && 0 <= j < |pings[1..]|
                 && w.within(zones[i], pings[1..][j]) && h == Hit(zones[i], pings[1..][j]) {
        assert pings[j + 1] == pings[1..][j];
      }
      if i, j :| 0 <= i < |zones| && 0 < j < |pings| && w.within(zones[i], pings[j]) && h == Hit(zones[i], pings[j]) {
        assert pings[1..][j - 1] == pings[j];
      }
    }
  }

  /** Bounds contain their circle, as the database trigger sees to. */
  ghost predicate BoundsContainCircle(w: World, zones: seq<Geozone>, pings: seq<Ping>) {
    forall p <- pings, z <- zones :: w.within(z, p) ==> w.inBounds(z, p)
  }

  /** The prefilter changes the rows of the join if and only if some circle leaves its bounds
      at one of the pings. */
  lemma PrefilterHarmlessIff(w: World, zones: seq<Geozone>, pings: seq<Ping>)
    ensures Join(w, zones, pings, true) == Join(w, zones, pings, false) <==> BoundsContainCircle(w, zones, pings)
  {
    JoinFewer(w, zones, pings);
  }

  /** A result of the query: the join's rows in some order that ORDER BY allows, one per group. */
  ghost predicate IsMatch(w: World, zones: seq<Geozone>, pings: seq<Ping>, hits: seq<ZoneHit>) {
    exists rows ::
      multiset(rows) == multiset(Join(w, zones, pings, true)) && Sorted(w, rows) && hits == FirstOfEach(rows)
  }

  /** The `i`th zone and `j`th ping are in range of each other and of the pair of `h`. */
  ghost predicate PairInRange(w: World, zones: seq<Geozone>, pings: seq<Ping>, i: nat, j: nat, h: ZoneHit) {
    i < |zones| && j < |pings| && w.within(zones[i], pings[j]) && SamePair(Hit(zones[i], pings[j]), h)
  }

  /** The hit names the zone, its owner, and where and when the ping was. */
  ghost predicate Tells(h: ZoneHit, zone: Geozone, p: Ping) {
    && h.user == zone.owner && h.zone == zone.id && h.zoneName == zone.name
    && h.device == p.device && h.lat == p.lat && h.lon == p.lon && h.recordedAt == p.recordedAt
  }

  /** The sorted rows behind a result are the hits in range, and nothing else. */
  lemma RowsOfMatch(w: World, zones: seq<Geozone>, pings: seq<Ping>, hits: seq<ZoneHit>) returns (rows: seq<ZoneHit>)
    requires BoundsContainCircle(w, zones, pings) && IsMatch(w, zones, pings, hits)
    ensures Sorted(w, rows) && hits == FirstOfEach(rows)
    ensures forall h :: h in rows <==> h in Join(w, zones, pings, false)
  {
    hide Sorted, FirstOfEach, Join, BoundsContainCircle;
    rows :| multiset(rows) == multiset(Join(w, zones, pings, true)) && Sorted(w, rows) && hits == FirstOfEach(rows);
    PrefilterHarmlessIff(w, zones, pings);
    forall h ensures h in rows <==> h in Join(w, zones, pings, false) {
      SameElements(rows, Join(w, zones, pings, false), h);
    }
  }

  /** With or without the bounds condition, every row comes from a ping of its device. */
  lemma {:induction false} JoinIsFromPings(w: World, zones: seq<Geozone>, pings: seq<Ping>, prefilter: bool, h: ZoneHit)
      returns (j: nat)
    requires h in Join(w, zones, pings, prefilter)
    ensures j < |pings| && pings[j].device == h.device
    decreases |pings|
  {
    HitsAreOfDevice(w, zones, pings[0], prefilter);
    if h in HitsOfPing(w, zones, pings[0], prefilter) {
      j := 0;
    } else {
      j := JoinIsFromPings(w, zones, pings[1..], prefilter, h);
      j := j + 1;
    }
  }

  lemma {:induction false} HitsAreOfDevice(w: World, zones: seq<Geozone>, p: Ping, prefilter: bool)
    ensures forall h <- HitsOfPing(w, zones, p, prefilter) :: h.device == p.device
    decreases |zones|
  {
    if zones != [] { HitsAreOfDevice(w, zones[1..], p, prefilter); }
  }

  lemma HitIsFromPing(w: World, zones: seq<Geozone>, pings: seq<Ping>, hits: seq<ZoneHit>, h: ZoneHit) returns (j: nat)
    requires w.TextOrder() && IsMatch(w, zones, pings, hits) && h in hits
    ensures j < |pings| && pings[j].device == h.device
  {
    hide Sorted, FirstOfEach, Join, DistinctPairs, World.TextOrder;
    var rows :| multiset(rows) == multiset(Join(w, zones, pings, true)) && Sorted(w, rows) && hits == FirstOfEach(rows);
    FirstOfEachIsDistinct(w, rows);
    SameElements(rows, Join(w, zones, pings, true), h);
    j := JoinIsFromPings(w, zones, pings, true, h);
  }

  /** However the database breaks ties, no (zone, device) pair is answered twice, and the answer is sorted. */
  lemma MatchIsDistinct(w: World, zones: seq<Geozone>, pings: seq<Ping>, hits: seq<ZoneHit>)
    requires w.TextOrder() && IsMatch(w, zones, pings, hits)
    ensures DistinctPairs(hits) && Sorted(w, hits)
  {
    hide DistinctPairs, FirstOfEach, Join;
    var rows :| multiset(rows) == multiset(Join(w, zones, pings, true)) && Sorted(w, rows) && hits == FirstOfEach(rows);
    FirstOfEachIsDistinct(w, rows);
    FirstOfEachIsSorted(w, rows);
  }

  /** However the database breaks ties, every hit is a ping within a zone, and no ping of the
      same pair within the zone is later. */
  lemma MatchIsLatest(w: World, zones: seq<Geozone>, pings: seq<Ping>, hits: seq<ZoneHit>, h: ZoneHit)
    requires w.TextOrder() && BoundsContainCircle(w, zones, pings) && IsMatch(w, zones, pings, hits) && h in hits
    ensures exists i: nat, j: nat :: PairInRange(w, zones, pings, i, j, h) && Tells(h, zones[i], pings[j])
    ensures forall i: nat, j: nat :: PairInRange(w, zones, pings, i, j, h) ==> pings[j].recordedAt <= h.recordedAt
  {
    hide Sorted, FirstOfEach, Join, IsMatch, BoundsContainCircle, DistinctPairs, World.TextOrder;
    var rows := RowsOfMatch(w, zones, pings, hits);
    FirstOfEachIsDistinct(w, rows);
    FirstOfEachIsLatest(w, rows, h);
    JoinExact(w, zones, pings, h);
    var i, j :| 0 <= i < |zones| && 0 <= j < |pings| && w.within(zones[i], pings[j]) && h == Hit(zones[i], pings[j]);
    assert PairInRange(w, zones, pings, i, j, h) && Tells(h, zones[i], pings[j]);
    forall i: nat, j: nat | PairInRange(w, zones, pings, i, j, h) ensures pings[j].recordedAt <= h.recordedAt {
      JoinExact(w, zones, pings, Hit(zones[i], pings[j]));
    }
  }

  /** Every pair with a ping within range is answered. */
  lemma MatchIsComplete(w: World, zones: seq<Geozone>, pings: seq<Ping>, hits: seq<ZoneHit>, i: nat, j: nat)
      returns (h: ZoneHit)
    requires w.TextOrder() && BoundsContainCircle(w, zones, pings) && IsMatch(w, zones, pings, hits)
    requires i < |zones| && j < |pings| && w.within(zones[i], pings[j])
    ensures h in hits && h.zone == zones[i].id && h.device == pings[j].device && pings[j].recordedAt <= h.recordedAt
  {
    hide Sorted, FirstOfEach, Join, IsMatch, BoundsContainCircle, World.TextOrder;
    var rows := RowsOfMatch(w, zones, pings, hits);
    var r := Hit(zones[i], pings[j]);
    JoinExact(w, zones, pings, r);
    h := FirstOfEachCovers(w, rows, r);
    FirstOfEachIsLatest(w, rows, h);
  }

  /** Any two results answer the same pairs with the same times: ties show only in the rest. */
  lemma MatchesAgree(w: World, zones: seq<Geozone>, pings: seq<Ping>,
                     one: seq<ZoneHit>, other: seq<ZoneHit>, h: ZoneHit)
      returns (g: ZoneHit)
    requires w.TextOrder() && BoundsContainCircle(w, zones, pings)
    requires IsMatch(w, zones, pings, one) && IsMatch(w, zones, pings, other) && h in one
    ensures g in other && SamePair(g, h) && g.recordedAt == h.recordedAt
  {
    hide IsMatch, BoundsContainCircle, World.TextOrder;
    MatchIsLatest(w, zones, pings, one, h);
    var i: nat, j: nat :| PairInRange(w, zones, pings, i, j, h) && Tells(h, zones[i], pings[j]);
    g := MatchIsComplete(w, zones, pings, other, i, j);
    MatchIsLatest(w, zones, pings, other, g);
    var k: nat, l: nat :| PairInRange(w, zones, pings, k, l, g) && Tells(g, zones[k], pings[l]);
    assert PairInRange(w, zones, pings, k, l, h);
  }

  /** The per-device dictionaries that presence builds from a match keep every hit. */
  lemma PresenceLosesNoHit(w: World, zones: seq<Geozone>, pings: seq<Ping>, hits: seq<ZoneHit>, i: nat)
    requires w.TextOrder() && IsMatch(w, zones, pings, hits) && i < |hits|
    ensures hits[i].zone in HitsOf(hits, hits[i].device) && HitsOf(hits, hits[i].device)[hits[i].zone] == hits[i]
  {
    MatchIsDistinct(w, zones, pings, hits);
    DistinctHitsKept(hits, i);
  }

  lemma SameElements<T>(a: seq<T>, b: seq<T>, x: T)
    requires multiset(a) == multiset(b)
    ensures x in a <==> x in b
  {
    assert x in multiset(a) <==> x in a;
    assert x in multiset(b) <==> x in b;
  }

  // ----- A match exists -----

  function Inserted(w: World, rows: seq<ZoneHit>, h: ZoneHit): seq<ZoneHit> {
    if rows == [] || InOrder(w, h, rows[0]) then [h] + rows
    else [rows[0]] + Inserted(w, rows[1..], h)
  }

  function Ordered(w: World, rows: seq<ZoneHit>): seq<ZoneHit> {
    if rows == [] then [] else Inserted(w, Ordered(w, rows[1..]), rows[0])
  }

  lemma OrderIsTotal(w: World, a: ZoneHit, b: ZoneHit, c: ZoneHit)
    requires w.TextOrder()
    ensures InOrder(w, a, b) || InOrder(w, b, a)
    ensures InOrder(w, a, b) && InOrder(w, b, c) ==> InOrder(w, a, c)
  {
    assert w.before(a.device, b.device) || w.before(b.device, a.device);
    if InOrder(w, a, b) && InOrder(w, b, c) && a.zone == b.zone == c.zone
       && a.device != b.device && b.device != c.device {
      assert w.before(a.device, b.device) && w.before(b.device, c.device);
      assert w.before(a.device, c.device);
    }
  }

  lemma SortedTail(w: World, rows: seq<ZoneHit>)
    requires Sorted(w, rows) && rows != []
    ensures Sorted(w, rows[1..]) && forall r <- rows[1..] :: InOrder(w, rows[0], r)
  {
    hide InOrder;
  }

  lemma SortedCons(w: World, h: ZoneHit, rows: seq<ZoneHit>)
    requires Sorted(w, rows) && forall r <- rows :: InOrder(w, h, r)
    ensures Sorted(w, [h] + rows)
  {
    hide InOrder;
  }

  lemma {:induction false} InsertedIsSorted(w: World, rows: seq<ZoneHit>, h: ZoneHit)
    requires w.TextOrder() && Sorted(w, rows)
    ensures Sorted(w, Inserted(w, rows, h))
    ensures multiset(Inserted(w, rows, h)) == multiset(rows) + multiset{h}
  {
    hide InOrder, Sorted, World.TextOrder;
    if rows == [] {
      NothingIsSorted(w);
      SortedCons(w, h, []);
      assert [h] + [] == [h];
    } else {
      var head, rest := rows[0], rows[1..];
      assert rows == [head] + rest;
      SortedTail(w, rows);
      OrderIsTotal(w, h, head, h);
      if InOrder(w, h, head) {
        forall r <- rows ensures InOrder(w, h, r) {
          if r != head { assert r in rest; OrderIsTotal(w, h, head, r); }
        }
        SortedCons(w, h, rows);
      } else {
        InsertedIsSorted(w, rest, h);
        var tail := Inserted(w, rest, h);
        forall r <- tail ensures InOrder(w, head, r) {
          assert r in multiset(tail);
          if r != h { assert r in multiset(rest) && r in rest; }
        }
        SortedCons(w, head, tail);
      }
    }
  }

  lemma {:induction false} OrderedIsSorted(w: World, rows: seq<ZoneHit>)
    requires w.TextOrder()
    ensures Sorted(w, Ordered(w, rows)) && multiset(Ordered(w, rows)) == multiset(rows)
  {
    hide InOrder, Sorted, World.TextOrder;
    if rows == [] {
      NothingIsSorted(w);
    } else {
      OrderedIsSorted(w, rows[1..]);
      InsertedIsSorted(w, Ordered(w, rows[1..]), rows[0]);
      assert rows == [rows[0]] + rows[1..];
    }
  }

  lemma NothingIsSorted(w: World)
    ensures Sorted(w, [])
  {}

  /** The query always has a result. */
  lemma MatchExists(w: World, zones: seq<Geozone>, pings: seq<Ping>)
    requires w.TextOrder()
    ensures exists hits :: IsMatch(w, zones, pings, hits)
  {
    OrderedIsSorted(w, Join(w, zones, pings, true));
    assert IsMatch(w, zones, pings, FirstOfEach(Ordered(w, Join(w, zones, pings, true))));
  }
}
