/** The last known position of every device. */
module Positions {
  import opened Pings
  import opened Ledger
  import opened Chunks

  /** The last ping of each device, as dict updates in order leave it. */
  function Latest(pings: seq<Ping>): map<string, Ping> {
    if pings == [] then map[]
    else
      var last := pings[|pings| - 1];
      Latest(pings[..|pings| - 1])[last.device := last]
  }

  lemma {:induction false} LatestConcat(a: seq<Ping>, b: seq<Ping>)
    ensures Latest(a + b) == Latest(a) + Latest(b)
  {
    if b == [] {
      assert a + b == a;
    } else {
      var n := |b| - 1;
      LatestConcat(a, b[..n]);
      assert (a + b)[..|a + b| - 1] == a + b[..n];
    }
  }

  lemma EmptyLatest()
    ensures Latest([]) == map[]
  {
  }

  ghost predicate LastOf(pings: seq<Ping>, i: nat) {
    i < |pings| && forall j :: i < j < |pings| ==> pings[j].device != pings[i].device
  }

  /** A snapshot holds every device that sent a ping, with the last ping it sent, and nothing else. */
  lemma {:induction false} LatestIsLast(pings: seq<Ping>, p: Ping)
    ensures (p.device in Latest(pings) && Latest(pings)[p.device] == p)
            <==> exists i: nat :: LastOf(pings, i) && pings[i] == p
  {
    if pings != [] {
      var n := |pings| - 1;
      LatestIsLast(pings[..n], p);
      if p.device == pings[n].device {
        assert LastOf(pings, n);
        forall i: nat | LastOf(pings, i) && pings[i] == p ensures i == n {}
      } else {
        forall i: nat | LastOf(pings[..n], i) && pings[..n][i] == p ensures LastOf(pings, i) && pings[i] == p {}
        forall i: nat | LastOf(pings, i) && pings[i] == p ensures LastOf(pings[..n], i) && pings[..n][i] == p {}
      }
    }
  }

  lemma NothingKnown(pings: seq<Ping>)
    ensures Latest(pings) == map[] <==> pings == []
  {
    if pings != [] { assert pings[|pings| - 1].device in Latest(pings); }
  }

  // ----- Positions of entries -----

  /** Of the entries in `ids`, i is the highest with a ping of p's device, and p the last of these. */
  ghost predicate NewestIn(log: Log, ids: set<Id>, i: Id, p: Ping) {
    && i in ids && i < |log|
    && p.device in Latest(log[i]) && Latest(log[i])[p.device] == p
    && forall j <- ids :: i < j < |log| ==> p.device !in Latest(log[j])
  }

  /** Whatever order the entries were added, read or taken over in, the flush of a set of them leaves
      for each device its last ping in the highest entry that has one. */
  lemma {:induction false} NewestIsLatest(log: Log, ids: set<Id>, p: Ping)
    ensures var latest := Latest(Flatten(Payloads(ChunksOf(log, ids))));
            (p.device in latest && latest[p.device] == p) <==> exists i :: NewestIn(log, ids, i, p)
  {
    hide Latest, Flatten, Payloads;
    if log == [] {
      NoPayloads();
      EmptyLatest();
    } else {
      var last := |log| - 1;
      var front := ChunksOf(log[..last], ids);
      NewestIsLatest(log[..last], ids, p);
      if last in ids {
        PayloadsAppend(front, StreamChunk(last, log[last]));
        LatestConcat(Flatten(Payloads(front)), log[last]);
        if p.device in Latest(log[last]) {
          if Latest(log[last])[p.device] == p { assert NewestIn(log, ids, last, p); }
          if i :| NewestIn(log, ids, i, p) { assert i == last; }
        } else {
          SameNewest(log, ids, p);
        }
      } else {
        assert ChunksOf(log, ids) == front;
        SameNewest(log, ids, p);
      }
    }
  }

  lemma SameNewest(log: Log, ids: set<Id>, p: Ping)
    requires log != [] && (|log| - 1 !in ids || p.device !in Latest(log[|log| - 1]))
    ensures var front := log[..|log| - 1];
            (exists i :: NewestIn(log, ids, i, p)) <==> exists i :: NewestIn(front, ids, i, p)
  {
    hide Latest;
    var front := log[..|log| - 1];
    if i :| NewestIn(log, ids, i, p) { assert NewestIn(front, ids, i, p); }
    if i :| NewestIn(front, ids, i, p) { assert NewestIn(log, ids, i, p); }
  }
}
