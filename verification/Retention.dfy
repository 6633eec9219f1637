/** Deleting expired rows in a bounded number of bounded passes, while other connections insert
    and purge. Row ids are never used twice. */
module Retention {
  import opened Faults
  import opened Pings
  import opened Sets

  // app/pipeline/constants.py
  const RETENTION_MAX_PASSES := 100

  type RowId = nat
  type Table = map<RowId, Time>

  function Expired(rows: Table, cutoff: Time): set<RowId> {
    set id | id in rows && rows[id] < cutoff
  }

  function Min(a: nat, b: nat): nat { if a < b then a else b }

  function Allowance(passes: nat, batchSize: nat): nat { passes * batchSize }

  lemma OnePassMore(passes: nat, batchSize: nat)
    ensures Allowance(0, batchSize) == 0
    ensures Allowance(passes + 1, batchSize) == Allowance(passes, batchSize) + batchSize
  {}

  lemma {:induction false} AllowanceGrows(passes: nat, more: nat, batchSize: nat)
    requires passes <= more
    ensures Allowance(passes, batchSize) <= Allowance(more, batchSize)
    decreases more
  {
    if passes < more { AllowanceGrows(passes, more - 1, batchSize); OnePassMore(more - 1, batchSize); }
  }

  /** LIMIT without ORDER BY: some of the candidates, as many as allowed. */
  method Pick(candidates: set<RowId>, limit: nat) returns (picked: set<RowId>)
    ensures picked <= candidates && |picked| == Min(|candidates|, limit)
  {
    picked := {};
    while |picked| < limit && picked != candidates
      invariant picked <= candidates && |picked| <= limit
      decreases candidates - picked
    {
      SubsetSize(picked, candidates);
      var id :| id in candidates - picked;
      picked := picked + {id};
    }
    SubsetSize(picked, candidates);
  }

  /** Every row ever inserted is either still there or was deleted by exactly one party. */
  ghost predicate Accounted(rows: Table, ever: Table, mine: set<RowId>, theirs: set<RowId>) {
    && PartOf(rows, ever)
    && ever.Keys == rows.Keys + mine + theirs
    && rows.Keys !! mine !! theirs
  }

  /** Between two states of the table, the rows inserted are those gained, those deleted here and those
      deleted by others. */
  lemma NothingIsLost(rows0: Table, ever0: Table, mine0: set<RowId>, theirs0: set<RowId>,
                      rows: Table, ever: Table, mine: set<RowId>, theirs: set<RowId>, gone: set<RowId>)
    requires Accounted(rows0, ever0, mine0, theirs0) && Accounted(rows, ever, mine, theirs)
    requires PartOf(ever0, ever) && mine == mine0 + gone && mine0 !! gone && theirs0 <= theirs
    ensures |rows| + |gone| + |theirs - theirs0| == |rows0| + |ever.Keys - ever0.Keys|
  {
    ThreeParts(rows0.Keys, mine0, theirs0, ever0.Keys);
    ThreeParts(rows.Keys, mine, theirs, ever.Keys);
    assert |mine| == |mine0| + |gone|;
    SubsetSize(theirs0, theirs);
    SubsetSize(ever0.Keys, ever.Keys);
  }

  lemma ThreeParts(a: set<RowId>, b: set<RowId>, c: set<RowId>, all: set<RowId>)
    requires all == a + b + c && a !! b !! c
    ensures |all| == |a| + |b| + |c|
  {
    assert |a + b| == |a| + |b|;
    assert |(a + b) + c| == |a + b| + |c|;
  }

  lemma DeletingIsAccounted(rows: Table, ever: Table, mine: set<RowId>, theirs: set<RowId>, doomed: set<RowId>)
    requires Accounted(rows, ever, mine, theirs) && doomed <= rows.Keys
    ensures Accounted(rows - doomed, ever, mine + doomed, theirs) && mine !! doomed
  {
    assert (rows - doomed).Keys == rows.Keys - doomed;
  }

  lemma DeletingExpired(rows: Table, cutoff: Time, doomed: set<RowId>)
    requires doomed <= Expired(rows, cutoff)
    ensures |Expired(rows - doomed, cutoff)| == |Expired(rows, cutoff)| - |doomed|
  {
    assert Expired(rows - doomed, cutoff) == Expired(rows, cutoff) - doomed;
    SubsetSize(doomed, Expired(rows, cutoff));
  }

  /** `rows` are entries of the history. */
  ghost predicate PartOf(rows: Table, ever: Table) {
    forall id <- rows :: id in ever && ever[id] == rows[id]
  }

  ghost predicate AllExpired(gone: set<RowId>, ever: Table, cutoff: Time) {
    forall id <- gone :: id in ever && ever[id] < cutoff
  }

  /** Rows never come back: when all that was expired in `at` has been deleted since, by whomever, no
      row that was expired before is left. */
  lemma NoneStayed(start: Table, cutoff: Time, at: Table, ever0: Table, mine0: set<RowId>, theirs0: set<RowId>,
                   rows: Table, ever: Table, mine: set<RowId>, theirs: set<RowId>)
    requires Accounted(at, ever0, mine0, theirs0) && Accounted(rows, ever, mine, theirs)
    requires PartOf(start, ever0) && PartOf(ever0, ever) && mine0 <= mine && theirs0 <= theirs
    requires Expired(at, cutoff) <= mine + theirs
    ensures Expired(start, cutoff) * rows.Keys == {}
  {
    forall id <- Expired(start, cutoff) ensures id !in rows {
      assert id in at ==> id in Expired(at, cutoff);
    }
  }

  /** What one batch did that picked from the rows `at` and deleted `doomed` of its picks, others having
      deleted the rest of them first. */
  ghost predicate BatchDone(at: Table, cutoff: Time, batchSize: nat, picked: set<RowId>, doomed: set<RowId>) {
    && picked <= Expired(at, cutoff) && |picked| == Min(|Expired(at, cutoff)|, batchSize)
    && doomed <= picked
  }

  lemma {:induction false} SubsetOfSize(s: set<RowId>, n: nat) returns (some: set<RowId>)
    requires n <= |s|
    ensures some <= s && |some| == n
    decreases n
  {
    some := {};
    if n > 0 {
      var id := SomeMember(s);
      some := SubsetOfSize(s - {id}, n - 1);
      some := some + {id};
    }
  }

  /** Overlapping purges can make a batch short, which ends its purge, and leave a row that was expired
      when it picked, if and only if more rows were expired than fit a batch that is not empty. */
  lemma OverlapStopsEarlyIff(at: Table, cutoff: Time, batchSize: nat)
    ensures (exists picked, doomed :: BatchDone(at, cutoff, batchSize, picked, doomed)
                                      && |doomed| < batchSize && Expired(at - picked, cutoff) != {})
            <==> 0 < batchSize < |Expired(at, cutoff)|
  {
    var expired := Expired(at, cutoff);
    forall picked ensures Expired(at - picked, cutoff) == expired - picked {}
    if 0 < batchSize < |expired| {
      var picked := SubsetOfSize(expired, batchSize);
      var id := SomeMember(picked);
      SubsetSize({id}, picked);
      SubsetSize(picked, expired);
      EmptySet(expired - picked);
      assert BatchDone(at, cutoff, batchSize, picked, picked - {id});
    }
    if picked, doomed :| BatchDone(at, cutoff, batchSize, picked, doomed)
                         && |doomed| < batchSize && Expired(at - picked, cutoff) != {} {
      SubsetSize(picked, expired);
      EmptySet(expired - picked);
    }
  }

  lemma GoneAndDoomed(start: Table, was: set<RowId>, gone: set<RowId>, doomed: set<RowId>)
    requires was !! gone && was + gone !! doomed
    ensures (was + gone) + doomed == was + (gone + doomed) && was !! gone + doomed
    ensures |gone + doomed| == |gone| + |doomed|
    ensures (start - gone) - doomed == start - (gone + doomed)
  {}

  /** Where a purge stands that has deleted `gone` and lost `stolen` of its picks to others. */
  ghost predicate Ran(start: Table, mine0: set<RowId>, theirs0: set<RowId>, ever: Table, mine: set<RowId>,
                      theirs: set<RowId>, gone: set<RowId>, stolen: set<RowId>, cutoff: Time) {
    && mine == mine0 + gone && mine0 !! gone && theirs0 <= theirs && stolen <= theirs - theirs0
    && PartOf(start, ever) && AllExpired(gone, ever, cutoff)
  }

  lemma RanNothing(start: Table, ever: Table, mine: set<RowId>, theirs: set<RowId>, cutoff: Time)
    requires PartOf(start, ever)
    ensures Ran(start, mine, theirs, ever, mine, theirs, {}, {}, cutoff) && Quiet(start, start, {}, cutoff)
  {
    assert start - {} == start;
  }

  lemma RanFacts(start: Table, mine0: set<RowId>, theirs0: set<RowId>, ever: Table, mine: set<RowId>,
                 theirs: set<RowId>, gone: set<RowId>, stolen: set<RowId>, cutoff: Time)
    requires Ran(start, mine0, theirs0, ever, mine, theirs, gone, stolen, cutoff)
    ensures mine == mine0 + gone && mine0 !! gone && theirs0 <= theirs && stolen <= theirs - theirs0
    ensures PartOf(start, ever) && AllExpired(gone, ever, cutoff)
  {}

  lemma RanOn(start: Table, mine0: set<RowId>, theirs0: set<RowId>, mine1: set<RowId>, theirs1: set<RowId>,
              ever: Table, mine: set<RowId>, theirs: set<RowId>, gone: set<RowId>, doomed: set<RowId>,
              stolen: set<RowId>, taken: set<RowId>, cutoff: Time)
    requires mine1 == mine0 + gone && mine0 !! gone && theirs0 <= theirs1 <= theirs && stolen <= theirs1 - theirs0
    requires mine == mine1 + doomed && mine1 !! doomed && taken <= theirs - theirs1
    requires PartOf(start, ever) && AllExpired(gone + doomed, ever, cutoff)
    ensures Ran(start, mine0, theirs0, ever, mine, theirs, gone + doomed, stolen + taken, cutoff)
    ensures gone !! doomed && |gone + doomed| == |gone| + |doomed|
    ensures stolen + taken == {} <==> stolen == {} && taken == {}
  {
    hide PartOf, AllExpired;
    GoneAndDoomed(start, mine0, gone, doomed);
    Joined(stolen, taken);
  }

  /** With no other writer, the expired rows left are those of the start that were not deleted. */
  ghost predicate Quiet(start: Table, rows: Table, gone: set<RowId>, cutoff: Time) {
    rows == start - gone && |Expired(rows, cutoff)| == |Expired(start, cutoff)| - |gone|
  }

  lemma QuietFacts(start: Table, rows: Table, gone: set<RowId>, cutoff: Time)
    requires Quiet(start, rows, gone, cutoff)
    ensures rows == start - gone && |gone| <= |Expired(start, cutoff)|
  {}

  lemma QuietOn(start: Table, before: Table, rows: Table, gone: set<RowId>, doomed: set<RowId>,
                cutoff: Time, batchSize: nat)
    requires Quiet(start, before, gone, cutoff) && gone !! doomed && rows == before - doomed
    requires |Expired(rows, cutoff)| == |Expired(before, cutoff)| - |doomed|
    ensures Quiet(start, rows, gone + doomed, cutoff)
    ensures |doomed| == Min(|Expired(before, cutoff)|, batchSize) && |doomed| < batchSize ==>
              |gone| + |doomed| == |Expired(start, cutoff)|
  {
    GoneAndDoomed(start, {}, gone, doomed);
  }

  lemma MinIs(a: nat, b: nat)
    ensures Min(a, b) == if a < b then a else b
  {}

  class LocationPings {
    var rows: Table
    ghost var ever: Table           // every row ever inserted
    ghost var mine: set<RowId>      // rows deleted by this process
    ghost var theirs: set<RowId>    // rows deleted by others
    ghost var faults: nat
    /** No other connection writes to the table. */
    ghost const alone: bool

    ghost predicate Valid() reads this { Accounted(rows, ever, mine, theirs) }

    constructor (ghost alone: bool)
      ensures Valid() && ever == map[] && this.alone == alone
    {
      rows, ever, mine, theirs, faults := map[], map[], {}, {}, 0;
      this.alone := alone;
    }

    /** Others insert rows under new ids and delete rows, whatever their cutoff. */
    method Others()
      requires Valid()
      modifies this
      ensures Valid()
      ensures PartOf(old(ever), ever) && mine == old(mine) && old(theirs) <= theirs && faults == old(faults)
      ensures alone ==> rows == old(rows) && ever == old(ever) && theirs == old(theirs)
    {
    }

    /** _delete_batch in a transaction of its own: rows are picked from those expired, and those still there
        are deleted. Others may have deleted some in between: the count tells how many were left. On an
        error the transaction is rolled back. */
    method DeleteBatch(cutoff: Time, batchSize: nat)
      returns (removed: Option<nat>, ghost picked: set<RowId>, ghost doomed: set<RowId>)
      requires Valid()
      modifies this
      ensures Valid() && PartOf(old(ever), ever) && old(theirs) <= theirs
      ensures removed.Some? <==> faults == old(faults)
      ensures mine == old(mine) + doomed && old(mine) !! doomed && doomed <= Expired(old(rows), cutoff)
      ensures removed.None? ==> doomed == {}
      ensures removed.Some? ==>
                && BatchDone(old(rows), cutoff, batchSize, picked, doomed)
                && removed.value == |doomed| && picked - doomed <= theirs - old(theirs)
      ensures alone ==> theirs == old(theirs) && rows == old(rows) - doomed
    {
      hide Min, Accounted, PartOf, Expired;
      doomed, picked := {}, {};
      var failed;
      failed, faults := Strike(faults);
      if failed { Same(rows, ever); return None, picked, doomed; }
      ExpiredAreRows(rows, cutoff);
      var choice := Pick(Expired(rows, cutoff), batchSize);
      picked := choice;
      Others();
      var broken;
      broken, faults := Strike(faults);
      if broken { Same(old(rows), ever); return None, picked, doomed; }
      var found := choice * rows.Keys;
      doomed := found;
      StillThere(old(rows), old(ever), old(mine), old(theirs), rows, ever, mine, theirs, choice);
      DeletingIsAccounted(rows, ever, mine, theirs, found);
      rows := rows - found;
      mine := mine + found;
      removed := Some(|found|);
    }

    /** One pass, after whatever others did, with `at` the rows when it picked. It ends the loop if and
        only if fewer than a batch were expired then, or others deleted rows it had picked. */
    method Pass(cutoff: Time, batchSize: nat, ghost start: Table, ghost gone: set<RowId>)
      returns (removed: Option<nat>, ghost at: Table, ghost doomed: set<RowId>, ghost stolen: set<RowId>)
      requires Valid() && PartOf(start, ever) && AllExpired(gone, ever, cutoff)
      modifies this
      ensures Valid() && PartOf(start, ever) && AllExpired(gone + doomed, ever, cutoff)
      ensures PartOf(old(ever), ever) && old(theirs) <= theirs
      ensures removed.Some? <==> faults == old(faults)
      ensures mine == old(mine) + doomed && old(mine) !! doomed && stolen <= theirs - old(theirs)
      ensures removed.Some? ==>
                && removed.value == |doomed| <= batchSize
                && (removed.value < batchSize <==> |Expired(at, cutoff)| < batchSize || stolen != {})
                && (|Expired(at, cutoff)| < batchSize ==> Expired(start, cutoff) * rows.Keys == {})
      ensures alone ==> theirs == old(theirs) && rows == old(rows) - doomed && stolen == {} && at == old(rows)
      ensures alone ==> |Expired(rows, cutoff)| == |Expired(old(rows), cutoff)| - |doomed|
      ensures alone && removed.Some? ==> removed.value == Min(|Expired(old(rows), cutoff)|, batchSize)
    {
      hide Expired, PartOf, AllExpired, Accounted, Min;
      ghost var known := ever;
      Others();
      Unfold(cutoff);
      at, stolen := rows, {};
      ghost var ever0, mine0, theirs0, picked := ever, mine, theirs, {};
      removed, picked, doomed := DeleteBatch(cutoff, batchSize);
      History(at, known, start, ever0, ever, gone, doomed, cutoff);
      DeletingExpired(at, cutoff, doomed);
      if removed.Some? {
        stolen := picked - doomed;
        PassCounts(Expired(at, cutoff), picked, doomed, batchSize);
        if |Expired(at, cutoff)| < batchSize {
          assert picked <= doomed + stolen;
          NoneStayed(start, cutoff, at, ever0, mine0, theirs0, rows, ever, mine, theirs);
        }
      }
    }

    /** The loop of purge_expired_pings: None when a pass failed and the error left the function. */
    method Passes(cutoff: Time, batchSize: nat)
      returns (deleted: Option<nat>, ghost gone: set<RowId>, ghost stolen: set<RowId>)
      requires Valid()
      modifies this
      ensures Valid() && mine == old(mine) + gone && old(mine) !! gone && AllExpired(gone, ever, cutoff)
      ensures PartOf(old(ever), ever) && old(theirs) <= theirs
      ensures deleted.Some? <==> faults == old(faults)
      ensures deleted.Some? ==> deleted.value == |gone| <= Allowance(RETENTION_MAX_PASSES, batchSize)
      ensures stolen <= theirs - old(theirs)
      ensures deleted.Some? && deleted.value < Allowance(RETENTION_MAX_PASSES, batchSize) && stolen == {} ==>
                Expired(old(rows), cutoff) * rows.Keys == {}
      ensures alone ==> stolen == {} && theirs == old(theirs) && rows == old(rows) - gone
      ensures alone && deleted.Some? ==>
                deleted.value == Min(|Expired(old(rows), cutoff)|, Allowance(RETENTION_MAX_PASSES, batchSize))
    {
      hide Expired, PartOf, AllExpired, Accounted, Allowance, Ran, Quiet, Min;
      ghost var start := rows;
      var total, pass, done := 0, 0, false;
      gone, stolen := {}, {};
      Unfold(cutoff);
      RanNothing(start, ever, mine, theirs, cutoff);
      OnePassMore(0, batchSize);
      Same(rows, ever);
      while pass < RETENTION_MAX_PASSES && !done
        invariant 0 <= pass <= RETENTION_MAX_PASSES
        invariant Valid() && Ran(start, old(mine), old(theirs), ever, mine, theirs, gone, stolen, cutoff)
        invariant PartOf(old(ever), ever) && old(theirs) <= theirs
        invariant faults == old(faults)
        invariant total == |gone| <= Allowance(pass, batchSize)
        invariant !done ==> total == Allowance(pass, batchSize)
        invariant done ==> stolen != {} || Expired(start, cutoff) * rows.Keys == {}
        invariant alone ==> theirs == old(theirs) && stolen == {} && Quiet(start, rows, gone, cutoff)
        invariant alone && done ==> total == |Expired(start, cutoff)|
        decreases RETENTION_MAX_PASSES - pass
      {
        ghost var taken, at, doomed, was := {}, rows, {}, rows;
        ghost var mine1, theirs1, ever1 := mine, theirs, ever;
        RanFacts(start, old(mine), old(theirs), ever, mine, theirs, gone, stolen, cutoff);
        var removed;
        removed, at, doomed, taken := Pass(cutoff, batchSize, start, gone);
        RanOn(start, old(mine), old(theirs), mine1, theirs1, ever, mine, theirs, gone, doomed, stolen, taken, cutoff);
        if alone { QuietOn(start, was, rows, gone, doomed, cutoff, batchSize); }
        gone, stolen := gone + doomed, stolen + taken;
        RanFacts(start, old(mine), old(theirs), ever, mine, theirs, gone, stolen, cutoff);
        Chain(old(ever), ever1, ever);
        if removed.None? {
          if alone { QuietFacts(start, rows, gone, cutoff); }
          return None, gone, stolen;
        }
        total := total + removed.value;
        if removed.value < batchSize { done := true; }
        OnePassMore(pass, batchSize);
        pass := pass + 1;
      }
      AllowanceGrows(pass, RETENTION_MAX_PASSES, batchSize);
      RanFacts(start, old(mine), old(theirs), ever, mine, theirs, gone, stolen, cutoff);
      if alone { QuietFacts(start, rows, gone, cutoff); }
      MinIs(|Expired(start, cutoff)|, Allowance(RETENTION_MAX_PASSES, batchSize));
      deleted := Some(total);
    }

    /** purge_expired_pings: None when a pass failed and the error left the function. */
    method Purge(cutoff: Time, batchSize: nat)
      returns (deleted: Option<nat>, ghost gone: set<RowId>, ghost stolen: set<RowId>)
      requires Valid()
      modifies this
      // whatever happens, only expired rows go
      ensures Valid() && mine == old(mine) + gone && old(mine) !! gone && AllExpired(gone, ever, cutoff)
      // it fails only by an error; otherwise the total is exact and bounded
      ensures deleted.Some? <==> faults == old(faults)
      ensures deleted.Some? ==> deleted.value == |gone| <= Allowance(RETENTION_MAX_PASSES, batchSize)
      // rows are conserved
      ensures |rows| + |gone| + |theirs - old(theirs)| == |old(rows)| + |ever.Keys - old(ever).Keys|
      // if an expired row of the start stays, all passes were used up, unless others deleted rows under way
      ensures stolen <= theirs - old(theirs)
      ensures deleted.Some? && deleted.value < Allowance(RETENTION_MAX_PASSES, batchSize) && stolen == {} ==>
                Expired(old(rows), cutoff) * rows.Keys == {}
      ensures alone ==> stolen == {} && theirs == old(theirs) && rows == old(rows) - gone
      ensures alone && deleted.Some? ==>
                deleted.value == Min(|Expired(old(rows), cutoff)|, Allowance(RETENTION_MAX_PASSES, batchSize))
    {
      hide Expired, PartOf, AllExpired, Accounted, Allowance, Min;
      deleted, gone, stolen := Passes(cutoff, batchSize);
      NothingIsLost(old(rows), old(ever), old(mine), old(theirs), rows, ever, mine, theirs, gone);
    }

    lemma Unfold(cutoff: Time)
      requires Valid()
      ensures PartOf(rows, ever) && AllExpired({}, ever, cutoff)
    {}
  }

  lemma PassCounts(expired: set<RowId>, picked: set<RowId>, doomed: set<RowId>, batchSize: nat)
    requires doomed <= picked <= expired && |picked| == Min(|expired|, batchSize)
    ensures |doomed| <= batchSize && (|doomed| < batchSize <==> |expired| < batchSize || picked - doomed != {})
    ensures |expired| < batchSize ==> expired <= picked
    ensures picked - doomed == {} ==> |doomed| == |picked|
  {
    SubsetSize(doomed, picked);
    SubsetSize(picked, expired);
    var missed, stolen := expired - picked, picked - doomed;
    assert |missed| == 0 <==> missed == {};
    assert |stolen| == 0 <==> stolen == {};
  }

  lemma Joined(a: set<RowId>, b: set<RowId>)
    ensures a + b == {} <==> a == {} && b == {}
  {
    if a + b == {} { assert a <= a + b && b <= a + b; }
  }

  lemma Chain(a: Table, b: Table, c: Table)
    requires PartOf(a, b) && PartOf(b, c)
    ensures PartOf(a, c)
  {}

  lemma Same(rows: Table, ever: Table)
    ensures PartOf(ever, ever) && rows - {} == rows
  {}

  /** Rows seen before are still there, or others have deleted them. */
  lemma StillThere(at: Table, ever0: Table, mine0: set<RowId>, theirs0: set<RowId>,
                   rows: Table, ever: Table, mine: set<RowId>, theirs: set<RowId>, picked: set<RowId>)
    requires Accounted(at, ever0, mine0, theirs0) && Accounted(rows, ever, mine, theirs)
    requires PartOf(ever0, ever) && mine == mine0 && picked <= at.Keys
    ensures picked - picked * rows.Keys <= theirs - theirs0
  {}

  lemma ExpiredAreRows(rows: Table, cutoff: Time)
    ensures Expired(rows, cutoff) <= rows.Keys
  {}

  lemma History(at: Table, known: Table, start: Table, ever0: Table, ever: Table,
                gone: set<RowId>, doomed: set<RowId>, cutoff: Time)
    requires PartOf(start, known) && PartOf(known, ever0) && PartOf(ever0, ever) && PartOf(at, ever0)
    requires AllExpired(gone, known, cutoff) && doomed <= Expired(at, cutoff)
    ensures PartOf(known, ever)
    ensures PartOf(start, ever) && PartOf(start, ever0) && AllExpired(gone + doomed, ever, cutoff)
  {}
}
