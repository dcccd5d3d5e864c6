/**
 * Which entries a run of the ingest queue works on: four bounded queries, each oldest first, merged,
 * sorted by creation and cut to the batch. Keys are `(dateCreated, uid)`.
 */
module IngestDue {
  import opened Options
  import opened Keyset
  import opened IngestLease
  import opened StableSort

  /** The entries the queries look for, one after the other; each may find the table changed since the last. */
  predicate Matches(config: Config, e: Entry, now: int, query: nat) {
    match query
    case 0 => e.status == Pending
    case 1 => e.status == Failed && e.nextAttemptAt.Some? && e.nextAttemptAt.value <= now
    case 2 => e.status == Scanning && e.leaseExpiresAt.Some? && e.leaseExpiresAt.value < now
    case 3 => e.status == Scanning && e.leaseExpiresAt.None? && e.dateModified < now - config.leaseMs
    case _ => false
  }

  /** An entry is due exactly when one of the four queries finds it, and only one does. */
  lemma DueIsFound(config: Config, e: Entry, now: int)
    ensures Due(config, e, now) <==> exists query: nat :: query < 4 && Matches(config, e, now, query)
    ensures forall i: nat, j: nat :: Matches(config, e, now, i) && Matches(config, e, now, j) ==> i == j
  {
    if Due(config, e, now) {
      assert Matches(config, e, now, 0) || Matches(config, e, now, 1) || Matches(config, e, now, 2)
          || Matches(config, e, now, 3);
    }
  }

  function Found(config: Config, table: map<Key, Entry>, now: int, query: nat): (keys: set<Key>) {
    set k | k in table && Matches(config, table[k], now, query)
  }

  /** What the first `n` queries match in the tables they read. */
  function FoundBy(config: Config, tables: seq<map<Key, Entry>>, now: int, n: nat): (keys: set<Key>)
    requires n <= |tables|
  {
    if n == 0 then {} else FoundBy(config, tables, now, n - 1) + Found(config, tables[n - 1], now, n - 1)
  }

  function CreatedAt(k: Key): int { k.at }

  predicate ByCreation(ks: seq<Key>) { forall i, j :: 0 <= i < j < |ks| ==> ks[i].at <= ks[j].at }

  function SortByCreation(ks: seq<Key>): (r: seq<Key>)
    ensures ByCreation(r) && |r| == |ks| && forall k :: k in r <==> k in ks
    ensures NoRepeats(ks) ==> NoRepeats(r)
  {
    var r := Sort(ks, CreatedAt);
    assert forall i :: 0 <= i < |r| ==> CreatedAt(r[i]) == r[i].at;
    r
  }

  /** The rows of one query's page that no earlier query returned, in order. */
  method AddUnseen(page: seq<Key>, due: seq<Key>) returns (due': seq<Key>)
    requires NoRepeats(due)
    ensures NoRepeats(due') && forall k :: k in due' <==> k in due || k in page
  {
    due' := due;
    for i := 0 to |page|
      invariant NoRepeats(due') && forall k :: k in due' <==> k in due || k in page[..i]
    {
      if page[i] !in due' { due' := due' + [page[i]]; }
    }
    assert page[..|page|] == page;
  }

  /** What the merge of the pages keeps: everything matched is collected, or a whole batch no newer than it is. */
  ghost predicate Collected(due: seq<Key>, matched: set<Key>, batchSize: nat) {
    && NoRepeats(due) && (forall k :: k in due ==> k in matched)
    && forall k :: k in matched ==> k in due || BatchBefore(due, k, batchSize)
  }

  ghost predicate BatchBefore(due: seq<Key>, k: Key, batchSize: nat) {
    exists page: seq<Key> :: |page| == batchSize && NoRepeats(page) && forall x :: x in page ==>
      x in due && x.at <= k.at
  }

  lemma BatchStays(due: seq<Key>, due': seq<Key>, k: Key, batchSize: nat)
    requires BatchBefore(due, k, batchSize) && forall x :: x in due ==> x in due'
    ensures BatchBefore(due', k, batchSize)
  {
    var page :| |page| == batchSize && NoRepeats(page) && forall x :: x in page ==> x in due && x.at <= k.at;
    assert forall x :: x in page ==> x in due';
  }

  lemma PageIsBatch(keys: set<Key>, batchSize: nat, k: Key)
    requires k in keys && k !in Page(keys, None, batchSize)
    ensures BatchBefore(Page(keys, None, batchSize), k, batchSize)
  {
    var page := Page(keys, None, batchSize);
    PageCovers(keys, None, batchSize, k);
    assert |page| == batchSize && NoRepeats(page);
    forall x | x in page ensures x.at <= k.at {
      var i :| 0 <= i < |page| && page[i] == x;
      if i < |page| - 1 { assert Less(page[i], page[|page| - 1]); }
    }
  }

  lemma CollectsPage(due: seq<Key>, matched: set<Key>, keys: set<Key>, due': seq<Key>, batchSize: nat)
    requires Collected(due, matched, batchSize) && NoRepeats(due')
    requires forall k :: k in due' <==> k in due || k in Page(keys, None, batchSize)
    ensures Collected(due', matched + keys, batchSize)
  {
    var page := Page(keys, None, batchSize);
    forall k | k in matched + keys ensures k in due' || BatchBefore(due', k, batchSize) {
      if k in matched {
        if k !in due { BatchStays(due, due', k, batchSize); }
      } else if k !in page {
        PageIsBatch(keys, batchSize, k);
        BatchStays(page, due', k, batchSize);
      }
    }
  }

  /** Fewer than `|page|` keys can hold all of `page`: some key of it comes at `|page| - 1` or later. */
  lemma SomeoneLate(ks: seq<Key>, page: seq<Key>, n: nat) returns (i: nat)
    requires NoRepeats(page) && |page| > n && n <= |ks| && forall x :: x in page ==> x in ks
    ensures n <= i < |ks| && ks[i] in page
  {
    if forall x :: x in page ==> x in ks[..n] {
      var all, few := set x | x in page, set x | x in ks[..n];
      CountDistinct(page);
      CountAtMost(ks[..n]);
      assert all <= few;
      SubsetSmaller(all, few);
      assert false;
    }
    var x :| x in page && x !in ks[..n];
    assert ks == ks[..n] + ks[n..];
    var j :| 0 <= j < |ks[n..]| && ks[n..][j] == x;
    i := n + j;
  }

  lemma {:induction false} CountDistinct(ks: seq<Key>)
    requires NoRepeats(ks)
    ensures |set x | x in ks| == |ks|
  {
    if ks != [] {
      var n := |ks| - 1;
      CountDistinct(ks[..n]);
      assert (set x | x in ks) == (set x | x in ks[..n]) + {ks[n]};
    }
  }

  lemma {:induction false} CountAtMost(ks: seq<Key>)
    ensures |set x | x in ks| <= |ks|
  {
    if ks != [] {
      var n := |ks| - 1;
      CountAtMost(ks[..n]);
      assert (set x | x in ks) == (set x | x in ks[..n]) + {ks[n]};
    }
  }

  /** A key the sorted list goes on to, or that a whole batch of it precedes, is no older than the batch. */
  lemma LeftOutIsNewer(all: seq<Key>, k: Key, batchSize: nat, i: nat)
    requires ByCreation(all) && i < batchSize && i < |all|
    requires k in all[i..] || BatchBefore(all, k, batchSize)
    ensures all[i].at <= k.at
  {
    if k in all[i..] {
      var j :| 0 <= j < |all[i..]| && all[i..][j] == k;
      assert all[i].at <= all[i + j].at;
    } else {
      var page :| |page| == batchSize && NoRepeats(page) && forall y :: y in page ==> y in all && y.at <= k.at;
      var j := SomeoneLate(all, page, i);
      assert all[i].at <= all[j].at;
    }
  }

  /** Cutting the sorted list to the batch keeps the oldest. */
  lemma CutKeepsOldest(due: seq<Key>, matched: set<Key>, batchSize: nat)
    requires Collected(due, matched, batchSize)
    ensures Oldest(Cut(SortByCreation(due), batchSize), matched, batchSize)
  {
    var all := SortByCreation(due);
    var batch := Cut(all, batchSize);
    forall k | k in matched && k !in batch ensures LeftOut(batch, k, batchSize) {
      if k !in due { BatchStays(due, all, k, batchSize); CountBatch(all, k, batchSize); }
      forall i | 0 <= i < |batch| ensures batch[i].at <= k.at {
        if k in all { assert all == all[..|batch|] + all[|batch|..] && all[i..] == all[i..|batch|] + all[|batch|..]; }
        LeftOutIsNewer(all, k, batchSize, i);
      }
    }
  }

  lemma CountBatch(all: seq<Key>, k: Key, batchSize: nat)
    requires BatchBefore(all, k, batchSize)
    ensures |all| >= batchSize
  {
    var page :| |page| == batchSize && NoRepeats(page) && forall y :: y in page ==> y in all && y.at <= k.at;
    CountDistinctIn(page, all);
  }

  lemma CountDistinctIn(page: seq<Key>, ks: seq<Key>)
    requires NoRepeats(page) && forall x :: x in page ==> x in ks
    ensures |page| <= |ks|
  {
    CountDistinct(page);
    CountAtMost(ks);
    SubsetSmaller(set x | x in page, set x | x in ks);
  }

  function Cut(ks: seq<Key>, n: nat): (r: seq<Key>) { if |ks| <= n then ks else ks[..n] }

  /**
   * `batch` are the oldest of `keys`, at most `batchSize`, none twice; what is left out is no older and
   * leaves the batch full.
   */
  ghost predicate Oldest(batch: seq<Key>, keys: set<Key>, batchSize: nat) {
    && |batch| <= batchSize && NoRepeats(batch) && ByCreation(batch)
    && (forall k :: k in batch ==> k in keys)
    && (forall k :: k in keys && k !in batch ==> LeftOut(batch, k, batchSize))
  }

  ghost predicate LeftOut(batch: seq<Key>, k: Key, batchSize: nat) {
    |batch| == batchSize && forall i :: 0 <= i < |batch| ==> batch[i].at <= k.at
  }

  /** The due entries, oldest first. `tables[i]` is the table as the i-th query reads it. */
  method FindDueEntries(config: Config, tables: seq<map<Key, Entry>>, now: int, batchSize: nat)
    returns (batch: seq<Key>)
    requires |tables| == 4
    ensures Oldest(batch, FoundBy(config, tables, now, 4), batchSize)
  {
    var due: seq<Key> := [];
    for query := 0 to 4
      invariant Collected(due, FoundBy(config, tables, now, query), batchSize)
    {
      var found := Found(config, tables[query], now, query);
      var page := Page(found, None, batchSize);
      ghost var before := due;
      due := AddUnseen(page, due);
      CollectsPage(before, FoundBy(config, tables, now, query), found, due, batchSize);
    }
    CutKeepsOldest(due, FoundBy(config, tables, now, 4), batchSize);
    batch := Cut(SortByCreation(due), batchSize);
  }
}
