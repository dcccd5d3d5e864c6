/**
 * The offset-paged purge of the quarantine retention job: it deletes from the very list it pages
 * over, and rows that fail to purge keep their place. `outcome(i)` says whether the i-th purge
 * attempted in a call succeeds; it is any function at all.
 */
module QuarantinePurge {
  import opened OffsetPages
  import opened StableSort

  /** How many of the first `n` purge attempts succeed. */
  function Successes(outcome: nat -> bool, n: nat): (count: nat)
    ensures count <= n
  {
    if n == 0 then 0 else Successes(outcome, n - 1) + (if outcome(n - 1) then 1 else 0)
  }

  lemma {:induction false} MoreAttemptsMoreSuccesses(outcome: nat -> bool, n: nat, m: nat)
    requires n <= m
    ensures Successes(outcome, n) <= Successes(outcome, m)
    decreases m
  {
    if n < m { MoreAttemptsMoreSuccesses(outcome, n, m - 1); }
  }

  /** The first `n` of `rows` whose purge attempt fails, in order; row `i` is attempted as number `i`. */
  function Failed<T>(rows: seq<T>, outcome: nat -> bool, n: nat): (failed: seq<T>)
    requires n <= |rows|
    ensures |failed| + Successes(outcome, n) == n
  {
    if n == 0 then [] else Failed(rows, outcome, n - 1) + (if outcome(n - 1) then [] else [rows[n - 1]])
  }

  /**
   * Reading the page that holds position `skipped` and dropping what comes before it continues exactly at
   * `skipped`.
   */
  lemma PageFromSkipped<T>(rows: seq<T>, limit: nat, skipped: nat)
    requires limit > 0 && skipped <= |rows|
    ensures skipped % limit <= |PageOf(rows, limit, skipped / limit)|
    ensures var page := PageOf(rows, limit, skipped / limit);
            var rest := page[skipped % limit..];
            && skipped + |rest| <= |rows|
            && rest == rows[skipped..skipped + |rest|]
            && (rest == [] ==> skipped == |rows|)
            && (|page| < limit ==> skipped + |rest| == |rows|)
  {
    var base := (skipped / limit) * limit;
    assert base + skipped % limit == skipped;
    var page := PageOf(rows, limit, skipped / limit);
    assert page == rows[base..Min(base + limit, |rows|)];
  }

  /** The list with `row` deleted from it, wherever it stands. */
  function Without<T(==)>(rows: seq<T>, row: T): (r: seq<T>) {
    if rows == [] then []
    else if rows[0] == row then Without(rows[1..], row)
    else [rows[0]] + Without(rows[1..], row)
  }

  lemma {:induction false} WithoutAppend<T>(a: seq<T>, b: seq<T>, row: T)
    ensures Without(a + b, row) == Without(a, row) + Without(b, row)
  {
    if a == [] {
      assert a + b == b;
    } else {
      assert (a + b)[1..] == a[1..] + b;
      WithoutAppend(a[1..], b, row);
    }
  }

  lemma {:induction false} WithoutAbsent<T>(a: seq<T>, row: T)
    requires row !in a
    ensures Without(a, row) == a
  {
    if a != [] { WithoutAbsent(a[1..], row); }
  }

  /** The list as attempts on the first `n` of its rows leave it: each goes or stays where it is. */
  function Left<T(==)>(all: seq<T>, outcome: nat -> bool, n: nat): (left: seq<T>)
    requires n <= |all|
  {
    if n == 0 then all
    else
      var before := Left(all, outcome, n - 1);
      if outcome(n - 1) then Without(before, all[n - 1]) else before
  }

  lemma {:induction false} FailedAreVisited<T>(all: seq<T>, outcome: nat -> bool, n: nat, row: T)
    requires n <= |all| && row in Failed(all, outcome, n)
    ensures exists i :: 0 <= i < n && all[i] == row
  {
    if row !in Failed(all, outcome, n - 1) { assert all[n - 1] == row; }
    else { FailedAreVisited(all, outcome, n - 1, row); }
  }

  /** That list is the failed rows, then everything not visited. */
  lemma {:induction false} LeftIs<T>(all: seq<T>, outcome: nat -> bool, n: nat)
    requires n <= |all| && NoRepeats(all)
    ensures Left(all, outcome, n) == Failed(all, outcome, n) + all[n..]
  {
    if n > 0 {
      LeftIs(all, outcome, n - 1);
      var failed, row, tail := Failed(all, outcome, n - 1), all[n - 1], all[n..];
      assert all[n - 1..] == [row] + tail;
      if outcome(n - 1) {
        if row in failed { FailedAreVisited(all, outcome, n - 1, row); }
        assert row !in tail;
        WithoutAbsent(failed, row);
        WithoutAbsent(tail, row);
        WithoutAppend(failed, [row] + tail, row);
        assert Without([row] + tail, row) == tail by { assert ([row] + tail)[1..] == tail; }
      } else {
        assert failed + ([row] + tail) == (failed + [row]) + tail;
      }
    }
  }

  /** What a page read past the failed rows holds: the next unvisited rows, in order. */
  lemma PageIsNext<T>(all: seq<T>, outcome: nat -> bool, n: nat, count: nat)
    requires n <= |all| && NoRepeats(all)
    ensures var left, skipped := Left(all, outcome, n), n - Successes(outcome, n);
            && |left| == skipped + (|all| - n)
            && (n + count <= |all| ==> left[skipped..skipped + count] == all[n..n + count])
  {
    LeftIs(all, outcome, n);
    var failed := Failed(all, outcome, n);
    if n + count <= |all| {
      assert (failed + all[n..])[|failed|..|failed| + count] == all[n..][..count];
    }
  }

  function Tried<T>(before: seq<T>, all: seq<T>, n: nat): (attempted: seq<T>)
    requires n <= |all|
  {
    if n == 0 then before else Tried(before, all, n - 1) + [all[n - 1]]
  }

  lemma {:induction false} TriedIs<T>(before: seq<T>, all: seq<T>, n: nat)
    requires n <= |all|
    ensures Tried(before, all, n) == before + all[..n]
  {
    if n > 0 {
      TriedIs(before, all, n - 1);
      assert all[..n] == all[..n - 1] + [all[n - 1]];
    }
  }

  /** Rows ordered by `(dateField, uid)`, and the purge attempts made on them in order. */
  class Table<T(==)> {
    var rows: seq<T>
    var attempted: seq<T>

    constructor (rows: seq<T>)
      ensures this.rows == rows && attempted == []
    {
      this.rows := rows;
      attempted := [];
    }

    /** Reads the page holding position `skipped`, without what comes before it; `last` when the page is not full. */
    method ReadPast(skipped: nat, pageSize: nat) returns (rest: seq<T>, last: bool)
      requires pageSize > 0 && skipped <= |rows|
      ensures skipped + |rest| <= |rows| && rest == rows[skipped..skipped + |rest|]
      ensures rest == [] || last ==> skipped + |rest| == |rows|
    {
      var found := PageOf(rows, pageSize, skipped / pageSize);
      PageFromSkipped(rows, pageSize, skipped);
      rest, last := found[skipped % pageSize..], |found| < pageSize;
    }

    /** Tries `row`, by its identity: gone on success, in its place on failure. */
    method Purge(row: T, success: bool)
      modifies this
      ensures attempted == old(attempted) + [row] && rows == if success then Without(old(rows), row) else old(rows)
    {
      attempted := attempted + [row];
      if success { rows := Without(rows, row); }
    }

    /** The inner loop: tries the rows of a page as it was read, stopping early once `batchSize` are purged. */
    method PurgePage(page: seq<T>, ghost all: seq<T>, ghost before: seq<T>, outcome: nat -> bool, ghost visited: nat,
                     purged: nat, skipped: nat, batchSize: int)
      returns (purged': nat, skipped': nat, ghost visited': nat)
      requires visited + |page| <= |all| && page == all[visited..visited + |page|]
      requires Visited(all, before, outcome, visited, purged, skipped) && purged < batchSize
      modifies this
      ensures visited <= visited' <= visited + |page| && (visited' == visited + |page| || purged' >= batchSize)
      ensures page != [] ==> visited' > visited
      ensures Visited(all, before, outcome, visited', purged', skipped')
      ensures visited' > visited ==> Successes(outcome, visited' - 1) < batchSize
    {
      purged', skipped', visited' := purged, skipped, visited;
      for i := 0 to |page|
        invariant visited' == visited + i
        invariant i == 0 ==> purged' < batchSize
        invariant Visited(all, before, outcome, visited', purged', skipped')
        invariant i > 0 ==> Successes(outcome, visited' - 1) < batchSize
      {
        if purged' >= batchSize { break; }
        var success := outcome(purged' + skipped');
        Purge(page[i], success);
        if success { purged' := purged' + 1; } else { skipped' := skipped' + 1; }
        visited' := visited' + 1;
      }
    }

    /**
     * Purges up to `batchSize` rows, oldest first. `visited` rows of the initial list were tried, each
     * once and in order: the shortest prefix with `batchSize` successes, or the whole list. What is left
     * is the failed rows of that prefix, then everything not visited.
     */
    method PurgeSorted(batchSize: int, outcome: nat -> bool) returns (purged: nat, ghost visited: nat)
      requires NoRepeats(rows)
      modifies this
      ensures visited <= |old(rows)|
      ensures attempted == old(attempted) + old(rows)[..visited]
      ensures rows == Failed(old(rows), outcome, visited) + old(rows)[visited..]
      ensures purged == Successes(outcome, visited)
      ensures visited == |old(rows)| || purged >= batchSize
      ensures forall shorter: nat :: shorter < visited ==> Successes(outcome, shorter) < batchSize
    {
      var pageSize: nat := if batchSize < 1 then 1 else if batchSize > 1000 then 1000 else batchSize;
      ghost var all := rows;
      var skipped: nat := 0;
      purged, visited := 0, 0;
      while purged < batchSize
        invariant visited <= |all|
        invariant Visited(all, old(attempted), outcome, visited, purged, skipped)
        invariant visited > 0 ==> Successes(outcome, visited - 1) < batchSize
        decreases |all| - visited
      {
        PageIsNext(all, outcome, visited, 0);
        var rest, last := ReadPast(skipped, pageSize);
        if rest == [] { break; }
        PageIsNext(all, outcome, visited, |rest|);
        purged, skipped, visited := PurgePage(rest, all, old(attempted), outcome, visited, purged, skipped, batchSize);
        if last { break; }
      }
      LeftIs(all, outcome, visited);
      TriedIs(old(attempted), all, visited);
      forall shorter: nat | shorter < visited ensures Successes(outcome, shorter) < batchSize {
        MoreAttemptsMoreSuccesses(outcome, shorter, visited - 1);
      }
    }

    /** What the loop keeps after `visited` attempts. */
    ghost predicate Visited(all: seq<T>, before: seq<T>, outcome: nat -> bool, visited: nat, purged: nat, skipped: nat)
      reads this
      requires visited <= |all|
    {
      && rows == Left(all, outcome, visited) && attempted == Tried(before, all, visited)
      && purged == Successes(outcome, visited) && skipped == visited - purged
    }
  }
}
