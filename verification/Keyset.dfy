/** Absent or present values, as the repositories' optional columns. */
module Options {
  datatype Option<+T> = None | Some(value: T)
}

/** Offset paging, as the repositories' sorted reads answer it. */
module OffsetPages {
  /** The page `page` of `limit` rows, as the store's sorted read answers it. */
  function PageOf<T>(rows: seq<T>, limit: nat, page: nat): (r: seq<T>)
    requires limit > 0
    ensures |r| <= limit
    ensures |r| < limit ==> page * limit + |r| == |rows| || r == []
  {
    var from := Min(page * limit, |rows|);
    rows[from..Min(from + limit, |rows|)]
  }

  function Min(a: nat, b: nat): nat { if a <= b then a else b }

  /** The pages before a page and the page itself are a prefix; a page that is not full ends the table. */
  lemma PagesJoin<T>(rows: seq<T>, limit: nat, page: nat)
    requires limit > 0 && page * limit <= |rows|
    ensures var from, found := page * limit, PageOf(rows, limit, page);
            && from + |found| <= |rows| && rows[..from] + found == rows[..from + |found|]
            && (|found| < limit ==> from + |found| == |rows|)
                 && (|found| == limit ==> from + limit == (page + 1) * limit)
  {
  }
}

/**
 * Keyset paging: pages ordered by `(at, uid)`, each continuing strictly after the last row of the one
 * before. `at` is the leading sort column (a start date), or one constant where a table is paged by
 * `uid` alone. One run touches finitely many uids, so integers stand for any order on them.
 */
module Keyset {
  import opened Options

  datatype Key = Key(at: int, uid: int)

  predicate Less(a: Key, b: Key) {
    a.at < b.at || (a.at == b.at && a.uid < b.uid)
  }

  predicate After(k: Key, last: Option<Key>) {
    last.None? || Less(last.value, k)
  }

  predicate Sorted(ks: seq<Key>) {
    forall i, j :: 0 <= i < j < |ks| ==> Less(ks[i], ks[j])
  }

  predicate IsLeast(keys: set<Key>, m: Key) {
    m in keys && forall k :: k in keys ==> k == m || Less(m, k)
  }

  lemma LeastExists(keys: set<Key>)
    requires keys != {}
    ensures exists m :: IsLeast(keys, m)
  {
    var k :| k in keys;
    if keys == {k} {
      assert IsLeast(keys, k);
    } else {
      var rest := keys - {k};
      assert keys == rest + {k};
      LeastExists(rest);
      var m :| IsLeast(rest, m);
      assert IsLeast(keys, if Less(k, m) then k else m);
    }
  }

  /** The keys in ascending order: what a sorted read of the whole table answers. */
  function Ascending(keys: set<Key>): (ks: seq<Key>)
    ensures Sorted(ks)
    ensures forall k :: k in ks <==> k in keys
    ensures |ks| == |keys|
  {
    if keys == {} then []
    else
      LeastExists(keys);
      var m :| IsLeast(keys, m);
      [m] + Ascending(keys - {m})
  }

  /** There is one way to list a set in order. */
  lemma {:induction false} SortedUnique(a: seq<Key>, b: seq<Key>)
    requires Sorted(a) && Sorted(b) && forall k :: k in a <==> k in b
    ensures a == b
  {
    assert (a != [] ==> a[0] in b) && (b != [] ==> b[0] in a);
    if a != [] {
      assert a[0] == b[0];
      forall k ensures k in a[1..] <==> k in b[1..] {
        if k in a[1..] { assert k in b; }
        if k in b[1..] { assert k in a; }
      }
      SortedUnique(a[1..], b[1..]);
    }
  }

  /** In a sorted list, what comes at `i` is neither before it nor after it. */
  lemma SortedOnce(ks: seq<Key>, i: nat)
    requires Sorted(ks) && i < |ks|
    ensures ks[i] !in ks[..i] && ks[i] !in ks[i + 1..]
  {
  }

  lemma SubsetSmaller<T>(a: set<T>, b: set<T>)
    requires a <= b
    ensures |a| <= |b|
  {
    assert b == a + (b - a);
  }

  function Above(keys: set<Key>, last: Option<Key>): (above: set<Key>) {
    set k | k in keys && After(k, last)
  }

  /** One page: at most `limit` rows after `last`, in order. */
  function Page(keys: set<Key>, last: Option<Key>, limit: nat): (page: seq<Key>)
    ensures |page| <= limit && Sorted(page)
    ensures forall k :: k in page ==> k in keys && After(k, last)
  {
    var all := Ascending(Above(keys, last));
    if |all| <= limit then all
    else
      assert forall k :: k in all[..limit] ==> k in all;
      all[..limit]
  }

  /** The cursor after a page. */
  function Cursor(page: seq<Key>, last: Option<Key>): (next: Option<Key>) {
    if page == [] then last else Some(page[|page| - 1])
  }

  /** A page leaves out nothing up to its last row, and a page that is not full leaves out nothing at all. */
  lemma PageCovers(keys: set<Key>, last: Option<Key>, limit: nat, k: Key)
    requires k in keys && After(k, last)
    ensures k in Page(keys, last, limit)
            || (|Page(keys, last, limit)| == limit && After(k, Cursor(Page(keys, last, limit), last)))
  {
    var all := Ascending(Above(keys, last));
    assert k in all;
    var i :| 0 <= i < |all| && all[i] == k;
    if limit < |all| && limit <= i && limit > 0 {
      assert Less(all[limit - 1], all[i]);
    } else if i < limit < |all| {
      assert all[..limit][i] == k;
    }
  }

  /** A first page that is large enough holds every row. */
  lemma PageHoldsAll(keys: set<Key>, limit: nat, k: Key)
    requires |keys| <= limit
    ensures k in Page(keys, None, limit) <==> k in keys
  {
    assert Above(keys, None) == keys;
  }

  /** Of more rows than a first page holds, the last in order is not on it. */
  lemma LastLeftOut(keys: set<Key>, limit: nat, k: Key)
    requires k in keys && |keys| > limit && forall j :: j in keys ==> j == k || Less(j, k)
    ensures k !in Page(keys, None, limit)
  {
    assert Above(keys, None) == keys;
    var all := Ascending(keys);
    var last := all[|all| - 1];
    assert last in keys;
    forall j | 0 <= j < limit ensures all[..limit][j] != k { assert Less(all[j], last); }
  }

  /** A full page leaves fewer rows to read. */
  lemma PageAdvances(keys: set<Key>, last: Option<Key>, limit: nat)
    requires limit >= 1 && |Page(keys, last, limit)| == limit
    ensures |Above(keys, Cursor(Page(keys, last, limit), last))| < |Above(keys, last)|
  {
    var page := Page(keys, last, limit);
    var next := Cursor(page, last);
    assert page[limit - 1] in page;
    var more, less := Above(keys, last), Above(keys, next);
    assert next.value in more && next.value !in less && less <= more;
    assert more == less + (more - less);
  }

  /** `k` is in the table at each of the first `n` page reads. */
  ghost predicate Throughout(snapshots: seq<set<Key>>, n: nat, k: Key)
    requires n <= |snapshots|
  {
    forall i :: 0 <= i < n ==> k in snapshots[i]
  }

  /** `k` is in the table at one of the first `n` page reads. */
  ghost predicate Sometime(snapshots: seq<set<Key>>, n: nat, k: Key)
    requires n <= |snapshots|
  {
    exists i :: 0 <= i < n && k in snapshots[i]
  }

  lemma SortedAppend(a: seq<Key>, b: seq<Key>)
    requires Sorted(a) && Sorted(b) && forall k :: k in b ==> After(k, Cursor(a, None))
    ensures Sorted(a + b) && Cursor(a + b, None) == Cursor(b, Cursor(a, None))
  {
    forall i, j | 0 <= i < j < |a + b| ensures Less((a + b)[i], (a + b)[j]) {
      if i < |a| <= j {
        assert b[j - |a|] in b;
      }
    }
  }

  /**
   * Pages through a table that other writers change: `snapshots[i]` is the table as the i-th page read
   * finds it. `complete` when a page came back short; otherwise the pass was cut off. Every row is
   * visited at most once, only rows that were there are visited, and a complete pass misses no row that
   * stayed in the table throughout.
   */
  method KeysetPass(snapshots: seq<set<Key>>, limit: nat)
    returns (visited: seq<Key>, complete: bool, pages: nat)
    requires limit >= 1
    ensures pages <= |snapshots| && (complete || pages == |snapshots|)
    ensures Sorted(visited)
    ensures forall k :: k in visited ==> Sometime(snapshots, pages, k)
    ensures forall k :: complete && Throughout(snapshots, pages, k) ==> k in visited
  {
    visited, complete, pages := [], false, 0;
    var last: Option<Key> := None;
    while pages < |snapshots| && !complete
      invariant pages <= |snapshots|
      invariant Sorted(visited) && Cursor(visited, None) == last
      invariant forall k :: k in visited ==> Sometime(snapshots, pages, k)
      invariant forall k :: Throughout(snapshots, pages, k) ==> k in visited || (!complete && After(k, last))
      decreases |snapshots| - pages, !complete
    {
      var table := snapshots[pages];
      var page := Page(table, last, limit);
      forall k | Throughout(snapshots, pages + 1, k) && k !in visited + page
        ensures |page| == limit && After(k, Cursor(page, last))
      {
        assert Throughout(snapshots, pages, k) && k in table;
        PageCovers(table, last, limit, k);
      }
      SortedAppend(visited, page);
      visited := visited + page;
      last := Cursor(page, last);
      complete := |page| < limit;
      pages := pages + 1;
    }
  }
}
