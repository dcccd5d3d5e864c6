/**
 * One re-encryption pass and the read-only recount, undisturbed by other writers: whatever the cipher
 * cannot read and whatever saves fail, the counts are exactly the envelopes per key as the pass leaves
 * them. Row keys are `(source ordinal, uid)`.
 */
module ReencryptionPass {
  import opened Options
  import opened Keyset
  import opened ConfigEnvelopes

  /** The most rows a stuck pass names. */
  const MAX_FAILED_LISTED := 5

  /** Envelopes per key, as a pass records them: a key it never met has none. */
  type Counts = map<Kid, nat>

  function At(counts: Counts, kid: Kid): (n: nat) { if kid in counts then counts[kid] else 0 }

  function Bump(counts: Counts, kid: Kid, n: nat): (r: Counts)
    ensures forall k :: At(r, k) == At(counts, k) + (if k == kid then n else 0)
  {
    counts[kid := At(counts, kid) + n]
  }

  /** How many of `refs` are sealed under `kid`. */
  function Using(refs: seq<Ref>, kid: Kid): (n: nat) {
    if refs == [] then 0
    else
      var last := |refs| - 1;
      Using(refs[..last], kid) + (if refs[last].envelope.kid == kid then 1 else 0)
  }

  lemma {:induction false} UsedInRow(refs: seq<Ref>, kid: Kid)
    ensures Using(refs, kid) > 0 <==> exists r :: r in refs && r.envelope.kid == kid
  {
    if refs != [] {
      UsedInRow(refs[..|refs| - 1], kid);
      assert refs == refs[..|refs| - 1] + [refs[|refs| - 1]];
    }
  }

  /** How many envelopes of the rows at `ks` are sealed under `kid`. */
  function UsingIn(rows: map<Key, Row>, ks: seq<Key>, kid: Kid): (n: nat)
    requires forall k :: k in ks ==> k in rows
  {
    if ks == [] then 0
    else UsingIn(rows, ks[..|ks| - 1], kid) + Using(Envelopes(rows[ks[|ks| - 1]].credentials), kid)
  }

  lemma {:induction false} UsingFrame(rows: map<Key, Row>, rows': map<Key, Row>, ks: seq<Key>, kid: Kid)
    requires forall k :: k in ks ==> k in rows && k in rows' && rows[k] == rows'[k]
    ensures UsingIn(rows, ks, kid) == UsingIn(rows', ks, kid)
  {
    if ks != [] { UsingFrame(rows, rows', ks[..|ks| - 1], kid); }
  }

  /** A key is counted exactly when some envelope uses it. */
  lemma {:induction false} UsedKeyCounted(rows: map<Key, Row>, ks: seq<Key>, kid: Kid)
    requires forall k :: k in ks ==> k in rows
    ensures UsingIn(rows, ks, kid) > 0
       <==> exists k, r :: k in ks && r in Envelopes(rows[k].credentials) && r.envelope.kid == kid
  {
    if ks != [] {
      UsedKeyCounted(rows, ks[..|ks| - 1], kid);
      assert ks == ks[..|ks| - 1] + [ks[|ks| - 1]];
      UsedInRow(Envelopes(rows[ks[|ks| - 1]].credentials), kid);
    }
  }

  /** How a versioned save of a row ends: written, refused because the row changed, or failed otherwise. */
  datatype Save = Saved | Conflict | Error

  /** The counts of a row half way: `base` before it, the changes so far and the keys they replace. */
  ghost predicate Balanced(refs: seq<Ref>, base: Counts, counts: Counts, m: map<string, Envelope>, replaced: seq<Kid>,
                           target: Kid)
  {
    forall kid :: BalancedAt(refs, base, counts, m, replaced, target, kid)
  }

  ghost predicate BalancedAt(refs: seq<Ref>, base: Counts, counts: Counts, m: map<string, Envelope>,
                             replaced: seq<Kid>, target: Kid, kid: Kid)
  {
    && At(counts, kid) + Occurs(replaced, kid) == At(base, kid) + Using(refs, kid)
    && At(counts, kid) + (if kid == target then |replaced| else 0) == At(base, kid) + Using(Exchanged(refs, m), kid)
  }

  function Occurs(kids: seq<Kid>, kid: Kid): (n: nat) {
    if kids == [] then 0
    else Occurs(kids[..|kids| - 1], kid) + (if kids[|kids| - 1] == kid then 1 else 0)
  }

  lemma UsingAppend(refs: seq<Ref>, r: Ref, kid: Kid)
    ensures Using(refs + [r], kid) == Using(refs, kid) + (if r.envelope.kid == kid then 1 else 0)
  {
    assert (refs + [r])[..|refs|] == refs;
  }

  lemma {:induction false} ExchangedConcat(refs: seq<Ref>, r: Ref, m: map<string, Envelope>)
    ensures Exchanged(refs + [r], m) == Exchanged(refs, m) + [Exchange(r, m)]
  {
    if refs != [] {
      assert (refs + [r])[1..] == refs[1..] + [r];
      ExchangedConcat(refs[1..], r, m);
    }
  }

  lemma {:induction false} ExchangedFrame(refs: seq<Ref>, m: map<string, Envelope>, field: string, e: Envelope)
    requires forall q :: q in refs ==> q.field != field
    ensures Exchanged(refs, m[field := e]) == Exchanged(refs, m)
  {
    if refs != [] {
      assert refs[0] in refs;
      ExchangedFrame(refs[1..], m, field, e);
    }
  }

  lemma ExchangedAppend(refs: seq<Ref>, r: Ref, m: map<string, Envelope>, f: Option<Envelope>)
    requires forall q :: q in refs ==> q.field != r.field
    requires r.field !in m
    ensures f.Some? ==> Exchanged(refs + [r], m[r.field := f.value]) == Exchanged(refs, m) + [r.(envelope := f.value)]
    ensures f.None? ==> Exchanged(refs + [r], m) == Exchanged(refs, m) + [r]
  {
    ExchangedConcat(refs, r, m);
    if f.Some? {
      ExchangedConcat(refs, r, m[r.field := f.value]);
      ExchangedFrame(refs, m, r.field, f.value);
    }
  }

  lemma BalancedKeep(refs: seq<Ref>, base: Counts, counts: Counts, m: map<string, Envelope>, replaced: seq<Kid>,
                     target: Kid, r: Ref)
    requires Balanced(refs, base, counts, m, replaced, target)
    requires r.field !in m && forall q :: q in refs ==> q.field != r.field
    ensures Balanced(refs + [r], base, Bump(counts, r.envelope.kid, 1), m, replaced, target)
  {
    ExchangedAppend(refs, r, m, None);
    forall kid ensures BalancedAt(refs + [r], base, Bump(counts, r.envelope.kid, 1), m, replaced, target, kid) {
      assert BalancedAt(refs, base, counts, m, replaced, target, kid);
      UsingAppend(refs, r, kid);
      UsingAppend(Exchanged(refs, m), r, kid);
    }
  }

  lemma BalancedReplace(refs: seq<Ref>, base: Counts, counts: Counts, m: map<string, Envelope>, replaced: seq<Kid>,
                        target: Kid, r: Ref, e: Envelope)
    requires Balanced(refs, base, counts, m, replaced, target)
    requires r.field !in m && e.kid == target && forall q :: q in refs ==> q.field != r.field
    ensures Balanced(refs + [r], base, counts, m[r.field := e], replaced + [r.envelope.kid], target)
  {
    ExchangedAppend(refs, r, m, Some(e));
    assert (replaced + [r.envelope.kid])[..|replaced|] == replaced;
    var all, m', replaced' := refs + [r], m[r.field := e], replaced + [r.envelope.kid];
    forall kid ensures BalancedAt(all, base, counts, m', replaced', target, kid) {
      assert BalancedAt(refs, base, counts, m, replaced, target, kid);
      UsingAppend(refs, r, kid);
      UsingAppend(Exchanged(refs, m), r.(envelope := e), kid);
    }
  }

  lemma {:induction false} ReplacedFieldsAreListed(refs: seq<Ref>, n: nat, record: int, uid: int, target: Kid,
                                                   cipher: string -> Outcome)
    requires n < |refs| && forall i, j :: 0 <= i < j < |refs| ==> refs[i].field != refs[j].field
    ensures refs[n].field !in Replacements(refs[..n], record, uid, target, cipher)
  {
    if refs[n].field in Replacements(refs[..n], record, uid, target, cipher) {
      ReplacementsAre(refs[..n], record, uid, target, cipher, refs[n].field);
    }
  }

  lemma {:induction false} RefsDistinct(slots: seq<Slot>)
    requires Distinct(slots)
    ensures forall i, j :: 0 <= i < j < |Envelopes(slots)| ==> Envelopes(slots)[i].field != Envelopes(slots)[j].field
  {
    if slots != [] {
      RefsDistinct(slots[1..]);
      var rest := Envelopes(slots[1..]);
      forall r | r in rest ensures r.field != Path(slots[0]) {
        var s := SlotOf(slots[1..], r);
        PathInjective(s, slots[0]);
      }
    }
  }

  ghost predicate WellFormed(rows: map<Key, Row>) {
    forall k :: k in rows ==> Distinct(rows[k].credentials)
  }

  /**
   * The loop over a row's envelopes: those that stay are counted at once, `replaced` are the old keys of
   * the re-sealed ones. Counting `replaced` on top gives the row as it was read, counting the target
   * for each of them gives the row after the save.
   */
  method ResealRefs(refs: seq<Ref>, base: Counts, key: Key, target: Kid, cipher: string -> Outcome)
    returns (counts: Counts, replacements: map<string, Envelope>, replaced: seq<Kid>)
    requires forall i, j :: 0 <= i < j < |refs| ==> refs[i].field != refs[j].field
    ensures replacements == Replacements(refs, key.at, key.uid, target, cipher)
    ensures replaced == [] <==> replacements == map[]
    ensures Balanced(refs, base, counts, replacements, replaced, target)
  {
    counts, replacements, replaced := base, map[], [];
    var i := 0;
    while i < |refs|
      invariant i <= |refs|
      invariant replacements == Replacements(refs[..i], key.at, key.uid, target, cipher)
      invariant replaced == [] <==> replacements == map[]
      invariant Balanced(refs[..i], base, counts, replacements, replaced, target)
    {
      var r := refs[i];
      var f := Fresh(r, key.at, key.uid, target, cipher(r.field));
      ReplacedFieldsAreListed(refs, i, key.at, key.uid, target, cipher);
      assert refs[..i + 1] == refs[..i] + [r];
      if f.Some? {
        BalancedReplace(refs[..i], base, counts, replacements, replaced, target, r, f.value);
        replacements := replacements[r.field := f.value];
        replaced := replaced + [r.envelope.kid];
      } else {
        BalancedKeep(refs[..i], base, counts, replacements, replaced, target, r);
        counts := Bump(counts, r.envelope.kid, 1);
      }
      i := i + 1;
    }
    assert refs[..i] == refs;
  }

  /** Counts each of `kids` once. */
  method CountAll(base: Counts, kids: seq<Kid>) returns (counts: Counts)
    ensures forall kid :: At(counts, kid) == At(base, kid) + Occurs(kids, kid)
  {
    counts := base;
    for i := 0 to |kids|
      invariant forall kid :: At(counts, kid) == At(base, kid) + Occurs(kids[..i], kid)
    {
      assert kids[..i + 1][..i] == kids[..i];
      counts := Bump(counts, kids[i], 1);
    }
    assert kids[..|kids|] == kids;
  }

  /** The tables and the pass over them. */
  class Pass {
    var rows: map<Key, Row>
    /** Envelopes per key as the pass leaves them. */
    var counts: Counts
    var failed: seq<Key>
    /** Whether every change was saved. */
    var complete: bool

    constructor (rows: map<Key, Row>)
      ensures this.rows == rows && counts == map[] && failed == [] && complete
    {
      this.rows, counts, failed, complete := rows, map[], [], true;
    }

    /**
     * Re-encrypts the envelopes of `row`, as it was read, that are not on `target`, in one
     * version-checked update, and counts each of its envelopes once: under the key it has afterwards.
     */
    method ReencryptRow(key: Key, row: Row, target: Kid, cipher: string -> Outcome, save: Save)
      requires Distinct(row.credentials)
      modifies this
      ensures var after := RowAfter(old(rows), key, row, target, cipher, save);
              && (after.Some? ==> rows == old(rows)[key := after.value])
              && (after.None? ==> rows == old(rows))
              && Counted(old(counts), counts, Envelopes((if after.Some? then after.value else row).credentials))
              && complete == (old(complete) && (after.Some? || !Changes(key, row, target, cipher)))
              && failed == if Changes(key, row, target, cipher) && after.None? && save.Error?
                              && |old(failed)| < MAX_FAILED_LISTED
                           then old(failed) + [key] else old(failed)
    {
      var saved;
      rows, counts, saved := SaveRow(rows, counts, key, row, target, cipher, save);
      if Changes(key, row, target, cipher) && !saved {
        complete := false;
        if save.Error? && |failed| < MAX_FAILED_LISTED { failed := failed + [key]; }
      }
    }

    /** The rows of one page, as the page was read. */
    method ReencryptPage(page: seq<Key>, ghost before: map<Key, Row>, ghost visited: seq<Key>, target: Kid,
                         cipher: Key -> string -> Outcome, saves: Key -> Save)
      requires Sorted(visited + page) && forall k :: k in page ==> k in rows
      requires PassedOver(before, visited, target, cipher)
      modifies this
      ensures PassedOver(before, visited + page, target, cipher)
      ensures old(complete) && (forall k :: saves(k).Saved?) ==> complete
    {
      var read := rows;
      ghost var done := visited;
      PageNotVisited(visited, page);
      for i := 0 to |page|
        invariant done == visited + page[..i]
        invariant forall j :: i <= j < |page| ==> page[j] !in done && page[j] in rows && rows[page[j]] == read[page[j]]
        invariant PassedOver(before, done, target, cipher)
        invariant old(complete) && (forall k :: saves(k).Saved?) ==> complete
      {
        ReencryptNext(page[i], read[page[i]], before, done, target, cipher, saves(page[i]));
        done := done + [page[i]];
      }
      assert page[..|page|] == page;
    }

    /** One more row, not visited before. */
    method ReencryptNext(key: Key, row: Row, ghost before: map<Key, Row>, ghost done: seq<Key>, target: Kid,
                         cipher: Key -> string -> Outcome, save: Save)
      requires PassedOver(before, done, target, cipher)
      requires key in rows && rows[key] == row && key !in done
      modifies this
      ensures PassedOver(before, done + [key], target, cipher)
      ensures old(complete) && save.Saved? ==> complete
      ensures forall k :: k in rows && k != key ==> rows[k] == old(rows)[k]
    {
      ghost var rows0, counted := rows, counts;
      RowIsDone(rows, key, row, target, cipher(key), save);
      RowKeepsShape(rows, key, row, target, cipher(key), save);
      ReencryptRow(key, row, target, cipher(key), save);
      CountsAppend(rows0, rows, done, key, counted, counts);
    }

    /** What a pass keeps: no secret changed, the visited rows are counted and, unless a save failed, done. */
    ghost predicate PassedOver(before: map<Key, Row>, visited: seq<Key>, target: Kid, cipher: Key -> string -> Outcome)
      reads this
    {
      && rows.Keys == before.Keys && WellFormed(rows) && CountsAre(rows, visited, counts)
      && (forall k :: k in rows ==> if k in visited then SameSecrets(before[k], rows[k]) else rows[k] == before[k])
      && (complete ==> forall k :: k in visited ==> RowDone(k, rows[k], target, cipher(k)))
    }

    /**
     * One pass over every row of every source, page by page, with no other writer. Whatever cannot be
     * decrypted and whatever saves fail, every envelope is counted exactly once, under the key it has
     * when the pass ends.
     */
    method ReencryptAll(sources: nat, limit: nat, target: Kid, cipher: Key -> string -> Outcome, saves: Key -> Save)
      requires limit >= 1 && WellFormed(rows) && counts == map[]
      requires forall k :: k in rows ==> 0 <= k.at < sources
      modifies this
      ensures rows.Keys == old(rows).Keys && forall k :: k in rows ==> SameSecrets(old(rows)[k], rows[k])
      ensures complete ==> forall k :: k in rows ==> RowDone(k, rows[k], target, cipher(k))
      ensures old(complete) && (forall k :: saves(k).Saved?) ==> complete
      ensures CountsAre(rows, Ascending(rows.Keys), counts)
    {
      ghost var visited: seq<Key> := [];
      for source := 0 to sources
        invariant PassedOver(old(rows), visited, target, cipher)
        invariant old(complete) && (forall k :: saves(k).Saved?) ==> complete
        invariant Sorted(visited) && forall k :: k in visited <==> k in rows && k.at < source
      {
        visited := ReencryptSource(source, limit, old(rows), visited, target, cipher, saves);
      }
      SortedUnique(visited, Ascending(rows.Keys));
    }

    /** The rows of one record type, page by page. */
    method ReencryptSource(source: nat, limit: nat, ghost before: map<Key, Row>, ghost was: seq<Key>, target: Kid,
                           cipher: Key -> string -> Outcome, saves: Key -> Save)
      returns (ghost visited: seq<Key>)
      requires limit >= 1 && PassedOver(before, was, target, cipher)
      requires Sorted(was) && forall k :: k in was <==> k in rows && k.at < source
      modifies this
      ensures PassedOver(before, visited, target, cipher)
      ensures old(complete) && (forall k :: saves(k).Saved?) ==> complete
      ensures Sorted(visited) && forall k :: k in visited <==> k in rows && k.at < source + 1
    {
      visited := was;
      var last: Option<Key> := None;
      var more := true;
      while more
        invariant PassedOver(before, visited, target, cipher)
        invariant old(complete) && (forall k :: saves(k).Saved?) ==> complete
        invariant last.Some? ==> last.value.at == source
        invariant Sorted(visited)
        invariant forall k ::
            k in visited <==> k in rows && (k.at < source || (k.at == source && (!more || !After(k, last))))
        decreases more, |Above(SourceKeys(rows.Keys, source), last)|
      {
        var keys := SourceKeys(rows.Keys, source);
        var page := Page(keys, last, limit);
        PageExtends(keys, visited, last, limit, source);
        ReencryptPage(page, before, visited, target, cipher, saves);
        visited := visited + page;
        more := |page| == limit;
        last := Cursor(page, last);
      }
    }
  }

  /** The read-only recount: every envelope of every row once, page by page. */
  method CountEnvelopes(rows: map<Key, Row>, sources: nat, limit: nat) returns (counts: Counts)
    requires limit >= 1 && forall k :: k in rows ==> 0 <= k.at < sources
    ensures CountsAre(rows, Ascending(rows.Keys), counts)
  {
    counts := map[];
    ghost var visited: seq<Key> := [];
    for source := 0 to sources
      invariant Sorted(visited) && forall k :: k in visited <==> k in rows && k.at < source
      invariant CountsAre(rows, visited, counts)
    {
      var last: Option<Key> := None;
      var more := true;
      while more
        invariant last.Some? ==> last.value.at == source
        invariant Sorted(visited) && CountsAre(rows, visited, counts)
        invariant forall k :: k in visited
                    <==> k in rows && (k.at < source || (k.at == source && (!more || !After(k, last))))
        decreases more, |Above(SourceKeys(rows.Keys, source), last)|
      {
        var keys := SourceKeys(rows.Keys, source);
        var page := Page(keys, last, limit);
        PageExtends(keys, visited, last, limit, source);
        counts := CountPage(rows, page, visited, counts);
        visited := visited + page;
        more := |page| == limit;
        last := Cursor(page, last);
      }
    }
    SortedUnique(visited, Ascending(rows.Keys));
  }

  method CountPage(rows: map<Key, Row>, page: seq<Key>, ghost visited: seq<Key>, base: Counts) returns (counts: Counts)
    requires Sorted(visited + page) && forall k :: k in page ==> k in rows
    requires CountsAre(rows, visited, base)
    ensures CountsAre(rows, visited + page, counts)
  {
    counts := base;
    ghost var all := visited + page;
    assert all[..|visited|] == visited;
    for i := 0 to |page|
      invariant CountsAre(rows, all[..|visited| + i], counts)
    {
      SortedOnce(all, |visited| + i);
      assert all[..|visited| + i + 1] == all[..|visited| + i] + [page[i]];
      var counts' := CountRefs(Envelopes(rows[page[i]].credentials), counts);
      CountsAppend(rows, rows, all[..|visited| + i], page[i], counts, counts');
      counts := counts';
    }
    assert all[..|all|] == all;
  }

  method CountRefs(refs: seq<Ref>, base: Counts) returns (counts: Counts)
    ensures Counted(base, counts, refs)
  {
    counts := base;
    for i := 0 to |refs|
      invariant Counted(base, counts, refs[..i])
    {
      assert refs[..i + 1][..i] == refs[..i];
      counts := Bump(counts, refs[i].envelope.kid, 1);
    }
    assert refs[..|refs|] == refs;
  }

  function SourceKeys(keys: set<Key>, source: nat): (r: set<Key>) { set k | k in keys && k.at == source }

  lemma PageNotVisited(visited: seq<Key>, page: seq<Key>)
    requires Sorted(visited + page)
    ensures forall j :: 0 <= j < |page| ==> page[j] !in visited
    ensures forall i, j :: 0 <= i < j < |page| ==> page[i] != page[j]
  {
    var all := visited + page;
    forall j | 0 <= j < |page| ensures page[j] !in visited {
      SortedOnce(all, |visited| + j);
      assert forall i :: 0 <= i < |visited| ==> visited[i] == all[..|visited| + j][i];
    }
    forall i, j | 0 <= i < j < |page| ensures page[i] != page[j] {
      assert Less(all[|visited| + i], all[|visited| + j]);
    }
  }

  /** Reading the next page keeps the visited rows sorted and leaves behind only rows after the new cursor. */
  lemma PageExtends(keys: set<Key>, visited: seq<Key>, last: Option<Key>, limit: nat, source: nat)
    requires limit >= 1 && Sorted(visited) && forall k :: k in keys ==> k.at == source
    requires forall k :: k in visited ==> k.at < source || (k.at == source && !After(k, last))
    ensures var page, next := Page(keys, last, limit), Cursor(Page(keys, last, limit), last);
            && Sorted(visited + page)
            && (forall k :: k in keys && After(k, last) ==> (k in page <==> |page| < limit || !After(k, next)))
            && (|page| == limit ==> |Above(keys, next)| < |Above(keys, last)|)
  {
    var page, next := Page(keys, last, limit), Cursor(Page(keys, last, limit), last);
    forall i, j | 0 <= i < j < |visited + page| ensures Less((visited + page)[i], (visited + page)[j]) {
      if i < |visited| <= j {
        assert visited[i] in visited && page[j - |visited|] in page;
      }
    }
    forall k | k in keys && After(k, last) ensures k in page <==> |page| < limit || !After(k, next) {
      PageCovers(keys, last, limit, k);
    }
    if |page| == limit { PageAdvances(keys, last, limit); }
  }

  /** `b` holds the same values as `a`: plain ones unchanged, sealed ones bound where they were and sealing the same. */
  ghost predicate SameSecrets(a: Row, b: Row) {
    && |a.credentials| == |b.credentials|
    && forall i :: 0 <= i < |a.credentials| ==> SameSecret(a.credentials[i], b.credentials[i])
  }

  ghost predicate SameSecret(s: Slot, t: Slot) {
    && t.name == s.name
    && (s.value.Plain? ==> t == s)
    && (s.value.Sealed? ==>
          && t.value.Sealed?
          && t.value.envelope.context == s.value.envelope.context
          && t.value.envelope.plaintext == s.value.envelope.plaintext)
  }

  lemma RowKeepsShape(rows: map<Key, Row>, key: Key, row: Row, target: Kid, cipher: string -> Outcome, save: Save)
    requires Distinct(row.credentials)
    ensures var after := RowAfter(rows, key, row, target, cipher, save);
            after.Some? ==> Distinct(after.value.credentials) && SameSecrets(row, after.value)
  {
    var slots := Reencrypted(row.credentials, key.at, key.uid, target, cipher);
    forall i | 0 <= i < |slots| ensures SameSecret(row.credentials[i], slots[i]) {
      ReencryptedExactly(row.credentials, key.at, key.uid, target, cipher, i);
    }
  }

  /** Nothing in `row` is left to re-encrypt: what is not on the target, the cipher could not re-seal. */
  ghost predicate RowDone(key: Key, row: Row, target: Kid, cipher: string -> Outcome) {
    forall r :: r in Envelopes(row.credentials) ==>
      r.envelope.kid == target || !Resealable(r.envelope, Context(key.at, key.uid, r.field), target, cipher(r.field))
  }

  /** A row needs no change exactly when it is done, and is done once it was saved. */
  lemma RowIsDone(rows: map<Key, Row>, key: Key, row: Row, target: Kid, cipher: string -> Outcome, save: Save)
    requires Distinct(row.credentials)
    ensures !Changes(key, row, target, cipher) <==> RowDone(key, row, target, cipher)
    ensures var after := RowAfter(rows, key, row, target, cipher, save);
            after.Some? ==> RowDone(key, after.value, target, cipher)
  {
    var slots := row.credentials;
    var refs := Envelopes(slots);
    var m := Replacements(refs, key.at, key.uid, target, cipher);
    if RowDone(key, row, target, cipher) && m != map[] {
      var field :| field in m;
      ReplacementsAre(refs, key.at, key.uid, target, cipher, field);
    }
    if m == map[] {
      forall r | r in refs ensures Fresh(r, key.at, key.uid, target, cipher(r.field)).None? {
        if Fresh(r, key.at, key.uid, target, cipher(r.field)).Some? {
          FreshIsReplaced(refs, key.at, key.uid, target, cipher, r);
        }
      }
    }
    SavedIsDone(slots, key, target, cipher);
  }

  lemma SavedIsDone(slots: seq<Slot>, key: Key, target: Kid, cipher: string -> Outcome)
    requires Distinct(slots)
    ensures RowDone(key, Row(0, Reencrypted(slots, key.at, key.uid, target, cipher)), target, cipher)
  {
    var slots' := Reencrypted(slots, key.at, key.uid, target, cipher);
    forall r | r in Envelopes(slots')
      ensures r.envelope.kid == target
                || !Resealable(r.envelope, Context(key.at, key.uid, r.field), target, cipher(r.field))
    {
      var t := SlotOf(slots', r);
      var i :| 0 <= i < |slots'| && slots'[i] == t;
      ReencryptedExactly(slots, key.at, key.uid, target, cipher, i);
    }
  }

  /** `counts` is the number of envelopes per key over the rows at `ks`. */
  ghost predicate CountsAre(rows: map<Key, Row>, ks: seq<Key>, counts: Counts) {
    && (forall k :: k in ks ==> k in rows)
    && forall kid :: At(counts, kid) == UsingIn(rows, ks, kid)
  }

  /** One more row counted, the others as they were. */
  lemma CountsAppend(rows: map<Key, Row>, rows': map<Key, Row>, ks: seq<Key>, k: Key, counts: Counts, counts': Counts)
    requires CountsAre(rows, ks, counts) && k !in ks && k in rows'
    requires forall j :: j in rows && j != k ==> j in rows' && rows'[j] == rows[j]
    requires Counted(counts, counts', Envelopes(rows'[k].credentials))
    ensures CountsAre(rows', ks + [k], counts')
  {
    assert (ks + [k])[..|ks|] == ks;
    forall kid ensures At(counts', kid) == UsingIn(rows', ks + [k], kid) {
      UsingFrame(rows, rows', ks, kid);
    }
  }

  /** The update itself and what it adds to the counts; `saved` when a row was written. */
  method SaveRow(rows: map<Key, Row>, counts: Counts, key: Key, row: Row, target: Kid, cipher: string -> Outcome,
                 save: Save)
    returns (rows': map<Key, Row>, counts': Counts, saved: bool)
    requires Distinct(row.credentials)
    ensures var after := RowAfter(rows, key, row, target, cipher, save);
            && saved == after.Some?
            && rows' == (if saved then rows[key := after.value] else rows)
            && Counted(counts, counts', Envelopes((if saved then after.value else row).credentials))
  {
    var refs := Envelopes(row.credentials);
    RefsDistinct(row.credentials);
    ReencryptedKids(row.credentials, key, target, cipher);
    var counted, replacements, replaced := ResealRefs(refs, counts, key, target, cipher);
    rows', saved := rows, false;
    counts' := CountAll(counted, replaced);
    Settled(refs, counts, counted, replacements, replaced, target, counts');
    if replaced != [] && key in rows && rows[key].version == row.version && save.Saved? {
      var credentials := Replace(row.credentials, replacements);
      var row' := Row(row.version + 1, credentials);
      assert RowAfter(rows, key, row, target, cipher, save) == Some(row');
      rows', saved := rows[key := row'], true;
      counts' := Bump(counted, target, |replaced|);
    }
  }

  /** The two ways a row's counts end: its envelopes as they were read, or as the save left them. */
  lemma Settled(refs: seq<Ref>, base: Counts, counts: Counts, m: map<string, Envelope>, replaced: seq<Kid>,
                target: Kid, all: Counts)
    requires Balanced(refs, base, counts, m, replaced, target)
    requires forall kid :: At(all, kid) == At(counts, kid) + Occurs(replaced, kid)
    ensures Counted(base, Bump(counts, target, |replaced|), Exchanged(refs, m))
    ensures Counted(base, all, refs)
  {
    var moved := Bump(counts, target, |replaced|);
    forall kid
      ensures At(moved, kid) == At(base, kid) + Using(Exchanged(refs, m), kid)
      ensures At(all, kid) == At(base, kid) + Using(refs, kid)
    {
      assert BalancedAt(refs, base, counts, m, replaced, target, kid);
    }
  }

  /** `counts'` is `counts` with each of `refs` counted once. */
  ghost predicate Counted(counts: Counts, counts': Counts, refs: seq<Ref>) {
    forall kid :: At(counts', kid) == At(counts, kid) + Using(refs, kid)
  }

  /** Whether re-encrypting `row` changes anything. */
  predicate Changes(key: Key, row: Row, target: Kid, cipher: string -> Outcome) {
    Replacements(Envelopes(row.credentials), key.at, key.uid, target, cipher) != map[]
  }

  /** The row a re-encryption of `row` (as read) leaves in the table, if it writes one. */
  function RowAfter(rows: map<Key, Row>, key: Key, row: Row, target: Kid, cipher: string -> Outcome, save: Save)
    : (r: Option<Row>)
  {
    if Changes(key, row, target, cipher) && key in rows && rows[key].version == row.version && save.Saved?
    then Some(Row(row.version + 1, Reencrypted(row.credentials, key.at, key.uid, target, cipher))) else None
  }

  lemma ReencryptedKids(slots: seq<Slot>, key: Key, target: Kid, cipher: string -> Outcome)
    requires Distinct(slots)
    ensures var m := Replacements(Envelopes(slots), key.at, key.uid, target, cipher);
            Envelopes(Replaced(slots, m)) == Exchanged(Envelopes(slots), m)
  {
    var m := Replacements(Envelopes(slots), key.at, key.uid, target, cipher);
    forall s | s in slots && s.value.Plain? ensures Path(s) !in m {
      PlainNotReplaced(slots, key.at, key.uid, target, cipher, s);
    }
    ReadsBackReplaced(slots, m);
  }
}
