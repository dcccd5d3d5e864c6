/**
 * A rotation nothing disturbs, from rest to done: it seals everything that can be under the new key and leaves
 * no other key in the ring but those that something still needs.
 */
module KeyRotationCompletes {
  import opened Options
  import opened Keyset
  import opened ConfigEnvelopes
  import opened ReencryptionPass
  import opened KeyRotation
  import opened KeyRotationSafety
  import opened KeyRotationTheorems

  ghost predicate Uses(row: Row, kid: Kid) {
    exists e :: e in Envelopes(row.credentials) && e.envelope.kid == kid
  }

  /** Some stored envelope is sealed under `kid`. */
  ghost predicate InUse(rows: map<Key, Row>, kid: Kid) {
    exists k :: k in rows && Uses(rows[k], kid)
  }

  lemma CountedIffUsed(counts: Counts, row: Row, kid: Kid)
    ensures var counts' := CountInto(counts, Envelopes(row.credentials));
            At(counts', kid) >= At(counts, kid) && (At(counts', kid) > 0 <==> At(counts, kid) > 0 || Uses(row, kid))
  {
    UsedInRow(Envelopes(row.credentials), kid);
  }

  // ---- the pass ----

  function TodoKeys(todo: seq<Read>): (keys: set<Key>) { set i | 0 <= i < |todo| :: todo[i].key }

  /** Rows the pass is through with. */
  predicate Visited(w: World, k: Key)
    requires w.job.Passing?
  {
    k in w.rows && Passed(k, w.job.source, w.job.last) && k !in TodoKeys(w.job.todo)
  }

  /** The rows of the page under way are as they were read, each once. */
  predicate TodoOk(w: World)
    requires w.job.Passing?
  {
    && (forall i :: 0 <= i < |w.job.todo| ==>
          && w.job.todo[i].key in w.rows && w.rows[w.job.todo[i].key] == w.job.todo[i].row
          && Passed(w.job.todo[i].key, w.job.source, w.job.last))
    && (forall i, j :: 0 <= i < j < |w.job.todo| ==> w.job.todo[i].key != w.job.todo[j].key)
  }

  /** A key is counted exactly when a visited row uses it. */
  ghost predicate CountsVisited(w: World, kid: Kid)
    requires w.job.Passing?
  {
    At(w.job.counts, kid) > 0 <==> exists k :: Visited(w, k) && Uses(w.rows[k], kid)
  }

  ghost predicate Undisturbed(w: World, cipher: Key -> string -> Outcome) {
    && RowsOk(w) && w.job.Passing? && w.job.complete && (w.job.last.Some? ==> w.job.last.value.at == w.job.source)
    && TodoOk(w)
    && (forall k :: Visited(w, k) ==> RowDone(k, w.rows[k], w.job.target, cipher(k)))
    && (forall kid :: CountsVisited(w, kid))
  }

  /** Only rows and the place of the pass change. */
  predicate SameStep(w: World, w': World) {
    && w'.config == w.config && w'.ring == w.ring && w'.state == w.state && w'.added == w.added
    && w'.rows.Keys == w.rows.Keys && w.job.Passing? && w'.job.Passing?
    && w'.job.st == w.job.st && w'.job.target == w.job.target
  }

  lemma VisitedStays(w: World, k: Key)
    requires w.job.Passing? && w.config.limit >= 1 && w.job.todo == [] && w.job.source < w.config.sources
    requires w.job.last.Some? ==> w.job.last.value.at == w.job.source
    ensures Visited(ApplyPassPage(w), k) <==> Visited(w, k)
  {
    var w', page := ApplyPassPage(w), NextPage(w, w.job.source, w.job.last);
    TodoIsPage(w.rows, page, k);
    if k in w.rows && Passed(k, w'.job.source, w'.job.last) { PassedIsRead(w, w.job.source, w.job.last, k); }
    if page != [] { assert page[|page| - 1] in page; }
  }

  lemma TodoIsPage(rows: map<Key, Row>, page: seq<Key>, k: Key)
    requires forall j :: j in page ==> j in rows
    ensures k in TodoKeys(ReadsOf(rows, page)) <==> k in page
  {
    var todo := ReadsOf(rows, page);
    if k in page {
      var i :| 0 <= i < |page| && page[i] == k;
      assert todo[i].key == k;
    }
  }

  lemma PageUndisturbed(w: World, cipher: Key -> string -> Outcome)
    requires Undisturbed(w, cipher) && w.job.todo == [] && w.job.source < w.config.sources
    ensures Undisturbed(ApplyPassPage(w), cipher) && SameStep(w, ApplyPassPage(w))
  {
    var w' := ApplyPassPage(w);
    forall k ensures Visited(w', k) <==> Visited(w, k) { VisitedStays(w, k); }
    forall kid ensures CountsVisited(w', kid) { assert CountsVisited(w, kid); }
    PageIsTodo(w);
  }

  /** The page as it was read. */
  lemma PageIsTodo(w: World)
    requires w.job.Passing? && w.config.limit >= 1 && w.job.todo == [] && w.job.source < w.config.sources
    requires w.job.last.Some? ==> w.job.last.value.at == w.job.source
    ensures var w' := ApplyPassPage(w);
            TodoOk(w') && (w'.job.last.Some? ==> w'.job.last.value.at == w'.job.source)
  {
    var w', page := ApplyPassPage(w), NextPage(w, w.job.source, w.job.last);
    if page != [] { assert page[|page| - 1] in page; }
    forall i | 0 <= i < |page| ensures Passed(page[i], w'.job.source, w'.job.last) {
      assert page[i] in page;
      if i < |page| - 1 { assert Less(page[i], page[|page| - 1]); }
    }
    forall i, j | 0 <= i < j < |page| ensures page[i] != page[j] { assert Less(page[i], page[j]); }
  }

  /** The next row of the page is visited, and nothing else changes. */
  lemma RowVisited(w: World, w': World, k: Key)
    requires w.job.Passing? && w.job.todo != [] && TodoOk(w) && w'.job.Passing? && w'.rows.Keys == w.rows.Keys
    requires w'.job.todo == w.job.todo[1..] && w'.job.source == w.job.source && w'.job.last == w.job.last
    ensures Visited(w', k) <==> Visited(w, k) || k == w.job.todo[0].key
  {
    var todo, todo' := w.job.todo, w'.job.todo;
    if k in TodoKeys(todo) && k != todo[0].key {
      var i :| 0 <= i < |todo| && todo[i].key == k;
      assert todo'[i - 1].key == k;
    }
    if k in TodoKeys(todo') {
      var i :| 0 <= i < |todo'| && todo'[i].key == k;
      assert todo[i + 1].key == k;
    }
  }

  lemma RowCounts(w: World, w': World, left: Row, kid: Kid)
    requires w.job.Passing? && w.job.todo != [] && TodoOk(w) && w'.job.Passing? && w'.rows.Keys == w.rows.Keys
    requires w'.job.todo == w.job.todo[1..] && w'.job.source == w.job.source && w'.job.last == w.job.last
    requires CountsVisited(w, kid) && w'.rows == w.rows[w.job.todo[0].key := left]
    requires w'.job.counts == CountInto(w.job.counts, Envelopes(left.credentials))
    ensures CountsVisited(w', kid)
  {
    var key := w.job.todo[0].key;
    CountedIffUsed(w.job.counts, left, kid);
    forall k ensures Visited(w', k) <==> Visited(w, k) || k == key { RowVisited(w, w', k); }
    assert !Visited(w, key);
    if Uses(left, kid) { assert Visited(w', key) && Uses(w'.rows[key], kid); }
    if At(w.job.counts, kid) > 0 {
      var k :| Visited(w, k) && Uses(w.rows[k], kid);
      assert Visited(w', k) && Uses(w'.rows[k], kid);
    }
  }

  lemma RowUndisturbed(w: World, cipher: Key -> string -> Outcome)
    requires Undisturbed(w, cipher) && w.job.todo != []
    ensures var w' := ApplyPassRow(w, cipher(w.job.todo[0].key), Saved); Undisturbed(w', cipher) && SameStep(w, w')
  {
    var read := w.job.todo[0];
    var w' := ApplyPassRow(w, cipher(read.key), Saved);
    var left := w'.rows[read.key];
    RowIsDone(w.rows, read.key, read.row, w.job.target, cipher(read.key), Saved);
    RowKeepsShape(w.rows, read.key, read.row, w.job.target, cipher(read.key), Saved);
    assert w'.rows == w.rows[read.key := left];
    forall kid ensures CountsVisited(w', kid) {
      assert CountsVisited(w, kid);
      RowCounts(w, w', left, kid);
    }
    forall k | Visited(w', k) ensures RowDone(k, w'.rows[k], w.job.target, cipher(k)) { RowVisited(w, w', k); }
  }

  /** The rows of the page under way, one by one. */
  lemma RowsGoThrough(w: World, cipher: Key -> string -> Outcome) returns (actions: seq<Action>)
    requires Undisturbed(w, cipher)
    ensures var end := Run(w, actions);
            && Undisturbed(end, cipher) && SameStep(w, end) && end.job.todo == []
            && end.job.source == w.job.source && end.job.last == w.job.last
    decreases |w.job.todo|
  {
    if w.job.todo != [] {
      RowUndisturbed(w, cipher);
      var a := PassRow(cipher(w.job.todo[0].key), Saved);
      var rest := RowsGoThrough(Apply(w, a), cipher);
      actions := [a] + rest;
      assert Run(w, actions) == Run(Apply(w, a), rest);
    } else {
      actions := [];
    }
  }

  /** The pass goes through to its end. */
  lemma PassGoesThrough(w: World, cipher: Key -> string -> Outcome) returns (actions: seq<Action>)
    requires Undisturbed(w, cipher) && w.job.todo == []
    ensures var end := Run(w, actions);
            Undisturbed(end, cipher) && SameStep(w, end) && end.job.todo == [] && end.job.source >= end.config.sources
    decreases if w.job.source < w.config.sources then w.config.sources - w.job.source else 0,
              |Above(SourceKeys(w.rows.Keys, w.job.source), w.job.last)|
  {
    if w.job.source < w.config.sources {
      PageUndisturbed(w, cipher);
      PageShrinks(w);
      var w1 := Apply(w, PassPage);
      var rows := RowsGoThrough(w1, cipher);
      var rest := PassGoesThrough(Run(w1, rows), cipher);
      actions := [PassPage] + (rows + rest);
      RunAppend(w1, rows, rest);
      assert Run(w, actions) == Run(w1, rows + rest);
    } else {
      actions := [];
    }
  }

  lemma PageShrinks(w: World)
    requires w.job.Passing? && w.job.todo == [] && w.job.source < w.config.sources && w.config.limit >= 1
    ensures var job := ApplyPassPage(w).job;
            || job.source > w.job.source
            || (job.source == w.job.source && |Above(SourceKeys(w.rows.Keys, job.source), job.last)|
                                              < |Above(SourceKeys(w.rows.Keys, w.job.source), w.job.last)|)
  {
    if |NextPage(w, w.job.source, w.job.last)| == w.config.limit {
      PageAdvances(SourceKeys(w.rows.Keys, w.job.source), w.job.last, w.config.limit);
    }
  }

  // ---- the recount ----

  /** A recount that has counted no key nothing uses. */
  ghost predicate RecountOk(w: World) {
    && w.job.Recounting? && w.config.limit >= 1
    && forall kid :: At(w.job.counts, kid) > 0 ==> InUse(w.rows, kid)
  }

  lemma {:induction false} PageCounts(counts: Counts, rows: map<Key, Row>, page: seq<Key>, kid: Kid)
    requires forall k :: k in page ==> k in rows
    requires At(counts, kid) > 0 ==> InUse(rows, kid)
    ensures At(CountPageInto(counts, rows, page), kid) > 0 ==> InUse(rows, kid)
  {
    if page != [] {
      var n := |page| - 1;
      PageCounts(counts, rows, page[..n], kid);
      CountedIffUsed(CountPageInto(counts, rows, page[..n]), rows[page[n]], kid);
    }
  }

  lemma RecountGoesThrough(w: World) returns (actions: seq<Action>)
    requires RecountOk(w)
    ensures var end := Run(w, actions);
            RecountOk(end) && end.job.source >= w.config.sources
              && end == w.(job := end.job) && end.job.st == w.job.st && end.job.snap == w.job.snap
              && end.job.removable == w.job.removable
    decreases if w.job.source < w.config.sources then w.config.sources - w.job.source else 0,
              |Above(SourceKeys(w.rows.Keys, w.job.source), w.job.last)|
  {
    if w.job.source < w.config.sources {
      var w', page := ApplyRecountPage(w), NextPage(w, w.job.source, w.job.last);
      forall kid | At(w'.job.counts, kid) > 0 ensures InUse(w.rows, kid) {
        PageCounts(w.job.counts, w.rows, page, kid);
      }
      if |page| == w.config.limit {
        PageAdvances(SourceKeys(w.rows.Keys, w.job.source), w.job.last, w.config.limit);
      }
      var rest := RecountGoesThrough(w');
      actions := [RecountPage] + rest;
      assert Run(w, actions) == Run(w', rest);
    } else {
      actions := [];
    }
  }

  // ---- the steps ----

  /** The state row `n` writes after `st`, in `phase`. */
  function StateAfter(st: State, n: nat, active: Option<Kid>, usage: Option<Counts>, phase: Phase, kid: Option<Kid>,
                      recorded: Option<seq<Kid>>): (st': State)
  {
    State(st.version + n, active, usage, Some(Rotation(phase, kid, recorded, false)))
  }

  lemma KeyIsRecorded(w: World) returns (actions: seq<Action>)
    requires AtRest(w)
    ensures var st := StateAfter(w.state, 2, w.state.activeKid, w.state.kidUsage, Adding, None, Some(w.ring.keys));
            Run(w, actions) == w.(state := st, job := AddReady(st, w.ring), added := 0)
  {
    var st1 := StateAfter(w.state, 1, w.state.activeKid, w.state.kidUsage, Adding, None, None);
    var st2 := StateAfter(w.state, 2, w.state.activeKid, w.state.kidUsage, Adding, None, Some(w.ring.keys));
    var w1, w2 := w.(state := st1, added := 0), w.(state := st1, job := Loaded(st1), added := 0);
    var w3 := w.(state := st1, job := AddReady(st1, w.ring), added := 0);
    var w4 := w.(state := st2, job := AddReady(st2, w.ring), added := 0);
    assert ApplyRequest(w) == w1;
    assert ApplyLoad(w1) == w2;
    assert ApplyReadRing(w2) == w3;
    assert ApplyRecordKids(w3) == w4;
    actions := Then(w, [], w, RequestRotation, w1);
    actions := Then(w, actions, w1, Load, w2);
    actions := Then(w, actions, w2, ReadRing, w3);
    actions := Then(w, actions, w3, RecordKids, w4);
  }

  lemma {:induction false} NoneOfOwn(keys: seq<Kid>, gone: set<Kid>)
    requires forall k :: k in keys ==> k in gone
    ensures Without(keys, gone) == []
  {
    if keys != [] { NoneOfOwn(keys[1..], gone); }
  }

  /** From the key being recorded to its being active. */
  lemma KeyIsActivated(w: World, kid: Kid, st: State) returns (actions: seq<Action>)
    requires w.job == AddReady(st, w.ring) && w.state == st && kid !in w.ring.keys && w.added == 0
    requires st.rotation == Some(Rotation(Adding, None, Some(w.ring.keys), false))
    ensures Run(w, actions) == w.(ring := Ring(w.ring.version + 1, w.ring.keys + [kid]), job := Idle, added := 1,
                                  state := StateAfter(st, 2, Some(kid), st.kidUsage, Reencrypting, Some(kid), None))
  {
    var ring := Ring(w.ring.version + 1, w.ring.keys + [kid]);
    var st1 := StateAfter(st, 1, st.activeKid, st.kidUsage, Activating, Some(kid), None);
    var st2 := StateAfter(st, 2, Some(kid), st.kidUsage, Reencrypting, Some(kid), None);
    var w1 := w.(ring := ring, job := AddWritten(st, kid), added := 1);
    var w2 := w1.(state := st1, job := Idle);
    var w3, w4 := w2.(job := Loaded(st1)), w2.(state := st2);
    NoneOfOwn(w.ring.keys, set k | k in w.ring.keys);
    assert ApplyWriteNewKey(w, kid) == w1;
    assert ApplySaveAdded(w1) == w2;
    assert ApplyLoad(w2) == w3;
    var beats := [Beat({kid}, None)];
    assert ApplyActivate(w3, beats) == w4;
    actions := Then(w, [], w, WriteNewKey(kid), w1);
    actions := Then(w, actions, w1, SaveAdded, w2);
    actions := Then(w, actions, w2, Load, w3);
    actions := Then(w, actions, w3, Activate(beats), w4);
  }

  /** From the key being active to every row being re-sealed and counted. */
  lemma RowsAreResealed(w: World, kid: Kid, cipher: Key -> string -> Outcome) returns (actions: seq<Action>)
    requires RowsOk(w) && w.job.Idle? && w.state.activeKid == Some(kid)
    requires w.state.rotation == Some(Rotation(Reencrypting, Some(kid), None, false))
    ensures var end := Run(w, actions);
            && end.ring == w.ring && end.config == w.config && end.rows.Keys == w.rows.Keys
            && end.job.Idle? && RowsOk(end)
            && end.state.activeKid == Some(kid) && end.state.kidUsage.Some?
            && end.state.rotation == Some(Rotation(Retiring, Some(kid), None, false))
            && (forall k :: k in end.rows ==> RowDone(k, end.rows[k], kid, cipher(k)))
            && (forall q :: At(end.state.kidUsage.value, q) > 0 <==> InUse(end.rows, q))
  {
    var st, beats := w.state, [Beat({kid}, Some(kid))];
    var w1, w2 := w.(job := Loaded(st)), w.(job := Passing(st, kid, 0, None, [], map[], true));
    assert ApplyLoad(w) == w1;
    assert ApplyStartPass(w1, beats, Some(kid)) == w2;
    actions := Then(w, [], w, Load, w1);
    actions := Then(w, actions, w1, StartPass(beats, Some(kid)), w2);
    var pass := PassGoesThrough(w2, cipher);
    RunAppend(w, actions, pass);
    var w3 := Run(w2, pass);
    PassCountsAll(w3, cipher);
    var w4 := ApplySavePass(w3);
    actions := Then(w, actions + pass, w3, SavePass, w4);
  }

  /** At its end the pass has visited every row. */
  lemma PassCountsAll(w: World, cipher: Key -> string -> Outcome)
    requires Undisturbed(w, cipher) && w.job.todo == [] && w.job.source >= w.config.sources
    ensures forall k :: k in w.rows ==> RowDone(k, w.rows[k], w.job.target, cipher(k))
    ensures forall q :: At(w.job.counts, q) > 0 <==> InUse(w.rows, q)
  {
    forall k | k in w.rows ensures Visited(w, k) { assert k.at < w.job.source; }
    forall q ensures At(w.job.counts, q) > 0 <==> InUse(w.rows, q) {
      assert CountsVisited(w, q);
      if InUse(w.rows, q) {
        var k :| k in w.rows && Uses(w.rows[k], q);
        assert Visited(w, k);
      }
    }
  }

  /** From there to the end: only the keys nothing uses go. */
  lemma UnusedKeysGo(w: World, kid: Kid) returns (actions: seq<Action>)
    requires RowsOk(w) && w.job.Idle? && w.state.activeKid == Some(kid) && w.state.kidUsage.Some? && kid in w.ring.keys
    requires w.state.rotation == Some(Rotation(Retiring, Some(kid), None, false))
    requires forall q :: At(w.state.kidUsage.value, q) > 0 <==> InUse(w.rows, q)
    ensures var end := Run(w, actions);
            && PhaseOf(end) == Some(Done) && end.job.Idle? && end.state.activeKid == Some(kid) && end.rows == w.rows
            && forall q :: q in end.ring.keys <==> q in w.ring.keys && (q == kid || InUse(w.rows, q))
  {
    var st := w.state;
    var removable := Removable(w.ring, kid, st.kidUsage.value);
    var w1 := w.(job := Loaded(st));
    var w2 := ApplyReadRing(w1);
    assert ApplyLoad(w) == w1;
    actions := Then(w, [], w, Load, w1);
    actions := Then(w, actions, w1, ReadRing, w2);
    var w3 := w2;
    if removable == {} {
      forall q | q in w.ring.keys ensures q == kid || InUse(w.rows, q) { assert q !in removable; }
    } else {
      assert w2 == w.(job := Recounting(st, w.ring, removable, 0, None, map[]));
      var retire := RingIsWritten(w2);
      RunAppend(w, actions, retire);
      actions, w3 := actions + retire, Run(w2, retire);
    }
    actions := Then(w, actions, w3, SaveDone, ApplySaveDone(w3));
  }

  lemma RingIsWritten(w: World) returns (actions: seq<Action>)
    requires RecountOk(w) && w.job.snap == w.ring && w.job.st.rotation.Some?
    requires forall q :: q in w.job.removable ==> !InUse(w.rows, q)
    ensures Run(w, actions) == w.(ring := Ring(w.ring.version + 1, Without(w.ring.keys, w.job.removable)),
                                  job := Retired(w.job.st))
  {
    actions := RecountGoesThrough(w);
    var w1 := Run(w, actions);
    actions := Then(w, actions, w1, Retire, ApplyRetire(w1));
  }

  /**
   * From rest, with a new key and nothing in the way: the rotation ends done, signing under the new key; every
   * envelope that this cipher can re-seal is under it; the ring holds it and the old keys something still uses.
   */
  lemma RotationCompletes(w: World, kid: Kid, cipher: Key -> string -> Outcome) returns (actions: seq<Action>)
    requires AtRest(w) && kid !in w.ring.keys
    ensures var end := Run(w, actions);
            && PhaseOf(end) == Some(Done) && end.job.Idle? && end.state.activeKid == Some(kid)
            && end.rows.Keys == w.rows.Keys && (forall k :: k in end.rows ==> RowDone(k, end.rows[k], kid, cipher(k)))
            && forall q :: q in end.ring.keys <==> q == kid || (q in w.ring.keys && InUse(end.rows, q))
  {
    actions := KeyIsRecorded(w);
    var w1 := Run(w, actions);
    var more := KeyIsActivated(w1, kid, w1.state);
    RunAppend(w, actions, more);
    var w2 := Run(w1, more);
    var reseal := RowsAreResealed(w2, kid, cipher);
    RunAppend(w, actions + more, reseal);
    var w3 := Run(w2, reseal);
    var retire := UnusedKeysGo(w3, kid);
    RunAppend(w, actions + more + reseal, retire);
    actions := actions + more + reseal + retire;
  }
}
