/**
 * What a late save costs: a secret saved under a key the recount is about to remove, in a row it is past, is
 * lost in some continuation. One such save, in a whole rotation from rest.
 */
module KeyRotationLateWriter {
  import opened Options
  import opened Keyset
  import opened ConfigEnvelopes
  import opened ReencryptionPass
  import opened KeyRotation
  import opened KeyRotationSafety
  import opened KeyRotationTheorems

  // ---- what may follow a late save ----

  /** The recount is past every row. */
  ghost predicate AllPassed(w: World)
    requires w.job.Recounting?
  {
    forall k :: k in w.rows ==> Passed(k, w.job.source, w.job.last)
  }

  ghost predicate ToRemove(w: World, p: Place) {
    && w.config.limit >= 1 && w.job.Recounting? && w.job.snap.version == w.ring.version && w.job.st.rotation.Some?
    && p.key in w.rows && Overlooked(w.job, p.key, w.rows[p.key].credentials, p.name)
  }

  /** Every row the recount has yet to read is deleted. */
  lemma DeleteUnread(w: World, p: Place) returns (actions: seq<Action>)
    requires ToRemove(w, p)
    ensures NoneWrites(actions, p.key) && ToRemove(Run(w, actions), p) && AllPassed(Run(w, actions))
    ensures Run(w, actions).rows[p.key] == w.rows[p.key]
    decreases w.rows.Keys
  {
    if k :| k in w.rows && !Passed(k, w.job.source, w.job.last) {
      var w' := ApplyWriterDelete(w, k);
      assert w'.rows.Keys == w.rows.Keys - {k} && k in w.rows.Keys;
      var rest := DeleteUnread(w', p);
      actions := [WriterDelete(k)] + rest;
      assert Run(w, actions) == Run(w', rest);
    } else {
      actions := [];
    }
  }

  /** With no row left to read, the recount comes to its end with the counts it has. */
  lemma FinishRecount(w: World, p: Place) returns (actions: seq<Action>)
    requires ToRemove(w, p) && AllPassed(w)
    ensures NoneWrites(actions, p.key) && ToRemove(Run(w, actions), p)
    ensures Run(w, actions).rows[p.key] == w.rows[p.key]
    ensures Run(w, actions).job.source >= w.config.sources == Run(w, actions).config.sources
    decreases w.config.sources - w.job.source
  {
    if w.job.source < w.config.sources {
      var w' := ApplyRecountPage(w);
      assert Above(SourceKeys(w.rows.Keys, w.job.source), w.job.last) == {};
      assert NextPage(w, w.job.source, w.job.last) == [];
      var rest := FinishRecount(w', p);
      actions := [RecountPage] + rest;
      assert Run(w, actions) == Run(w', rest);
    } else {
      actions := [];
    }
  }

  /** `slots` are still stored, but the key of the field is gone. */
  ghost predicate Lost(w: World, p: Place, slots: seq<Slot>) {
    && p.key in w.rows && w.rows[p.key].credentials == slots && Secret(w, p) == None
    && EnvelopeIn(slots, p.name).Some? && EnvelopeIn(slots, p.name).value.kid !in w.ring.keys
  }

  lemma RetireLoses(w: World, p: Place)
    requires ToRemove(w, p) && w.job.source >= w.config.sources
    ensures Lost(Run(w, [Retire]), p, w.rows[p.key].credentials)
  {
    assert Run(w, [Retire]) == Run(ApplyRetire(w), []);
  }

  lemma OverlookedIsLost(w: World, p: Place) returns (actions: seq<Action>)
    requires ToRemove(w, p)
    ensures NoneWrites(actions, p.key) && Lost(Run(w, actions), p, w.rows[p.key].credentials)
  {
    var deletes := DeleteUnread(w, p);
    var pages := FinishRecount(Run(w, deletes), p);
    RunAppend(w, deletes, pages);
    RetireLoses(Run(w, deletes + pages), p);
    actions := deletes + pages + [Retire];
    RunAppend(w, deletes + pages, [Retire]);
  }

  /** Wherever a run comes to a late save, some continuation that leaves the row alone loses what was saved. */
  lemma LateSaveLost(w: World, before: seq<Action>, key: Key, slots: seq<Slot>, name: string)
      returns (after: seq<Action>)
    requires AtRest(w) && LateSave(Run(w, before), WriterSave(key, slots), Place(key, name))
    ensures NoneWrites(after, key)
    ensures Lost(Run(w, before + [WriterSave(key, slots)] + after), Place(key, name), slots)
  {
    var w1, save := Run(w, before), WriterSave(key, slots);
    Reachable(w, before);
    after := OverlookedIsLost(Apply(w1, save), Place(key, name));
    RunWithSave(w, before, save, after);
  }

  /**
   * What a writer saves at a point of a run is safe from every continuation that leaves the row alone if and
   * only if the save is not late.
   */
  lemma SaveKeptIff(w: World, before: seq<Action>, key: Key, slots: seq<Slot>, name: string)
    requires AtRest(w) && WriterMay(Run(w, before), key, slots)
    requires OpenIn(RingSet(Run(w, before).ring), key, slots, name).Some?
    ensures (forall after :: NoneWrites(after, key) ==>
               Secret(Run(w, before + [WriterSave(key, slots)] + after), Place(key, name))
                 == OpenIn(RingSet(Run(w, before).ring), key, slots, name))
            <==> !LateSave(Run(w, before), WriterSave(key, slots), Place(key, name))
  {
    if LateSave(Run(w, before), WriterSave(key, slots), Place(key, name)) {
      var after := LateSaveLost(w, before, key, slots, name);
      assert NoneWrites(after, key);
    } else {
      forall after | NoneWrites(after, key)
          ensures Secret(Run(w, before + [WriterSave(key, slots)] + after), Place(key, name))
               == OpenIn(RingSet(Run(w, before).ring), key, slots, name) {
        LastSaveKept(w, before, key, slots, after, name);
      }
    }
  }

  /** A save under the active key is never late. */
  lemma ActiveIsNotLate(w: World, before: seq<Action>, a: Action, p: Place)
    requires AtRest(w) && a.WriterSave? && EnvelopeIn(a.slots, p.name).Some?
    requires Some(EnvelopeIn(a.slots, p.name).value.kid) == Run(w, before).state.activeKid
    ensures !LateSave(Run(w, before), a, p)
  {
    Reachable(w, before);
  }

  // ---- a rotation with a late save ----

  const LATE_KEY := Key(0, 7)
  const LATE_SLOTS := [Slot("token", Sealed(Envelope(1, Context(0, 7, PREFIX + "token"), "secret")))]

  const RING1 := Ring(0, [1])
  const RING2 := Ring(1, [1, 2])

  const RESTING := State(0, Some(1), None, None)
  const ADDING := State(1, Some(1), None, Some(Rotation(Adding, None, None, false)))
  const RECORDED := State(2, Some(1), None, Some(Rotation(Adding, None, Some([1]), false)))
  const ACTIVATING := State(3, Some(1), None, Some(Rotation(Activating, Some(2), None, false)))
  const REENCRYPTING := State(4, Some(2), None, Some(Rotation(Reencrypting, Some(2), None, false)))
  const RETIRING := State(5, Some(2), Some(map[]), Some(Rotation(Retiring, Some(2), None, false)))

  /** One record type without a row yet. */
  function Late(ring: Ring, state: State, job: Job, added: nat): (w: World) {
    World(Config(1, 1), ring, state, map[], job, {}, added)
  }

  lemma KeyIsAdded(w0: World) returns (actions: seq<Action>)
    requires w0 == Late(RING1, RESTING, Idle, 0)
    ensures Run(w0, actions) == Late(RING1, RECORDED, AddReady(RECORDED, RING1), 0)
  {
    var w1, w2 := Late(RING1, ADDING, Idle, 0), Late(RING1, ADDING, Loaded(ADDING), 0);
    var w3, w4 := Late(RING1, ADDING, AddReady(ADDING, RING1), 0), Late(RING1, RECORDED, AddReady(RECORDED, RING1), 0);
    assert ApplyRequest(w0) == w1;
    assert ApplyLoad(w1) == w2;
    assert ApplyReadRing(w2) == w3;
    assert ApplyRecordKids(w3) == w4;
    actions := Then(w0, [], w0, RequestRotation, w1);
    actions := Then(w0, actions, w1, Load, w2);
    actions := Then(w0, actions, w2, ReadRing, w3);
    actions := Then(w0, actions, w3, RecordKids, w4);
  }

  lemma KeyIsActive(w0: World, before: seq<Action>) returns (actions: seq<Action>)
    requires Run(w0, before) == Late(RING1, RECORDED, AddReady(RECORDED, RING1), 0)
    ensures Run(w0, actions) == Late(RING2, REENCRYPTING, Idle, 1)
  {
    var w4, w5 := Late(RING1, RECORDED, AddReady(RECORDED, RING1), 0),
        Late(RING2, RECORDED, AddWritten(RECORDED, 2), 1);
    var w6, w7 := Late(RING2, ACTIVATING, Idle, 1), Late(RING2, ACTIVATING, Loaded(ACTIVATING), 1);
    var w8, beats := Late(RING2, REENCRYPTING, Idle, 1), [Beat({1, 2}, Some(1))];
    actions := KeyIsWritten(w0, before, w4, w5, w6);
    assert ApplyLoad(w6) == w7;
    assert ApplyActivate(w7, beats) == w8;
    actions := Then(w0, actions, w6, Load, w7);
    actions := Then(w0, actions, w7, Activate(beats), w8);
  }

  lemma KeyIsWritten(w0: World, before: seq<Action>, w4: World, w5: World, w6: World) returns (actions: seq<Action>)
    requires w4 == Late(RING1, RECORDED, AddReady(RECORDED, RING1), 0) && Run(w0, before) == w4
    requires w5 == Late(RING2, RECORDED, AddWritten(RECORDED, 2), 1) && w6 == Late(RING2, ACTIVATING, Idle, 1)
    ensures Run(w0, actions) == w6
  {
    assert Without([1], set k | k in [1]) == [];
    assert ApplyWriteNewKey(w4, 2) == w5;
    assert ApplySaveAdded(w5) == w6;
    actions := Then(w0, before, w4, WriteNewKey(2), w5);
    actions := Then(w0, actions, w5, SaveAdded, w6);
  }

  lemma PassIsDone(w0: World, before: seq<Action>) returns (actions: seq<Action>)
    requires Run(w0, before) == Late(RING2, REENCRYPTING, Idle, 1)
    ensures Run(w0, actions) == Late(RING2, RETIRING, Idle, 1)
  {
    var w8, w9 := Late(RING2, REENCRYPTING, Idle, 1), Late(RING2, REENCRYPTING, Loaded(REENCRYPTING), 1);
    var w10 := Late(RING2, REENCRYPTING, Passing(REENCRYPTING, 2, 0, None, [], map[], true), 1);
    var w11 := Late(RING2, REENCRYPTING, Passing(REENCRYPTING, 2, 1, None, [], map[], true), 1);
    var w12, beats := Late(RING2, RETIRING, Idle, 1), [Beat({1, 2}, Some(2))];
    assert ApplyLoad(w8) == w9;
    assert ApplyStartPass(w9, beats, Some(2)) == w10;
    assert Above(SourceKeys(w10.rows.Keys, 0), None) == {};
    assert ApplyPassPage(w10) == w11;
    assert ApplySavePass(w11) == w12;
    actions := Then(w0, before, w8, Load, w9);
    actions := Then(w0, actions, w9, StartPass(beats, Some(2)), w10);
    actions := Then(w0, actions, w10, PassPage, w11);
    actions := Then(w0, actions, w11, SavePass, w12);
  }

  /** The recount is through. */
  function Recounted(): (w: World) { Late(RING2, RETIRING, Recounting(RETIRING, RING2, {1}, 1, None, map[]), 1) }

  lemma RecountIsDone(w0: World, before: seq<Action>) returns (actions: seq<Action>)
    requires Run(w0, before) == Late(RING2, RETIRING, Idle, 1)
    ensures Run(w0, actions) == Recounted()
  {
    var w12, w13 := Late(RING2, RETIRING, Idle, 1), Late(RING2, RETIRING, Loaded(RETIRING), 1);
    var w14 := Late(RING2, RETIRING, Recounting(RETIRING, RING2, {1}, 0, None, map[]), 1);
    assert Removable(RING2, 2, map[]) == {1};
    assert Above(SourceKeys(w14.rows.Keys, 0), None) == {};
    assert CountPageInto(map[], w14.rows, []) == map[];
    assert ApplyLoad(w12) == w13;
    assert ApplyReadRing(w13) == w14;
    assert ApplyRecountPage(w14) == Recounted();
    actions := Then(w0, before, w12, Load, w13);
    actions := Then(w0, actions, w13, ReadRing, w14);
    actions := Then(w0, actions, w14, RecountPage, Recounted());
  }

  /**
   * From rest, one rotation: a writer that seals under the old key after its page was recounted loses its
   * secret when the key goes.
   */
  lemma LateWriterLosesSecret() returns (w: World, before: seq<Action>, save: Action, after: seq<Action>, p: Place)
    ensures AtRest(w) && LateSave(Run(w, before), save, p) && NoneWrites(after, p.key)
    ensures Secret(Run(w, before + [save]), p) == Some("secret") && Secret(Run(w, before + [save] + after), p) == None
  {
    w, save, p := Late(RING1, RESTING, Idle, 0), WriterSave(LATE_KEY, LATE_SLOTS), Place(LATE_KEY, "token");
    before := KeyIsAdded(w);
    before := KeyIsActive(w, before);
    before := PassIsDone(w, before);
    before := RecountIsDone(w, before);
    assert WriterSlot(Recounted(), LATE_KEY, LATE_SLOTS[0]);
    RunWithSave(w, before, save, []);
    assert before + [save] + [] == before + [save];
    after := LateSaveLost(w, before, LATE_KEY, LATE_SLOTS, "token");
  }
}
