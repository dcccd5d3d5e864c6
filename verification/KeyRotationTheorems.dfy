/** What holds over whole runs of the configuration key rotation, from any state at rest. */
module KeyRotationTheorems {
  import opened Options
  import opened Keyset
  import opened ConfigEnvelopes
  import opened ReencryptionPass
  import opened KeyRotation
  import opened KeyRotationSafety

  /** No step under way and no rotation going on. */
  ghost predicate AtRest(w: World) {
    && w.job.Idle?
    && (w.state.rotation.Some? ==> w.state.rotation.value.phase in {Done, Failed}) && w.added <= 1
    && ActiveInRing(w) && RowsOk(w)
  }

  lemma {:induction false} RunKeeps(w: World, actions: seq<Action>)
    requires Inv(w)
    ensures Inv(Run(w, actions))
    decreases |actions|
  {
    if actions != [] {
      Keeps(w, actions[0]);
      RunKeeps(Apply(w, actions[0]), actions[1..]);
    }
  }

  lemma Reachable(w: World, actions: seq<Action>)
    requires AtRest(w)
    ensures Inv(Run(w, actions))
  {
    RunKeeps(w, actions);
  }

  lemma {:induction false} RunAppend(w: World, before: seq<Action>, after: seq<Action>)
    ensures Run(w, before + after) == Run(Run(w, before), after)
    decreases |before|
  {
    if before == [] {
      assert before + after == after;
    } else {
      assert (before + after)[0] == before[0] && (before + after)[1..] == before[1..] + after;
      RunAppend(Apply(w, before[0]), before[1..], after);
    }
  }

  /** One action more. */
  lemma Then(w0: World, actions: seq<Action>, w: World, a: Action, w': World) returns (longer: seq<Action>)
    requires Run(w0, actions) == w && Apply(w, a) == w'
    ensures Run(w0, longer) == w'
  {
    longer := actions + [a];
    RunAppend(w0, actions, [a]);
    assert Run(w, [a]) == Run(w', []);
  }

  // ---- no secret is lost ----

  ghost predicate NoneWrites(actions: seq<Action>, key: Key) {
    forall a :: a in actions ==> !Writes(a, key)
  }

  lemma {:induction false} SecretKeptOverRun(w: World, actions: seq<Action>, p: Place)
    requires Inv(w) && Seen(w, p) && Secret(w, p).Some? && NoneWrites(actions, p.key)
    ensures Secret(Run(w, actions), p) == Secret(w, p)
    decreases |actions|
  {
    if actions != [] {
      var a := actions[0];
      Keeps(w, a);
      SeenIff(w, a, p);
      SecretKept(w, a, p);
      SecretKeptOverRun(Apply(w, a), actions[1..], p);
    }
  }

  /**
   * A secret that could be opened at rest and that no writer touched still opens to the same plaintext
   * after any run: through re-encryption, crashes, lost races, the removal of keys and whatever writers do
   * to other rows.
   */
  lemma UntouchedSecretKept(w: World, actions: seq<Action>, p: Place)
    requires AtRest(w) && Secret(w, p).Some? && NoneWrites(actions, p.key)
    ensures Secret(Run(w, actions), p) == Secret(w, p)
  {
    SecretKeptOverRun(w, actions, p);
  }

  /** The run with a save and what follows it. */
  lemma RunWithSave(w: World, before: seq<Action>, save: Action, after: seq<Action>)
    ensures Run(w, before + [save] + after) == Run(Apply(Run(w, before), save), after)
  {
    RunAppend(w, before + [save], after);
    RunAppend(w, before, [save]);
    assert Run(Run(w, before), [save]) == Run(Apply(Run(w, before), save), []);
  }

  /**
   * What a writer saves at any point of a run, but for a late save, opens to what it saved until the row's
   * next writer, whatever runs in between.
   */
  lemma LastSaveKept(w: World, before: seq<Action>, key: Key, slots: seq<Slot>, after: seq<Action>, name: string)
    requires AtRest(w) && NoneWrites(after, key) && WriterMay(Run(w, before), key, slots)
    requires !LateSave(Run(w, before), WriterSave(key, slots), Place(key, name))
    requires OpenIn(RingSet(Run(w, before).ring), key, slots, name).Some?
    ensures Secret(Run(w, before + [WriterSave(key, slots)] + after), Place(key, name))
         == OpenIn(RingSet(Run(w, before).ring), key, slots, name)
  {
    var w1, save, p := Run(w, before), WriterSave(key, slots), Place(key, name);
    Reachable(w, before);
    RunWithSave(w, before, save, after);
    Keeps(w1, save);
    SecretKeptOverRun(Apply(w1, save), after, p);
  }

  /** No late save at `p` over the run. */
  ghost predicate NoneLate(w: World, actions: seq<Action>, p: Place)
    decreases |actions|
  {
    actions == [] || (!LateSave(w, actions[0], p) && NoneLate(Apply(w, actions[0]), actions[1..], p))
  }

  lemma {:induction false} SeenOverRun(w: World, actions: seq<Action>, p: Place)
    requires Inv(w) && Seen(w, p) && NoneLate(w, actions, p)
    ensures Seen(Run(w, actions), p)
    decreases |actions|
  {
    if actions != [] {
      Keeps(w, actions[0]);
      SeenIff(w, actions[0], p);
      SeenOverRun(Apply(w, actions[0]), actions[1..], p);
    }
  }

  /** No key leaves the ring while an envelope not saved late uses it, at any point of any run. */
  lemma UsedKeyStays(w: World, actions: seq<Action>, a: Action, p: Place)
    requires AtRest(w) && NoneLate(w, actions, p) && p.key in Run(w, actions).rows
    requires EnvelopeIn(Run(w, actions).rows[p.key].credentials, p.name).Some?
    ensures var kid := EnvelopeIn(Run(w, actions).rows[p.key].credentials, p.name).value.kid;
            kid in Run(w, actions).ring.keys ==> kid in Run(w, actions + [a]).ring.keys
  {
    Reachable(w, actions);
    SeenOverRun(w, actions, p);
    RunAppend(w, actions, [a]);
    var w1 := Run(w, actions);
    assert Run(w1, [a]) == Run(Apply(w1, a), []) == Apply(w1, a);
    NoSeenKeyLeaves(w1, a, p);
  }

  /** After a pass that counted every envelope, the removable keys are exactly the others of the ring nothing uses. */
  lemma RemovableIffUnused(ring: Ring, active: Kid, rows: map<Key, Row>, counts: Counts, kid: Kid)
    requires CountsAre(rows, Ascending(rows.Keys), counts)
    ensures kid in Removable(ring, active, counts)
       <==> && kid in ring.keys && kid != active
            && !exists k, r :: k in rows && r in Envelopes(rows[k].credentials) && r.envelope.kid == kid
  {
    UsedKeyCounted(rows, Ascending(rows.Keys), kid);
    assert forall k :: k in rows ==> k in Ascending(rows.Keys);
  }

  // ---- the phases ----

  function PhaseOf(w: World): (phase: Option<Phase>) {
    if w.state.rotation.None? then None else Some(w.state.rotation.value.phase)
  }

  /** The documented edges. `Failed` is reached only over a keyring that can't be parsed. */
  predicate Edge(from: Option<Phase>, to: Option<Phase>, a: Action) {
    || from == to
    || (to == Some(Adding) && a.RequestRotation? && (from == None || from == Some(Done) || from == Some(Failed)))
    || (from == Some(Adding) && to == Some(Activating) && a.SaveAdded?)
    || (from == Some(Activating) && to == Some(Reencrypting) && (a.Activate? || a.ActivateAnyway?))
    || (from == Some(Reencrypting) && to == Some(Retiring) && a.SavePass?)
    || (from == Some(Retiring) && to == Some(Reencrypting) && a.Retire?)
    || (from == Some(Retiring) && to == Some(Done) && a.SaveDone?)
    || ((from == Some(Adding) || from == Some(Retiring)) && to == Some(Failed) && a.RingInvalid?)
  }

  /** What is done by anyone but the copy that holds the lock. */
  predicate Outside(a: Action) {
    a.WriterSave? || a.WriterDelete? || a.RequestRotation? || a.MarkCompromised? || a.ActivateAnyway?
  }

  predicate Preparing(a: Action) {
    a.Load? || a.Crash? || a.Note? || a.ReadRing? || a.RingInvalid? || a.RecordKids? || a.WriteNewKey? || a.SaveAdded?
  }

  lemma EdgeOfPreparing(w: World, a: Action)
    requires Control(w) && Preparing(a)
    ensures Edge(PhaseOf(w), PhaseOf(Apply(w, a)), a)
  {
  }

  lemma EdgeOfRotating(w: World, a: Action)
    requires Control(w) && !Outside(a) && !Preparing(a)
    ensures Edge(PhaseOf(w), PhaseOf(Apply(w, a)), a)
  {
  }

  lemma EdgeOfStep(w: World, a: Action)
    requires Control(w)
    ensures Edge(PhaseOf(w), PhaseOf(Apply(w, a)), a)
  {
    if Preparing(a) { EdgeOfPreparing(w, a); }
    else if !Outside(a) { EdgeOfRotating(w, a); }
  }

  lemma OnlyStartPassStarts(w: World, a: Action)
    requires !w.job.Passing? && !a.StartPass?
    ensures !Apply(w, a).job.Passing?
  {
  }

  /**
   * A pass begins only once every live copy, at least one, encrypts with the new key, and this one does; it
   * begins at the first row.
   */
  lemma PassWaits(w: World, a: Action)
    requires Control(w) && Apply(w, a).job.Passing? && !w.job.Passing?
    ensures var job := Apply(w, a).job;
            && a.StartPass? && a.beats != [] && a.cipherKid == w.state.activeKid == Some(job.target)
            && (forall b :: b in a.beats ==> job.target in b.kids && b.encrypting == Some(job.target))
            && job.counts == map[] && job.complete && job.source == 0 && job.last == None && job.todo == []
  {
    if !a.StartPass? { OnlyStartPassStarts(w, a); }
  }

  /**
   * A rotation retires only after a pass over all rows all of whose changes were saved, with that pass's
   * counts; it goes back only for a key the recount found in use; and it is done only once the ring is
   * written or there was nothing to remove.
   */
  lemma RetiringWaits(w: World, a: Action)
    requires Control(w) && PhaseOf(Apply(w, a)) != PhaseOf(w)
    ensures PhaseOf(Apply(w, a)) == Some(Retiring) ==>
              && w.job.Passing? && w.job.complete && w.job.todo == [] && w.job.source >= w.config.sources
              && Apply(w, a).state.kidUsage == Some(w.job.counts)
    ensures PhaseOf(w) == Some(Retiring) && PhaseOf(Apply(w, a)) == Some(Reencrypting) ==>
              w.job.Recounting? && Apply(w, a).state.kidUsage == Some(w.job.counts)
                && exists k :: k in w.job.removable && At(w.job.counts, k) > 0
    ensures PhaseOf(Apply(w, a)) == Some(Done) ==> w.job.Retired?
  {
    EdgeOfStep(w, a);
  }

  /**
   * What an administrator can do at any time: begin a rotation exactly when none is under way, report the old key
   * compromised exactly while one is, and have the new key activated exactly while that is being waited for.
   */
  lemma AdministratorActs(w: World)
    ensures var w' := Apply(w, RequestRotation);
            if PhaseOf(w) in {None, Some(Done), Some(Failed)}
            then w'.state.rotation == Some(Rotation(Adding, None, None, false)) && w'.added == 0
                   && w'.state.activeKid == w.state.activeKid && w'.ring == w.ring
            else w' == w
    ensures var w' := Apply(w, MarkCompromised);
            if PhaseOf(w) in {None, Some(Done), Some(Failed)} then w' == w
            else w'.state.rotation == Some(w.state.rotation.value.(compromised := true)) && w'.ring == w.ring
                   && w'.state.activeKid == w.state.activeKid
    ensures var w' := Apply(w, ActivateAnyway);
            if PhaseOf(w) == Some(Activating) && w.state.rotation.value.kid.Some?
            then PhaseOf(w') == Some(Reencrypting) && w'.state.activeKid == w.state.rotation.value.kid
            else w' == w
  {
  }

  /** The step under way goes by the state row as it is. */
  predicate Current(w: World) { !w.job.Idle? && w.job.st.version == w.state.version }

  /**
   * A step that crashes, waits or loses its race ends with nothing changed but the state row's version, and the
   * next one starts from the row as it is, if there is a rotation at all.
   */
  lemma StepsStartOver(w: World)
    ensures Apply(w, Crash) == w.(job := Idle)
    ensures !w.job.Idle? ==>
              Apply(w, Note) == w.(job := Idle, state := if Current(w) then w.job.st.(version := w.state.version + 1)
                                                         else w.state)
    ensures w.job.Idle? ==> Apply(w, Load) == if PhaseOf(w).None? then w else w.(job := Loaded(w.state))
    ensures w.job.AddWritten? && w.job.st.rotation.Some? && !Current(w) ==> Apply(w, SaveAdded) == w.(job := Idle)
  {
  }

  /**
   * What a step whose save goes through decides: it activates or begins a pass exactly when every live copy is
   * ready for it; a pass goes on to retiring exactly if it is complete, and with its counts; a recount goes back
   * exactly if it found a key in use after all, and with its own.
   */
  lemma StepDecides(w: World, beats: seq<Beat>, cipherKid: Option<Kid>)
    requires Control(w) && Current(w)
    ensures w.job.Loaded? && PhaseOf(w) == Some(Activating) ==>
              var kid, w' := w.state.rotation.value.kid, Apply(w, Activate(beats));
              && kid.Some? && w'.ring == w.ring && w'.job.Idle?
              && (PhaseOf(w') == Some(Reencrypting) && w'.state.activeKid == kid <==>
                    beats != [] && forall b :: b in beats ==> kid.value in b.kids)
    ensures w.job.Loaded? && PhaseOf(w) == Some(Reencrypting) ==>
              var kid, w' := w.state.activeKid, Apply(w, StartPass(beats, cipherKid));
              && kid.Some?
              && (w'.job.Passing? <==>
                    && beats != [] && cipherKid == kid
                    && forall b :: b in beats ==> kid.value in b.kids && b.encrypting == kid)
    ensures w.job.Passing? && w.job.todo == [] && w.job.source >= w.config.sources ==>
              var w' := Apply(w, SavePass);
              && w'.state.kidUsage == Some(w.job.counts) && w'.job.Idle?
              && PhaseOf(w') == Some(if w.job.complete then Retiring else Reencrypting)
    ensures w.job.Recounting? && w.job.source >= w.config.sources ==>
              var w', found := Apply(w, Retire), exists k :: k in w.job.removable && At(w.job.counts, k) > 0;
              && (w'.job.Retired? <==> !found) && (found ==> PhaseOf(w') == Some(Reencrypting) && w'.ring == w.ring)
              && (found ==> w'.state.kidUsage == Some(w.job.counts))
    ensures w.job.Loaded? && (PhaseOf(w) == Some(Adding) || PhaseOf(w) == Some(Retiring)) ==>
              PhaseOf(Apply(w, RingInvalid)) == Some(Failed)
  {
  }

  /**
   * Whenever a rotation is done, no key is left in the ring but the active one and those the last pass counted an
   * envelope under.
   */
  lemma DoneLeavesNoUnusedKey(w: World, actions: seq<Action>, a: Action, k: Kid)
    requires AtRest(w) && PhaseOf(Run(w, actions)) == Some(Retiring) && PhaseOf(Run(w, actions + [a])) == Some(Done)
    requires k in Run(w, actions + [a]).ring.keys
    ensures var state := Run(w, actions + [a]).state;
            Some(k) == state.activeKid || (state.kidUsage.Some? && At(state.kidUsage.value, k) > 0)
  {
    Reachable(w, actions);
    RunAppend(w, actions, [a]);
    var w1 := Run(w, actions);
    assert Run(w1, [a]) == Run(Apply(w1, a), []) == Apply(w1, a);
    EdgeOfStep(w1, a);
  }

  /**
   * A row of a pass is counted once, as the pass leaves it, and keeps the pass complete only if nothing in it
   * is left to re-seal.
   */
  lemma PassRowCounts(w: World, cipher: string -> Outcome, save: Save)
    requires Inv(w) && w.job.Passing? && w.job.todo != []
    ensures var w', read := ApplyPassRow(w, cipher, save), w.job.todo[0];
            var after := RowAfter(w.rows, read.key, read.row, w.job.target, cipher, save);
            var left := if after.Some? then after.value else read.row;
            && Counted(w.job.counts, w'.job.counts, Envelopes(left.credentials))
            && w'.job.todo == w.job.todo[1..]
                 && (w'.job.complete ==> w.job.complete && RowDone(read.key, left, w.job.target, cipher))
            && w'.rows == if after.Some? then w.rows[read.key := after.value] else w.rows
  {
    var read := w.job.todo[0];
    assert ReadOk(w, read);
    RowIsDone(w.rows, read.key, read.row, w.job.target, cipher, save);
  }

  /**
   * The active key changes only once every live copy, at least one, has loaded the new key, or because the
   * administrator says so.
   */
  predicate MayActivate(a: Action, kid: Kid) {
    || a.ActivateAnyway?
    || (a.Activate? && a.beats != [] && forall b :: b in a.beats ==> kid in b.kids)
  }

  /** A save of the state row as it was read keeps the active key. */
  predicate StateOk(w: World) {
    !w.job.Idle? ==> (w.job.st.version == w.state.version ==> w.job.st == w.state)
  }

  lemma OthersKeepActive(w: World, a: Action)
    requires StateOk(w) && !a.Activate? && !a.ActivateAnyway?
    ensures Apply(w, a).state.activeKid == w.state.activeKid
  {
  }

  lemma ActivationOfStep(w: World, a: Action)
    requires Control(w)
    ensures var active := Apply(w, a).state.activeKid;
            active != w.state.activeKid ==>
              active.Some? && MayActivate(a, active.value) && PhaseOf(w) == Some(Activating)
  {
    match a
    case Activate(_) =>
    case ActivateAnyway =>
    case _ => OthersKeepActive(w, a);
  }

  /**
   * A key enters the ring only as the one key the rotation under way adds; the count starts over with a new
   * rotation.
   */
  lemma NewKeyIsCounted(w: World, a: Action, kid: Kid)
    requires Control(w)
    ensures kid in Apply(w, a).ring.keys && kid !in w.ring.keys ==>
              a.WriteNewKey? && w.added == 0 && Apply(w, a).added == 1
    ensures Apply(w, a).added < w.added ==> a.RequestRotation? && PhaseOf(w) in {None, Some(Done), Some(Failed)}
  {
    AddedStartsOver(w, a);
    if a.WriteNewKey? {
      WriteAddsOne(w, a.kid, kid);
    } else if !a.Retire? {
      OthersKeepRing(w, a);
    }
  }

  lemma WriteAddsOne(w: World, fresh': Kid, kid: Kid)
    requires Control(w)
    ensures var w' := ApplyWriteNewKey(w, fresh');
            kid in w'.ring.keys && kid !in w.ring.keys ==> w.added == 0 && w'.added == 1
  {
    ControlOnWriteNewKey(w, fresh');
  }

  lemma AddedStartsOver(w: World, a: Action)
    ensures Apply(w, a).added < w.added ==> a.RequestRotation? && PhaseOf(w) in {None, Some(Done), Some(Failed)}
  {
  }

  /**
   * At every point of every run: the active key is in the ring, the rotation has added at most one key,
   * and the next action takes a documented edge and changes the active key only as it may.
   */
  lemma RotationIsOrderly(w: World, actions: seq<Action>, a: Action)
    requires AtRest(w)
    ensures var w1, w2 := Run(w, actions), Run(w, actions + [a]);
            && ActiveInRing(w1) && w1.added <= 1
            && Edge(PhaseOf(w1), PhaseOf(w2), a)
            && (w2.state.activeKid != w1.state.activeKid ==>
                  w2.state.activeKid.Some? && MayActivate(a, w2.state.activeKid.value)
                    && PhaseOf(w1) == Some(Activating))
  {
    Reachable(w, actions);
    var w1 := Run(w, actions);
    RunAppend(w, actions, [a]);
    assert Run(w1, [a]) == Run(Apply(w1, a), []) == Apply(w1, a);
    EdgeOfStep(w1, a);
    ActivationOfStep(w1, a);
  }
}
