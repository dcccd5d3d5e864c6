/** What every run of the configuration key rotation keeps. */
module KeyRotationSafety {
  import opened Options
  import opened Keyset
  import opened ConfigEnvelopes
  import opened ReencryptionPass
  import opened KeyRotation

  // ---- the invariant ----

  ghost predicate RowsOk(w: World) {
    && w.config.limit >= 1
    && forall k :: k in w.rows ==> 0 <= k.at < w.config.sources && k in w.issued && Distinct(w.rows[k].credentials)
  }

  ghost predicate ActiveInRing(w: World) {
    w.state.activeKid.Some? ==> w.state.activeKid.value in w.ring.keys
  }

  /** While adding: the ring is what was recorded, or that and the one key this rotation added. */
  ghost predicate OneKeyAdded(ring: Ring, recorded: seq<Kid>, added: nat) {
    || (added == 0 && ring.keys == recorded)
    || (added == 1 && ring.keys != [] && ring.keys[..|ring.keys| - 1] == recorded
         && ring.keys[|ring.keys| - 1] !in recorded)
  }

  ghost predicate PhaseOk(w: World) {
    && w.added <= 1
    && (w.state.rotation.Some? ==>
      var r := w.state.rotation.value;
      && (r.phase == Adding ==> if r.keyringKids.None? then w.added == 0
           else OneKeyAdded(w.ring, r.keyringKids.value, w.added))
      && (r.phase == Activating ==> r.kid.Some? && r.kid.value in w.ring.keys)
      && (r.phase == Reencrypting || r.phase == Retiring ==> r.kid.Some? && w.state.activeKid == r.kid))
  }

  /** The state row still says what the step read, but for the compromised flag. */
  ghost predicate Stable(st: State, state: State, phase: Phase) {
    && InPhase(st, phase) && InPhase(state, phase)
    && st.activeKid == state.activeKid && st.kidUsage == state.kidUsage
    && st.rotation.value.(compromised := true) == state.rotation.value.(compromised := true)
  }

  /** A row read earlier that still has its version is still the row. */
  ghost predicate ReadOk(w: World, read: Read) {
    && read.key in w.issued && Distinct(read.row.credentials)
    && (read.key in w.rows ==>
          && read.row.version <= w.rows[read.key].version
          && (read.row.version == w.rows[read.key].version ==> read.row == w.rows[read.key]))
  }

  ghost predicate ReadsOk(w: World) {
    w.job.Passing? ==> forall i :: 0 <= i < |w.job.todo| ==> ReadOk(w, w.job.todo[i])
  }

  /** The active key, and any the last pass counted an envelope under. */
  predicate Kept(state: State, k: Kid) {
    Some(k) == state.activeKid || (state.kidUsage.Some? && At(state.kidUsage.value, k) > 0)
  }

  ghost predicate JobOk(w: World) {
    && (!w.job.Idle? ==> w.job.st.version <= w.state.version)
    && (!w.job.Idle? && w.job.st.version == w.state.version ==> w.job.st == w.state)
    && match w.job
       case Idle => true
       case Loaded(st) =>
         && (InPhase(st, Adding) ==> Stable(st, w.state, Adding))
         && (InPhase(st, Reencrypting) ==> Stable(st, w.state, Reencrypting))
         && (InPhase(st, Retiring) ==> Stable(st, w.state, Retiring))
       case AddReady(st, snap) => Stable(st, w.state, Adding) && snap == w.ring
       case AddWritten(st, kid) => Stable(st, w.state, Adding) && w.added == 1 && kid in w.ring.keys
       case Passing(st, target, _, _, _, _, _) => Stable(st, w.state, Reencrypting) && w.state.activeKid == Some(target)
       case Recounting(st, snap, removable, source, last, _) =>
         && Stable(st, w.state, Retiring) && snap == w.ring
         && (last.Some? ==> last.value.at == source) && w.state.kidUsage.Some?
         && (forall k :: k in removable <==> k in w.ring.keys && !Kept(w.state, k))
       case Retired(st) => Stable(st, w.state, Retiring) && forall k :: k in w.ring.keys ==> Kept(w.state, k)
  }

  /** The keyring, the state row and the step under way agree. */
  ghost predicate Control(w: World) {
    ActiveInRing(w) && PhaseOk(w) && JobOk(w)
  }

  /** The rows are well formed, and what was read of them still holds. */
  ghost predicate Data(w: World) {
    RowsOk(w) && ReadsOk(w)
  }

  ghost predicate Inv(w: World) { Control(w) && Data(w) }

  // ---- rows ----

  lemma SameIndex(a: seq<Slot>, b: seq<Slot>, name: string)
    requires |a| == |b| && forall i :: 0 <= i < |a| ==> a[i].name == b[i].name
    ensures IndexOf(a, name) == IndexOf(b, name)
  {
    if a != [] && a[0].name != name { SameIndex(a[1..], b[1..], name); }
  }

  /** Re-encrypting a row under a key of the ring keeps what every field of it opens to. */
  lemma ReencryptedOpens(kids: set<Kid>, key: Key, slots: seq<Slot>, target: Kid, cipher: string -> Outcome,
                         name: string)
    requires Distinct(slots) && target in kids
    ensures var secret := OpenIn(kids, key, slots, name);
            secret.Some? ==> OpenIn(kids, key, Reencrypted(slots, key.at, key.uid, target, cipher), name) == secret
  {
    var slots' := Reencrypted(slots, key.at, key.uid, target, cipher);
    forall i | 0 <= i < |slots| ensures slots[i].name == slots'[i].name {
      ReencryptedExactly(slots, key.at, key.uid, target, cipher, i);
    }
    SameIndex(slots, slots', name);
    var i := IndexOf(slots, name);
    if i < |slots| { ReencryptedExactly(slots, key.at, key.uid, target, cipher, i); }
  }

  // ---- one action at a time ----

  /** Rows stay as they are, and no pass reads more of them. */
  ghost predicate SameData(w: World, w': World) {
    && w'.rows == w.rows && w'.issued == w.issued && w'.config == w.config
    && (w'.job.Passing? ==> w'.job.todo == [] || (w.job.Passing? && w'.job.todo == w.job.todo))
  }

  lemma DataFrame(w: World, w': World)
    requires Data(w) && SameData(w, w')
    ensures Data(w')
  {
    if w'.job.Passing? && w'.job.todo != [] {
      forall i | 0 <= i < |w'.job.todo| ensures ReadOk(w', w'.job.todo[i]) { assert ReadOk(w, w.job.todo[i]); }
    }
  }

  /** What the administrator does to the state row. */
  lemma ControlOnRequests(w: World, a: Action)
    requires Control(w) && (a.RequestRotation? || a.MarkCompromised? || a.ActivateAnyway?)
    ensures Control(Apply(w, a))
  {
  }

  /** The saves that end a step. */
  lemma ControlOnSaves(w: World, a: Action)
    requires Control(w) && (a.Note? || a.RingInvalid? || a.SaveAdded? || a.SavePass? || a.SaveDone?)
    ensures Control(Apply(w, a))
  {
  }

  /** The beginning of a step, and what it reads of the ring. */
  lemma ControlOnReads(w: World, a: Action)
    requires Control(w) && (a.Load? || a.ReadRing? || a.RecordKids?)
    ensures Control(Apply(w, a))
  {
    if a.ReadRing? && w.job.Loaded? && w.state.activeKid.Some? && w.state.kidUsage.Some? {
      RemovableAreNotKept(w.ring, w.state, w.state.activeKid.value, w.state.kidUsage.value);
    }
  }

  lemma RemovableAreNotKept(ring: Ring, state: State, active: Kid, usage: Counts)
    requires state.activeKid == Some(active) && state.kidUsage == Some(usage)
    ensures forall k :: k in ring.keys && !Kept(state, k) <==> k in Removable(ring, active, usage)
  {
  }

  /** The steps that wait for every copy, and the ring without the keys recounted. */
  lemma ControlOnWaits(w: World, a: Action)
    requires Control(w) && (a.Activate? || a.StartPass? || a.Retire?)
    ensures Control(Apply(w, a))
  {
  }

  lemma OwnKeyIs(ring: Ring, recorded: seq<Kid>, added: nat)
    requires OneKeyAdded(ring, recorded, added)
    ensures OwnKey(ring, recorded).None? <==> added == 0
    ensures added == 1 ==> OwnKey(ring, recorded).value in ring.keys
  {
    var gone := set k | k in recorded;
    var own := Without(ring.keys, gone);
    if added == 0 {
      assert forall i :: 0 <= i < |own| ==> own[i] in own;
    } else {
      assert ring.keys[|ring.keys| - 1] in own;
      assert own[|own| - 1] in own;
    }
  }

  lemma ControlOnWriteNewKey(w: World, kid: Kid)
    requires Control(w)
    ensures Control(ApplyWriteNewKey(w, kid))
  {
    if w.job.AddReady? && w.job.st.rotation.value.keyringKids.Some? {
      OwnKeyIs(w.ring, w.job.st.rotation.value.keyringKids.value, w.added);
    }
  }

  lemma DataOnPassPage(w: World)
    requires Data(w)
    ensures Data(ApplyPassPage(w))
  {
    var w' := ApplyPassPage(w);
    DataFrame(w, w'.(job := w.job));
    if w.job.Passing? && w'.job != w.job {
      forall i | 0 <= i < |w'.job.todo| ensures ReadOk(w', w'.job.todo[i]) {
        var k := NextPage(w, w.job.source, w.job.last)[i];
        assert k in w.rows;
      }
    }
  }

  lemma DataOnPassRow(w: World, cipher: string -> Outcome, save: Save)
    requires Inv(w)
    ensures Data(ApplyPassRow(w, cipher, save))
  {
    if w.job.Passing? && w.job.todo != [] {
      var w' := ApplyPassRow(w, cipher, save);
      var read := w.job.todo[0];
      assert ReadOk(w, read);
      RowKeepsShape(w.rows, read.key, read.row, w.job.target, cipher, save);
      forall i | 0 <= i < |w'.job.todo| ensures ReadOk(w', w'.job.todo[i]) {
        assert ReadOk(w, w.job.todo[i + 1]);
      }
    }
  }

  /** A page read puts every row it passes in the page. */
  lemma PassedIsRead(w: World, source: nat, last: Option<Key>, k: Key)
    requires w.config.limit >= 1 && k in w.rows && (last.Some? ==> last.value.at == source)
    requires var page := NextPage(w, source, last); Passed(k, NextSource(w, source, page), NextLast(w, last, page))
    ensures Passed(k, source, last) || k in NextPage(w, source, last)
  {
    if k.at == source && After(k, last) {
      PageCovers(SourceKeys(w.rows.Keys, source), last, w.config.limit, k);
    }
  }

  lemma ControlOnRecountPage(w: World)
    requires Control(w)
    ensures Control(ApplyRecountPage(w))
  {
    if w.job.Recounting? {
      var page := NextPage(w, w.job.source, w.job.last);
      if page != [] { assert page[|page| - 1] in page; }
    }
  }

  lemma OthersKeepRing(w: World, a: Action)
    requires !a.Retire? && !a.WriteNewKey?
    ensures Apply(w, a).ring == w.ring
  {
  }

  /** Only the end of a recount takes a key out of the ring, one neither the last pass nor the recount counted. */
  lemma OnlyRetireRemoves(w: World, a: Action, gone: Kid)
    requires JobOk(w) && gone in w.ring.keys && gone !in Apply(w, a).ring.keys
    ensures a.Retire? && w.job.Recounting? && w.job.source >= w.config.sources && gone in w.job.removable
    ensures !Kept(w.state, gone) && At(w.job.counts, gone) == 0
  {
    if !a.Retire? && !a.WriteNewKey? { OthersKeepRing(w, a); }
  }

  lemma DataOnWriterDelete(w: World, key: Key)
    requires Data(w)
    ensures Data(ApplyWriterDelete(w, key))
  {
    var w' := ApplyWriterDelete(w, key);
    if w.job.Passing? {
      forall i | 0 <= i < |w'.job.todo| ensures ReadOk(w', w'.job.todo[i]) { assert ReadOk(w, w.job.todo[i]); }
    }
  }

  lemma DataOnWriterSave(w: World, key: Key, slots: seq<Slot>)
    requires Data(w)
    ensures Data(ApplyWriterSave(w, key, slots))
  {
    var w' := ApplyWriterSave(w, key, slots);
    if w.job.Passing? {
      forall i | 0 <= i < |w'.job.todo| ensures ReadOk(w', w'.job.todo[i]) { assert ReadOk(w, w.job.todo[i]); }
    }
  }

  /** Every action keeps the keyring, the state row and the step under way in agreement, however writers seal. */
  lemma ControlKeeps(w: World, a: Action)
    requires Control(w)
    ensures Control(Apply(w, a))
  {
    match a
    case WriteNewKey(kid) => ControlOnWriteNewKey(w, kid);
    case RecountPage => ControlOnRecountPage(w);
    case RequestRotation | MarkCompromised | ActivateAnyway => ControlOnRequests(w, a);
    case Note | RingInvalid | SaveAdded | SavePass | SaveDone => ControlOnSaves(w, a);
    case Load | ReadRing | RecordKids => ControlOnReads(w, a);
    case Activate(_) | StartPass(_, _) | Retire => ControlOnWaits(w, a);
    case _ =>
  }

  /** The actions that write rows or go on with a pass. */
  predicate Moves(a: Action) { a.PassPage? || a.PassRow? || a.WriterSave? || a.WriterDelete? }

  lemma OthersKeepData(w: World, a: Action)
    requires !Moves(a)
    ensures SameData(w, Apply(w, a))
  {
  }

  lemma DataKeeps(w: World, a: Action)
    requires Inv(w)
    ensures Data(Apply(w, a))
  {
    match a
    case PassPage => DataOnPassPage(w);
    case PassRow(cipher, save) => DataOnPassRow(w, cipher, save);
    case WriterSave(key, slots) => DataOnWriterSave(w, key, slots);
    case WriterDelete(key) => DataOnWriterDelete(w, key);
    case _ =>
      OthersKeepData(w, a);
      DataFrame(w, Apply(w, a));
  }

  /** Every action keeps the invariant, however writers seal. */
  lemma Keeps(w: World, a: Action)
    requires Inv(w)
    ensures Inv(Apply(w, a))
  {
    ControlKeeps(w, a);
    DataKeeps(w, a);
  }

  // ---- what a recount has not seen ----

  /** The recount found one of the keys it is to remove in use after all. */
  predicate FoundInUse(job: Job)
    requires job.Recounting?
  {
    exists k :: k in job.removable && At(job.counts, k) > 0
  }

  /**
   * The recount is past row `key` and has counted no removable key, yet in `slots` the field `name` is sealed
   * under one.
   */
  predicate Overlooked(job: Job, key: Key, slots: seq<Slot>, name: string) {
    && job.Recounting? && Passed(key, job.source, job.last) && !FoundInUse(job)
    && EnvelopeIn(slots, name).Some? && EnvelopeIn(slots, name).value.kid in job.removable
  }

  /** The recount under way, if any, has not overlooked what is stored at `p`. */
  predicate Seen(w: World, p: Place) {
    p.key in w.rows ==> !Overlooked(w.job, p.key, w.rows[p.key].credentials, p.name)
  }

  /** A save of a removable key behind the recount's back. */
  predicate LateSave(w: World, a: Action, p: Place) {
    a.WriterSave? && a.key == p.key && WriterMay(w, a.key, a.slots) && Overlooked(w.job, a.key, a.slots, p.name)
  }

  lemma InRow(slots: seq<Slot>, name: string)
    requires EnvelopeIn(slots, name).Some?
    ensures exists r :: r in Envelopes(slots) && r.envelope == EnvelopeIn(slots, name).value
  {
    var s := slots[IndexOf(slots, name)];
    RefOfSlot(slots, s);
    assert Ref(Path(s), s.value.envelope).envelope == EnvelopeIn(slots, name).value;
  }

  /** Another page of the recount overlooks nothing in the rows it goes past. */
  lemma RecountSees(w: World, p: Place)
    requires RowsOk(w) && JobOk(w) && Seen(w, p) && w.job.Recounting? && w.job.source < w.config.sources
    ensures Seen(ApplyRecountPage(w), p)
  {
    var job, page := ApplyRecountPage(w).job, NextPage(w, w.job.source, w.job.last);
    CountPageCovers(w.job.counts, w.rows, page);
    if p.key in w.rows && Overlooked(job, p.key, w.rows[p.key].credentials, p.name) {
      PassedIsRead(w, w.job.source, w.job.last, p.key);
      InRow(w.rows[p.key].credentials, p.name);
    }
  }

  lemma OthersSee(w: World, a: Action, p: Place)
    requires RowsOk(w) && !Moves(a) && !a.RecountPage? && Seen(w, p)
    ensures Seen(Apply(w, a), p)
  {
  }

  /** A pass runs at another time than a recount, and what is deleted is not overlooked. */
  lemma PassesSee(w: World, a: Action, p: Place)
    requires Seen(w, p) && (a.PassPage? || a.PassRow? || a.WriterDelete?)
    ensures Seen(Apply(w, a), p)
  {
  }

  lemma SaveSeesIff(w: World, key: Key, slots: seq<Slot>, p: Place)
    requires Seen(w, p)
    ensures Seen(ApplyWriterSave(w, key, slots), p) <==> !LateSave(w, WriterSave(key, slots), p)
  {
  }

  /** An action overlooks what is stored at a place exactly when it is a late save there. */
  lemma SeenIff(w: World, a: Action, p: Place)
    requires Inv(w) && Seen(w, p)
    ensures Seen(Apply(w, a), p) <==> !LateSave(w, a, p)
  {
    if a.WriterSave? {
      SaveSeesIff(w, a.key, a.slots, p);
    } else if Moves(a) {
      PassesSee(w, a, p);
    } else if !a.RecountPage? {
      OthersSee(w, a, p);
    } else if w.job.Recounting? && w.job.source < w.config.sources {
      RecountSees(w, p);
    }
  }

  /** The keys a finished recount found unused are not those of what it has seen. */
  lemma RecountedKeysUnused(w: World, p: Place)
    requires Inv(w) && Seen(w, p) && w.job.Recounting? && w.job.source >= w.config.sources && !FoundInUse(w.job)
    requires p.key in w.rows && EnvelopeIn(w.rows[p.key].credentials, p.name).Some?
    ensures EnvelopeIn(w.rows[p.key].credentials, p.name).value.kid !in w.job.removable
  {
    assert Passed(p.key, w.job.source, w.job.last);
  }

  /** A key leaves the ring only when the envelopes it sealed were overlooked. */
  lemma NoSeenKeyLeaves(w: World, a: Action, p: Place)
    requires Inv(w) && Seen(w, p) && p.key in w.rows && EnvelopeIn(w.rows[p.key].credentials, p.name).Some?
    ensures var kid := EnvelopeIn(w.rows[p.key].credentials, p.name).value.kid;
            kid in w.ring.keys ==> kid in Apply(w, a).ring.keys
  {
    var kid := EnvelopeIn(w.rows[p.key].credentials, p.name).value.kid;
    if kid in w.ring.keys && kid !in Apply(w, a).ring.keys {
      OnlyRetireRemoves(w, a, kid);
      RecountedKeysUnused(w, p);
    }
  }

  // ---- what a secret opens to ----

  predicate Writes(a: Action, key: Key) {
    (a.WriterSave? || a.WriterDelete?) && a.key == key
  }

  lemma OthersKeepRow(w: World, a: Action, key: Key)
    requires !Writes(a, key) && !a.PassRow? && key in w.rows
    ensures key in Apply(w, a).rows && Apply(w, a).rows[key] == w.rows[key]
  {
  }

  /** A row of the pass keeps every secret. */
  lemma PassRowKeepsSecret(w: World, cipher: string -> Outcome, save: Save, p: Place)
    requires Inv(w) && Secret(w, p).Some?
    ensures Secret(ApplyPassRow(w, cipher, save), p) == Secret(w, p)
  {
    if w.job.Passing? && w.job.todo != [] {
      var read := w.job.todo[0];
      assert ReadOk(w, read);
      if p.key == read.key {
        ReencryptedOpens(RingSet(w.ring), read.key, read.row.credentials, w.job.target, cipher, p.name);
      }
    }
  }

  /** What is not overlooked and not written opens to the same after any action. */
  lemma SecretKept(w: World, a: Action, p: Place)
    requires Inv(w) && Seen(w, p) && Secret(w, p).Some? && !Writes(a, p.key)
    ensures Secret(Apply(w, a), p) == Secret(w, p)
  {
    if a.PassRow? {
      PassRowKeepsSecret(w, a.cipher, a.save, p);
    } else {
      OthersKeepRow(w, a, p.key);
      NoSeenKeyLeaves(w, a, p);
    }
  }
}
