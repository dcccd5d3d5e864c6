/**
 * The configuration key rotation as a state machine over three stores: the keyring, the state row and
 * the rows of sealed envelopes. Every action is one round trip to a store; row writers and the
 * administrator act between any two of them, and the copy doing the work may stop at any point
 * (`Crash`). The lock is exclusive: one copy steps at a time, so there is one `job`.
 */
module KeyRotation {
  import opened Options
  import opened Keyset
  import opened ConfigEnvelopes
  import opened ReencryptionPass

  datatype Phase = Adding | Activating | Reencrypting | Retiring | Done | Failed

  datatype Rotation = Rotation(phase: Phase, kid: Option<Kid>, keyringKids: Option<seq<Kid>>, compromised: bool)

  /** The state row. Notes for the console (`lastError`, `waitingFor`, dates) only bump its version. */
  datatype State = State(version: nat, activeKid: Option<Kid>, kidUsage: Option<Counts>, rotation: Option<Rotation>)

  datatype Ring = Ring(version: nat, keys: seq<Kid>)

  /** A server copy's heartbeat: the keys it has loaded and the one it encrypts with. */
  datatype Beat = Beat(kids: set<Kid>, encrypting: Option<Kid>)

  datatype Read = Read(key: Key, row: Row)

  /** Where the copy holding the lock stands, with what it has read so far. */
  datatype Job =
    | Idle
    | Loaded(st: State)
    | AddReady(st: State, snap: Ring)
    | AddWritten(st: State, kid: Kid)
    | Passing(st: State, target: Kid, source: nat, last: Option<Key>, todo: seq<Read>, counts: Counts, complete: bool)
    | Recounting(st: State, snap: Ring, removable: set<Kid>, source: nat, last: Option<Key>, counts: Counts)
    | Retired(st: State)

  /** `sources` record types paged `limit` rows at a time. */
  datatype Config = Config(sources: nat, limit: nat)

  /** One field of one row. */
  datatype Place = Place(key: Key, name: string)

  /**
   * `issued` are the uids ever given to a row (a new row gets a new one), `added` how many keys the current
   * rotation has put in the ring.
   */
  datatype World = World(config: Config, ring: Ring, state: State, rows: map<Key, Row>, job: Job, issued: set<Key>,
                         added: nat)

  datatype Action =
    | Load
    | Crash
    /** A note on the state row and the step ends: an unreadable keyring, heartbeats or recount, copies waited for. */
    | Note
    | ReadRing
    /** The keyring can't be parsed. */
    | RingInvalid
    | RecordKids
    | WriteNewKey(kid: Kid)
    | SaveAdded
    | Activate(beats: seq<Beat>)
    | StartPass(beats: seq<Beat>, cipherKid: Option<Kid>)
    | PassPage
    | PassRow(cipher: string -> Outcome, save: Save)
    | SavePass
    | RecountPage
    | Retire
    | SaveDone
    | WriterSave(key: Key, slots: seq<Slot>)
    | WriterDelete(key: Key)
    | RequestRotation
    | MarkCompromised
    | ActivateAnyway

  // ---- helpers ----

  function RingSet(ring: Ring): (kids: set<Kid>) { set k | k in ring.keys }

  predicate Finished(r: Rotation) { r.phase == Done || r.phase == Failed }

  /** A versioned update of the state row by a step that read `st`; a lost race ends the step. */
  function SaveState(w: World, st: State, to: State, next: Job): (w': World) {
    if st.version == w.state.version
    then w.(state := to.(version := st.version + 1), job := next)
    else w.(job := Idle)
  }

  function WithPhase(st: State, phase: Phase): (st': State)
    requires st.rotation.Some?
  {
    st.(rotation := Some(st.rotation.value.(phase := phase)))
  }

  predicate InPhase(st: State, phase: Phase) { st.rotation.Some? && st.rotation.value.phase == phase }

  /** The context an envelope in `name` of row `key` is bound to. */
  function Where(key: Key, name: string): Context { Context(key.at, key.uid, PREFIX + name) }

  /** The page a pass at `(source, last)` reads next, and where it stands afterwards. */
  function NextPage(w: World, source: nat, last: Option<Key>): (page: seq<Key>)
    ensures forall k :: k in page ==> k in w.rows
  {
    Page(SourceKeys(w.rows.Keys, source), last, w.config.limit)
  }

  function NextSource(w: World, source: nat, page: seq<Key>): nat {
    if |page| < w.config.limit then source + 1 else source
  }

  function NextLast(w: World, last: Option<Key>, page: seq<Key>): Option<Key> {
    if |page| < w.config.limit then None else Cursor(page, last)
  }

  predicate Passed(key: Key, source: nat, last: Option<Key>) {
    key.at < source || (key.at == source && !After(key, last))
  }

  function ReadsOf(rows: map<Key, Row>, page: seq<Key>): (found: seq<Read>)
    requires forall k :: k in page ==> k in rows
    ensures |found| == |page| && forall i :: 0 <= i < |page| ==> found[i] == Read(page[i], rows[page[i]])
  {
    if page == [] then [] else [Read(page[0], rows[page[0]])] + ReadsOf(rows, page[1..])
  }

  function CountInto(counts: Counts, refs: seq<Ref>): (r: Counts)
    ensures Counted(counts, r, refs)
  {
    if refs == [] then counts
    else Bump(CountInto(counts, refs[..|refs| - 1]), refs[|refs| - 1].envelope.kid, 1)
  }

  ghost predicate RowCounted(row: Row, counts: Counts) {
    forall e :: e in Envelopes(row.credentials) ==> At(counts, e.envelope.kid) > 0
  }

  function CountPageInto(counts: Counts, rows: map<Key, Row>, page: seq<Key>): (r: Counts)
    requires forall k :: k in page ==> k in rows
  {
    if page == [] then counts
    else CountInto(CountPageInto(counts, rows, page[..|page| - 1]), Envelopes(rows[page[|page| - 1]].credentials))
  }

  /** Counting a page keeps every count and covers the page. */
  lemma {:induction false} CountPageCovers(counts: Counts, rows: map<Key, Row>, page: seq<Key>)
    requires forall k :: k in page ==> k in rows
    ensures forall kid :: At(CountPageInto(counts, rows, page), kid) >= At(counts, kid)
    ensures forall k :: k in page ==> RowCounted(rows[k], CountPageInto(counts, rows, page))
  {
    if page != [] {
      var n := |page| - 1;
      assert page == page[..n] + [page[n]];
      CountPageCovers(counts, rows, page[..n]);
      var refs := Envelopes(rows[page[n]].credentials);
      forall e | e in refs ensures Using(refs, e.envelope.kid) > 0 { UsedInRow(refs, e.envelope.kid); }
    }
  }

  /** The keys no envelope was counted under, but for the active one. */
  function Removable(ring: Ring, active: Kid, usage: Counts): (kids: set<Kid>) {
    set k | k in ring.keys && k != active && At(usage, k) == 0
  }

  function Without(keys: seq<Kid>, gone: set<Kid>): (r: seq<Kid>)
    ensures forall k :: k in r <==> k in keys && k !in gone
  {
    if keys == [] then [] else (if keys[0] in gone then [] else [keys[0]]) + Without(keys[1..], gone)
  }

  /** The last key of the ring that was not there when this rotation recorded it. */
  function OwnKey(ring: Ring, recorded: seq<Kid>): (own: Option<Kid>) {
    var added := Without(ring.keys, set k | k in recorded);
    if added == [] then None else Some(added[|added| - 1])
  }

  // ---- writers ----

  /**
   * A writer keeps a value as it is or seals a new one for its place, under any key of the ring; the save is
   * version-checked, so what it keeps is current.
   */
  predicate WriterSlot(w: World, key: Key, s: Slot) {
    || s.value.Plain?
    || (key in w.rows && s in w.rows[key].credentials)
    || (s.value.envelope.kid in w.ring.keys && s.value.envelope.context == Where(key, s.name))
  }

  predicate WriterMay(w: World, key: Key, slots: seq<Slot>) {
    && 0 <= key.at < w.config.sources
    && (key in w.rows || key !in w.issued)
    && Distinct(slots)
    && forall s :: s in slots ==> WriterSlot(w, key, s)
  }

  /** The envelope in the field `name` of a row's `slots`. */
  function EnvelopeIn(slots: seq<Slot>, name: string): (e: Option<Envelope>) {
    var i := IndexOf(slots, name);
    if i < |slots| && slots[i].value.Sealed? then Some(slots[i].value.envelope) else None
  }

  /** What the field `name` of a row's `slots` opens to. */
  function OpenIn(kids: set<Kid>, key: Key, slots: seq<Slot>, name: string): (secret: Option<string>) {
    var e := EnvelopeIn(slots, name);
    if e.Some? then Open(kids, e.value, Where(key, name)) else None
  }

  /** What the place `p` opens to now. */
  function Secret(w: World, p: Place): (secret: Option<string>) {
    if p.key in w.rows then OpenIn(RingSet(w.ring), p.key, w.rows[p.key].credentials, p.name) else None
  }

  // ---- the actions ----

  /** The world after `a`; an action that is not enabled changes nothing. */
  function Apply(w: World, a: Action): (w': World) {
    match a
    case Load => ApplyLoad(w)
    case Crash => w.(job := Idle)
    case Note => ApplyNote(w)
    case ReadRing => ApplyReadRing(w)
    case RingInvalid => ApplyRingInvalid(w)
    case RecordKids => ApplyRecordKids(w)
    case WriteNewKey(kid) => ApplyWriteNewKey(w, kid)
    case SaveAdded => ApplySaveAdded(w)
    case Activate(beats) => ApplyActivate(w, beats)
    case StartPass(beats, cipherKid) => ApplyStartPass(w, beats, cipherKid)
    case PassPage => ApplyPassPage(w)
    case PassRow(cipher, save) => ApplyPassRow(w, cipher, save)
    case SavePass => ApplySavePass(w)
    case RecountPage => ApplyRecountPage(w)
    case Retire => ApplyRetire(w)
    case SaveDone => ApplySaveDone(w)
    case WriterSave(key, slots) => ApplyWriterSave(w, key, slots)
    case WriterDelete(key) => ApplyWriterDelete(w, key)
    case RequestRotation => ApplyRequest(w)
    case MarkCompromised => ApplyCompromised(w)
    case ActivateAnyway => ApplyActivateAnyway(w)
  }

  function ApplyLoad(w: World): (w': World) {
    if w.job.Idle? && w.state.rotation.Some? then w.(job := Loaded(w.state)) else w
  }

  function ApplyNote(w: World): (w': World) {
    if w.job.Idle? then w else SaveState(w, w.job.st, w.job.st, Idle)
  }

  function ApplyRingInvalid(w: World): (w': World) {
    if w.job.Loaded? && (InPhase(w.job.st, Adding) || InPhase(w.job.st, Retiring))
    then SaveState(w, w.job.st, WithPhase(w.job.st, Failed), Idle) else w
  }

  /** Records the keys the ring holds, before a new one is written. */
  function ApplyRecordKids(w: World): (w': World) {
    if w.job.AddReady? && w.job.st.rotation.Some? && w.job.st.rotation.value.keyringKids.None? then
      var to := w.job.st.(rotation := Some(w.job.st.rotation.value.(keyringKids := Some(w.job.snap.keys))));
      SaveState(w, w.job.st, to, AddReady(to.(version := w.job.st.version + 1), w.job.snap))
    else w
  }

  function ApplySaveAdded(w: World): (w': World) {
    if w.job.AddWritten? && w.job.st.rotation.Some? then
      var rotation := w.job.st.rotation.value.(phase := Activating, kid := Some(w.job.kid), keyringKids := None);
      SaveState(w, w.job.st, w.job.st.(rotation := Some(rotation)), Idle)
    else w
  }

  function ApplyPassPage(w: World): (w': World) {
    if w.job.Passing? && w.job.todo == [] && w.job.source < w.config.sources then
      var page := NextPage(w, w.job.source, w.job.last);
      w.(job := Passing(w.job.st, w.job.target, NextSource(w, w.job.source, page), NextLast(w, w.job.last, page),
                        ReadsOf(w.rows, page), w.job.counts, w.job.complete))
    else w
  }

  function ApplySavePass(w: World): (w': World) {
    if w.job.Passing? && w.job.todo == [] && w.job.source >= w.config.sources && w.job.st.rotation.Some? then
      var phase := if w.job.complete then Retiring else Reencrypting;
      SaveState(w, w.job.st, WithPhase(w.job.st.(kidUsage := Some(w.job.counts)), phase), Idle)
    else w
  }

  function ApplyRecountPage(w: World): (w': World) {
    if w.job.Recounting? && w.job.source < w.config.sources then
      var page := NextPage(w, w.job.source, w.job.last);
      w.(job := Recounting(w.job.st, w.job.snap, w.job.removable, NextSource(w, w.job.source, page),
                           NextLast(w, w.job.last, page), CountPageInto(w.job.counts, w.rows, page)))
    else w
  }

  function ApplySaveDone(w: World): (w': World) {
    if w.job.Retired? && w.job.st.rotation.Some? then SaveState(w, w.job.st, WithPhase(w.job.st, Done), Idle) else w
  }

  function ApplyWriterSave(w: World, key: Key, slots: seq<Slot>): (w': World) {
    if WriterMay(w, key, slots) then
      w.(rows := w.rows[key := Row(if key in w.rows then w.rows[key].version + 1 else 0, slots)],
         issued := w.issued + {key})
    else w
  }

  function ApplyWriterDelete(w: World, key: Key): (w': World) {
    w.(rows := w.rows - {key})
  }

  function ApplyRequest(w: World): (w': World) {
    if w.state.rotation.None? || Finished(w.state.rotation.value) then
      w.(state := w.state.(version := w.state.version + 1, rotation := Some(Rotation(Adding, None, None, false))),
         added := 0)
    else w
  }

  function ApplyCompromised(w: World): (w': World) {
    if w.state.rotation.Some? && !Finished(w.state.rotation.value) then
      w.(state := w.state.(version := w.state.version + 1,
                           rotation := Some(w.state.rotation.value.(compromised := true))))
    else w
  }

  function ApplyActivateAnyway(w: World): (w': World) {
    if InPhase(w.state, Activating) && w.state.rotation.value.kid.Some? then
      w.(state := WithPhase(w.state, Reencrypting).(version := w.state.version + 1,
                                                    activeKid := w.state.rotation.value.kid))
    else w
  }

  function ApplyReadRing(w: World): (w': World) {
    if !w.job.Loaded? then w
    else if InPhase(w.job.st, Adding) then w.(job := AddReady(w.job.st, w.ring))
    else if InPhase(w.job.st, Retiring) then
      var active := w.job.st.activeKid;
      if active.None? || active.value !in w.ring.keys || w.job.st.kidUsage.None?
      then SaveState(w, w.job.st, w.job.st, Idle)
      else
        var removable := Removable(w.ring, active.value, w.job.st.kidUsage.value);
        w.(job := if removable == {} then Retired(w.job.st)
                  else Recounting(w.job.st, w.ring, removable, 0, None, map[]))
    else w
  }

  /** Takes up the key an earlier attempt left in the ring, or writes a new one over the ring as it was read. */
  function ApplyWriteNewKey(w: World, kid: Kid): (w': World) {
    if w.job.AddReady? && w.job.st.rotation.Some? && w.job.st.rotation.value.keyringKids.Some? then
      var own := OwnKey(w.job.snap, w.job.st.rotation.value.keyringKids.value);
      if own.Some? then w.(job := AddWritten(w.job.st, own.value))
      else if kid in w.job.snap.keys || w.job.snap.version != w.ring.version then SaveState(w, w.job.st, w.job.st, Idle)
      else w.(ring := Ring(w.ring.version + 1, w.job.snap.keys + [kid]), job := AddWritten(w.job.st, kid),
              added := w.added + 1)
    else w
  }

  function ApplyActivate(w: World, beats: seq<Beat>): (w': World) {
    if w.job.Loaded? && InPhase(w.job.st, Activating) then
      var kid := w.job.st.rotation.value.kid;
      if kid.None? then SaveState(w, w.job.st, WithPhase(w.job.st, Failed), Idle)
      else if beats == [] || exists b :: b in beats && kid.value !in b.kids then SaveState(w, w.job.st, w.job.st, Idle)
      else SaveState(w, w.job.st, WithPhase(w.job.st, Reencrypting).(activeKid := kid), Idle)
    else w
  }

  function ApplyStartPass(w: World, beats: seq<Beat>, cipherKid: Option<Kid>): (w': World) {
    if w.job.Loaded? && InPhase(w.job.st, Reencrypting) then
      var kid := w.job.st.rotation.value.kid;
      if kid.None? || w.job.st.activeKid != kid then SaveState(w, w.job.st, WithPhase(w.job.st, Failed), Idle)
      else if beats == [] || (exists b :: b in beats && (kid.value !in b.kids || b.encrypting != kid))
        || cipherKid != kid
      then SaveState(w, w.job.st, w.job.st, Idle)
      else w.(job := Passing(w.job.st, kid.value, 0, None, [], map[], true))
    else w
  }

  function ApplyPassRow(w: World, cipher: string -> Outcome, save: Save): (w': World) {
    if !w.job.Passing? || w.job.todo == [] then w else
    var read := w.job.todo[0];
    var after := RowAfter(w.rows, read.key, read.row, w.job.target, cipher, save);
    var left := if after.Some? then after.value else read.row;
    var rows := if after.Some? then w.rows[read.key := after.value] else w.rows;
    w.(rows := rows,
       job := Passing(w.job.st, w.job.target, w.job.source, w.job.last, w.job.todo[1..],
                      CountInto(w.job.counts, Envelopes(left.credentials)),
                      w.job.complete && (after.Some? || !Changes(read.key, read.row, w.job.target, cipher))))
  }

  /**
   * Once every row is recounted: back to re-encrypting when a key is used after all, else the ring is written
   * without the keys.
   */
  function ApplyRetire(w: World): (w': World) {
    if w.job.Recounting? && w.job.source >= w.config.sources && w.job.st.rotation.Some? then
      if exists k :: k in w.job.removable && At(w.job.counts, k) > 0 then
        SaveState(w, w.job.st, WithPhase(w.job.st.(kidUsage := Some(w.job.counts)), Reencrypting), Idle)
      else if w.job.snap.version != w.ring.version then SaveState(w, w.job.st, w.job.st, Idle)
      else w.(ring := Ring(w.ring.version + 1, Without(w.job.snap.keys, w.job.removable)), job := Retired(w.job.st))
    else w
  }

  function Run(w: World, actions: seq<Action>): (w': World)
    decreases |actions|
  {
    if actions == [] then w else Run(Apply(w, actions[0]), actions[1..])
  }
}
