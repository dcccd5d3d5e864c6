/** What the reminder runs amount to: when they agree with a plain scan of every row, and when they do not. */
module ReminderTheorems {
  import opened Options
  import opened Keyset
  import opened AlarmKinds
  import opened ReminderRun

  // ---- what is remembered ----

  /** No alarm of `kind` fires after `from` and before `notBefore`. */
  ghost predicate Quiet(starts: Event -> iset<int>, e: Event, kind: Kind, from: int, notBefore: int) {
    forall s :: s in StartsOf(starts, e) && s !in Exceptions(e) ==> !(from < s - LeadMs(e, kind) < notBefore)
  }

  /**
   * What is remembered is true, from `from` on, of the row at the version it names; `rows` says what a row is
   * at each version.
   */
  ghost predicate CacheOk(starts: Event -> iset<int>, rows: (int, nat) -> Event, nextDue: map<Slot, Remembered>,
                          from: int)
  {
    forall k :: k in nextDue ==> Quiet(starts, rows(k.uid, nextDue[k].version), k.kind, from, nextDue[k].notBefore)
  }

  /** The rows read and the rows claimed are the rows at their versions, which only go up. */
  ghost predicate ReadsOk(rows: (int, nat) -> Event, scan: Scan, nextDue: map<Slot, Remembered>) {
    && (forall u :: u in scan.table ==> rows(u, scan.table[u].version) == scan.table[u].event)
    && (forall a: Alarm :: a.uid in scan.table && scan.saved(a).Some? ==>
          && rows(a.uid, scan.saved(a).value.version) == scan.saved(a).value.event
          && scan.saved(a).value.version > scan.table[a.uid].version)
    && (forall k :: k in nextDue && k.uid in scan.table ==> nextDue[k].version <= scan.table[k.uid].version)
  }

  /** As long as what is remembered is true, it hides nothing that is due. */
  lemma NothingHidden(starts: Event -> iset<int>, rows: (int, nat) -> Event, scan: Scan,
                      nextDue: map<Slot, Remembered>, a: Alarm)
    requires CacheOk(starts, rows, nextDue, scan.lower) && ReadsOk(rows, scan, nextDue)
    requires FoundDue(starts, scan.table, scan.lower, scan.horizon, a)
    ensures !SkippedAt(scan, nextDue, a)
  {
    var k := Slot(a.uid, a.kind);
    if k in nextDue {
      assert Quiet(starts, rows(k.uid, nextDue[k].version), k.kind, scan.lower, nextDue[k].notBefore);
    }
  }

  /** No alarm fires between the window and the time to look again. */
  lemma QuietUntilThen(starts: Event -> iset<int>, scan: Scan, e: Event, kind: Kind)
    requires ExpanderOk(scan.expand, starts)
    ensures Quiet(starts, e, kind, scan.horizon, LookAgainAt(scan, e, kind))
  {
    var windowEnd := scan.horizon + LeadMs(e, kind) + 1;
    var next := scan.expand(e, Exceptions(e), windowEnd - 1, windowEnd + LOOKAHEAD);
    assert Lists(next, StartsOf(starts, e), Exceptions(e), windowEnd - 1, windowEnd + LOOKAHEAD);
    assert next != [] ==> next[0] in next;
    forall s | s in StartsOf(starts, e) && s !in Exceptions(e)
      ensures !(scan.horizon < s - LeadMs(e, kind) < LookAgainAt(scan, e, kind))
    {
      if s in next {
        var i :| 0 <= i < |next| && next[i] == s;
        assert i > 0 ==> next[0] < next[i];
      }
    }
  }

  /**
   * A series is remembered exactly when it was expanded and nothing of it fires in the window: until its next
   * alarm, or for the whole look-ahead when none comes within it.
   */
  lemma RememberedUntilNext(starts: Event -> iset<int>, scan: Scan, nextDue: map<Slot, Remembered>, uid: int,
                            version: nat, kind: Kind)
    requires ExpanderOk(scan.expand, starts) && uid in scan.table
    ensures var e, note := scan.table[uid].event, KindNote(scan, nextDue, uid, version, kind);
            && (note.Some? <==>
                  && Master(e) && !Skips(scan, nextDue, uid, version, kind)
                  && forall s :: !IsDue(starts, e, kind, Exceptions(e), scan.lower, scan.horizon, s))
            && (note.Some? ==>
                  && note.value.version == version && note.value.notBefore > scan.horizon
                  && (note.value.notBefore == scan.horizon + 1 + LOOKAHEAD
                      || var s := note.value.notBefore + LeadMs(e, kind);
                         s in StartsOf(starts, e) && s !in Exceptions(e)))
  {
    var e := scan.table[uid].event;
    var due := DueStarts(scan, e, kind, Exceptions(e));
    var from := scan.horizon + LeadMs(e, kind);
    var next := scan.expand(e, Exceptions(e), from, from + 1 + LOOKAHEAD);
    assert Lists(due, StartsOf(starts, e), Exceptions(e), scan.lower + LeadMs(e, kind), from + 1);
    assert Lists(next, StartsOf(starts, e), Exceptions(e), from, from + 1 + LOOKAHEAD);
    if due == [] {
      forall s ensures !IsDue(starts, e, kind, Exceptions(e), scan.lower, scan.horizon, s) { assert s !in due; }
    } else {
      assert due[0] in due && IsDue(starts, e, kind, Exceptions(e), scan.lower, scan.horizon, due[0]);
    }
    if next != [] { assert next[0] in next; }
  }

  /**
   * An event whose reminder was won over an edit, with its alarm at the start remembered by the series as it
   * was read: the edited series has no such alarm before that time.
   */
  ghost predicate EditHarmless(starts: Event -> iset<int>, scan: Scan, nextDue: map<Slot, Remembered>, uid: int)
    requires uid in scan.table
  {
    var won := ReminderWon(scan, nextDue, uid);
    won.Some? && EventNote(scan, nextDue, uid, StartAlarm).Some? ==>
      Quiet(starts, won.value.event, StartAlarm, scan.horizon, LookAgainAt(scan, scan.table[uid].event, StartAlarm))
  }

  /** What one slot holds after a run is true exactly when its event's edit is harmless. */
  lemma SlotStaysTrueIff(starts: Event -> iset<int>, rows: (int, nat) -> Event, scan: Scan,
                         nextDue: map<Slot, Remembered>, k: Slot)
    requires ExpanderOk(scan.expand, starts) && scan.lower <= scan.horizon
    requires CacheOk(starts, rows, nextDue, scan.lower) && ReadsOk(rows, scan, nextDue)
    requires k.uid in scan.table && EntryAfter(scan, nextDue, k).Some?
    ensures var n := EntryAfter(scan, nextDue, k).value;
            Quiet(starts, rows(k.uid, n.version), k.kind, scan.horizon, n.notBefore)
            <==> (k.kind == StartAlarm ==> EditHarmless(starts, scan, nextDue, k.uid))
  {
    var e, n := scan.table[k.uid].event, EntryAfter(scan, nextDue, k).value;
    var won := ReminderWon(scan, nextDue, k.uid);
    QuietUntilThen(starts, scan, e, k.kind);
    if EventNote(scan, nextDue, k.uid, k.kind).None? {
      assert Quiet(starts, rows(k.uid, n.version), k.kind, scan.lower, n.notBefore);
    } else if k.kind == StartAlarm && won.Some? {
      assert n == Remembered(won.value.version, LookAgainAt(scan, e, StartAlarm));
      assert rows(k.uid, n.version) == won.value.event;
    }
  }

  /** A won reminder is due, so its event is a candidate. */
  lemma WonIsCandidate(starts: Event -> iset<int>, scan: Scan, nextDue: map<Slot, Remembered>, maxLeadMs: nat, uid: int)
    requires ExpanderOk(scan.expand, starts) && TableOk(starts, scan.table, maxLeadMs)
    requires uid in scan.table && ReminderWon(scan, nextDue, uid).Some?
    ensures Candidate(scan.table, scan.lower, scan.horizon + maxLeadMs, uid)
  {
    var claim := EventClaim(scan, nextDue, uid, Reminder);
    var e := scan.table[uid].event;
    LatestIsLast(starts, scan, e, Reminder, FoundExcluded(scan.table, e), claim.value);
    DueIsCandidate(starts, scan.table, scan.lower, scan.horizon, maxLeadMs, uid, Reminder,
                   FoundExcluded(scan.table, e), claim.value);
  }

  /**
   * After a run, what is remembered is true from its horizon on if and only if every edit its claims were
   * won over is harmless.
   */
  lemma StaysTrueIff(starts: Event -> iset<int>, rows: (int, nat) -> Event, scan: Scan, maxLeadMs: nat,
                     nextDue: map<Slot, Remembered>, nextDue': map<Slot, Remembered>)
    requires ExpanderOk(scan.expand, starts) && TableOk(starts, scan.table, maxLeadMs) && scan.lower <= scan.horizon
    requires CacheOk(starts, rows, nextDue, scan.lower) && ReadsOk(rows, scan, nextDue)
    requires forall k :: Entry(nextDue', k) == Remembers(scan, nextDue, maxLeadMs, k)
    ensures CacheOk(starts, rows, nextDue', scan.horizon)
       <==> forall u :: u in scan.table ==> EditHarmless(starts, scan, nextDue, u)
  {
    if CacheOk(starts, rows, nextDue', scan.horizon) {
      forall u | u in scan.table ensures EditHarmless(starts, scan, nextDue, u) {
        if ReminderWon(scan, nextDue, u).Some? && EventNote(scan, nextDue, u, StartAlarm).Some? {
          WonIsCandidate(starts, scan, nextDue, maxLeadMs, u);
          var k := Slot(u, StartAlarm);
          assert Entry(nextDue', k) == EntryAfter(scan, nextDue, k);
          SlotStaysTrueIff(starts, rows, scan, nextDue, k);
        }
      }
    }
    if forall u :: u in scan.table ==> EditHarmless(starts, scan, nextDue, u) {
      forall k | k in nextDue'
        ensures Quiet(starts, rows(k.uid, nextDue'[k].version), k.kind, scan.horizon, nextDue'[k].notBefore)
      {
        assert Entry(nextDue', k) == Remembers(scan, nextDue, maxLeadMs, k);
        assert Entry(nextDue', k) == EntryAfter(scan, nextDue, k);
        SlotStaysTrueIff(starts, rows, scan, nextDue, k);
      }
    }
  }

  // ---- the override rows ----

  /** Up to the limit, the bounded read finds every override row. */
  lemma AllOverridesRead(table: map<int, Row>, e: Event)
    requires |OverrideRows(table, e)| <= OVERRIDES_LIMIT
    ensures FoundOverridden(table, e) == Overridden(table, e)
  {
    var rows := OverrideRows(table, e);
    forall k ensures k in Page(rows, None, OVERRIDES_LIMIT) <==> k in rows { PageHoldsAll(rows, OVERRIDES_LIMIT, k); }
    assert (set k | k in Page(rows, None, OVERRIDES_LIMIT)) == rows;
  }

  /** No alarm is due by the overrides read whose occurrence an unread override row stands for. */
  ghost predicate NoneUnread(starts: Event -> iset<int>, scan: Scan) {
    forall a :: FoundDue(starts, scan.table, scan.lower, scan.horizon, a) && Master(scan.table[a.uid].event)
      ==> a.start !in Overridden(scan.table, scan.table[a.uid].event)
  }

  lemma FoundAndReadIsPlain(starts: Event -> iset<int>, scan: Scan, a: Alarm)
    requires FoundDue(starts, scan.table, scan.lower, scan.horizon, a)
    ensures PlainlyDue(starts, scan.table, scan.lower, scan.horizon, a)
       <==> (Master(scan.table[a.uid].event) ==> a.start !in Overridden(scan.table, scan.table[a.uid].event))
  {
    var e := scan.table[a.uid].event;
    assert FoundExcluded(scan.table, e) <= Excluded(scan.table, e);
    forall t | IsDue(starts, e, a.kind, Excluded(scan.table, e), scan.lower, scan.horizon, t) ensures t <= a.start {
      assert IsDue(starts, e, a.kind, FoundExcluded(scan.table, e), scan.lower, scan.horizon, t);
    }
  }

  /** What is plainly due leaves something due by the overrides read. */
  lemma PlainHasFound(starts: Event -> iset<int>, scan: Scan, a: Alarm) returns (b: Alarm)
    requires ExpanderOk(scan.expand, starts) && PlainlyDue(starts, scan.table, scan.lower, scan.horizon, a)
    ensures b.uid == a.uid && b.kind == a.kind && FoundDue(starts, scan.table, scan.lower, scan.horizon, b)
  {
    var e := scan.table[a.uid].event;
    var excluded := FoundExcluded(scan.table, e);
    var due := DueStarts(scan, e, a.kind, excluded);
    DueStartsAre(starts, scan, e, a.kind, excluded, a.start);
    b := Alarm(a.uid, a.kind, due[|due| - 1]);
    LatestIsLast(starts, scan, e, a.kind, excluded, b.start);
  }

  /**
   * Consulting only the override rows the bounded read finds gives the plain scan exactly when no unread one
   * stands for an occurrence that would otherwise be claimed.
   */
  lemma FoundIsPlainIff(starts: Event -> iset<int>, scan: Scan)
    requires ExpanderOk(scan.expand, starts)
    ensures (forall a :: FoundDue(starts, scan.table, scan.lower, scan.horizon, a)
                    <==> PlainlyDue(starts, scan.table, scan.lower, scan.horizon, a))
       <==> NoneUnread(starts, scan)
  {
    var table, lower, horizon := scan.table, scan.lower, scan.horizon;
    forall a | FoundDue(starts, table, lower, horizon, a)
      ensures PlainlyDue(starts, table, lower, horizon, a)
         <==> (Master(table[a.uid].event) ==> a.start !in Overridden(table, table[a.uid].event))
    {
      FoundAndReadIsPlain(starts, scan, a);
    }
    if NoneUnread(starts, scan) {
      forall a | PlainlyDue(starts, table, lower, horizon, a) ensures FoundDue(starts, table, lower, horizon, a) {
        var b := PlainHasFound(starts, scan, a);
        assert PlainlyDue(starts, table, lower, horizon, b);
        assert a == b;
      }
    }
  }

  function Uids(n: nat): (keys: set<Key>)
    ensures forall k :: k in keys <==> k.at == 0 && 1 <= k.uid <= n
    ensures |keys| == n
  {
    if n == 0 then {} else Uids(n - 1) + {Key(0, n)}
  }

  /** Override row `u` of `last` of them: the last one stands for the occurrence at `Once(300_000)`. */
  function OverrideRow(u: int, last: int): (row: Row) {
    Row(0, Once(0).(rule := None, recurrenceId := Some(if u == last then 300_000 else -u)))
  }

  /** A series in row 0 with its first `n` override rows. */
  function CrowdedTable(n: nat, last: int): (table: map<int, Row>)
    ensures forall u :: u in table <==> 0 <= u <= n
    ensures forall u :: 0 <= u <= n ==> table[u] == if u == 0 then Row(0, Once(300_000)) else OverrideRow(u, last)
  {
    if n == 0 then map[0 := Row(0, Once(300_000))] else CrowdedTable(n - 1, last)[n := OverrideRow(n, last)]
  }

  lemma CrowdedRows(n: nat)
    ensures OverrideRows(CrowdedTable(n, n), Once(300_000)) == Uids(n)
  {
    var table, e := CrowdedTable(n, n), Once(300_000);
    forall k ensures k in OverrideRows(table, e) <==> k in Uids(n) {
      if k in Uids(n) { assert IsOverrideOf(table[k.uid].event, e); }
    }
  }

  lemma CrowdedOverrides(n: nat)
    requires n > OVERRIDES_LIMIT
    ensures 300_000 in Overridden(CrowdedTable(n, n), Once(300_000))
    ensures 300_000 !in FoundOverridden(CrowdedTable(n, n), Once(300_000))
  {
    var table, last := CrowdedTable(n, n), Key(0, n);
    CrowdedRows(n);
    LastLeftOut(Uids(n), OVERRIDES_LIMIT, last);
    assert last in Uids(n) && table[last.uid].event.recurrenceId == Some(300_000);
  }

  /**
   * With one override row more than the read finds, the occurrence that was moved away is due by the rows
   * read, and not plainly.
   */
  lemma UnreadOverrideDue(n: nat, starts: Event -> iset<int>)
    requires n > OVERRIDES_LIMIT && forall e :: starts(e) == iset{e.start}
    ensures var table, a := CrowdedTable(n, n), Alarm(0, StartAlarm, 300_000);
            FoundDue(starts, table, 240_000, 300_000, a) && !PlainlyDue(starts, table, 240_000, 300_000, a)
  {
    CrowdedOverrides(n);
  }

  lemma CrowdedTableOk(n: nat, starts: Event -> iset<int>)
    requires forall e :: starts(e) == iset{e.start}
    ensures TableOk(starts, CrowdedTable(n, n), 1_200_000)
  {
  }

  /** A run that claims the alarm of an occurrence that was moved away. */
  method UnreadOverrideClaimed(n: nat, ghost starts: Event -> iset<int>) returns (claims: set<Alarm>)
    requires n > OVERRIDES_LIMIT && forall e :: starts(e) == iset{e.start}
    ensures var moved := Alarm(0, StartAlarm, 300_000);
            moved in claims && !PlainlyDue(starts, CrowdedTable(n, n), 240_000, 300_000, moved)
  {
    var job := new Job(Config(100, 60_000, 0, 1_200_000));
    OnceExpands(starts);
    CrowdedTableOk(n, starts);
    UnreadOverrideDue(n, starts);
    ghost var scan;
    claims, scan := job.Run(240_000, CrowdedTable(n, n), SavedOnce(), ExpandOnce(), starts);
  }

  /** A table with no series of more override rows than one read finds. */
  predicate WithinLimit(table: map<int, Row>) {
    forall u :: u in table ==> |OverrideRows(table, table[u].event)| <= OVERRIDES_LIMIT
  }

  /**
   * The claims of a run are those of a plain scan of every row: for every live event and kind, the latest
   * occurrence firing in the window, as long as what was remembered was true and the reads fit.
   */
  lemma ClaimsArePlain(starts: Event -> iset<int>, rows: (int, nat) -> Event, scan: Scan,
                       nextDue: map<Slot, Remembered>, a: Alarm)
    requires ExpanderOk(scan.expand, starts) && WithinLimit(scan.table)
    requires CacheOk(starts, rows, nextDue, scan.lower) && ReadsOk(rows, scan, nextDue)
    ensures (FoundDue(starts, scan.table, scan.lower, scan.horizon, a) && !SkippedAt(scan, nextDue, a))
       <==> PlainlyDue(starts, scan.table, scan.lower, scan.horizon, a)
  {
    if Alarmed(scan.table, a.uid, a.kind) { AllOverridesRead(scan.table, scan.table[a.uid].event); }
    if FoundDue(starts, scan.table, scan.lower, scan.horizon, a) { NothingHidden(starts, rows, scan, nextDue, a); }
  }

  // ---- run after run ----

  /** What one run finds: the time, the rows and how its claims end. */
  datatype Input = Input(now: int, table: map<int, Row>, saved: Alarm -> Option<Saved>)

  /** The version row `u` has as run `i` begins. */
  type Versions = (int, nat) -> nat

  ghost predicate VersionsGoUp(versions: Versions) {
    forall u: int, i: nat, j: nat :: i <= j ==> versions(u, i) <= versions(u, j)
  }

  /**
   * The runs of a process: the clock does not go back, leads are within the maximum, and a row at a version is
   * the same row wherever it is read or claimed, its versions only going up.
   */
  ghost predicate InputsOk(config: Config, starts: Event -> iset<int>, rows: (int, nat) -> Event, versions: Versions,
                           inputs: seq<Input>)
  {
    && (forall i: nat :: InputAt(config, starts, rows, versions, inputs, i))
    && (forall i, j :: 0 <= i < j < |inputs| ==> inputs[i].now <= inputs[j].now)
    && VersionsGoUp(versions)
  }

  ghost predicate InputAt(config: Config, starts: Event -> iset<int>, rows: (int, nat) -> Event, versions: Versions,
                          inputs: seq<Input>, i: nat)
  {
    i < |inputs| ==> InputOk(config, starts, rows, versions, inputs[i], i)
  }

  ghost predicate InputOk(config: Config, starts: Event -> iset<int>, rows: (int, nat) -> Event, versions: Versions,
                          input: Input, i: nat)
  {
    && TableOk(starts, input.table, config.maxLeadMs)
    && (forall u :: u in input.table ==>
          rows(u, input.table[u].version) == input.table[u].event && input.table[u].version == versions(u, i))
    && (forall a: Alarm :: a.uid in input.table && input.saved(a).Some? ==>
          && rows(a.uid, input.saved(a).value.version) == input.saved(a).value.event
          && versions(a.uid, i) < input.saved(a).value.version <= versions(a.uid, i + 1))
  }

  /** What is remembered names no version to come. */
  ghost predicate Known(versions: Versions, nextDue: map<Slot, Remembered>, i: nat) {
    forall k :: k in nextDue ==> nextDue[k].version <= versions(k.uid, i)
  }

  lemma StaysKnown(starts: Event -> iset<int>, rows: (int, nat) -> Event, versions: Versions, config: Config,
                   input: Input, i: nat, scan: Scan, nextDue: map<Slot, Remembered>,
                   nextDue': map<Slot, Remembered>)
    requires InputOk(config, starts, rows, versions, input, i) && Known(versions, nextDue, i)
    requires VersionsGoUp(versions) && scan.table == input.table && scan.saved == input.saved
    requires forall k :: Entry(nextDue', k) == Remembers(scan, nextDue, config.maxLeadMs, k)
    ensures Known(versions, nextDue', i + 1)
  {
    forall k | k in nextDue' ensures nextDue'[k].version <= versions(k.uid, i + 1) {
      assert Entry(nextDue', k) == Remembers(scan, nextDue, config.maxLeadMs, k);
      assert versions(k.uid, i) <= versions(k.uid, i + 1);
    }
  }

  /** Every edit the run's claims were won over is harmless. */
  ghost predicate EditsHarmless(starts: Event -> iset<int>, scan: Scan, nextDue: map<Slot, Remembered>) {
    forall u :: u in scan.table ==> EditHarmless(starts, scan, nextDue, u)
  }

  /** A claim that leaves the event as it was read is harmless. */
  lemma UneditedIsHarmless(starts: Event -> iset<int>, scan: Scan, nextDue: map<Slot, Remembered>)
    requires ExpanderOk(scan.expand, starts)
    requires forall a: Alarm :: a.uid in scan.table && scan.saved(a).Some? ==>
               scan.saved(a).value.event == scan.table[a.uid].event
    ensures EditsHarmless(starts, scan, nextDue)
  {
    forall u | u in scan.table ensures EditHarmless(starts, scan, nextDue, u) {
      QuietUntilThen(starts, scan, scan.table[u].event, StartAlarm);
    }
  }

  /** The claims of a run are a plain scan's. */
  ghost predicate Plain(starts: Event -> iset<int>, scan: Scan, claims: set<Alarm>) {
    forall a :: a in claims <==> PlainlyDue(starts, scan.table, scan.lower, scan.horizon, a)
  }

  /** The claims of a run, as `Run` states them, are a plain scan's while what was remembered is true. */
  lemma RunIsPlain(starts: Event -> iset<int>, rows: (int, nat) -> Event, scan: Scan, nextDue: map<Slot, Remembered>,
                   claims: set<Alarm>)
    requires ExpanderOk(scan.expand, starts) && WithinLimit(scan.table)
    requires CacheOk(starts, rows, nextDue, scan.lower) && ReadsOk(rows, scan, nextDue)
    requires forall a ::
        a in claims <==> FoundDue(starts, scan.table, scan.lower, scan.horizon, a) && !SkippedAt(scan, nextDue, a)
    ensures Plain(starts, scan, claims)
  {
    forall a ensures a in claims <==> PlainlyDue(starts, scan.table, scan.lower, scan.horizon, a) {
      ClaimsArePlain(starts, rows, scan, nextDue, a);
    }
  }

  /** A run that is over: what it worked from, what it went by and what it claimed. */
  datatype Turn = Turn(scan: Scan, remembered: map<Slot, Remembered>, claims: set<Alarm>)

  /** What is remembered after a run. */
  ghost predicate Follows(config: Config, t: Turn, nextDue: map<Slot, Remembered>) {
    forall k :: Entry(nextDue, k) == Remembers(t.scan, t.remembered, config.maxLeadMs, k)
  }

  /** A run over `input` after the run `was`, or as the first: its window abuts, and it goes by what is remembered. */
  ghost predicate TurnOk(config: Config, expand: Expander, starts: Event -> iset<int>, input: Input, t: Turn,
                         was: Option<Turn>)
  {
    && t.scan == Scan(expand, input.table, input.saved,
                      if was.Some? then was.value.scan.horizon else input.now - config.lookbackMs,
                      input.now + config.windowMs)
    && (if was.Some? then Follows(config, was.value, t.remembered) else t.remembered == map[])
    && (forall a :: a in t.claims <==>
          FoundDue(starts, t.scan.table, t.scan.lower, t.scan.horizon, a) && !SkippedAt(t.scan, t.remembered, a))
  }

  function Before(turns: seq<Turn>, i: nat): (was: Option<Turn>)
    requires i <= |turns|
  {
    if i == 0 then None else Some(turns[i - 1])
  }

  /** The runs of a process, one after the other. */
  ghost predicate Chain(config: Config, expand: Expander, starts: Event -> iset<int>, inputs: seq<Input>,
                        turns: seq<Turn>)
  {
    |turns| <= |inputs| && forall i: nat :: TurnAt(config, expand, starts, inputs, turns, i)
  }

  ghost predicate TurnAt(config: Config, expand: Expander, starts: Event -> iset<int>, inputs: seq<Input>,
                         turns: seq<Turn>, i: nat)
    requires |turns| <= |inputs|
  {
    i < |turns| ==> TurnOk(config, expand, starts, inputs[i], turns[i], Before(turns, i))
  }

  /** What one run of a chain has to do with the one before. */
  lemma TurnFacts(config: Config, expand: Expander, starts: Event -> iset<int>, inputs: seq<Input>, turns: seq<Turn>,
                  i: nat)
    requires Chain(config, expand, starts, inputs, turns) && i < |turns|
    ensures turns[i].scan.expand == expand && turns[i].scan.table == inputs[i].table
              && turns[i].scan.saved == inputs[i].saved
    ensures turns[i].scan.horizon == inputs[i].now + config.windowMs
    ensures i > 0 ==> turns[i].scan.lower == turns[i - 1].scan.horizon
    ensures i > 0 ==> Follows(config, turns[i - 1], turns[i].remembered)
    ensures i == 0 ==> turns[i].remembered == map[] && turns[i].scan.lower == inputs[i].now - config.lookbackMs
  {
    assert TurnAt(config, expand, starts, inputs, turns, i);
  }

  lemma ChainAppend(config: Config, expand: Expander, starts: Event -> iset<int>, inputs: seq<Input>,
                    turns: seq<Turn>, t: Turn)
    requires Chain(config, expand, starts, inputs, turns) && |turns| < |inputs|
    requires TurnOk(config, expand, starts, inputs[|turns|], t, Before(turns, |turns|))
    ensures Chain(config, expand, starts, inputs, turns + [t])
  {
    var longer := turns + [t];
    forall i: nat ensures TurnAt(config, expand, starts, inputs, longer, i) {
      assert TurnAt(config, expand, starts, inputs, turns, i);
      if i < |longer| { assert Before(longer, i) == Before(turns, i); }
    }
  }

  /** The job run over and over. */
  method RunAll(config: Config, expand: Expander, inputs: seq<Input>, ghost starts: Event -> iset<int>)
    returns (claims: seq<set<Alarm>>, ghost turns: seq<Turn>)
    requires config.batchSize >= 1 && ExpanderOk(expand, starts)
    requires forall i :: 0 <= i < |inputs| ==> TableOk(starts, inputs[i].table, config.maxLeadMs)
    requires forall i, j :: 0 <= i < j < |inputs| ==> inputs[i].now <= inputs[j].now
    ensures |claims| == |turns| == |inputs| && Chain(config, expand, starts, inputs, turns)
    ensures forall i :: 0 <= i < |inputs| ==> turns[i].claims == claims[i]
  {
    var job := new Job(config);
    claims, turns := [], [];
    for i := 0 to |inputs|
      invariant fresh(job) && job.config == config && |claims| == |turns| == i
      invariant Chain(config, expand, starts, inputs, turns)
      invariant forall k :: 0 <= k < i ==> turns[k].claims == claims[k]
      invariant i == 0 ==> job.watermark == None && job.nextDue == map[]
      invariant i > 0 ==> job.watermark == Some(turns[i - 1].scan.horizon) && Follows(config, turns[i - 1], job.nextDue)
      invariant i > 0 ==> turns[i - 1].scan.horizon == inputs[i - 1].now + config.windowMs
    {
      ghost var before := job.nextDue;
      var found;
      ghost var scan;
      found, scan := job.Run(inputs[i].now, inputs[i].table, inputs[i].saved, expand, starts);
      ghost var t := Turn(scan, before, found);
      ChainAppend(config, expand, starts, inputs, turns, t);
      claims, turns := claims + [found], turns + [t];
    }
  }

  /** Every edit the first `n` runs won a claim over was harmless. */
  ghost predicate Harmless(starts: Event -> iset<int>, turns: seq<Turn>, n: nat)
    requires n <= |turns|
  {
    forall i :: 0 <= i < n ==> EditsHarmless(starts, turns[i].scan, turns[i].remembered)
  }

  lemma {:induction false} AlwaysKnown(config: Config, expand: Expander, starts: Event -> iset<int>,
                                       rows: (int, nat) -> Event,
                                       versions: Versions, inputs: seq<Input>, turns: seq<Turn>, i: nat)
    requires InputsOk(config, starts, rows, versions, inputs) && Chain(config, expand, starts, inputs, turns)
               && i < |turns|
    ensures Known(versions, turns[i].remembered, i)
  {
    TurnFacts(config, expand, starts, inputs, turns, i);
    if i > 0 {
      AlwaysKnown(config, expand, starts, rows, versions, inputs, turns, i - 1);
      TurnFacts(config, expand, starts, inputs, turns, i - 1);
      assert InputAt(config, starts, rows, versions, inputs, i - 1);
      StaysKnown(starts, rows, versions, config, inputs[i - 1], i - 1, turns[i - 1].scan, turns[i - 1].remembered,
                 turns[i].remembered);
    }
  }

  lemma TurnReadsOk(config: Config, expand: Expander, starts: Event -> iset<int>, rows: (int, nat) -> Event,
                    versions: Versions, inputs: seq<Input>, turns: seq<Turn>, i: nat)
    requires InputsOk(config, starts, rows, versions, inputs) && Chain(config, expand, starts, inputs, turns)
               && i < |turns|
    ensures ReadsOk(rows, turns[i].scan, turns[i].remembered)
    ensures turns[i].scan.expand == expand && turns[i].scan.table == inputs[i].table
    ensures turns[i].scan.lower <= turns[i].scan.horizon && TableOk(starts, inputs[i].table, config.maxLeadMs)
  {
    AlwaysKnown(config, expand, starts, rows, versions, inputs, turns, i);
    TurnFacts(config, expand, starts, inputs, turns, i);
    assert InputAt(config, starts, rows, versions, inputs, i);
    if i > 0 {
      TurnFacts(config, expand, starts, inputs, turns, i - 1);
      assert inputs[i - 1].now <= inputs[i].now;
    }
  }

  /** What a run goes by is true as long as the edits before it were harmless. */
  lemma {:induction false} TrueInTurn(config: Config, expand: Expander, starts: Event -> iset<int>,
                                      rows: (int, nat) -> Event,
                                      versions: Versions, inputs: seq<Input>, turns: seq<Turn>, i: nat)
    requires ExpanderOk(expand, starts) && InputsOk(config, starts, rows, versions, inputs)
    requires Chain(config, expand, starts, inputs, turns) && i < |turns| && Harmless(starts, turns, i)
    ensures CacheOk(starts, rows, turns[i].remembered, turns[i].scan.lower)
  {
    TurnFacts(config, expand, starts, inputs, turns, i);
    if i > 0 {
      var t := turns[i - 1];
      TrueInTurn(config, expand, starts, rows, versions, inputs, turns, i - 1);
      TurnReadsOk(config, expand, starts, rows, versions, inputs, turns, i - 1);
      StaysTrueIff(starts, rows, t.scan, config.maxLeadMs, t.remembered, turns[i].remembered);
    }
  }

  /**
   * Any runs of one process, from its start, for a clock that does not go back and rows that are the same
   * wherever they have the same version: each claims exactly what a plain scan of every row would in the window
   * that abuts the last one, as long as the edits earlier claims were won over were harmless - in particular
   * while claims leave events as they were read.
   */
  lemma RunsArePlain(config: Config, expand: Expander, starts: Event -> iset<int>, rows: (int, nat) -> Event,
                     versions: Versions, inputs: seq<Input>, turns: seq<Turn>, i: nat)
    requires ExpanderOk(expand, starts) && InputsOk(config, starts, rows, versions, inputs)
    requires Chain(config, expand, starts, inputs, turns) && i < |turns| && WithinLimit(inputs[i].table)
    ensures i > 0 ==> turns[i].scan.lower == turns[i - 1].scan.horizon
    ensures Harmless(starts, turns, i) ==> Plain(starts, turns[i].scan, turns[i].claims)
  {
    TurnFacts(config, expand, starts, inputs, turns, i);
    assert TurnAt(config, expand, starts, inputs, turns, i);
    if Harmless(starts, turns, i) {
      TrueInTurn(config, expand, starts, rows, versions, inputs, turns, i);
      TurnReadsOk(config, expand, starts, rows, versions, inputs, turns, i);
      RunIsPlain(starts, rows, turns[i].scan, turns[i].remembered, turns[i].claims);
    }
  }

  lemma InputFacts(config: Config, starts: Event -> iset<int>, rows: (int, nat) -> Event, versions: Versions,
                   inputs: seq<Input>)
    requires InputsOk(config, starts, rows, versions, inputs)
    ensures forall i :: 0 <= i < |inputs| ==> TableOk(starts, inputs[i].table, config.maxLeadMs)
    ensures forall i, j :: 0 <= i < j < |inputs| ==> inputs[i].now <= inputs[j].now
  {
    forall i | 0 <= i < |inputs| ensures TableOk(starts, inputs[i].table, config.maxLeadMs) {
      assert InputAt(config, starts, rows, versions, inputs, i);
    }
  }

  /** The job run over and over, and what all its runs claim. */
  method Runs(config: Config, expand: Expander, inputs: seq<Input>, ghost starts: Event -> iset<int>,
              ghost rows: (int, nat) -> Event, ghost versions: Versions)
    returns (claims: seq<set<Alarm>>, ghost turns: seq<Turn>)
    requires config.batchSize >= 1 && ExpanderOk(expand, starts) && InputsOk(config, starts, rows, versions, inputs)
    requires forall i :: 0 <= i < |inputs| ==> WithinLimit(inputs[i].table)
    ensures |claims| == |turns| == |inputs| && Chain(config, expand, starts, inputs, turns)
    ensures forall i :: 0 <= i < |inputs| && Harmless(starts, turns, i) ==> Plain(starts, turns[i].scan, claims[i])
  {
    InputFacts(config, starts, rows, versions, inputs);
    claims, turns := RunAll(config, expand, inputs, starts);
    forall i | 0 <= i < |inputs| ensures Harmless(starts, turns, i) ==> Plain(starts, turns[i].scan, claims[i]) {
      RunsArePlain(config, expand, starts, rows, versions, inputs, turns, i);
    }
  }

  /** With claims that leave events as they were read, every run's claims are a plain scan's. */
  lemma UneditedRunsArePlain(config: Config, expand: Expander, starts: Event -> iset<int>, rows: (int, nat) -> Event,
                             versions: Versions, inputs: seq<Input>, turns: seq<Turn>, i: nat)
    requires ExpanderOk(expand, starts) && InputsOk(config, starts, rows, versions, inputs)
    requires Chain(config, expand, starts, inputs, turns) && i < |turns| && WithinLimit(inputs[i].table)
    requires forall j, a: Alarm :: 0 <= j < |inputs| && a.uid in inputs[j].table && inputs[j].saved(a).Some? ==>
               inputs[j].saved(a).value.event == inputs[j].table[a.uid].event
    ensures Plain(starts, turns[i].scan, turns[i].claims)
  {
    forall j | 0 <= j < i ensures EditsHarmless(starts, turns[j].scan, turns[j].remembered) {
      TurnFacts(config, expand, starts, inputs, turns, j);
      UneditedIsHarmless(starts, turns[j].scan, turns[j].remembered);
    }
    RunsArePlain(config, expand, starts, rows, versions, inputs, turns, i);
  }

  // ---- an edit between the read and the claim ----

  /** A series of one occurrence, at its start. */
  function Once(start: int): (e: Event) {
    Event(start, Some(Rule(None, {})), None, "meeting", "mailbox", false, false, Some(10))
  }

  function ExpandOnce(): (expand: Expander) {
    (e: Event, excluded: set<int>, from: int, to: int) =>
      if e.start !in excluded && from < e.start < to then [e.start] else []
  }

  function SavedOnce(): (saved: Alarm -> Option<Saved>) { (_: Alarm) => Some(Saved(2, Once(300_000))) }

  function FirstScan(): (scan: Scan) {
    Scan(ExpandOnce(), map[1 := Row(0, Once(600_000))], SavedOnce(), -60_000, 60_000)
  }

  function SecondScan(): (scan: Scan) {
    Scan(ExpandOnce(), map[1 := Row(2, Once(300_000))], SavedOnce(), 60_000, 300_000)
  }

  lemma NoOverrides(start: int, version: nat)
    ensures OverrideRows(map[1 := Row(version, Once(start))], Once(start)) == {}
    ensures Overridden(map[1 := Row(version, Once(start))], Once(start)) == {}
  {
  }

  lemma FirstRemembers()
    ensures Remembers(FirstScan(), map[], 1_200_000, Slot(1, StartAlarm)) == Some(Remembered(2, 600_000))
  {
    var scan, e := FirstScan(), Once(600_000);
    NoOverrides(600_000, 0);
    assert FoundExcluded(scan.table, e) == {};
    assert DueStarts(scan, e, Reminder, {}) == [600_000];
    assert KindClaim(scan, map[], 1, 0, Reminder) == Some(600_000);
    assert ReminderWon(scan, map[], 1) == Some(Saved(2, Once(300_000)));
    assert DueStarts(scan, e, StartAlarm, {}) == [];
    assert LookAgainAt(scan, e, StartAlarm) == 600_000;
  }

  lemma SecondSkips(nextDue: map<Slot, Remembered>, starts: Event -> iset<int>)
    requires Entry(nextDue, Slot(1, StartAlarm)) == Some(Remembered(2, 600_000))
    requires forall e :: starts(e) == iset{e.start}
    ensures SkippedAt(SecondScan(), nextDue, Alarm(1, StartAlarm, 300_000))
    ensures PlainlyDue(starts, SecondScan().table, 60_000, 300_000, Alarm(1, StartAlarm, 300_000))
  {
    var scan, e := SecondScan(), Once(300_000);
    NoOverrides(300_000, 2);
    assert FoundExcluded(scan.table, e) == {};
    assert DueStarts(scan, e, Reminder, {}) == [];
    assert ReminderWon(scan, nextDue, 1) == None;
  }

  lemma OnceExpands(starts: Event -> iset<int>)
    requires forall e :: starts(e) == iset{e.start}
    ensures ExpanderOk(ExpandOnce(), starts)
  {
  }

  method FirstRun(ghost starts: Event -> iset<int>) returns (job: Job)
    requires forall e :: starts(e) == iset{e.start}
    ensures fresh(job) && job.config == Config(100, 60_000, 60_000, 1_200_000) && job.watermark == Some(60_000)
    ensures Entry(job.nextDue, Slot(1, StartAlarm)) == Some(Remembered(2, 600_000))
  {
    job := new Job(Config(100, 60_000, 60_000, 1_200_000));
    OnceExpands(starts);
    ghost var scan;
    var claims;
    claims, scan := job.Run(0, map[1 := Row(0, Once(600_000))], SavedOnce(), ExpandOnce(), starts);
    assert Entry(job.nextDue, Slot(1, StartAlarm)) == Remembers(scan, map[], 1_200_000, Slot(1, StartAlarm));
    assert scan == FirstScan();
    FirstRemembers();
  }

  /**
   * Two runs. The first claims the reminder of a meeting in ten minutes, over an edit that moves it to five:
   * the meeting's start is remembered as it was read, under the version the edit and the claim left. The
   * second run, five minutes on, misses the alarm at its start.
   */
  method EditHidesAlarm(ghost starts: Event -> iset<int>) returns (claims: set<Alarm>)
    requires forall e :: starts(e) == iset{e.start}
    ensures ExpanderOk(SecondScan().expand, starts) && WithinLimit(SecondScan().table)
    ensures var missed := Alarm(1, StartAlarm, 300_000);
            PlainlyDue(starts, SecondScan().table, 60_000, 300_000, missed) && missed !in claims
  {
    var job := FirstRun(starts);
    OnceExpands(starts);
    NoOverrides(300_000, 2);
    SecondSkips(job.nextDue, starts);
    ghost var scan;
    claims, scan := job.Run(240_000, map[1 := Row(2, Once(300_000))], SavedOnce(), ExpandOnce(), starts);
    assert scan == SecondScan();
  }

  // ---- first runs that overlap ----

  /** A meeting at the end of the first minute, with a reminder a minute before. */
  function Soon(): (table: map<int, Row>) {
    map[1 := Row(0, Event(60_000, None, None, "meeting", "mailbox", false, false, Some(1)))]
  }

  /**
   * The first runs of two processes, a second apart, under the default look-back and window: both claim the
   * start alarm of one meeting, but only the earlier its reminder.
   */
  method FirstRunsOverlap(ghost starts: Event -> iset<int>) returns (earlier: set<Alarm>, later: set<Alarm>)
    requires forall e :: starts(e) == iset{e.start}
    ensures Alarm(1, Reminder, 60_000) in earlier && Alarm(1, StartAlarm, 60_000) in earlier
    ensures Alarm(1, Reminder, 60_000) !in later && Alarm(1, StartAlarm, 60_000) in later
  {
    OnceExpands(starts);
    var config := Config(200, 60_000, 120_000, 20_160 * MINUTE);
    ghost var scan;
    var job := new Job(config);
    earlier, scan := job.Run(119_000, Soon(), SavedOnce(), ExpandOnce(), starts);
    job := new Job(config);
    later, scan := job.Run(120_000, Soon(), SavedOnce(), ExpandOnce(), starts);
  }
}
