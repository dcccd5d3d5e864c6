/** The two alarms of an event. */
module AlarmKinds {
  datatype Kind = Reminder | StartAlarm
}

/**
 * The calendar reminder job: each run fires the alarms due in `(lower, horizon]`, windows that abut from
 * run to run. Bounded queries choose the candidates and a cache of the next due time spares expanding a
 * series whose next alarm is further away. Both must agree with plainly expanding every event.
 * Times are milliseconds; a row is keyed by its uid.
 */
module ReminderRun {
  import opened Options
  import opened AlarmKinds
  import opened Keyset

  const MINUTE := 60_000
  const LOOKAHEAD := 400 * 24 * 60 * MINUTE
  const OVERRIDES_LIMIT: nat := 1000

  datatype Rule = Rule(until: Option<int>, exceptions: set<int>)

  datatype Event = Event(start: int, rule: Option<Rule>, recurrenceId: Option<int>, icalUid: string, mailbox: string,
                         cancelled: bool, allDay: bool, leadMinutes: Option<int>)

  datatype Row = Row(version: nat, event: Event)

  datatype Alarm = Alarm(uid: int, kind: Kind, start: int)

  datatype Slot = Slot(uid: int, kind: Kind)

  datatype Remembered = Remembered(version: nat, notBefore: int)

  datatype Config = Config(batchSize: nat, windowMs: nat, lookbackMs: nat, maxLeadMs: nat)

  predicate Master(e: Event) { e.rule.Some? && e.recurrenceId.None? }

  function Lead(e: Event): int { if e.leadMinutes.None? then -1 else e.leadMinutes.value }

  /** A lead of zero is the alarm at the start itself; an all-day event has no other alarm at its start. */
  predicate HasAlarm(e: Event, kind: Kind) {
    match kind
    case Reminder => Lead(e) >= 0
    case StartAlarm => Lead(e) != 0 && !e.allDay
  }

  function LeadMs(e: Event, kind: Kind): (ms: int) {
    if kind == Reminder then Lead(e) * MINUTE else 0
  }

  // ---- what an expansion promises ----

  /** The starts of an event in `(from, to)` but for the excluded ones, in order. */
  type Expander = (Event, set<int>, int, int) -> seq<int>

  /** The starts the event has: its rule's for a master, its own for any other row. */
  ghost function StartsOf(starts: Event -> iset<int>, e: Event): (s: iset<int>) {
    if Master(e) then starts(e) else iset{e.start}
  }

  ghost predicate Lists(found: seq<int>, all: iset<int>, excluded: set<int>, from: int, to: int) {
    && (forall i, j :: 0 <= i < j < |found| ==> found[i] < found[j])
    && (forall s :: s in found <==> s in all && s !in excluded && from < s < to)
  }

  ghost predicate ExpanderOk(expand: Expander, starts: Event -> iset<int>) {
    forall e, excluded, from, to :: Lists(expand(e, excluded, from, to), StartsOf(starts, e), excluded, from, to)
  }

  /** No occurrence before the series starts or after its `until`. */
  ghost predicate WithinRule(starts: Event -> iset<int>, e: Event) {
    Master(e) ==> forall s :: s in starts(e) ==>
      e.start <= s && (e.rule.value.until.Some? ==> s <= e.rule.value.until.value)
  }

  // ---- the plain scan ----

  /** The override rows of an event's series: its own mailbox's. */
  function OverrideRows(table: map<int, Row>, e: Event): (keys: set<Key>) {
    set u | u in table && IsOverrideOf(table[u].event, e) :: Key(0, u)
  }

  predicate IsOverrideOf(o: Event, e: Event) {
    o.icalUid == e.icalUid && o.mailbox == e.mailbox && o.recurrenceId.Some?
  }

  function IdsOf(table: map<int, Row>, keys: set<Key>): (ids: set<int>) {
    set k | k in keys && k.uid in table
      && table[k.uid].event.recurrenceId.Some? :: table[k.uid].event.recurrenceId.value
  }

  /** The occurrences override rows stand for. */
  function Overridden(table: map<int, Row>, e: Event): (ids: set<int>) { IdsOf(table, OverrideRows(table, e)) }

  /** Those of them one bounded read finds. */
  function FoundOverridden(table: map<int, Row>, e: Event): (ids: set<int>)
    ensures ids <= Overridden(table, e)
  {
    IdsOf(table, set k | k in Page(OverrideRows(table, e), None, OVERRIDES_LIMIT))
  }

  function Exceptions(e: Event): (s: set<int>) { if Master(e) then e.rule.value.exceptions else {} }

  ghost predicate IsDue(starts: Event -> iset<int>, e: Event, kind: Kind, excluded: set<int>, lower: int,
                        horizon: int, s: int)
  {
    s in StartsOf(starts, e) && s !in excluded && lower < s - LeadMs(e, kind) <= horizon
  }

  ghost predicate LatestDue(starts: Event -> iset<int>, e: Event, kind: Kind, excluded: set<int>, lower: int,
                            horizon: int, s: int)
  {
    && IsDue(starts, e, kind, excluded, lower, horizon, s)
    && forall t :: IsDue(starts, e, kind, excluded, lower, horizon, t) ==> t <= s
  }

  predicate Alarmed(table: map<int, Row>, uid: int, kind: Kind) {
    uid in table && !table[uid].event.cancelled && HasAlarm(table[uid].event, kind)
  }

  function Excluded(table: map<int, Row>, e: Event): (s: set<int>) {
    if Master(e) then e.rule.value.exceptions + Overridden(table, e) else {}
  }

  function FoundExcluded(table: map<int, Row>, e: Event): (s: set<int>) {
    if Master(e) then e.rule.value.exceptions + FoundOverridden(table, e) else {}
  }

  /**
   * The alarm a plain scan of every row would claim: for each live event and kind, the latest occurrence that
   * fires in the window.
   */
  ghost predicate PlainlyDue(starts: Event -> iset<int>, table: map<int, Row>, lower: int, horizon: int, a: Alarm) {
    && Alarmed(table, a.uid, a.kind)
    && var e := table[a.uid].event; LatestDue(starts, e, a.kind, Excluded(table, e), lower, horizon, a.start)
  }

  /**
   * The alarms of a row that is no series: a reminder as long before its start as the row says, and one at its
   * start unless that is the reminder or the event takes whole days.
   */
  lemma SingleAlarms(starts: Event -> iset<int>, table: map<int, Row>, lower: int, horizon: int, a: Alarm)
    requires a.uid in table && !Master(table[a.uid].event)
    ensures var e := table[a.uid].event;
            PlainlyDue(starts, table, lower, horizon, a) <==>
              && !e.cancelled && a.start == e.start
              && match a.kind
                 case Reminder =>
                   e.leadMinutes.Some? && e.leadMinutes.value >= 0
                     && lower < e.start - e.leadMinutes.value * 60_000 <= horizon
                 case StartAlarm => e.leadMinutes != Some(0) && !e.allDay && lower < e.start <= horizon
  {
  }

  /** The same scan that consults only the override rows one bounded read finds. */
  ghost predicate FoundDue(starts: Event -> iset<int>, table: map<int, Row>, lower: int, horizon: int, a: Alarm) {
    && Alarmed(table, a.uid, a.kind)
    && var e := table[a.uid].event; LatestDue(starts, e, a.kind, FoundExcluded(table, e), lower, horizon, a.start)
  }

  // ---- the candidates ----

  /** The rows of a page up to the first that starts after `upper`. */
  method Consume(page: seq<Key>, upper: Option<int>) returns (taken: seq<Key>, stop: bool)
    requires Sorted(page)
    ensures |taken| <= |page| && taken == page[..|taken|]
    ensures forall k :: k in taken ==> upper.None? || k.at <= upper.value
    ensures !stop ==> taken == page
    ensures stop ==> |taken| < |page| && upper.Some? && page[|taken|].at > upper.value
  {
    taken, stop := [], false;
    for i := 0 to |page|
      invariant taken == page[..i] && forall k :: k in taken ==> upper.None? || k.at <= upper.value
    {
      if upper.Some? && page[i].at > upper.value { stop := true; return; }
      taken := taken + [page[i]];
    }
  }

  /** Where the reading stops, everything left starts later still. */
  lemma LaterStillLeft(keys: set<Key>, last: Option<Key>, limit: nat, i: nat, k: Key)
    requires i < |Page(keys, last, limit)| && k in keys && After(k, last) && k !in Page(keys, last, limit)[..i]
    ensures k.at >= Page(keys, last, limit)[i].at
  {
    var page := Page(keys, last, limit);
    PageCovers(keys, last, limit, k);
    if k in page {
      assert page == page[..i] + page[i..];
      var j :| 0 <= j < |page[i..]| && page[i..][j] == k;
      assert j > 0 ==> Less(page[i], page[i + j]);
    } else {
      assert i < |page| - 1 ==> Less(page[i], page[|page| - 1]);
    }
  }

  /** Reads every row of `keys` page by page, up to the first that starts after `upper`. */
  method ReadKeyset(keys: set<Key>, limit: nat, upper: Option<int>) returns (found: seq<Key>)
    requires limit >= 1
    ensures forall k :: k in found <==> k in keys && (upper.None? || k.at <= upper.value)
  {
    found := [];
    var last: Option<Key> := None;
    while true
      invariant forall k :: k in found ==> k in keys && (upper.None? || k.at <= upper.value)
      invariant forall k :: k in keys ==> k in found || After(k, last)
      decreases |Above(keys, last)|
    {
      var page := Page(keys, last, limit);
      var taken, stop := Consume(page, upper);
      found := found + taken;
      forall k | k in keys && k !in found
        ensures stop ==> k.at > upper.value
        ensures !stop ==> |page| == limit && After(k, Cursor(page, last))
      {
        if stop { LaterStillLeft(keys, last, limit, |taken|, k); } else { PageCovers(keys, last, limit, k); }
      }
      if stop || |page| < limit { return; }
      PageAdvances(keys, last, limit);
      last := Cursor(page, last);
    }
  }

  predicate Candidate(table: map<int, Row>, lower: int, upper: int, u: int) {
    && u in table
    && var e := table[u].event;
       || lower <= e.start <= upper
       || (Master(e) && !e.cancelled && e.start <= upper
            && (e.rule.value.until.None? || e.rule.value.until.value >= lower))
  }

  /** A series that is not cancelled and starts in time. */
  predicate LiveMaster(table: map<int, Row>, upper: int, u: int) {
    u in table && Master(table[u].event) && !table[u].event.cancelled && table[u].event.start <= upper
  }

  /** The rows one run looks at, each once. */
  method ReadCandidates(table: map<int, Row>, limit: nat, lower: int, upper: int) returns (uids: seq<int>)
    requires limit >= 1
    ensures forall u :: u in uids <==> Candidate(table, lower, upper, u)
    ensures forall i, j :: 0 <= i < j < |uids| ==> uids[i] != uids[j]
  {
    var near := set u | u in table && table[u].event.start >= lower :: Key(table[u].event.start, u);
    var rows := ReadKeyset(near, limit, Some(upper));
    forall u ensures (exists k :: k in rows && k.uid == u) <==> u in table && lower <= table[u].event.start <= upper {
      if u in table && lower <= table[u].event.start <= upper { assert Key(table[u].event.start, u) in rows; }
    }
    uids := AddUids([], rows);
    var series := set u | u in table && LiveMaster(table, upper, u) :: Key(0, u);
    var masters := ReadKeyset(series, limit, None);
    var running := [];
    for i := 0 to |masters|
      invariant forall k :: k in running <==> k in masters[..i] && k.uid in table && Running(table[k.uid].event, lower)
    {
      assert masters[i] in series && masters[..i + 1] == masters[..i] + [masters[i]];
      if Running(table[masters[i].uid].event, lower) { running := running + [masters[i]]; }
    }
    assert masters[..|masters|] == masters;
    forall u
      ensures (exists k :: k in running && k.uid == u)
         <==> LiveMaster(table, upper, u) && Running(table[u].event, lower)
    {
      if LiveMaster(table, upper, u) && Running(table[u].event, lower) { assert Key(0, u) in running; }
    }
    uids := AddUids(uids, running);
  }

  /** A series that is not over by its `until`. */
  predicate Running(e: Event, lower: int) {
    e.rule.Some? && (e.rule.value.until.None? || e.rule.value.until.value >= lower)
  }

  method AddUids(uids: seq<int>, rows: seq<Key>) returns (r: seq<int>)
    requires forall i, j :: 0 <= i < j < |uids| ==> uids[i] != uids[j]
    ensures forall u :: u in r <==> u in uids || exists k :: k in rows && k.uid == u
    ensures forall i, j :: 0 <= i < j < |r| ==> r[i] != r[j]
  {
    r := uids;
    for i := 0 to |rows|
      invariant forall u :: u in r <==> u in uids || exists k :: k in rows[..i] && k.uid == u
      invariant forall i, j :: 0 <= i < j < |r| ==> r[i] != r[j]
    {
      assert rows[..i + 1] == rows[..i] + [rows[i]];
      if rows[i].uid !in r { r := r + [rows[i].uid]; }
    }
    assert rows[..|rows|] == rows;
  }

  /** Whatever is due is on a candidate row, for leads within the maximum. */
  lemma DueIsCandidate(starts: Event -> iset<int>, table: map<int, Row>, lower: int, horizon: int, maxLeadMs: nat,
                       uid: int, kind: Kind, excluded: set<int>, s: int)
    requires Alarmed(table, uid, kind) && IsDue(starts, table[uid].event, kind, excluded, lower, horizon, s)
    requires WithinRule(starts, table[uid].event) && LeadMs(table[uid].event, kind) <= maxLeadMs
    ensures Candidate(table, lower, horizon + maxLeadMs, uid)
  {
  }

  ghost predicate TableOk(starts: Event -> iset<int>, table: map<int, Row>, maxLeadMs: nat) {
    forall u :: u in table ==> WithinRule(starts, table[u].event) && LeadMs(table[u].event, Reminder) <= maxLeadMs
  }

  // ---- one event, from what is read and remembered ----

  /**
   * A winning claim: the version it leaves and the event it was written to, which may have been edited since
   * it was read.
   */
  datatype Saved = Saved(version: nat, event: Event)

  /** What a run works from; `saved` is how each claim ends, none when it is lost. */
  datatype Scan = Scan(expand: Expander, table: map<int, Row>, saved: Alarm -> Option<Saved>, lower: int, horizon: int)

  /** The starts firing in the window. */
  function DueStarts(scan: Scan, e: Event, kind: Kind, excluded: set<int>): (due: seq<int>) {
    scan.expand(e, excluded, scan.lower + LeadMs(e, kind), scan.horizon + LeadMs(e, kind) + 1)
  }

  /** The next time worth looking: the first occurrence after the window, or the end of the look-ahead. */
  function LookAgainAt(scan: Scan, e: Event, kind: Kind): (notBefore: int) {
    var windowEnd := scan.horizon + LeadMs(e, kind) + 1;
    var next := scan.expand(e, Exceptions(e), windowEnd - 1, windowEnd + LOOKAHEAD);
    (if next != [] then next[0] else windowEnd + LOOKAHEAD) - LeadMs(e, kind)
  }

  /** What is remembered of the row at this version says there is nothing to look for yet. */
  predicate Skips(scan: Scan, nextDue: map<Slot, Remembered>, uid: int, version: nat, kind: Kind)
    requires uid in scan.table
  {
    && Master(scan.table[uid].event) && Slot(uid, kind) in nextDue
    && nextDue[Slot(uid, kind)].version == version && scan.horizon < nextDue[Slot(uid, kind)].notBefore
  }

  /** The start claimed for a kind of alarm the event has. */
  function KindClaim(scan: Scan, nextDue: map<Slot, Remembered>, uid: int, version: nat, kind: Kind)
    : (claim: Option<int>)
    requires uid in scan.table
  {
    var e := scan.table[uid].event;
    var due := DueStarts(scan, e, kind, FoundExcluded(scan.table, e));
    if Skips(scan, nextDue, uid, version, kind) || DueStarts(scan, e, kind, Exceptions(e)) == [] || due == [] then None
    else Some(due[|due| - 1])
  }

  /** What is remembered of it afterwards, if anything new is. */
  function KindNote(scan: Scan, nextDue: map<Slot, Remembered>, uid: int, version: nat, kind: Kind)
    : (note: Option<Remembered>)
    requires uid in scan.table
  {
    var e := scan.table[uid].event;
    if Master(e) && !Skips(scan, nextDue, uid, version, kind) && DueStarts(scan, e, kind, Exceptions(e)) == []
    then Some(Remembered(version, LookAgainAt(scan, e, kind))) else None
  }

  function Noted(nextDue: map<Slot, Remembered>, slot: Slot, note: Option<Remembered>): map<Slot, Remembered> {
    if note.Some? then nextDue[slot := note.value] else nextDue
  }

  /** How the event's reminder is won, if it is. */
  function ReminderWon(scan: Scan, nextDue: map<Slot, Remembered>, uid: int): (won: Option<Saved>)
    requires uid in scan.table
  {
    var claim := if Alarmed(scan.table, uid, Reminder)
        then KindClaim(scan, nextDue, uid, scan.table[uid].version, Reminder) else None;
    if claim.Some? then scan.saved(Alarm(uid, Reminder, claim.value)) else None
  }

  /**
   * The version the event's row has when its alarm of `kind` is looked at: the reminder's own claim leaves a
   * new one.
   */
  function VersionFor(scan: Scan, nextDue: map<Slot, Remembered>, uid: int, kind: Kind): (version: nat)
    requires uid in scan.table
  {
    if kind == StartAlarm && ReminderWon(scan, nextDue, uid).Some? then ReminderWon(scan, nextDue, uid).value.version
    else scan.table[uid].version
  }

  function EventClaim(scan: Scan, nextDue: map<Slot, Remembered>, uid: int, kind: Kind): (claim: Option<int>)
    requires uid in scan.table
  {
    if Alarmed(scan.table, uid, kind) then KindClaim(scan, nextDue, uid, VersionFor(scan, nextDue, uid, kind), kind)
        else None
  }

  function EventNote(scan: Scan, nextDue: map<Slot, Remembered>, uid: int, kind: Kind): (note: Option<Remembered>)
    requires uid in scan.table
  {
    if Alarmed(scan.table, uid, kind) then KindNote(scan, nextDue, uid, VersionFor(scan, nextDue, uid, kind), kind)
        else None
  }

  // ---- the job ----

  class Job {
    const config: Config
    /** Upper end of the window the last run covered. */
    var watermark: Option<int>
    var nextDue: map<Slot, Remembered>

    constructor (config: Config)
      ensures this.config == config && watermark == None && nextDue == map[]
    {
      this.config, watermark, nextDue := config, None, map[];
    }

    /** The start whose alarm of `kind` this run claims, if any; remembers when to look again otherwise. */
    method ProcessKind(scan: Scan, uid: int, version: nat, kind: Kind) returns (claim: Option<int>)
      requires uid in scan.table
      modifies this`nextDue
      ensures claim == KindClaim(scan, old(nextDue), uid, version, kind)
      ensures nextDue == Noted(old(nextDue), Slot(uid, kind), KindNote(scan, old(nextDue), uid, version, kind))
    {
      var e, slot := scan.table[uid].event, Slot(uid, kind);
      claim := None;
      if Master(e) && slot in nextDue && nextDue[slot].version == version && scan.horizon < nextDue[slot].notBefore {
        return;
      }
      var due := DueStarts(scan, e, kind, Exceptions(e));
      if due == [] {
        if Master(e) { nextDue := nextDue[slot := Remembered(version, LookAgainAt(scan, e, kind))]; }
        return;
      }
      if Master(e) {
        due := DueStarts(scan, e, kind, e.rule.value.exceptions + FoundOverridden(scan.table, e));
        if due == [] { return; }
      }
      claim := Some(due[|due| - 1]);
    }

    /** Both alarms of one event, the second against the version the first one's claim leaves. */
    method ProcessEvent(scan: Scan, uid: int) returns (claims: set<Alarm>)
      requires uid in scan.table
      modifies this`nextDue
      ensures claims == ClaimsOf(scan, old(nextDue), uid) && nextDue == NotesOf(scan, old(nextDue), uid)
    {
      claims := {};
      var e, version := scan.table[uid].event, scan.table[uid].version;
      if e.cancelled { return; }
      ghost var before := nextDue;
      if Lead(e) >= 0 {
        var claim := ProcessKind(scan, uid, version, Reminder);
        if claim.Some? {
          var a := Alarm(uid, Reminder, claim.value);
          claims := {a};
          if scan.saved(a).Some? { version := scan.saved(a).value.version; }
        }
      }
      if Lead(e) != 0 && !e.allDay {
        SameKind(scan, before, nextDue, uid, version, StartAlarm);
        var claim := ProcessKind(scan, uid, version, StartAlarm);
        if claim.Some? { claims := claims + {Alarm(uid, StartAlarm, claim.value)}; }
      }
    }

    /** Every candidate in turn. */
    method ProcessAll(scan: Scan, uids: seq<int>) returns (claims: set<Alarm>)
      requires forall u :: u in uids ==> u in scan.table
      requires forall i, j :: 0 <= i < j < |uids| ==> uids[i] != uids[j]
      modifies this`nextDue
      ensures forall a :: a in claims
                <==> a.uid in uids && EventClaim(scan, old(nextDue), a.uid, a.kind) == Some(a.start)
      ensures forall k :: Entry(nextDue, k) == if k.uid in uids then EntryAfter(scan, old(nextDue), k)
                else Entry(old(nextDue), k)
    {
      claims := {};
      ghost var before := nextDue;
      for i := 0 to |uids|
        invariant forall a ::
            a in claims <==> a.uid in uids[..i] && EventClaim(scan, before, a.uid, a.kind) == Some(a.start)
        invariant forall k ::
            Entry(nextDue, k) == if k.uid in uids[..i] then EntryAfter(scan, before, k) else Entry(before, k)
      {
        assert uids[i] in uids && uids[..i + 1] == uids[..i] + [uids[i]];
        forall a ensures a in ClaimsOf(scan, nextDue, uids[i])
                    <==> a.uid == uids[i] && EventClaim(scan, before, uids[i], a.kind) == Some(a.start)
        {
          ClaimsAre(scan, nextDue, uids[i], a);
          SameSlots(scan, before, nextDue, uids[i], a.kind);
        }
        forall k ensures Entry(NotesOf(scan, nextDue, uids[i]), k)
                      == if k.uid == uids[i] then EntryAfter(scan, before, k) else Entry(nextDue, k)
        {
          NotesAre(scan, nextDue, uids[i], k);
          SameSlots(scan, before, nextDue, uids[i], k.kind);
        }
        var found := ProcessEvent(scan, uids[i]);
        claims := claims + found;
      }
      assert uids[..|uids|] == uids;
    }

    /**
     * One run: exactly the alarms due in the window that abuts the last one, but for those of a series that
     * what is remembered of the very version read says need no look yet; and what is remembered afterwards.
     */
    method Run(now: int, table: map<int, Row>, saved: Alarm -> Option<Saved>, expand: Expander,
               ghost starts: Event -> iset<int>)
      returns (claims: set<Alarm>, ghost scan: Scan)
      requires config.batchSize >= 1 && ExpanderOk(expand, starts) && TableOk(starts, table, config.maxLeadMs)
      requires watermark.Some? ==> watermark.value <= now + config.windowMs
      modifies this
      ensures watermark == Some(now + config.windowMs)
      ensures scan == Scan(expand, table, saved,
                           if old(watermark).Some? then old(watermark).value else now - config.lookbackMs,
                           now + config.windowMs)
      ensures forall a :: a in claims
                <==> FoundDue(starts, table, scan.lower, scan.horizon, a) && !SkippedAt(scan, old(nextDue), a)
      ensures forall k :: Entry(nextDue, k) == Remembers(scan, old(nextDue), config.maxLeadMs, k)
    {
      var horizon := now + config.windowMs;
      var lower := if watermark.Some? then watermark.value else now - config.lookbackMs;
      if horizon < lower { lower := horizon; }
      var s := Scan(expand, table, saved, lower, horizon);
      scan := s;
      var uids := ReadCandidates(table, config.batchSize, lower, horizon + config.maxLeadMs);
      ghost var before := nextDue;
      claims := ProcessAll(s, uids);
      forall a ensures a in claims <==> FoundDue(starts, table, lower, horizon, a) && !SkippedAt(s, before, a) {
        ClaimIsDue(starts, s, before, config.maxLeadMs, a);
      }
      nextDue := map k | k in nextDue && k.uid in uids :: nextDue[k];
      watermark := Some(horizon);
    }
  }

  function Entry(nextDue: map<Slot, Remembered>, k: Slot): (r: Option<Remembered>) {
    if k in nextDue then Some(nextDue[k]) else None
  }

  /** What is remembered of a slot once its event was looked at. */
  function EntryAfter(scan: Scan, nextDue: map<Slot, Remembered>, k: Slot): (r: Option<Remembered>)
    requires k.uid in scan.table
  {
    var note := EventNote(scan, nextDue, k.uid, k.kind);
    if note.Some? then note else Entry(nextDue, k)
  }

  /** What is remembered of a slot after the run: nothing of an event that is no candidate. */
  function Remembers(scan: Scan, nextDue: map<Slot, Remembered>, maxLeadMs: nat, k: Slot): (r: Option<Remembered>) {
    if Candidate(scan.table, scan.lower, scan.horizon + maxLeadMs, k.uid) then EntryAfter(scan, nextDue, k) else None
  }

  /** What is remembered keeps the run from looking for the alarm. */
  predicate SkippedAt(scan: Scan, nextDue: map<Slot, Remembered>, a: Alarm) {
    a.uid in scan.table && Skips(scan, nextDue, a.uid, VersionFor(scan, nextDue, a.uid, a.kind), a.kind)
  }

  lemma SameKind(scan: Scan, before: map<Slot, Remembered>, nextDue: map<Slot, Remembered>, uid: int, version: nat,
                 kind: Kind)
    requires uid in scan.table && Entry(nextDue, Slot(uid, kind)) == Entry(before, Slot(uid, kind))
    ensures KindClaim(scan, nextDue, uid, version, kind) == KindClaim(scan, before, uid, version, kind)
    ensures KindNote(scan, nextDue, uid, version, kind) == KindNote(scan, before, uid, version, kind)
  {
    assert Skips(scan, nextDue, uid, version, kind) == Skips(scan, before, uid, version, kind);
  }

  lemma SameVersion(scan: Scan, before: map<Slot, Remembered>, nextDue: map<Slot, Remembered>, uid: int, kind: Kind)
    requires uid in scan.table && Entry(nextDue, Slot(uid, Reminder)) == Entry(before, Slot(uid, Reminder))
    ensures VersionFor(scan, nextDue, uid, kind) == VersionFor(scan, before, uid, kind)
  {
    SameKind(scan, before, nextDue, uid, scan.table[uid].version, Reminder);
  }

  /** What an event claims and notes depends on its own slots only. */
  lemma SameSlots(scan: Scan, before: map<Slot, Remembered>, nextDue: map<Slot, Remembered>, uid: int, kind: Kind)
    requires uid in scan.table && forall k: Slot :: k.uid == uid ==> Entry(nextDue, k) == Entry(before, k)
    ensures EventClaim(scan, nextDue, uid, kind) == EventClaim(scan, before, uid, kind)
    ensures EventNote(scan, nextDue, uid, kind) == EventNote(scan, before, uid, kind)
  {
    SameVersion(scan, before, nextDue, uid, kind);
    SameKind(scan, before, nextDue, uid, VersionFor(scan, before, uid, kind), kind);
  }

  /** The alarms an event's turn claims. */
  function ClaimsOf(scan: Scan, nextDue: map<Slot, Remembered>, uid: int): (claims: set<Alarm>)
    requires uid in scan.table
  {
    var reminder, start := EventClaim(scan, nextDue, uid, Reminder), EventClaim(scan, nextDue, uid, StartAlarm);
    (if reminder.Some? then {Alarm(uid, Reminder, reminder.value)} else {})
    + (if start.Some? then {Alarm(uid, StartAlarm, start.value)} else {})
  }

  lemma ClaimsAre(scan: Scan, nextDue: map<Slot, Remembered>, uid: int, a: Alarm)
    requires uid in scan.table
    ensures a in ClaimsOf(scan, nextDue, uid)
       <==> a.uid == uid && EventClaim(scan, nextDue, uid, a.kind) == Some(a.start)
  {
    if a.kind != Reminder { assert a.kind == StartAlarm; }
  }

  /** What is remembered after an event's turn. */
  function NotesOf(scan: Scan, nextDue: map<Slot, Remembered>, uid: int): (r: map<Slot, Remembered>)
    requires uid in scan.table
  {
    Noted(Noted(nextDue, Slot(uid, Reminder), EventNote(scan, nextDue, uid, Reminder)),
          Slot(uid, StartAlarm), EventNote(scan, nextDue, uid, StartAlarm))
  }

  lemma NotesAre(scan: Scan, nextDue: map<Slot, Remembered>, uid: int, k: Slot)
    requires uid in scan.table
    ensures Entry(NotesOf(scan, nextDue, uid), k) == if k.uid == uid then EntryAfter(scan, nextDue, k)
              else Entry(nextDue, k)
  {
    if k.kind != Reminder { assert k.kind == StartAlarm; }
  }

  lemma DueStartsAre(starts: Event -> iset<int>, scan: Scan, e: Event, kind: Kind, excluded: set<int>, s: int)
    requires ExpanderOk(scan.expand, starts)
    ensures var due := DueStarts(scan, e, kind, excluded);
            && (s in due <==> IsDue(starts, e, kind, excluded, scan.lower, scan.horizon, s))
            && (s in due ==> s <= due[|due| - 1])
  {
    var due := DueStarts(scan, e, kind, excluded);
    assert Lists(due, StartsOf(starts, e), excluded, scan.lower + LeadMs(e, kind), scan.horizon + LeadMs(e, kind) + 1);
    if s in due {
      var i :| 0 <= i < |due| && due[i] == s;
      assert i < |due| - 1 ==> due[i] < due[|due| - 1];
    }
  }

  /** The last start in the window is the latest due. */
  lemma LatestIsLast(starts: Event -> iset<int>, scan: Scan, e: Event, kind: Kind, excluded: set<int>, s: int)
    requires ExpanderOk(scan.expand, starts)
    ensures var due := DueStarts(scan, e, kind, excluded);
            LatestDue(starts, e, kind, excluded, scan.lower, scan.horizon, s) <==> due != [] && due[|due| - 1] == s
  {
    var due := DueStarts(scan, e, kind, excluded);
    forall t ensures (t in due <==> IsDue(starts, e, kind, excluded, scan.lower, scan.horizon, t))
        && (t in due ==> t <= due[|due| - 1]) {
      DueStartsAre(starts, scan, e, kind, excluded, t);
    }
    if due != [] { assert due[|due| - 1] in due; }
  }

  /** A run claims an alarm exactly when it is due by the overrides it reads and not skipped. */
  lemma ClaimIsDue(starts: Event -> iset<int>, scan: Scan, nextDue: map<Slot, Remembered>, maxLeadMs: nat, a: Alarm)
    requires ExpanderOk(scan.expand, starts) && TableOk(starts, scan.table, maxLeadMs)
    ensures (Candidate(scan.table, scan.lower, scan.horizon + maxLeadMs, a.uid)
              && EventClaim(scan, nextDue, a.uid, a.kind) == Some(a.start))
       <==> FoundDue(starts, scan.table, scan.lower, scan.horizon, a) && !SkippedAt(scan, nextDue, a)
  {
    if Alarmed(scan.table, a.uid, a.kind) {
      var e := scan.table[a.uid].event;
      LatestIsLast(starts, scan, e, a.kind, FoundExcluded(scan.table, e), a.start);
      if FoundDue(starts, scan.table, scan.lower, scan.horizon, a) {
        DueIsCandidate(starts, scan.table, scan.lower, scan.horizon, maxLeadMs, a.uid, a.kind,
                       FoundExcluded(scan.table, e), a.start);
        DueStartsAre(starts, scan, e, a.kind, Exceptions(e), a.start);
      }
    }
  }
}
