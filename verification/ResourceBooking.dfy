/**
 * Whether an existing booking is in the way of requested occurrences: a search that halves the request where
 * expansion is cut off.
 */
module BookingConflicts {
  import opened Options
  import opened Keyset
  import opened Occurrences

  /** The expansion of the row `key` without the occurrences at `excluded`, over a window. */
  type Expander = (Key, set<int>, int, int) -> Expansion

  ghost predicate ExpandsRow(expand: Expander, key: Key, series: iset<Occurrence>) {
    forall excluded, from, to :: ExpandsOver(expand, key, series, excluded, from, to)
  }

  ghost predicate ExpandsOver(expand: Expander, key: Key, series: iset<Occurrence>, excluded: set<int>, from: int,
                              to: int)
  {
    Expands(expand(key, excluded, from, to), Except(series, excluded), from, to)
  }

  predicate ByStart(os: seq<Occurrence>) {
    forall i, j :: 0 <= i < j < |os| ==> os[i].start <= os[j].start
  }

  /** The latest end of `os[lo..hi]`. */
  function MaxEnd(os: seq<Occurrence>, lo: nat, hi: nat): (end: int)
    requires lo < hi <= |os|
    ensures forall i :: lo <= i < hi ==> os[i].end <= end
    ensures hi == lo + 1 ==> end == os[lo].end
  {
    if hi == lo + 1 then os[lo].end
    else
      var before := MaxEnd(os, lo, hi - 1);
      if before < os[hi - 1].end then os[hi - 1].end else before
  }

  /** The row expanded across the span of `requested[lo..hi]`. */
  function Across(expand: Expander, key: Key, excluded: set<int>, requested: seq<Occurrence>, lo: nat, hi: nat)
    : Expansion
    requires lo < hi <= |requested|
  {
    expand(key, excluded, requested[lo].start, MaxEnd(requested, lo, hi))
  }

  predicate AnyOverlap(requested: seq<Occurrence>, lo: nat, hi: nat, existing: seq<Occurrence>)
    requires lo <= hi <= |requested|
  {
    exists i, j :: lo <= i < hi && 0 <= j < |existing| && Overlap(requested[i], existing[j])
  }

  /** Whether the row overlaps any of `requested[lo..hi]`; `None` when that can't be told. */
  function Conflicts(expand: Expander, key: Key, excluded: set<int>, requested: seq<Occurrence>, lo: nat, hi: nat)
    : (r: Option<bool>)
    requires lo < hi <= |requested|
    decreases hi - lo
  {
    var existing := Across(expand, key, excluded, requested, lo, hi);
    if existing.truncated then
      if hi - lo <= 1 then None
      else
        var mid := lo + (hi - lo) / 2;
        var first := Conflicts(expand, key, excluded, requested, lo, mid);
        if first != Some(false) then first else Conflicts(expand, key, excluded, requested, mid, hi)
    else Some(AnyOverlap(requested, lo, hi, existing.occurrences))
  }

  ghost predicate ClearOf(r: Occurrence, series: iset<Occurrence>) {
    forall o :: o in series ==> !Overlap(r, o)
  }

  /** Whatever overlaps one of a group lies in the group's span. */
  lemma SpanHoldsOverlaps(requested: seq<Occurrence>, lo: nat, hi: nat, i: nat, o: Occurrence)
    requires lo <= i < hi <= |requested| && ByStart(requested) && Overlap(requested[i], o)
    ensures InWindow(o, requested[lo].start, MaxEnd(requested, lo, hi))
  {
  }

  /** A complete expansion without an overlap leaves the whole series clear. */
  lemma NoneOverlaps(existing: Expansion, series: iset<Occurrence>, requested: seq<Occurrence>, lo: nat, hi: nat,
                     i: nat)
    requires lo <= i < hi <= |requested| && ByStart(requested)
    requires Expands(existing, series, requested[lo].start, MaxEnd(requested, lo, hi)) && !existing.truncated
    requires !AnyOverlap(requested, lo, hi, existing.occurrences)
    ensures ClearOf(requested[i], series)
  {
    forall o | o in series ensures !Overlap(requested[i], o) {
      if o in existing.occurrences {
        var j :| 0 <= j < |existing.occurrences| && existing.occurrences[j] == o;
        assert !Overlap(requested[i], existing.occurrences[j]);
      } else if Overlap(requested[i], o) {
        SpanHoldsOverlaps(requested, lo, hi, i, o);
      }
    }
  }

  lemma NoHere(expand: Expander, key: Key, series: iset<Occurrence>, excluded: set<int>, requested: seq<Occurrence>,
               lo: nat, hi: nat, i: nat)
    requires lo <= i < hi <= |requested| && ByStart(requested) && ExpandsRow(expand, key, series)
    requires var existing := Across(expand, key, excluded, requested, lo, hi);
             !existing.truncated && !AnyOverlap(requested, lo, hi, existing.occurrences)
    ensures ClearOf(requested[i], Except(series, excluded))
  {
    assert ExpandsOver(expand, key, series, excluded, requested[lo].start, MaxEnd(requested, lo, hi));
    NoneOverlaps(Across(expand, key, excluded, requested, lo, hi), Except(series, excluded), requested, lo, hi, i);
  }

  /** "No" means nothing requested overlaps any occurrence. */
  lemma {:induction false} NoIsNo(expand: Expander, key: Key, series: iset<Occurrence>, excluded: set<int>,
                                  requested: seq<Occurrence>, lo: nat, hi: nat, i: nat)
    requires lo <= i < hi <= |requested| && ByStart(requested) && ExpandsRow(expand, key, series)
    requires Conflicts(expand, key, excluded, requested, lo, hi) == Some(false)
    ensures ClearOf(requested[i], Except(series, excluded))
    decreases hi - lo
  {
    if Across(expand, key, excluded, requested, lo, hi).truncated {
      var mid := lo + (hi - lo) / 2;
      if i < mid {
        NoIsNo(expand, key, series, excluded, requested, lo, mid, i);
      } else {
        NoIsNo(expand, key, series, excluded, requested, mid, hi, i);
      }
    } else {
      NoHere(expand, key, series, excluded, requested, lo, hi, i);
    }
  }

  lemma YesHere(expand: Expander, key: Key, series: iset<Occurrence>, excluded: set<int>, requested: seq<Occurrence>,
                lo: nat, hi: nat)
    returns (i: nat, o: Occurrence)
    requires lo < hi <= |requested| && ExpandsRow(expand, key, series)
    requires AnyOverlap(requested, lo, hi, Across(expand, key, excluded, requested, lo, hi).occurrences)
    ensures lo <= i < hi && o in Except(series, excluded) && Overlap(requested[i], o)
  {
    var existing := Across(expand, key, excluded, requested, lo, hi);
    assert ExpandsOver(expand, key, series, excluded, requested[lo].start, MaxEnd(requested, lo, hi));
    var a, b :| lo <= a < hi && 0 <= b < |existing.occurrences| && Overlap(requested[a], existing.occurrences[b]);
    i, o := a, existing.occurrences[b];
  }

  /** "Yes" means some requested occurrence overlaps an occurrence of the series. */
  lemma {:induction false} YesIsYes(expand: Expander, key: Key, series: iset<Occurrence>, excluded: set<int>,
                                    requested: seq<Occurrence>, lo: nat, hi: nat)
    returns (i: nat, o: Occurrence)
    requires lo < hi <= |requested| && ExpandsRow(expand, key, series)
    requires Conflicts(expand, key, excluded, requested, lo, hi) == Some(true)
    ensures lo <= i < hi && o in Except(series, excluded) && Overlap(requested[i], o)
    decreases hi - lo
  {
    if Across(expand, key, excluded, requested, lo, hi).truncated {
      var mid := lo + (hi - lo) / 2;
      if Conflicts(expand, key, excluded, requested, lo, mid) == Some(true) {
        i, o := YesIsYes(expand, key, series, excluded, requested, lo, mid);
      } else {
        i, o := YesIsYes(expand, key, series, excluded, requested, mid, hi);
      }
    } else {
      i, o := YesHere(expand, key, series, excluded, requested, lo, hi);
    }
  }

  /** "Can't tell" means the span of a single requested occurrence could not be expanded. */
  lemma {:induction false} UnknownIsCutOff(expand: Expander, key: Key, excluded: set<int>, requested: seq<Occurrence>,
                                           lo: nat, hi: nat)
    returns (i: nat)
    requires lo < hi <= |requested| && Conflicts(expand, key, excluded, requested, lo, hi).None?
    ensures lo <= i < hi && expand(key, excluded, requested[i].start, requested[i].end).truncated
    decreases hi - lo
  {
    if hi - lo <= 1 {
      i := lo;
    } else {
      var mid := lo + (hi - lo) / 2;
      if Conflicts(expand, key, excluded, requested, lo, mid).None? {
        i := UnknownIsCutOff(expand, key, excluded, requested, lo, mid);
      } else {
        i := UnknownIsCutOff(expand, key, excluded, requested, mid, hi);
      }
    }
  }
}

/** The occurrences a booking request asks for: its series expanded in chunks of the horizon, and its overrides. */
module RequestedOccurrences {
  import opened Options
  import opened Occurrences

  const DAY := 86_400_000
  const HORIZON := 731 * DAY
  const CHUNK := 60 * DAY
  const MAX_REQUESTED := 5000

  datatype Override = Override(start: Option<int>, end: Option<int>, cancelled: bool)

  datatype Request = Request(icalUid: string, start: int, end: int, recurring: bool, overrides: seq<Override>)

  /** `series` are the request's occurrences: none before its start, all of its length. */
  ghost predicate SeriesOf(request: Request, series: iset<Occurrence>) {
    && (forall o :: o in series ==> o.start >= request.start && o.end - o.start == request.end - request.start)
    && (!request.recurring ==> series == iset{Occurrence(request.start, request.end)})
  }

  ghost predicate ExpandsRequest(expand: (int, int) -> Expansion, series: iset<Occurrence>) {
    forall from, to :: Expands(expand(from, to), series, from, to)
  }

  /** The start of the chunk that holds `t`. */
  function ChunkStart(start: int, t: int): (c: int) {
    start + (t - start) / CHUNK * CHUNK
  }

  /** Inside the horizon and still running when the chunk it starts in begins. */
  predicate Covered(request: Request, o: Occurrence) {
    o.start < request.start + HORIZON && o.end > ChunkStart(request.start, o.start)
  }

  function Smaller(a: int, b: int): int { if a < b then a else b }

  /** The chunk from `request.start + n * CHUNK` adds exactly the covered occurrences that start in it. */
  lemma ChunkAdds(request: Request, n: nat, o: Occurrence)
    requires o.start >= request.start
    ensures var from := request.start + n * CHUNK; var end := request.start + HORIZON;
            && (InWindow(o, from, Smaller(from + CHUNK, end)) ==> o.start < from + CHUNK && Covered(request, o))
            && (from <= o.start < from + CHUNK && Covered(request, o) ==> InWindow(o, from, Smaller(from + CHUNK, end)))
  {
    var k := (o.start - request.start) / CHUNK;
    assert k * CHUNK <= o.start - request.start < (k + 1) * CHUNK;
    if InWindow(o, request.start + n * CHUNK, Smaller(request.start + n * CHUNK + CHUNK, request.start + HORIZON)) {
      assert k * CHUNK < (n + 1) * CHUNK;
      assert k <= n;
      assert k * CHUNK <= n * CHUNK;
    }
  }

  /** The map by start holds the covered occurrences that start before `bound`. */
  ghost predicate Holds(m: map<int, Occurrence>, request: Request, series: iset<Occurrence>, bound: int) {
    && (forall t :: t in m ==> m[t].start == t && m[t] in series && Covered(request, m[t]))
    && (forall o :: o in series && Covered(request, o) && o.start < bound ==> o.start in m)
  }

  ghost predicate MoreThanAllowed(request: Request, series: iset<Occurrence>, m: map<int, Occurrence>) {
    |m| > MAX_REQUESTED && forall t :: t in m ==> m[t].start == t && m[t] in series && Covered(request, m[t])
  }

  /** More occurrences are covered than a request may ask for. */
  ghost predicate TooMany(request: Request, series: iset<Occurrence>) {
    exists m :: MoreThanAllowed(request, series, m)
  }

  predicate Under(m: map<int, Occurrence>, o: Occurrence) { o.start in m && m[o.start] == o }

  /** `m` with each of `os` put under its start. */
  method PutAll(m: map<int, Occurrence>, os: seq<Occurrence>) returns (r: map<int, Occurrence>)
    ensures forall t :: t in r ==> (t in m && r[t] == m[t]) || (r[t] in os && r[t].start == t)
    ensures forall t :: t in m ==> t in r
    ensures forall o :: o in os ==> o.start in r
  {
    r := m;
    for i := 0 to |os|
      invariant forall t :: t in r ==> (t in m && r[t] == m[t]) || (r[t] in os && r[t].start == t)
      invariant forall t :: t in m ==> t in r
      invariant forall j :: 0 <= j < i ==> os[j].start in r
    {
      r := r[os[i].start := os[i]];
    }
  }

  /** One chunk more. */
  method AddChunk(request: Request, expand: (int, int) -> Expansion, ghost series: iset<Occurrence>,
                  m: map<int, Occurrence>, from: int, ghost n: nat)
    returns (r: map<int, Occurrence>, truncated: bool)
    requires SeriesOf(request, series) && ExpandsRequest(expand, series) && from == request.start + n * CHUNK
    requires Holds(m, request, series, from)
    ensures !truncated ==> Holds(r, request, series, from + CHUNK)
    ensures truncated ==> exists a, b :: expand(a, b).truncated
  {
    var to := Smaller(from + CHUNK, request.start + HORIZON);
    var chunk := expand(from, to);
    assert Expands(chunk, series, from, to);
    r := PutAll(m, chunk.occurrences);
    truncated := chunk.truncated;
    forall o | o in series
      ensures InWindow(o, from, to) ==> o.start < from + CHUNK && Covered(request, o)
      ensures from <= o.start < from + CHUNK && Covered(request, o) ==> InWindow(o, from, to)
    {
      ChunkAdds(request, n, o);
    }
  }

  /** The request's own occurrences by start; none when there are too many to check. */
  method ExpandRequest(request: Request, expand: (int, int) -> Expansion, ghost series: iset<Occurrence>)
    returns (found: Option<map<int, Occurrence>>)
    requires SeriesOf(request, series) && ExpandsRequest(expand, series)
    ensures found.Some? ==> forall o :: Under(found.value, o) <==> o in series && Covered(request, o)
    ensures found.Some? ==> forall t :: t in found.value ==> found.value[t].start == t
    ensures found.None? ==> TooMany(request, series) || exists from, to :: expand(from, to).truncated
  {
    var byStart: map<int, Occurrence> := map[];
    var chunkStart, end := request.start, request.start + HORIZON;
    ghost var n: nat := 0;
    while chunkStart < end
      invariant chunkStart == request.start + n * CHUNK && Holds(byStart, request, series, chunkStart)
      decreases end - chunkStart
    {
      var truncated;
      byStart, truncated := AddChunk(request, expand, series, byStart, chunkStart, n);
      if truncated || |byStart| > MAX_REQUESTED {
        assert !truncated ==> MoreThanAllowed(request, series, byStart);
        return None;
      }
      chunkStart, n := chunkStart + CHUNK, n + 1;
      if !request.recurring { break; }
    }
    forall o | o in series && Covered(request, o) ensures o.start in byStart && byStart[o.start] == o {
      assert o.start < chunkStart;
    }
    found := Some(byStart);
  }

  /** The whole horizon in one expansion. */
  predicate InHorizon(request: Request, o: Occurrence) {
    InWindow(o, request.start, request.start + HORIZON)
  }

  /**
   * The chunks, put together by start, are one expansion over the horizon exactly when every occurrence
   * outlives the start of its chunk.
   */
  lemma ChunksAreTheHorizon(request: Request, series: iset<Occurrence>)
    requires SeriesOf(request, series)
    ensures (forall o :: o in series ==> (Covered(request, o) <==> InHorizon(request, o)))
       <==> (forall o :: o in series && InHorizon(request, o) ==> o.end > ChunkStart(request.start, o.start))
    ensures request.end > request.start ==> forall o :: o in series ==> (Covered(request, o) <==> InHorizon(request, o))
  {
    forall o | o in series
      ensures ChunkStart(request.start, o.start) >= request.start
      ensures ChunkStart(request.start, o.start) <= o.start
    {
      var k := (o.start - request.start) / CHUNK;
      assert 0 <= k * CHUNK <= o.start - request.start;
    }
  }

  /** A request for one occurrence never asks for too many. */
  lemma OneIsNotTooMany(request: Request, o: Occurrence)
    ensures !TooMany(request, iset{o})
  {
    forall m: map<int, Occurrence> ensures !MoreThanAllowed(request, iset{o}, m) {
      if forall t :: t in m ==> m[t].start == t && m[t] in iset{o} {
        assert m.Keys <= {o.start};
        SubsetOfOne(m.Keys, o.start);
      }
    }
  }

  lemma SubsetOfOne(s: set<int>, t: int)
    requires s <= {t}
    ensures |s| <= 1
  {
    assert s == {} || s == {t};
  }

  const BOUNDARY := Occurrence(CHUNK, CHUNK)

  /**
   * A request whose one later occurrence, of no length, starts where the second chunk does: it is in the horizon,
   * and the chunks put together leave it out.
   */
  method BoundaryOccurrenceMissed() returns (found: Option<map<int, Occurrence>>)
    ensures InHorizon(Request("requested", 0, 0, true, []), BOUNDARY) && found == Some(map[])
  {
    var request := Request("requested", 0, 0, true, []);
    var expand := (from: int, to: int) => Expansion(Within([BOUNDARY], {}, from, to), false);
    ghost var series := iset{BOUNDARY};
    assert ExpandsRequest(expand, series) by {
      forall from, to ensures Expands(expand(from, to), series, from, to) { }
    }
    OneIsNotTooMany(request, BOUNDARY);
    assert forall from, to :: !expand(from, to).truncated;
    found := ExpandRequest(request, expand, series);
    assert !Covered(request, BOUNDARY);
    assert forall t :: t in found.value ==> Under(found.value, found.value[t]);
    assert found.value == map[];
  }
}

/**
 * The decision on a booking request for a resource that accepts bookings by itself. Rows are keyed by
 * `(startDate, uid)`.
 */
module ResourceBooking {
  import opened Options
  import opened OffsetPages
  import opened Keyset
  import opened StableSort
  import opened Occurrences
  import opened BookingConflicts
  import opened RequestedOccurrences

  const ROWS_LIMIT: nat := 500
  const MAX_PAGES: nat := 20
  const OVERRIDE_LOOKBACK := DAY

  datatype Mailbox = Mailbox(maxDurationMinutes: Option<int>, bookingWindowDays: Option<int>, allowConflicts: bool)

  datatype Rule = Rule(until: Option<int>, exceptions: set<int>)

  datatype Booking = Booking(icalUid: string, end: int, rule: Option<Rule>, recurrenceId: Option<int>)

  datatype Reason = TooLong | TooFarAhead | TooManyRequested | TooManyRows | CantTell | Conflict

  datatype Decision = Accepted | Declined(reason: Reason)

  /** The occurrences each row describes. */
  type Series = Key -> iset<Occurrence>

  predicate Master(b: Booking) { b.rule.Some? && b.recurrenceId.None? }

  /** `series(k)` are the occurrences row `k` describes: one for a row without a rule. Override rows carry no rule. */
  ghost predicate CalendarOk(table: map<Key, Booking>, expand: Expander, series: Series) {
    forall k :: k in table ==>
      && ExpandsRow(expand, k, series(k))
      && (table[k].rule.None? ==> series(k) == iset{Occurrence(k.at, table[k].end)})
      && (table[k].recurrenceId.Some? ==> table[k].rule.None?)
  }

  /** An override row of the same event stands for the occurrence at `t`. */
  predicate Overridden(table: map<Key, Booking>, icalUid: string, t: int) {
    exists k :: k in table && table[k].icalUid == icalUid && table[k].recurrenceId == Some(t)
  }

  /**
   * When the resource is taken by row `k`: its occurrences without the exceptions and the ones an override
   * row stands for.
   */
  ghost function Busy(table: map<Key, Booking>, series: Series, k: Key): (busy: iset<Occurrence>)
    requires k in table
  {
    iset o | o in series(k) && !(Master(table[k])
      && (o.start in table[k].rule.value.exceptions || Overridden(table, table[k].icalUid, o.start)))
  }

  /** An override among the first `n` that is not cancelled and starts inside the horizon. */
  predicate IsOverride(request: Request, r: Occurrence, n: nat)
    requires n <= |request.overrides|
  {
    Override(Some(r.start), Some(r.end), false) in request.overrides[..n] && r.start < request.start + HORIZON
  }

  predicate FromOverride(request: Request, r: Occurrence) { IsOverride(request, r, |request.overrides|) }

  /** What the request asks for: its covered occurrences and the overrides that are not cancelled. */
  ghost predicate Asked(request: Request, series: iset<Occurrence>, r: Occurrence) {
    (r in series && Covered(request, r)) || FromOverride(request, r)
  }

  /** `requested` is everything asked for, by start. */
  ghost predicate IsRequested(requested: seq<Occurrence>, request: Request, asked: iset<Occurrence>) {
    ByStart(requested) && forall r :: r in requested <==> Asked(request, asked, r)
  }

  function StartOf(o: Occurrence): int { o.start }

  method ValuesOf(m: map<int, Occurrence>) returns (os: seq<Occurrence>)
    requires forall t :: t in m ==> m[t].start == t
    ensures forall o: Occurrence :: o in os <==> o.start in m && m[o.start] == o
  {
    os := [];
    var todo := set o | o in m.Values && o.start in m && m[o.start] == o;
    while todo != {}
      invariant forall o :: o in todo ==> o.start in m && m[o.start] == o
      invariant forall o: Occurrence :: o in os <==> o.start in m && m[o.start] == o && o !in todo
      decreases todo
    {
      var o :| o in todo;
      os, todo := os + [o], todo - {o};
    }
  }

  method AddOverrides(request: Request, os: seq<Occurrence>) returns (all: seq<Occurrence>)
    ensures forall r :: r in all <==> r in os || FromOverride(request, r)
  {
    all := os;
    for i := 0 to |request.overrides|
      invariant forall r :: r in all <==> r in os || IsOverride(request, r, i)
    {
      var v := request.overrides[i];
      if v.start.Some? && v.end.Some? && !v.cancelled && v.start.value < request.start + HORIZON {
        all := all + [Occurrence(v.start.value, v.end.value)];
      }
    }
    assert request.overrides[..|request.overrides|] == request.overrides;
  }

  function SortByStart(os: seq<Occurrence>): (r: seq<Occurrence>)
    ensures ByStart(r) && |r| == |os| && forall o :: o in r <==> o in os
  {
    var r := Sort(os, StartOf);
    assert forall i :: 0 <= i < |r| ==> StartOf(r[i]) == r[i].start;
    r
  }

  /** Everything asked for, sorted by start; none when there is too much to check. */
  method CollectRequested(request: Request, expand: (int, int) -> Expansion, ghost series: iset<Occurrence>)
    returns (requested: Option<seq<Occurrence>>)
    requires SeriesOf(request, series) && ExpandsRequest(expand, series)
    ensures requested.Some? ==> IsRequested(requested.value, request, series)
    ensures requested.None? ==> TooMany(request, series) || exists from, to :: expand(from, to).truncated
  {
    var found := ExpandRequest(request, expand, series);
    if found.None? { return None; }
    var os := ValuesOf(found.value);
    var all := AddOverrides(request, os);
    requested := Some(SortByStart(all));
  }

  /** Every page of the rows at `keys`, or none once the most pages were read without reaching the end. */
  method ReadBookingPages(keys: set<Key>) returns (all: Option<seq<Key>>)
    ensures all.Some? <==> |keys| < MAX_PAGES * ROWS_LIMIT
    ensures all.Some? ==> all.value == Ascending(keys)
  {
    var table := Ascending(keys);
    var read: seq<Key> := [];
    for page := 0 to MAX_PAGES
      invariant page * ROWS_LIMIT <= |table| && read == table[..page * ROWS_LIMIT]
    {
      var rows := PageOf(table, ROWS_LIMIT, page);
      PagesJoin(table, ROWS_LIMIT, page);
      read := read + rows;
      if |rows| < ROWS_LIMIT { return Some(read); }
    }
    return None;
  }

  /** The span of everything requested. */
  datatype Window = Window(start: int, end: int)

  function WindowOf(requested: seq<Occurrence>): (w: Window)
    requires requested != []
  {
    Window(requested[0].start, MaxEnd(requested, 0, |requested|))
  }

  predicate Overlaps(table: map<Key, Booking>, k: Key, w: Window)
    requires k in table
  {
    k.at < w.end && table[k].end > w.start
  }

  /** The first read's bounds are those of an overlap with the window. */
  lemma OverlapsIsOverlap(table: map<Key, Booking>, k: Key, w: Window)
    requires k in table
    ensures Overlaps(table, k, w) <==> Overlap(Occurrence(k.at, table[k].end), Occurrence(w.start, w.end))
  {
  }

  /** A master whose series may reach past `from`. */
  predicate StillRunning(b: Booking, from: int) {
    Master(b) && (b.rule.value.until.None? || b.rule.value.until.value >= from)
  }

  /** A row the request is compared with. */
  predicate Compared(table: map<Key, Booking>, k: Key, w: Window) {
    k in table && (Overlaps(table, k, w) || StillRunning(table[k], w.start))
  }

  /** A row whose recurrence id takes an occurrence of its series out. */
  predicate Consulted(table: map<Key, Booking>, k: Key, w: Window) {
    k in table && (Overlaps(table, k, w) || MovedFrom(table[k], w.start - OVERRIDE_LOOKBACK))
  }

  /** An override row for an occurrence from `t` on. */
  predicate MovedFrom(b: Booking, t: int) { b.recurrenceId.Some? && b.recurrenceId.value >= t }

  function ConsultedRows(table: map<Key, Booking>, w: Window): (rows: set<Key>) {
    set k | k in table && Consulted(table, k, w)
  }

  function Near(table: map<Key, Booking>, w: Window): (rows: set<Key>)
    ensures |rows| <= |table|
  {
    var rows := set k | k in table && Overlaps(table, k, w);
    SubsetSmaller(rows, table.Keys);
    rows
  }

  function Recurring(table: map<Key, Booking>): (rows: set<Key>)
    ensures |rows| <= |table|
  {
    var rows := set k | k in table && table[k].rule.Some?;
    SubsetSmaller(rows, table.Keys);
    rows
  }

  function Moved(table: map<Key, Booking>, t: int): (rows: set<Key>)
    ensures |rows| <= |table|
  {
    var rows := set k | k in table && MovedFrom(table[k], t);
    SubsetSmaller(rows, table.Keys);
    rows
  }

  /** The three reads: the rows to compare with and those to consult; not `ok` when a read is too large. */
  method ReadCandidates(table: map<Key, Booking>, w: Window)
    returns (ok: bool, candidates: seq<Key>, consulted: set<Key>)
    ensures ok ==> forall k :: k in candidates <==> Compared(table, k, w)
    ensures ok ==> consulted == ConsultedRows(table, w)
    ensures !ok ==> |table| >= MAX_PAGES * ROWS_LIMIT
  {
    ok, candidates, consulted := false, [], {};
    var overlapping := ReadBookingPages(Near(table, w));
    if overlapping.None? { return; }
    var masters := ReadBookingPages(Recurring(table));
    if masters.None? { return; }
    var overrides := ReadBookingPages(Moved(table, w.start - OVERRIDE_LOOKBACK));
    if overrides.None? { return; }
    candidates := AddMasters(table, w.start, overlapping.value, masters.value);
    consulted := SetOf(overlapping.value) + SetOf(overrides.value);
    ReadsAre(table, w);
    ok := true;
  }

  function SetOf(ks: seq<Key>): (r: set<Key>)
    ensures forall k :: k in r <==> k in ks
  {
    set k | k in ks
  }

  lemma ReadsAre(table: map<Key, Booking>, w: Window)
    ensures forall k :: Compared(table, k, w)
              <==> k in Near(table, w) || (k in Recurring(table) && StillRunning(table[k], w.start))
    ensures ConsultedRows(table, w) == Near(table, w) + Moved(table, w.start - OVERRIDE_LOOKBACK)
  {
  }

  method AddMasters(table: map<Key, Booking>, from: int, overlapping: seq<Key>, masters: seq<Key>)
    returns (candidates: seq<Key>)
    requires forall k :: k in masters ==> k in table
    ensures forall k :: k in candidates <==> k in overlapping || (k in masters && StillRunning(table[k], from))
  {
    candidates := overlapping;
    for i := 0 to |masters|
      invariant forall k ::
          k in candidates <==> k in overlapping || (k in masters[..i] && StillRunning(table[k], from))
    {
      assert masters[..i + 1] == masters[..i] + [masters[i]];
      if StillRunning(table[masters[i]], from) && masters[i] !in candidates {
        candidates := candidates + [masters[i]];
      }
    }
    assert masters[..|masters|] == masters;
  }

  /** The starts left out of a row's expansion. */
  function Excluded(table: map<Key, Booking>, b: Booking, rows: set<Key>): (starts: set<int>)
    requires rows <= table.Keys
  {
    if Master(b) then
      b.rule.value.exceptions
      + (set k | k in rows && table[k].icalUid == b.icalUid
        && table[k].recurrenceId.Some? :: table[k].recurrenceId.value)
    else {}
  }

  /** The occurrences of row `k` the request is compared with. */
  ghost function Considered(table: map<Key, Booking>, series: Series, k: Key, w: Window): (considered: iset<Occurrence>)
    requires k in table
  {
    Except(series(k), Excluded(table, table[k], ConsultedRows(table, w)))
  }

  /** What is left out is never busy. */
  lemma BusyIsConsidered(table: map<Key, Booking>, series: Series, k: Key, w: Window, o: Occurrence)
    requires k in table && o in Busy(table, series, k)
    ensures o in Considered(table, series, k, w)
  {
  }

  /** An override row of `k` for the occurrence at `t` that no read finds: too long ago, and itself elsewhere. */
  predicate MovedUnseen(table: map<Key, Booking>, k: Key, w: Window, t: int)
    requires k in table
  {
    && Master(table[k]) && t < w.start - OVERRIDE_LOOKBACK
    && exists j :: j in table && table[j].icalUid == table[k].icalUid && table[j].recurrenceId == Some(t)
                   && !Overlaps(table, j, w)
  }

  /** What is considered is busy exactly when no override row that goes unread moved it away. */
  lemma ConsideredIsBusyIff(table: map<Key, Booking>, series: Series, k: Key, w: Window, o: Occurrence)
    requires k in table && o in Considered(table, series, k, w)
    ensures o in Busy(table, series, k) <==> !MovedUnseen(table, k, w, o.start)
  {
    if Master(table[k]) {
      forall j | j in table && table[j].icalUid == table[k].icalUid && table[j].recurrenceId == Some(o.start)
        ensures j !in ConsultedRows(table, w)
      {
        assert o.start !in Excluded(table, table[k], ConsultedRows(table, w));
      }
    }
  }

  ghost predicate ClearOfAll(requested: seq<Occurrence>, series: iset<Occurrence>) {
    forall i :: 0 <= i < |requested| ==> ClearOf(requested[i], series)
  }

  /** Requested occurrence `i` overlaps the considered occurrence `o` of the other booking `k`. */
  ghost predicate Blocks(table: map<Key, Booking>, series: Series, icalUid: string, requested: seq<Occurrence>,
                         k: Key, i: int, o: Occurrence)
    requires requested != []
  {
    && Compared(table, k, WindowOf(requested)) && table[k].icalUid != icalUid && 0 <= i < |requested|
    && o in Considered(table, series, k, WindowOf(requested)) && Overlap(requested[i], o)
  }

  /** No booking the request is compared with is in its way. */
  ghost predicate NoneInTheWay(table: map<Key, Booking>, series: Series, icalUid: string, requested: seq<Occurrence>) {
    requested == [] || forall k, i, o :: !Blocks(table, series, icalUid, requested, k, i, o)
  }

  ghost predicate CutOffAt(table: map<Key, Booking>, expand: Expander, requested: seq<Occurrence>,
                           k: Key, excluded: set<int>, i: int)
  {
    k in table && 0 <= i < |requested| && expand(k, excluded, requested[i].start, requested[i].end).truncated
  }

  /** A booking's occurrences around a single requested one are too many to expand. */
  ghost predicate CutOff(table: map<Key, Booking>, expand: Expander, requested: seq<Occurrence>) {
    exists k, excluded, i :: CutOffAt(table, expand, requested, k, excluded, i)
  }

  /** One row: no answer means its considered occurrences are out of the way. */
  method CheckCandidate(table: map<Key, Booking>, expand: Expander, ghost series: Series, icalUid: string,
                        requested: seq<Occurrence>, rows: set<Key>, k: Key)
    returns (why: Option<Reason>)
    requires CalendarOk(table, expand, series) && ByStart(requested) && requested != []
    requires Compared(table, k, WindowOf(requested)) && table[k].icalUid != icalUid
    requires rows == ConsultedRows(table, WindowOf(requested))
    ensures why.None? ==> ClearOfAll(requested, Considered(table, series, k, WindowOf(requested)))
    ensures why.Some? ==> why.value == CantTell || why.value == Conflict
    ensures why == Some(CantTell) ==> CutOff(table, expand, requested)
    ensures why == Some(Conflict) ==> !NoneInTheWay(table, series, icalUid, requested)
  {
    var excluded := Excluded(table, table[k], rows);
    assert ExpandsRow(expand, k, series(k));
    var conflict := Conflicts(expand, k, excluded, requested, 0, |requested|);
    match conflict {
      case None =>
        why := Some(CantTell);
        ghost var i := UnknownIsCutOff(expand, k, excluded, requested, 0, |requested|);
        assert CutOffAt(table, expand, requested, k, excluded, i);
      case Some(yes) =>
        if yes {
          why := Some(Conflict);
          ghost var i, o := YesIsYes(expand, k, series(k), excluded, requested, 0, |requested|);
          assert Blocks(table, series, icalUid, requested, k, i, o);
        } else {
          why := None;
          forall i | 0 <= i < |requested|
            ensures ClearOf(requested[i], Considered(table, series, k, WindowOf(requested)))
          {
            NoIsNo(expand, k, series(k), excluded, requested, 0, |requested|, i);
          }
        }
    }
  }

  /** All rows in turn; a row of the very same event is passed over. */
  method CheckCandidates(table: map<Key, Booking>, expand: Expander, ghost series: Series, icalUid: string,
                         requested: seq<Occurrence>, rows: set<Key>, candidates: seq<Key>)
    returns (why: Option<Reason>)
    requires CalendarOk(table, expand, series) && ByStart(requested) && requested != []
    requires rows == ConsultedRows(table, WindowOf(requested))
    requires forall k :: k in candidates ==> k in table
    requires forall k :: k in candidates <==> Compared(table, k, WindowOf(requested))
    ensures why.None? ==> NoneInTheWay(table, series, icalUid, requested)
    ensures why.Some? ==> why.value == CantTell || why.value == Conflict
    ensures why == Some(CantTell) ==> CutOff(table, expand, requested)
    ensures why == Some(Conflict) ==> !NoneInTheWay(table, series, icalUid, requested)
  {
    ghost var w := WindowOf(requested);
    assert forall j :: 0 <= j < |candidates| ==> candidates[j] in candidates;
    for i := 0 to |candidates|
      invariant forall j :: 0 <= j < i && table[candidates[j]].icalUid != icalUid ==>
                  ClearOfAll(requested, Considered(table, series, candidates[j], w))
    {
      if table[candidates[i]].icalUid != icalUid {
        why := CheckCandidate(table, expand, series, icalUid, requested, rows, candidates[i]);
        if why.Some? { return; }
      }
    }
    why := None;
    forall k, i, o ensures !Blocks(table, series, icalUid, requested, k, i, o) {
      if Compared(table, k, w) && table[k].icalUid != icalUid && 0 <= i < |requested| {
        var j :| 0 <= j < |candidates| && candidates[j] == k;
        assert ClearOf(requested[i], Considered(table, series, candidates[j], w));
      }
    }
  }

  method CheckExisting(table: map<Key, Booking>, expand: Expander, ghost series: Series, icalUid: string,
                       requested: seq<Occurrence>)
    returns (d: Decision)
    requires CalendarOk(table, expand, series) && ByStart(requested)
    ensures d.Accepted? ==> NoneInTheWay(table, series, icalUid, requested)
    ensures d.Declined? ==> d.reason in {TooManyRows, CantTell, Conflict}
    ensures d == Declined(Conflict) ==> !NoneInTheWay(table, series, icalUid, requested)
    ensures d == Declined(CantTell) ==> CutOff(table, expand, requested)
    ensures d == Declined(TooManyRows) ==> |table| >= MAX_PAGES * ROWS_LIMIT
  {
    if requested == [] { return Accepted; }
    var ok, candidates, consulted := ReadCandidates(table, WindowOf(requested));
    if !ok { return Declined(TooManyRows); }
    var why := CheckCandidates(table, expand, series, icalUid, requested, consulted, candidates);
    if why.Some? { return Declined(why.value); }
    d := Accepted;
  }

  predicate TooLongFor(mailbox: Mailbox, request: Request) {
    mailbox.maxDurationMinutes.Some? && request.end - request.start > mailbox.maxDurationMinutes.value * 60_000
  }

  predicate TooFarFor(mailbox: Mailbox, request: Request, now: int) {
    mailbox.bookingWindowDays.Some? && request.start > now + mailbox.bookingWindowDays.value * DAY
  }

  /**
   * Accept or decline. A request is declined for its length or its distance, exactly; otherwise, with
   * conflicts disallowed, it is accepted only if no booking it is compared with is in its way and declined
   * for a conflict only if one is. Anything else means there was too much to check.
   */
  method DecideResourceBooking(mailbox: Mailbox, request: Request, now: int, expandRequest: (int, int) -> Expansion,
                               ghost asked: iset<Occurrence>, table: map<Key, Booking>, expand: Expander,
                               ghost series: Series)
    returns (d: Decision, ghost requested: seq<Occurrence>)
    requires SeriesOf(request, asked) && ExpandsRequest(expandRequest, asked) && CalendarOk(table, expand, series)
    ensures d == Declined(TooLong) <==> TooLongFor(mailbox, request)
    ensures d == Declined(TooFarAhead) <==> !TooLongFor(mailbox, request) && TooFarFor(mailbox, request, now)
    ensures mailbox.allowConflicts ==> d.Accepted? || d.reason in {TooLong, TooFarAhead}
    ensures d.Accepted? && !mailbox.allowConflicts ==>
              IsRequested(requested, request, asked) && NoneInTheWay(table, series, request.icalUid, requested)
    ensures d == Declined(Conflict) ==>
              IsRequested(requested, request, asked) && !NoneInTheWay(table, series, request.icalUid, requested)
    ensures d == Declined(CantTell) ==> IsRequested(requested, request, asked) && CutOff(table, expand, requested)
    ensures d == Declined(TooManyRows) ==> |table| >= MAX_PAGES * ROWS_LIMIT
    ensures d == Declined(TooManyRequested) ==>
              TooMany(request, asked) || exists from, to :: expandRequest(from, to).truncated
  {
    requested := [];
    if mailbox.maxDurationMinutes.Some? {
      var duration := request.end - request.start;
      if duration > mailbox.maxDurationMinutes.value * 60_000 { d := Declined(TooLong); return; }
    }
    if mailbox.bookingWindowDays.Some? {
      var latestBookableStart := now + mailbox.bookingWindowDays.value * DAY;
      if request.start > latestBookableStart { d := Declined(TooFarAhead); return; }
    }
    if mailbox.allowConflicts { d := Accepted; return; }
    var collected := CollectRequested(request, expandRequest, asked);
    if collected.None? { d := Declined(TooManyRequested); return; }
    requested := collected.value;
    d := CheckExisting(table, expand, series, request.icalUid, collected.value);
  }

  // ---- what an answer means ----

  /** Something requested overlaps a time the resource is taken by row `k`. */
  ghost predicate DoubleBooks(table: map<Key, Booking>, series: Series, requested: seq<Occurrence>, k: Key)
    requires k in table
  {
    !ClearOfAll(requested, Busy(table, series, k))
  }

  /**
   * A series dropped unread: by its `until` it is over when the window begins, and its first instance lies
   * outside it.
   */
  predicate Dropped(table: map<Key, Booking>, k: Key, w: Window)
    requires k in table
  {
    && Master(table[k]) && table[k].rule.value.until.Some? && table[k].rule.value.until.value < w.start
    && !Overlaps(table, k, w)
  }

  /** The three reads miss no row that is in the way, but for a series dropped unread. */
  lemma ReadsMissNothing(table: map<Key, Booking>, expand: Expander, series: Series, requested: seq<Occurrence>, k: Key)
    requires CalendarOk(table, expand, series) && ByStart(requested) && requested != []
    requires k in table && DoubleBooks(table, series, requested, k)
    ensures Compared(table, k, WindowOf(requested)) || Dropped(table, k, WindowOf(requested))
  {
    var i :| 0 <= i < |requested| && !ClearOf(requested[i], Busy(table, series, k));
    assert requested[i] in requested && requested[0].start <= requested[i].start;
  }

  /** Where nothing compared is in the way, only a series dropped unread is double booked. */
  lemma OnlyDroppedDoubleBooked(table: map<Key, Booking>, expand: Expander, series: Series, icalUid: string,
                                requested: seq<Occurrence>, k: Key)
    requires CalendarOk(table, expand, series) && ByStart(requested) && requested != []
    requires NoneInTheWay(table, series, icalUid, requested)
    requires k in table && table[k].icalUid != icalUid && DoubleBooks(table, series, requested, k)
    ensures Dropped(table, k, WindowOf(requested))
  {
    var w := WindowOf(requested);
    ReadsMissNothing(table, expand, series, requested, k);
    if Compared(table, k, w) {
      var i :| 0 <= i < |requested| && !ClearOf(requested[i], Busy(table, series, k));
      var o :| o in Busy(table, series, k) && Overlap(requested[i], o);
      BusyIsConsidered(table, series, k, w, o);
      assert Blocks(table, series, icalUid, requested, k, i, o);
      assert false;
    }
  }

  /** Some busy occurrence of row `k` still runs when the window begins. */
  ghost predicate RunsIn(table: map<Key, Booking>, series: Series, k: Key, w: Window)
    requires k in table
  {
    exists o :: o in Busy(table, series, k) && o.end > w.start
  }

  /** Occurrences start no later than the rule's `until`. */
  ghost predicate StartsByUntil(b: Booking, series: iset<Occurrence>) {
    Master(b) && b.rule.value.until.Some? ==> forall o :: o in series ==> o.start <= b.rule.value.until.value
  }

  /**
   * Exactly what an accepted request can double book: a series dropped unread one of whose occurrences
   * still runs when the window begins.
   */
  lemma DoubleBookedIff(table: map<Key, Booking>, expand: Expander, series: Series, icalUid: string,
                        requested: seq<Occurrence>, k: Key)
    requires CalendarOk(table, expand, series) && ByStart(requested) && requested != []
    requires NoneInTheWay(table, series, icalUid, requested)
    requires k in table && table[k].icalUid != icalUid && StartsByUntil(table[k], series(k))
    requires requested[0].start <= requested[0].end
    ensures DoubleBooks(table, series, requested, k)
       <==> Dropped(table, k, WindowOf(requested)) && RunsIn(table, series, k, WindowOf(requested))
  {
    if DoubleBooks(table, series, requested, k) {
      OnlyDroppedDoubleBooked(table, expand, series, icalUid, requested, k);
      DoubleBookedRunsIn(table, series, requested, k);
    }
    if Dropped(table, k, WindowOf(requested)) && RunsIn(table, series, k, WindowOf(requested)) {
      var o :| o in Busy(table, series, k) && o.end > requested[0].start;
      assert Overlap(requested[0], o);
      assert !ClearOf(requested[0], Busy(table, series, k));
    }
  }

  lemma DoubleBookedRunsIn(table: map<Key, Booking>, series: Series, requested: seq<Occurrence>, k: Key)
    requires ByStart(requested) && requested != [] && k in table && DoubleBooks(table, series, requested, k)
    ensures RunsIn(table, series, k, WindowOf(requested))
  {
    var i :| 0 <= i < |requested| && !ClearOf(requested[i], Busy(table, series, k));
    var o :| o in Busy(table, series, k) && Overlap(requested[i], o);
    assert requested[0].start <= requested[i].start;
  }

  /** Where no series dropped unread runs into the window, an accepted request double books nothing. */
  lemma ClearIfNoneRunsIn(table: map<Key, Booking>, expand: Expander, series: Series, icalUid: string,
                          requested: seq<Occurrence>, k: Key)
    requires CalendarOk(table, expand, series) && ByStart(requested) && requested != []
    requires NoneInTheWay(table, series, icalUid, requested)
    requires k in table && table[k].icalUid != icalUid
    requires Dropped(table, k, WindowOf(requested)) ==> !RunsIn(table, series, k, WindowOf(requested))
    ensures ClearOfAll(requested, Busy(table, series, k))
  {
    if DoubleBooks(table, series, requested, k) {
      OnlyDroppedDoubleBooked(table, expand, series, icalUid, requested, k);
      DoubleBookedRunsIn(table, series, requested, k);
    }
  }

  /** A conflict is with a time the resource is taken exactly when no unread override row moved the occurrence away. */
  lemma ConflictIsBusyIff(table: map<Key, Booking>, series: Series, icalUid: string, requested: seq<Occurrence>,
                          k: Key, i: int, o: Occurrence)
    requires requested != [] && Blocks(table, series, icalUid, requested, k, i, o)
    ensures o in Busy(table, series, k) <==> !MovedUnseen(table, k, WindowOf(requested), o.start)
    ensures o in Busy(table, series, k) ==> DoubleBooks(table, series, requested, k)
  {
    ConsideredIsBusyIff(table, series, k, WindowOf(requested), o);
    if o in Busy(table, series, k) { assert !ClearOf(requested[i], Busy(table, series, k)); }
  }

  /** So it is for every occurrence no longer than overrides are looked back for. */
  lemma ShortConflictIsBusy(table: map<Key, Booking>, series: Series, icalUid: string, requested: seq<Occurrence>,
                            k: Key, i: int, o: Occurrence)
    requires ByStart(requested) && requested != [] && Blocks(table, series, icalUid, requested, k, i, o)
    requires o.end - o.start <= OVERRIDE_LOOKBACK
    ensures o in Busy(table, series, k) && DoubleBooks(table, series, requested, k)
  {
    ConflictIsBusyIff(table, series, icalUid, requested, k, i, o);
    assert requested[0].start <= requested[i].start;
  }

  /** Something compared is really in the way: it would be double booked. */
  ghost predicate ReallyInTheWay(table: map<Key, Booking>, series: Series, icalUid: string, requested: seq<Occurrence>)
    requires requested != []
  {
    exists k :: Compared(table, k, WindowOf(requested)) && table[k].icalUid != icalUid
                && DoubleBooks(table, series, requested, k)
  }

  /**
   * A request declined for a conflict would double book something compared exactly if not all that blocks it
   * was moved away unseen.
   */
  lemma DeclineIsRightIff(table: map<Key, Booking>, series: Series, icalUid: string, requested: seq<Occurrence>)
    requires requested != []
    ensures ReallyInTheWay(table, series, icalUid, requested)
       <==> exists k, i, o :: Blocks(table, series, icalUid, requested, k, i, o)
                              && !MovedUnseen(table, k, WindowOf(requested), o.start)
  {
    var w := WindowOf(requested);
    if ReallyInTheWay(table, series, icalUid, requested) {
      var k :| Compared(table, k, w) && table[k].icalUid != icalUid && DoubleBooks(table, series, requested, k);
      var i :| 0 <= i < |requested| && !ClearOf(requested[i], Busy(table, series, k));
      var o :| o in Busy(table, series, k) && Overlap(requested[i], o);
      BusyIsConsidered(table, series, k, w, o);
      ConsideredIsBusyIff(table, series, k, w, o);
      assert Blocks(table, series, icalUid, requested, k, i, o);
    }
    forall k, i, o | Blocks(table, series, icalUid, requested, k, i, o) && !MovedUnseen(table, k, w, o.start)
      ensures ReallyInTheWay(table, series, icalUid, requested)
    {
      ConflictIsBusyIff(table, series, icalUid, requested, k, i, o);
    }
  }

  // ---- the two answers that are wrong ----

  /** What a request for one covered occurrence asks for. */
  lemma OneRequested(request: Request, o: Occurrence, requested: seq<Occurrence>)
    requires request.overrides == [] && Covered(request, o) && IsRequested(requested, request, iset{o})
    ensures requested != [] && WindowOf(requested) == Window(o.start, o.end)
    ensures forall i :: 0 <= i < |requested| ==> requested[i] == o
  {
    assert o in requested;
    forall i | 0 <= i < |requested| ensures requested[i] == o { assert requested[i] in requested; }
    AllEnd(requested, o, |requested|);
  }

  lemma {:induction false} AllEnd(os: seq<Occurrence>, o: Occurrence, hi: nat)
    requires 0 < hi <= |os| && forall i :: 0 <= i < |os| ==> os[i] == o
    ensures MaxEnd(os, 0, hi) == o.end
  {
    if hi > 1 { AllEnd(os, o, hi - 1); }
  }

  /** An expander over listed occurrences keeps its promise. */
  lemma ListedExpands(expand: Expander, k: Key, os: seq<Occurrence>, series: iset<Occurrence>)
    requires forall o :: o in os <==> o in series
    requires forall excluded, from, to ::
               expand(k, excluded, from, to) == Expansion(Within(os, excluded, from, to), false)
    ensures ExpandsRow(expand, k, series)
  {
    forall excluded, from, to ensures ExpandsOver(expand, k, series, excluded, from, to) {
      assert expand(k, excluded, from, to) == Expansion(Within(os, excluded, from, to), false);
    }
  }

  lemma NothingCutOff(table: map<Key, Booking>, expand: Expander, requested: seq<Occurrence>)
    requires forall k, excluded, from, to :: !expand(k, excluded, from, to).truncated
    ensures !CutOff(table, expand, requested)
  {
    forall k, excluded, i ensures !CutOffAt(table, expand, requested, k, excluded, i) {
      if 0 <= i < |requested| { assert !expand(k, excluded, requested[i].start, requested[i].end).truncated; }
    }
  }

  lemma OneOfTheReasons(d: Decision)
    ensures d.Accepted? || d in {Declined(TooLong), Declined(TooFarAhead), Declined(TooManyRequested),
                                 Declined(TooManyRows), Declined(CantTell), Declined(Conflict)}
  {
    if d.Declined? {
      match d.reason
      case TooLong => case TooFarAhead => case TooManyRequested => case TooManyRows => case CantTell => case Conflict =>
    }
  }

  /**
   * A request for one occurrence with nothing too much to check is declined exactly when something compared
   * is in its way.
   */
  method DecideOne(request: Request, wanted: Occurrence, table: map<Key, Booking>, expand: Expander,
                   ghost series: Series)
    returns (d: Decision, ghost requested: seq<Occurrence>)
    requires request == Request(request.icalUid, wanted.start, wanted.end, false, []) && wanted.start < wanted.end
    requires CalendarOk(table, expand, series) && |table| < MAX_PAGES * ROWS_LIMIT
    requires forall k, excluded, from, to :: !expand(k, excluded, from, to).truncated
    ensures d == if NoneInTheWay(table, series, request.icalUid, requested) then Accepted else Declined(Conflict)
    ensures requested != [] && WindowOf(requested) == Window(wanted.start, wanted.end)
    ensures forall i :: 0 <= i < |requested| ==> requested[i] == wanted
  {
    var expandRequest := (from, to) => Expansion(Within([wanted], {}, from, to), false);
    assert forall from, to :: !expandRequest(from, to).truncated;
    OneIsNotTooMany(request, wanted);
    d, requested := DecideResourceBooking(Mailbox(None, None, false), request, 0, expandRequest, iset{wanted},
                                          table, expand, series);
    NothingCutOff(table, expand, requested);
    assert d != Declined(TooManyRequested) && d != Declined(CantTell) && d != Declined(TooManyRows);
    assert d.Accepted? || d == Declined(Conflict) by { OneOfTheReasons(d); }
    OneRequested(request, wanted, requested);
  }

  const WANTED := Occurrence(2 * DAY, 2 * DAY + 1)
  const REQUEST := Request("requested", 2 * DAY, 2 * DAY + 1, false, [])

  const FIRST := Occurrence(0, DAY)
  const LAST := Occurrence(DAY + 1, 3 * DAY)

  /** A series of two occurrences, the last of which begins at its `until`. */
  function EndingTable(): (table: map<Key, Booking>) {
    map[Key(0, 1) := Booking("existing", DAY, Some(Rule(Some(DAY + 1), {})), None)]
  }

  ghost function EndingSeries(): (series: Series) { (_: Key) => iset{FIRST, LAST} }

  /** A request in the middle of the series' last occurrence is accepted, and double books it. */
  method LastOccurrenceDoubleBooked() returns (d: Decision)
    ensures d == Accepted && StartsByUntil(EndingTable()[Key(0, 1)], EndingSeries()(Key(0, 1)))
    ensures DoubleBooks(EndingTable(), EndingSeries(), [WANTED], Key(0, 1))
  {
    var expand: Expander := (_: Key, excluded, from, to) => Expansion(Within([FIRST, LAST], excluded, from, to), false);
    ghost var k, series := Key(0, 1), EndingSeries();
    ListedExpands(expand, k, [FIRST, LAST], series(k));
    ghost var requested;
    d, requested := DecideOne(REQUEST, WANTED, EndingTable(), expand, series);
    assert forall j :: !Compared(EndingTable(), j, Window(WANTED.start, WANTED.end));
    assert LAST in Busy(EndingTable(), series, k) && Overlap([WANTED][0], LAST);
    assert !ClearOf([WANTED][0], Busy(EndingTable(), series, k));
  }

  const LONG := Occurrence(0, 3 * DAY)
  const MOVED := Occurrence(10 * DAY, 11 * DAY)

  /** A series with an occurrence of three days, and the override row that moved it away. */
  function MovedTable(): (table: map<Key, Booking>) {
    map[Key(0, 1) := Booking("existing", 3 * DAY, Some(Rule(None, {})), None),
        Key(10 * DAY, 2) := Booking("existing", 11 * DAY, None, Some(0))]
  }

  ghost function MovedSeries(): (series: Series) { (k: Key) => iset{if k == Key(0, 1) then LONG else MOVED} }

  /** A request on the third day is declined for a conflict although the resource is free. */
  method LongOccurrenceMovedAway() returns (d: Decision)
    ensures d == Declined(Conflict)
    ensures forall k :: k in MovedTable() ==> ClearOfAll([WANTED], Busy(MovedTable(), MovedSeries(), k))
  {
    MovedCalendar();
    ghost var requested;
    d, requested := DecideOne(REQUEST, WANTED, MovedTable(), MovedExpander(), MovedSeries());
    LongMoved(requested);
  }

  function MovedExpander(): (expand: Expander) {
    (key: Key, excluded: set<int>, from: int, to: int) =>
      Expansion(Within([if key == Key(0, 1) then LONG else MOVED], excluded, from, to), false)
  }

  lemma MovedCalendar()
    ensures CalendarOk(MovedTable(), MovedExpander(), MovedSeries()) && |MovedTable()| == 2
    ensures forall k, excluded, from, to :: !MovedExpander()(k, excluded, from, to).truncated
  {
    ListedExpands(MovedExpander(), Key(0, 1), [LONG], MovedSeries()(Key(0, 1)));
    ListedExpands(MovedExpander(), Key(10 * DAY, 2), [MOVED], MovedSeries()(Key(10 * DAY, 2)));
  }

  lemma LongMoved(requested: seq<Occurrence>)
    requires requested != [] && WindowOf(requested) == Window(WANTED.start, WANTED.end)
    requires forall i :: 0 <= i < |requested| ==> requested[i] == WANTED
    ensures !NoneInTheWay(MovedTable(), MovedSeries(), "requested", requested)
    ensures forall k :: k in MovedTable() ==> ClearOfAll([WANTED], Busy(MovedTable(), MovedSeries(), k))
  {
    var table, k, j := MovedTable(), Key(0, 1), Key(10 * DAY, 2);
    assert table[j].icalUid == "existing" && table[j].recurrenceId == Some(0);
    assert Overridden(table, "existing", 0);
    assert j !in ConsultedRows(table, WindowOf(requested));
    assert 0 !in Excluded(table, table[k], ConsultedRows(table, WindowOf(requested)));
    assert Blocks(table, MovedSeries(), "requested", requested, k, 0, LONG);
  }
}
