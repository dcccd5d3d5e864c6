/**
 * What every history of a DKIM rotation keeps: when signing switches and when the old selector goes, read off
 * the log alone.
 */
module DkimPromises {
  import opened Options
  import opened DkimRotation

  // ---- what the first `n` events of a log say ----

  predicate NoAnswer(e: Event) { e.Looked? && e.answer == Unanswered }

  /** Where the unanswered lookups the events end with begin; `n` when they end with none. */
  function StreakAt(log: seq<Event>, n: nat): (at: nat)
    requires n <= |log|
    ensures at <= n && (at > 0 ==> at == n || !NoAnswer(log[at - 1])) && (forall k :: at <= k < n ==> NoAnswer(log[k]))
  {
    if n == 0 || !NoAnswer(log[n - 1]) then n else StreakAt(log, n - 1)
  }

  /** A lookup that takes the grace back: an absent record, or the end of six hours without an answer. */
  predicate TakesBack(log: seq<Event>, k: nat) {
    k < |log| && log[k].Looked?
    && (log[k].answer == Absent || (log[k].answer == Unanswered
         && log[k].at - log[StreakAt(log, k + 1)].at >= TOLERANCE))
  }

  /**
   * The lookup that began the grace in force: a live answer that was recorded, until a lookup takes the grace
   * back and that is recorded too, or the rotation goes on.
   */
  function GraceBy(log: seq<Event>, n: nat): (began: Option<nat>)
    requires n <= |log|
    ensures began.Some? ==> began.value < n
  {
    if n == 0 || !log[n - 1].Looked? then None
    else
      var before := GraceBy(log, n - 1);
      if before.None? then if log[n - 1].answer == Live && log[n - 1].saved then Some(n - 1) else None
      else if TakesBack(log, n - 1) && log[n - 1].saved then None
      else before
  }

  /** The acknowledgement of the switch in force. */
  function AckBy(log: seq<Event>, n: nat): (ack: Option<nat>)
    requires n <= |log|
    ensures ack.Some? ==> ack.value < n && log[ack.value].Acked?
  {
    if n == 0 then None
    else
      var e := log[n - 1];
      if e.Acked? then Some(n - 1) else if e.Switched? || e.Retired? || e.Reverted? then None else AckBy(log, n - 1)
  }

  /** The selector the domain signs with. */
  function SigningBy(log: seq<Event>, n: nat, first: Selector): (selector: Selector)
    requires n <= |log|
  {
    if n == 0 then first
    else
      var e := log[n - 1];
      if e.Switched? || e.Reverted? then e.selector else SigningBy(log, n - 1, first)
  }

  /** The old selector still published next to it. */
  function OldBy(log: seq<Event>, n: nat): (previous: Option<Selector>)
    requires n <= |log|
  {
    if n == 0 then None
    else
      var e := log[n - 1];
      if e.Switched? then Some(e.previous) else if e.Retired? || e.Reverted? then None else OldBy(log, n - 1)
  }

  lemma {:induction false} StreakStays(log: seq<Event>, e: Event, n: nat)
    requires n <= |log|
    ensures StreakAt(log + [e], n) == StreakAt(log, n)
  {
    if n > 0 { StreakStays(log, e, n - 1); }
  }

  lemma TakesBackStays(log: seq<Event>, e: Event, k: nat)
    requires k < |log|
    ensures TakesBack(log + [e], k) == TakesBack(log, k)
  {
    StreakStays(log, e, k + 1);
    assert (log + [e])[k] == log[k];
  }

  lemma {:induction false} GraceStays(log: seq<Event>, e: Event, n: nat)
    requires n <= |log|
    ensures GraceBy(log + [e], n) == GraceBy(log, n)
  {
    if n > 0 {
      GraceStays(log, e, n - 1);
      TakesBackStays(log, e, n - 1);
    }
  }

  lemma {:induction false} OthersStay(log: seq<Event>, e: Event, n: nat, first: Selector)
    requires n <= |log|
    ensures AckBy(log + [e], n) == AckBy(log, n)
    ensures SigningBy(log + [e], n, first) == SigningBy(log, n, first)
    ensures OldBy(log + [e], n) == OldBy(log, n)
  {
    if n > 0 { OthersStay(log, e, n - 1, first); }
  }

  // ---- the promises ----

  /**
   * Signing switched at `p`: on a live lookup, with the grace in force since one at least as long ago, unless
   * compromised.
   */
  predicate SwitchOk(config: Config, log: seq<Event>, p: nat)
    requires p < |log| && log[p].Switched?
  {
    && p > 0 && log[p - 1] == Looked(log[p].at, log[p].selector, Live, true)
    && GraceBy(log, p - 1).Some?
    && var began := GraceBy(log, p - 1).value;
       && (log[p].reason == Compromised || log[p].at - log[began].at >= config.graceMs)
       && forall k :: began <= k < p ==> log[k].Looked? && log[k].selector == log[p].selector
  }

  /**
   * The old selector went at `p`: after the mail server acknowledged the one that replaced it, the overlap
   * later unless compromised.
   */
  predicate RetireOk(config: Config, log: seq<Event>, first: Selector, p: nat)
    requires p < |log| && log[p].Retired?
  {
    && AckBy(log, p).Some? && OldBy(log, p) == Some(log[p].previous)
    && var ack := AckBy(log, p).value;
       && log[ack].selector == SigningBy(log, p, first)
       && (log[p].reason == Compromised || log[p].at >= log[ack].at + config.overlapMs)
  }

  predicate PromisedAt(config: Config, log: seq<Event>, first: Selector, p: nat) {
    p < |log| ==>
      && (log[p].Switched? ==> SwitchOk(config, log, p))
      && (log[p].Retired? ==> RetireOk(config, log, first, p))
  }

  ghost predicate Promises(config: Config, log: seq<Event>, first: Selector) {
    forall p: nat :: PromisedAt(config, log, first, p)
  }

  lemma PromisesStay(config: Config, log: seq<Event>, first: Selector, e: Event)
    requires Promises(config, log, first) && PromisedAt(config, log + [e], first, |log|)
    ensures Promises(config, log + [e], first)
  {
    forall p: nat ensures PromisedAt(config, log + [e], first, p) {
      if p < |log| {
        assert PromisedAt(config, log, first, p);
        OthersStay(log, e, p, first);
        if p > 0 { GraceStays(log, e, p - 1); }
      }
    }
  }

  // ---- what the grace means ----

  /**
   * The grace in force began with a recorded live answer, and every lookup since that would take it back
   * failed to be recorded.
   */
  lemma {:induction false} GraceMeans(log: seq<Event>, n: nat)
    requires n <= |log| && GraceBy(log, n).Some?
    ensures var began := GraceBy(log, n).value;
            && log[began].Looked? && log[began].answer == Live && log[began].saved
            && forall k: nat :: began < k < n ==> log[k].Looked? && (TakesBack(log, k) ==> !log[k].saved)
  {
    if GraceBy(log, n - 1).Some? { GraceMeans(log, n - 1); }
  }

  /**
   * Of lookups that follow while a grace is in force, it survives exactly if none that takes it back is
   * recorded: a lookup lies between the beginning of a grace and a switch just when its write failed.
   */
  lemma {:induction false} GraceKeptIff(log: seq<Event>, k: nat, n: nat)
    requires k <= n <= |log| && GraceBy(log, k).Some? && forall j :: k <= j < n ==> log[j].Looked?
    ensures GraceBy(log, n) == GraceBy(log, k) <==> forall j: nat :: k <= j < n && TakesBack(log, j) ==> !log[j].saved
    ensures GraceBy(log, n) == GraceBy(log, k) || GraceBy(log, n).None? || GraceBy(log, n).value >= k
  {
    if k < n { GraceKeptIff(log, k, n - 1); }
  }

  /** Six hours of lookups without an answer, from `a` to `b`. */
  predicate SixHoursUnanswered(log: seq<Event>, a: nat, b: nat) {
    a <= b < |log| && log[b].at - log[a].at >= TOLERANCE && forall k :: a <= k <= b ==> NoAnswer(log[k])
  }

  /** Six hours without an answer take the grace back. */
  lemma SixHoursTakeBack(log: seq<Event>, clock: int, a: nat, b: nat)
    requires InOrder(log, clock) && SixHoursUnanswered(log, a, b)
    ensures TakesBack(log, b)
  {
    var s := StreakAt(log, b + 1);
    assert s <= a;
    if s < a { assert log[s].at <= log[a].at; }
  }

  ghost predicate InOrder(log: seq<Event>, clock: int) {
    (forall i, j :: 0 <= i < j < |log| ==> log[i].at <= log[j].at)
      && (forall i :: 0 <= i < |log| ==> log[i].at <= clock)
  }

  /**
   * A switch is on a live lookup, at least the grace after the one that began it; in between no absent answer
   * and no six hours without an answer were recorded. Only a failed write lets one lie there.
   */
  lemma SwitchIsSafe(config: Config, log: seq<Event>, first: Selector, clock: int, p: nat)
    requires Promises(config, log, first) && InOrder(log, clock) && p < |log| && log[p].Switched?
    ensures p > 0 && log[p - 1] == Looked(log[p].at, log[p].selector, Live, true) && GraceBy(log, p - 1).Some?
    ensures var began := GraceBy(log, p - 1).value;
            && log[began].Looked? && log[began].answer == Live && log[began].saved
                 && log[began].selector == log[p].selector
            && (log[p].reason == Compromised || log[p].at - log[began].at >= config.graceMs)
            && (forall k: nat :: began < k < p - 1 ==>
                  log[k].Looked? && log[k].selector == log[p].selector && (log[k].answer == Absent ==> !log[k].saved))
            && (forall a: nat, b: nat :: began < a && b < p - 1 && SixHoursUnanswered(log, a, b) ==> !log[b].saved)
  {
    assert PromisedAt(config, log, first, p);
    var began := GraceBy(log, p - 1).value;
    GraceMeans(log, p - 1);
    forall a: nat, b: nat | began < a && b < p - 1 && SixHoursUnanswered(log, a, b) ensures !log[b].saved {
      SixHoursTakeBack(log, clock, a, b);
    }
  }

  /**
   * A lookup that takes a grace back, the only one to do so before the switch, lies between the beginning of
   * the grace the switch goes by and the switch exactly when its write failed.
   */
  lemma LiesBetweenIff(config: Config, log: seq<Event>, first: Selector, k: nat, p: nat)
    requires Promises(config, log, first) && p < |log| && log[p].Switched? && k < p - 1
    requires GraceBy(log, k).Some? && TakesBack(log, k) && forall j :: k <= j < p ==> log[j].Looked?
    requires forall j: nat :: k < j < p - 1 ==> !TakesBack(log, j)
    ensures GraceBy(log, p - 1).Some?
    ensures GraceBy(log, p - 1).value < k <==> !log[k].saved
  {
    assert PromisedAt(config, log, first, p);
    GraceKeptIff(log, k, p - 1);
  }

  // ---- every history ----

  datatype World = World(config: Config, first: Selector, memory: Memory, log: seq<Event>, clock: int)

  datatype Input = Tick(now: int, answers: seq<Answers>) | Write(now: int, admin: Admin)

  /** The clock does not go back. */
  function Apply(w: World, i: Input): (w': World) {
    if i.now < w.clock then w
    else
      var o := if i.Tick? then RunOf(w.config, w.memory, i.now, i.answers) else AdminOf(w.memory, i.now, i.admin);
      w.(memory := o.memory, log := w.log + o.logged, clock := i.now)
  }

  function Run(w: World, inputs: seq<Input>): (w': World)
    decreases |inputs|
  {
    if inputs == [] then w else Run(Apply(w, inputs[0]), inputs[1..])
  }

  /** The row's grace is the log's, and so is the memory of unanswered lookups while it runs. */
  predicate GraceOk(log: seq<Event>, next: Next, unknownSince: Option<int>) {
    var n := |log|;
    var began := GraceBy(log, n);
    && next.liveSince == (if began.Some? then Some(log[began.value].at) else None)
    && (began.Some? ==>
          && (forall k :: began.value <= k < n ==> log[k].Looked? && log[k].selector == next.selector)
          && unknownSince == (if StreakAt(log, n) < n then Some(log[StreakAt(log, n)].at) else None))
  }

  predicate PhaseOk(config: Config, log: seq<Event>, d: Domain, unknownSince: Option<int>) {
    match d.phase
    case Pending(Some(next)) => GraceOk(log, next, unknownSince)
    case Overlap(_, reason, retireAt) =>
      && GraceBy(log, |log|).None? && AckBy(log, |log|).Some?
      && var ack := log[AckBy(log, |log|).value];
         ack.selector == d.selector && retireAt == ack.at + if reason == Compromised then 0 else config.overlapMs
    case _ => GraceBy(log, |log|).None?
  }

  predicate RowOk(log: seq<Event>, first: Selector, d: Domain) {
    && d.selector == SigningBy(log, |log|, first)
    && OldBy(log, |log|) == if d.phase.Switching? || d.phase.Overlap? then Some(d.phase.previous) else None
  }

  /** What holds of the row, the memory and the log at any time. */
  ghost predicate Holds(config: Config, first: Selector, m: Memory, log: seq<Event>, clock: int) {
    && InOrder(log, clock) && Promises(config, log, first)
    && RowOk(log, first, m.domain) && PhaseOk(config, log, m.domain, m.unknownSince)
  }

  /** One more event: what the log says afterwards. */
  lemma Appended(log: seq<Event>, e: Event, first: Selector)
    ensures var log' := log + [e];
            && GraceBy(log', |log|) == GraceBy(log, |log|) && StreakAt(log', |log|) == StreakAt(log, |log|)
            && AckBy(log', |log|) == AckBy(log, |log|) && OldBy(log', |log|) == OldBy(log, |log|)
            && SigningBy(log', |log|, first) == SigningBy(log, |log|, first)
  {
    GraceStays(log, e, |log|);
    StreakStays(log, e, |log|);
    OthersStay(log, e, |log|, first);
  }

  /**
   * While a grace runs, the replica takes a record for gone exactly when the log says the lookup takes the
   * grace back.
   */
  lemma GoneIffTakesBack(m: Memory, next: Next, log: seq<Event>, now: int, a: Answers)
    requires GraceOk(log, next, m.unknownSince) && GraceBy(log, |log|).Some?
    ensures var log' := log + [Looked(now, next.selector, a.lookup, a.saved)];
            TakesBack(log', |log|) == Gone(m, now, a.lookup)
  {
    StreakStays(log, Looked(now, next.selector, a.lookup, a.saved), |log|);
  }

  lemma LookKeepsStreak(m: Memory, next: Next, log: seq<Event>, now: int, a: Answers)
    requires GraceOk(log, next, m.unknownSince) && (GraceBy(log, |log|).Some? || a.lookup != Unanswered)
    ensures var log' := log + [Looked(now, next.selector, a.lookup, a.saved)];
            var s := StreakAt(log', |log'|);
            UnknownSince(m, now, a.lookup) == if s < |log'| then Some(log'[s].at) else None
  {
    StreakStays(log, Looked(now, next.selector, a.lookup, a.saved), |log|);
  }

  /** A lookup changes the row's grace exactly as it changes the log's. */
  lemma LookKeepsGrace(config: Config, m: Memory, next: Next, log: seq<Event>, now: int, a: Answers)
    requires GraceOk(log, next, m.unknownSince) && m.domain.phase == Pending(Some(next))
    ensures var log' := log + [Looked(now, next.selector, a.lookup, a.saved)];
            var d := DomainAfter(config, m, next, now, a);
            d.phase.Pending? ==> d.phase.next.Some? && GraceOk(log', d.phase.next.value, UnknownSince(m, now, a.lookup))
  {
    var e := Looked(now, next.selector, a.lookup, a.saved);
    var log', n := log + [e], |log|;
    GraceStays(log, e, n);
    if GraceBy(log, n).Some? { GoneIffTakesBack(m, next, log, now, a); }
    if GraceBy(log, n).Some? || a.lookup != Unanswered { LookKeepsStreak(m, next, log, now, a); }
  }

  lemma LookedStaysInOrder(log: seq<Event>, e: Event, clock: int)
    requires InOrder(log, clock) && clock <= e.at
    ensures InOrder(log + [e], e.at)
  {
  }

  /** One event that is no switch and no retirement and leaves the grace with the row. */
  lemma EventKeeps(config: Config, first: Selector, m: Memory, log: seq<Event>, clock: int, m': Memory, e: Event)
    requires Holds(config, first, m, log, clock) && clock <= e.at
    requires PromisedAt(config, log + [e], first, |log|)
    requires RowOk(log + [e], first, m'.domain) && PhaseOk(config, log + [e], m'.domain, m'.unknownSince)
    ensures Holds(config, first, m', log + [e], e.at)
  {
    LookedStaysInOrder(log, e, clock);
    PromisesStay(config, log, first, e);
  }

  lemma LookHolds(config: Config, first: Selector, m: Memory, next: Next, log: seq<Event>, clock: int, now: int,
                  a: Answers)
    requires Holds(config, first, m, log, clock) && clock <= now && m.domain.phase == Pending(Some(next))
    ensures var o := Look(config, m, next, now, a); Holds(config, first, o.memory, log + o.logged, now)
  {
    var o, e := Look(config, m, next, now, a), Looked(now, next.selector, a.lookup, a.saved);
    var log1 := log + [e];
    Appended(log, e, first);
    LookKeepsGrace(config, m, next, log, now, a);
    if !o.memory.domain.phase.Switching? {
      EventKeeps(config, first, m, log, clock, o.memory, e);
    } else {
      SwitchHolds(config, first, m, next, log, clock, now, a);
    }
  }

  lemma SwitchHolds(config: Config, first: Selector, m: Memory, next: Next, log: seq<Event>, clock: int, now: int,
                    a: Answers)
    requires Holds(config, first, m, log, clock) && clock <= now && m.domain.phase == Pending(Some(next))
    requires DomainAfter(config, m, next, now, a).phase.Switching?
    ensures var o := Look(config, m, next, now, a); Holds(config, first, o.memory, log + o.logged, now)
  {
    var o, e := Look(config, m, next, now, a), Looked(now, next.selector, a.lookup, a.saved);
    var log1, s := log + [e], Switched(now, m.domain.selector, next.selector, next.reason);
    var log2 := log1 + [s];
    assert log + o.logged == log2;
    Appended(log, e, first);
    Appended(log1, s, first);
    LookedStaysInOrder(log, e, clock);
    LookedStaysInOrder(log1, s, now);
    GraceStays(log1, s, |log|);
    PromisesStay(config, log, first, e);
    PromisesStay(config, log1, first, s);
  }

  /** A transition that logs at most one event, which settles the grace. */
  lemma OneEventHolds(config: Config, first: Selector, m: Memory, log: seq<Event>, clock: int, now: int, o: Outcome)
    requires Holds(config, first, m, log, clock) && clock <= now && |o.logged| <= 1
    requires o.logged == [] ==>
               RowOk(log, first, o.memory.domain) && PhaseOk(config, log, o.memory.domain, o.memory.unknownSince)
    requires o.logged != [] ==>
               && o.logged[0].at == now && PromisedAt(config, log + [o.logged[0]], first, |log|)
               && RowOk(log + [o.logged[0]], first, o.memory.domain)
               && PhaseOk(config, log + [o.logged[0]], o.memory.domain, o.memory.unknownSince)
    ensures Holds(config, first, o.memory, log + o.logged, now)
  {
    if o.logged == [] {
      assert log + o.logged == log;
    } else {
      EventKeeps(config, first, m, log, clock, o.memory, o.logged[0]);
      assert log + o.logged == log + [o.logged[0]];
    }
  }

  lemma PendingHolds(config: Config, first: Selector, m: Memory, log: seq<Event>, clock: int, now: int, a: Answers)
    requires Holds(config, first, m, log, clock) && clock <= now && m.domain.phase.Pending?
    ensures var o := StepPending(config, m, now, a); Holds(config, first, o.memory, log + o.logged, now)
  {
    var o := StepPending(config, m, now, a);
    if m.domain.phase.next.Some? && m.domain.phase.next.value.hasKey {
      LookHolds(config, first, m, m.domain.phase.next.value, log, clock, now, a);
    } else {
      if o.logged != [] { Appended(log, o.logged[0], first); }
      OneEventHolds(config, first, m, log, clock, now, o);
    }
  }

  lemma StepHolds(config: Config, first: Selector, was: Memory, log: seq<Event>, clock: int, now: int, a: Answers)
    requires Holds(config, first, was, log, clock) && clock <= now
    ensures var o := Step(config, was, now, a); Holds(config, first, o.memory, log + o.logged, now)
  {
    if was.domain.phase.Pending? {
      PendingHolds(config, first, was, log, clock, now, a);
    } else {
      var o := Step(config, was, now, a);
      if o.logged != [] { Appended(log, o.logged[0], first); }
      OneEventHolds(config, first, was, log, clock, now, o);
    }
  }

  lemma AdminHolds(config: Config, first: Selector, m: Memory, log: seq<Event>, clock: int, now: int, a: Admin)
    requires Holds(config, first, m, log, clock) && clock <= now
    ensures var o := AdminOf(m, now, a); Holds(config, first, o.memory, log + o.logged, now)
  {
    var o := AdminOf(m, now, a);
    if o.logged != [] { Appended(log, o.logged[0], first); }
    OneEventHolds(config, first, m, log, clock, now, o);
  }

  lemma Regroup(a: seq<Event>, b: seq<Event>, c: seq<Event>)
    ensures a + b + c == a + (b + c) && a + [] == a
  {
  }

  lemma {:induction false} RunOfHolds(config: Config, first: Selector, m: Memory, log: seq<Event>, clock: int,
                                      now: int, answers: seq<Answers>)
    requires Holds(config, first, m, log, clock) && clock <= now
    ensures var o := RunOf(config, m, now, answers); Holds(config, first, o.memory, log + o.logged, now)
    decreases |answers|
  {
    if answers == [] {
      Regroup(log, [], []);
    } else {
      var o := Step(config, m, now, answers[0]);
      StepHolds(config, first, m, log, clock, now, answers[0]);
      if o.again {
        RunOfHolds(config, first, o.memory, log + o.logged, now, now, answers[1..]);
        Regroup(log, o.logged, RunOf(config, o.memory, now, answers[1..]).logged);
      }
    }
  }

  ghost predicate WorldOk(w: World) { Holds(w.config, w.first, w.memory, w.log, w.clock) }

  lemma {:induction false} RunKeeps(w: World, inputs: seq<Input>)
    requires WorldOk(w)
    ensures WorldOk(Run(w, inputs)) && Run(w, inputs).config == w.config && Run(w, inputs).first == w.first
    decreases |inputs|
  {
    if inputs != [] {
      match inputs[0] {
        case Tick(now, answers) =>
          if w.clock <= now { RunOfHolds(w.config, w.first, w.memory, w.log, w.clock, now, answers); }
        case Write(now, a) =>
          if w.clock <= now { AdminHolds(w.config, w.first, w.memory, w.log, w.clock, now, a); }
      }
      RunKeeps(Apply(w, inputs[0]), inputs[1..]);
    }
  }

  function AtRest(config: Config, first: Selector, clock: int): (w: World) {
    World(config, first, Memory(Domain(first, Idle), None), [], clock)
  }

  /**
   * Over every sequence of answers, acknowledgements and an administrator's writes: the row says what the log
   * says, signing switches only as promised and the old selector goes only as promised.
   */
  lemma EveryHistoryKeepsPromises(config: Config, first: Selector, clock: int, inputs: seq<Input>)
    ensures var w := Run(AtRest(config, first, clock), inputs);
            && Promises(config, w.log, first) && InOrder(w.log, w.clock) && RowOk(w.log, first, w.memory.domain)
  {
    RunKeeps(AtRest(config, first, clock), inputs);
  }

  // ---- exactly when it goes on ----

  /**
   * Over every history: while both selectors are published, the old one is to go the overlap after the
   * acknowledgement, or at once if the key was compromised by then.
   */
  lemma OverlapIsExact(config: Config, first: Selector, clock: int, inputs: seq<Input>)
    ensures var w := Run(AtRest(config, first, clock), inputs);
            w.memory.domain.phase.Overlap? ==>
              && AckBy(w.log, |w.log|).Some? && OldBy(w.log, |w.log|) == Some(w.memory.domain.phase.previous)
              && var ack := w.log[AckBy(w.log, |w.log|).value];
                 w.memory.domain.phase.retireAt
                 == ack.at + if w.memory.domain.phase.reason == Compromised then 0 else config.overlapMs
  {
    RunKeeps(AtRest(config, first, clock), inputs);
  }

  /**
   * Over every history: a lookup switches signing if and only if the record is live, the write goes through, and
   * a grace is in force by the log that has lasted long enough or that a compromised key need not wait for.
   */
  lemma SwitchesIff(config: Config, first: Selector, clock: int, inputs: seq<Input>, now: int, a: Answers, next: Next)
    requires Run(AtRest(config, first, clock), inputs).memory.domain.phase == Pending(Some(next)) && next.hasKey
    ensures var w := Run(AtRest(config, first, clock), inputs);
            var d, began := Step(config, w.memory, now, a).memory.domain, GraceBy(w.log, |w.log|);
            && (d != w.memory.domain && !d.phase.Pending? <==>
                  && a.lookup == Live && a.saved && began.Some?
                  && (next.reason == Compromised || now - w.log[began.value].at >= config.graceMs))
            && (!d.phase.Pending? ==> d == Domain(next.selector, Switching(w.memory.domain.selector, next.reason)))
  {
    RunKeeps(AtRest(config, first, clock), inputs);
  }

  /** Over every history: the old selector goes if and only if its time by the log has come and it can be written. */
  lemma RetiresIff(config: Config, first: Selector, clock: int, inputs: seq<Input>, now: int, a: Answers)
    requires Run(AtRest(config, first, clock), inputs).memory.domain.phase.Overlap?
    ensures var w := Run(AtRest(config, first, clock), inputs); var phase := w.memory.domain.phase;
            && AckBy(w.log, |w.log|).Some?
            && var ack, o := w.log[AckBy(w.log, |w.log|).value], Step(config, w.memory, now, a);
               && (o.logged == [Retired(now, phase.previous, phase.reason)] <==>
                     a.saved && now >= ack.at + if phase.reason == Compromised then 0 else config.overlapMs)
               && o.memory.domain == (if o.logged == [] then w.memory.domain else w.memory.domain.(phase := Idle))
  {
    RunKeeps(AtRest(config, first, clock), inputs);
  }

  /**
   * Over every history: a cancelled rotation leaves the selector it was to replace signing, unless that is gone
   * already; a reported key is treated as compromised from then on, and goes at once where signing has moved.
   */
  lemma AdminActs(config: Config, first: Selector, clock: int, inputs: seq<Input>, now: int, selector: Selector,
                  reason: Reason)
    ensures var w := Run(AtRest(config, first, clock), inputs);
            var d, old' := w.memory.domain, OldBy(w.log, |w.log|);
            var cancelled := AdminOf(w.memory, now, Cancel).memory.domain;
            var reported := AdminOf(w.memory, now, ReportCompromised).memory.domain;
            var begun := AdminOf(w.memory, now, RotateNow(selector, reason)).memory.domain;
            && (if d.phase.Overlap? then cancelled == d
                else cancelled == Domain(if old'.Some? then old'.value else d.selector, Idle))
            && (d.phase.Overlap? ==> reported == d.(phase := Idle))
            && (d.phase.Switching? ==> reported.phase.Switching? && reported.phase.reason == Compromised)
            && (d.phase.Pending? && d.phase.next.Some? ==>
                  reported == d.(phase := Pending(Some(d.phase.next.value.(reason := Compromised)))))
            && (d.phase.Idle? ==> begun == d.(phase := Pending(Some(Next(selector, false, reason, None)))))
            && (!d.phase.Idle? ==> begun == d)
  {
    RunKeeps(AtRest(config, first, clock), inputs);
  }

  function WithKey(next: Next): (n: Next) { next.(hasKey := true) }

  /**
   * A rotation due begins without a key and with no unanswered lookup remembered, and looks nothing up until it
   * has one.
   */
  lemma KeyComesFirst(config: Config, was: Memory, now: int, a: Answers)
    ensures var o := Step(config, was, now, a);
            && (!was.domain.phase.Pending? ==> o.memory.unknownSince == None)
            && (was.domain.phase.Idle? ==>
                  o.memory.domain == if a.due.Some? && a.saved
                                     then was.domain.(phase := Pending(Some(Next(a.due.value, false, Scheduled, None))))
                                     else was.domain)
            && (was.domain.phase.Pending? && was.domain.phase.next.Some? && !was.domain.phase.next.value.hasKey ==>
                  && o.logged == []
                  && o.memory.domain == if a.generated && a.saved
                                        then was.domain.(phase := Pending(Some(WithKey(was.domain.phase.next.value))))
                                        else was.domain)
            && (was.domain.phase == Pending(None) ==>
                  o.memory.domain == if a.saved then was.domain.(phase := Idle) else was.domain)
  {
  }

  predicate TakenBack(d: Domain, d': Domain) {
    && d.phase.Pending? && d.phase.next.Some? && d.phase.next.value.liveSince.Some?
    && d'.phase == Pending(Some(d.phase.next.value.(liveSince := None)))
  }

  /** Another transition follows exactly where one went on with the rotation: not at its end, nor back in its grace. */
  lemma GoesOnIff(config: Config, was: Memory, now: int, a: Answers)
    ensures var o := Step(config, was, now, a); var d := o.memory.domain;
            o.again <==> d != was.domain && !d.phase.Idle? && !TakenBack(was.domain, d)
  {
  }

  // ---- rotations nothing goes wrong in ----

  function Fine(): Answers { Answers(Live, true, true, None, true) }

  lemma RunStep(config: Config, m: Memory, now: int, a: Answers, rest: seq<Answers>)
    ensures var o := Step(config, m, now, a);
            RunOf(config, m, now, [a] + rest)
            == if o.again then RunOf(config, o.memory, now, rest).(logged := o.logged
                                                                  + RunOf(config, o.memory, now, rest).logged)
               else o
  {
    assert ([a] + rest)[1..] == rest;
  }

  /** From the switch on: acknowledged, and retired in the same run if the key was compromised. */
  lemma RunFromSwitching(config: Config, now: int, selector: Selector, previous: Selector, reason: Reason,
                         rest: seq<Answers>)
    requires rest != [] && rest[0] == Fine()
    ensures var m := Memory(Domain(selector, Switching(previous, reason)), None);
            RunOf(config, m, now, [Fine()] + rest)
            == if reason == Compromised || config.overlapMs == 0
               then Outcome(Memory(Domain(selector, Idle), None),
                            [Acked(now, selector), Retired(now, previous, reason)], false)
               else Outcome(Memory(Domain(selector, Overlap(previous, reason, now + config.overlapMs)), None),
                            [Acked(now, selector)], false)
  {
    var m := Memory(Domain(selector, Switching(previous, reason)), None);
    var retireAt := now + if reason == Compromised then 0 else config.overlapMs;
    var m' := Memory(Domain(selector, Overlap(previous, reason, retireAt)), None);
    assert Step(config, m, now, Fine()) == Outcome(m', [Acked(now, selector)], true);
    RunStep(config, m, now, Fine(), rest);
    assert rest == [rest[0]] + rest[1..];
    RunStep(config, m', now, rest[0], rest[1..]);
  }

  /** With a live record whose grace is over, or not waited for: switched and acknowledged in the same run. */
  lemma RunFromGrace(config: Config, now: int, first: Selector, selector: Selector, reason: Reason, since: int)
    requires reason == Compromised || now - since >= config.graceMs
    ensures var m := Memory(Domain(first, Pending(Some(Next(selector, true, reason, Some(since))))), None);
            var switched := Memory(Domain(selector, Switching(first, reason)), None);
            var o := RunOf(config, switched, now, [Fine(), Fine()]);
            RunOf(config, m, now, [Fine(), Fine(), Fine()])
            == o.(logged := [Looked(now, selector, Live, true), Switched(now, first, selector, reason)] + o.logged)
  {
    var m := Memory(Domain(first, Pending(Some(Next(selector, true, reason, Some(since))))), None);
    assert [Fine(), Fine(), Fine()] == [Fine()] + [Fine(), Fine()];
    RunStep(config, m, now, Fine(), [Fine(), Fine()]);
  }

  /**
   * A key reported compromised while nothing is under way, with everything going well: one run generates the new
   * key, finds its record, switches, is acknowledged and retires the old selector.
   */
  lemma CompromisedInOneRun(config: Config, first: Selector, now: int, selector: Selector)
    ensures var w := Run(AtRest(config, first, now),
                         [Write(now, RotateNow(selector, Compromised)),
                          Tick(now, [Fine(), Fine(), Fine(), Fine(), Fine()])]);
            && w.memory == Memory(Domain(selector, Idle), None)
            && w.log == [Began(now, selector), Looked(now, selector, Live, true), Looked(now, selector, Live, true),
                         Switched(now, first, selector, Compromised), Acked(now, selector),
                         Retired(now, first, Compromised)]
  {
    var next := Next(selector, false, Compromised, None);
    var m := Memory(Domain(first, Pending(Some(next))), None);
    var m1 := WithNext(m, next.(hasKey := true));
    var m2 := WithNext(m, Next(selector, true, Compromised, Some(now)));
    var f := Fine();
    assert [f, f, f, f, f] == [f] + [f, f, f, f] && [f, f, f, f] == [f] + [f, f, f] && [f, f] == [f] + [f];
    RunStep(config, m, now, f, [f, f, f, f]);
    RunStep(config, m1, now, f, [f, f, f]);
    RunFromGrace(config, now, first, selector, Compromised, now);
    RunFromSwitching(config, now, selector, first, Compromised, [f]);
    TwoInputs(AtRest(config, first, now), Write(now, RotateNow(selector, Compromised)), Tick(now, [f, f, f, f, f]));
  }

  lemma TwoInputs(w: World, a: Input, b: Input)
    ensures Run(w, [a, b]) == Apply(Apply(w, a), b)
  {
    assert [a, b][1..] == [b];
    assert Run(Apply(w, a), [b]) == Run(Apply(Apply(w, a), b), []);
  }

  /** Any other rotation, with everything going well: the grace after its record is found, then the overlap. */
  lemma RotatesInTime(config: Config, first: Selector, now: int, selector: Selector, reason: Reason)
    requires reason != Compromised && config.graceMs > 0 && config.overlapMs > 0
    ensures var three := [Fine(), Fine(), Fine()];
            var w1 := Run(AtRest(config, first, now), [Write(now, RotateNow(selector, reason)), Tick(now, three)]);
            var w2 := Apply(w1, Tick(now + config.graceMs, three));
            var w3 := Apply(w2, Tick(now + config.graceMs + config.overlapMs, three));
            && w1.memory.domain == Domain(first, Pending(Some(Next(selector, true, reason, Some(now)))))
            && w2.memory.domain == Domain(selector, Overlap(first, reason, now + config.graceMs + config.overlapMs))
            && w3.memory.domain == Domain(selector, Idle)
  {
    var next, f := Next(selector, false, reason, None), Fine();
    var m := Memory(Domain(first, Pending(Some(next))), None);
    var m1 := WithNext(m, next.(hasKey := true));
    var m2 := WithNext(m, Next(selector, true, reason, Some(now)));
    assert [f, f, f] == [f] + [f, f] && [f, f] == [f] + [f] && [f] == [f] + [];
    RunStep(config, m, now, f, [f, f]);
    RunStep(config, m1, now, f, [f]);
    RunStep(config, m2, now, f, []);
    TwoInputs(AtRest(config, first, now), Write(now, RotateNow(selector, reason)), Tick(now, [f, f, f]));
    RunFromGrace(config, now + config.graceMs, first, selector, reason, now);
    RunFromSwitching(config, now + config.graceMs, selector, first, reason, [f]);
    var end := now + config.graceMs + config.overlapMs;
    RunStep(config, Memory(Domain(selector, Overlap(first, reason, end)), None), end, f, [f, f]);
  }

  // ---- a write that fails ----

  const GRACE := 48 * HOUR

  function Answer(lookup: Liveness, saved: bool): Answers { Answers(lookup, false, true, None, saved) }

  function Waiting(liveSince: Option<int>): Memory {
    Memory(Domain(1, Pending(Some(Next(2, true, Manual, liveSince)))), None)
  }

  /** The first run: the key is generated and the record found live, twice. */
  lemma GraceBegins(config: Config)
    requires config.graceMs == GRACE
    ensures var m := Memory(Domain(1, Pending(Some(Next(2, false, Manual, None)))), None);
            var live := Looked(0, 2, Live, true);
            RunOf(config, m, 0, [Answer(Live, true), Answer(Live, true), Answer(Live, true)])
            == Outcome(Waiting(Some(0)), [live, live], false)
  {
    var m, live := Memory(Domain(1, Pending(Some(Next(2, false, Manual, None)))), None), Answer(Live, true);
    assert Step(config, m, 0, live) == Outcome(Waiting(None), [], true);
    assert Step(config, Waiting(None), 0, live) == Outcome(Waiting(Some(0)), [Looked(0, 2, Live, true)], true);
    assert Step(config, Waiting(Some(0)), 0, live) == Outcome(Waiting(Some(0)), [Looked(0, 2, Live, true)], false);
    assert [live, live, live][1..] == [live, live] && [live, live][1..] == [live];
    assert RunOf(config, Waiting(Some(0)), 0, [live]).logged == [Looked(0, 2, Live, true)];
    assert RunOf(config, Waiting(None), 0, [live, live]).logged == [Looked(0, 2, Live, true), Looked(0, 2, Live, true)];
  }

  /** The last run: the grace counts from the first lookup, and signing switches. */
  lemma GraceEnds(config: Config)
    requires config.graceMs == GRACE
    ensures RunOf(config, Waiting(Some(0)), GRACE, [Answer(Live, true), Answer(Live, true)])
         == Outcome(Memory(Domain(2, Switching(1, Manual)), None),
                    [Looked(GRACE, 2, Live, true), Switched(GRACE, 1, 2, Manual)], false)
  {
    var live, switched := Answer(Live, true), Memory(Domain(2, Switching(1, Manual)), None);
    assert Step(config, switched, GRACE, live) == Outcome(switched, [], false);
    assert [live, live][1..] == [live];
    assert RunOf(config, switched, GRACE, [live]) == Outcome(switched, [], false);
  }

  /**
   * The record is found gone an hour into the grace but that can't be written: the grace goes on, and signing
   * switches 47 hours after the record was seen to be absent.
   */
  lemma LostWriteKeepsGrace(config: Config) returns (inputs: seq<Input>)
    requires config.graceMs == GRACE
    ensures Run(AtRest(config, 1, 0), inputs).log
         == [Began(0, 2), Looked(0, 2, Live, true), Looked(0, 2, Live, true), Looked(HOUR, 2, Absent, false),
             Looked(GRACE, 2, Live, true), Switched(GRACE, 1, 2, Manual)]
  {
    var live, gone := Answer(Live, true), Answer(Absent, false);
    inputs := [Write(0, RotateNow(2, Manual)), Tick(0, [live, live, live]), Tick(HOUR, [gone]),
      Tick(GRACE, [live, live])];
    GraceBegins(config);
    GraceEnds(config);
    assert RunOf(config, Waiting(Some(0)), HOUR, [gone])
        == Outcome(Waiting(Some(0)), [Looked(HOUR, 2, Absent, false)], false);
    var w1 := Apply(AtRest(config, 1, 0), inputs[0]);
    var w2 := Apply(w1, inputs[1]);
    var w3 := Apply(w2, inputs[2]);
    var w4 := Apply(w3, inputs[3]);
    assert w2.memory == Waiting(Some(0)) && w3.memory == Waiting(Some(0));
    assert w4.log == [Began(0, 2), Looked(0, 2, Live, true), Looked(0, 2, Live, true), Looked(HOUR, 2, Absent, false),
                      Looked(GRACE, 2, Live, true), Switched(GRACE, 1, 2, Manual)];
    assert inputs[1..][1..][1..] == [inputs[3]] && inputs[1..][1..] == [inputs[2], inputs[3]];
    assert Run(w3, [inputs[3]]) == Run(w4, []) == w4;
    assert Run(w2, [inputs[2], inputs[3]]) == Run(w3, [inputs[3]])
        by { assert [inputs[2], inputs[3]][1..] == [inputs[3]]; }
    assert Run(w1, inputs[1..]) == Run(w2, inputs[1..][1..]);
  }
}
