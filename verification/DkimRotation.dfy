/**
 * The DKIM key rotation of one domain, as one replica drives it: runs at any times of a non-decreasing
 * clock, each making up to five transitions on whatever the resolver, the mail server and the store
 * answer, with an administrator's writes in between. A log of what was seen and done carries the
 * promises: when signing switches and when the old selector goes. Times are milliseconds.
 */
module DkimRotation {
  import opened Options

  const HOUR := 3_600_000
  const TOLERANCE := 6 * HOUR
  const MAX_TRANSITIONS: nat := 5

  type Selector = nat

  datatype Liveness = Live | Absent | Unanswered

  datatype Reason = Scheduled | Manual | Compromised

  datatype Next = Next(selector: Selector, hasKey: bool, reason: Reason, liveSince: Option<int>)

  datatype Phase =
    | Idle
    | Pending(next: Option<Next>)
    | Switching(previous: Selector, reason: Reason)
    | Overlap(previous: Selector, reason: Reason, retireAt: int)

  datatype Domain = Domain(selector: Selector, phase: Phase)

  datatype Config = Config(graceMs: nat, overlapMs: nat)

  /** The domain's row, and since when lookups of its new record have gone unanswered, which only this process knows. */
  datatype Memory = Memory(domain: Domain, unknownSince: Option<int>)

  /**
   * What one transition runs into: the lookup's answer, whether the mail server signs with the row's
   * selector, whether a key can be generated, whether a scheduled rotation is due (and its selector), and
   * whether the version-checked save goes through.
   */
  datatype Answers = Answers(lookup: Liveness, acknowledged: bool, generated: bool, due: Option<Selector>, saved: bool)

  /** `saved`: whether a write the lookup calls for goes through. */
  datatype Event =
    | Looked(at: int, selector: Selector, answer: Liveness, saved: bool)
    | Switched(at: int, previous: Selector, selector: Selector, reason: Reason)
    | Acked(at: int, selector: Selector)
    | Retired(at: int, previous: Selector, reason: Reason)
    /** A rotation begins, is given up while pending, or is put back by an administrator. */
    | Began(at: int, selector: Selector)
    | Dropped(at: int)
    | Reverted(at: int, selector: Selector)

  // ---- the transitions ----

  /**
   * What a transition leaves: the row and the memory, what it adds to the log, and whether another may follow
   * at once.
   */
  datatype Outcome = Outcome(memory: Memory, logged: seq<Event>, again: bool)

  function WithPhase(m: Memory, phase: Phase): Memory { m.(domain := m.domain.(phase := phase)) }

  function WithNext(m: Memory, next: Next): Memory { WithPhase(m, Pending(Some(next))) }

  /** Since when lookups are unanswered after one more. */
  function UnknownSince(m: Memory, now: int, lookup: Liveness): (since: Option<int>) {
    if lookup != Unanswered then None else if m.unknownSince.Some? then m.unknownSince else Some(now)
  }

  /** An absent record, or one nothing was heard of for as long as the tolerance. */
  predicate Gone(m: Memory, now: int, lookup: Liveness) {
    lookup == Absent || (lookup == Unanswered && now - UnknownSince(m, now, lookup).value >= TOLERANCE)
  }

  /** The row after a lookup of the new record. */
  function DomainAfter(config: Config, m: Memory, next: Next, now: int, a: Answers): (d: Domain) {
    var d := m.domain;
    if !a.saved then d
    else if Gone(m, now, a.lookup) then d.(phase := Pending(Some(next.(liveSince := None))))
    else if a.lookup == Unanswered then d
    else if next.liveSince.None? then d.(phase := Pending(Some(next.(liveSince := Some(now)))))
    else if next.reason != Compromised && now - next.liveSince.value < config.graceMs then d
    else Domain(next.selector, Switching(d.selector, next.reason))
  }

  function Look(config: Config, m: Memory, next: Next, now: int, a: Answers): (o: Outcome) {
    var d := DomainAfter(config, m, next, now, a);
    var looked := Looked(now, next.selector, a.lookup, a.saved);
    Outcome(Memory(d, UnknownSince(m, now, a.lookup)),
            if d.phase.Switching? then [looked, Switched(now, m.domain.selector, next.selector, next.reason)]
                else [looked],
            a.lookup == Live && a.saved && (next.liveSince.None? || d.phase.Switching?))
  }

  function StepPending(config: Config, m: Memory, now: int, a: Answers): (o: Outcome)
    requires m.domain.phase.Pending?
  {
    match m.domain.phase.next
    case None => if a.saved then Outcome(WithPhase(m, Idle), [Dropped(now)], false) else Outcome(m, [], false)
    case Some(next) =>
      if next.hasKey then Look(config, m, next, now, a)
      else if a.generated && a.saved then Outcome(WithNext(m, next.(hasKey := true)), [], true)
      else Outcome(m, [], false)
  }

  function StepSwitching(config: Config, m: Memory, now: int, a: Answers): (o: Outcome)
    requires m.domain.phase.Switching?
  {
    var phase := m.domain.phase;
    if a.acknowledged && a.saved then
      var overlap := if phase.reason == Compromised then 0 else config.overlapMs;
      Outcome(WithPhase(m, Overlap(phase.previous, phase.reason, now + overlap)), [Acked(now, m.domain.selector)], true)
    else Outcome(m, [], false)
  }

  function Step(config: Config, was: Memory, now: int, a: Answers): (o: Outcome) {
    var m := if was.domain.phase.Pending? then was else was.(unknownSince := None);
    match m.domain.phase
    case Pending(_) => StepPending(config, m, now, a)
    case Switching(_, _) => StepSwitching(config, m, now, a)
    case Overlap(previous, reason, retireAt) =>
      if retireAt <= now && a.saved then Outcome(WithPhase(m, Idle), [Retired(now, previous, reason)], false)
      else Outcome(m, [], false)
    case Idle =>
      if a.due.Some? && a.saved
      then Outcome(WithNext(m, Next(a.due.value, false, Scheduled, None)), [Began(now, a.due.value)], true)
      else Outcome(m, [], false)
  }

  /** One run: transitions for as long as another may follow and answers last. */
  function RunOf(config: Config, m: Memory, now: int, answers: seq<Answers>): (o: Outcome)
    decreases |answers|
  {
    if answers == [] then Outcome(m, [], true)
    else
      var o := Step(config, m, now, answers[0]);
      if !o.again then o
      else
        var rest := RunOf(config, o.memory, now, answers[1..]);
        rest.(logged := o.logged + rest.logged)
  }

  /** An administrator's write. */
  datatype Admin = RotateNow(selector: Selector, reason: Reason) | ReportCompromised | Cancel

  function AdminOf(m: Memory, now: int, a: Admin): (o: Outcome) {
    match (a, m.domain.phase)
    case (RotateNow(selector, reason), Idle) =>
      Outcome(WithNext(m, Next(selector, false, reason, None)), [Began(now, selector)], false)
    case (ReportCompromised, Pending(Some(next))) => Outcome(WithNext(m, next.(reason := Compromised)), [], false)
    case (ReportCompromised, Switching(previous, _)) =>
      Outcome(WithPhase(m, Switching(previous, Compromised)), [], false)
    case (ReportCompromised, Overlap(previous, _, _)) =>
      Outcome(WithPhase(m, Idle), [Retired(now, previous, Compromised)], false)
    case (Cancel, Pending(_)) => Outcome(WithPhase(m, Idle), [Dropped(now)], false)
    case (Cancel, Switching(previous, _)) =>
      Outcome(m.(domain := Domain(previous, Idle)), [Reverted(now, previous)], false)
    case _ => Outcome(m, [], false)
  }

  // ---- the replica ----

  class Replica {
    const config: Config
    var domain: Domain
    var unknownSince: Option<int>
    ghost var log: seq<Event>

    constructor (config: Config, selector: Selector)
      ensures this.config == config && State() == Memory(Domain(selector, Idle), None) && log == []
    {
      this.config, domain, unknownSince, log := config, Domain(selector, Idle), None, [];
    }

    function State(): (m: Memory)
      reads this
    {
      Memory(domain, unknownSince)
    }

    /** The row and the log after `o`. */
    ghost predicate Became(before: seq<Event>, o: Outcome)
      reads this
    {
      State() == o.memory && log == before + o.logged
    }

    /** Looks the record up, waits or takes the grace back, and once the grace has passed switches the domain's key. */
    method LookUp(now: int, next: Next, answers: Answers) returns (again: bool)
      requires domain.phase == Pending(Some(next))
      modifies this
      ensures Became(old(log), Look(config, old(State()), next, now, answers))
      ensures again == Look(config, old(State()), next, now, answers).again
    {
      again := false;
      log := log + [Looked(now, next.selector, answers.lookup, answers.saved)];
      var liveness := answers.lookup;
      if liveness == Unanswered {
        var since := if unknownSince.Some? then unknownSince.value else now;
        unknownSince := Some(since);
        if now - since < TOLERANCE { return; }
        liveness := Absent;
      } else {
        unknownSince := None;
      }
      if liveness == Absent {
        if next.liveSince.Some? && answers.saved {
          domain := domain.(phase := Pending(Some(next.(liveSince := None))));
        }
        return;
      }
      if next.liveSince.None? {
        if answers.saved {
          domain := domain.(phase := Pending(Some(next.(liveSince := Some(now)))));
          again := true;
        }
        return;
      }
      if next.reason != Compromised && now - next.liveSince.value < config.graceMs { return; }
      if answers.saved {
        log := log + [Switched(now, domain.selector, next.selector, next.reason)];
        domain := Domain(next.selector, Switching(domain.selector, next.reason));
        again := true;
      }
    }

    /** One transition; `again` when another may follow at once. */
    method Advance(now: int, answers: Answers) returns (again: bool)
      modifies this
      ensures Became(old(log), Step(config, old(State()), now, answers))
      ensures again == Step(config, old(State()), now, answers).again
    {
      again := false;
      if !domain.phase.Pending? { unknownSince := None; }
      match domain.phase {
        case Pending(None) =>
          if answers.saved {
            domain := domain.(phase := Idle);
            log := log + [Dropped(now)];
          }
        case Pending(Some(next)) =>
          if next.hasKey {
            again := LookUp(now, next, answers);
          } else if answers.generated && answers.saved {
            domain := domain.(phase := Pending(Some(next.(hasKey := true))));
            again := true;
          }
        case Switching(previous, reason) =>
          if answers.acknowledged && answers.saved {
            var overlap := if reason == Compromised then 0 else config.overlapMs;
            log := log + [Acked(now, domain.selector)];
            domain := domain.(phase := Overlap(previous, reason, now + overlap));
            again := true;
          }
        case Overlap(previous, reason, retireAt) =>
          if retireAt <= now && answers.saved {
            domain := domain.(phase := Idle);
            log := log + [Retired(now, previous, reason)];
          }
        case Idle =>
          if answers.due.Some? && answers.saved {
            domain := domain.(phase := Pending(Some(Next(answers.due.value, false, Scheduled, None))));
            log := log + [Began(now, answers.due.value)];
            again := true;
          }
      }
    }

    /** One run: as many transitions as are due, at most five. */
    method AdvanceDomain(now: int, answers: seq<Answers>)
      requires |answers| == MAX_TRANSITIONS
      modifies this
      ensures Became(old(log), RunOf(config, old(State()), now, answers))
    {
      ghost var whole := RunOf(config, State(), now, answers);
      var again := true;
      for i := 0 to MAX_TRANSITIONS
        invariant again ==> old(log) + whole.logged == log + RunOf(config, State(), now, answers[i..]).logged
        invariant again ==> whole.memory == RunOf(config, State(), now, answers[i..]).memory
        invariant !again ==> Became(old(log), whole)
      {
        if !again { break; }
        assert answers[i..][1..] == answers[i + 1..];
        again := Advance(now, answers[i]);
      }
    }
  }
}
