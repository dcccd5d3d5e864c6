/**
 * Claiming the alarms of one event. A run takes the row as it read it through both kinds of alarm in turn:
 * for an occurrence found due it writes the start into the kind's marker with a compare-and-set, reading the
 * row again once after a lost race. A won claim carries its version and its marker over to the row as read,
 * and nothing else. Users edit the row, other runs claim. Every winning claim sends one notification.
 */
module ReminderClaims {
  import opened Options
  import opened AlarmKinds

  /** One of a thing for each kind of alarm. */
  datatype Both<T> = Both(reminder: T, startAlarm: T)

  function Of<T>(b: Both<T>, kind: Kind): (t: T) {
    match kind
    case Reminder => b.reminder
    case StartAlarm => b.startAlarm
  }

  function With<T>(b: Both<T>, kind: Kind, t: T): (r: Both<T>)
    ensures forall k :: Of(r, k) == if k == kind then t else Of(b, k)
  {
    match kind
    case Reminder => b.(reminder := t)
    case StartAlarm => b.(startAlarm := t)
  }

  datatype Row = Row(version: nat, start: int, markers: Both<Option<int>>)

  /** A claim under way: the start found due, the row it goes by and how many tries it has made. */
  datatype Claim = Claim(kind: Kind, start: int, current: Row, tries: nat)

  /**
   * A run at work on the event: its copy of the row, how many kinds of alarm are left to look at and the claim
   * under way. `carried`: the copy has the version of a row read again.
   */
  datatype Turn = Turn(event: Row, carried: bool, left: nat, claim: Option<Claim>)

  type Replica = nat

  /** A notification: the occurrence's start, and which of the starts the event has been given was current then. */
  datatype Sent = Sent(start: int, era: nat)

  /** `master`: a recurring series. `given`: every start the row has had, the last being the current one. */
  datatype World = World(master: bool, row: Row, given: seq<int>, turns: map<Replica, Turn>, sent: Both<seq<Sent>>)

  datatype Action =
    | Read(replica: Replica)
    /** Finds `start` due: any occurrence of a series, the start as read of a single event. */
    | Find(replica: Replica, kind: Kind, start: int)
    | Try(replica: Replica)
    | Die(replica: Replica)
    /** A user moves the event. */
    | Move(start: int)
    /** Any other edit. */
    | Touch

  predicate AlreadySent(master: bool, marker: Option<int>, start: int) {
    marker.Some? && if master then start <= marker.value else start == marker.value
  }

  /** The reminder comes first, and either may not be due. */
  predicate MayFind(t: Turn, kind: Kind) {
    t.claim.None? && if kind.Reminder? then t.left == 2 else t.left >= 1
  }

  function Apply(w: World, a: Action): (w': World) {
    match a
    case Read(replica) => w.(turns := w.turns[replica := Turn(w.row, false, 2, None)])
    case Find(replica, kind, start) =>
      if replica in w.turns && MayFind(w.turns[replica], kind)
      then w.(turns := w.turns[replica := Found(w.master, w.turns[replica], kind, start)]) else w
    case Try(replica) =>
      if replica in w.turns && w.turns[replica].claim.Some?
      then ApplyTry(w, replica, w.turns[replica], w.turns[replica].claim.value) else w
    case Die(replica) => w.(turns := w.turns - {replica})
    case Move(start) => w.(row := w.row.(version := w.row.version + 1, start := start), given := w.given + [start])
    case Touch => w.(row := w.row.(version := w.row.version + 1))
  }

  function Found(master: bool, t: Turn, kind: Kind, start: int): (t': Turn) {
    t.(left := if kind.Reminder? then 1 else 0,
       claim := Some(Claim(kind, if master then start else t.event.start, t.event, 0)))
  }

  /** The row, or a copy of it, with a claim won at `version`. */
  function Claimed(row: Row, version: nat, c: Claim): (row': Row) {
    row.(version := version, markers := With(row.markers, c.kind, Some(c.start)))
  }

  function ApplyTry(w: World, replica: Replica, t: Turn, c: Claim): (w': World) {
    if c.tries >= 2 || AlreadySent(w.master, Of(c.current.markers, c.kind), c.start) then
      w.(turns := w.turns[replica := t.(claim := None)])
    else if c.current.version == w.row.version then
      var version, era := w.row.version + 1, if w.given == [] then 0 else |w.given| - 1;
      w.(row := Claimed(w.row, version, c),
         turns := w.turns[replica := Turn(Claimed(t.event, version, c), t.carried || c.tries > 0, t.left, None)],
         sent := With(w.sent, c.kind, Of(w.sent, c.kind) + [Sent(c.start, era)]))
    else w.(turns := w.turns[replica := t.(claim := Some(c.(current := w.row, tries := c.tries + 1)))])
  }

  function Run(w: World, actions: seq<Action>): (w': World)
    decreases |actions|
  {
    if actions == [] then w else Run(Apply(w, actions[0]), actions[1..])
  }

  // ---- the invariant ----

  /**
   * A copy of the row with its version is the row, unless the version was carried over; a row read again is.
   * Only the second kind of alarm is claimed from a copy with a carried version.
   */
  ghost predicate TurnOk(w: World, t: Turn) {
    && t.event.version <= w.row.version
    && (!t.carried && t.event.version == w.row.version ==> t.event == w.row)
    && (t.carried ==> t.left <= 1)
    && (t.claim.Some? ==>
          var c := t.claim.value;
          && t.left <= 1 && c.current.version <= w.row.version
          && (c.kind.Reminder? ==> !t.carried && t.left == 1)
          && (!w.master ==> c.start == t.event.start)
          && if c.tries == 0 then c.current == t.event
             else c.current.version == w.row.version ==> c.current == w.row)
  }

  ghost predicate TurnsOk(w: World) {
    forall r :: r in w.turns ==> TurnOk(w, w.turns[r])
  }

  /** The marker is the last start sent, and the row's start the last one given. */
  ghost predicate SentOk(w: World, kind: Kind) {
    var sent := Of(w.sent, kind);
    && Of(w.row.markers, kind) == (if sent == [] then None else Some(sent[|sent| - 1].start))
    && (forall i :: 0 <= i < |sent| ==> sent[i].era < |w.given|)
    && (forall i, j :: 0 <= i < j < |sent| ==> sent[i].era <= sent[j].era)
  }

  ghost predicate Inv(w: World) {
    && w.given != [] && w.given[|w.given| - 1] == w.row.start
    && TurnsOk(w) && SentOk(w, Reminder) && SentOk(w, StartAlarm)
  }

  /** The row is as it was, or has a later version. */
  predicate Onward(w: World, w': World) {
    w'.master == w.master && (w'.row == w.row || w'.row.version > w.row.version)
  }

  lemma TurnStays(w: World, w': World, t: Turn)
    requires TurnOk(w, t) && Onward(w, w')
    ensures TurnOk(w', t)
  {
  }

  lemma AlwaysOnward(w: World, a: Action)
    ensures Onward(w, Apply(w, a))
  {
  }

  lemma TryKeepsTurns(w: World, replica: Replica, t: Turn, c: Claim)
    requires TurnsOk(w) && replica in w.turns && w.turns[replica] == t && t.claim == Some(c)
    ensures TurnsOk(ApplyTry(w, replica, t, c))
  {
    assert TurnOk(w, t);
    var w' := ApplyTry(w, replica, t, c);
    forall r | r in w'.turns ensures TurnOk(w', w'.turns[r]) {
      if r != replica { TurnStays(w, w', w.turns[r]); }
    }
  }

  lemma TryKeepsSent(w: World, replica: Replica, t: Turn, c: Claim, kind: Kind)
    requires SentOk(w, kind) && w.given != []
    ensures SentOk(ApplyTry(w, replica, t, c), kind)
  {
  }

  lemma TryKeeps(w: World, a: Action)
    requires Inv(w) && a.Try?
    ensures Inv(Apply(w, a))
  {
    if a.replica in w.turns && w.turns[a.replica].claim.Some? {
      var t := w.turns[a.replica];
      TryKeepsTurns(w, a.replica, t, t.claim.value);
      TryKeepsSent(w, a.replica, t, t.claim.value, Reminder);
      TryKeepsSent(w, a.replica, t, t.claim.value, StartAlarm);
    }
  }

  lemma OthersKeepTurns(w: World, a: Action)
    requires Inv(w) && !a.Try?
    ensures TurnsOk(Apply(w, a))
  {
    var w' := Apply(w, a);
    AlwaysOnward(w, a);
    forall r | r in w'.turns ensures TurnOk(w', w'.turns[r]) {
      if r in w.turns && w'.turns[r] == w.turns[r] {
        TurnStays(w, w', w.turns[r]);
      } else {
        assert r in w.turns ==> TurnOk(w, w.turns[r]);
      }
    }
  }

  lemma Keeps(w: World, a: Action)
    requires Inv(w)
    ensures Inv(Apply(w, a)) && Apply(w, a).master == w.master
  {
    if a.Try? { TryKeeps(w, a); } else { OthersKeepTurns(w, a); }
  }

  lemma {:induction false} RunKeeps(w: World, actions: seq<Action>)
    requires Inv(w)
    ensures Inv(Run(w, actions)) && Run(w, actions).master == w.master
    decreases |actions|
  {
    if actions != [] {
      Keeps(w, actions[0]);
      RunKeeps(Apply(w, actions[0]), actions[1..]);
    }
  }

  /** A new event: nobody at work, nothing sent. */
  predicate Begins(w: World) {
    w.turns == map[] && w.sent == Both([], []) && w.row.markers == Both(None, None) && w.given == [w.row.start]
  }

  // ---- when every notification is right ----

  ghost predicate Increasing(sent: seq<Sent>) {
    forall i, j :: 0 <= i < j < |sent| ==> sent[i].start < sent[j].start
  }

  predicate ChangedAt(sent: seq<Sent>, i: nat) { 0 < i < |sent| ==> sent[i - 1].start != sent[i].start }

  /** No notification is for the start of the one before. */
  ghost predicate Changing(sent: seq<Sent>) {
    forall i: nat :: ChangedAt(sent, i)
  }

  predicate TimelyAt(sent: seq<Sent>, given: seq<int>, i: nat) {
    i < |sent| ==> sent[i].era < |given| && sent[i].start == given[sent[i].era]
  }

  /** Every notification is for the start the event had then. */
  ghost predicate Timely(sent: seq<Sent>, given: seq<int>) {
    forall i: nat :: TimelyAt(sent, given, i)
  }

  ghost predicate RightSo(master: bool, sent: seq<Sent>, given: seq<int>) {
    if master then Increasing(sent) else Timely(sent, given) && Changing(sent)
  }

  /** A series moves forward; a single event is notified for the start it has, and only after another one again. */
  ghost predicate Right(w: World, kind: Kind) { RightSo(w.master, Of(w.sent, kind), w.given) }

  /** The claim a try is about to win. */
  function Winning(w: World, a: Action): (c: Option<Claim>) {
    if a.Try? && a.replica in w.turns && w.turns[a.replica].claim.Some?
      && var c := w.turns[a.replica].claim.value;
         c.tries < 2 && !AlreadySent(w.master, Of(c.current.markers, c.kind), c.start)
           && c.current.version == w.row.version
    then w.turns[a.replica].claim else None
  }

  /** A claim about to be won for a start the row's own marker already covers. */
  predicate Blind(w: World, a: Action, kind: Kind) {
    var c := Winning(w, a);
    c.Some? && c.value.kind == kind && AlreadySent(w.master, Of(w.row.markers, kind), c.value.start)
  }

  /** A claim about to be won for a start a single event no longer has. */
  predicate Outdated(w: World, a: Action, kind: Kind) {
    var c := Winning(w, a);
    c.Some? && c.value.kind == kind && !w.master && c.value.start != w.row.start
  }

  predicate Wrong(w: World, a: Action, kind: Kind) { Blind(w, a, kind) || Outdated(w, a, kind) }

  predicate NoneWrong(w: World, actions: seq<Action>, kind: Kind)
    decreases |actions|
  {
    actions == [] || (!Wrong(w, actions[0], kind) && NoneWrong(Apply(w, actions[0]), actions[1..], kind))
  }

  predicate NoneBlind(w: World, actions: seq<Action>, kind: Kind)
    decreases |actions|
  {
    actions == [] || (!Blind(w, actions[0], kind) && NoneBlind(Apply(w, actions[0]), actions[1..], kind))
  }

  /** Only a win of its own kind adds a notification. */
  lemma SentAfter(w: World, a: Action, kind: Kind)
    requires w.given != []
    ensures var c := Winning(w, a);
            Of(Apply(w, a).sent, kind) ==
            if c.Some? && c.value.kind == kind then Of(w.sent, kind) + [Sent(c.value.start, |w.given| - 1)]
            else Of(w.sent, kind)
    ensures Winning(w, a).Some? ==> Apply(w, a).given == w.given
    ensures w.given <= Apply(w, a).given && Apply(w, a).master == w.master
  {
  }

  // ---- one notification more ----

  lemma LongerIncreasing(sent: seq<Sent>, n: Sent)
    ensures Increasing(sent + [n]) ==> Increasing(sent)
    ensures Increasing(sent) ==> (Increasing(sent + [n]) <==> sent == [] || sent[|sent| - 1].start < n.start)
  {
    var longer := sent + [n];
    assert forall i :: 0 <= i < |sent| ==> longer[i] == sent[i];
    if sent != [] { assert longer[|sent| - 1] == sent[|sent| - 1] && longer[|sent|] == n; }
  }

  lemma LongerChanging(sent: seq<Sent>, n: Sent)
    ensures Changing(sent + [n]) ==> Changing(sent)
    ensures Changing(sent) ==> (Changing(sent + [n]) <==> sent == [] || sent[|sent| - 1].start != n.start)
  {
    var longer := sent + [n];
    if Changing(longer) {
      forall i: nat ensures ChangedAt(sent, i) { assert ChangedAt(longer, i); }
      assert ChangedAt(longer, |sent|);
    }
    if Changing(sent) && (sent == [] || sent[|sent| - 1].start != n.start) {
      forall i: nat ensures ChangedAt(longer, i) { assert ChangedAt(sent, i); }
    }
  }

  lemma LongerTimely(sent: seq<Sent>, given: seq<int>, n: Sent)
    requires n.era < |given|
    ensures Timely(sent + [n], given) <==> Timely(sent, given) && n.start == given[n.era]
  {
    var longer := sent + [n];
    if Timely(longer, given) {
      forall i: nat ensures TimelyAt(sent, given, i) { assert TimelyAt(longer, given, i); }
      assert TimelyAt(longer, given, |sent|);
    }
    if Timely(sent, given) && n.start == given[n.era] {
      forall i: nat ensures TimelyAt(longer, given, i) { assert TimelyAt(sent, given, i); }
    }
  }

  /** Starts given later make no earlier notification right or wrong. */
  lemma GivenMore(sent: seq<Sent>, given: seq<int>, given': seq<int>)
    requires given <= given' && forall i :: 0 <= i < |sent| ==> sent[i].era < |given|
    ensures Timely(sent, given') <==> Timely(sent, given)
  {
    if Timely(sent, given') {
      forall i: nat ensures TimelyAt(sent, given, i) { assert TimelyAt(sent, given', i); }
    }
    if Timely(sent, given) {
      forall i: nat ensures TimelyAt(sent, given', i) { assert TimelyAt(sent, given, i); }
    }
  }

  lemma RightLonger(master: bool, sent: seq<Sent>, given: seq<int>, n: Sent)
    requires n.era < |given|
    ensures RightSo(master, sent + [n], given) ==> RightSo(master, sent, given)
    ensures RightSo(master, sent, given) ==>
              (RightSo(master, sent + [n], given) <==>
                 if master then sent == [] || sent[|sent| - 1].start < n.start
                 else n.start == given[n.era] && (sent == [] || sent[|sent| - 1].start != n.start))
  {
    LongerIncreasing(sent, n);
    LongerChanging(sent, n);
    LongerTimely(sent, given, n);
  }

  /** Notifications and the starts given are only added to, so what went wrong stays wrong. */
  lemma WrongStays(w: World, a: Action, kind: Kind)
    requires w.given != [] && SentOk(w, kind)
    ensures !Right(w, kind) ==> !Right(Apply(w, a), kind)
    ensures !Changing(Of(w.sent, kind)) ==> !Changing(Of(Apply(w, a).sent, kind))
  {
    SentAfter(w, a, kind);
    var c, sent, w' := Winning(w, a), Of(w.sent, kind), Apply(w, a);
    GivenMore(sent, w.given, w'.given);
    if c.Some? && c.value.kind == kind {
      var n := Sent(c.value.start, |w.given| - 1);
      RightLonger(w.master, sent, w.given, n);
      LongerChanging(sent, n);
    }
  }

  lemma WinIsRight(w: World, a: Action, kind: Kind)
    requires w.given != [] && w.given[|w.given| - 1] == w.row.start && SentOk(w, kind)
    requires Right(w, kind) && Winning(w, a).Some? && Winning(w, a).value.kind == kind
    ensures Right(Apply(w, a), kind) <==> !Wrong(w, a, kind)
  {
    SentAfter(w, a, kind);
    RightLonger(w.master, Of(w.sent, kind), w.given, Sent(Winning(w, a).value.start, |w.given| - 1));
  }

  /** One action keeps every notification right exactly if it is not a wrong win. */
  lemma RightStep(w: World, a: Action, kind: Kind)
    requires Inv(w) && Right(w, kind)
    ensures Right(Apply(w, a), kind) <==> !Wrong(w, a, kind)
  {
    if Winning(w, a).Some? && Winning(w, a).value.kind == kind {
      WinIsRight(w, a, kind);
    } else {
      SentAfter(w, a, kind);
      GivenMore(Of(w.sent, kind), w.given, Apply(w, a).given);
    }
  }

  lemma {:induction false} RightRun(w: World, actions: seq<Action>, kind: Kind)
    requires Inv(w)
    ensures Right(Run(w, actions), kind) <==> Right(w, kind) && NoneWrong(w, actions, kind)
    decreases |actions|
  {
    if actions != [] {
      Keeps(w, actions[0]);
      RightRun(Apply(w, actions[0]), actions[1..], kind);
      if Right(w, kind) { RightStep(w, actions[0], kind); } else { WrongStays(w, actions[0], kind); }
    }
  }

  /**
   * A series, over all runs, lost races and edits: each notification of a kind is for a later occurrence than
   * the one before, so none is sent twice, if and only if no claim is won while the row's own marker already
   * covers its start.
   */
  lemma SeriesSentOnce(w: World, actions: seq<Action>, kind: Kind)
    requires Begins(w) && w.master
    ensures Increasing(Of(Run(w, actions).sent, kind)) <==> NoneBlind(w, actions, kind)
  {
    RunKeeps(w, actions);
    RightRun(w, actions, kind);
    BlindIsWrong(w, actions, kind);
  }

  lemma {:induction false} BlindIsWrong(w: World, actions: seq<Action>, kind: Kind)
    requires w.master
    ensures NoneWrong(w, actions, kind) <==> NoneBlind(w, actions, kind)
    decreases |actions|
  {
    if actions != [] { BlindIsWrong(Apply(w, actions[0]), actions[1..], kind); }
  }

  /**
   * A single event, over all runs, lost races and edits: every notification of a kind is for the start the
   * event has then and not for the start of the one before, if and only if no claim is won for a start the row
   * no longer has or its marker already holds.
   */
  lemma SingleSentRight(w: World, actions: seq<Action>, kind: Kind)
    requires Begins(w) && !w.master
    ensures (Timely(Of(Run(w, actions).sent, kind), Run(w, actions).given) && Changing(Of(Run(w, actions).sent, kind)))
            <==> NoneWrong(w, actions, kind)
  {
    RunKeeps(w, actions);
    RightRun(w, actions, kind);
  }

  lemma ChangingStep(w: World, a: Action, kind: Kind)
    requires Inv(w) && !w.master && Changing(Of(w.sent, kind))
    ensures Changing(Of(Apply(w, a).sent, kind)) <==> !Blind(w, a, kind)
  {
    SentAfter(w, a, kind);
    var c := Winning(w, a);
    if c.Some? && c.value.kind == kind { LongerChanging(Of(w.sent, kind), Sent(c.value.start, |w.given| - 1)); }
  }

  lemma {:induction false} ChangingRun(w: World, actions: seq<Action>, kind: Kind)
    requires Inv(w) && !w.master
    ensures Changing(Of(Run(w, actions).sent, kind)) <==> Changing(Of(w.sent, kind)) && NoneBlind(w, actions, kind)
    decreases |actions|
  {
    if actions != [] {
      Keeps(w, actions[0]);
      ChangingRun(Apply(w, actions[0]), actions[1..], kind);
      if Changing(Of(w.sent, kind)) { ChangingStep(w, actions[0], kind); } else { WrongStays(w, actions[0], kind); }
    }
  }

  /**
   * A single event: no start is sent twice without another in between if and only if no claim is won for the
   * start the row's marker holds.
   */
  lemma NeverTwiceInARow(w: World, actions: seq<Action>, kind: Kind)
    requires Begins(w) && !w.master
    ensures Changing(Of(Run(w, actions).sent, kind)) <==> NoneBlind(w, actions, kind)
  {
    ChangingRun(w, actions, kind);
  }

  // ---- which wins can be wrong ----

  /**
   * A claim made from the row as read is right on its first try, unless an earlier claim of the turn was won on
   * a row read again; a claim won on a row read again is never blind; and the reminder's claim never is.
   */
  lemma FirstTryIsRight(w: World, a: Action, kind: Kind)
    requires Inv(w) && Winning(w, a).Some?
    ensures var c, carried := Winning(w, a).value, w.turns[a.replica].carried;
            && (c.tries == 0 && !carried ==> !Wrong(w, a, kind))
            && (c.tries > 0 || !carried || kind.Reminder? ==> !Blind(w, a, kind))
  {
    assert TurnOk(w, w.turns[a.replica]);
  }

  /** A claim that is not won, for a start sent already or after a second lost race, ends, and the turn goes on. */
  lemma LostClaimEnds(w: World, a: Action)
    requires a.Try? && a.replica in w.turns && w.turns[a.replica].claim.Some?
    requires var c := w.turns[a.replica].claim.value;
             c.tries >= 2 || AlreadySent(w.master, Of(c.current.markers, c.kind), c.start)
    ensures var w' := Apply(w, a);
            && w'.row == w.row && w'.sent == w.sent && w'.given == w.given
            && a.replica in w'.turns && w'.turns[a.replica] == w.turns[a.replica].(claim := None)
  {
  }

  /** A first try that is won leaves the turn with the row as it is, so its next claim is made from that. */
  lemma FirstWinIsCurrent(w: World, a: Action)
    requires Inv(w) && Winning(w, a).Some? && Winning(w, a).value.tries == 0 && !w.turns[a.replica].carried
    ensures var w' := Apply(w, a);
            a.replica in w'.turns && w'.turns[a.replica].event == w'.row && !w'.turns[a.replica].carried
  {
    assert TurnOk(w, w.turns[a.replica]);
  }

  lemma {:induction false} RemindersNotBlind(w: World, actions: seq<Action>)
    requires Inv(w)
    ensures NoneBlind(w, actions, Reminder)
    decreases |actions|
  {
    if actions != [] {
      if Winning(w, actions[0]).Some? { FirstTryIsRight(w, actions[0], Reminder); }
      Keeps(w, actions[0]);
      RemindersNotBlind(Apply(w, actions[0]), actions[1..]);
    }
  }

  /** Reminders come first in a turn: a series is never reminded of a start twice, a single event never in a row. */
  lemma RemindersSentOnce(w: World, actions: seq<Action>)
    requires Begins(w)
    ensures if w.master then Increasing(Run(w, actions).sent.reminder) else Changing(Run(w, actions).sent.reminder)
  {
    RemindersNotBlind(w, actions);
    if w.master { SeriesSentOnce(w, actions, Reminder); } else { NeverTwiceInARow(w, actions, Reminder); }
  }

  /** The row holds a start alarm's marker that the copy does not, for a start the turn could still claim. */
  predicate Hidden(w: World, event: Row) {
    var marker := w.row.markers.startAlarm;
    marker.Some? && (w.master || marker.value == event.start)
      && !AlreadySent(w.master, event.markers.startAlarm, marker.value)
  }

  /**
   * A win on a row read again for a start a single event no longer has; or a reminder's, when the row read again
   * has had a start alarm the copy knows nothing of.
   */
  predicate Astray(w: World, a: Action) {
    var c := Winning(w, a);
    && c.Some? && c.value.tries > 0
    && (Outdated(w, a, c.value.kind) || (c.value.kind.Reminder? && Hidden(w, w.turns[a.replica].event)))
  }

  predicate NoneAstray(w: World, actions: seq<Action>)
    decreases |actions|
  {
    actions == [] || (!Astray(w, actions[0]) && NoneAstray(Apply(w, actions[0]), actions[1..]))
  }

  /** A copy with a carried version lacks nothing that matters to the start alarm. */
  ghost predicate CarryOk(w: World, t: Turn) {
    t.carried && t.event.version == w.row.version ==>
      (w.master || t.event.start == w.row.start) && !Hidden(w, t.event)
  }

  ghost predicate CarriesOk(w: World) {
    forall r :: r in w.turns ==> CarryOk(w, w.turns[r])
  }

  lemma CarryStays(w: World, w': World, t: Turn)
    requires TurnOk(w, t) && CarryOk(w, t) && Onward(w, w')
    ensures CarryOk(w', t)
  {
  }

  lemma CarriesStay(w: World, a: Action)
    requires Inv(w) && CarriesOk(w) && !Astray(w, a)
    ensures CarriesOk(Apply(w, a))
  {
    var w' := Apply(w, a);
    AlwaysOnward(w, a);
    forall r | r in w'.turns ensures CarryOk(w', w'.turns[r]) {
      if r in w.turns { assert TurnOk(w, w.turns[r]) && CarryOk(w, w.turns[r]); }
      if r in w.turns && w'.turns[r] == w.turns[r] { CarryStays(w, w', w.turns[r]); }
    }
  }

  lemma NotAstrayIsRight(w: World, a: Action, kind: Kind)
    requires Inv(w) && CarriesOk(w) && !Astray(w, a)
    ensures !Wrong(w, a, kind)
  {
    if Winning(w, a).Some? {
      assert TurnOk(w, w.turns[a.replica]) && CarryOk(w, w.turns[a.replica]);
    }
  }

  lemma {:induction false} NoneAstrayNoneWrong(w: World, actions: seq<Action>, kind: Kind)
    requires Inv(w) && CarriesOk(w) && NoneAstray(w, actions)
    ensures NoneWrong(w, actions, kind)
    decreases |actions|
  {
    if actions != [] {
      NotAstrayIsRight(w, actions[0], kind);
      CarriesStay(w, actions[0]);
      Keeps(w, actions[0]);
      NoneAstrayNoneWrong(Apply(w, actions[0]), actions[1..], kind);
    }
  }

  /** Without a win that goes astray every notification of both kinds is right. */
  lemma NoneAstrayIsRight(w: World, actions: seq<Action>, kind: Kind)
    requires Begins(w) && NoneAstray(w, actions)
    ensures Right(Run(w, actions), kind)
  {
    NoneAstrayNoneWrong(w, actions, kind);
    RightRun(w, actions, kind);
  }

  /**
   * Wherever a run comes to a win that goes astray, a notification is wrong at once or once the same turn goes on
   * to its start alarm.
   */
  lemma AstrayGoesWrong(w: World, actions: seq<Action>, a: Action) returns (after: seq<Action>, kind: Kind)
    requires Begins(w) && Astray(Run(w, actions), a)
    ensures !Right(Run(w, actions + [a] + after), kind)
    ensures forall b :: b in after ==> (b.Find? || b.Try?) && b.replica == a.replica
  {
    RunKeeps(w, actions);
    var w1 := Run(w, actions);
    var c := Winning(w1, a).value;
    if Outdated(w1, a, c.kind) {
      after, kind := [], c.kind;
      assert Wrong(w1, a, kind);
    } else {
      kind := StartAlarm;
      after := [Find(a.replica, StartAlarm, w1.row.markers.startAlarm.value), Try(a.replica)];
      HiddenGoesWrong(w1, a, after);
    }
    assert !NoneWrong(w1, [a] + after, kind);
    RightRun(w1, [a] + after, kind);
    RunAppend(w, actions, [a] + after);
    assert actions + ([a] + after) == actions + [a] + after;
  }

  lemma HiddenGoesWrong(w: World, a: Action, after: seq<Action>)
    requires Inv(w) && Astray(w, a) && !Outdated(w, a, Winning(w, a).value.kind)
    requires after == [Find(a.replica, StartAlarm, w.row.markers.startAlarm.value), Try(a.replica)]
    ensures !NoneWrong(w, [a] + after, StartAlarm)
  {
    assert TurnOk(w, w.turns[a.replica]);
    var w' := Apply(w, a);
    var w'' := Apply(w', after[0]);
    assert ([a] + after)[1..] == after && after[1..] == [after[1]];
    assert Blind(w'', after[1], StartAlarm);
    assert !NoneWrong(w'', [after[1]], StartAlarm) && !NoneWrong(w', after, StartAlarm);
  }

  // ---- notifications and starts, counted ----

  /** How often the event was given the start `s`. */
  function Times(given: seq<int>, s: int): (n: nat) {
    if given == [] then 0 else Times(given[..|given| - 1], s) + (if given[|given| - 1] == s then 1 else 0)
  }

  /** How many notifications were for it. */
  function SentFor(sent: seq<Sent>, s: int): (n: nat) {
    if sent == [] then 0 else SentFor(sent[..|sent| - 1], s) + (if sent[|sent| - 1].start == s then 1 else 0)
  }

  /** No start has more notifications of the kind than times it was given. */
  ghost predicate AtMostGiven(w: World, kind: Kind) {
    forall s :: NoMore(Of(w.sent, kind), w.given, s)
  }

  predicate NoMore(sent: seq<Sent>, given: seq<int>, s: int) { SentFor(sent, s) <= Times(given, s) }

  /** A win for a start that already had all its notifications. */
  predicate Repeats(w: World, a: Action, kind: Kind) {
    var c := Winning(w, a);
    c.Some? && c.value.kind == kind && SentFor(Of(w.sent, kind), c.value.start) >= Times(w.given, c.value.start)
  }

  lemma CountLonger(sent: seq<Sent>, given: seq<int>, n: Sent)
    requires forall s :: NoMore(sent, given, s)
    ensures (forall s :: NoMore(sent + [n], given, s)) <==> SentFor(sent, n.start) < Times(given, n.start)
  {
    forall s ensures NoMore(sent + [n], given, s) <==> s != n.start || SentFor(sent, s) < Times(given, s) {
      SentForMore(sent, n, s);
      assert NoMore(sent, given, s);
    }
    assert SentFor(sent, n.start) >= Times(given, n.start) ==> !NoMore(sent + [n], given, n.start);
  }

  /** One action keeps the count exactly if it is not such a win. */
  lemma CountStep(w: World, a: Action, kind: Kind)
    requires w.given != [] && AtMostGiven(w, kind)
    ensures AtMostGiven(Apply(w, a), kind) <==> !Repeats(w, a, kind)
  {
    SentAfter(w, a, kind);
    var w', c, sent := Apply(w, a), Winning(w, a), Of(w.sent, kind);
    if c.Some? && c.value.kind == kind {
      CountLonger(sent, w.given, Sent(c.value.start, |w.given| - 1));
    } else {
      forall s ensures NoMore(sent, w'.given, s) {
        assert NoMore(sent, w.given, s);
        assert w'.given[..|w.given|] == w.given;
        TimesGrow(w'.given, |w.given|, s);
      }
    }
  }

  lemma {:induction false} TimesGrow(given: seq<int>, n: nat, s: int)
    requires n <= |given|
    ensures Times(given[..n], s) <= Times(given, s)
    decreases |given|
  {
    if n < |given| {
      assert given[..|given| - 1][..n] == given[..n];
      TimesGrow(given[..|given| - 1], n, s);
    } else {
      assert given[..n] == given;
    }
  }

  /** Notifications for the starts given, one each, are no more than the starts given. */
  lemma {:induction false} OneEachCounts(sent: seq<Sent>, given: seq<int>, s: int)
    requires forall i: nat :: TimelyAt(sent, given, i)
    requires forall i, j :: 0 <= i < j < |sent| ==> sent[i].era < sent[j].era
    ensures SentFor(sent, s) <= Times(given, s)
    decreases |sent|
  {
    if sent != [] {
      var n := |sent| - 1;
      var era := sent[n].era;
      assert TimelyAt(sent, given, n);
      forall i: nat ensures TimelyAt(sent[..n], given[..era], i) { assert TimelyAt(sent, given, i); }
      OneEachCounts(sent[..n], given[..era], s);
      assert given[..era + 1][..era] == given[..era];
      TimesGrow(given, era + 1, s);
    }
  }

  /** Two notifications while the event has one start would be for the same start. */
  lemma RightErasIncrease(w: World, kind: Kind)
    requires Inv(w) && !w.master && Right(w, kind)
    ensures var sent := Of(w.sent, kind); forall i, j :: 0 <= i < j < |sent| ==> sent[i].era < sent[j].era
  {
    var sent := Of(w.sent, kind);
    forall i, j | 0 <= i < j < |sent| ensures sent[i].era < sent[j].era {
      assert ChangedAt(sent, i + 1) && TimelyAt(sent, w.given, i) && TimelyAt(sent, w.given, i + 1);
      assert sent[i].era <= sent[i + 1].era;
      assert i + 1 < j ==> sent[i + 1].era <= sent[j].era;
    }
  }

  /** Without a wrong win a single event has at most one notification for each start it is given. */
  lemma SingleSentOncePerStart(w: World, actions: seq<Action>, kind: Kind)
    requires Begins(w) && !w.master && NoneWrong(w, actions, kind)
    ensures var sent := Of(Run(w, actions).sent, kind); forall i, j :: 0 <= i < j < |sent| ==> sent[i].era < sent[j].era
    ensures AtMostGiven(Run(w, actions), kind)
  {
    RunKeeps(w, actions);
    RightRun(w, actions, kind);
    var end := Run(w, actions);
    RightErasIncrease(end, kind);
    forall s ensures NoMore(Of(end.sent, kind), end.given, s) {
      OneEachCounts(Of(end.sent, kind), end.given, s);
    }
  }

  /** The first wrong win of a run breaks the count at once exactly if the start it is for had its notifications. */
  lemma FirstWrongWin(w: World, actions: seq<Action>, a: Action, kind: Kind)
    requires Begins(w) && !w.master && NoneWrong(w, actions, kind) && Wrong(Run(w, actions), a, kind)
    ensures var w1 := Run(w, actions); var s := Winning(w1, a).value.start;
            AtMostGiven(Apply(w1, a), kind) <==> SentFor(Of(w1.sent, kind), s) < Times(w1.given, s)
  {
    RunKeeps(w, actions);
    SingleSentOncePerStart(w, actions, kind);
    CountStep(Run(w, actions), a, kind);
  }

  /** The next run to look at a single event whose marker does not hold its start. */
  function Look(replica: Replica, kind: Kind): (actions: seq<Action>) {
    [Read(replica), Find(replica, kind, 0), Try(replica)]
  }

  lemma LookSends(w: World, replica: Replica, kind: Kind)
    requires !w.master && w.given != [] && !AlreadySent(false, Of(w.row.markers, kind), w.row.start)
    ensures var end := Run(w, Look(replica, kind));
            && Of(end.sent, kind) == Of(w.sent, kind) + [Sent(w.row.start, |w.given| - 1)]
            && end.given == w.given && !end.master && end.row.version > w.row.version
            && Of(end.row.markers, kind) == Some(w.row.start)
            && forall r :: r in w.turns && r != replica ==> r in end.turns && end.turns[r] == w.turns[r]
  {
    var w' := RunThree(w, Read(replica), Find(replica, kind, 0), Try(replica));
  }

  lemma SentForMore(sent: seq<Sent>, n: Sent, s: int)
    ensures SentFor(sent + [n], s) == SentFor(sent, s) + if n.start == s then 1 else 0
  {
    assert (sent + [n])[..|sent|] == sent;
  }

  /**
   * Any outdated win takes the marker from the event's own start: where that start had its notifications, the
   * next run to look sends for it once more.
   */
  lemma OutdatedSendsAgain(w: World, actions: seq<Action>, a: Action, kind: Kind) returns (after: seq<Action>)
    requires Begins(w) && Outdated(Run(w, actions), a, kind)
    requires var w1 := Run(w, actions); SentFor(Of(w1.sent, kind), w1.row.start) >= Times(w1.given, w1.row.start)
    ensures var end, s := Run(w, actions + [a] + after), Run(w, actions).row.start;
            SentFor(Of(end.sent, kind), s) > Times(end.given, s)
  {
    RunKeeps(w, actions);
    var w1 := Run(w, actions);
    var w2 := Apply(w1, a);
    SentAfter(w1, a, kind);
    after := Look(0, kind);
    LookSends(w2, 0, kind);
    RunAppend(w, actions, [a]);
    RunAppend(w, actions + [a], after);
    assert Run(w1, [a]) == Run(w2, []) == w2;
    SentForMore(Of(w1.sent, kind), Sent(Winning(w1, a).value.start, |w1.given| - 1), w1.row.start);
    SentForMore(Of(w2.sent, kind), Sent(w1.row.start, |w2.given| - 1), w1.row.start);
  }

  // ---- events that are not moved ----

  /** Everything found, sent and read is the one start. */
  ghost predicate OneStart(w: World) {
    && !w.master
    && (forall r :: r in w.turns ==> w.turns[r].event.start == w.row.start)
    && (forall r :: r in w.turns && w.turns[r].claim.Some? ==> w.turns[r].claim.value.start == w.row.start)
    && (forall k: Kind, i :: 0 <= i < |Of(w.sent, k)| ==> Of(w.sent, k)[i].start == w.row.start)
  }

  lemma OneStartStays(w: World, a: Action)
    requires Inv(w) && OneStart(w) && !a.Move?
    ensures OneStart(Apply(w, a)) && Apply(w, a).row.start == w.row.start
  {
    var w' := Apply(w, a);
    forall k: Kind, i | 0 <= i < |Of(w'.sent, k)| ensures Of(w'.sent, k)[i].start == w'.row.start {
      SentAfter(w, a, k);
    }
  }

  lemma {:induction false} OneStartRun(w: World, actions: seq<Action>)
    requires Inv(w) && OneStart(w) && forall a :: a in actions ==> !a.Move?
    ensures OneStart(Run(w, actions))
    decreases |actions|
  {
    if actions != [] {
      OneStartStays(w, actions[0]);
      Keeps(w, actions[0]);
      OneStartRun(Apply(w, actions[0]), actions[1..]);
    }
  }

  /**
   * A single event never moved is notified at most once of a kind if and only if no claim is won while the
   * row's own marker holds its start; so at most once by the reminder.
   */
  lemma UnmovedSentOnce(w: World, actions: seq<Action>, kind: Kind)
    requires Begins(w) && !w.master && forall a :: a in actions ==> !a.Move?
    ensures |Of(Run(w, actions).sent, kind)| <= 1 <==> NoneBlind(w, actions, kind)
    ensures kind.Reminder? ==> |Of(Run(w, actions).sent, kind)| <= 1
  {
    OneStartRun(w, actions);
    NeverTwiceInARow(w, actions, kind);
    RemindersNotBlind(w, actions);
    var sent, start := Of(Run(w, actions).sent, kind), Run(w, actions).row.start;
    assert |sent| >= 2 ==> sent[0].start == start && sent[1].start == start && !ChangedAt(sent, 1);
  }

  // ---- runs that send twice ----

  /** A new event that starts at `start`. */
  function New(master: bool, start: int): (w: World) {
    World(master, Row(0, start, Both(None, None)), [start], map[], Both([], []))
  }

  /**
   * An event never moved, single or a series. Of two runs that read it one has only its start alarm due and
   * claims it; the other loses the race for the reminder, wins it on the row read again, and goes on to claim
   * the start alarm from its first copy of the row, under the version just won.
   */
  lemma CarriedVersionSendsTwice(master: bool) returns (w: World, actions: seq<Action>)
    ensures Begins(w) && w.master == master && forall a :: a in actions ==> !a.Move?
    ensures Run(w, actions).sent.startAlarm == [Sent(60_000, 0), Sent(60_000, 0)]
  {
    w := New(master, 60_000);
    var first := [Read(1), Read(2), Find(1, StartAlarm, 60_000)];
    var w3 := RunThree(w, Read(1), Read(2), Find(1, StartAlarm, 60_000));
    var rest := BothTurns(w3, w.row);
    RunAppend(w, first, rest);
    actions := first + rest;
  }

  lemma BothTurns(w: World, event: Row) returns (actions: seq<Action>)
    requires w.row == event == Row(0, 60_000, Both(None, None)) && w.given == [60_000] && w.sent.startAlarm == []
    requires 1 in w.turns && w.turns[1] == Turn(event, false, 0, Some(Claim(StartAlarm, 60_000, event, 0)))
    requires 2 in w.turns && w.turns[2] == Turn(event, false, 2, None)
    ensures Run(w, actions).sent.startAlarm == [Sent(60_000, 0), Sent(60_000, 0)]
    ensures forall a :: a in actions ==> a.Try? || a.Find?
  {
    var lost, last := [Try(1), Find(2, Reminder, 60_000), Try(2)], [Try(2), Find(2, StartAlarm, 60_000), Try(2)];
    var w' := LostRace(w, event);
    CarriedTurn(w', event);
    RunAppend(w, lost, last);
    actions := lost + last;
  }

  /** One run's start alarm, and the other's first try of the reminder. */
  lemma LostRace(w: World, event: Row) returns (w': World)
    requires w.row == event == Row(0, 60_000, Both(None, None)) && w.given == [60_000] && w.sent.startAlarm == []
    requires 1 in w.turns && w.turns[1] == Turn(event, false, 0, Some(Claim(StartAlarm, 60_000, event, 0)))
    requires 2 in w.turns && w.turns[2] == Turn(event, false, 2, None)
    ensures w' == Run(w, [Try(1), Find(2, Reminder, 60_000), Try(2)]) && w'.given == w.given
    ensures w'.row == Row(1, 60_000, Both(None, Some(60_000))) && w'.sent.startAlarm == [Sent(60_000, 0)]
    ensures 2 in w'.turns && w'.turns[2] == Turn(event, false, 1, Some(Claim(Reminder, 60_000, w'.row, 1)))
  {
    w' := RunThree(w, Try(1), Find(2, Reminder, 60_000), Try(2));
    var w1 := Apply(w, Try(1));
    assert w1.row == Row(1, 60_000, Both(None, Some(60_000))) && w1.sent.startAlarm == [Sent(60_000, 0)];
  }

  /** A run's second try of the reminder, and its start alarm. */
  lemma CarriedTurn(w: World, event: Row)
    requires w.row == Row(1, 60_000, Both(None, Some(60_000))) && event == Row(0, 60_000, Both(None, None))
    requires w.given == [60_000] && 2 in w.turns
    requires w.turns[2] == Turn(event, false, 1, Some(Claim(Reminder, 60_000, w.row, 1)))
    ensures Run(w, [Try(2), Find(2, StartAlarm, 60_000), Try(2)]).sent.startAlarm
         == w.sent.startAlarm + [Sent(60_000, 0)]
  {
    var w' := RunThree(w, Try(2), Find(2, StartAlarm, 60_000), Try(2));
    var w1 := Apply(w, Try(2));
    assert w1.turns[2] == Turn(Row(2, 60_000, Both(Some(60_000), None)), true, 1, None);
    assert w1.row == Row(2, 60_000, Both(Some(60_000), Some(60_000))) && w1.sent.startAlarm == w.sent.startAlarm;
  }

  /**
   * A run that lost its first race to the claim of a start the event was moved to goes on to claim the start it
   * was moved from, which had its notification already.
   */
  lemma StaleReplicaSendsAgain(kind: Kind) returns (w: World, actions: seq<Action>)
    ensures Begins(w) && !w.master
    ensures Of(Run(w, actions).sent, kind) == [Sent(10, 0), Sent(20, 1), Sent(10, 1)]
  {
    w := New(false, 10);
    var found, late := [Read(1), Find(1, kind, 10)], [Try(1), Try(1)];
    actions := found + (Look(2, kind) + [Move(20)] + Look(3, kind)) + late;
    var w1 := Apply(w, found[0]);
    var w2 := Apply(w1, found[1]);
    assert found[1..] == [found[1]] && Run(w1, [found[1]]) == Run(w2, []);
    var w3 := BothSent(w2, kind);
    LateTries(w3, kind, w.row);
    RunAppend(w, found + (Look(2, kind) + [Move(20)] + Look(3, kind)), late);
    RunAppend(w, found, Look(2, kind) + [Move(20)] + Look(3, kind));
  }

  /** The event is notified, moved and notified again. */
  lemma BothSent(w: World, kind: Kind) returns (w': World)
    requires !w.master && w.row.start == 10 && w.given == [10] && Of(w.row.markers, kind) == None
    requires Of(w.sent, kind) == [] && 1 in w.turns
    ensures w' == Run(w, Look(2, kind) + [Move(20)] + Look(3, kind)) && w'.row.version > w.row.version
    ensures !w'.master && |w'.given| == 2 && Of(w'.row.markers, kind) == Some(20)
    ensures Of(w'.sent, kind) == [Sent(10, 0), Sent(20, 1)] && 1 in w'.turns && w'.turns[1] == w.turns[1]
  {
    LookSends(w, 2, kind);
    var w1 := Run(w, Look(2, kind));
    var w2 := Apply(w1, Move(20));
    assert Run(w1, [Move(20)]) == Run(w2, []);
    LookSends(w2, 3, kind);
    w' := Run(w2, Look(3, kind));
    RunAppend(w, Look(2, kind) + [Move(20)], Look(3, kind));
    RunAppend(w, Look(2, kind), [Move(20)]);
  }

  lemma LateTries(w: World, kind: Kind, read: Row)
    requires !w.master && |w.given| == 2 && 1 in w.turns && w.turns[1].claim == Some(Claim(kind, 10, read, 0))
    requires read.version < w.row.version && Of(read.markers, kind) == None && Of(w.row.markers, kind) == Some(20)
    ensures Of(Run(w, [Try(1), Try(1)]).sent, kind) == Of(w.sent, kind) + [Sent(10, 1)]
  {
    var w1 := Apply(w, Try(1));
    assert [Try(1), Try(1)][1..] == [Try(1)] && Run(w1, [Try(1)]) == Run(Apply(w1, Try(1)), []);
  }

  lemma RunThree(w: World, a: Action, b: Action, c: Action) returns (w': World)
    ensures w' == Run(w, [a, b, c]) == Apply(Apply(Apply(w, a), b), c)
  {
    w' := Apply(Apply(Apply(w, a), b), c);
    assert [a, b, c][1..] == [b, c] && [b, c][1..] == [c];
    assert Run(Apply(Apply(w, a), b), [c]) == w';
  }

  lemma {:induction false} RunAppend(w: World, before: seq<Action>, after: seq<Action>)
    ensures Run(w, before + after) == Run(Run(w, before), after)
    decreases |before|
  {
    if before == [] {
      assert before + after == after;
    } else {
      assert (before + after)[1..] == before[1..] + after;
      RunAppend(Apply(w, before[0]), before[1..], after);
    }
  }
}
