/**
 * One mailbox's copy of a meeting under scheduling messages (section 2.1.5 of RFC 5546): invitations,
 * replies and change requests processed by any number of workers, each reading the row, computing its
 * patch and writing it with a compare-and-set, with up to three tries. Addresses are normalised.
 */
module ItipSequence {
  import opened Options

  const MAX_TRIES := 3
  const MAX_REQUESTED_GUESTS := 50
  const MAX_EVENT_ATTENDEES := 500

  datatype Response = NeedsAction | AcceptedBy | DeclinedBy | TentativeBy

  datatype Attendee = Attendee(address: string, response: Response, isOrganizer: bool)

  /** The fields every newer revision overwrites, with what it says or with their defaults. */
  datatype Details = Details(location: Option<string>, description: Option<string>, html: Option<string>,
                             visibility: string, canModify: bool, canInvite: bool, canSeeList: bool)

  datatype Event = Event(version: nat, sequence: nat, cancelled: bool, title: string, start: int, end: int,
                         rule: Option<string>, details: Details, attendees: seq<Attendee>, timezone: string,
                         organizer: string)

  /** The same fields as an invitation gives them, or not. */
  datatype Given = Given(location: Option<string>, description: Option<string>, html: Option<string>,
                         visibility: Option<string>, canModify: Option<bool>, canInvite: Option<bool>,
                         canSeeList: Option<bool>, fromRapidMx: bool)

  /** An invitation as it was parsed; `attendees` are the ones filed for this mailbox. */
  datatype Revision = Revision(sequence: nat, summary: Option<string>, start: Option<int>, end: Option<int>,
                               rule: Option<string>, given: Given, attendees: seq<Attendee>,
                               timezone: Option<string>, organizer: string)

  /**
   * A guest's request to change the meeting; a blank title or location counts as none, and `guests` are the
   * plain addresses it names.
   */
  datatype Change = Change(sender: string, sequence: nat, title: Option<string>, location: Option<string>,
                           description: Option<(Option<string>, Option<string>)>, start: Option<int>,
                           end: Option<int>, guests: seq<string>)

  datatype Message =
    | Invite(revision: Revision)
    | Reply(sender: string, sequence: nat, response: Response)
    | Ask(change: Change, own: set<string>)

  // ---- the patches ----

  function OrElse<T>(o: Option<T>, d: T): T { if o.Some? then o.value else d }

  /** What the copy holds: a field the revision leaves out is cleared or goes to its default. */
  function DetailsOf(g: Given): (d: Details) {
    Details(g.location, g.description, g.html, OrElse(g.visibility, "default"), OrElse(g.canModify, false),
            OrElse(g.canInvite, g.fromRapidMx), OrElse(g.canSeeList, true))
  }

  function Created(r: Revision, now: int): (e: Event) {
    Event(0, r.sequence, false, OrElse(r.summary, ""), OrElse(r.start, now), OrElse(r.end, now), r.rule,
          DetailsOf(r.given), r.attendees, OrElse(r.timezone, "UTC"), r.organizer)
  }

  /** A newer revision over the copy; a title, a time or a rule it does not name is kept. */
  function Revised(e: Event, r: Revision): (e': Option<Event>) {
    if r.sequence <= e.sequence then None
    else Some(e.(sequence := r.sequence, title := OrElse(r.summary, e.title),
                 start := OrElse(r.start, e.start), end := OrElse(r.end, e.end),
                 rule := if r.rule.Some? then r.rule else e.rule,
                 details := DetailsOf(r.given), attendees := r.attendees))
  }

  function Respond(attendees: seq<Attendee>, address: string, response: Response): (r: seq<Attendee>)
    ensures |r| == |attendees|
    ensures forall i :: 0 <= i < |r| ==>
              r[i] == if attendees[i].address == address then attendees[i].(response := response) else attendees[i]
  {
    if attendees == [] then []
    else
      var a := attendees[0];
      [if a.address == address then a.(response := response) else a] + Respond(attendees[1..], address, response)
  }

  function Replied(e: Event, sender: string, sequence: nat, response: Response): (e': Option<Event>) {
    if sequence < e.sequence then None else Some(e.(attendees := Respond(e.attendees, sender, response)))
  }

  function Addresses(attendees: seq<Attendee>): (r: set<string>) { set a | a in attendees :: a.address }

  /** The guests to add: each once, none already known, within the limits. */
  function NewGuests(guests: seq<string>, known: set<string>, room: int): (added: seq<Attendee>)
    ensures |added| <= |guests| && (room >= 0 ==> |added| <= room) && (room < 0 ==> added == [])
    ensures forall i :: 0 <= i < |added| ==>
              added[i].address !in known && added[i].address in guests && !added[i].isOrganizer
                && added[i].response == NeedsAction
    ensures forall i, j :: 0 <= i < j < |added| ==> added[i].address != added[j].address
    ensures forall g :: g in guests ==> g in known || g in Addresses(added) || |added| >= room
  {
    if guests == [] then []
    else if guests[0] in known || room <= 0 then NewGuests(guests[1..], known, room)
    else
      var first, rest := Attendee(guests[0], NeedsAction, false), NewGuests(guests[1..], known + {guests[0]}, room - 1);
      assert Addresses([first] + rest) == {guests[0]} + Addresses(rest);
      [first] + rest
  }

  predicate AskedAgain(a: Attendee, organizer: string, sender: string, a': Attendee) {
    && a'.address == a.address && a'.isOrganizer == a.isOrganizer
    && a'.response == (if a.isOrganizer || a.address == organizer then a.response
                       else if a.address == sender then AcceptedBy else NeedsAction)
  }

  /** Everyone is asked again about a new time, but the organizer and the guest who proposed it. */
  function AskAgain(attendees: seq<Attendee>, organizer: string, sender: string): (r: seq<Attendee>)
    ensures |r| == |attendees|
    ensures forall i :: 0 <= i < |r| ==> AskedAgain(attendees[i], organizer, sender, r[i])
  {
    if attendees == [] then []
    else
      var a := attendees[0];
      [if a.isOrganizer || a.address == organizer then a
        else a.(response := if a.address == sender then AcceptedBy else NeedsAction)]
      + AskAgain(attendees[1..], organizer, sender)
  }

  predicate TimeChanged(e: Event, c: Change) {
    c.start.Some? && c.end.Some? && c.end.value > c.start.value && (c.start.value != e.start || c.end.value != e.end)
  }

  function FirstWith(attendees: seq<Attendee>, address: string): (a: Option<Attendee>) {
    if attendees == [] then None
    else if attendees[0].address == address then Some(attendees[0])
    else FirstWith(attendees[1..], address)
  }

  /** The sender is a guest: the first entry with the address is not the organizer's. */
  predicate Listed(e: Event, sender: string) {
    var a := FirstWith(e.attendees, sender);
    a.Some? && !a.value.isOrganizer
  }

  /** The row with the changed fields. */
  function Edited(e: Event, c: Change): (e': Event) {
    var details := e.details.(location := if c.location.Some? then c.location else e.details.location);
    var details' := if c.description.Some?
        then details.(description := c.description.value.0, html := c.description.value.1) else details;
    e.(title := OrElse(c.title, e.title), details := details',
       start := if TimeChanged(e, c) then c.start.value else e.start,
       end := if TimeChanged(e, c) then c.end.value else e.end)
  }

  function Room(e: Event): int {
    if MAX_EVENT_ATTENDEES - |e.attendees| < MAX_REQUESTED_GUESTS then MAX_EVENT_ATTENDEES - |e.attendees|
        else MAX_REQUESTED_GUESTS
  }

  function Changed(e: Event, c: Change, own: set<string>): (e': Option<Event>) {
    if !Listed(e, c.sender) || c.sender in own || e.cancelled || c.sequence < e.sequence then None
    else
      var edited := Edited(e, c);
      var added := NewGuests(c.guests, Addresses(e.attendees) + {e.organizer, c.sender}, Room(e));
      if (edited != e && !e.details.canModify) || (added != [] && !e.details.canInvite) then None
      else if edited == e && added == [] then None
      else
        var attendees := if TimeChanged(e, c) then AskAgain(e.attendees, e.organizer, c.sender) else e.attendees;
        Some(edited.(attendees := attendees + added, sequence := e.sequence + 1))
  }

  /** The row a message makes of `e`; none when there is nothing to do. */
  function Mutate(e: Event, m: Message): (e': Option<Event>) {
    match m
    case Invite(r) => Revised(e, r)
    case Reply(sender, sequence, response) => Replied(e, sender, sequence, response)
    case Ask(c, own) => Changed(e, c, own)
  }

  // ---- the machine ----

  /**
   * `Looking`: about to read, or to create the copy when there was none. `Ready`: the row as read, and the
   * patched one.
   */
  datatype Work =
    | Looking(message: Message, exists': bool, tries: nat)
    | Ready(message: Message, was: Event, to: Event, tries: nat)

  type Worker = nat

  /** `begun`: every message taken up; `lost`: those given up on after a lost race or a death. */
  datatype World = World(event: Option<Event>, work: map<Worker, Work>, begun: set<Message>, lost: set<Message>)

  datatype Action =
    | Start(worker: Worker, message: Message)
    | Create(worker: Worker, now: int)
    | Fetch(worker: Worker)
    | Write(worker: Worker)
    | Die(worker: Worker)

  /** Stale, or a reply or a change request to a meeting this mailbox does not have. */
  predicate NothingToDo(event: Option<Event>, m: Message) {
    match m
    case Invite(r) => event.Some? && r.sequence <= event.value.sequence
    case Reply(_, sequence, _) => event.None? || sequence < event.value.sequence
    case Ask(_, _) => event.None?
  }

  function Finish(w: World, worker: Worker): (w': World) { w.(work := w.work - {worker}) }

  function GiveUp(w: World, worker: Worker): (w': World)
    requires worker in w.work
  {
    w.(work := w.work - {worker}, lost := w.lost + {w.work[worker].message})
  }

  function Apply(w: World, a: Action): (w': World) {
    match a
    case Start(worker, message) => ApplyStart(w, worker, message)
    case Create(worker, now) => ApplyCreate(w, worker, now)
    case Fetch(worker) => ApplyFetch(w, worker)
    case Write(worker) => ApplyWrite(w, worker)
    case Die(worker) => if worker in w.work then GiveUp(w, worker) else w
  }

  function ApplyStart(w: World, worker: Worker, m: Message): (w': World) {
    if worker in w.work then w
    else if NothingToDo(w.event, m) then w.(begun := w.begun + {m})
    else w.(begun := w.begun + {m}, work := w.work[worker := Looking(m, w.event.Some?, 1)])
  }

  /** The copy's uid is derived, so of two workers creating it the second is refused. */
  function ApplyCreate(w: World, worker: Worker, now: int): (w': World) {
    if worker in w.work && w.work[worker].Looking? && w.work[worker].message.Invite? && !w.work[worker].exists' then
      if w.event.Some? then GiveUp(w, worker)
      else Finish(w, worker).(event := Some(Created(w.work[worker].message.revision, now)))
    else w
  }

  function ApplyFetch(w: World, worker: Worker): (w': World) {
    if worker in w.work && w.work[worker].Looking? && w.work[worker].exists' && w.event.Some? then
      var to := Mutate(w.event.value, w.work[worker].message);
      if to.None? then Finish(w, worker)
      else w.(work := w.work[worker := Ready(w.work[worker].message, w.event.value, to.value, w.work[worker].tries)])
    else w
  }

  function ApplyWrite(w: World, worker: Worker): (w': World) {
    if worker in w.work && w.work[worker].Ready? && w.event.Some? then
      var job := w.work[worker];
      if job.was.version == w.event.value.version
          then Finish(w, worker).(event := Some(job.to.(version := job.was.version + 1)))
      else if job.tries >= MAX_TRIES then GiveUp(w, worker)
      else w.(work := w.work[worker := Looking(job.message, true, job.tries + 1)])
    else w
  }

  function Run(w: World, actions: seq<Action>): (w': World)
    decreases |actions|
  {
    if actions == [] then w else Run(Apply(w, actions[0]), actions[1..])
  }

  // ---- the sequence never goes back ----

  ghost predicate WorkOk(event: Option<Event>, job: Work) {
    job.Ready? ==>
      && event.Some? && Mutate(job.was, job.message) == Some(job.to)
      && job.was.version <= event.value.version && (job.was.version == event.value.version ==> job.was == event.value)
  }

  ghost predicate Inv(w: World) {
    && (forall k :: k in w.work ==> WorkOk(w.event, w.work[k]))
    && (forall k :: k in w.work && w.work[k].Looking? && w.work[k].exists' ==> w.event.Some?)
  }

  /** Everyone stays as they are but the one who answers. */
  predicate OnlyAnswers(before: seq<Attendee>, after: seq<Attendee>, sender: string, response: Response) {
    |after| == |before| && forall i :: 0 <= i < |before| ==>
      after[i] == if before[i].address == sender then before[i].(response := response) else before[i]
  }

  /** No message takes the sequence back: an invitation raises it, a reply keeps it, a change request adds one. */
  lemma MutateRaises(e: Event, m: Message)
    ensures var to := Mutate(e, m);
            to.Some? ==> && to.value.sequence >= e.sequence && to.value.version == e.version
                         && (m.Invite? ==> to.value.sequence == m.revision.sequence > e.sequence)
                         && to.value.timezone == e.timezone && to.value.organizer == e.organizer
                         && (m.Reply? ==> m.sequence >= e.sequence && to.value == e.(attendees := to.value.attendees)
                                          && OnlyAnswers(e.attendees, to.value.attendees, m.sender, m.response))
                         && (m.Ask? ==> to.value.sequence == e.sequence + 1)
  {
  }

  predicate NotBefore(from: Option<Event>, to: Option<Event>) {
    from.Some? ==>
      && to.Some? && to.value.sequence >= from.value.sequence && to.value.version >= from.value.version
      && to.value.timezone == from.value.timezone && to.value.organizer == from.value.organizer
  }

  lemma Keeps(w: World, a: Action)
    requires Inv(w)
    ensures Inv(Apply(w, a)) && NotBefore(w.event, Apply(w, a).event)
  {
    if a.Write? && a.worker in w.work && w.work[a.worker].Ready? {
      MutateRaises(w.work[a.worker].was, w.work[a.worker].message);
    }
    if a.Fetch? && a.worker in w.work && w.event.Some? { MutateRaises(w.event.value, w.work[a.worker].message); }
  }

  /**
   * Under any interleaving of invitations, replies, change requests, retries and deaths, the stored sequence
   * never decreases; the zone and the organizer stay.
   */
  lemma {:induction false} SequenceNeverDecreases(w: World, actions: seq<Action>)
    requires Inv(w)
    ensures Inv(Run(w, actions)) && NotBefore(w.event, Run(w, actions).event)
    decreases |actions|
  {
    if actions != [] {
      Keeps(w, actions[0]);
      SequenceNeverDecreases(Apply(w, actions[0]), actions[1..]);
    }
  }

  /** What a change request may edit. */
  function Content(e: Event): (string, Details, int, int) { (e.title, e.details, e.start, e.end) }

  /**
   * A change request is applied only as the organizer's own row allows, and never to an older copy than the
   * guest saw.
   */
  lemma ChangeRespectsPermissions(e: Event, c: Change, own: set<string>)
    ensures var to := Changed(e, c, own);
            to.Some? ==>
              && c.sequence >= e.sequence && !e.cancelled && c.sender !in own && c.sender in Addresses(e.attendees)
              && (Content(to.value) != Content(e) ==> e.details.canModify)
              && |e.attendees| <= |to.value.attendees| <= |e.attendees| + MAX_REQUESTED_GUESTS
              && (|to.value.attendees| > |e.attendees| ==>
                   e.details.canInvite && |to.value.attendees| <= MAX_EVENT_ATTENDEES)
              && (forall i :: 0 <= i < |e.attendees| ==>
                    if (to.value.start, to.value.end) != (e.start, e.end)
                        then AskedAgain(e.attendees[i], e.organizer, c.sender, to.value.attendees[i])
                    else to.value.attendees[i] == e.attendees[i])
              && (forall i :: |e.attendees| <= i < |to.value.attendees| ==>
                    && to.value.attendees[i].address !in Addresses(e.attendees) + {e.organizer}
                    && to.value.attendees[i].response == NeedsAction && !to.value.attendees[i].isOrganizer)
              && (forall i, j :: |e.attendees| <= i < j < |to.value.attendees| ==>
                    to.value.attendees[i].address != to.value.attendees[j].address)
  {
    if Listed(e, c.sender) {
      var i := FoundIsFirst(e.attendees, c.sender);
      assert e.attendees[i] in e.attendees;
    }
  }

  /** The request names a title, a place, a text or a valid time the row does not have. */
  predicate Differs(e: Event, c: Change) {
    || (c.title.Some? && c.title.value != e.title) || (c.location.Some? && c.location != e.details.location)
    || (c.description.Some? && c.description.value != (e.details.description, e.details.html))
    || (c.start.Some? && c.end.Some? && c.start.value < c.end.value && (c.start.value, c.end.value) != (e.start, e.end))
  }

  /** It names a guest the row does not have, and there is room for one. */
  ghost predicate AddsGuest(e: Event, c: Change) {
    |e.attendees| < MAX_EVENT_ATTENDEES
    && exists g :: g in c.guests && g !in Addresses(e.attendees) && g != e.organizer && g != c.sender
  }

  /** Entry `i` is the first with the address. */
  predicate FirstAt(attendees: seq<Attendee>, address: string, i: nat) {
    i < |attendees| && attendees[i].address == address && forall j :: 0 <= j < i ==> attendees[j].address != address
  }

  lemma {:induction false} FirstIsFound(attendees: seq<Attendee>, address: string, i: nat)
    requires FirstAt(attendees, address, i)
    ensures FirstWith(attendees, address) == Some(attendees[i])
  {
    if i > 0 { FirstIsFound(attendees[1..], address, i - 1); }
  }

  lemma {:induction false} FoundIsFirst(attendees: seq<Attendee>, address: string) returns (i: nat)
    requires FirstWith(attendees, address).Some?
    ensures FirstAt(attendees, address, i) && FirstWith(attendees, address) == Some(attendees[i])
  {
    if attendees[0].address == address {
      i := 0;
    } else {
      i := FoundIsFirst(attendees[1..], address);
      i := i + 1;
    }
  }

  /** Who may ask for changes: whoever is not the organizer in the first entry with the address. */
  lemma SenderIsListed(e: Event, sender: string)
    ensures Listed(e, sender) <==> exists i: nat :: FirstAt(e.attendees, sender, i) && !e.attendees[i].isOrganizer
  {
    if Listed(e, sender) { var i := FoundIsFirst(e.attendees, sender); }
    if i: nat :| FirstAt(e.attendees, sender, i) && !e.attendees[i].isOrganizer {
      FirstIsFound(e.attendees, sender, i);
    }
  }

  lemma GuestIsAdded(e: Event, c: Change)
    ensures NewGuests(c.guests, Addresses(e.attendees) + {e.organizer, c.sender}, Room(e)) != [] <==> AddsGuest(e, c)
  {
    var added := NewGuests(c.guests, Addresses(e.attendees) + {e.organizer, c.sender}, Room(e));
    if added != [] { assert added[0].address in c.guests; }
    if AddsGuest(e, c) {
      var g :| g in c.guests && g !in Addresses(e.attendees) && g != e.organizer && g != c.sender;
      assert g in Addresses(added) || |added| >= Room(e);
    }
  }

  /**
   * A change request is applied if and only if it comes from a guest who saw this copy, asks for something, and
   * everything it asks for is allowed; then everything it names reaches the row, up to the limits on guests.
   */
  lemma ChangeIsApplied(e: Event, c: Change, own: set<string>)
    ensures Changed(e, c, own).Some? <==>
              && Listed(e, c.sender) && c.sender !in own && !e.cancelled && c.sequence >= e.sequence
              && (Differs(e, c) || AddsGuest(e, c))
              && (Differs(e, c) ==> e.details.canModify) && (AddsGuest(e, c) ==> e.details.canInvite)
    ensures Changed(e, c, own).Some? ==>
              var to := Changed(e, c, own).value;
              && to.title == (if c.title.Some? then c.title.value else e.title)
              && to.details.location == (if c.location.Some? then c.location else e.details.location)
              && (to.details.description, to.details.html)
                 == (if c.description.Some? then c.description.value else (e.details.description, e.details.html))
              && (to.start, to.end) == (if c.start.Some? && c.end.Some? && c.start.value < c.end.value
                                        then (c.start.value, c.end.value) else (e.start, e.end))
              && to == e.(title := to.title, start := to.start, end := to.end, attendees := to.attendees,
                          sequence := e.sequence + 1,
                          details := e.details.(location := to.details.location, html := to.details.html,
                                                description := to.details.description))
    ensures Changed(e, c, own).Some? ==>
              var to := Changed(e, c, own).value;
              forall g :: g in c.guests && g != e.organizer && g != c.sender ==>
                g in Addresses(to.attendees) || |to.attendees| >= |e.attendees| + Room(e)
  {
    GuestIsAdded(e, c);
    if Changed(e, c, own).Some? { GuestsReachTheRow(e, c, own); }
  }

  lemma GuestsReachTheRow(e: Event, c: Change, own: set<string>)
    requires Changed(e, c, own).Some?
    ensures var to := Changed(e, c, own).value;
            forall g :: g in c.guests && g != e.organizer && g != c.sender ==>
              g in Addresses(to.attendees) || |to.attendees| >= |e.attendees| + Room(e)
  {
    var added := NewGuests(c.guests, Addresses(e.attendees) + {e.organizer, c.sender}, Room(e));
    AddressesOfBoth(e.attendees, added);
    AddressesOfBoth(AskAgain(e.attendees, e.organizer, c.sender), added);
    SameAddresses(e.attendees, AskAgain(e.attendees, e.organizer, c.sender));
  }

  lemma AddressesOfBoth(a: seq<Attendee>, b: seq<Attendee>)
    ensures Addresses(a + b) == Addresses(a) + Addresses(b)
  {
  }

  lemma SameAddresses(a: seq<Attendee>, b: seq<Attendee>)
    requires |a| == |b| && forall i :: 0 <= i < |a| ==> a[i].address == b[i].address
    ensures Addresses(a) == Addresses(b)
  {
    forall i | 0 <= i < |a| ensures a[i].address in Addresses(b) && b[i].address in Addresses(a) {
      assert a[i] in a && b[i] in b;
    }
  }

  // ---- the highest revision wins ----

  predicate SameGuests(a: seq<Attendee>, b: seq<Attendee>) {
    |a| == |b| && forall i :: 0 <= i < |a| ==> a[i].address == b[i].address && a[i].isOrganizer == b[i].isOrganizer
  }

  /** Each field as the invitation gives it; one it leaves out is cleared, or goes to its default. */
  predicate ShowsDetails(d: Details, g: Given) {
    && d.location == g.location && d.description == g.description && d.html == g.html
    && d.visibility == (if g.visibility.Some? then g.visibility.value else "default")
    && (d.canModify <==> g.canModify == Some(true))
    && (d.canInvite <==> if g.fromRapidMx then g.canInvite != Some(false) else g.canInvite == Some(true))
    && (d.canSeeList <==> g.canSeeList != Some(false))
  }

  /**
   * The copy is that of revision `r`; a title, a time or a rule `r` does not name is not part of it. Replies
   * change responses only.
   */
  predicate Shows(e: Event, r: Revision, replied: bool) {
    && e.sequence == r.sequence && ShowsDetails(e.details, r.given)
    && (if replied then SameGuests(e.attendees, r.attendees) else e.attendees == r.attendees)
    && (r.summary.Some? ==> e.title == r.summary.value) && (r.rule.Some? ==> e.rule == r.rule)
    && (r.start.Some? ==> e.start == r.start.value) && (r.end.Some? ==> e.end == r.end.value)
  }

  ghost predicate HasReply(w: World) { exists m :: m in w.begun && m.Reply? }

  predicate NoAsk(actions: seq<Action>) { forall a :: a in actions ==> a.Start? ==> !a.message.Ask? }

  ghost predicate EventShows(w: World) {
    w.event.Some? ==> exists r :: Invite(r) in w.begun && Shows(w.event.value, r, HasReply(w))
  }

  ghost predicate Pending(w: World, m: Message) { exists k :: k in w.work && w.work[k].message == m }

  ghost predicate Settled(w: World, m: Message) {
    m.Invite? ==> m in w.lost || Pending(w, m) || (w.event.Some? && m.revision.sequence <= w.event.value.sequence)
  }

  ghost predicate Converging(w: World) {
    && Inv(w) && EventShows(w)
    && (forall k :: k in w.work ==> w.work[k].message in w.begun)
    && (forall m :: m in w.begun ==> !m.Ask? && Settled(w, m))
  }

  /** An invitation is applied exactly when it is newer; it says what it says and leaves the rest. */
  lemma RevisionIsApplied(e: Event, r: Revision)
    ensures Revised(e, r).Some? <==> r.sequence > e.sequence
    ensures Revised(e, r).Some? ==>
              var to := Revised(e, r).value;
              && Shows(to, r, false) && to.cancelled == e.cancelled
              && (r.summary.None? ==> to.title == e.title) && (r.rule.None? ==> to.rule == e.rule)
              && (r.start.None? ==> to.start == e.start) && (r.end.None? ==> to.end == e.end)
  {
  }

  lemma RevisedShows(was: Event, r: Revision, replied: bool)
    requires Revised(was, r).Some?
    ensures Shows(Revised(was, r).value.(version := was.version + 1), r, replied)
  {
  }

  lemma RepliedShows(was: Event, r: Revision, sender: string, sequence: nat, response: Response)
    requires Shows(was, r, true) && Replied(was, sender, sequence, response).Some?
    ensures Shows(Replied(was, sender, sequence, response).value.(version := was.version + 1), r, true)
  {
  }

  /** A patch for a message that has begun shows a revision that has begun. */
  lemma PatchShows(w: World, worker: Worker)
    requires Converging(w) && worker in w.work && w.work[worker].Ready? && w.event.Some?
               && w.work[worker].was == w.event.value
    ensures EventShows(w.(event := Some(w.work[worker].to.(version := w.work[worker].was.version + 1))))
  {
    var m, was, to := w.work[worker].message, w.work[worker].was, w.work[worker].to;
    assert WorkOk(w.event, w.work[worker]) && m in w.begun;
    var w' := w.(event := Some(to.(version := was.version + 1)));
    assert HasReply(w') == HasReply(w);
    match m {
      case Invite(r) =>
        RevisedShows(was, r, HasReply(w));
        assert Shows(w'.event.value, r, HasReply(w'));
      case Reply(sender, sequence, response) =>
        assert HasReply(w);
        var r :| Invite(r) in w.begun && Shows(was, r, HasReply(w));
        RepliedShows(was, r, sender, sequence, response);
        assert Shows(w'.event.value, r, HasReply(w'));
    }
  }

  lemma SettledStays(w: World, w': World, worker: Worker)
    requires Converging(w) && Inv(w') && NotBefore(w.event, w'.event) && w'.begun == w.begun && w.lost <= w'.lost
    requires forall k :: k in w.work && k != worker ==> k in w'.work && w'.work[k] == w.work[k]
    requires worker in w.work ==> Settled(w', w.work[worker].message)
    ensures forall m :: m in w'.begun ==> Settled(w', m)
  {
    forall m | m in w'.begun ensures Settled(w', m) {
      assert Settled(w, m);
      if m.Invite? && Pending(w, m) {
        var k :| k in w.work && w.work[k].message == m;
        if k != worker { assert w'.work[k].message == m; }
      }
    }
  }

  lemma ConvergesOnSave(w: World, worker: Worker)
    requires Converging(w) && worker in w.work && w.work[worker].Ready? && w.event.Some?
               && w.work[worker].was.version == w.event.value.version
    ensures Converging(ApplyWrite(w, worker))
  {
    Keeps(w, Write(worker));
    PatchShows(w, worker);
    MutateRaises(w.work[worker].was, w.work[worker].message);
    SettledStays(w, ApplyWrite(w, worker), worker);
  }

  lemma ConvergesOnWrite(w: World, worker: Worker)
    requires Converging(w)
    ensures Converging(ApplyWrite(w, worker))
  {
    var w' := ApplyWrite(w, worker);
    if worker in w.work && w.work[worker].Ready? && w.event.Some? {
      if w.work[worker].was.version == w.event.value.version {
        ConvergesOnSave(w, worker);
      } else {
        Keeps(w, Write(worker));
        if worker in w'.work { assert w'.work[worker].message == w.work[worker].message; }
        SettledStays(w, w', worker);
      }
    }
  }

  lemma ConvergesOnFetch(w: World, worker: Worker)
    requires Converging(w)
    ensures Converging(ApplyFetch(w, worker))
  {
    var w' := ApplyFetch(w, worker);
    Keeps(w, Fetch(worker));
    if worker in w.work && w.event.Some? {
      if worker in w'.work { assert w'.work[worker].message == w.work[worker].message; }
      SettledStays(w, w', worker);
    }
  }

  lemma ConvergesOnCreate(w: World, worker: Worker, now: int)
    requires Converging(w)
    ensures Converging(ApplyCreate(w, worker, now))
  {
    var w' := ApplyCreate(w, worker, now);
    Keeps(w, Create(worker, now));
    if worker in w.work && w.work[worker].message.Invite? {
      if worker in w'.work { assert w'.work[worker].message == w.work[worker].message; }
      else if w.event.None? {
        assert Shows(w'.event.value, w.work[worker].message.revision, HasReply(w'));
      }
      SettledStays(w, w', worker);
    }
  }

  lemma ConvergesOnDie(w: World, worker: Worker)
    requires Converging(w) && worker in w.work
    ensures Converging(GiveUp(w, worker))
  {
    Keeps(w, Die(worker));
    SettledStays(w, GiveUp(w, worker), worker);
  }

  lemma ConvergesOnStart(w: World, worker: Worker, m: Message)
    requires Converging(w) && !m.Ask?
    ensures Converging(ApplyStart(w, worker, m))
  {
    var w' := ApplyStart(w, worker, m);
    Keeps(w, Start(worker, m));
    if worker !in w.work {
      if worker in w'.work { assert w'.work[worker].message == m; }
      forall b | b in w'.begun ensures Settled(w', b) {
        if b in w.begun {
          assert Settled(w, b);
          if b.Invite? && Pending(w, b) {
            var k :| k in w.work && w.work[k].message == b;
            assert w'.work[k].message == b;
          }
        }
      }
      if w.event.Some? {
        var r :| Invite(r) in w.begun && Shows(w.event.value, r, HasReply(w));
        assert HasReply(w) ==> HasReply(w');
        assert Shows(w'.event.value, r, HasReply(w'));
      }
    }
  }

  lemma {:induction false} ConvergingRun(w: World, actions: seq<Action>)
    requires Converging(w) && NoAsk(actions)
    ensures Converging(Run(w, actions))
    decreases |actions|
  {
    if actions != [] {
      match actions[0] {
        case Start(worker, m) => ConvergesOnStart(w, worker, m);
        case Create(worker, now) => ConvergesOnCreate(w, worker, now);
        case Fetch(worker) => ConvergesOnFetch(w, worker);
        case Write(worker) => ConvergesOnWrite(w, worker);
        case Die(worker) => if worker in w.work { ConvergesOnDie(w, worker); }
      }
      ConvergingRun(Apply(w, actions[0]), actions[1..]);
    }
  }

  function NoCopy(): (w: World) { World(None, map[], {}, {}) }

  /**
   * Invitations and replies worked off in any interleaving: once all are done, and the highest revision was not
   * given up on, the copy is that revision's, whatever the order and whatever else was given up on. Its title,
   * times and rule are that revision's where it names them.
   */
  lemma HighestRevisionWins(actions: seq<Action>, top: Revision)
    requires NoAsk(actions)
    requires var w := Run(NoCopy(), actions);
             && w.work == map[] && Invite(top) in w.begun && Invite(top) !in w.lost
             && forall r :: Invite(r) in w.begun ==> r.sequence < top.sequence || r == top
    ensures var w := Run(NoCopy(), actions); w.event.Some? && Shows(w.event.value, top, HasReply(w))
  {
    ConvergingRun(NoCopy(), actions);
    var w := Run(NoCopy(), actions);
    assert Settled(w, Invite(top));
    var r :| Invite(r) in w.begun && Shows(w.event.value, r, HasReply(w));
  }

  // ---- one after another ----

  /** One worker takes an invitation up and sees it through. */
  function Turn(r: Revision, now: int): (actions: seq<Action>) {
    [Start(0, Invite(r)), Create(0, now), Fetch(0), Write(0)]
  }

  function Turns(revisions: seq<Revision>, now: int): (actions: seq<Action>) {
    if revisions == [] then [] else Turns(revisions[..|revisions| - 1], now) + Turn(revisions[|revisions| - 1], now)
  }

  lemma {:induction false} RunAppend(w: World, before: seq<Action>, after: seq<Action>)
    ensures Run(w, before + after) == Run(Run(w, before), after)
    decreases |before|
  {
    if before == [] {
      assert before + after == after;
    } else {
      assert (before + after)[1..] == before[1..] + after;
      RunAppend(Apply(w, before[0]), before[1..], after);
    }
  }

  lemma RunFour(w: World, a: Action, b: Action, c: Action, d: Action)
    ensures Run(w, [a, b, c, d]) == Apply(Apply(Apply(Apply(w, a), b), c), d)
  {
    var w1 := Apply(w, a);
    var w2 := Apply(w1, b);
    var w3 := Apply(w2, c);
    assert [a, b, c, d][1..] == [b, c, d] && [b, c, d][1..] == [c, d] && [c, d][1..] == [d] && [d][1..] == [];
    assert Run(w3, [d]) == Apply(w3, d);
    assert Run(w2, [c, d]) == Run(w3, [d]);
    assert Run(w1, [b, c, d]) == Run(w2, [c, d]);
  }

  lemma TurnIsDone(w: World, r: Revision, now: int)
    requires w.work == map[]
    ensures var w' := Run(w, Turn(r, now)); w'.work == map[] && w'.lost == w.lost && w'.begun == w.begun + {Invite(r)}
  {
    RunFour(w, Start(0, Invite(r)), Create(0, now), Fetch(0), Write(0));
    var w1 := ApplyStart(w, 0, Invite(r));
    var w2 := ApplyCreate(w1, 0, now);
    var w3 := ApplyFetch(w2, 0);
    assert ApplyWrite(w3, 0).work == map[];
  }

  /** Work on the copy `e` comes to what the message makes of it. */
  lemma TurnApplies(w: World, m: Message, now: int, e: Event)
    requires w.work == map[] && w.event == Some(e)
    ensures var w' := Run(w, [Start(0, m), Create(0, now), Fetch(0), Write(0)]);
            && w'.work == map[] && w'.lost == w.lost
            && w'.event == if Mutate(e, m).Some? then Some(Mutate(e, m).value.(version := e.version + 1)) else Some(e)
  {
    RunFour(w, Start(0, m), Create(0, now), Fetch(0), Write(0));
    var w1 := ApplyStart(w, 0, m);
    var w2 := ApplyCreate(w1, 0, now);
    var w3 := ApplyFetch(w2, 0);
    assert ApplyWrite(w3, 0).work == map[];
  }

  /** The first invitation makes the copy: what it does not name starts out empty, now and in UTC. */
  lemma FirstInviteCreates(r: Revision, now: int)
    ensures var w := Run(NoCopy(), Turn(r, now));
            && w.event.Some? && Shows(w.event.value, r, false) && !w.event.value.cancelled
            && w.event.value.rule == r.rule && w.event.value.organizer == r.organizer
            && (r.timezone.Some? ==> w.event.value.timezone == r.timezone.value)
            && (r.timezone.None? ==> w.event.value.timezone == "UTC")
            && (r.summary.None? ==> w.event.value.title == "")
            && (r.start.None? ==> w.event.value.start == now) && (r.end.None? ==> w.event.value.end == now)
  {
    RunFour(NoCopy(), Start(0, Invite(r)), Create(0, now), Fetch(0), Write(0));
    var w1 := ApplyStart(NoCopy(), 0, Invite(r));
    var w2 := ApplyCreate(w1, 0, now);
    assert w2.work == map[];
  }

  /** A reply is applied exactly when it is to this revision or a newer one: its sender's answer, and nothing else. */
  lemma ReplyIsApplied(e: Event, sender: string, sequence: nat, response: Response)
    ensures var to := Mutate(e, Reply(sender, sequence, response));
            && (to.Some? <==> sequence >= e.sequence)
            && (to.Some? ==> to.value == e.(attendees := to.value.attendees)
                               && OnlyAnswers(e.attendees, to.value.attendees, sender, response))
  {
  }

  function Invites(revisions: seq<Revision>): (messages: set<Message>) { set r | r in revisions :: Invite(r) }

  lemma InvitesOneMore(revisions: seq<Revision>, n: nat)
    requires n < |revisions|
    ensures Invites(revisions[..n + 1]) == Invites(revisions[..n]) + {Invite(revisions[n])}
  {
    assert revisions[..n + 1] == revisions[..n] + [revisions[n]];
  }

  lemma {:induction false} TurnsAreDone(revisions: seq<Revision>, now: int)
    ensures NoAsk(Turns(revisions, now))
    ensures var w := Run(NoCopy(), Turns(revisions, now));
            w.work == map[] && w.lost == {} && w.begun == Invites(revisions)
  {
    if revisions != [] {
      var n := |revisions| - 1;
      assert revisions[..n + 1] == revisions;
      TurnsAreDone(revisions[..n], now);
      RunAppend(NoCopy(), Turns(revisions[..n], now), Turn(revisions[n], now));
      TurnIsDone(Run(NoCopy(), Turns(revisions[..n], now)), revisions[n], now);
      InvitesOneMore(revisions, n);
    }
  }

  /** Invitations of one meeting processed one after another, in any order: the copy ends as the highest revision's. */
  lemma InAnyOrder(revisions: seq<Revision>, top: Revision, now: int)
    requires top in revisions && forall r :: r in revisions ==> r.sequence < top.sequence || r == top
    ensures var e := Run(NoCopy(), Turns(revisions, now)).event; e.Some? && Shows(e.value, top, false)
  {
    TurnsAreDone(revisions, now);
    HighestRevisionWins(Turns(revisions, now), top);
  }

  /**
   * A patch that lost its race, in any state of the machine: given up on at the third try, and otherwise made
   * anew of the row as it is by then.
   */
  lemma LostRaceIsRetried(w: World, worker: Worker, now: int)
    requires Inv(w) && worker in w.work && w.work[worker].Ready? && w.work[worker].tries <= 3
    requires w.event.Some? && w.work[worker].was.version != w.event.value.version
    ensures var m, e := w.work[worker].message, w.event.value;
            var w', to := Run(w, [Write(worker), Create(worker, now), Fetch(worker), Write(worker)]), Mutate(e, m);
            && worker !in w'.work
            && if w.work[worker].tries == 3 then w'.lost == w.lost + {m} && w'.event == w.event
               else w'.lost == w.lost
                      && w'.event == Some(if to.Some? then to.value.(version := e.version + 1) else e)
    ensures w.work[worker].tries < 3 ==>
              var again := Apply(Apply(w, Write(worker)), Fetch(worker));
              worker in again.work ==> again.work[worker].tries == w.work[worker].tries + 1
  {
    RunFour(w, Write(worker), Create(worker, now), Fetch(worker), Write(worker));
    var w1 := ApplyWrite(w, worker);
    var w2 := ApplyCreate(w1, worker, now);
    if w.work[worker].tries < 3 {
      assert w1.work[worker] == Looking(w.work[worker].message, true, w.work[worker].tries + 1);
      assert w2 == w1;
    }
  }

  // ---- a lost creation ----

  /**
   * Of two invitations that both find no copy, the one that comes second to creating it is given up on, even
   * when it is the higher revision: the copy stays at the lower one with nothing left to do.
   */
  lemma HigherRevisionLost(lower: Revision, higher: Revision, now: int) returns (actions: seq<Action>)
    requires lower.sequence < higher.sequence
    ensures NoAsk(actions)
    ensures var w := Run(NoCopy(), actions);
            && w.begun == {Invite(lower), Invite(higher)} && w.work == map[] && w.lost == {Invite(higher)}
            && w.event == Some(Created(lower, now))
  {
    var a, b, c, d := Start(0, Invite(lower)), Start(1, Invite(higher)), Create(0, now), Create(1, now);
    actions := [a, b, c, d];
    RunFour(NoCopy(), a, b, c, d);
    var w2 := Apply(Apply(NoCopy(), a), b);
    assert w2.work == map[0 := Looking(Invite(lower), false, 1), 1 := Looking(Invite(higher), false, 1)];
    var w3 := Apply(w2, c);
    assert w3.work == map[1 := Looking(Invite(higher), false, 1)];
  }
}
