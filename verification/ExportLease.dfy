/**
 * One export request under any number of replicas: claim, lease renewal, reclaim of abandoned attempts,
 * output kept apart per attempt, and the ledger of attestations a finished matter export still owes (a
 * data export owes none). Every write of the request is a compare-and-set on its version; leases lapse
 * at any time, runs die anywhere and stale runs carry on with what they hold.
 */
module ExportLease {
  import opened Options

  type Mailbox = nat

  type Replica = nat

  datatype Status = Pending | Processing | Ready | Failed

  /** `blob` names the bundle by the attempt that wrote it. */
  datatype Request = Request(version: nat, status: Status, attempts: nat, blob: Option<nat>, owed: seq<Mailbox>)

  datatype Bundle = Partial | Complete(mailboxes: seq<Mailbox>)

  datatype Work =
    /** Has read the request: pending, abandoned or owing attestations. */
    | Found(was: Request)
    /** Claimed: building the bundle of `attempt`. */
    | Building(held: Request, attempt: nat)
    /** The bundle is stored, the request not ready yet. */
    | Stored(held: Request, attempt: nat, included: seq<Mailbox>)
    /** Has to remove what it stored, then to mark the request failed. */
    | Undoing(held: Request, attempt: nat)
    | Failing(held: Request)
    /** Recording what the request owed when it was taken up: `at` of them tried, `missed` not recorded. */
    | Attesting(held: Request, owed: seq<Mailbox>, at: nat, missed: seq<Mailbox>)

  /** `attested`: the entries in the escrow ledger. */
  datatype World = World(maxAttempts: nat, request: Request, bundles: map<nat, Bundle>, work: map<Replica, Work>,
                         attested: set<Mailbox>)

  datatype Action =
    | Find(replica: Replica)
    | Claim(replica: Replica)
    /** The mailbox or the matter is gone, or the claim itself failed. */
    | Refuse(replica: Replica)
    | StartBundle(replica: Replica)
    | Renew(replica: Replica)
    | BreakOff(replica: Replica)
    | FinishBundle(replica: Replica, included: seq<Mailbox>)
    | MarkReady(replica: Replica)
    | Undo(replica: Replica, works: bool)
    | MarkFailed(replica: Replica)
    | Reclaim(replica: Replica)
    | TakeUpOwed(replica: Replica)
    | Attest(replica: Replica, works: bool)
    | StrikeOff(replica: Replica)
    | Die(replica: Replica)

  function Leave(w: World, replica: Replica): (w': World) { w.(work := w.work - {replica}) }

  function Go(w: World, replica: Replica, work: Work): (w': World) { w.(work := w.work[replica := work]) }

  function Store(w: World, replica: Replica, work: Work, bundles: map<nat, Bundle>): (w': World) {
    Go(w, replica, work).(bundles := bundles)
  }

  /** A compare-and-set from `was`: the request written, or none when another write came first. */
  function Update(w: World, was: Request, to: Request): (r: Option<Request>) {
    if was.version == w.request.version then Some(to.(version := was.version + 1)) else None
  }

  function Apply(w: World, a: Action): (w': World) {
    if a.Find? then (if a.replica in w.work then w else Go(w, a.replica, Found(w.request)))
    else if a.replica !in w.work then w
    else
      var job := w.work[a.replica];
      match a
      case Claim(replica) => ApplyClaim(w, replica, job)
      case Refuse(replica) => ApplyRefuse(w, replica, job)
      case StartBundle(_) => if job.Building? then w.(bundles := w.bundles[job.attempt := Partial]) else w
      case Renew(replica) => ApplyRenew(w, replica, job)
      case BreakOff(replica) => if job.Building? then Go(w, replica, Undoing(job.held, job.attempt)) else w
      case FinishBundle(replica, included) =>
        if job.Building?
        then Store(w, replica, Stored(job.held, job.attempt, included), w.bundles[job.attempt := Complete(included)])
        else w
      case MarkReady(replica) => ApplyMarkReady(w, replica, job)
      case Undo(replica, works) =>
        if job.Undoing?
        then Store(w, replica, Failing(job.held), if works then w.bundles - {job.attempt} else w.bundles)
        else w
      case MarkFailed(replica) => ApplyMarkFailed(w, replica, job)
      case Reclaim(replica) => ApplyReclaim(w, replica, job)
      case TakeUpOwed(replica) => ApplyTakeUpOwed(w, replica, job)
      case Attest(replica, works) => ApplyAttest(w, replica, job, works)
      case StrikeOff(replica) => ApplyStrikeOff(w, replica, job)
      case Die(replica) => Leave(w, replica)
  }

  function ApplyClaim(w: World, replica: Replica, job: Work): (w': World) {
    if job.Found? && job.was.status == Pending then
      var attempt := job.was.attempts + 1;
      var r := Update(w, job.was, job.was.(status := Processing, attempts := attempt));
      if r.Some? then Go(w, replica, Building(r.value, attempt)).(request := r.value) else Leave(w, replica)
    else w
  }

  function ApplyRefuse(w: World, replica: Replica, job: Work): (w': World) {
    if job.Found? && job.was.status == Pending then
      var r := Update(w, job.was, job.was.(status := Failed));
      if r.Some? then Leave(w, replica).(request := r.value) else Leave(w, replica)
    else w
  }

  function ApplyRenew(w: World, replica: Replica, job: Work): (w': World) {
    if job.Building? then
      var r := Update(w, job.held, job.held.(status := Processing));
      if r.Some? then Go(w, replica, Building(r.value, job.attempt)).(request := r.value)
      else Go(w, replica, Undoing(job.held, job.attempt))
    else w
  }

  /** The bundle is named and everything it attests to becomes owed, in one update. */
  function ApplyMarkReady(w: World, replica: Replica, job: Work): (w': World) {
    if job.Stored? then
      var r := Update(w, job.held, job.held.(status := Ready, blob := Some(job.attempt), owed := job.included));
      if r.Some? then Go(w, replica, Attesting(r.value, job.included, 0, [])).(request := r.value)
      else Go(w, replica, Undoing(job.held, job.attempt))
    else w
  }

  function ApplyMarkFailed(w: World, replica: Replica, job: Work): (w': World) {
    if job.Failing? then
      var r := Update(w, job.held, job.held.(status := Failed));
      if r.Some? then Leave(w, replica).(request := r.value) else Leave(w, replica)
    else w
  }

  /** An abandoned attempt goes back to pending, or fails for good when it was the last. */
  function ApplyReclaim(w: World, replica: Replica, job: Work): (w': World) {
    if job.Found? && job.was.status == Processing then
      var r := Update(w, job.was, job.was.(status := if job.was.attempts >= w.maxAttempts then Failed else Pending));
      if r.Some? then Leave(w, replica).(request := r.value) else Leave(w, replica)
    else w
  }

  function ApplyTakeUpOwed(w: World, replica: Replica, job: Work): (w': World) {
    if job.Found? && job.was.status == Ready && job.was.owed != [] then
      var r := Update(w, job.was, job.was);
      if r.Some? then Go(w, replica, Attesting(r.value, job.was.owed, 0, [])).(request := r.value)
          else Leave(w, replica)
    else w
  }

  function ApplyAttest(w: World, replica: Replica, job: Work, works: bool): (w': World) {
    if job.Attesting? && job.at < |job.owed| then
      var m := job.owed[job.at];
      if works then Go(w, replica, Attesting(job.held, job.owed, job.at + 1, job.missed)).(attested := w.attested + {m})
      else Go(w, replica, Attesting(job.held, job.owed, job.at + 1, job.missed + [m]))
    else w
  }

  /**
   * Leaves on the request what is still owed; at a checkpoint on the way, or for good at the end. A lost race
   * ends the run.
   */
  function ApplyStrikeOff(w: World, replica: Replica, job: Work): (w': World) {
    if job.Attesting? && job.at <= |job.owed| then
      var r := Update(w, job.held, job.held.(owed := job.missed + job.owed[job.at..]));
      if r.None? then Leave(w, replica)
      else if job.at < |job.owed|
      then Go(w, replica, Attesting(r.value, job.owed, job.at, job.missed)).(request := r.value)
      else Leave(w, replica).(request := r.value)
    else w
  }

  function Run(w: World, actions: seq<Action>): (w': World)
    decreases |actions|
  {
    if actions == [] then w else Run(Apply(w, actions[0]), actions[1..])
  }

  // ---- the invariant ----

  ghost predicate Snapshot(was: Request, request: Request) {
    was.version <= request.version && (was.version == request.version ==> was == request)
  }

  ghost predicate RequestOk(w: World) {
    && w.request.attempts <= w.maxAttempts
    && (w.request.status == Pending ==> w.request.attempts < w.maxAttempts)
    && (w.request.status == Ready ==>
          && w.request.blob == Some(w.request.attempts) && w.request.attempts in w.bundles
               && w.bundles[w.request.attempts].Complete?)
  }

  /** Everything in the bundle is attested or owed, and nothing is attested that is not in it. */
  ghost predicate LedgerOk(w: World) {
    && (w.request.status != Ready ==> w.attested == {} && w.request.owed == [])
    && (w.request.status == Ready ==>
          && w.request.attempts in w.bundles && w.bundles[w.request.attempts].Complete?
          && (forall m :: m in w.attested || m in w.request.owed ==> m in w.bundles[w.request.attempts].mailboxes)
          && (forall m :: m in w.bundles[w.request.attempts].mailboxes ==> m in w.attested || m in w.request.owed))
  }

  /** The attempt whose bundle the replica may still write or remove. */
  function Owns(job: Work): (attempt: Option<nat>) {
    if job.Building? || job.Stored? || job.Undoing? then Some(job.attempt) else None
  }

  ghost predicate JobOk(w: World, job: Work) {
    match job
    case Found(was) => Snapshot(was, w.request)
    case Building(held, attempt) => LeaseOk(w, held, attempt)
    case Stored(held, attempt, included) => LeaseOk(w, held, attempt) && attempt in w.bundles
      && w.bundles[attempt] == Complete(included)
    case Undoing(held, attempt) => LeaseOk(w, held, attempt)
    case Failing(held) => Snapshot(held, w.request) && held.status == Processing
    case Attesting(held, owed, at, missed) =>
      && Snapshot(held, w.request) && held.status == Ready && w.request.status == Ready && at <= |owed|
      && (forall m :: m in held.owed ==> m in owed)
      && (forall i :: 0 <= i < at ==> owed[i] in w.attested || owed[i] in missed)
      && (forall m :: m in missed ==> m in owed)
      && (forall m :: m in owed ==> InBundle(w, m))
  }

  ghost predicate InBundle(w: World, m: Mailbox) {
    w.request.attempts in w.bundles && w.bundles[w.request.attempts].Complete?
      && m in w.bundles[w.request.attempts].mailboxes
  }

  ghost predicate LeaseOk(w: World, held: Request, attempt: nat) {
    && Snapshot(held, w.request) && held.status == Processing && held.attempts == attempt <= w.request.attempts
    && (w.request.status == Ready ==> attempt < w.request.attempts)
  }

  ghost predicate WorkOk(w: World) {
    && (forall k :: k in w.work ==> JobOk(w, w.work[k]))
    && (forall j, k :: j in w.work && k in w.work && j != k && Owns(w.work[j]).Some? ==>
         Owns(w.work[j]) != Owns(w.work[k]))
  }

  ghost predicate Inv(w: World) { RequestOk(w) && LedgerOk(w) && WorkOk(w) }

  /** How far one replica's action changes what the others go by; `mine` is the attempt whose bundle it may touch. */
  ghost predicate Moves(w: World, w': World, mine: Option<nat>) {
    && w'.maxAttempts == w.maxAttempts && w.attested <= w'.attested
    && (w'.request == w.request || w'.request.version > w.request.version) && w'.request.attempts >= w.request.attempts
    && (w.request.status == Ready ==>
          w'.request.status == Ready && w'.request.attempts == w.request.attempts && mine != Some(w.request.attempts))
    && (w'.request.status == Ready && w.request.status != Ready ==> mine == Some(w'.request.attempts))
    && (forall k: nat :: Some(k) != mine ==> SameBundle(w, w', k))
  }

  ghost predicate SameBundle(w: World, w': World, k: nat) {
    (k in w.bundles <==> k in w'.bundles) && (k in w.bundles ==> w'.bundles[k] == w.bundles[k])
  }

  lemma OtherStays(w: World, w': World, job: Work, mine: Option<nat>)
    requires JobOk(w, job) && Moves(w, w', mine) && (Owns(job).Some? ==> Owns(job) != mine)
    ensures JobOk(w', job)
  {
    if job.Attesting? { assert SameBundle(w, w', w.request.attempts); }
    if job.Stored? { assert SameBundle(w, w', job.attempt); }
  }

  /** The replica's own new state is in order, and what it owns is what it owned or a new attempt. */
  ghost predicate OwnOk(w: World, w': World, replica: Replica) {
    replica in w'.work ==>
      && JobOk(w', w'.work[replica])
      && (Owns(w'.work[replica]).Some? ==>
            Owns(w'.work[replica]).value > w.request.attempts
              || (replica in w.work && Owns(w'.work[replica]) == Owns(w.work[replica])))
  }

  lemma WorkStays(w: World, w': World, replica: Replica, mine: Option<nat>)
    requires WorkOk(w) && Moves(w, w', mine) && OwnOk(w, w', replica)
    requires mine.Some? ==> replica in w.work && Owns(w.work[replica]) == mine
    requires forall k :: k != replica ==> (k in w'.work <==> k in w.work) && (k in w.work ==> w'.work[k] == w.work[k])
    ensures WorkOk(w')
  {
    forall k | k in w'.work ensures JobOk(w', w'.work[k]) {
      if k != replica { OtherStays(w, w', w.work[k], mine); }
    }
    forall j, k | j in w'.work && k in w'.work && j != k && Owns(w'.work[j]).Some?
        ensures Owns(w'.work[j]) != Owns(w'.work[k]) {
      if k != replica { assert JobOk(w, w.work[k]); }
      if j != replica { assert JobOk(w, w.work[j]); }
    }
  }

  lemma OnClaim(w: World, replica: Replica)
    requires Inv(w) && replica in w.work
    ensures Inv(ApplyClaim(w, replica, w.work[replica]))
  {
    var w', job := ApplyClaim(w, replica, w.work[replica]), w.work[replica];
    assert JobOk(w, job);
    if job.Found? && job.was.status == Pending { WorkStays(w, w', replica, None); }
  }

  lemma OnRefuse(w: World, replica: Replica)
    requires Inv(w) && replica in w.work
    ensures Inv(ApplyRefuse(w, replica, w.work[replica]))
  {
    var w', job := ApplyRefuse(w, replica, w.work[replica]), w.work[replica];
    assert JobOk(w, job);
    if job.Found? && job.was.status == Pending { WorkStays(w, w', replica, None); }
  }

  lemma OnRenew(w: World, replica: Replica)
    requires Inv(w) && replica in w.work
    ensures Inv(ApplyRenew(w, replica, w.work[replica]))
  {
    var w', job := ApplyRenew(w, replica, w.work[replica]), w.work[replica];
    assert JobOk(w, job);
    if job.Building? { WorkStays(w, w', replica, None); }
  }

  lemma OnMarkReady(w: World, replica: Replica)
    requires Inv(w) && replica in w.work
    ensures Inv(ApplyMarkReady(w, replica, w.work[replica]))
  {
    var w', job := ApplyMarkReady(w, replica, w.work[replica]), w.work[replica];
    assert JobOk(w, job);
    if job.Stored? { WorkStays(w, w', replica, Some(job.attempt)); }
  }

  lemma OnMarkFailed(w: World, replica: Replica)
    requires Inv(w) && replica in w.work
    ensures Inv(ApplyMarkFailed(w, replica, w.work[replica]))
  {
    var w', job := ApplyMarkFailed(w, replica, w.work[replica]), w.work[replica];
    assert JobOk(w, job);
    if job.Failing? { WorkStays(w, w', replica, None); }
  }

  lemma OnReclaim(w: World, replica: Replica)
    requires Inv(w) && replica in w.work
    ensures Inv(ApplyReclaim(w, replica, w.work[replica]))
  {
    var w', job := ApplyReclaim(w, replica, w.work[replica]), w.work[replica];
    assert JobOk(w, job);
    if job.Found? && job.was.status == Processing { WorkStays(w, w', replica, None); }
  }

  lemma OnTakeUpOwed(w: World, replica: Replica)
    requires Inv(w) && replica in w.work
    ensures Inv(ApplyTakeUpOwed(w, replica, w.work[replica]))
  {
    var w', job := ApplyTakeUpOwed(w, replica, w.work[replica]), w.work[replica];
    assert JobOk(w, job);
    if job.Found? && job.was.status == Ready && job.was.owed != [] { WorkStays(w, w', replica, None); }
  }

  lemma AttestKeepsLedger(w: World, job: Work, works: bool)
    requires LedgerOk(w) && JobOk(w, job) && job.Attesting? && job.at < |job.owed|
    ensures LedgerOk(w.(attested := if works then w.attested + {job.owed[job.at]} else w.attested))
  {
    assert InBundle(w, job.owed[job.at]);
  }

  lemma OnAttest(w: World, replica: Replica, works: bool)
    requires Inv(w) && replica in w.work
    ensures Inv(ApplyAttest(w, replica, w.work[replica], works))
  {
    var w', job := ApplyAttest(w, replica, w.work[replica], works), w.work[replica];
    assert JobOk(w, job);
    if job.Attesting? && job.at < |job.owed| {
      AttestKeepsLedger(w, job, works);
      WorkStays(w, w', replica, None);
    }
  }

  /** A strike-off that is not lost takes only attested mailboxes off. */
  lemma StrikeOffKeepsLedger(w: World, replica: Replica)
    requires Inv(w) && replica in w.work && w.work[replica].Attesting?
    ensures LedgerOk(ApplyStrikeOff(w, replica, w.work[replica]))
    ensures forall m :: m in w.request.owed && m !in ApplyStrikeOff(w, replica, w.work[replica]).request.owed ==>
              m in w.attested
  {
    var w', job := ApplyStrikeOff(w, replica, w.work[replica]), w.work[replica];
    assert JobOk(w, job);
    if w'.request != w.request {
      var left := job.missed + job.owed[job.at..];
      assert w'.request.owed == left && w'.attested == w.attested && w'.bundles == w.bundles;
      forall m | m in w.request.owed ensures m in w.attested || m in left {
        var i :| 0 <= i < |job.owed| && job.owed[i] == m;
        if i >= job.at { assert job.owed[job.at..][i - job.at] == m; }
      }
      forall m | m in left ensures InBundle(w, m) { assert m in job.owed; }
    }
  }

  lemma OnStrikeOff(w: World, replica: Replica)
    requires Inv(w) && replica in w.work
    ensures Inv(ApplyStrikeOff(w, replica, w.work[replica]))
  {
    var w', job := ApplyStrikeOff(w, replica, w.work[replica]), w.work[replica];
    assert JobOk(w, job);
    if job.Attesting? { StrikeOffKeepsLedger(w, replica); }
    if job.Attesting? && job.at <= |job.owed| { WorkStays(w, w', replica, None); }
  }

  /** Writing or removing the bundle of the replica's own attempt. */
  lemma OnBundle(w: World, replica: Replica, bundles: map<nat, Bundle>, job': Work)
    requires Inv(w) && replica in w.work && Owns(w.work[replica]).Some?
    requires var mine := Owns(w.work[replica]);
             && (forall k: nat :: Some(k) != mine ==> SameBundle(w, w.(bundles := bundles), k))
             && OwnOk(w, w.(bundles := bundles, work := w.work[replica := job']), replica)
    ensures Inv(w.(bundles := bundles, work := w.work[replica := job']))
  {
    assert JobOk(w, w.work[replica]);
    var w' := w.(bundles := bundles, work := w.work[replica := job']);
    if w.request.status == Ready { assert SameBundle(w, w.(bundles := bundles), w.request.attempts); }
    forall k: nat | Some(k) != Owns(w.work[replica])
        ensures SameBundle(w, w', k) { assert SameBundle(w, w.(bundles := bundles), k); }
    WorkStays(w, w', replica, Owns(w.work[replica]));
  }

  lemma OnStep(w: World, a: Action)
    requires Inv(w) && (a.Find? || a.Die? || a.BreakOff?)
    ensures Inv(Apply(w, a))
  {
    if a.replica in w.work { assert JobOk(w, w.work[a.replica]); }
    WorkStays(w, Apply(w, a), a.replica, None);
  }

  lemma OnBuild(w: World, a: Action)
    requires Inv(w) && (a.StartBundle? || a.FinishBundle? || a.Undo?)
    ensures Inv(Apply(w, a))
  {
    if a.replica in w.work && Owns(w.work[a.replica]).Some? {
      var w' := Apply(w, a);
      assert JobOk(w, w.work[a.replica]);
      if w' != w {
        assert w.work[a.replica := w'.work[a.replica]] == w'.work;
        OnBundle(w, a.replica, w'.bundles, w'.work[a.replica]);
      }
    }
  }

  lemma Keeps(w: World, a: Action)
    requires Inv(w)
    ensures Inv(Apply(w, a))
  {
    if a.Find? || a.Die? || a.BreakOff? { OnStep(w, a); }
    else if a.StartBundle? || a.FinishBundle? || a.Undo? { OnBuild(w, a); }
    else if a.replica in w.work {
      match a
      case Claim(replica) => OnClaim(w, replica);
      case Refuse(replica) => OnRefuse(w, replica);
      case Renew(replica) => OnRenew(w, replica);
      case MarkReady(replica) => OnMarkReady(w, replica);
      case MarkFailed(replica) => OnMarkFailed(w, replica);
      case Reclaim(replica) => OnReclaim(w, replica);
      case TakeUpOwed(replica) => OnTakeUpOwed(w, replica);
      case Attest(replica, works) => OnAttest(w, replica, works);
      case StrikeOff(replica) => OnStrikeOff(w, replica);
      case _ =>
    }
  }

  // ---- the theorems ----

  predicate New(w: World) {
    w.request == Request(0, Pending, 0, None, []) && w.bundles == map[] && w.work == map[] && w.attested == {}
      && w.maxAttempts >= 1
  }

  lemma {:induction false} RunKeeps(w: World, actions: seq<Action>)
    requires Inv(w)
    ensures Inv(Run(w, actions))
    decreases |actions|
  {
    if actions != [] {
      Keeps(w, actions[0]);
      RunKeeps(Apply(w, actions[0]), actions[1..]);
    }
  }

  lemma {:induction false} MaxStays(w: World, actions: seq<Action>)
    ensures Run(w, actions).maxAttempts == w.maxAttempts
    decreases |actions|
  {
    if actions != [] { MaxStays(Apply(w, actions[0]), actions[1..]); }
  }

  /**
   * In every reachable state: no more attempts than allowed; a ready request names the complete bundle
   * its last attempt wrote, and each mailbox in it is attested or still owed; before that nothing is
   * attested.
   */
  lemma ReadyIsAccountedFor(w: World, actions: seq<Action>)
    requires New(w)
    ensures var end := Run(w, actions); var r := end.request;
            && r.attempts <= w.maxAttempts
            && (r.status != Ready ==> end.attested == {})
            && (r.status == Ready ==>
                  && r.blob == Some(r.attempts) && r.attempts in end.bundles && end.bundles[r.attempts].Complete?
                  && (forall m :: m in end.bundles[r.attempts].mailboxes <==> m in end.attested || m in r.owed))
  {
    RunKeeps(w, actions);
    MaxStays(w, actions);
  }

  /** Nothing any replica does touches a ready request's bundle, or changes a failed request. */
  predicate SameOutcome(w: World, w': World) {
    && (w.request.status == Failed ==> w'.request == w.request)
    && (w.request.status == Ready ==>
          && w'.request.status == Ready && w'.request.blob == w.request.blob
               && w'.request.attempts == w.request.attempts
          && w.request.attempts in w.bundles && w.request.attempts in w'.bundles
          && w'.bundles[w.request.attempts] == w.bundles[w.request.attempts])
  }

  lemma OutcomeStep(w: World, a: Action)
    requires RequestOk(w) && (a.replica in w.work ==> JobOk(w, w.work[a.replica]))
    ensures SameOutcome(w, Apply(w, a))
  {
  }

  lemma {:induction false} OutcomeRun(w: World, actions: seq<Action>)
    requires Inv(w)
    ensures SameOutcome(w, Run(w, actions))
    decreases |actions|
  {
    if actions != [] {
      OutcomeStep(w, actions[0]);
      Keeps(w, actions[0]);
      OutcomeRun(Apply(w, actions[0]), actions[1..]);
    }
  }

  /** Ready and failed are final, and the bundle of a ready request is never overwritten or removed by any other run. */
  lemma OutcomeIsFinal(w: World, before: seq<Action>, after: seq<Action>)
    requires New(w)
    ensures SameOutcome(Run(w, before), Run(Run(w, before), after))
  {
    RunKeeps(w, before);
    OutcomeRun(Run(w, before), after);
  }

  /** A replica whose version is not the request's any more has lost it. */
  predicate LostIt(w: World, replica: Replica) {
    replica in w.work && match w.work[replica]
                         case Found(was) => was.version != w.request.version
                         case Building(held, _) => held.version != w.request.version
                         case Stored(held, _, _) => held.version != w.request.version
                         case Undoing(held, _) => held.version != w.request.version
                         case Failing(held) => held.version != w.request.version
                         case Attesting(held, _, _, _) => held.version != w.request.version
  }

  lemma LostWritesNothing(w: World, a: Action)
    requires LostIt(w, a.replica)
    ensures Apply(w, a).request == w.request
  {
  }

  lemma OwedStep(w: World, a: Action)
    requires Inv(w)
    ensures forall m :: m in w.request.owed && m !in Apply(w, a).request.owed ==> m in Apply(w, a).attested
  {
    if a.replica in w.work {
      assert JobOk(w, w.work[a.replica]);
      if a.StrikeOff? && w.work[a.replica].Attesting? { StrikeOffKeepsLedger(w, a.replica); }
    }
  }

  /** A replica that lost the request writes nothing to it; a mailbox leaves the owed list only once it is attested. */
  lemma OwedUntilAttested(w: World, actions: seq<Action>, a: Action)
    requires New(w)
    ensures var w1 := Run(w, actions); var w2 := Apply(w1, a);
            && (LostIt(w1, a.replica) ==> w2.request == w1.request)
            && (forall m :: m in w1.request.owed && m !in w2.request.owed ==> m in w2.attested)
  {
    RunKeeps(w, actions);
    var w1 := Run(w, actions);
    OwedStep(w1, a);
    if LostIt(w1, a.replica) { LostWritesNothing(w1, a); }
  }

  // ---- what an undisturbed replica gets done ----

  lemma {:induction false} RunAppend(w: World, before: seq<Action>, after: seq<Action>)
    ensures Run(w, before + after) == Run(Run(w, before), after)
    decreases |before|
  {
    if before == [] {
      assert before + after == after;
    } else {
      assert (before + after)[1..] == before[1..] + after;
      RunAppend(Apply(w, before[0]), before[1..], after);
    }
  }

  lemma RunTwo(w: World, a: Action, b: Action)
    ensures Run(w, [a, b]) == Apply(Apply(w, a), b)
  {
    assert [a, b][1..] == [b] && Run(Apply(w, a), [b]) == Run(Apply(Apply(w, a), b), []);
  }

  /**
   * In every reachable state: an abandoned attempt that is taken back fails for good if it was the last one
   * allowed, and otherwise waits to be claimed as the next, with nothing it stored touched.
   */
  lemma ReclaimDecides(w: World, actions: seq<Action>, replica: Replica)
    requires New(w) && Run(w, actions).request.status == Processing
    requires replica in Run(w, actions).work && Run(w, actions).work[replica] == Found(Run(w, actions).request)
    ensures var w1 := Run(w, actions); var w2 := Apply(w1, Reclaim(replica));
            && w2.request.attempts == w1.request.attempts && w2.bundles == w1.bundles && replica !in w2.work
            && w2.request.status == if w1.request.attempts == w.maxAttempts then Failed else Pending
  {
    RunKeeps(w, actions);
    MaxStays(w, actions);
  }

  /** ... and so it is: by the next replica to find it, as one attempt more. */
  lemma ReclaimedIsClaimed(w: World, actions: seq<Action>, replica: Replica, next: Replica)
    requires New(w) && Run(w, actions).request.status == Processing
    requires replica in Run(w, actions).work && Run(w, actions).work[replica] == Found(Run(w, actions).request)
    requires Run(w, actions).request.attempts < w.maxAttempts && next !in Run(w, actions).work
    ensures var w1 := Run(w, actions); var w4 := Run(w1, [Reclaim(replica)] + [Find(next), Claim(next)]);
            && w4.request.status == Processing && w4.request.attempts == w1.request.attempts + 1
            && w4.bundles == w1.bundles
            && next in w4.work && w4.work[next] == Building(w4.request, w1.request.attempts + 1)
  {
    var w1 := Run(w, actions);
    ReclaimDecides(w, actions, replica);
    var w2 := Apply(w1, Reclaim(replica));
    RunAppend(w1, [Reclaim(replica)], [Find(next), Claim(next)]);
    assert Run(w1, [Reclaim(replica)]) == Run(w2, []) == w2;
    RunTwo(w2, Find(next), Claim(next));
  }

  /** Those of `owed` from `at` on that can't be recorded now, in order. */
  function Unrecorded(owed: seq<Mailbox>, at: nat, works: Mailbox -> bool): (missed: seq<Mailbox>)
    requires at <= |owed|
    ensures forall m :: m in missed ==> m in owed && !works(m)
    decreases |owed| - at
  {
    if at == |owed| then []
    else (if works(owed[at]) then [] else [owed[at]]) + Unrecorded(owed, at + 1, works)
  }

  /** ... and those that can. */
  function Recorded(owed: seq<Mailbox>, at: nat, works: Mailbox -> bool): (recorded: set<Mailbox>)
    requires at <= |owed|
    decreases |owed| - at
  {
    if at == |owed| then {} else (if works(owed[at]) then {owed[at]} else {}) + Recorded(owed, at + 1, works)
  }

  lemma {:induction false} RecordedAre(owed: seq<Mailbox>, at: nat, works: Mailbox -> bool, m: Mailbox)
    requires at <= |owed|
    ensures m in Recorded(owed, at, works) <==> m in owed[at..] && works(m)
    decreases |owed| - at
  {
    if at < |owed| {
      RecordedAre(owed, at + 1, works, m);
      assert owed[at..] == [owed[at]] + owed[at + 1..];
    }
  }

  lemma AttestsNext(w: World, replica: Replica, job: Work, works: bool) returns (w': World)
    requires replica in w.work && w.work[replica] == job && job.Attesting? && job.at < |job.owed|
    ensures w' == Apply(w, Attest(replica, works)) && w'.request == w.request && w'.bundles == w.bundles
    ensures w'.attested == w.attested + if works then {job.owed[job.at]} else {}
    ensures replica in w'.work && w'.work[replica] == Attesting(job.held, job.owed, job.at + 1,
                                                                job.missed + if works then [] else [job.owed[job.at]])
  {
    w' := Apply(w, Attest(replica, works));
    if works { assert job.missed + [] == job.missed; }
  }

  lemma StrikesOff(w: World, replica: Replica, job: Work)
    requires replica in w.work && w.work[replica] == job && job.Attesting? && job.held == w.request
    requires job.at == |job.owed|
    ensures var end := Run(w, [StrikeOff(replica)]);
            && end.bundles == w.bundles && replica !in end.work && end.attested == w.attested
            && end.request == w.request.(version := w.request.version + 1, owed := job.missed)
  {
    assert Run(w, [StrikeOff(replica)]) == Run(Apply(w, StrikeOff(replica)), []);
    assert job.missed + job.owed[job.at..] == job.missed;
  }

  /** Each mailbox is tried once; what is recorded is struck off, and what is not stays owed. */
  lemma AttestsAll(w: World, replica: Replica, job: Work, works: Mailbox -> bool) returns (actions: seq<Action>)
    requires replica in w.work && w.work[replica] == job && job.Attesting? && job.held == w.request
    requires job.at <= |job.owed|
    ensures var end := Run(w, actions);
            && end.bundles == w.bundles && replica !in end.work
            && end.request == w.request.(version := w.request.version + 1,
                                         owed := job.missed + Unrecorded(job.owed, job.at, works))
            && end.attested == w.attested + Recorded(job.owed, job.at, works)
    decreases |job.owed| - job.at
  {
    if job.at == |job.owed| {
      actions := [StrikeOff(replica)];
      StrikesOff(w, replica, job);
      assert job.missed + [] == job.missed;
    } else {
      var ok := works(job.owed[job.at]);
      var w1 := AttestsNext(w, replica, job, ok);
      var rest := AttestsAll(w1, replica, w1.work[replica], works);
      actions := [Attest(replica, ok)] + rest;
      assert Run(w, actions) == Run(w1, rest);
      var own, later := if ok then [] else [job.owed[job.at]], Unrecorded(job.owed, job.at + 1, works);
      assert (job.missed + own) + later == job.missed + (own + later);
    }
  }

  /** A pending request claimed and worked on undisturbed, up to the bundle being named. */
  lemma BundleIsNamed(w: World, replica: Replica, included: seq<Mailbox>) returns (actions: seq<Action>)
    requires w.request.status == Pending && replica !in w.work
    ensures var end, attempt := Run(w, actions), w.request.attempts + 1;
            && end.request == Request(w.request.version + 2, Ready, attempt, Some(attempt), included)
            && end.bundles == w.bundles[attempt := Complete(included)] && end.attested == w.attested
            && replica in end.work && end.work[replica] == Attesting(end.request, included, 0, [])
  {
    var attempt := w.request.attempts + 1;
    var claimed := w.request.(version := w.request.version + 1, status := Processing, attempts := attempt);
    var w2 := Apply(Apply(w, Find(replica)), Claim(replica));
    RunTwo(w, Find(replica), Claim(replica));
    assert w2.work[replica] == Building(claimed, attempt) && w2.request == claimed;
    var rest := ClaimedIsBuilt(w2, replica, attempt, included);
    RunAppend(w, [Find(replica), Claim(replica)], rest);
    actions := [Find(replica), Claim(replica)] + rest;
  }

  lemma ClaimedIsBuilt(w: World, replica: Replica, attempt: nat, included: seq<Mailbox>) returns (actions: seq<Action>)
    requires replica in w.work && w.work[replica] == Building(w.request, attempt)
    ensures var end := Run(w, actions);
            && end.request == w.request.(version := w.request.version + 1, status := Ready, blob := Some(attempt),
                                         owed := included)
            && end.bundles == w.bundles[attempt := Complete(included)] && end.attested == w.attested
            && replica in end.work && end.work[replica] == Attesting(end.request, included, 0, [])
  {
    var w2 := Apply(Apply(w, StartBundle(replica)), FinishBundle(replica, included));
    RunTwo(w, StartBundle(replica), FinishBundle(replica, included));
    assert w2.work[replica] == Stored(w.request, attempt, included);
    assert w2.bundles == w.bundles[attempt := Complete(included)];
    var w3 := Apply(w2, MarkReady(replica));
    assert Run(w2, [MarkReady(replica)]) == Run(w3, []);
    RunAppend(w, [StartBundle(replica), FinishBundle(replica, included)], [MarkReady(replica)]);
    actions := [StartBundle(replica), FinishBundle(replica, included)] + [MarkReady(replica)];
  }

  /**
   * A pending request, in any reachable state, that one replica sees through: it ends ready with the bundle of
   * its next attempt, every mailbox in it that can be attested now, and the others owed.
   */
  lemma ExportCompletes(w: World, before: seq<Action>, replica: Replica, included: seq<Mailbox>,
                        works: Mailbox -> bool)
      returns (actions: seq<Action>)
    requires New(w) && Run(w, before).request.status == Pending && replica !in Run(w, before).work
    ensures var w1 := Run(w, before); var end, attempt := Run(w1, actions), w1.request.attempts + 1;
            && end.request.status == Ready && end.request.attempts == attempt && end.request.blob == Some(attempt)
            && attempt in end.bundles && end.bundles[attempt] == Complete(included)
            && end.request.owed == Unrecorded(included, 0, works) && replica !in end.work
            && (forall m :: m in end.attested <==> m in included && works(m))
  {
    RunKeeps(w, before);
    var w1 := Run(w, before);
    actions := BundleIsNamed(w1, replica, included);
    var w2 := Run(w1, actions);
    var rest := AttestsAll(w2, replica, w2.work[replica], works);
    RunAppend(w1, actions, rest);
    actions := actions + rest;
    forall m ensures m in Run(w1, actions).attested <==> m in included && works(m) {
      RecordedAre(included, 0, works, m);
      assert included[0..] == included;
    }
  }

  /** What a ready request still owes, the next replica to take it up attests. */
  lemma OwedIsTakenUp(w: World, before: seq<Action>, replica: Replica, works: Mailbox -> bool)
      returns (actions: seq<Action>)
    requires New(w) && Run(w, before).request.status == Ready && replica !in Run(w, before).work
    ensures var w1 := Run(w, before); var end := Run(w1, actions);
            && end.request.owed == Unrecorded(w1.request.owed, 0, works)
            && end.bundles == w1.bundles && end.request.blob == w1.request.blob
            && forall m :: m in end.attested <==> m in w1.attested || (m in w1.request.owed && works(m))
  {
    var w1 := Run(w, before);
    if w1.request.owed == [] {
      actions := [];
    } else {
      var w2 := Apply(w1, Find(replica));
      var w3 := Apply(w2, TakeUpOwed(replica));
      RunTwo(w1, Find(replica), TakeUpOwed(replica));
      var rest := AttestsAll(w3, replica, w3.work[replica], works);
      RunAppend(w1, [Find(replica), TakeUpOwed(replica)], rest);
      actions := [Find(replica), TakeUpOwed(replica)] + rest;
      forall m ensures m in Run(w1, actions).attested <==> m in w1.attested || (m in w1.request.owed && works(m)) {
        RecordedAre(w1.request.owed, 0, works, m);
        assert w1.request.owed[0..] == w1.request.owed;
      }
    }
  }

  /** An attempt that breaks off while its replica holds the request: what it stored is gone, the request failed. */
  lemma BrokenOffIsCleared(w: World, replica: Replica, attempt: nat) returns (actions: seq<Action>)
    requires replica in w.work && w.work[replica] == Building(w.request, attempt)
    ensures var end := Run(w, actions);
            && end.request == w.request.(version := w.request.version + 1, status := Failed)
            && end.bundles == w.bundles - {attempt} && replica !in end.work
  {
    var w2 := Apply(Apply(w, BreakOff(replica)), Undo(replica, true));
    RunTwo(w, BreakOff(replica), Undo(replica, true));
    assert w2.work[replica] == Failing(w.request);
    RunAppend(w, [BreakOff(replica), Undo(replica, true)], [MarkFailed(replica)]);
    actions := [BreakOff(replica), Undo(replica, true)] + [MarkFailed(replica)];
    assert Run(w2, [MarkFailed(replica)]) == Run(Apply(w2, MarkFailed(replica)), []);
  }

  /** The holder keeps the request over a renewal; one that lost it goes on to undo what it stored. */
  lemma RenewalKeeps(w: World, replica: Replica)
    requires replica in w.work && w.work[replica].Building?
    ensures var job, w' := w.work[replica], Apply(w, Renew(replica));
            && replica in w'.work
            && if job.held.version == w.request.version
               then w'.request.version == w.request.version + 1 && w'.work[replica] == Building(w'.request, job.attempt)
               else w'.request == w.request && w'.work[replica] == Undoing(job.held, job.attempt)
  {
  }

  /** A pending request that is refused fails. */
  lemma RefusedFails(w: World, replica: Replica)
    requires replica in w.work && w.work[replica] == Found(w.request) && w.request.status == Pending
    ensures var w' := Apply(w, Refuse(replica));
            w'.request == w.request.(version := w.request.version + 1, status := Failed) && replica !in w'.work
  {
  }
}
