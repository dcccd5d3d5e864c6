/**
 * The claim, lease and retry protocol of one entry of the ingest queue. Any number of workers read the
 * entry, claim it, renew, fail, defer or close it and die; every write is a compare-and-set on the
 * version, and a worker keeps acting on whatever it last read. A versioned update and the re-read after
 * it are one step. Times are milliseconds.
 */
module IngestLease {
  import opened Options

  datatype Status = Pending | Scanning | Failed | Delivered

  datatype Entry = Entry(version: nat, status: Status, attempts: nat, nextAttemptAt: Option<int>,
                         leaseExpiresAt: Option<int>, dateModified: int)

  /** The entry as the worker last wrote it, and when its lease was granted. */
  datatype Claim = Claim(row: Entry, grantedAt: int)

  datatype Config = Config(maxAttempts: nat, leaseMs: nat, backoffMs: nat, deferMs: nat)

  type Worker = nat

  /**
   * `seen`: due entries read and not claimed yet. `granted` and `handedBack` count the attempts begun and the
   * ones undone.
   */
  datatype World = World(config: Config, now: int, entry: Entry, seen: map<Worker, Entry>, claims: map<Worker, Claim>,
                         granted: nat, handedBack: nat)

  datatype Action =
    | Tick(ms: nat)
    | Find(worker: Worker)
    | Take(worker: Worker)
    | Renew(worker: Worker)
    | Fail(worker: Worker)
    | Defer(worker: Worker)
    | Deliver(worker: Worker)
    | Die(worker: Worker)

  /** What one of the four queries finds at `now`. */
  predicate Due(config: Config, e: Entry, now: int) {
    || e.status == Pending
    || (e.status == Failed && e.nextAttemptAt.Some? && e.nextAttemptAt.value <= now)
    || (e.status == Scanning && e.leaseExpiresAt.Some? && e.leaseExpiresAt.value < now)
    || (e.status == Scanning && e.leaseExpiresAt.None? && e.dateModified < now - config.leaseMs)
  }

  predicate DeadLettered(e: Entry) { e.status == Failed && e.nextAttemptAt.None? }

  predicate Closed(e: Entry) { e.status == Delivered || DeadLettered(e) }

  function Pow2(n: nat): (r: nat)
    ensures r >= 1
  {
    if n == 0 then 1 else 2 * Pow2(n - 1)
  }

  /** A compare-and-set from `was` to `to`: the row to work with afterwards, or none when another write came first. */
  function Update(w: World, was: Entry, to: Entry): (row: Option<Entry>) {
    if was.version == w.entry.version then Some(to.(version := was.version + 1, dateModified := w.now)) else None
  }

  function Apply(w: World, a: Action): (w': World) {
    match a
    case Tick(ms) => w.(now := w.now + ms)
    case Find(worker) => if Due(w.config, w.entry, w.now) then w.(seen := w.seen[worker := w.entry]) else w
    case Take(worker) => if worker in w.seen then ApplyTake(w, worker, w.seen[worker]) else w
    case Renew(worker) => if worker in w.claims then ApplyRenew(w, worker, w.claims[worker]) else w
    case Fail(worker) => if worker in w.claims then ApplyFail(w, w.claims[worker]) else w
    case Defer(worker) => if worker in w.claims then ApplyDefer(w, w.claims[worker]) else w
    case Deliver(worker) => if worker in w.claims then ApplyDeliver(w, w.claims[worker]) else w
    case Die(worker) => w.(seen := w.seen - {worker}, claims := w.claims - {worker})
  }

  /** Claims the entry, or parks it for good when every attempt is used. */
  function ApplyTake(w: World, worker: Worker, was: Entry): (w': World) {
    if was.attempts + 1 > w.config.maxAttempts then
      var row := Update(w, was, was.(status := Failed, nextAttemptAt := None, leaseExpiresAt := None));
      if row.Some? then w.(entry := row.value) else w
    else
      var row := Update(w, was, was.(status := Scanning, attempts := was.attempts + 1,
                                     leaseExpiresAt := Some(w.now + w.config.leaseMs)));
      if row.Some?
      then w.(entry := row.value, claims := w.claims[worker := Claim(row.value, w.now)], granted := w.granted + 1)
      else w
  }

  function ApplyRenew(w: World, worker: Worker, claim: Claim): (w': World) {
    if 2 * (w.now - claim.grantedAt) < w.config.leaseMs then w
    else
      var row := Update(w, claim.row, claim.row.(leaseExpiresAt := Some(w.now + w.config.leaseMs)));
      if row.Some? then w.(entry := row.value, claims := w.claims[worker := Claim(row.value, w.now)]) else w
  }

  /** Works on the entry as it is now, and only while it is the worker's claim. */
  function ApplyFail(w: World, claim: Claim): (w': World) {
    var current := w.entry;
    if current.version != claim.row.version || current.status != Scanning then w
    else
      var next := if current.attempts >= w.config.maxAttempts then None
                  else Some(w.now + w.config.backoffMs * Pow2(if current.attempts == 0 then 0
                    else current.attempts - 1));
      var row := Update(w, current, current.(status := Failed, nextAttemptAt := next, leaseExpiresAt := None));
      if row.Some? then w.(entry := row.value) else w
  }

  function ApplyDefer(w: World, claim: Claim): (w': World) {
    var attempts := if claim.row.attempts == 0 then 0 else claim.row.attempts - 1;
    var row := Update(w, claim.row,
                      claim.row.(status := Failed, attempts := attempts,
                                 nextAttemptAt := Some(w.now + w.config.deferMs), leaseExpiresAt := None));
    if row.Some? then w.(entry := row.value, handedBack := w.handedBack + 1) else w
  }

  function ApplyDeliver(w: World, claim: Claim): (w': World) {
    var row := Update(w, claim.row, claim.row.(status := Delivered, leaseExpiresAt := None));
    if row.Some? then w.(entry := row.value) else w
  }

  function Run(w: World, actions: seq<Action>): (w': World)
    decreases |actions|
  {
    if actions == [] then w else Run(Apply(w, actions[0]), actions[1..])
  }

  // ---- the invariant ----

  /** A row read earlier that still has its version is the row. */
  ghost predicate Snapshot(e: Entry, entry: Entry) {
    e.version <= entry.version && (e.version == entry.version ==> e == entry)
  }

  ghost predicate EntryOk(w: World) {
    && w.entry.attempts <= w.config.maxAttempts
    && (w.entry.status == Pending ==> w.entry.attempts == 0)
    && (w.entry.status == Failed ==> (w.entry.nextAttemptAt.None? <==> w.entry.attempts == w.config.maxAttempts))
    && w.entry.attempts + w.handedBack == w.granted
  }

  ghost predicate SeenOk(w: World) {
    forall k :: k in w.seen ==> Snapshot(w.seen[k], w.entry) && Due(w.config, w.seen[k], w.now)
  }

  ghost predicate ClaimOk(w: World, claim: Claim) {
    Snapshot(claim.row, w.entry) && claim.row.status == Scanning && claim.row.attempts >= 1
  }

  ghost predicate ClaimsOk(w: World) {
    && (forall k :: k in w.claims ==> ClaimOk(w, w.claims[k]))
    && (forall j, k :: j in w.claims && k in w.claims && j != k ==> w.claims[j].row.version != w.claims[k].row.version)
  }

  ghost predicate Inv(w: World) { EntryOk(w) && SeenOk(w) && ClaimsOk(w) }

  lemma KeepsEntry(w: World, a: Action)
    requires Inv(w)
    ensures EntryOk(Apply(w, a)) && Apply(w, a).config == w.config
  {
  }

  lemma KeepsReads(w: World, a: Action)
    requires Inv(w)
    ensures SeenOk(Apply(w, a)) && ClaimsOk(Apply(w, a))
  {
  }

  lemma Keeps(w: World, a: Action)
    requires Inv(w)
    ensures Inv(Apply(w, a)) && Apply(w, a).config == w.config
  {
    KeepsEntry(w, a);
    KeepsReads(w, a);
  }

  lemma {:induction false} RunKeeps(w: World, actions: seq<Action>)
    requires Inv(w)
    ensures Inv(Run(w, actions)) && Run(w, actions).config == w.config
    decreases |actions|
  {
    if actions != [] {
      Keeps(w, actions[0]);
      RunKeeps(Apply(w, actions[0]), actions[1..]);
    }
  }

  // ---- the theorems ----

  /** A new entry, or one claimed before leases existed, with no worker on it. */
  predicate Queued(w: World) {
    && w.seen == map[] && w.claims == map[] && w.handedBack == 0 && w.granted == w.entry.attempts
    && w.entry.attempts <= w.config.maxAttempts
    && ((w.entry.status == Pending && w.entry.attempts == 0)
         || (w.entry.status == Scanning && w.entry.leaseExpiresAt.None?))
  }

  /**
   * Over every run: `attempts` is exactly the claims granted less the ones handed back and never exceeds
   * the maximum; a dead-lettered entry has used them all; and whoever acts on the version the entry has
   * now is the only one who does.
   */
  lemma AttemptsBounded(w: World, actions: seq<Action>)
    requires Queued(w)
    ensures var e, end := Run(w, actions).entry, Run(w, actions);
            && e.attempts <= w.config.maxAttempts
            && e.attempts == end.granted - end.handedBack
            && (DeadLettered(e) ==> e.attempts == w.config.maxAttempts)
            && (forall j, k :: j in end.claims && k in end.claims ==>
                  end.claims[j].row.version == end.claims[k].row.version ==> j == k)
  {
    RunKeeps(w, actions);
  }

  /** A delivered or dead-lettered entry is never written again. */
  lemma ClosedStep(w: World, a: Action)
    requires Inv(w) && Closed(w.entry)
    ensures Apply(w, a).entry == w.entry
  {
  }

  lemma {:induction false} ClosedRun(w: World, actions: seq<Action>)
    requires Inv(w) && Closed(w.entry)
    ensures Run(w, actions).entry == w.entry
    decreases |actions|
  {
    if actions != [] {
      ClosedStep(w, actions[0]);
      Keeps(w, actions[0]);
      ClosedRun(Apply(w, actions[0]), actions[1..]);
    }
  }

  lemma ClosedIsFinal(w: World, before: seq<Action>, after: seq<Action>)
    requires Queued(w) && Closed(Run(w, before).entry)
    ensures Run(Run(w, before), after).entry == Run(w, before).entry
  {
    RunKeeps(w, before);
    ClosedRun(Run(w, before), after);
  }

  /** The worker holding the version the entry has now. */
  predicate Holds(w: World, worker: Worker) {
    worker in w.claims && w.claims[worker].row == w.entry
  }

  /** The entry as a step of `a` by the holder or a taker of `e` at `now` leaves it. */
  predicate LeftBy(config: Config, a: Action, e: Entry, now: int, e': Entry) {
    && e'.version == e.version + 1 && e'.dateModified == now
    && match a
       case Take(_) =>
         if e.attempts == config.maxAttempts then DeadLettered(e') && e'.attempts == e.attempts
         else e'.status == Scanning && e'.attempts == e.attempts + 1 && e'.leaseExpiresAt == Some(now + config.leaseMs)
       case Renew(_) => e'.status == Scanning && e'.attempts == e.attempts
         && e'.leaseExpiresAt == Some(now + config.leaseMs)
       case Fail(_) =>
         && e'.status == Failed && e'.attempts == e.attempts && e'.leaseExpiresAt == None && e.attempts >= 1
         && e'.nextAttemptAt == if e.attempts == config.maxAttempts then None
              else Some(now + config.backoffMs * Pow2(e.attempts - 1))
       case Defer(_) =>
         e'.status == Failed && e'.attempts + 1 == e.attempts && e'.nextAttemptAt == Some(now + config.deferMs)
           && e'.leaseExpiresAt == None
       case Deliver(_) => e'.status == Delivered && e'.attempts == e.attempts && e'.leaseExpiresAt == None
       case _ => false
  }

  /** A worker that found the version the entry has now due, or the holder of it, does something that writes. */
  predicate Acts(w: World, a: Action) {
    match a
    case Take(worker) => worker in w.seen && w.seen[worker].version == w.entry.version
    case Renew(worker) => Holds(w, worker) && 2 * (w.now - w.claims[worker].grantedAt) >= w.config.leaseMs
    case Fail(worker) => Holds(w, worker)
    case Defer(worker) => Holds(w, worker)
    case Deliver(worker) => Holds(w, worker)
    case _ => false
  }

  /**
   * Who writes the entry: a worker that found it due and is the first to act on that version, while it
   * is still due, or the holder of its latest version. Only a holder delivers it, defers it, records a
   * failure or, half a lease on, renews; a taker begins an attempt and holds it, or parks an entry that
   * has none left.
   */
  lemma OnlyTheHolderWrites(w: World, actions: seq<Action>, a: Action)
    requires Queued(w)
    ensures var w1 := Run(w, actions); var e, e' := w1.entry, Apply(w1, a).entry;
            && (e' != e <==> Acts(w1, a))
            && (e' != e ==>
                  && LeftBy(w.config, a, e, w1.now, e')
                  && (if a.Take? then Due(w.config, e, w1.now) else Holds(w1, a.worker) && e.status == Scanning)
                  && (e'.status == Scanning ==> Holds(Apply(w1, a), a.worker)))
  {
    RunKeeps(w, actions);
    WrittenIff(Run(w, actions), a);
    if Acts(Run(w, actions), a) { WrittenAs(Run(w, actions), a); }
  }

  lemma WrittenIff(w: World, a: Action)
    requires Inv(w)
    ensures Apply(w, a).entry != w.entry <==> Acts(w, a)
  {
  }

  lemma WrittenAs(w: World, a: Action)
    requires Inv(w) && Acts(w, a)
    ensures LeftBy(w.config, a, w.entry, w.now, Apply(w, a).entry)
    ensures if a.Take? then Due(w.config, w.entry, w.now) else Holds(w, a.worker) && w.entry.status == Scanning
    ensures Apply(w, a).entry.status == Scanning ==> Holds(Apply(w, a), a.worker)
  {
  }

  lemma RunTwo(w: World, a: Action, b: Action)
    ensures Run(w, [a, b]) == Apply(Apply(w, a), b)
  {
    assert [a, b][1..] == [b] && Run(Apply(w, a), [b]) == Run(Apply(Apply(w, a), b), []);
  }

  /**
   * In every reachable state the entry is there for the next worker to look exactly while it is due: it takes up
   * one attempt more and holds it, or parks the entry when there is none left.
   */
  lemma DueIsTaken(w: World, actions: seq<Action>, worker: Worker)
    requires Queued(w) && worker !in Run(w, actions).seen
    ensures var w1 := Run(w, actions); var w2, e := Run(w1, [Find(worker), Take(worker)]), w1.entry;
            if !Due(w.config, e, w1.now) then w2 == w1
            else if e.attempts == w.config.maxAttempts then DeadLettered(w2.entry) && w2.claims == w1.claims
            else Holds(w2, worker) && w2.entry.status == Scanning && w2.entry.attempts == e.attempts + 1
  {
    RunKeeps(w, actions);
    RunTwo(Run(w, actions), Find(worker), Take(worker));
  }

  /** The first failure waits for the backoff, and each one after it for twice as long as the one before. */
  lemma BackoffDoubles(w: World, worker: Worker, w': World, worker': Worker)
    requires Holds(w, worker) && Holds(w', worker') && w'.config == w.config
    requires w.entry.status == Scanning && w'.entry.status == Scanning
    requires 1 <= w.entry.attempts && w'.entry.attempts == w.entry.attempts + 1 < w.config.maxAttempts
    ensures var e, e' := Apply(w, Fail(worker)).entry, Apply(w', Fail(worker')).entry;
            && e.nextAttemptAt.Some? && e'.nextAttemptAt.Some?
            && e'.nextAttemptAt.value - w'.now == 2 * (e.nextAttemptAt.value - w.now)
            && (w.entry.attempts == 1 ==> e.nextAttemptAt.value == w.now + w.config.backoffMs)
  {
    var n := w.entry.attempts;
    assert Pow2(n) == 2 * Pow2(n - 1);
    assert w.config.backoffMs * (2 * Pow2(n - 1)) == 2 * (w.config.backoffMs * Pow2(n - 1));
  }

  /** From when on an entry nobody writes is found by one of the queries. */
  function DueFrom(config: Config, e: Entry): (t: int) {
    match e.status
    case Failed => if e.nextAttemptAt.Some? then e.nextAttemptAt.value else 0
    case Scanning => if e.leaseExpiresAt.Some? then e.leaseExpiresAt.value + 1 else e.dateModified + config.leaseMs + 1
    case _ => 0
  }

  /** No entry is forgotten: whatever state it is in, an entry is closed, or found by a query from some time on. */
  lemma DueAgain(config: Config, e: Entry, later: int)
    ensures !Closed(e) && e.status != Pending ==> (Due(config, e, later) <==> later >= DueFrom(config, e))
    ensures e.status == Pending ==> Due(config, e, later)
    ensures Closed(e) ==> !Due(config, e, later)
  {
  }
}
