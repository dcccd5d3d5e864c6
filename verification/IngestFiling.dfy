/**
 * Re-executable filing of one ingest entry. Every row has a uid derived from the entry's own and is
 * looked up before it is created; an attempt can be cut off between any two round trips to the store
 * (`left` of them remain), and the next attempt starts from the top. The store itself refuses nothing:
 * a second row under the same uid would simply be a second row.
 */
module IngestFiling {
  type Folder = nat

  /** The derived uids: injective in what they are derived from. */
  datatype MessageUid = Target | CopyTo(folder: Folder)

  datatype Uid =
    | ScanUid
    | QuarantineUid
    | MessageRowUid(message: MessageUid)
    | AttachmentUid(message: MessageUid, position: nat)

  datatype Row =
    | ScanResult
    | QuarantineEntry
    | Message(uid: MessageUid, folder: Folder)
    | Attachment(message: MessageUid, position: nat, folder: Folder)

  function UidOf(row: Row): (uid: Uid) {
    match row
    case ScanResult => ScanUid
    case QuarantineEntry => QuarantineUid
    case Message(uid, _) => MessageRowUid(uid)
    case Attachment(message, position, _) => AttachmentUid(message, position)
  }

  datatype Verdict = Deliver | Junk | Quarantine

  datatype Quota = Charged | Exceeded | Gone

  /**
   * What stays the same over the attempts at an entry: the verdict, whether the message is a control
   * message that is never filed (a recall, a receipt, a challenge), what the mailbox's rules say, its
   * live folders, how many attachments there are and how the quota charge ends.
   */
  datatype Plan = Plan(verdict: Verdict, control: bool, ruleDeletes: bool, ruleCopies: seq<Folder>, target: Folder,
                       live: set<Folder>, attachments: nat, quota: Quota)

  /** Junk runs no rules. */
  predicate Deletes(p: Plan) { p.verdict != Junk && p.ruleDeletes }

  function Copies(p: Plan): (folders: seq<Folder>) { if p.verdict == Junk then [] else p.ruleCopies }

  /** Whether the message is filed at all: to its folder, or as rule copies. */
  predicate Files(p: Plan) {
    && p.verdict != Quarantine && !(p.verdict == Deliver && p.control)
    && (Deletes(p) || p.quota == Charged)
  }

  // ---- what should be there ----

  /** The rows an entry should end up with. */
  predicate Wanted(p: Plan, row: Row) {
    match row
    case ScanResult => true
    case QuarantineEntry => p.verdict == Quarantine
      || (!(p.verdict == Deliver && p.control) && !Deletes(p) && p.quota == Exceeded)
    case Message(uid, folder) => WantedMessage(p, uid, folder)
    case Attachment(message, position, folder) => position < p.attachments && WantedMessage(p, message, folder)
  }

  predicate WantedMessage(p: Plan, uid: MessageUid, folder: Folder) {
    && Files(p)
    && match uid
       case Target => !Deletes(p) && folder == p.target
       case CopyTo(f) => folder == f && f in Copies(p) && f in p.live
  }

  /** One wanted row per uid. */
  lemma WantedOnce(p: Plan, a: Row, b: Row)
    requires Wanted(p, a) && Wanted(p, b) && UidOf(a) == UidOf(b)
    ensures a == b
  {
  }

  /**
   * The rows by verdict. A quarantined message and a control message that would be delivered are never filed. Junk
   * runs no rule; a rule that deletes keeps the message out of its folder, and its copies are charged nowhere.
   */
  lemma WantedByVerdict(p: Plan, f: Folder, g: Folder)
    ensures Wanted(p, ScanResult)
    ensures var plain := !(p.verdict == Deliver && (p.control || p.ruleDeletes)) && p.verdict != Quarantine;
            && (Wanted(p, Message(Target, f)) <==> plain && p.quota == Charged && f == p.target)
            && (Wanted(p, QuarantineEntry) <==> p.verdict == Quarantine || (plain && p.quota == Exceeded))
    ensures Wanted(p, Message(CopyTo(f), g)) <==>
              && p.verdict == Deliver && !p.control && (p.ruleDeletes || p.quota == Charged)
              && f == g && f in p.ruleCopies && f in p.live
    ensures forall uid, i: nat :: Wanted(p, Attachment(uid, i, f)) <==> i < p.attachments && Wanted(p, Message(uid, f))
  {
  }

  // ---- the order they are made in ----

  function AttachmentSteps(message: MessageUid, folder: Folder, n: nat): (steps: seq<Row>)
    ensures |steps| == n && forall i :: 0 <= i < n ==> steps[i] == Attachment(message, i, folder)
  {
    if n == 0 then [] else AttachmentSteps(message, folder, n - 1) + [Attachment(message, n - 1, folder)]
  }

  function FilingSteps(message: MessageUid, folder: Folder, n: nat): (steps: seq<Row>) {
    [Message(message, folder)] + AttachmentSteps(message, folder, n)
  }

  function CopySteps(p: Plan, folders: seq<Folder>): (steps: seq<Row>) {
    if folders == [] then []
    else
      var f := folders[|folders| - 1];
      CopySteps(p, folders[..|folders| - 1]) + (if f in p.live then FilingSteps(CopyTo(f), f, p.attachments) else [])
  }

  function PrimarySteps(p: Plan): (steps: seq<Row>) {
    if Deletes(p) then [] else FilingSteps(Target, p.target, p.attachments)
  }

  /** The rows one uninterrupted attempt makes sure of, in its order. */
  function Steps(p: Plan): (steps: seq<Row>) {
    [ScanResult] +
    if Wanted(p, QuarantineEntry) then [QuarantineEntry]
    else if Files(p) then PrimarySteps(p) + CopySteps(p, Copies(p)) else []
  }

  predicate Has(rows: seq<Row>, uid: Uid) { exists r :: r in rows && UidOf(r) == uid }

  /** Find by uid, create if missing. */
  function Ensured(rows: seq<Row>, row: Row): (r: seq<Row>) {
    if Has(rows, UidOf(row)) then rows else rows + [row]
  }

  function EnsureAll(steps: seq<Row>): (rows: seq<Row>) {
    if steps == [] then [] else Ensured(EnsureAll(steps[..|steps| - 1]), steps[|steps| - 1])
  }

  predicate OncePerUid(rows: seq<Row>) {
    forall i, j :: 0 <= i < j < |rows| ==> UidOf(rows[i]) != UidOf(rows[j])
  }

  lemma {:induction false} EnsuredRows(steps: seq<Row>)
    ensures OncePerUid(EnsureAll(steps))
    ensures forall r :: r in EnsureAll(steps) ==> r in steps
    ensures forall r :: r in steps ==> Has(EnsureAll(steps), UidOf(r))
  {
    if steps != [] {
      var n := |steps| - 1;
      EnsuredRows(steps[..n]);
      assert steps == steps[..n] + [steps[n]];
    }
  }

  /** The rows of the copies into `folders`. */
  predicate IsCopy(p: Plan, folders: seq<Folder>, row: Row) {
    match row
    case Message(CopyTo(f), folder) => folder == f && f in folders && f in p.live
    case Attachment(CopyTo(f), position, folder) => folder == f && f in folders && f in p.live
      && position < p.attachments
    case _ => false
  }

  lemma {:induction false} CopyStepsAre(p: Plan, folders: seq<Folder>, row: Row)
    ensures row in CopySteps(p, folders) <==> IsCopy(p, folders, row)
  {
    if folders != [] {
      var n := |folders| - 1;
      var f := folders[n];
      CopyStepsAre(p, folders[..n], row);
      FilingStepsAre(CopyTo(f), f, p.attachments, row);
      var own := if f in p.live then FilingSteps(CopyTo(f), f, p.attachments) else [];
      assert row in CopySteps(p, folders) <==> row in CopySteps(p, folders[..n]) || row in own;
      assert forall g :: g in folders <==> g in folders[..n] || g == f;
    }
  }

  lemma FilingStepsAre(message: MessageUid, folder: Folder, n: nat, row: Row)
    ensures row in FilingSteps(message, folder, n) <==>
      row == Message(message, folder)
        || (row.Attachment? && row.message == message && row.folder == folder && row.position < n)
  {
    if row.Attachment? && row.position < n {
      assert AttachmentSteps(message, folder, n)[row.position] == Attachment(message, row.position, folder);
    }
  }

  /** An uninterrupted attempt makes sure of exactly the wanted rows. */
  lemma StepsAreWanted(p: Plan, row: Row)
    ensures row in Steps(p) <==> Wanted(p, row)
  {
    FilingStepsAre(Target, p.target, p.attachments, row);
    CopyStepsAre(p, Copies(p), row);
  }

  /** ... so it leaves each of them once and nothing else. */
  lemma UninterruptedLeaves(p: Plan)
    ensures OncePerUid(EnsureAll(Steps(p)))
    ensures forall row :: row in EnsureAll(Steps(p)) <==> Wanted(p, row)
  {
    EnsuredRows(Steps(p));
    forall row ensures row in EnsureAll(Steps(p)) <==> Wanted(p, row) {
      StepsAreWanted(p, row);
      if Wanted(p, row) {
        var made :| made in EnsureAll(Steps(p)) && UidOf(made) == UidOf(row);
        StepsAreWanted(p, made);
        WantedOnce(p, made, row);
      }
    }
  }

  // ---- the attempts ----

  lemma NextEnsured(steps: seq<Row>, at: nat)
    requires at < |steps|
    ensures EnsureAll(steps[..at + 1]) == Ensured(EnsureAll(steps[..at]), steps[at])
  {
    assert steps[..at + 1][..at] == steps[..at];
  }

  lemma ReachedIsThere(steps: seq<Row>, at: nat, reached: nat)
    requires at < reached <= |steps|
    ensures Has(EnsureAll(steps[..reached]), UidOf(steps[at]))
  {
    EnsuredRows(steps[..reached]);
    assert steps[..reached][at] == steps[at];
  }

  class Store {
    var rows: seq<Row>
    /** Round trips before the attempt under way is cut off. */
    var left: nat
    /** How far the furthest attempt has come. */
    ghost var reached: nat

    constructor ()
      ensures rows == [] && reached == 0
    {
      rows, left, reached := [], 0, 0;
    }

    /** The store is what one uninterrupted attempt would have made by some point. */
    ghost predicate Valid(p: Plan)
      reads this
    {
      reached <= |Steps(p)| && rows == EnsureAll(Steps(p)[..reached])
    }

    method Exists(uid: Uid) returns (ok: bool, found: bool)
      modifies this`left
      ensures ok ==> found == Has(rows, uid)
      ensures ok == (old(left) > 0) && left == if ok then old(left) - 1 else 0
    {
      ok, found := left > 0, false;
      if ok {
        left := left - 1;
        found := exists i :: 0 <= i < |rows| && UidOf(rows[i]) == uid;
      }
    }

    /** The row this attempt has come to: looked up, and made unless it is there. */
    method Ensure(row: Row, p: Plan, ghost at: nat) returns (ok: bool)
      requires Valid(p) && at <= reached && at < |Steps(p)| && Steps(p)[at] == row
      modifies this
      ensures Valid(p) && reached >= old(reached)
      ensures if ok then at + 1 <= reached else left == 0
      ensures left <= old(left) <= left + 2
    {
      var found;
      ok, found := Exists(UidOf(row));
      if ok {
        ok := Settle(row, found, p, at);
      }
    }

    /** Creates the row this attempt has come to unless it was `found`. */
    method Settle(row: Row, found: bool, p: Plan, ghost at: nat) returns (ok: bool)
      requires Valid(p) && at <= reached && at < |Steps(p)| && Steps(p)[at] == row
      requires found == Has(rows, UidOf(row))
      modifies this
      ensures Valid(p) && reached >= old(reached)
      ensures if ok then at + 1 <= reached else left == 0
      ensures left <= old(left) <= left + 1
    {
      NextEnsured(Steps(p), at);
      if at < reached { ReachedIsThere(Steps(p), at, reached); }
      if found {
        ok := true;
      } else {
        ok := left > 0;
        if ok {
          left := left - 1;
          rows := rows + [row];
        }
      }
      if ok && at == reached { reached := reached + 1; }
    }

    /** The attachments of a message, by position. */
    method AttachRows(message: MessageUid, folder: Folder, p: Plan, ghost at: nat) returns (ok: bool)
      requires Valid(p) && at <= reached && at + p.attachments <= |Steps(p)|
      requires Steps(p)[at..at + p.attachments] == AttachmentSteps(message, folder, p.attachments)
      modifies this
      ensures Valid(p) && reached >= old(reached)
      ensures if ok then at + p.attachments <= reached else left == 0
      ensures left <= old(left) <= left + 2 * p.attachments
    {
      ok := true;
      var index := 0;
      while index < p.attachments && ok
        invariant index <= p.attachments && Valid(p) && reached >= old(reached)
        invariant if ok then at + index <= reached else left == 0
        invariant left <= old(left) <= left + 2 * index
      {
        AttachmentAt(Steps(p), at, p.attachments, message, folder, index);
        ok := Ensure(Attachment(message, index, folder), p, at + index);
        index := index + 1;
      }
    }

    /** One rule copy with its attachments; a folder that is gone or another mailbox's is passed over. */
    method FileCopy(p: Plan, i: nat) returns (ok: bool)
      requires Valid(p) && Files(p) && i < |Copies(p)| && CopyAt(p, i) <= reached
      modifies this
      ensures Valid(p) && reached >= old(reached)
      ensures if ok then CopyAt(p, i + 1) <= reached else left == 0
      ensures left <= old(left) <= left + 2 * (CopyAt(p, i + 1) - CopyAt(p, i))
    {
      CopySegment(p, i);
      ok := true;
      var folder := Copies(p)[i];
      if folder in p.live {
        ghost var at := CopyAt(p, i);
        ok := FileMessage(CopyTo(folder), folder, p, at);
      }
    }

    method FileMessage(uid: MessageUid, folder: Folder, p: Plan, ghost at: nat) returns (ok: bool)
      requires Valid(p) && at <= reached && at + 1 + p.attachments <= |Steps(p)|
      requires Steps(p)[at..at + 1 + p.attachments] == FilingSteps(uid, folder, p.attachments)
      modifies this
      ensures Valid(p) && reached >= old(reached)
      ensures if ok then at + 1 + p.attachments <= reached else left == 0
      ensures left <= old(left) <= left + 2 * (1 + p.attachments)
    {
      SegmentParts(Steps(p), at, uid, folder, p.attachments);
      ok := Ensure(Message(uid, folder), p, at);
      if ok { ok := AttachRows(uid, folder, p, at + 1); }
    }

    /** Files the message; true when the attempt got through. */
    method DeliverMessage(p: Plan) returns (ok: bool)
      requires Valid(p) && 1 <= reached && p.verdict != Quarantine && !(p.verdict == Deliver && p.control)
      modifies this
      ensures Valid(p) && reached >= old(reached)
      ensures if ok then reached == |Steps(p)| else left == 0
      ensures left <= old(left) <= left + 2 * |Steps(p)| - 1
    {
      var filed;
      ok, filed := Exists(MessageRowUid(Target));
      if !ok { return; }
      if filed { FiledIsWanted(p, reached); }
      if Deletes(p) && Copies(p) == [] { return true; }
      if !filed && !Deletes(p) {
        if p.quota == Gone { return true; }
        if p.quota == Exceeded {
          ok := Ensure(QuarantineEntry, p, 1);
          return;
        }
      }
      ok := FileEverywhere(p, filed);
    }

    /** The message in its folder, unless a rule deletes it, and the rule copies. */
    method FileEverywhere(p: Plan, filed: bool) returns (ok: bool)
      requires Valid(p) && 1 <= reached && Files(p) && filed == Has(rows, MessageRowUid(Target))
      modifies this
      ensures Valid(p) && reached >= old(reached)
      ensures if ok then reached == |Steps(p)| else left == 0
      ensures left <= old(left) <= left + 2 * (|Steps(p)| - 1)
    {
      PrimarySegment(p);
      ok := true;
      if !Deletes(p) {
        SegmentParts(Steps(p), 1, Target, p.target, p.attachments);
        ok := Settle(Message(Target, p.target), filed, p, 1);
        if ok { ok := AttachRows(Target, p.target, p, 2); }
      }
      if ok { ok := FileCopies(p); }
    }

    /** The rule copies. */
    method FileCopies(p: Plan) returns (ok: bool)
      requires Valid(p) && Files(p) && CopyAt(p, 0) <= reached
      modifies this
      ensures Valid(p) && reached >= old(reached)
      ensures if ok then reached == |Steps(p)| else left == 0
      ensures left <= old(left) <= left + 2 * (|Steps(p)| - CopyAt(p, 0))
    {
      PrimarySegment(p);
      ok := true;
      var i := 0;
      while i < |Copies(p)| && ok
        invariant i <= |Copies(p)| && Valid(p) && reached >= old(reached)
        invariant if ok then CopyAt(p, i) <= reached else left == 0
        invariant CopyAt(p, i) <= |Steps(p)| && left <= old(left) <= left + 2 * (CopyAt(p, i) - CopyAt(p, 0))
      {
        CopySegment(p, i);
        ok := FileCopy(p, i);
        i := i + 1;
      }
    }

    /**
     * One attempt at the entry, cut off after `budget` round trips at the latest. It takes at most two for each
     * row and one more, and with those it gets through.
     */
    method ProcessEntry(p: Plan, budget: nat) returns (ok: bool)
      requires Valid(p)
      modifies this
      ensures Valid(p) && reached >= old(reached)
      ensures ok ==> reached == |Steps(p)|
      ensures budget > 2 * |Steps(p)| + 1 ==> ok
    {
      left := budget;
      ok := Ensure(ScanResult, p, 0);
      if !ok { return; }
      if p.verdict == Quarantine {
        ok := Ensure(QuarantineEntry, p, 1);
      } else if !(p.verdict == Deliver && p.control) {
        ok := DeliverMessage(p);
      }
    }

    /**
     * Any number of attempts, each cut off anywhere. No uid ever has a second row and every row is a
     * wanted one; once an attempt gets through, as one that is not cut off early does, the rows are exactly
     * those one uninterrupted attempt leaves, in the same order.
     */
    method Attempts(p: Plan, budgets: seq<nat>) returns (ok: bool)
      requires Valid(p)
      modifies this
      ensures Valid(p)
      ensures OncePerUid(rows) && forall row :: row in rows ==> Wanted(p, row)
      ensures ok ==> rows == EnsureAll(Steps(p)) && forall row :: row in rows <==> Wanted(p, row)
      ensures (exists i :: 0 <= i < |budgets| && budgets[i] > 2 * |Steps(p)| + 1) ==> ok
    {
      ok := false;
      for i := 0 to |budgets|
        invariant Valid(p) && (ok ==> reached == |Steps(p)|)
        invariant (exists j :: 0 <= j < i && budgets[j] > 2 * |Steps(p)| + 1) ==> ok
      {
        var done := ProcessEntry(p, budgets[i]);
        ok := ok || done;
      }
      EnsuredRows(Steps(p)[..reached]);
      UninterruptedLeaves(p);
      forall row | row in rows ensures Wanted(p, row) { StepsAreWanted(p, row); }
      assert ok ==> Steps(p)[..reached] == Steps(p);
    }
  }

  // ---- where each part of an attempt stands ----

  /** How many rows come before the i-th rule copy. */
  ghost function CopyAt(p: Plan, i: nat): (at: nat)
    requires i <= |Copies(p)|
  {
    1 + |PrimarySteps(p)| + |CopySteps(p, Copies(p)[..i])|
  }

  lemma {:induction false} CopyStepsSplit(p: Plan, folders: seq<Folder>, i: nat)
    requires i < |folders|
    ensures CopySteps(p, folders[..i + 1])
         == CopySteps(p, folders[..i])
           + (if folders[i] in p.live then FilingSteps(CopyTo(folders[i]), folders[i], p.attachments) else [])
    ensures CopySteps(p, folders[..i + 1]) <= CopySteps(p, folders)
    decreases |folders| - i
  {
    assert folders[..i + 1][..i] == folders[..i];
    if i + 1 == |folders| {
      assert folders[..i + 1] == folders;
    } else {
      CopyStepsSplit(p, folders, i + 1);
    }
  }

  /** Where `own` stands in a list that goes on after it. */
  lemma SegmentOf<T>(before: seq<T>, all: seq<T>, prefix: seq<T>, own: seq<T>)
    requires prefix + own <= all
    ensures var at := |before| + |prefix|;
            at + |own| <= |before + all| && (before + all)[at..at + |own|] == own
  {
    assert all == prefix + own + all[|prefix + own|..];
    assert before + all == (before + prefix) + own + all[|prefix + own|..];
  }

  lemma StepsAreParts(p: Plan)
    requires Files(p)
    ensures Steps(p) == ([ScanResult] + PrimarySteps(p)) + CopySteps(p, Copies(p))
  {
    assert [ScanResult] + (PrimarySteps(p) + CopySteps(p, Copies(p)))
        == ([ScanResult] + PrimarySteps(p)) + CopySteps(p, Copies(p));
  }

  lemma CopySegment(p: Plan, i: nat)
    requires Files(p) && i < |Copies(p)|
    ensures var f, at, end := Copies(p)[i], CopyAt(p, i), CopyAt(p, i + 1);
            && at <= end <= |Steps(p)|
            && end == (if f in p.live then at + 1 + p.attachments else at)
            && (f in p.live ==> Steps(p)[at..end] == FilingSteps(CopyTo(f), f, p.attachments))
  {
    var f := Copies(p)[i];
    var own := if f in p.live then FilingSteps(CopyTo(f), f, p.attachments) else [];
    CopyStepsSplit(p, Copies(p), i);
    StepsAreParts(p);
    SegmentOf([ScanResult] + PrimarySteps(p), CopySteps(p, Copies(p)), CopySteps(p, Copies(p)[..i]), own);
  }

  lemma PrimarySegment(p: Plan)
    requires Files(p)
    ensures CopyAt(p, 0) == 1 + |PrimarySteps(p)| <= |Steps(p)|
    ensures Steps(p)[1..1 + |PrimarySteps(p)|] == PrimarySteps(p)
    ensures CopyAt(p, |Copies(p)|) == |Steps(p)|
  {
    assert Copies(p)[..0] == [] && Copies(p)[..|Copies(p)|] == Copies(p);
    StepsAreParts(p);
    SegmentOf([ScanResult], PrimarySteps(p) + CopySteps(p, Copies(p)), [], PrimarySteps(p));
  }

  lemma SegmentParts(steps: seq<Row>, at: nat, uid: MessageUid, folder: Folder, n: nat)
    requires at + 1 + n <= |steps| && steps[at..at + 1 + n] == FilingSteps(uid, folder, n)
    ensures steps[at] == Message(uid, folder) && steps[at + 1..at + 1 + n] == AttachmentSteps(uid, folder, n)
  {
    assert steps[at] == steps[at..at + 1 + n][0];
    assert steps[at + 1..at + 1 + n] == steps[at..at + 1 + n][1..];
  }

  lemma AttachmentAt(steps: seq<Row>, at: nat, n: nat, message: MessageUid, folder: Folder, index: nat)
    requires at + n <= |steps| && steps[at..at + n] == AttachmentSteps(message, folder, n) && index < n
    ensures steps[at + index] == Attachment(message, index, folder)
  {
    assert steps[at + index] == steps[at..at + n][index];
  }

  /** A primary message that is there was meant to be filed. */
  lemma FiledIsWanted(p: Plan, reached: nat)
    requires reached <= |Steps(p)| && Has(EnsureAll(Steps(p)[..reached]), MessageRowUid(Target))
    ensures Files(p) && !Deletes(p)
  {
    EnsuredRows(Steps(p)[..reached]);
    var row :| row in EnsureAll(Steps(p)[..reached]) && UidOf(row) == MessageRowUid(Target);
    assert row in Steps(p)[..reached];
    StepsAreWanted(p, row);
  }
}
