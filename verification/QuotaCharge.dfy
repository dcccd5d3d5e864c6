/**
 * Charging a mailbox's quota once per ingest entry. Delivery attempts follow one another; each runs into
 * whatever faults its script says, including the death of the process at the points where that matters.
 * `used` are the bytes this entry has charged, `marker` the blob that records a charge not handed back.
 */
module QuotaCharge {

  datatype Charge = Charged | Exceeded | Gone | ChargeFails

  /** How far an attempt gets with filing: it fails first, it fails once the message row exists, or it gets through. */
  datatype Filing = NotFiled | FiledThenFails | GetsThrough

  datatype Script = Script(
    /** Fails or dies before the charge, at the latest when it looks for the marker. */
    failsFirst: bool,
    charge: Charge,
    diesAfterCharge: bool,
    markerWritten: bool,
    filing: Filing,
    diesBeforeRefund: bool,
    filedCheckWorks: bool,
    refundWorks: bool,
    diesAfterRefund: bool,
    markerRemoved: bool)

  datatype Books = Books(used: int, marker: bool, filed: bool)

  /** The charge is the message's size while a marker records it or its message is filed, and nothing otherwise. */
  predicate Balanced(b: Books, size: nat) {
    b.used == if b.marker || b.filed then size else 0
  }

  // ---- one attempt ----

  class Entry {
    var used: int
    var marker: bool
    var filed: bool

    constructor ()
      ensures State() == Books(0, false, false)
    {
      used, marker, filed := 0, false, false;
    }

    function State(): (b: Books)
      reads this
    {
      Books(used, marker, filed)
    }

    /** One attempt to deliver the message. `charged` is what a failed attempt hands back. */
    method Attempt(size: nat, script: Script)
      modifies this
      ensures State() == After(old(State()), size, script)
    {
      var failed, charged := DeliverMessage(size, script);
      if failed && !script.diesBeforeRefund {
        RefundUnfiled(charged, script);
      }
    }

    /** `failed` when it threw; a process that died is not there to refund. */
    method DeliverMessage(size: nat, script: Script) returns (failed: bool, charged: nat)
      modifies this
      ensures State() == Delivered(old(State()), size, script)
      ensures failed == Throws(old(State()), script)
      ensures charged == if ChargesFor(old(State()), script) then size else 0
    {
      failed, charged := false, 0;
      var alreadyFiled := filed;
      if script.failsFirst { return true, 0; }
      if !alreadyFiled {
        var outcome := Charged;
        if !marker {
          outcome := script.charge;
          if outcome == Charged { used := used + size; }
        }
        match outcome {
          case ChargeFails => return true, 0;
          case Gone => return false, 0;
          case Exceeded => return false, 0;
          case Charged =>
            charged := size;
            if script.diesAfterCharge { return false, size; }
            if !script.markerWritten { return true, size; }
            marker := true;
        }
      }
      if script.filing == NotFiled { return true, charged; }
      filed := true;
      failed := script.filing == FiledThenFails;
    }

    /** Never throws: whatever fails is left as it is. */
    method RefundUnfiled(charged: nat, script: Script)
      modifies this
      ensures State() == Refunded(old(State()), charged, script)
    {
      if charged <= 0 || !script.filedCheckWorks || filed { return; }
      if script.refundWorks {
        used := used - charged;
        if !script.diesAfterRefund && script.markerRemoved { marker := false; }
      }
    }
  }

  // ---- what an attempt amounts to ----

  /** The attempt takes the message as charged: by its own charge or an earlier one on record. */
  predicate ChargesFor(b: Books, script: Script) {
    !script.failsFirst && !b.filed && (b.marker || script.charge == Charged)
  }

  predicate Throws(b: Books, script: Script) {
    || script.failsFirst
    || (!b.filed && !b.marker && script.charge == ChargeFails)
    || (ChargesFor(b, script) && !script.diesAfterCharge && (!script.markerWritten || script.filing != GetsThrough))
    || (b.filed && script.filing != GetsThrough)
  }

  function Delivered(b: Books, size: nat, script: Script): (b': Books) {
    if !ChargesFor(b, script) then b
    else
      var marked := !script.diesAfterCharge && script.markerWritten;
      Books(if b.marker then b.used else b.used + size, b.marker || marked, marked && script.filing != NotFiled)
  }

  function Refunded(b: Books, charged: nat, script: Script): (b': Books) {
    if charged > 0 && script.filedCheckWorks && !b.filed && script.refundWorks
    then b.(used := b.used - charged, marker := b.marker && (script.diesAfterRefund || !script.markerRemoved)) else b
  }

  function After(b: Books, size: nat, script: Script): (b': Books) {
    var delivered := Delivered(b, size, script);
    if Throws(b, script) && !script.diesBeforeRefund
    then Refunded(delivered, if ChargesFor(b, script) then size else 0, script) else delivered
  }

  // ---- when the books stay balanced ----

  /** A failed attempt gets as far as handing the charge back. */
  predicate HandsBack(script: Script) {
    !script.diesBeforeRefund && script.filedCheckWorks && script.refundWorks
  }

  /** The attempt throws after the charge and before the message row exists. */
  predicate FailsUnfiled(script: Script) {
    !script.diesAfterCharge && (!script.markerWritten || script.filing == NotFiled)
  }

  /** The process dies between its charge and the marker. */
  predicate DiesUnmarked(b: Books, script: Script) {
    ChargesFor(b, script) && !b.marker && script.diesAfterCharge
  }

  /** The charge is handed back but the marker stays: the process dies in between or the removal fails. */
  predicate MarkerOutlivesRefund(b: Books, script: Script) {
    && ChargesFor(b, script) && FailsUnfiled(script) && HandsBack(script)
    && (b.marker || script.markerWritten) && (script.diesAfterRefund || !script.markerRemoved)
  }

  /** The marker is not written, and then the charge is not handed back either. */
  predicate UnmarkedAndKept(b: Books, script: Script) {
    ChargesFor(b, script) && !b.marker && !script.diesAfterCharge && !script.markerWritten && !HandsBack(script)
  }

  predicate Harmless(b: Books, script: Script) {
    !DiesUnmarked(b, script) && !MarkerOutlivesRefund(b, script) && !UnmarkedAndKept(b, script)
  }

  /** An attempt keeps the books balanced exactly when it meets none of the three faults. */
  lemma BalancedIff(b: Books, size: nat, script: Script)
    requires Balanced(b, size) && size > 0
    ensures Balanced(After(b, size, script), size) <==> Harmless(b, script)
  {
  }

  /** Nothing goes wrong from the charge on. */
  predicate Sound(script: Script) {
    !script.failsFirst && script.charge == Charged && !script.diesAfterCharge && script.markerWritten
      && script.filing == GetsThrough
  }

  /** An attempt nothing goes wrong in leaves the message filed and charged once, whatever was charged before. */
  lemma SoundAttemptFiles(b: Books, size: nat, script: Script)
    requires Balanced(b, size) && Sound(script)
    ensures After(b, size, script).used == size && After(b, size, script).filed
  {
  }

  /** One that files nothing charges nothing: no room, a mailbox that is gone, or a charge that is handed back. */
  lemma UnfiledIsNotCharged(b: Books, size: nat, script: Script)
    requires Balanced(b, size) && !b.filed
    ensures !script.failsFirst && !b.marker && script.charge in {Exceeded, Gone, ChargeFails} ==>
              After(b, size, script) == Books(0, false, false)
    ensures !script.failsFirst && (b.marker || script.charge == Charged) && FailsUnfiled(script) && HandsBack(script)
              && !script.diesAfterRefund && script.markerRemoved && size > 0 ==>
              After(b, size, script) == Books(0, false, false)
  {
  }

  /** Over any attempts, one after the other. */
  function AfterAll(b: Books, size: nat, scripts: seq<Script>): (b': Books)
    decreases |scripts|
  {
    if scripts == [] then b else AfterAll(After(b, size, scripts[0]), size, scripts[1..])
  }

  predicate AllHarmless(b: Books, size: nat, scripts: seq<Script>)
    decreases |scripts|
  {
    scripts == [] || (Harmless(b, scripts[0]) && AllHarmless(After(b, size, scripts[0]), size, scripts[1..]))
  }

  /** Balanced before every attempt and after the last. */
  predicate BalancedThroughout(b: Books, size: nat, scripts: seq<Script>) {
    forall n :: 0 <= n <= |scripts| ==> Balanced(AfterAll(b, size, scripts[..n]), size)
  }

  /**
   * No retry charges twice: the entry's charge is its message's size or nothing, as its marker and its
   * message say, over any attempts without one of the three faults - and only then.
   */
  lemma {:induction false} ChargedOnce(b: Books, size: nat, scripts: seq<Script>)
    requires Balanced(b, size) && size > 0
    ensures AllHarmless(b, size, scripts) <==> BalancedThroughout(b, size, scripts)
    decreases |scripts|
  {
    if scripts != [] {
      var b', rest := After(b, size, scripts[0]), scripts[1..];
      BalancedIff(b, size, scripts[0]);
      forall n | 1 <= n <= |scripts| ensures AfterAll(b, size, scripts[..n]) == AfterAll(b', size, rest[..n - 1]) {
        assert scripts[..n][1..] == rest[..n - 1];
      }
      if Balanced(b', size) {
        ChargedOnce(b', size, rest);
        if BalancedThroughout(b, size, scripts) {
          forall m | 0 <= m <= |rest| ensures Balanced(AfterAll(b', size, rest[..m]), size) {
            assert Balanced(AfterAll(b, size, scripts[..m + 1]), size);
          }
        }
      } else {
        assert AfterAll(b, size, scripts[..1]) == AfterAll(b', size, rest[..0]) == b';
      }
    }
  }

  /** A filed message is final: it stays charged once, whatever the later attempts run into. */
  lemma {:induction false} FiledStaysCharged(b: Books, size: nat, scripts: seq<Script>)
    requires Balanced(b, size) && b.filed
    ensures AfterAll(b, size, scripts).used == size && AfterAll(b, size, scripts).filed
    decreases |scripts|
  {
    if scripts != [] { FiledStaysCharged(After(b, size, scripts[0]), size, scripts[1..]); }
  }

  /**
   * A marker write that fails, then a refund that fails, is enough to charge a message twice, with no
   * death in between and no marker left behind by a refund.
   */
  lemma ChargedTwice(size: nat) returns (scripts: seq<Script>)
    requires size > 0
    ensures forall s, b :: s in scripts ==> !DiesUnmarked(b, s) && !MarkerOutlivesRefund(b, s)
    ensures AfterAll(Books(0, false, false), size, scripts) == Books(2 * size, true, true)
  {
    var first := Script(false, Charged, false, false, NotFiled, false, true, false, false, true);
    var second := Script(false, Charged, false, true, GetsThrough, false, true, true, false, true);
    scripts := [first, second];
    var b1 := After(Books(0, false, false), size, first);
    assert scripts[1..] == [second] && AfterAll(b1, size, [second]) == AfterAll(After(b1, size, second), size, []);
  }
}
