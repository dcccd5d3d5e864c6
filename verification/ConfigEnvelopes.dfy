/**
 * Sealed configuration values and the row lens the re-encryption pass reads and writes them through
 * (the DNS provider source). An envelope is its key's id, the place it is bound to and what it seals:
 * it opens exactly where it was sealed for, and only with its key.
 */
module ConfigEnvelopes {
  import opened Options

  /** The id of a key: eight hexadecimal digits. */
  type Kid = nat

  /** The associated data of an envelope: record type, row and field path. */
  datatype Context = Context(record: int, uid: int, field: string)

  datatype Envelope = Envelope(kid: Kid, context: Context, plaintext: string)

  datatype Value = Plain(text: string) | Sealed(envelope: Envelope)

  /** One entry of a row's `credentials`, in the object's own order. */
  datatype Slot = Slot(name: string, value: Value)

  datatype Row = Row(version: nat, credentials: seq<Slot>)

  /** One envelope of a row with the field path it is bound to. */
  datatype Ref = Ref(field: string, envelope: Envelope)

  const PREFIX := "credentials."

  function Open(ring: set<Kid>, e: Envelope, where: Context): (r: Option<string>) {
    if e.kid in ring && e.context == where then Some(e.plaintext) else None
  }

  predicate Distinct(slots: seq<Slot>) {
    forall i, j :: 0 <= i < j < |slots| ==> slots[i].name != slots[j].name
  }

  function Path(s: Slot): string { PREFIX + s.name }

  lemma PathInjective(s: Slot, t: Slot)
    ensures Path(s) == Path(t) <==> s.name == t.name
  {
    assert Path(s)[|PREFIX|..] == s.name && Path(t)[|PREFIX|..] == t.name;
  }

  /** The envelopes of a row, each under its field path; plain values are not listed. */
  function Envelopes(slots: seq<Slot>): (refs: seq<Ref>)
    ensures |refs| <= |slots|
  {
    if slots == [] then []
    else
      var rest := Envelopes(slots[1..]);
      if slots[0].value.Sealed? then [Ref(Path(slots[0]), slots[0].value.envelope)] + rest else rest
  }

  /** Every listed envelope is the value of the slot its path names. */
  lemma {:induction false} SlotOf(slots: seq<Slot>, r: Ref) returns (s: Slot)
    requires r in Envelopes(slots)
    ensures s in slots && s.value == Sealed(r.envelope) && Path(s) == r.field
  {
    if slots[0].value.Sealed? && r == Ref(Path(slots[0]), slots[0].value.envelope) {
      s := slots[0];
    } else {
      s := SlotOf(slots[1..], r);
    }
  }

  /** `slots` with the values at the paths in `replacements` exchanged, everything else as it is. */
  function Replaced(slots: seq<Slot>, replacements: map<string, Envelope>): (r: seq<Slot>)
    ensures |r| == |slots|
  {
    if slots == [] then []
    else
      [if Path(slots[0]) in replacements then slots[0].(value := Sealed(replacements[Path(slots[0])])) else slots[0]]
      + Replaced(slots[1..], replacements)
  }

  lemma {:induction false} ReplacedAt(slots: seq<Slot>, replacements: map<string, Envelope>, i: nat)
    requires i < |slots|
    ensures Replaced(slots, replacements)[i]
         == if Path(slots[i]) in replacements then slots[i].(value := Sealed(replacements[Path(slots[i])]))
           else slots[i]
  {
    if i > 0 { ReplacedAt(slots[1..], replacements, i - 1); }
  }

  function IndexOf(slots: seq<Slot>, name: string): (i: nat)
    ensures i <= |slots|
    ensures i < |slots| ==> slots[i].name == name
    ensures i == |slots| ==> forall j :: 0 <= j < |slots| ==> slots[j].name != name
  {
    if slots == [] || slots[0].name == name then 0 else 1 + IndexOf(slots[1..], name)
  }

  /**
   * The source's own loop over the replacements: a path without the prefix, or of no field of the row,
   * changes nothing.
   */
  method Replace(slots: seq<Slot>, replacements: map<string, Envelope>) returns (r: seq<Slot>)
    requires Distinct(slots)
    ensures r == Replaced(slots, replacements)
  {
    r := slots;
    var todo := replacements.Keys;
    while todo != {}
      invariant todo <= replacements.Keys && |r| == |slots|
      invariant forall i :: 0 <= i < |slots| ==>
                  r[i] == if Path(slots[i]) in replacements.Keys - todo
                          then slots[i].(value := Sealed(replacements[Path(slots[i])])) else slots[i]
      decreases todo
    {
      var path :| path in todo;
      if PREFIX <= path {
        var name := path[|PREFIX|..];
        assert path == PREFIX + name;
        var i := IndexOf(slots, name);
        if i < |slots| {
          r := r[i := slots[i].(value := Sealed(replacements[path]))];
        }
      }
      todo := todo - {path};
    }
    forall i | 0 <= i < |slots| ensures r[i] == Replaced(slots, replacements)[i] {
      ReplacedAt(slots, replacements, i);
    }
  }

  function Exchange(r: Ref, replacements: map<string, Envelope>): (e: Ref) {
    if r.field in replacements then r.(envelope := replacements[r.field]) else r
  }

  /** The refs of a row after a replacement of some of them: same fields in the same order, the named ones exchanged. */
  function Exchanged(refs: seq<Ref>, replacements: map<string, Envelope>): (r: seq<Ref>)
    ensures |r| == |refs|
    ensures forall i :: 0 <= i < |refs| ==> r[i] == Exchange(refs[i], replacements)
  {
    if refs == [] then [] else [Exchange(refs[0], replacements)] + Exchanged(refs[1..], replacements)
  }

  /**
   * The lens law: reading back a row whose envelopes were replaced finds exactly the replacements, as
   * long as every replaced path named an envelope (a plain value would become one).
   */
  lemma {:induction false} ReadsBackReplaced(slots: seq<Slot>, replacements: map<string, Envelope>)
    requires forall s :: s in slots && s.value.Plain? ==> Path(s) !in replacements
    ensures Envelopes(Replaced(slots, replacements)) == Exchanged(Envelopes(slots), replacements)
  {
    if slots != [] {
      ReadsBackReplaced(slots[1..], replacements);
      var r := Replaced(slots, replacements);
      assert r[1..] == Replaced(slots[1..], replacements);
      if slots[0].value.Sealed? {
        assert Envelopes(slots)[1..] == Envelopes(slots[1..]);
      }
    }
  }

  /**
   * What this process's cipher answers for one envelope: it cannot read it, or re-sealed it under the key it
   * encrypts with.
   */
  datatype Outcome = Unavailable | Resealed(kid: Kid)

  /**
   * The replacement for `r`, if there is one: decryption fails wherever the envelope is bound to another
   * place (authenticated data), and a value re-sealed under a key other than the target is not kept.
   */
  function Fresh(r: Ref, record: int, uid: int, target: Kid, outcome: Outcome): (fresh': Option<Envelope>) {
    var where := Context(record, uid, r.field);
    if r.envelope.context == where && outcome == Resealed(target) && r.envelope.kid != target
    then Some(Envelope(target, where, r.envelope.plaintext)) else None
  }

  /** The replacements one row gets. */
  function Replacements(refs: seq<Ref>, record: int, uid: int, target: Kid, cipher: string -> Outcome)
    : (m: map<string, Envelope>)
  {
    if refs == [] then map[]
    else
      var n := |refs| - 1;
      var before := Replacements(refs[..n], record, uid, target, cipher);
      var f := Fresh(refs[n], record, uid, target, cipher(refs[n].field));
      if f.Some? then before[refs[n].field := f.value] else before
  }

  /** The row's `credentials` after re-encryption. */
  function Reencrypted(slots: seq<Slot>, record: int, uid: int, target: Kid, cipher: string -> Outcome): (r: seq<Slot>)
  {
    Replaced(slots, Replacements(Envelopes(slots), record, uid, target, cipher))
  }

  lemma {:induction false} ReplacementsAre(refs: seq<Ref>, record: int, uid: int, target: Kid,
                                           cipher: string -> Outcome, field: string)
    requires field in Replacements(refs, record, uid, target, cipher)
    ensures exists i :: 0 <= i < |refs| && refs[i].field == field
              && Fresh(refs[i], record, uid, target, cipher(field))
                   == Some(Replacements(refs, record, uid, target, cipher)[field])
  {
    var n := |refs| - 1;
    var f := Fresh(refs[n], record, uid, target, cipher(refs[n].field));
    if !(f.Some? && refs[n].field == field) {
      ReplacementsAre(refs[..n], record, uid, target, cipher, field);
    }
  }

  /** Only envelopes are replaced, never a plain value. */
  lemma PlainNotReplaced(slots: seq<Slot>, record: int, uid: int, target: Kid, cipher: string -> Outcome, s: Slot)
    requires Distinct(slots) && s in slots && s.value.Plain?
    ensures Path(s) !in Replacements(Envelopes(slots), record, uid, target, cipher)
  {
    if Path(s) in Replacements(Envelopes(slots), record, uid, target, cipher) {
      ReplacementOfSlot(slots, record, uid, target, cipher, s);
    }
  }

  lemma {:induction false} FreshIsReplaced(refs: seq<Ref>, record: int, uid: int, target: Kid,
                                           cipher: string -> Outcome, r: Ref)
    requires r in refs && Fresh(r, record, uid, target, cipher(r.field)).Some?
    ensures r.field in Replacements(refs, record, uid, target, cipher)
  {
    if r != refs[|refs| - 1] {
      FreshIsReplaced(refs[..|refs| - 1], record, uid, target, cipher, r);
    }
  }

  lemma {:induction false} RefOfSlot(slots: seq<Slot>, s: Slot)
    requires s in slots && s.value.Sealed?
    ensures Ref(Path(s), s.value.envelope) in Envelopes(slots)
  {
    if s != slots[0] { RefOfSlot(slots[1..], s); }
  }

  /** What replaces the envelope of a slot is made of that envelope. */
  lemma ReplacementOfSlot(slots: seq<Slot>, record: int, uid: int, target: Kid, cipher: string -> Outcome, s: Slot)
    requires Distinct(slots) && s in slots && Path(s) in Replacements(Envelopes(slots), record, uid, target, cipher)
    ensures s.value.Sealed?
    ensures Fresh(Ref(Path(s), s.value.envelope), record, uid, target, cipher(Path(s)))
         == Some(Replacements(Envelopes(slots), record, uid, target, cipher)[Path(s)])
  {
    var refs := Envelopes(slots);
    var m := Replacements(refs, record, uid, target, cipher);
    ReplacementsAre(refs, record, uid, target, cipher, Path(s));
    var j :| 0 <= j < |refs| && refs[j].field == Path(s)
             && Fresh(refs[j], record, uid, target, cipher(Path(s))) == Some(m[Path(s)]);
    var t := SlotOf(slots, refs[j]);
    PathInjective(s, t);
  }

  /** An envelope bound to its place that the cipher can read and re-seals under the target. */
  predicate Resealable(e: Envelope, where: Context, target: Kid, outcome: Outcome) {
    e.context == where && outcome == Resealed(target)
  }

  /**
   * Re-encrypting a row re-seals exactly the envelopes that can be, wherever they are, and changes no secret:
   * every value keeps its name, its kind and, sealed, its place and its plaintext.
   */
  lemma ReencryptedExactly(slots: seq<Slot>, record: int, uid: int, target: Kid, cipher: string -> Outcome, i: nat)
    requires Distinct(slots) && i < |slots|
    ensures var s, t := slots[i], Reencrypted(slots, record, uid, target, cipher)[i];
            t == if s.value.Sealed?
                      && Resealable(s.value.envelope, Context(record, uid, Path(s)), target, cipher(Path(s)))
                 then s.(value := Sealed(s.value.envelope.(kid := target))) else s
  {
    var s, refs := slots[i], Envelopes(slots);
    var m := Replacements(refs, record, uid, target, cipher);
    ReplacedAt(slots, m, i);
    if Path(s) in m {
      ReplacementOfSlot(slots, record, uid, target, cipher, s);
    } else if s.value.Sealed? {
      RefOfSlot(slots, s);
      if Fresh(Ref(Path(s), s.value.envelope), record, uid, target, cipher(Path(s))).Some? {
        FreshIsReplaced(refs, record, uid, target, cipher, Ref(Path(s), s.value.envelope));
      }
    }
  }
}
