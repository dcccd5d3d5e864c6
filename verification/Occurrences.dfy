/** Occurrences of calendar events, and what an expansion over a window promises. Times are milliseconds. */
module Occurrences {

  datatype Occurrence = Occurrence(start: int, end: int)

  /** `truncated` when a safety cap left some of the window's occurrences out. */
  datatype Expansion = Expansion(occurrences: seq<Occurrence>, truncated: bool)

  predicate Overlap(a: Occurrence, b: Occurrence) {
    a.start < b.end && a.end > b.start
  }

  predicate TakesUp(o: Occurrence, t: int) { o.start <= t < o.end }

  /** Occurrences that take time overlap exactly when there is a moment both take up. */
  lemma OverlapIsShared(a: Occurrence, b: Occurrence)
    requires a.start < a.end && b.start < b.end
    ensures Overlap(a, b) <==> exists t :: TakesUp(a, t) && TakesUp(b, t)
  {
    if Overlap(a, b) {
      var t := if a.start < b.start then b.start else a.start;
      assert TakesUp(a, t) && TakesUp(b, t);
    }
  }

  predicate InWindow(o: Occurrence, windowStart: int, windowEnd: int) {
    o.start < windowEnd && o.end > windowStart
  }

  /** `x` are occurrences of `series` in the window, and all of them unless it says otherwise. */
  ghost predicate Expands(x: Expansion, series: iset<Occurrence>, windowStart: int, windowEnd: int) {
    && (forall o :: o in x.occurrences ==> o in series && InWindow(o, windowStart, windowEnd))
    && (!x.truncated ==> forall o :: o in series && InWindow(o, windowStart, windowEnd) ==> o in x.occurrences)
  }

  /** A series without the occurrences at the excluded starts. */
  ghost function Except(series: iset<Occurrence>, excluded: set<int>): (rest: iset<Occurrence>) {
    iset o | o in series && o.start !in excluded
  }

  /** The occurrences of `os` in the window but for the excluded starts. */
  function Within(os: seq<Occurrence>, excluded: set<int>, from: int, to: int): (r: seq<Occurrence>)
    ensures forall o :: o in r <==> o in os && o.start !in excluded && InWindow(o, from, to)
  {
    if os == [] then []
    else
      var own := if os[0].start !in excluded && InWindow(os[0], from, to) then [os[0]] else [];
      own + Within(os[1..], excluded, from, to)
  }
}
