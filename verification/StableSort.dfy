/** The stable sort by a number. */
module StableSort {

  predicate OrderedBy<T(!new)>(xs: seq<T>, rank: T -> int) {
    forall i, j :: 0 <= i < j < |xs| ==> rank(xs[i]) <= rank(xs[j])
  }

  predicate NoRepeats<T(==)>(xs: seq<T>) {
    forall i, j :: 0 <= i < j < |xs| ==> xs[i] != xs[j]
  }

  lemma AppendGreatest<T(!new)>(xs: seq<T>, x: T, rank: T -> int)
    requires OrderedBy(xs, rank) && forall y :: y in xs ==> rank(y) <= rank(x)
    ensures OrderedBy(xs + [x], rank)
    ensures NoRepeats(xs) && x !in xs ==> NoRepeats(xs + [x])
  {
    assert forall i :: 0 <= i < |xs| ==> xs[i] in xs;
  }

  /** `x` put in its place, after everything that is not greater. */
  function Insert<T(==, !new)>(xs: seq<T>, x: T, rank: T -> int): (r: seq<T>)
    requires OrderedBy(xs, rank)
    ensures OrderedBy(r, rank) && |r| == |xs| + 1 && forall y :: y in r <==> y in xs || y == x
    ensures NoRepeats(xs) && x !in xs ==> NoRepeats(r)
  {
    if xs == [] || rank(xs[|xs| - 1]) <= rank(x) then
      xs + [x]
    else
      var n := |xs| - 1;
      assert xs == xs[..n] + [xs[n]];
      var r := Insert(xs[..n], x, rank);
      AppendGreatest(r, xs[n], rank);
      r + [xs[n]]
  }

  function Sort<T(==, !new)>(xs: seq<T>, rank: T -> int): (r: seq<T>)
    ensures OrderedBy(r, rank) && |r| == |xs| && forall y :: y in r <==> y in xs
    ensures NoRepeats(xs) ==> NoRepeats(r)
  {
    if xs == [] then []
    else
      var n := |xs| - 1;
      assert xs == xs[..n] + [xs[n]];
      Insert(Sort(xs[..n], rank), xs[n], rank)
  }
}
