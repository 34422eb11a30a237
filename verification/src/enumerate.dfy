/** The enumeration pattern the modules share: hand each item to the host's
    callback in order, and stop after the first item the callback declines. */
module Enumerate {

  /** The items the callback sees: a prefix of `xs` that every item but the
      last accepted, ending early only at an item the callback declined. */
  function VisitUntil<T>(xs: seq<T>, accept: T -> bool): (vs: seq<T>)
    ensures |vs| <= |xs| && vs == xs[..|vs|]
    ensures forall i :: 0 <= i < |vs| - 1 ==> accept(vs[i])
    ensures |vs| < |xs| ==> 0 < |vs| && !accept(vs[|vs| - 1])
    decreases |xs|
  {
    if xs == [] then []
    else if !accept(xs[0]) then [xs[0]]
    else [xs[0]] + VisitUntil(xs[1..], accept)
  }

  /** The visited prefix is determined by its properties: any prefix that
      the callback accepts up to its last item, and that stops only at a
      declined item, is the one `VisitUntil` produces. */
  lemma {:induction false} VisitUntilUnique<T>(xs: seq<T>, accept: T -> bool, n: nat)
    requires n <= |xs|
    requires forall i :: 0 <= i < n - 1 ==> accept(xs[i])
    requires n < |xs| ==> 0 < n && !accept(xs[n - 1])
    ensures VisitUntil(xs, accept) == xs[..n]
    decreases |xs|
  {
    if xs != [] {
      if !accept(xs[0]) {
        assert n == 1;
      } else {
        assert 1 < n || n == |xs|;
        var t := xs[1..];
        forall i | 0 <= i < n - 2 ensures accept(t[i]) {
          assert t[i] == xs[i + 1];
        }
        if n == 1 {
          assert |xs| == 1;
          assert xs[..1] == [xs[0]];
        } else {
          VisitUntilUnique(t, accept, n - 1);
          assert xs[..n] == [xs[0]] + t[..n - 1];
        }
      }
    }
  }

  /** A callback that accepts everything sees every item. */
  lemma VisitAll<T>(xs: seq<T>, accept: T -> bool)
    requires forall i :: 0 <= i < |xs| ==> accept(xs[i])
    ensures VisitUntil(xs, accept) == xs
  {
    VisitUntilUnique(xs, accept, |xs|);
  }

  /** The position of the first item satisfying `p`, or the length when
      none does: the `find_if` / `next(...)` lookup the examples use. */
  function FirstWhere<T>(xs: seq<T>, p: T -> bool): (i: nat)
    ensures i <= |xs|
    ensures i < |xs| ==> p(xs[i])
    ensures forall j :: 0 <= j < i ==> !p(xs[j])
    decreases |xs|
  {
    if xs == [] then 0
    else if p(xs[0]) then 0
    else 1 + FirstWhere(xs[1..], p)
  }
}
