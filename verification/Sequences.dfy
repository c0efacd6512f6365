/** A sequence with every occurrence of one element taken out, and the sum of a sequence. */
module Sequences {

  function Without(q: seq<nat>, x: nat): (r: seq<nat>)
    ensures forall y :: y in r <==> y in q && y != x
    ensures |r| <= |q|
  {
    if q == [] then [] else if q[0] == x then Without(q[1..], x) else [q[0]] + Without(q[1..], x)
  }

  lemma {:induction false} WithoutSnoc(q: seq<nat>, y: nat, x: nat)
    ensures Without(q + [y], x) == if y == x then Without(q, x) else Without(q, x) + [y]
  {
    if q != [] {
      assert (q + [y])[1..] == q[1..] + [y];
      WithoutSnoc(q[1..], y, x);
    }
  }

  function Sum(q: seq<nat>): nat {
    if q == [] then 0 else Sum(q[..|q| - 1]) + q[|q| - 1]
  }
}
