/** Majorities of a fixed set of peers 0, ..., n - 1. */
module Quorums {

  function Peers(n: nat): (ps: set<nat>)
    ensures forall p: nat :: p in ps <==> p < n
    ensures |ps| == n
  {
    if n == 0 then {} else Peers(n - 1) + {n - 1}
  }

  predicate IsQuorum(n: nat, q: set<nat>) {
    q <= Peers(n) && 2 * |q| > n
  }

  lemma SubsetSize<T>(a: set<T>, b: set<T>)
    requires a <= b
    ensures |a| <= |b|
  {
    assert b == a + (b - a);
  }

  /** Two majorities share a peer. */
  lemma Intersect(n: nat, a: set<nat>, b: set<nat>) returns (p: nat)
    requires IsQuorum(n, a) && IsQuorum(n, b)
    ensures p in a && p in b
  {
    if a * b == {} {
      assert |a + b| == |a| + |b|;
      SubsetSize(a + b, Peers(n));
      assert false;
    }
    p :| p in a * b;
  }
}
