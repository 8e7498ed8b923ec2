/** Finite sums over a duplicate-free enumeration of a set. */
module Sums {

  ghost predicate NoDuplicates<T>(xs: seq<T>) {
    forall i, j :: 0 <= i < j < |xs| ==> xs[i] != xs[j]
  }

  /** Some order in which to list a set. */
  ghost function Listing<T(!new)>(s: set<T>): (xs: seq<T>)
    ensures NoDuplicates(xs) && |xs| == |s|
    ensures forall x :: x in xs <==> x in s
  {
    if s == {} then [] else
      var x :| x in s;
      [x] + Listing(s - {x})
  }

  ghost function Sum<T(!new)>(xs: seq<T>, f: T -> int): int {
    if xs == [] then 0 else f(xs[0]) + Sum(xs[1..], f)
  }

  lemma {:induction false} SumMonotone<T(!new)>(xs: seq<T>, f: T -> int, g: T -> int)
    requires forall x :: x in xs ==> f(x) <= g(x)
    ensures Sum(xs, f) <= Sum(xs, g)
  {
    if xs != [] {
      SumMonotone(xs[1..], f, g);
    }
  }

  lemma {:induction false} SumSame<T(!new)>(xs: seq<T>, f: T -> int, g: T -> int)
    requires forall x :: x in xs ==> f(x) == g(x)
    ensures Sum(xs, f) == Sum(xs, g)
  {
    SumMonotone(xs, f, g);
    SumMonotone(xs, g, f);
  }

  lemma {:induction false} SumAdd<T(!new)>(xs: seq<T>, f: T -> int, g: T -> int, h: T -> int)
    requires forall x :: x in xs ==> h(x) == f(x) + g(x)
    ensures Sum(xs, h) == Sum(xs, f) + Sum(xs, g)
  {
    if xs != [] {
      SumAdd(xs[1..], f, g, h);
    }
  }

  lemma {:induction false} SumZero<T(!new)>(xs: seq<T>, f: T -> int)
    requires forall x :: x in xs ==> f(x) == 0
    ensures Sum(xs, f) == 0
  {
    if xs != [] {
      SumZero(xs[1..], f);
    }
  }

  lemma {:induction false} SumStrict<T(!new)>(xs: seq<T>, f: T -> int, g: T -> int, a: T)
    requires (forall x :: x in xs ==> f(x) <= g(x)) && a in xs && f(a) < g(a)
    ensures Sum(xs, f) < Sum(xs, g)
  {
    if xs[0] == a {
      SumMonotone(xs[1..], f, g);
    } else {
      SumStrict(xs[1..], f, g, a);
    }
  }

  /** Changing the summand at one point changes the sum by that much. */
  lemma {:induction false} SumChange<T(!new)>(xs: seq<T>, f: T -> int, g: T -> int, a: T)
    requires NoDuplicates(xs) && a in xs
    requires forall x :: x in xs && x != a ==> g(x) == f(x)
    ensures Sum(xs, g) == Sum(xs, f) + g(a) - f(a)
  {
    if xs[0] == a {
      assert a !in xs[1..];
      SumSame(xs[1..], f, g);
    } else {
      assert a in xs[1..];
      SumChange(xs[1..], f, g, a);
    }
  }

  /** The same at two points. */
  lemma SumChangeTwo<T(!new)>(xs: seq<T>, f: T -> int, g: T -> int, a: T, b: T)
    requires NoDuplicates(xs) && a in xs && b in xs && a != b
    requires forall x :: x in xs && x != a && x != b ==> g(x) == f(x)
    ensures Sum(xs, g) == Sum(xs, f) + g(a) - f(a) + g(b) - f(b)
  {
    var h := x => if x == a then g(a) else f(x);
    SumChange(xs, f, h, a);
    SumChange(xs, h, g, b);
  }
}
