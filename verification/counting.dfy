/** Occurrences of ids in lists: what "in exactly one place" is made of. */
module Counting {

  function Range(n: nat): (r: seq<int>)
    ensures |r| == n && forall i :: 0 <= i < n ==> r[i] == i
  {
    if n == 0 then [] else Range(n - 1) + [n - 1]
  }

  lemma RangeGrows(n: nat)
    ensures Range(0) == [] && Range(n + 1) == Range(n) + [n] && |Range(n)| == n
  {
  }

  /** How often `x` occurs in a list. */
  function Count<T(==)>(xs: seq<T>, x: T): nat {
    if xs == [] then 0 else (if xs[0] == x then 1 else 0) + Count(xs[1..], x)
  }

  lemma {:induction false} CountConcat<T>(a: seq<T>, b: seq<T>, x: T)
    ensures Count(a + b, x) == Count(a, x) + Count(b, x)
  {
    if a == [] {
      assert a + b == b;
    } else {
      CountConcat(a[1..], b, x);
      assert (a + b)[1..] == a[1..] + b;
    }
  }

  lemma {:induction false} RangeOnce(n: nat, x: int)
    ensures Count(Range(n), x) == if 0 <= x < n then 1 else 0
  {
    if n > 0 {
      RangeOnce(n - 1, x);
      CountConcat(Range(n - 1), [n - 1], x);
    }
  }

  ghost predicate NoDup(xs: seq<int>) {
    forall i, j :: 0 <= i < j < |xs| ==> xs[i] != xs[j]
  }

  ghost predicate Disjoint(xs: seq<int>, ys: seq<int>) {
    forall x :: x in xs ==> x !in ys
  }

  lemma {:induction false} CountMember(xs: seq<int>, i: nat)
    requires i < |xs|
    ensures Count(xs, xs[i]) >= 1
  {
    if i > 0 {
      CountMember(xs[1..], i - 1);
    }
  }

  lemma NoDupIfOnce(xs: seq<int>)
    requires forall x :: Count(xs, x) <= 1
    ensures NoDup(xs)
  {
    forall i, j | 0 <= i < j < |xs| ensures xs[i] != xs[j] {
      assert xs == xs[..j] + xs[j..];
      CountConcat(xs[..j], xs[j..], xs[j]);
      CountMember(xs[..j], i);
    }
  }

  lemma DisjointIfOnce(xs: seq<int>, ys: seq<int>)
    requires forall x :: Count(xs, x) + Count(ys, x) <= 1
    ensures Disjoint(xs, ys)
  {
    forall x | x in xs ensures x !in ys {
      var i :| 0 <= i < |xs| && xs[i] == x;
      CountMember(xs, i);
      if x in ys {
        var j :| 0 <= j < |ys| && ys[j] == x;
        CountMember(ys, j);
      }
    }
  }

  lemma InRangeIfOnce(qsz: nat, xs: seq<int>)
    requires forall x :: Count(xs, x) <= if 0 <= x < qsz then 1 else 0
    ensures forall x :: x in xs ==> 0 <= x < qsz
  {
    forall i | 0 <= i < |xs| ensures 0 <= xs[i] < qsz {
      CountMember(xs, i);
      assert Count(xs, xs[i]) >= 1;
    }
  }
}
