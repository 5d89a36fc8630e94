/** Small facts about sequences that several modules need. */
module Sequences {

  ghost predicate Distinct<T(!new)>(s: seq<T>) {
    forall i, j :: 0 <= i < j < |s| ==> s[i] != s[j]
  }

  function Elements<T>(s: seq<T>): set<T> {
    set x | x in s
  }

  function Min(a: int, b: int): int {
    if a <= b then a else b
  }

  /** The first n elements, or all of them when there are fewer. */
  function Take<T>(s: seq<T>, n: nat): (r: seq<T>) {
    if |s| <= n then s else s[..n]
  }

  /** The elements of `s` that lie in `keep`, in their order in `s`. */
  function Keep<T(==)>(s: seq<T>, keep: set<T>): (r: seq<T>)
    ensures |r| <= |s|
  {
    if s == [] then []
    else if s[0] in keep then [s[0]] + Keep(s[1..], keep)
    else Keep(s[1..], keep)
  }

  lemma {:induction false} KeepElements<T(!new)>(s: seq<T>, keep: set<T>)
    ensures forall x :: x in Keep(s, keep) <==> x in s && x in keep
  {
    if s == [] {
    } else {
      KeepElements(s[1..], keep);
      assert s == [s[0]] + s[1..];
    }
  }

  lemma KeepCons<T>(x: T, rest: seq<T>, keep: set<T>)
    ensures Keep([x] + rest, keep) == if x in keep then [x] + Keep(rest, keep) else Keep(rest, keep)
  {
    assert ([x] + rest)[1..] == rest;
  }

  lemma {:induction false} KeepAppend<T>(a: seq<T>, b: seq<T>, keep: set<T>)
    ensures Keep(a + b, keep) == Keep(a, keep) + Keep(b, keep)
  {
    if |a| == 0 {
      EmptyConcat(b);
      EmptyConcat(Keep(b, keep));
    } else {
      KeepAppend(a[1..], b, keep);
      HeadConcat(a, b);
      KeepCons(a[0], a[1..] + b, keep);
      KeepCons(a[0], a[1..], keep);
      ConcatAssociative([a[0]], Keep(a[1..], keep), Keep(b, keep));
    }
  }

  lemma {:induction false} KeepDistinct<T(!new)>(s: seq<T>, keep: set<T>)
    requires Distinct(s)
    ensures Distinct(Keep(s, keep))
  {
    if s == [] {
    } else {
      KeepDistinct(s[1..], keep);
      KeepElements(s[1..], keep);
      var r := Keep(s[1..], keep);
      forall x | x in r ensures x != s[0] {
        var i :| 0 <= i < |s[1..]| && s[1..][i] == x;
        assert s[i + 1] == x;
      }
    }
  }

  /** Filtering by a set that holds every element changes nothing. */
  lemma {:induction false} KeepAll<T>(s: seq<T>, keep: set<T>)
    requires forall x | x in s :: x in keep
    ensures Keep(s, keep) == s
  {
    if s == [] {
    } else {
      KeepAll(s[1..], keep);
      assert s == [s[0]] + s[1..];
    }
  }

  /** Dropping a last element that occurs nowhere else. */
  lemma DropLastElements<T>(s: seq<T>)
    requires |s| > 0 && s[|s| - 1] !in s[..|s| - 1]
    ensures Elements(s[..|s| - 1]) == Elements(s) - {s[|s| - 1]}
  {
    assert s == s[..|s| - 1] + [s[|s| - 1]];
  }

  /** Cutting a concatenation inside its first part. */
  lemma CutConcat<T>(a: seq<T>, n: nat, b: seq<T>)
    requires n <= |a|
    ensures a + b == a[..n] + (a[n..] + b)
  {
  }

  lemma HeadConcat<T>(a: seq<T>, b: seq<T>)
    requires |a| > 0
    ensures a + b == [a[0]] + (a[1..] + b)
    ensures a == [a[0]] + a[1..]
  {
  }

  lemma ConcatAssociative<T>(a: seq<T>, b: seq<T>, c: seq<T>)
    ensures a + (b + c) == (a + b) + c
  {
  }

  lemma EmptyConcat<T>(a: seq<T>)
    ensures [] + a == a && a + [] == a
  {
  }

  lemma ConsDistinct<T(!new)>(x: T, s: seq<T>)
    requires Distinct(s) && x !in s
    ensures Distinct([x] + s)
  {
    assert forall i :: 0 <= i < |s| ==> s[i] in s;
  }

  lemma {:induction false} DistinctCardinality<T(!new)>(s: seq<T>)
    requires Distinct(s)
    ensures |Elements(s)| == |s|
  {
    if s == [] {
      assert Elements(s) == {};
    } else {
      DistinctCardinality(s[1..]);
      assert Elements(s) == Elements(s[1..]) + {s[0]};
      assert s[0] !in Elements(s[1..]);
    }
  }

  /** Two duplicate-free listings of the same elements have the same length. */
  lemma SameElementsSameLength<T(!new)>(a: seq<T>, b: seq<T>)
    requires Distinct(a) && Distinct(b)
    requires Elements(a) == Elements(b)
    ensures |a| == |b|
  {
    DistinctCardinality(a);
    DistinctCardinality(b);
  }

  /** Two duplicate-free listings of the same elements are permutations of each other. */
  lemma SameElementsSameMultiset<T(!new)>(a: seq<T>, b: seq<T>)
    requires Distinct(a) && Distinct(b) && Elements(a) == Elements(b)
    ensures multiset(a) == multiset(b)
  {
    forall x ensures multiset(a)[x] == multiset(b)[x] {
      DistinctMultiplicity(a, x);
      DistinctMultiplicity(b, x);
      assert x in a <==> x in Elements(a);
      assert x in b <==> x in Elements(b);
    }
  }

  lemma {:induction false} DistinctMultiplicity<T(!new)>(s: seq<T>, x: T)
    requires Distinct(s)
    ensures multiset(s)[x] == if x in s then 1 else 0
  {
    if |s| > 0 {
      DistinctMultiplicity(s[1..], x);
      assert s == [s[0]] + s[1..];
    }
  }

  function MapAll<T, U>(s: seq<T>, f: T -> U): (r: seq<U>)
    ensures |r| == |s| && forall i :: 0 <= i < |s| ==> r[i] == f(s[i])
  {
    if |s| == 0 then [] else [f(s[0])] + MapAll(s[1..], f)
  }

  lemma HeadMultiset<T>(s: seq<T>)
    requires |s| > 0
    ensures multiset(s) == multiset{s[0]} + multiset(s[1..])
  {
    assert s == [s[0]] + s[1..];
  }

  lemma ConsMultiset<T>(x: T, s: seq<T>)
    ensures multiset([x] + s) == multiset{x} + multiset(s)
  {
  }

  /** The sequence without its first occurrence of x. */
  function WithoutOne<T(==)>(s: seq<T>, x: T): (r: seq<T>) {
    if |s| == 0 then [] else if s[0] == x then s[1..] else [s[0]] + WithoutOne(s[1..], x)
  }

  lemma {:induction false} WithoutOneMultiset<T>(s: seq<T>, x: T)
    requires x in s
    ensures multiset(s) == multiset{x} + multiset(WithoutOne(s, x))
  {
    HeadMultiset(s);
    if s[0] != x {
      WithoutOneMultiset(s[1..], x);
      ConsMultiset(s[0], WithoutOne(s[1..], x));
    }
  }

  /** Taking out one element takes out its image. */
  lemma {:induction false} MapWithoutOne<T, U>(s: seq<T>, x: T, f: T -> U)
    requires x in s
    ensures multiset(MapAll(s, f)) == multiset{f(x)} + multiset(MapAll(WithoutOne(s, x), f))
  {
    ConsMultiset(f(s[0]), MapAll(s[1..], f));
    if s[0] != x {
      var rest := WithoutOne(s[1..], x);
      MapWithoutOne(s[1..], x, f);
      MapCons(s[0], rest, f);
      ConsMultiset(f(s[0]), MapAll(rest, f));
    }
  }

  lemma MapCons<T, U>(x: T, s: seq<T>, f: T -> U)
    ensures MapAll([x] + s, f) == [f(x)] + MapAll(s, f)
  {
    assert ([x] + s)[1..] == s;
  }

  lemma CancelOne<T>(x: T, a: multiset<T>, b: multiset<T>)
    requires multiset{x} + a == multiset{x} + b
    ensures a == b
  {
    assert a == multiset{x} + a - multiset{x};
    assert b == multiset{x} + b - multiset{x};
  }

  /** The images of a permutation are a permutation of the images. */
  lemma {:induction false} MapPermutation<T, U>(a: seq<T>, b: seq<T>, f: T -> U)
    requires multiset(a) == multiset(b)
    ensures multiset(MapAll(a, f)) == multiset(MapAll(b, f))
    decreases |a|
  {
    if |a| == 0 {
      assert |multiset(b)| == 0;
    } else {
      assert a[0] in multiset(b);
      var rest := WithoutOne(b, a[0]);
      HeadMultiset(a);
      WithoutOneMultiset(b, a[0]);
      MapWithoutOne(b, a[0], f);
      CancelOne(a[0], multiset(a[1..]), multiset(rest));
      MapPermutation(a[1..], rest, f);
      ConsMultiset(f(a[0]), MapAll(a[1..], f));
    }
  }

  lemma SubsetCardinality<T>(a: set<T>, b: set<T>)
    requires a <= b
    ensures |a| <= |b|
    ensures |a| == |b| ==> a == b
  {
    assert b == a + (b - a);
    assert |b| == |a| + |b - a|;
  }
}
