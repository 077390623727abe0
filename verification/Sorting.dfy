/**
 * The byte order on strings and sorting by it. Go's sort.Strings and sort.Slice
 * are library code: what the callers rely on is that the result is an ordered
 * permutation, so that is the contract here.
 */
module Sorting {

  /** Lexicographic order, the order of Go's string comparison. */
  predicate Leq(a: string, b: string) {
    a == "" || (b != "" && (a[0] < b[0] || (a[0] == b[0] && Leq(a[1..], b[1..]))))
  }

  lemma LeqTotal(a: string, b: string)
    ensures Leq(a, b) || Leq(b, a)
  {
  }

  lemma {:induction false} LeqAntisymmetric(a: string, b: string)
    requires Leq(a, b) && Leq(b, a)
    ensures a == b
  {
    if a != "" {
      LeqAntisymmetric(a[1..], b[1..]);
      assert a == [a[0]] + a[1..] && b == [b[0]] + b[1..];
    }
  }

  lemma {:induction false} LeqTransitive(a: string, b: string, c: string)
    requires Leq(a, b) && Leq(b, c)
    ensures Leq(a, c)
  {
    if a != "" && a[0] == b[0] == c[0] {
      LeqTransitive(a[1..], b[1..], c[1..]);
    }
  }

  ghost predicate Sorted(xs: seq<string>) {
    forall i, j :: 0 <= i < j < |xs| ==> Leq(xs[i], xs[j])
  }

  ghost predicate NoDuplicates<T>(xs: seq<T>) {
    forall i, j :: 0 <= i < j < |xs| ==> xs[i] != xs[j]
  }

  ghost function ToSet<T>(xs: seq<T>): set<T> {
    set x | x in xs
  }

  lemma ToSetOfSum<T>(xs: seq<T>, ys: seq<T>)
    ensures ToSet(xs + ys) == ToSet(xs) + ToSet(ys)
  {
  }

  lemma ToSetOfLast<T>(xs: seq<T>)
    requires xs != []
    ensures ToSet(xs) == ToSet(xs[..|xs| - 1]) + {xs[|xs| - 1]}
  {
    assert xs == xs[..|xs| - 1] + [xs[|xs| - 1]];
  }

  lemma {:induction false} CardinalityOfDistinct<T>(xs: seq<T>)
    requires NoDuplicates(xs)
    ensures |ToSet(xs)| == |xs|
  {
    if xs != [] {
      CardinalityOfDistinct(xs[1..]);
      assert ToSet(xs) == ToSet(xs[1..]) + {xs[0]};
    }
  }

  /** Two sorted sequences without duplicates that hold the same names are equal. */
  lemma {:induction false} SortedIsUnique(xs: seq<string>, ys: seq<string>)
    requires Sorted(xs) && NoDuplicates(xs)
    requires Sorted(ys) && NoDuplicates(ys)
    requires ToSet(xs) == ToSet(ys)
    ensures xs == ys
  {
    CardinalityOfDistinct(xs);
    CardinalityOfDistinct(ys);
    if xs != [] {
      assert xs[0] in ToSet(ys) && ys[0] in ToSet(xs);
      if xs[0] != ys[0] {
        LeqAntisymmetric(xs[0], ys[0]);
      }
      assert ToSet(xs[1..]) == ToSet(xs) - {xs[0]};
      assert ToSet(ys[1..]) == ToSet(ys) - {ys[0]};
      SortedIsUnique(xs[1..], ys[1..]);
      assert xs == [xs[0]] + xs[1..] && ys == [ys[0]] + ys[1..];
    }
  }

  lemma {:induction false} CountOfDistinct<T>(xs: seq<T>, x: T)
    requires NoDuplicates(xs)
    ensures multiset(xs)[x] == if x in xs then 1 else 0
  {
    if xs != [] {
      assert xs == [xs[0]] + xs[1..];
      CountOfDistinct(xs[1..], x);
    }
  }

  lemma DistinctPermutation<T>(xs: seq<T>, ys: seq<T>)
    requires NoDuplicates(xs) && NoDuplicates(ys) && ToSet(xs) == ToSet(ys)
    ensures multiset(xs) == multiset(ys)
  {
    forall x ensures multiset(xs)[x] == multiset(ys)[x] {
      CountOfDistinct(xs, x);
      CountOfDistinct(ys, x);
      assert x in ToSet(xs) <==> x in ToSet(ys);
    }
  }

  /** Two sorted sequences that hold the same names equally often are equal. */
  lemma {:induction false} SortedPermutation(xs: seq<string>, ys: seq<string>)
    requires Sorted(xs) && Sorted(ys) && multiset(xs) == multiset(ys)
    ensures xs == ys
  {
    assert |xs| == |multiset(xs)| == |multiset(ys)| == |ys|;
    if xs != [] {
      hide Leq;
      assert xs[0] in multiset(ys) && ys[0] in multiset(xs);
      if xs[0] != ys[0] { LeqAntisymmetric(xs[0], ys[0]); }
      assert xs == [xs[0]] + xs[1..] && ys == [ys[0]] + ys[1..];
      assert multiset(xs[1..]) == multiset(xs) - multiset{xs[0]} == multiset(ys[1..]);
      SortedPermutation(xs[1..], ys[1..]);
    }
  }

  /** Puts x in its place. */
  function Insert(x: string, xs: seq<string>): (r: seq<string>)
    ensures |r| == |xs| + 1
    ensures forall y :: y in r <==> y == x || y in xs
  {
    if xs == [] || Leq(x, xs[0]) then [x] + xs else [xs[0]] + Insert(x, xs[1..])
  }

  lemma {:induction false} InsertKeepsOrder(x: string, xs: seq<string>)
    requires Sorted(xs)
    ensures Sorted(Insert(x, xs))
    ensures NoDuplicates(xs) && x !in xs ==> NoDuplicates(Insert(x, xs))
  {
    if xs == [] {
    } else if Leq(x, xs[0]) {
      forall j | 0 <= j < |xs| ensures Leq(x, xs[j]) {
        if j > 0 { LeqTransitive(x, xs[0], xs[j]); }
      }
    } else {
      LeqTotal(x, xs[0]);
      InsertKeepsOrder(x, xs[1..]);
      var r := Insert(x, xs[1..]);
      forall j | 0 <= j < |r|
        ensures Leq(xs[0], r[j])
        ensures NoDuplicates(xs) && x !in xs ==> xs[0] != r[j]
      {
        assert r[j] in r;
      }
    }
  }

  /** Sorts names that are all different, as the callers' map keys are. */
  method Sort(names: seq<string>) returns (r: seq<string>)
    requires NoDuplicates(names)
    ensures Sorted(r) && NoDuplicates(r)
    ensures ToSet(r) == ToSet(names)
  {
    r := [];
    for i := 0 to |names|
      invariant Sorted(r) && NoDuplicates(r)
      invariant ToSet(r) == ToSet(names[..i])
    {
      assert names[..i + 1] == names[..i] + [names[i]];
      ToSetOfSum(names[..i], [names[i]]);
      assert names[i] !in r by { assert names[i] !in ToSet(names[..i]); }
      InsertKeepsOrder(names[i], r);
      assert ToSet(Insert(names[i], r)) == ToSet(r) + {names[i]};
      r := Insert(names[i], r);
    }
    assert names[..|names|] == names;
  }
}
