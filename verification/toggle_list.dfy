/**
 The ordered list used as a set by the wizard's pages: `toggleTech` on the
 team form and `toggleConv` on the template page are the same operation,
 "remove every occurrence if present, else append at the end".
 */
module ToggleList {

  /** No element occurs twice. */
  predicate NoDup<T(==,!new)>(xs: seq<T>) {
    forall i, j :: 0 <= i < j < |xs| ==> xs[i] != xs[j]
  }

  /** `a` is obtained from `b` by deleting elements, keeping the relative order of the rest. */
  predicate IsSubseq<T(==,!new)>(a: seq<T>, b: seq<T>)
    decreases |b|
  {
    if |a| == 0 then true
    else if |b| == 0 then false
    else if a[0] == b[0] then IsSubseq(a[1..], b[1..])
    else IsSubseq(a, b[1..])
  }

  /** `xs.filter(t => t !== x)`: every occurrence of `x` dropped, the rest in order. */
  function Without<T(==,!new)>(xs: seq<T>, x: T): (r: seq<T>)
    ensures x !in r
    ensures forall y :: y != x ==> (y in r <==> y in xs)
    ensures forall y :: multiset(r)[y] == if y == x then 0 else multiset(xs)[y]
    ensures IsSubseq(r, xs)
    ensures |r| == |xs| - multiset(xs)[x]
  {
    if |xs| == 0 then []
    else
      assert xs == [xs[0]] + xs[1..];
      var rest := Without(xs[1..], x);
      if xs[0] == x then rest
      else
        assert ([xs[0]] + rest)[1..] == rest;
        [xs[0]] + rest
  }

  /**
   Flip the membership of `x`: a present element is removed everywhere, an
   absent one is appended after the existing elements.
   */
  function Toggle<T(==,!new)>(xs: seq<T>, x: T): (r: seq<T>)
    ensures x in r <==> x !in xs
    ensures forall y :: y != x ==> (y in r <==> y in xs)
    ensures x !in xs ==> |r| == |xs| + 1 && r[..|xs|] == xs && r[|xs|] == x
    ensures x in xs ==> IsSubseq(r, xs) && |r| < |xs|
    ensures x in xs ==> forall y :: multiset(r)[y] == if y == x then 0 else multiset(xs)[y]
  {
    if x in xs then
      assert multiset(xs)[x] > 0;
      Without(xs, x)
    else xs + [x]
  }

  /** Dropping an element keeps a duplicate-free list duplicate-free. */
  lemma {:induction false} WithoutKeepsNoDup<T(!new)>(xs: seq<T>, x: T)
    requires NoDup(xs)
    ensures NoDup(Without(xs, x))
  {
    if |xs| > 0 {
      var tail := xs[1..];
      assert NoDup(tail);
      WithoutKeepsNoDup(tail, x);
      var rest := Without(tail, x);
      if xs[0] != x {
        assert xs[0] !in tail;
        assert xs[0] !in rest;
        var r := [xs[0]] + rest;
        forall i, j | 0 <= i < j < |r|
          ensures r[i] != r[j]
        {
          if i == 0 {
            assert r[j] == rest[j - 1];
          } else {
            assert r[i] == rest[i - 1] && r[j] == rest[j - 1];
          }
        }
      }
    }
  }

  /** Toggling keeps the selection free of duplicates. */
  lemma ToggleKeepsNoDup<T(!new)>(xs: seq<T>, x: T)
    requires NoDup(xs)
    ensures NoDup(Toggle(xs, x))
  {
    if x in xs {
      WithoutKeepsNoDup(xs, x);
    } else {
      var r := xs + [x];
      forall i, j | 0 <= i < j < |r|
        ensures r[i] != r[j]
      {
        if j == |xs| {
          assert r[i] == xs[i];
        } else {
          assert r[i] == xs[i] && r[j] == xs[j];
        }
      }
    }
  }

  /** A list without `x` is its own filtered copy. */
  lemma {:induction false} WithoutAbsent<T(!new)>(xs: seq<T>, x: T)
    requires x !in xs
    ensures Without(xs, x) == xs
  {
    if |xs| > 0 {
      assert x !in xs[1..];
      WithoutAbsent(xs[1..], x);
      assert xs == [xs[0]] + xs[1..];
    }
  }

  /** Filtering distributes over concatenation. */
  lemma {:induction false} WithoutAppend<T(!new)>(xs: seq<T>, ys: seq<T>, x: T)
    ensures Without(xs + ys, x) == Without(xs, x) + Without(ys, x)
  {
    if |xs| == 0 {
      assert xs + ys == ys;
    } else {
      assert (xs + ys)[0] == xs[0];
      assert (xs + ys)[1..] == xs[1..] + ys;
      WithoutAppend(xs[1..], ys, x);
    }
  }

  /** Toggling an absent element twice gives back the original list. */
  lemma ToggleTwiceAbsent<T(!new)>(xs: seq<T>, x: T)
    requires x !in xs
    ensures Toggle(Toggle(xs, x), x) == xs
  {
    WithoutAppend(xs, [x], x);
    WithoutAbsent(xs, x);
    assert Without([x], x) == [];
  }

  /**
   Toggling a present element twice gives the list with every copy removed
   and one copy appended at the end: it restores the list only when the
   element occurs once, in last position.
   */
  lemma ToggleTwicePresent<T(!new)>(xs: seq<T>, x: T)
    requires x in xs
    ensures Toggle(Toggle(xs, x), x) == Without(xs, x) + [x]
  {
  }
}
