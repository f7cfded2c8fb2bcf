/** Python's `sorted` on elements of which any two different ones compare, and the order of strings. */
module Sorting {

  ghost predicate StrictOrder<T(!new)>(lt: (T, T) -> bool) {
    && (forall x :: !lt(x, x))
    && (forall x, y, z :: lt(x, y) && lt(y, z) ==> lt(x, z))
  }

  ghost predicate Increasing<T>(lt: (T, T) -> bool, xs: seq<T>) {
    forall i, j :: 0 <= i < j < |xs| ==> lt(xs[i], xs[j])
  }

  /** Any two positions hold elements that `lt` tells apart. */
  ghost predicate Comparable<T>(lt: (T, T) -> bool, xs: seq<T>) {
    forall i, j :: 0 <= i < j < |xs| ==> lt(xs[i], xs[j]) || lt(xs[j], xs[i])
  }

  function Insert<T>(lt: (T, T) -> bool, x: T, xs: seq<T>): seq<T> {
    if xs == [] then [x]
    else if lt(x, xs[0]) then [x] + xs
    else [xs[0]] + Insert(lt, x, xs[1..])
  }

  function Sorted<T>(lt: (T, T) -> bool, xs: seq<T>): seq<T> {
    if xs == [] then [] else Insert(lt, xs[0], Sorted(lt, xs[1..]))
  }

  lemma {:induction false} InsertMembers<T>(lt: (T, T) -> bool, x: T, xs: seq<T>)
    ensures multiset(Insert(lt, x, xs)) == multiset{x} + multiset(xs)
  {
    if xs == [] {
    } else {
      assert xs == [xs[0]] + xs[1..];
      InsertMembers(lt, x, xs[1..]);
    }
  }

  lemma {:induction false} SortedMembers<T>(lt: (T, T) -> bool, xs: seq<T>)
    ensures multiset(Sorted(lt, xs)) == multiset(xs)
    ensures |Sorted(lt, xs)| == |xs|
    ensures forall x :: x in Sorted(lt, xs) <==> x in xs
  {
    if xs == [] {
    } else {
      assert xs == [xs[0]] + xs[1..];
      SortedMembers(lt, xs[1..]);
      InsertMembers(lt, xs[0], Sorted(lt, xs[1..]));
    }
    assert |multiset(Sorted(lt, xs))| == |multiset(xs)|;
    forall x
      ensures x in Sorted(lt, xs) <==> x in xs
    {
      assert x in multiset(Sorted(lt, xs)) <==> x in multiset(xs);
    }
  }

  lemma {:induction false} InsertIncreasing<T(!new)>(lt: (T, T) -> bool, x: T, xs: seq<T>)
    requires StrictOrder(lt) && Increasing(lt, xs)
    requires forall y :: y in xs ==> lt(x, y) || lt(y, x)
    ensures Increasing(lt, Insert(lt, x, xs))
  {
    if xs == [] || lt(x, xs[0]) {
    } else {
      var rest := Insert(lt, x, xs[1..]);
      InsertIncreasing(lt, x, xs[1..]);
      InsertMembers(lt, x, xs[1..]);
      forall y | y in rest
        ensures lt(xs[0], y)
      {
        assert y in multiset(rest);
        assert y == x || y in xs[1..];
      }
    }
  }

  lemma {:induction false} SortedIncreasing<T(!new)>(lt: (T, T) -> bool, xs: seq<T>)
    requires StrictOrder(lt) && Comparable(lt, xs)
    ensures Increasing(lt, Sorted(lt, xs))
  {
    if xs == [] {
    } else {
      SortedIncreasing(lt, xs[1..]);
      SortedMembers(lt, xs[1..]);
      InsertIncreasing(lt, xs[0], Sorted(lt, xs[1..]));
    }
  }

  /** An increasing sequence is determined by its members. */
  lemma {:induction false} IncreasingUnique<T(!new)>(lt: (T, T) -> bool, xs: seq<T>, ys: seq<T>)
    requires StrictOrder(lt) && Increasing(lt, xs) && Increasing(lt, ys)
    requires forall x :: x in xs <==> x in ys
    ensures xs == ys
  {
    assert forall i :: 0 <= i < |ys| ==> ys[i] in xs;
    assert forall i :: 0 <= i < |xs| ==> xs[i] in ys;
    if xs == [] {
    } else {
      assert xs[0] == ys[0];
      forall x
        ensures x in xs[1..] <==> x in ys[1..]
      {
        assert x in xs[1..] <==> x in xs && x != xs[0];
        assert x in ys[1..] <==> x in ys && x != ys[0];
      }
      IncreasingUnique(lt, xs[1..], ys[1..]);
    }
  }

  /** Sorting forgets the order the elements came in, and nothing else. */
  lemma SortedCanonical<T(!new)>(lt: (T, T) -> bool, xs: seq<T>, ys: seq<T>)
    requires StrictOrder(lt) && Comparable(lt, xs) && Comparable(lt, ys)
    ensures Sorted(lt, xs) == Sorted(lt, ys) <==> (forall x :: x in xs <==> x in ys)
  {
    SortedMembers(lt, xs);
    SortedMembers(lt, ys);
    SortedIncreasing(lt, xs);
    SortedIncreasing(lt, ys);
    if forall x :: x in xs <==> x in ys {
      IncreasingUnique(lt, Sorted(lt, xs), Sorted(lt, ys));
    }
  }

  /** Strings compare by code point, a proper prefix first. */
  predicate StrLess(a: string, b: string) {
    b != [] && (a == [] || a[0] < b[0] || (a[0] == b[0] && StrLess(a[1..], b[1..])))
  }

  /** The first difference decides, and a proper prefix comes first. */
  lemma {:induction false} StrLessIsLexicographic(a: string, b: string)
    ensures StrLess(a, b) <==>
            a < b || exists k :: 0 <= k < |a| && k < |b| && a[..k] == b[..k] && a[k] < b[k]
  {
    if a == [] || b == [] || a[0] != b[0] {
      if k :| 0 <= k < |a| && k < |b| && a[..k] == b[..k] && a[k] < b[k] {
        assert k > 0 ==> a[..k][0] == b[..k][0];
      }
      if a != [] && b != [] && a[0] < b[0] {
        assert a[..0] == b[..0];
      }
    } else {
      StrLessIsLexicographic(a[1..], b[1..]);
      LexicographicTails(a, b);
    }
  }

  lemma LexicographicTails(a: string, b: string)
    requires a != [] && b != [] && a[0] == b[0]
    ensures a < b <==> a[1..] < b[1..]
    ensures (exists k :: 0 <= k < |a| && k < |b| && a[..k] == b[..k] && a[k] < b[k]) <==>
            (exists k :: 0 <= k < |a[1..]| && k < |b[1..]| && a[1..][..k] == b[1..][..k] && a[1..][k] < b[1..][k])
  {
    assert a == [a[0]] + a[1..] && b == [b[0]] + b[1..];
    if k :| 0 <= k < |a| && k < |b| && a[..k] == b[..k] && a[k] < b[k] {
      assert a[1..][..k - 1] == a[..k][1..] && b[1..][..k - 1] == b[..k][1..];
      assert a[1..][k - 1] < b[1..][k - 1];
    }
    if k :| 0 <= k < |a[1..]| && k < |b[1..]| && a[1..][..k] == b[1..][..k] && a[1..][k] < b[1..][k] {
      assert a[..k + 1] == [a[0]] + a[1..][..k] && b[..k + 1] == [b[0]] + b[1..][..k];
      assert a[k + 1] < b[k + 1];
    }
  }

  lemma {:induction false} StrLessIrreflexive(a: string)
    ensures !StrLess(a, a)
  {
    if a == [] {
    } else {
      StrLessIrreflexive(a[1..]);
    }
  }

  lemma {:induction false} StrLessTransitive(a: string, b: string, c: string)
    requires StrLess(a, b) && StrLess(b, c)
    ensures StrLess(a, c)
  {
    if a == [] || a[0] < b[0] || b[0] < c[0] {
    } else {
      StrLessTransitive(a[1..], b[1..], c[1..]);
    }
  }

  lemma {:induction false} StrLessTotal(a: string, b: string)
    requires a != b
    ensures StrLess(a, b) || StrLess(b, a)
  {
    if a == [] || b == [] || a[0] != b[0] {
    } else {
      assert a == [a[0]] + a[1..] && b == [b[0]] + b[1..];
      StrLessTotal(a[1..], b[1..]);
    }
  }

  lemma StrLessStrictOrder()
    ensures StrictOrder(StrLess)
  {
    forall a: string
      ensures !StrLess(a, a)
    {
      StrLessIrreflexive(a);
    }
    forall a: string, b: string, c: string | StrLess(a, b) && StrLess(b, c)
      ensures StrLess(a, c)
    {
      StrLessTransitive(a, b, c);
    }
  }
}
