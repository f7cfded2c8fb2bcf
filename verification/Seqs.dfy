/** Sequence operations shared by the other modules, with the counting facts about them. */
module Seqs {

  function Init<T>(s: seq<T>): seq<T>
    requires s != []
  {
    s[..|s| - 1]
  }

  function Last<T>(s: seq<T>): T
    requires s != []
  {
    s[|s| - 1]
  }

  function Map<A, B>(f: A -> B, s: seq<A>): seq<B> {
    seq(|s|, i requires 0 <= i < |s| => f(s[i]))
  }

  /** `[x for x in s if p(x)]` */
  function Filter<T>(p: T -> bool, s: seq<T>): seq<T> {
    if s == [] then [] else Filter(p, Init(s)) + (if p(Last(s)) then [Last(s)] else [])
  }

  ghost predicate StrictlyIncreasing(idx: seq<nat>) {
    forall i, j :: 0 <= i < j < |idx| ==> idx[i] < idx[j]
  }

  lemma InitLast<T>(s: seq<T>)
    requires s != []
    ensures s == Init(s) + [Last(s)]
    ensures multiset(s) == multiset(Init(s)) + multiset{Last(s)}
  {
    assert s == Init(s) + [Last(s)];
  }

  lemma Assoc<T>(a: seq<T>, b: seq<T>, c: seq<T>)
    ensures (a + b) + c == a + (b + c)
  {
  }

  lemma LastOfConcat<T>(a: seq<T>, b: seq<T>)
    requires b != []
    ensures Last(a + b) == Last(b)
  {
  }

  lemma TailOfConcat<T>(a: seq<T>, b: seq<T>)
    requires a != []
    ensures (a + b)[0] == a[0] && (a + b)[1..] == a[1..] + b
  {
  }

  lemma Shift<T>(a: seq<T>, b: seq<T>)
    requires b != []
    ensures (a + [b[0]]) + b[1..] == a + b
  {
    assert b == [b[0]] + b[1..];
    Assoc(a, [b[0]], b[1..]);
  }

  lemma InitWithout<T>(s: seq<T>, k: nat)
    requires k < |s| - 1
    ensures Init(s[..k] + s[k + 1..]) == Init(s)[..k] + Init(s)[k + 1..]
    ensures Last(s[..k] + s[k + 1..]) == Last(s)
  {
  }

  lemma MultisetCancel<T>(a: multiset<T>, b: multiset<T>, x: T)
    requires a + multiset{x} == b + multiset{x}
    ensures a == b
  {
    assert a == (a + multiset{x}) - multiset{x};
    assert b == (b + multiset{x}) - multiset{x};
  }

  lemma TakeOut<T>(s: seq<T>, k: nat)
    requires k < |s|
    ensures multiset(s) == multiset(s[..k] + s[k + 1..]) + multiset{s[k]}
  {
    assert s == s[..k] + [s[k]] + s[k + 1..];
  }

  /** The last element of a sequence occurs in any rearrangement of it; taking it out of both leaves
      rearrangements of each other. */
  lemma MatchLast<T>(a: seq<T>, b: seq<T>) returns (k: nat)
    requires multiset(a) == multiset(b) && a != []
    ensures k < |b| && b[k] == Last(a)
    ensures multiset(Init(a)) == multiset(b[..k] + b[k + 1..])
  {
    assert Last(a) in multiset(b);
    k :| k < |b| && b[k] == Last(a);
    InitLast(a);
    TakeOut(b, k);
    MultisetCancel(multiset(Init(a)), multiset(b[..k] + b[k + 1..]), b[k]);
  }

  lemma {:induction false} FilterConcat<T>(p: T -> bool, a: seq<T>, b: seq<T>)
    ensures Filter(p, a + b) == Filter(p, a) + Filter(p, b)
  {
    if b == [] {
      assert a + b == a;
    } else {
      assert Init(a + b) == a + Init(b);
      FilterConcat(p, a, Init(b));
    }
  }

  /** The filter of the first n elements, as a loop over them builds it. */
  ghost function FilterUpTo<T>(p: T -> bool, s: seq<T>, n: nat): seq<T>
    requires n <= |s|
  {
    if n == 0 then [] else FilterUpTo(p, s, n - 1) + (if p(s[n - 1]) then [s[n - 1]] else [])
  }

  lemma {:induction false} FilterUpToPrefix<T>(p: T -> bool, s: seq<T>, n: nat)
    requires n <= |s|
    ensures FilterUpTo(p, s, n) == Filter(p, s[..n])
  {
    if n == 0 {
    } else {
      FilterUpToPrefix(p, s, n - 1);
      assert Init(s[..n]) == s[..n - 1];
    }
  }

  lemma FilterUpToAll<T>(p: T -> bool, s: seq<T>)
    ensures FilterUpTo(p, s, |s|) == Filter(p, s)
  {
    FilterUpToPrefix(p, s, |s|);
    assert s[..|s|] == s;
  }

  lemma {:induction false} FilterAll<T>(p: T -> bool, s: seq<T>)
    requires forall x :: x in s ==> p(x)
    ensures Filter(p, s) == s
  {
    if s == [] {
    } else {
      InitLast(s);
      FilterAll(p, Init(s));
    }
  }

  lemma {:induction false} FilterNone<T>(p: T -> bool, s: seq<T>)
    requires forall x :: x in s ==> !p(x)
    ensures Filter(p, s) == []
  {
    if s == [] {
    } else {
      InitLast(s);
      FilterNone(p, Init(s));
    }
  }

  lemma {:induction false} FilterFilter<T>(p: T -> bool, q: T -> bool, both: T -> bool, s: seq<T>)
    requires forall x :: both(x) <==> p(x) && q(x)
    ensures Filter(both, s) == Filter(q, Filter(p, s))
  {
    if s == [] {
    } else {
      FilterFilter(p, q, both, Init(s));
      FilterConcat(q, Filter(p, Init(s)), if p(Last(s)) then [Last(s)] else []);
      assert Filter(q, [Last(s)]) == if q(Last(s)) then [Last(s)] else [] by {
        assert Init([Last(s)]) == [];
      }
    }
  }

  /** The positions that pass, in increasing order. */
  ghost function Positions<T>(p: T -> bool, s: seq<T>): seq<nat> {
    if s == [] then [] else Positions(p, Init(s)) + (if p(Last(s)) then [|s| - 1] else [])
  }

  lemma {:induction false} PositionsBounded<T>(p: T -> bool, s: seq<T>)
    ensures StrictlyIncreasing(Positions(p, s))
    ensures forall n :: n in Positions(p, s) ==> n < |s|
  {
    if s == [] {
    } else {
      var front := Positions(p, Init(s));
      PositionsBounded(p, Init(s));
      assert forall j :: 0 <= j < |front| ==> front[j] in front;
    }
  }

  lemma {:induction false} PositionsExact<T>(p: T -> bool, s: seq<T>, n: nat)
    requires n < |s|
    ensures n in Positions(p, s) <==> p(s[n])
  {
    PositionsBounded(p, Init(s));
    if n == |s| - 1 {
    } else {
      PositionsExact(p, Init(s), n);
    }
  }

  /** A filter keeps exactly the elements that pass, each in its place. */
  lemma {:induction false} FilterPositions<T>(p: T -> bool, s: seq<T>)
    ensures StrictlyIncreasing(Positions(p, s)) && |Positions(p, s)| == |Filter(p, s)|
    ensures forall j :: 0 <= j < |Filter(p, s)| ==>
              Positions(p, s)[j] < |s| && Filter(p, s)[j] == s[Positions(p, s)[j]]
    ensures forall n :: 0 <= n < |s| ==> (n in Positions(p, s) <==> p(s[n]))
  {
    PositionsBounded(p, s);
    forall n: nat | n < |s|
      ensures n in Positions(p, s) <==> p(s[n])
    {
      PositionsExact(p, s, n);
    }
    if s == [] {
    } else {
      FilterPositions(p, Init(s));
    }
  }

  lemma {:induction false} FilterCount<T>(p: T -> bool, s: seq<T>, x: T)
    ensures multiset(Filter(p, s))[x] == if p(x) then multiset(s)[x] else 0
  {
    if s == [] {
    } else {
      InitLast(s);
      FilterCount(p, Init(s), x);
    }
  }

  lemma MapConcat<A, B>(f: A -> B, s: seq<A>, t: seq<A>)
    ensures Map(f, s + t) == Map(f, s) + Map(f, t)
  {
  }

  lemma {:induction false} MapCount<A, B>(f: A -> B, s: seq<A>, x: A)
    requires forall y :: y in s && f(y) == f(x) ==> y == x
    ensures multiset(Map(f, s))[f(x)] == multiset(s)[x]
  {
    if s == [] {
    } else {
      InitLast(s);
      MapCount(f, Init(s), x);
      assert Map(f, s) == Map(f, Init(s)) + [f(Last(s))];
    }
  }
}
