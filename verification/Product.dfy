/** `itertools.product`: every cell of an ordered list of pools, the last pool turning fastest. */
module Product {
  import opened Seqs
  import opened MixedRadix

  function Lens<T>(pools: seq<seq<T>>): (lens: seq<nat>)
    ensures |lens| == |pools|
    ensures forall i :: 0 <= i < |pools| ==> lens[i] == |pools[i]|
  {
    if pools == [] then [] else Lens(Init(pools)) + [|Last(pools)|]
  }

  /** `[x + [y] for y in pool]` */
  function Row<T>(x: seq<T>, pool: seq<T>): seq<seq<T>> {
    seq(|pool|, j requires 0 <= j < |pool| => x + [pool[j]])
  }

  /** `[x + [y] for x in cells for y in pool]` */
  function Extend<T>(cells: seq<seq<T>>, pool: seq<T>): seq<seq<T>> {
    if cells == [] then [] else Extend(Init(cells), pool) + Row(Last(cells), pool)
  }

  function Cells<T>(pools: seq<seq<T>>): seq<seq<T>> {
    if pools == [] then [[]] else Extend(Cells(Init(pools)), Last(pools))
  }

  /** The cell that takes from each pool the value at the given position. */
  function Pick<T>(pools: seq<seq<T>>, ds: seq<nat>): seq<T>
    requires InRange(Lens(pools), ds)
  {
    seq(|pools|, i requires 0 <= i < |pools| => pools[i][ds[i]])
  }

  method Enumerate<T>(pools: seq<seq<T>>) returns (result: seq<seq<T>>)
    ensures result == Cells(pools)
  {
    result := [[]];
    for k := 0 to |pools|
      invariant result == Cells(pools[..k])
    {
      var next: seq<seq<T>> := [];
      for i := 0 to |result|
        invariant next == Extend(result[..i], pools[k])
      {
        ghost var done := next;
        for j := 0 to |pools[k]|
          invariant next == done + Row(result[i], pools[k])[..j]
        {
          next := next + [result[i] + [pools[k][j]]];
        }
        assert Init(result[..i + 1]) == result[..i];
      }
      assert result[..|result|] == result;
      assert Init(pools[..k + 1]) == pools[..k];
      result := next;
    }
    assert pools[..|pools|] == pools;
  }

  // ----- the n-th cell

  lemma {:induction false} ExtendAt<T>(cells: seq<seq<T>>, pool: seq<T>, n: nat)
    requires n < |cells| * |pool|
    ensures |pool| > 0 && n / |pool| < |cells|
    ensures |Extend(cells, pool)| == |cells| * |pool|
    ensures Extend(cells, pool)[n] == cells[n / |pool|] + [pool[n % |pool|]]
  {
    var l := |pool|;
    DivBound(n, |cells|, l);
    ExtendSize(cells, pool);
    ExtendSize(Init(cells), pool);
    assert n == (n / l) * l + n % l;
    if n / l == |cells| - 1 {
    } else {
      MulBound(n / l, |cells| - 1, n % l, l);
      ExtendAt(Init(cells), pool, n);
    }
  }

  lemma {:induction false} ExtendSize<T>(cells: seq<seq<T>>, pool: seq<T>)
    ensures |Extend(cells, pool)| == |cells| * |pool|
  {
    if cells == [] {
    } else {
      ExtendSize(Init(cells), pool);
      assert |cells| * |pool| == (|cells| - 1) * |pool| + |pool|;
    }
  }

  lemma {:induction false} CellsSize<T>(pools: seq<seq<T>>)
    ensures |Cells(pools)| == Size(Lens(pools))
  {
    if pools == [] {
    } else {
      CellsSize(Init(pools));
      ExtendSize(Cells(Init(pools)), Last(pools));
      assert Init(Lens(pools)) == Lens(Init(pools));
    }
  }

  lemma {:induction false} CellAt<T>(pools: seq<seq<T>>, n: nat)
    requires n < Size(Lens(pools))
    ensures |Cells(pools)| == Size(Lens(pools))
    ensures Cells(pools)[n] == Pick(pools, Digits(Lens(pools), n))
  {
    CellsSize(pools);
    if pools == [] {
    } else {
      var front, pool := Init(pools), Last(pools);
      assert Init(Lens(pools)) == Lens(front);
      CellsSize(front);
      DivBound(n, Size(Lens(front)), |pool|);
      CellAt(front, n / |pool|);
      ExtendAt(Cells(front), pool, n);
      var ds := Digits(Lens(pools), n);
      assert Init(ds) == Digits(Lens(front), n / |pool|);
      assert Pick(pools, ds) == Pick(front, Init(ds)) + [pool[Last(ds)]];
    }
  }

  /** The loop of the product is the mixed-radix count: as many cells as the lengths multiply to,
      the n-th one picked by the digits of n. */
  lemma CellsAreDigits<T>(pools: seq<seq<T>>)
    ensures |Cells(pools)| == Size(Lens(pools))
    ensures forall n :: 0 <= n < |Cells(pools)| ==> Cells(pools)[n] == Pick(pools, Digits(Lens(pools), n))
  {
    CellsSize(pools);
    forall n: nat | n < |Cells(pools)|
      ensures Cells(pools)[n] == Pick(pools, Digits(Lens(pools), n))
    {
      CellAt(pools, n);
    }
  }

  // ----- how often a cell occurs

  /** The product of the multiplicities of a cell's values, each in its own pool. */
  ghost function Multiplicity<T>(pools: seq<seq<T>>, cell: seq<T>): nat
    requires |cell| == |pools|
  {
    if pools == [] then 1
    else Multiplicity(Init(pools), Init(cell)) * multiset(Last(pools))[Last(cell)]
  }

  lemma {:induction false} RowCount<T>(x: seq<T>, pool: seq<T>, cell: seq<T>)
    requires cell != []
    ensures multiset(Row(x, pool))[cell] == if x == Init(cell) then multiset(pool)[Last(cell)] else 0
  {
    if pool == [] {
    } else {
      InitLast(pool);
      InitLast(cell);
      RowCount(x, Init(pool), cell);
      assert Row(x, pool) == Row(x, Init(pool)) + [x + [Last(pool)]];
      assert Init(x + [Last(pool)]) == x;
    }
  }

  lemma OneMore(m: nat, c: nat)
    ensures (m + 1) * c == m * c + c
  {
  }

  lemma {:induction false} ExtendCount<T>(cells: seq<seq<T>>, pool: seq<T>, cell: seq<T>)
    requires cell != []
    ensures multiset(Extend(cells, pool))[cell] == multiset(cells)[Init(cell)] * multiset(pool)[Last(cell)]
  {
    if cells == [] {
    } else {
      var front, row := Extend(Init(cells), pool), Row(Last(cells), pool);
      InitLast(cells);
      ExtendCount(Init(cells), pool, cell);
      RowCount(Last(cells), pool, cell);
      assert multiset(front + row)[cell] == multiset(front)[cell] + multiset(row)[cell];
      OneMore(multiset(Init(cells))[Init(cell)], multiset(pool)[Last(cell)]);
    }
  }

  lemma CellLength<T>(pools: seq<seq<T>>, cell: seq<T>)
    requires cell in Cells(pools)
    ensures |cell| == |pools|
  {
    CellsAreDigits(pools);
  }

  /** Soundness, completeness and exact counting: a tuple occurs as often as its values multiply
      up, so it occurs at all exactly when every value is in its pool. */
  lemma {:induction false} CellCount<T>(pools: seq<seq<T>>, cell: seq<T>)
    ensures multiset(Cells(pools))[cell] == if |cell| == |pools| then Multiplicity(pools, cell) else 0
  {
    if |cell| != |pools| {
      if cell in Cells(pools) {
        CellLength(pools, cell);
      }
    } else if pools == [] {
    } else {
      CellCount(Init(pools), Init(cell));
      ExtendCount(Cells(Init(pools)), Last(pools), cell);
    }
  }

  lemma {:induction false} MultiplicityPositive<T>(pools: seq<seq<T>>, cell: seq<T>)
    requires |cell| == |pools|
    ensures Multiplicity(pools, cell) > 0 <==> (forall i :: 0 <= i < |pools| ==> cell[i] in pools[i])
    ensures (forall i :: 0 <= i < |pools| ==> multiset(pools[i])[cell[i]] == 1) ==> Multiplicity(pools, cell) == 1
  {
    if pools == [] {
    } else {
      var front, rest := Multiplicity(Init(pools), Init(cell)), multiset(Last(pools))[Last(cell)];
      MultiplicityPositive(Init(pools), Init(cell));
      assert front > 0 && rest > 0 <==> front * rest > 0;
      assert forall i :: 0 <= i < |pools| - 1 ==> cell[i] == Init(cell)[i] && pools[i] == Init(pools)[i];
    }
  }

  // ----- how often a value occurs on an axis

  ghost function CountAt<T>(cells: seq<seq<T>>, i: nat, v: T): nat {
    if cells == [] then 0
    else CountAt(Init(cells), i, v) + (if i < |Last(cells)| && Last(cells)[i] == v then 1 else 0)
  }

  lemma {:induction false} CountAtConcat<T>(a: seq<seq<T>>, b: seq<seq<T>>, i: nat, v: T)
    ensures CountAt(a + b, i, v) == CountAt(a, i, v) + CountAt(b, i, v)
  {
    if b == [] {
      assert a + b == a;
    } else {
      assert Init(a + b) == a + Init(b);
      CountAtConcat(a, Init(b), i, v);
    }
  }

  lemma {:induction false} RowCountAt<T>(x: seq<T>, pool: seq<T>, i: nat, v: T)
    requires i <= |x|
    ensures CountAt(Row(x, pool), i, v) ==
            if i == |x| then multiset(pool)[v] else if x[i] == v then |pool| else 0
  {
    if pool == [] {
    } else {
      InitLast(pool);
      RowCountAt(x, Init(pool), i, v);
      assert Init(Row(x, pool)) == Row(x, Init(pool));
    }
  }

  lemma {:induction false} ExtendCountNew<T>(cells: seq<seq<T>>, pool: seq<T>, i: nat, v: T)
    requires forall x :: x in cells ==> |x| == i
    ensures CountAt(Extend(cells, pool), i, v) == |cells| * multiset(pool)[v]
  {
    if cells == [] {
    } else {
      ExtendCountNew(Init(cells), pool, i, v);
      CountAtConcat(Extend(Init(cells), pool), Row(Last(cells), pool), i, v);
      RowCountAt(Last(cells), pool, i, v);
      OneMore(|cells| - 1, multiset(pool)[v]);
    }
  }

  lemma {:induction false} ExtendCountOld<T>(cells: seq<seq<T>>, pool: seq<T>, i: nat, v: T)
    requires forall x :: x in cells ==> i < |x|
    ensures CountAt(Extend(cells, pool), i, v) == CountAt(cells, i, v) * |pool|
  {
    if cells == [] {
    } else {
      ExtendCountOld(Init(cells), pool, i, v);
      CountAtConcat(Extend(Init(cells), pool), Row(Last(cells), pool), i, v);
      RowCountAt(Last(cells), pool, i, v);
      OneMore(CountAt(Init(cells), i, v), |pool|);
    }
  }

  /** The values of an axis share the cells out evenly: the share of value v is its share of the axis. */
  lemma {:induction false} EvenShare<T>(pools: seq<seq<T>>, i: nat, v: T)
    requires i < |pools|
    ensures CountAt(Cells(pools), i, v) * |pools[i]| == multiset(pools[i])[v] * |Cells(pools)|
  {
    var front, pool := Init(pools), Last(pools);
    var n, l, c := |Cells(front)|, |pool|, multiset(pools[i])[v];
    forall x | x in Cells(front)
      ensures |x| == |front|
    {
      CellLength(front, x);
    }
    ExtendSize(Cells(front), pool);
    if i < |front| {
      ExtendCountOld(Cells(front), pool, i, v);
      EvenShare(front, i, v);
      Swap(CountAt(Cells(front), i, v), l, |pools[i]|);
      MulAssoc(c, n, l);
    } else {
      ExtendCountNew(Cells(front), pool, i, v);
      Swap(n, c, l);
      MulAssoc(c, n, l);
    }
  }

  /** With distinct values, every value of axis i is in exactly |cells| / |axis i| cells. */
  lemma EvenShareDistinct<T>(pools: seq<seq<T>>, i: nat, j: nat)
    requires i < |pools| && j < |pools[i]|
    requires forall k :: 0 <= k < |pools[i]| && k != j ==> pools[i][k] != pools[i][j]
    ensures CountAt(Cells(pools), i, pools[i][j]) == |Cells(pools)| / |pools[i]|
  {
    var pool, v := pools[i], pools[i][j];
    assert pool == pool[..j] + [v] + pool[j + 1..];
    assert v !in pool[..j] && v !in pool[j + 1..];
    assert multiset(pool)[v] == 1;
    EvenShare(pools, i, v);
    DivModUnique(|Cells(pools)|, |pool|, CountAt(Cells(pools), i, v), 0);
  }

  lemma Swap(x: nat, y: nat, z: nat)
    ensures (x * y) * z == (x * z) * y == (y * x) * z
  {
  }

  // ----- expanding in two stages

  /** Each of `inner` appended to the cell `a`. */
  function Prefixed<T>(a: seq<T>, inner: seq<seq<T>>): seq<seq<T>> {
    seq(|inner|, j requires 0 <= j < |inner| => a + inner[j])
  }

  /** `[a + b for a in outer for b in inner]` */
  function Nest<T>(outer: seq<seq<T>>, inner: seq<seq<T>>): seq<seq<T>> {
    if outer == [] then [] else Nest(Init(outer), inner) + Prefixed(Last(outer), inner)
  }

  lemma {:induction false} ExtendConcat<T>(x: seq<seq<T>>, y: seq<seq<T>>, pool: seq<T>)
    ensures Extend(x + y, pool) == Extend(x, pool) + Extend(y, pool)
  {
    if y == [] {
      assert x + y == x;
    } else {
      assert Init(x + y) == x + Init(y);
      ExtendConcat(x, Init(y), pool);
    }
  }

  lemma {:induction false} ExtendPrefixed<T>(a: seq<T>, inner: seq<seq<T>>, pool: seq<T>)
    ensures Extend(Prefixed(a, inner), pool) == Prefixed(a, Extend(inner, pool))
  {
    if inner == [] {
    } else {
      assert Init(Prefixed(a, inner)) == Prefixed(a, Init(inner));
      ExtendPrefixed(a, Init(inner), pool);
      var row := Row(Last(inner), pool);
      assert forall j :: 0 <= j < |pool| ==> a + Last(inner) + [pool[j]] == a + (Last(inner) + [pool[j]]);
      assert Row(a + Last(inner), pool) == Prefixed(a, row);
      assert Prefixed(a, Extend(Init(inner), pool) + row) == Prefixed(a, Extend(Init(inner), pool)) + Prefixed(a, row);
    }
  }

  lemma {:induction false} ExtendNest<T>(outer: seq<seq<T>>, inner: seq<seq<T>>, pool: seq<T>)
    ensures Extend(Nest(outer, inner), pool) == Nest(outer, Extend(inner, pool))
  {
    if outer == [] {
    } else {
      ExtendNest(Init(outer), inner, pool);
      ExtendConcat(Nest(Init(outer), inner), Prefixed(Last(outer), inner), pool);
      ExtendPrefixed(Last(outer), inner, pool);
    }
  }

  lemma {:induction false} NestUnit<T>(outer: seq<seq<T>>)
    ensures Nest(outer, [[]]) == outer
  {
    if outer == [] {
    } else {
      NestUnit(Init(outer));
      assert Last(outer) + [] == Last(outer);
      assert Prefixed(Last(outer), [[]]) == [Last(outer)];
    }
  }

  /** Expanding two lists of axes together is expanding the second inside every cell of the first. */
  lemma {:induction false} CellsNest<T>(a: seq<seq<T>>, b: seq<seq<T>>)
    ensures Cells(a + b) == Nest(Cells(a), Cells(b))
  {
    if b == [] {
      assert a + b == a;
      NestUnit(Cells(a));
    } else {
      assert Init(a + b) == a + Init(b);
      CellsNest(a, Init(b));
      ExtendNest(Cells(a), Cells(Init(b)), Last(b));
    }
  }
}
