/** The matrix of a class: its axes expanded into attribute assignments, those that the rules
    prohibit left out. */
module Matrix {
  import opened Seqs
  import opened Values
  import MixedRadix
  import opened Product
  import opened Rules

  datatype Axis = Axis(name: string, values: seq<Value>)

  function Names(axes: seq<Axis>): (names: seq<string>)
    ensures |names| == |axes|
    ensures forall i :: 0 <= i < |axes| ==> names[i] == axes[i].name
  {
    seq(|axes|, i requires 0 <= i < |axes| => axes[i].name)
  }

  function Pools(axes: seq<Axis>): (pools: seq<seq<Value>>)
    ensures |pools| == |axes|
    ensures forall i :: 0 <= i < |axes| ==> pools[i] == axes[i].values
  {
    seq(|axes|, i requires 0 <= i < |axes| => axes[i].values)
  }

  /** The axes are an ordered dictionary: no name twice. */
  ghost predicate DistinctNames(axes: seq<Axis>) {
    forall i, j :: 0 <= i < j < |axes| ==> axes[i].name != axes[j].name
  }

  ghost function NameSet(axes: seq<Axis>): set<string> {
    set a | a in axes :: a.name
  }

  /** `dict(zip(names, cell))` */
  function Zip(names: seq<string>, cell: seq<Value>): Env {
    if names == [] || cell == [] then map[]
    else map[names[0] := cell[0]] + Zip(names[1..], cell[1..])
  }

  function Zipping(names: seq<string>): seq<Value> -> Env {
    cell => Zip(names, cell)
  }

  function AllowedBy(rules: seq<Rule>): Env -> bool {
    env => Allowed(rules, env)
  }

  /** Every assignment, prohibited or not. */
  function Combinations(axes: seq<Axis>): seq<Env> {
    Map(Zipping(Names(axes)), Cells(Pools(axes)))
  }

  /** The attributes of the tasks that `matrix()` yields, in order. */
  function Expansion(axes: seq<Axis>, rules: seq<Rule>): seq<Env> {
    Filter(AllowedBy(rules), Combinations(axes))
  }

  // ----- assignments and cells

  lemma {:induction false} ZipNames(names: seq<string>, cell: seq<Value>)
    ensures forall k :: k in Zip(names, cell) ==> k in names
    ensures |names| == |cell| ==> forall k :: k in names ==> k in Zip(names, cell)
  {
    if names == [] || cell == [] {
    } else {
      assert names == [names[0]] + names[1..];
      ZipNames(names[1..], cell[1..]);
    }
  }

  lemma {:induction false} ZipValue(names: seq<string>, cell: seq<Value>, i: nat)
    requires |names| == |cell| && i < |names|
    requires forall i, j :: 0 <= i < j < |names| ==> names[i] != names[j]
    ensures names[i] in Zip(names, cell) && Zip(names, cell)[names[i]] == cell[i]
  {
    ZipNames(names[1..], cell[1..]);
    if i == 0 {
    } else {
      assert names[1..][i - 1] == names[i] && cell[1..][i - 1] == cell[i];
      ZipValue(names[1..], cell[1..], i - 1);
    }
  }

  lemma ZipAt(names: seq<string>, cell: seq<Value>)
    requires |names| == |cell|
    requires forall i, j :: 0 <= i < j < |names| ==> names[i] != names[j]
    ensures forall k :: k in Zip(names, cell) <==> k in names
    ensures forall i :: 0 <= i < |names| ==> Zip(names, cell)[names[i]] == cell[i]
  {
    ZipNames(names, cell);
    forall i: nat | i < |names|
      ensures names[i] in Zip(names, cell) && Zip(names, cell)[names[i]] == cell[i]
    {
      ZipValue(names, cell, i);
    }
  }

  /** The cell an assignment came from. */
  ghost function CellOf(axes: seq<Axis>, env: Env): seq<Value>
    requires NameSet(axes) <= env.Keys
  {
    seq(|axes|, i requires 0 <= i < |axes| => assert axes[i] in axes; env[axes[i].name])
  }

  lemma CellOfZip(axes: seq<Axis>, cell: seq<Value>)
    requires DistinctNames(axes) && |cell| == |axes|
    ensures Zip(Names(axes), cell).Keys == NameSet(axes)
    ensures CellOf(axes, Zip(Names(axes), cell)) == cell
  {
    var env := Zip(Names(axes), cell);
    ZipAt(Names(axes), cell);
    forall k
      ensures k in env.Keys <==> k in NameSet(axes)
    {
      if k in env {
        var i :| 0 <= i < |axes| && Names(axes)[i] == k;
        assert axes[i] in axes;
      }
      if a :| a in axes && a.name == k {
        var i :| 0 <= i < |axes| && axes[i] == a;
        assert Names(axes)[i] == k;
      }
    }
  }

  lemma ZipOfCell(axes: seq<Axis>, env: Env)
    requires DistinctNames(axes) && NameSet(axes) == env.Keys
    ensures Zip(Names(axes), CellOf(axes, env)) == env
  {
    var names, cell := Names(axes), CellOf(axes, env);
    CellOfZip(axes, cell);
    ZipAt(names, cell);
    forall k | k in env
      ensures env[k] == Zip(names, cell)[k]
    {
      var a :| a in axes && a.name == k;
      var i :| 0 <= i < |axes| && axes[i] == a;
      assert names[i] == k && cell[i] == env[k];
    }
  }

  // ----- how often an assignment is yielded

  /** The product, over the axes, of the multiplicity of the assigned value in its axis. */
  ghost function Weight(axes: seq<Axis>, env: Env): nat
    requires NameSet(axes) <= env.Keys
  {
    if axes == [] then 1
    else
      assert Last(axes) in axes && NameSet(Init(axes)) <= NameSet(axes);
      Weight(Init(axes), env) * multiset(Last(axes).values)[env[Last(axes).name]]
  }

  lemma {:induction false} WeightIsMultiplicity(axes: seq<Axis>, env: Env)
    requires NameSet(axes) <= env.Keys
    ensures Weight(axes, env) == Multiplicity(Pools(axes), CellOf(axes, env))
  {
    if axes == [] {
    } else {
      assert Last(axes) in axes && NameSet(Init(axes)) <= NameSet(axes);
      WeightIsMultiplicity(Init(axes), env);
      assert Init(Pools(axes)) == Pools(Init(axes));
      assert Init(CellOf(axes, env)) == CellOf(Init(axes), env);
    }
  }

  lemma CombinationCount(axes: seq<Axis>, env: Env)
    requires DistinctNames(axes)
    ensures multiset(Combinations(axes))[env] == if env.Keys == NameSet(axes) then Weight(axes, env) else 0
  {
    var zip, cells := Zipping(Names(axes)), Cells(Pools(axes));
    forall c | c in cells
      ensures |c| == |axes|
    {
      CellLength(Pools(axes), c);
    }
    if env.Keys == NameSet(axes) {
      var cell := CellOf(axes, env);
      ZipOfCell(axes, env);
      forall c | c in cells && zip(c) == zip(cell)
        ensures c == cell
      {
        CellOfZip(axes, c);
      }
      MapCount(zip, cells, cell);
      CellCount(Pools(axes), cell);
      WeightIsMultiplicity(axes, env);
    } else {
      forall i | 0 <= i < |cells|
        ensures Combinations(axes)[i] != env
      {
        assert cells[i] in cells;
        CellOfZip(axes, cells[i]);
      }
    }
  }

  /** Soundness, completeness and exact counting for the whole matrix. */
  lemma ExpansionCount(axes: seq<Axis>, rules: seq<Rule>, env: Env)
    requires DistinctNames(axes)
    ensures multiset(Expansion(axes, rules))[env] ==
            if env.Keys == NameSet(axes) && Allowed(rules, env) then Weight(axes, env) else 0
  {
    FilterCount(AllowedBy(rules), Combinations(axes), env);
    CombinationCount(axes, env);
  }

  lemma WeightPositive(axes: seq<Axis>, env: Env)
    requires NameSet(axes) <= env.Keys
    ensures Weight(axes, env) > 0 <==> (forall a :: a in axes ==> env[a.name] in a.values)
    ensures (forall a :: a in axes ==> multiset(a.values)[env[a.name]] == 1) ==> Weight(axes, env) == 1
  {
    var pools, cell := Pools(axes), CellOf(axes, env);
    WeightIsMultiplicity(axes, env);
    MultiplicityPositive(pools, cell);
    assert forall i :: 0 <= i < |axes| ==> axes[i] in axes;
  }

  /** The assignment gives each axis, and nothing else, one of the axis' values. */
  ghost predicate Fits(axes: seq<Axis>, env: Env) {
    env.Keys == NameSet(axes) && forall a :: a in axes ==> env[a.name] in a.values
  }

  /** A task is yielded for an assignment exactly when it fits the axes and the rules let it pass. */
  lemma YieldedExactly(axes: seq<Axis>, rules: seq<Rule>, env: Env)
    requires DistinctNames(axes)
    ensures env in Expansion(axes, rules) <==> Fits(axes, env) && Allowed(rules, env)
  {
    ExpansionCount(axes, rules, env);
    if env.Keys == NameSet(axes) {
      WeightPositive(axes, env);
    }
    assert env in Expansion(axes, rules) <==> env in multiset(Expansion(axes, rules));
  }

  /** When no axis repeats a value, no assignment is yielded twice. */
  lemma YieldedOnce(axes: seq<Axis>, rules: seq<Rule>, env: Env)
    requires DistinctNames(axes) && forall a :: a in axes ==> NoRepeats(a.values)
    requires env in Expansion(axes, rules)
    ensures multiset(Expansion(axes, rules))[env] == 1
  {
    YieldedExactly(axes, rules, env);
    ExpansionCount(axes, rules, env);
    WeightPositive(axes, env);
    forall a | a in axes
      ensures multiset(a.values)[env[a.name]] == 1
    {
      OnceOnly(a.values, env[a.name]);
    }
  }

  ghost predicate NoRepeats<T>(s: seq<T>) {
    forall i, j :: 0 <= i < j < |s| ==> s[i] != s[j]
  }

  lemma OnceOnly<T>(s: seq<T>, x: T)
    requires NoRepeats(s) && x in s
    ensures multiset(s)[x] == 1
  {
    var j :| 0 <= j < |s| && s[j] == x;
    assert s == s[..j] + [x] + s[j + 1..];
    assert x !in s[..j] && x !in s[j + 1..];
  }

  // ----- order

  /** There are as many combinations as the axis lengths multiply to; the n-th takes from each axis
      the value at n's mixed-radix digit. */
  lemma CombinationsInOrder(axes: seq<Axis>)
    ensures |Combinations(axes)| == MixedRadix.Size(Lens(Pools(axes)))
    ensures forall n :: 0 <= n < |Combinations(axes)| ==>
              Combinations(axes)[n] == Zip(Names(axes), Pick(Pools(axes), MixedRadix.Digits(Lens(Pools(axes)), n)))
  {
    CellsAreDigits(Pools(axes));
  }

  /** The numbers of the cells that the rules let pass. */
  ghost function KeptCells(axes: seq<Axis>, rules: seq<Rule>): seq<nat> {
    Positions(AllowedBy(rules), Combinations(axes))
  }

  /** The matrix is the allowed part of the count, in counting order. */
  lemma ExpansionInOrder(axes: seq<Axis>, rules: seq<Rule>)
    ensures StrictlyIncreasing(KeptCells(axes, rules)) && |KeptCells(axes, rules)| == |Expansion(axes, rules)|
    ensures forall n :: 0 <= n < |Combinations(axes)| ==>
              (n in KeptCells(axes, rules) <==> Allowed(rules, Combinations(axes)[n]))
    ensures forall j :: 0 <= j < |Expansion(axes, rules)| ==>
              KeptCells(axes, rules)[j] < |Combinations(axes)| &&
              Expansion(axes, rules)[j] == Combinations(axes)[KeptCells(axes, rules)[j]]
  {
    FilterPositions(AllowedBy(rules), Combinations(axes));
  }

  // ----- rules composed, rules and axes reordered

  /** More rules only filter further. */
  lemma RulesFuse(axes: seq<Axis>, first: seq<Rule>, second: seq<Rule>)
    ensures Expansion(axes, first + second) == Filter(AllowedBy(second), Expansion(axes, first))
  {
    forall env: Env
      ensures AllowedBy(first + second)(env) <==> AllowedBy(first)(env) && AllowedBy(second)(env)
    {
      AllowedConcat(first, second, env);
    }
    FilterFilter(AllowedBy(first), AllowedBy(second), AllowedBy(first + second), Combinations(axes));
  }

  lemma {:induction false} FilterSame<T>(p: T -> bool, q: T -> bool, s: seq<T>)
    requires forall x :: p(x) <==> q(x)
    ensures Filter(p, s) == Filter(q, s)
  {
    if s == [] {
    } else {
      FilterSame(p, q, Init(s));
    }
  }

  lemma RuleOrderIrrelevant(axes: seq<Axis>, a: seq<Rule>, b: seq<Rule>)
    requires forall r :: r in a <==> r in b
    ensures Expansion(axes, a) == Expansion(axes, b)
  {
    forall env: Env
      ensures AllowedBy(a)(env) <==> AllowedBy(b)(env)
    {
      AllowedSameRules(a, b, env);
    }
    FilterSame(AllowedBy(a), AllowedBy(b), Combinations(axes));
  }

  lemma {:induction false} WeightWithout(axes: seq<Axis>, k: nat, env: Env)
    requires k < |axes| && NameSet(axes) <= env.Keys
    ensures NameSet(axes[..k] + axes[k + 1..]) <= env.Keys && axes[k].name in env
    ensures Weight(axes, env) ==
            Weight(axes[..k] + axes[k + 1..], env) * multiset(axes[k].values)[env[axes[k].name]]
    decreases |axes|
  {
    var rest := axes[..k] + axes[k + 1..];
    assert axes[k] in axes;
    assert forall a :: a in rest ==> a in axes;
    if k == |axes| - 1 {
      assert rest == Init(axes);
    } else {
      assert Last(axes) in axes && NameSet(Init(axes)) <= NameSet(axes);
      WeightWithout(Init(axes), k, env);
      InitWithout(axes, k);
      Swap(Weight(Init(rest), env), multiset(axes[k].values)[env[axes[k].name]],
           multiset(Last(axes).values)[env[Last(axes).name]]);
    }
  }

  lemma {:induction false} WeightReordered(a: seq<Axis>, b: seq<Axis>, env: Env)
    requires multiset(a) == multiset(b) && NameSet(a) <= env.Keys && NameSet(b) <= env.Keys
    ensures Weight(a, env) == Weight(b, env)
    decreases |a|
  {
    if a == [] {
      assert |multiset(b)| == 0;
    } else {
      var k := MatchLast(a, b);
      assert Last(a) in a && NameSet(Init(a)) <= NameSet(a);
      WeightWithout(b, k, env);
      WeightReordered(Init(a), b[..k] + b[k + 1..], env);
    }
  }

  /** Reordering the axes reorders the tasks and does nothing else. */
  lemma AxisOrderIrrelevant(a: seq<Axis>, b: seq<Axis>, rules: seq<Rule>)
    requires DistinctNames(a) && DistinctNames(b) && multiset(a) == multiset(b)
    ensures multiset(Expansion(a, rules)) == multiset(Expansion(b, rules))
  {
    forall x
      ensures x in a <==> x in b
    {
      assert x in multiset(a) <==> x in multiset(b);
    }
    assert NameSet(a) == NameSet(b);
    forall env: Env
      ensures multiset(Expansion(a, rules))[env] == multiset(Expansion(b, rules))[env]
    {
      ExpansionCount(a, rules, env);
      ExpansionCount(b, rules, env);
      if env.Keys == NameSet(a) {
        WeightReordered(a, b, env);
      }
    }
  }

  // ----- expanding in two stages

  function Joined(env: Env, inner: seq<Env>): seq<Env> {
    seq(|inner|, j requires 0 <= j < |inner| => env + inner[j])
  }

  /** `[x + y for x in outer for y in inner]` on assignments. */
  function NestEnvs(outer: seq<Env>, inner: seq<Env>): seq<Env> {
    if outer == [] then [] else NestEnvs(Init(outer), inner) + Joined(Last(outer), inner)
  }

  lemma MapAssoc(a: Env, b: Env, c: Env)
    ensures (a + b) + c == a + (b + c)
  {
  }

  lemma {:induction false} ZipConcat(n: seq<string>, n': seq<string>, c: seq<Value>, c': seq<Value>)
    requires |n| == |c|
    ensures Zip(n + n', c + c') == Zip(n, c) + Zip(n', c')
  {
    if n == [] {
      assert n + n' == n' && c + c' == c';
    } else {
      assert (n + n')[1..] == n[1..] + n' && (c + c')[1..] == c[1..] + c';
      ZipConcat(n[1..], n', c[1..], c');
      MapAssoc(map[n[0] := c[0]], Zip(n[1..], c[1..]), Zip(n', c'));
    }
  }

  lemma {:induction false} ZipNest(a: seq<Axis>, b: seq<Axis>, outer: seq<seq<Value>>, inner: seq<seq<Value>>)
    requires forall x :: x in outer ==> |x| == |a|
    ensures Map(Zipping(Names(a + b)), Nest(outer, inner)) ==
            NestEnvs(Map(Zipping(Names(a)), outer), Map(Zipping(Names(b)), inner))
  {
    if outer == [] {
    } else {
      assert Last(outer) in outer;
      ZipNest(a, b, Init(outer), inner);
      ZipPrefixed(a, b, Last(outer), inner);
      MapConcat(Zipping(Names(a + b)), Nest(Init(outer), inner), Prefixed(Last(outer), inner));
      assert Init(Map(Zipping(Names(a)), outer)) == Map(Zipping(Names(a)), Init(outer));
    }
  }

  lemma ZipPrefixed(a: seq<Axis>, b: seq<Axis>, x: seq<Value>, inner: seq<seq<Value>>)
    requires |x| == |a|
    ensures Map(Zipping(Names(a + b)), Prefixed(x, inner)) ==
            Joined(Zip(Names(a), x), Map(Zipping(Names(b)), inner))
  {
    assert Names(a + b) == Names(a) + Names(b);
    forall j | 0 <= j < |inner|
      ensures Zip(Names(a + b), x + inner[j]) == Zip(Names(a), x) + Zip(Names(b), inner[j])
    {
      ZipConcat(Names(a), Names(b), x, inner[j]);
    }
  }

  lemma CombinationsNest(a: seq<Axis>, b: seq<Axis>)
    ensures Combinations(a + b) == NestEnvs(Combinations(a), Combinations(b))
  {
    forall x | x in Cells(Pools(a))
      ensures |x| == |a|
    {
      CellLength(Pools(a), x);
    }
    assert Pools(a + b) == Pools(a) + Pools(b);
    CellsNest(Pools(a), Pools(b));
    ZipNest(a, b, Cells(Pools(a)), Cells(Pools(b)));
  }

  ghost predicate AgreeOn(x: Env, y: Env, names: set<string>) {
    forall k :: k in names ==> (k in x <==> k in y) && (k in x ==> x[k] == y[k])
  }

  /** The rules look at no attribute outside `names`. */
  ghost predicate ReadsOnly(rules: seq<Rule>, names: set<string>) {
    forall x: Env, y: Env :: AgreeOn(x, y, names) ==> Allowed(rules, x) == Allowed(rules, y)
  }

  lemma {:induction false} FilterNest(p: Env -> bool, outer: seq<Env>, inner: seq<Env>)
    requires forall x, y :: x in outer && y in inner ==> p(x + y) == p(x)
    ensures Filter(p, NestEnvs(outer, inner)) == NestEnvs(Filter(p, outer), inner)
  {
    if outer == [] {
    } else {
      var x := Last(outer);
      assert x in outer;
      FilterNest(p, Init(outer), inner);
      FilterConcat(p, NestEnvs(Init(outer), inner), Joined(x, inner));
      assert forall e :: e in Joined(x, inner) ==> p(e) == p(x);
      if p(x) {
        FilterAll(p, Joined(x, inner));
        assert Init(Filter(p, outer)) == Filter(p, Init(outer));
      } else {
        FilterNone(p, Joined(x, inner));
        assert Filter(p, outer) == Filter(p, Init(outer));
        var front := Filter(p, NestEnvs(Init(outer), inner));
        assert front + [] == front;
      }
    }
  }

  /** Rules that read only the first axes can prune them before the others are expanded. */
  lemma PruneEarly(a: seq<Axis>, b: seq<Axis>, rules: seq<Rule>)
    requires DistinctNames(a + b) && ReadsOnly(rules, NameSet(a))
    ensures Expansion(a + b, rules) == NestEnvs(Expansion(a, rules), Combinations(b))
  {
    CombinationsNest(a, b);
    forall x, y | x in Combinations(a) && y in Combinations(b)
      ensures AllowedBy(rules)(x + y) == AllowedBy(rules)(x)
    {
      CombinationNames(b, y);
      forall k | k in NameSet(a)
        ensures k !in y
      {
        NamesApart(a, b, k);
      }
      assert AgreeOn(x + y, x, NameSet(a));
    }
    FilterNest(AllowedBy(rules), Combinations(a), Combinations(b));
  }

  lemma CombinationNames(axes: seq<Axis>, env: Env)
    requires env in Combinations(axes)
    ensures env.Keys <= NameSet(axes)
  {
    var i :| 0 <= i < |Combinations(axes)| && Combinations(axes)[i] == env;
    ZipNames(Names(axes), Cells(Pools(axes))[i]);
    forall k | k in env
      ensures k in NameSet(axes)
    {
      var j :| 0 <= j < |axes| && Names(axes)[j] == k;
      assert axes[j] in axes;
    }
  }

  lemma NamesApart(a: seq<Axis>, b: seq<Axis>, k: string)
    requires DistinctNames(a + b) && k in NameSet(a)
    ensures k !in NameSet(b)
  {
    var x :| x in a && x.name == k;
    var i :| 0 <= i < |a| && a[i] == x;
    forall j | 0 <= j < |b|
      ensures b[j].name != k
    {
      assert (a + b)[i] == x && (a + b)[|a| + j] == b[j];
    }
  }

  // ----- construction from keywords

  ghost predicate NoEmptyAxis(axes: seq<Axis>) {
    forall i :: 0 <= i < |axes| ==> axes[i].values != []
  }

  /** The attributes a construction sets, axis by axis: the keyword given, or the first value. */
  ghost function Filled(axes: seq<Axis>, kwargs: Env): Env
    requires NoEmptyAxis(axes)
  {
    if axes == [] then map[]
    else
      var a := Last(axes);
      Filled(Init(axes), kwargs)[a.name := if a.name in kwargs then kwargs[a.name] else a.values[0]]
  }

  lemma {:induction false} FilledKeys(axes: seq<Axis>, kwargs: Env)
    requires NoEmptyAxis(axes)
    ensures Filled(axes, kwargs).Keys == NameSet(axes)
  {
    if axes == [] {
    } else {
      FilledKeys(Init(axes), kwargs);
      InitLast(axes);
      assert NameSet(axes) == NameSet(Init(axes)) + {Last(axes).name};
    }
  }

  lemma {:induction false} FilledZip(axes: seq<Axis>, kwargs: Env, cell: seq<Value>)
    requires DistinctNames(axes) && NoEmptyAxis(axes) && |cell| == |axes|
    requires forall i :: 0 <= i < |axes| ==>
               cell[i] == if axes[i].name in kwargs then kwargs[axes[i].name] else axes[i].values[0]
    ensures Filled(axes, kwargs) == Zip(Names(axes), cell)
  {
    if axes == [] {
    } else {
      FilledZip(Init(axes), kwargs, Init(cell));
      InitLast(cell);
      assert Names(axes) == Names(Init(axes)) + [Last(axes).name];
      ZipSnoc(Names(Init(axes)), Init(cell), Last(axes).name, Last(cell));
    }
  }

  lemma {:induction false} ZipSnoc(names: seq<string>, cell: seq<Value>, k: string, v: Value)
    requires |names| == |cell|
    ensures Zip(names + [k], cell + [v]) == Zip(names, cell)[k := v]
  {
    if names == [] {
      assert Zip([k], [v]) == map[k := v] + Zip([], []);
    } else {
      assert (names + [k])[1..] == names[1..] + [k] && (cell + [v])[1..] == cell[1..] + [v];
      ZipSnoc(names[1..], cell[1..], k, v);
    }
  }

  /** Passing a cell as keywords sets exactly that cell, and uses every keyword up. */
  lemma CellRoundTrip(axes: seq<Axis>, cell: seq<Value>)
    requires DistinctNames(axes) && NoEmptyAxis(axes) && |cell| == |axes|
    ensures Filled(axes, Zip(Names(axes), cell)) == Zip(Names(axes), cell)
    ensures Zip(Names(axes), cell) - NameSet(axes) == map[]
  {
    var env := Zip(Names(axes), cell);
    ZipAt(Names(axes), cell);
    assert forall i :: 0 <= i < |axes| ==> Names(axes)[i] in env && env[Names(axes)[i]] == cell[i];
    FilledZip(axes, env, cell);
    CellOfZip(axes, cell);
    assert (env - NameSet(axes)).Keys == {};
  }

  lemma {:induction false} SizePositive(lens: seq<nat>)
    ensures MixedRadix.Size(lens) > 0 <==> (forall i :: 0 <= i < |lens| ==> lens[i] > 0)
    ensures MixedRadix.Size(lens) > 0 ==> MixedRadix.Digits(lens, 0) == seq(|lens|, i => 0)
  {
    if lens == [] {
    } else {
      var s, l := MixedRadix.Size(Init(lens)), Last(lens);
      SizePositive(Init(lens));
      assert s * l > 0 <==> s > 0 && l > 0;
      assert forall i :: 0 <= i < |lens| - 1 ==> lens[i] == Init(lens)[i];
    }
  }

  /** A matrix is empty before any rule runs exactly when some axis is. */
  lemma NoCellsIffEmptyAxis(axes: seq<Axis>)
    ensures Combinations(axes) == [] <==> !NoEmptyAxis(axes)
  {
    CombinationsInOrder(axes);
    SizePositive(Lens(Pools(axes)));
  }

  /** Construction without keywords gives the first cell. */
  lemma DefaultIsFirstCell(axes: seq<Axis>)
    requires DistinctNames(axes) && NoEmptyAxis(axes)
    ensures Combinations(axes) != [] && Filled(axes, map[]) == Combinations(axes)[0]
  {
    var pools := Pools(axes);
    NoCellsIffEmptyAxis(axes);
    SizePositive(Lens(pools));
    CombinationsInOrder(axes);
    FilledZip(axes, map[], Pick(pools, MixedRadix.Digits(Lens(pools), 0)));
  }
}
