/** Lowering a configuration value to the node tree that the YAML emitter writes: sets become sorted
    lists, configuration objects their dictionaries, multi-line strings block scalars. */
module Dumper {
  import opened Seqs
  import Sorting
  import opened Values

  datatype Tag = NullTag | BoolTag | IntTag | StrTag
  datatype Style = Default | Block
  datatype Node =
    | Scalar(tag: Tag, text: string, style: Style)
    | Sequence(items: seq<Node>)
    | Mapping(entries: seq<(Node, Node)>)

  function ScalarNode(tag: Tag, text: string): Node {
    Scalar(tag, text, if '\n' in text then Block else Default)
  }

  // ----- numbers as text

  function Digit(d: nat): char
    requires d < 10
  {
    ('0' as int + d) as char
  }

  function NatText(n: nat): (text: string)
    ensures text != [] && forall c :: c in text ==> '0' <= c <= '9'
  {
    if n < 10 then [Digit(n)] else NatText(n / 10) + [Digit(n % 10)]
  }

  function IntText(i: int): string {
    if i < 0 then "-" + NatText(-i) else NatText(i)
  }

  function ReadNat(text: string): int {
    if text == [] then 0 else ReadNat(Init(text)) * 10 + (Last(text) as int - '0' as int)
  }

  function ReadInt(text: string): int {
    if text != [] && text[0] == '-' then -ReadNat(text[1..]) else ReadNat(text)
  }

  lemma {:induction false} ReadNatText(n: nat)
    ensures ReadNat(NatText(n)) == n
  {
    if n < 10 {
      assert Init([Digit(n)]) == [];
    } else {
      ReadNatText(n / 10);
      assert Init(NatText(n)) == NatText(n / 10);
    }
  }

  /** Decimal notation, digit by digit and without leading zeros; a negative number has a minus sign. */
  lemma {:induction false} DecimalText(n: nat)
    ensures n < 10 ==> NatText(n) == ["0123456789"[n]]
    ensures n >= 10 ==> NatText(n) == NatText(n / 10) + NatText(n % 10)
    ensures NatText(n)[0] == '0' <==> n == 0
    ensures n > 0 ==> IntText(n) == NatText(n) && IntText(-(n as int)) == "-" + NatText(n)
  {
    if n < 10 {
    } else {
      DecimalText(n / 10);
      assert NatText(n)[0] == NatText(n / 10)[0];
    }
  }

  lemma ReadIntText(i: int)
    ensures ReadInt(IntText(i)) == i
    ensures '\n' !in IntText(i)
  {
    if i < 0 {
      ReadNatText(-i);
      assert IntText(i)[1..] == NatText(-i);
    } else {
      ReadNatText(i);
      assert NatText(i)[0] in NatText(i);
    }
  }

  // ----- sets

  /** Python's `<` where it is defined. */
  predicate ValueLess(a: Value, b: Value) {
    || (a.Str? && b.Str? && Sorting.StrLess(a.s, b.s))
    || (IsNumber(a) && IsNumber(b) && NumberOf(a) < NumberOf(b))
  }

  /** Strings by their text, numbers by size with True as 1 and False as 0, and nothing else. */
  lemma ValueLessExactly(v: Value, w: Value)
    ensures ValueLess(v, w) <==>
            match (v, w)
            case (Str(a), Str(b)) => a < b || exists k :: 0 <= k < |a| && k < |b| && a[..k] == b[..k] && a[k] < b[k]
            case (Int(i), Int(j)) => i < j
            case (Int(i), Bool(b)) => i < if b then 1 else 0
            case (Bool(b), Int(i)) => (if b then 1 else 0) < i
            case (Bool(b), Bool(c)) => !b && c
            case _ => false
  {
    if v.Str? && w.Str? {
      Sorting.StrLessIsLexicographic(v.s, w.s);
    }
  }

  /** What can be a set's elements in iteration order: no two of them equal. */
  ghost predicate IsSet(elems: seq<Value>) {
    forall i, j :: 0 <= i < j < |elems| ==> !PyEqual(elems[i], elems[j])
  }

  /** `sorted` raises TypeError on anything else. */
  predicate Sortable(elems: seq<Value>) {
    |elems| <= 1 || AllStrings(elems) || AllNumbers(elems)
  }

  predicate AllStrings(vs: seq<Value>) {
    forall i :: 0 <= i < |vs| ==> vs[i].Str?
  }

  predicate AllNumbers(vs: seq<Value>) {
    forall i :: 0 <= i < |vs| ==> IsNumber(vs[i])
  }

  lemma ValueLessStrictOrder()
    ensures Sorting.StrictOrder(ValueLess)
  {
    forall a
      ensures !ValueLess(a, a)
    {
      if a.Str? {
        Sorting.StrLessIrreflexive(a.s);
      }
    }
    forall a, b, c | ValueLess(a, b) && ValueLess(b, c)
      ensures ValueLess(a, c)
    {
      if a.Str? {
        Sorting.StrLessTransitive(a.s, b.s, c.s);
      }
    }
  }

  lemma SetCompares(elems: seq<Value>)
    requires IsSet(elems) && Sortable(elems)
    ensures Sorting.StrictOrder(ValueLess) && Sorting.Comparable(ValueLess, elems)
  {
    ValueLessStrictOrder();
    forall i, j | 0 <= i < j < |elems|
      ensures ValueLess(elems[i], elems[j]) || ValueLess(elems[j], elems[i])
    {
      assert !PyEqual(elems[i], elems[j]);
      if elems[i].Str? {
        Sorting.StrLessTotal(elems[i].s, elems[j].s);
      }
    }
  }

  /** A set can be sorted exactly when any two of its elements compare. */
  lemma SortableExactly(elems: seq<Value>)
    requires IsSet(elems)
    ensures Sortable(elems) <==> Sorting.Comparable(ValueLess, elems)
  {
    if Sortable(elems) {
      SetCompares(elems);
    } else {
      var i, j := SomeOfNeither(elems);
      assert !ValueLess(elems[i], elems[j]) && !ValueLess(elems[j], elems[i]);
    }
  }

  lemma SomeOfNeither(elems: seq<Value>) returns (i: nat, j: nat)
    requires !Sortable(elems)
    ensures i < j < |elems|
    ensures !(elems[i].Str? && elems[j].Str?) && !(IsNumber(elems[i]) && IsNumber(elems[j]))
  {
    var k :| 0 <= k < |elems| && !elems[k].Str?;
    var l :| 0 <= l < |elems| && !IsNumber(elems[l]);
    if k < l {
      i, j := k, l;
    } else if l < k {
      i, j := l, k;
    } else if k == 0 {
      i, j := 0, 1;
    } else {
      i, j := 0, k;
    }
  }

  // ----- lowering

  function Collect<T>(rs: seq<Result<T>>): Result<seq<T>> {
    if exists i :: 0 <= i < |rs| && rs[i].Err? then Err(TypeError)
    else Ok(seq(|rs|, i requires 0 <= i < |rs| => rs[i].value))
  }

  function Wrap<A, B>(f: A -> B, r: Result<A>): Result<B> {
    match r
    case Ok(value) => Ok(f(value))
    case Err(error) => Err(error)
  }

  function Lower(v: Value): Result<Node> {
    match v
    case PyNone => Ok(ScalarNode(NullTag, "null"))
    case Bool(b) => Ok(ScalarNode(BoolTag, if b then "true" else "false"))
    case Int(i) => Ok(ScalarNode(IntTag, IntText(i)))
    case Str(s) => Ok(ScalarNode(StrTag, s))
    case List(items) =>
      Wrap(ToSequence, Collect(seq(|items|, i requires 0 <= i < |items| => Lower(items[i]))))
    case Dict(entries) =>
      Wrap(ToMapping, Collect(seq(|entries|, i requires 0 <= i < |entries| =>
        Wrap(Keyed(entries[i].0), Lower(entries[i].1)))))
    case Set(elems) =>
      if Sortable(elems) then
        var sorted := Sorting.Sorted(ValueLess, elems);
        Sorting.SortedMembers(ValueLess, elems);
        Wrap(ToSequence, Collect(seq(|sorted|, i requires 0 <= i < |sorted| =>
          assert sorted[i] in elems; Lower(sorted[i]))))
      else Err(TypeError)
    case Config(_, printed) => Lower(printed)
  }

  function ToSequence(items: seq<Node>): Node {
    Sequence(items)
  }

  function ToMapping(entries: seq<(Node, Node)>): Node {
    Mapping(entries)
  }

  function Keyed(key: string): Node -> (Node, Node) {
    (value: Node) => (ScalarNode(StrTag, key), value)
  }

  function LowerAll(vs: seq<Value>): seq<Result<Node>> {
    seq(|vs|, i requires 0 <= i < |vs| => Lower(vs[i]))
  }

  lemma LowerList(items: seq<Value>)
    ensures Lower(List(items)) == Wrap(ToSequence, Collect(LowerAll(items)))
  {
    assert LowerAll(items) == seq(|items|, i requires 0 <= i < |items| => Lower(items[i]));
  }

  function EntryResults(entries: OD): seq<Result<(Node, Node)>> {
    seq(|entries|, i requires 0 <= i < |entries| => Wrap(Keyed(entries[i].0), Lower(entries[i].1)))
  }

  lemma LowerDict(entries: OD)
    ensures Lower(Dict(entries)) == Wrap(ToMapping, Collect(EntryResults(entries)))
  {
    assert EntryResults(entries) ==
           seq(|entries|, i requires 0 <= i < |entries| => Wrap(Keyed(entries[i].0), Lower(entries[i].1)));
  }

  lemma LowerSetAsList(elems: seq<Value>)
    ensures Lower(Set(elems)) ==
            if Sortable(elems) then Lower(List(Sorting.Sorted(ValueLess, elems))) else Err(TypeError)
  {
    var sorted := Sorting.Sorted(ValueLess, elems);
    Sorting.SortedMembers(ValueLess, elems);
    LowerList(sorted);
    assert LowerAll(sorted) ==
           seq(|sorted|, i requires 0 <= i < |sorted| => assert sorted[i] in elems; Lower(sorted[i]));
  }

  /** A sortable set is lowered as the list of its elements in strictly increasing order. */
  lemma LowerSet(elems: seq<Value>)
    requires IsSet(elems)
    ensures Lower(Set(elems)) ==
            if Sortable(elems) then Lower(List(Sorting.Sorted(ValueLess, elems))) else Err(TypeError)
    ensures Sortable(elems) <==> Sorting.Comparable(ValueLess, elems)
    ensures Sortable(elems) ==> Sorting.Increasing(ValueLess, Sorting.Sorted(ValueLess, elems))
    ensures multiset(Sorting.Sorted(ValueLess, elems)) == multiset(elems)
  {
    LowerSetAsList(elems);
    SortableExactly(elems);
    Sorting.SortedMembers(ValueLess, elems);
    if Sortable(elems) {
      SetCompares(elems);
      Sorting.SortedIncreasing(ValueLess, elems);
    }
  }

  /** Sorted strings come in code point order, a proper prefix first. */
  lemma StringsInOrder(elems: seq<Value>)
    requires IsSet(elems) && forall i :: 0 <= i < |elems| ==> elems[i].Str?
    ensures var sorted := Sorting.Sorted(ValueLess, elems);
            && |sorted| == |elems| && multiset(sorted) == multiset(elems)
            && (forall i :: 0 <= i < |sorted| ==> sorted[i].Str?)
            && forall i, j :: 0 <= i < j < |sorted| ==>
                 var a, b := sorted[i].s, sorted[j].s;
                 a < b || exists k :: 0 <= k < |a| && k < |b| && a[..k] == b[..k] && a[k] < b[k]
  {
    var sorted := Sorting.Sorted(ValueLess, elems);
    SetCompares(elems);
    Sorting.SortedIncreasing(ValueLess, elems);
    Sorting.SortedMembers(ValueLess, elems);
    forall i | 0 <= i < |sorted|
      ensures sorted[i].Str?
    {
      assert sorted[i] in elems;
    }
    forall i, j | 0 <= i < j < |sorted|
      ensures var a, b := sorted[i].s, sorted[j].s;
              a < b || exists k :: 0 <= k < |a| && k < |b| && a[..k] == b[..k] && a[k] < b[k]
    {
      assert ValueLess(sorted[i], sorted[j]);
      Sorting.StrLessIsLexicographic(sorted[i].s, sorted[j].s);
    }
  }

  /** A set of strings, the tags of most tasks, is always lowered, to its sorted strings. */
  lemma LowerStrings(elems: seq<Value>)
    requires IsSet(elems) && forall i :: 0 <= i < |elems| ==> elems[i].Str?
    ensures var sorted, node := Sorting.Sorted(ValueLess, elems), Lower(Set(elems));
            && node.Ok? && node.value.Sequence? && |node.value.items| == |sorted|
            && (forall i :: 0 <= i < |sorted| ==> sorted[i].Str?)
            && forall i :: 0 <= i < |sorted| ==> node.value.items[i] == ScalarNode(StrTag, sorted[i].s)
  {
    var sorted := Sorting.Sorted(ValueLess, elems);
    StringsInOrder(elems);
    LowerSetAsList(elems);
    LowerList(sorted);
    assert forall i :: 0 <= i < |sorted| ==> LowerAll(sorted)[i] == Ok(ScalarNode(StrTag, sorted[i].s));
  }

  lemma StringsLower(elems: seq<Value>)
    requires forall i :: 0 <= i < |elems| ==> elems[i].Str?
    ensures Lower(Set(elems)).Ok?
  {
    LowerOk(Set(elems));
  }

  /** None, truth values and numbers are written in YAML's words; a string as it is. */
  lemma LowerScalars(b: bool, i: int, s: string)
    ensures Lower(PyNone) == Ok(Scalar(NullTag, "null", Default))
    ensures Lower(Bool(b)) == Ok(Scalar(BoolTag, if b then "true" else "false", Default))
    ensures Lower(Int(i)) == Ok(Scalar(IntTag, IntText(i), Default))
    ensures Lower(Str(s)) == Ok(Scalar(StrTag, s, if '\n' in s then Block else Default))
  {
    ReadIntText(i);
  }

  // ----- when lowering succeeds

  /** Any two elements of every set inside compare. */
  ghost predicate SetsCompare(v: Value) {
    match v
    case List(items) => forall i :: 0 <= i < |items| ==> SetsCompare(items[i])
    case Dict(entries) => forall i :: 0 <= i < |entries| ==> SetsCompare(entries[i].1)
    case Set(elems) =>
      Sorting.Comparable(ValueLess, elems) && forall i :: 0 <= i < |elems| ==> SetsCompare(elems[i])
    case Config(_, printed) => SetsCompare(printed)
    case _ => true
  }

  ghost predicate SetsSortable(v: Value) {
    match v
    case List(items) => forall i :: 0 <= i < |items| ==> SetsSortable(items[i])
    case Dict(entries) => forall i :: 0 <= i < |entries| ==> SetsSortable(entries[i].1)
    case Set(elems) => Sortable(elems) && forall i :: 0 <= i < |elems| ==> SetsSortable(elems[i])
    case Config(_, printed) => SetsSortable(printed)
    case _ => true
  }

  ghost predicate GoodSets(v: Value) {
    match v
    case List(items) => forall i :: 0 <= i < |items| ==> GoodSets(items[i])
    case Dict(entries) => forall i :: 0 <= i < |entries| ==> GoodSets(entries[i].1)
    case Set(elems) => IsSet(elems) && forall i :: 0 <= i < |elems| ==> GoodSets(elems[i])
    case Config(_, printed) => GoodSets(printed)
    case _ => true
  }

  lemma {:induction false} SetsSortableCompare(v: Value)
    requires GoodSets(v)
    ensures SetsSortable(v) <==> SetsCompare(v)
  {
    match v
    case List(items) => forall i | 0 <= i < |items| { SetsSortableCompare(items[i]); }
    case Dict(entries) => forall i | 0 <= i < |entries| { SetsSortableCompare(entries[i].1); }
    case Set(elems) =>
      SortableExactly(elems);
      forall i | 0 <= i < |elems| { SetsSortableCompare(elems[i]); }
    case Config(_, printed) => SetsSortableCompare(printed);
    case _ =>
  }

  /** Lowering fails exactly when some set inside has two elements that do not compare. */
  lemma LowerOkCompares(v: Value)
    requires GoodSets(v)
    ensures Lower(v).Ok? <==> SetsCompare(v)
    ensures Lower(v).Err? ==> Lower(v).error == TypeError
  {
    LowerOk(v);
    SetsSortableCompare(v);
  }

  /** Lowering fails exactly when some set inside mixes kinds of elements. */
  lemma {:induction false} LowerOk(v: Value)
    ensures Lower(v).Ok? <==> SetsSortable(v)
    ensures Lower(v).Err? ==> Lower(v).error == TypeError
  {
    match v
    case List(items) =>
      forall i | 0 <= i < |items| { LowerOk(items[i]); }
      LowerListOk(items);
    case Dict(entries) =>
      forall i | 0 <= i < |entries| { LowerOk(entries[i].1); }
      LowerDict(entries);
      assert forall i :: 0 <= i < |entries| ==>
                EntryResults(entries)[i] == Wrap(Keyed(entries[i].0), Lower(entries[i].1));
    case Set(elems) =>
      forall i | 0 <= i < |elems| { LowerOk(elems[i]); }
      var sorted := Sorting.Sorted(ValueLess, elems);
      Sorting.SortedMembers(ValueLess, elems);
      LowerSetAsList(elems);
      LowerListOk(sorted);
      assert forall i :: 0 <= i < |sorted| ==> sorted[i] in elems;
      assert forall i :: 0 <= i < |elems| ==> elems[i] in sorted;
    case Config(_, printed) => LowerOk(printed);
    case _ =>
  }

  lemma LowerListOk(items: seq<Value>)
    ensures Lower(List(items)).Ok? <==> forall i :: 0 <= i < |items| ==> Lower(items[i]).Ok?
    ensures Lower(List(items)).Err? ==> Lower(List(items)).error == TypeError
  {
    LowerList(items);
    var rs := LowerAll(items);
    assert forall i :: 0 <= i < |items| ==> rs[i] == Lower(items[i]);
    if i :| 0 <= i < |items| && Lower(items[i]).Err? {
      assert rs[i].Err?;
    }
  }

  // ----- iteration order

  /** `p` lists the positions below n in some order. */
  ghost predicate IsPermutation(p: seq<nat>, n: nat) {
    |p| == n && (forall i :: 0 <= i < n ==> p[i] < n) && (forall j :: 0 <= j < n ==> j in p)
  }

  /** The same value, but for the order in which sets iterate, at any depth. */
  ghost predicate Same(v: Value, w: Value) {
    match (v, w)
    case (List(a), List(b)) => |a| == |b| && forall i :: 0 <= i < |a| ==> Same(a[i], b[i])
    case (Dict(a), Dict(b)) =>
      |a| == |b| && forall i :: 0 <= i < |a| ==> a[i].0 == b[i].0 && Same(a[i].1, b[i].1)
    case (Set(a), Set(b)) =>
      |a| == |b| && exists p :: IsPermutation(p, |a|) && forall i :: 0 <= i < |a| ==> Same(a[i], b[p[i]])
    case (Config(_, a), Config(_, b)) => Same(a, b)
    case _ => v == w
  }

  lemma SameLists(a: seq<Value>, b: seq<Value>)
    requires |a| == |b| && forall i :: 0 <= i < |a| ==> Lower(a[i]) == Lower(b[i])
    ensures Lower(List(a)) == Lower(List(b))
  {
    LowerList(a);
    LowerList(b);
    assert LowerAll(a) == LowerAll(b);
  }

  lemma SameDicts(a: OD, b: OD)
    requires |a| == |b| && forall i :: 0 <= i < |a| ==> a[i].0 == b[i].0 && Lower(a[i].1) == Lower(b[i].1)
    ensures Lower(Dict(a)) == Lower(Dict(b))
  {
    LowerDict(a);
    LowerDict(b);
    assert EntryResults(a) == EntryResults(b);
  }

  lemma SameMembers(a: seq<Value>, b: seq<Value>)
    requires IsSet(a) && IsSet(b) && Sortable(a) && Sortable(b) && forall x :: x in a <==> x in b
    ensures Lower(Set(a)) == Lower(Set(b))
  {
    LowerSet(a);
    LowerSet(b);
    SetCompares(a);
    SetCompares(b);
    Sorting.SortedCanonical(ValueLess, a, b);
  }

  lemma SameKinds(v: Value, w: Value)
    requires Same(v, w)
    ensures v.Str? <==> w.Str?
    ensures IsNumber(v) <==> IsNumber(w)
    ensures v.Str? || IsNumber(v) ==> v == w
  {
  }

  lemma Preimage(p: seq<nat>, n: nat, j: nat) returns (i: nat)
    requires IsPermutation(p, n) && j < n
    ensures i < n && p[i] == j
  {
    assert j in p;
    i :| i < n && p[i] == j;
  }

  /** Elements matched by a permutation are of the same kinds. */
  lemma MatchedKinds(a: seq<Value>, b: seq<Value>, p: seq<nat>)
    requires |a| == |b| && IsPermutation(p, |a|) && forall i :: 0 <= i < |a| ==> Same(a[i], b[p[i]])
    ensures (AllStrings(a) <==> AllStrings(b)) && (AllNumbers(a) <==> AllNumbers(b))
  {
    forall i | 0 <= i < |a|
      ensures AllStrings(b) ==> a[i].Str?
      ensures AllNumbers(b) ==> IsNumber(a[i])
    {
      SameKinds(a[i], b[p[i]]);
    }
    forall j | 0 <= j < |b|
      ensures AllStrings(a) ==> b[j].Str?
      ensures AllNumbers(a) ==> IsNumber(b[j])
    {
      var i := Preimage(p, |a|, j);
      SameKinds(a[i], b[p[i]]);
    }
  }

  lemma MatchedMembers(a: seq<Value>, b: seq<Value>, p: seq<nat>)
    requires |a| == |b| && IsPermutation(p, |a|) && forall i :: 0 <= i < |a| ==> Same(a[i], b[p[i]])
    requires AllStrings(a) || AllNumbers(a)
    ensures forall x :: x in a <==> x in b
  {
    forall i | 0 <= i < |a|
      ensures a[i] == b[p[i]]
    {
      SameKinds(a[i], b[p[i]]);
    }
    forall x | x in b
      ensures x in a
    {
      var j :| 0 <= j < |b| && b[j] == x;
      var i := Preimage(p, |a|, j);
      assert a[i] == x;
    }
  }

  lemma SameSets(a: seq<Value>, b: seq<Value>, p: seq<nat>)
    requires IsSet(a) && IsSet(b) && |a| == |b| && |a| != 1
    requires IsPermutation(p, |a|) && forall i :: 0 <= i < |a| ==> Same(a[i], b[p[i]])
    ensures Lower(Set(a)) == Lower(Set(b))
  {
    MatchedKinds(a, b, p);
    LowerSetAsList(a);
    LowerSetAsList(b);
    if Sortable(a) {
      MatchedMembers(a, b, p);
      SameMembers(a, b);
    }
  }

  lemma SameSingletons(x: Value, y: Value)
    requires Lower(x) == Lower(y)
    ensures Lower(Set([x])) == Lower(Set([y]))
  {
    LowerSetAsList([x]);
    LowerSetAsList([y]);
    assert Sorting.Sorted(ValueLess, [x]) == [x] && Sorting.Sorted(ValueLess, [y]) == [y];
    SameLists([x], [y]);
  }

  /** Iteration order does not show: the same value gives the same nodes, or the same error. */
  lemma {:induction false} OrderIrrelevant(v: Value, w: Value)
    requires Same(v, w) && GoodSets(v) && GoodSets(w)
    ensures Lower(v) == Lower(w)
  {
    match (v, w)
    case (List(a), List(b)) =>
      forall i | 0 <= i < |a| { OrderIrrelevant(a[i], b[i]); }
      SameLists(a, b);
    case (Dict(a), Dict(b)) =>
      forall i | 0 <= i < |a| { OrderIrrelevant(a[i].1, b[i].1); }
      SameDicts(a, b);
    case (Set(a), Set(b)) =>
      var p :| IsPermutation(p, |a|) && forall i :: 0 <= i < |a| ==> Same(a[i], b[p[i]]);
      if |a| == 1 {
        OrderIrrelevant(a[0], b[0]);
        SameSingletons(a[0], b[0]);
        assert a == [a[0]] && b == [b[0]];
      } else {
        SameSets(a, b, p);
      }
    case (Config(_, a), Config(_, b)) => OrderIrrelevant(a, b);
    case _ =>
  }

  // ----- styles

  /** Every scalar is in block style exactly when its text has a newline, and only strings have one. */
  ghost predicate Styled(n: Node) {
    match n
    case Scalar(tag, text, style) => (style.Block? <==> '\n' in text) && (style.Block? ==> tag.StrTag?)
    case Sequence(items) => forall i :: 0 <= i < |items| ==> Styled(items[i])
    case Mapping(entries) => forall i :: 0 <= i < |entries| ==> Styled(entries[i].0) && Styled(entries[i].1)
  }

  lemma {:induction false} LowerStyled(v: Value)
    requires Lower(v).Ok?
    ensures Styled(Lower(v).value)
  {
    match v
    case Int(i) => ReadIntText(i);
    case List(items) =>
      forall i | 0 <= i < |items| && Lower(items[i]).Ok? { LowerStyled(items[i]); }
      StyledSequence(items);
    case Dict(entries) =>
      forall i | 0 <= i < |entries| && Lower(entries[i].1).Ok? { LowerStyled(entries[i].1); }
      StyledMapping(entries);
    case Set(elems) =>
      var sorted := Sorting.Sorted(ValueLess, elems);
      Sorting.SortedMembers(ValueLess, elems);
      LowerSetAsList(elems);
      forall i | 0 <= i < |sorted| && Lower(sorted[i]).Ok?
        ensures Styled(Lower(sorted[i]).value)
      {
        assert sorted[i] in elems;
        LowerStyled(sorted[i]);
      }
      StyledSequence(sorted);
    case Config(_, printed) => LowerStyled(printed);
    case _ =>
  }

  lemma StyledSequence(vs: seq<Value>)
    requires Lower(List(vs)).Ok?
    requires forall i :: 0 <= i < |vs| ==> Lower(vs[i]).Ok? ==> Styled(Lower(vs[i]).value)
    ensures Styled(Lower(List(vs)).value)
  {
    LowerList(vs);
    assert forall i :: 0 <= i < |vs| ==> LowerAll(vs)[i].Ok? && LowerAll(vs)[i] == Lower(vs[i]);
  }

  lemma StyledMapping(d: OD)
    requires Lower(Dict(d)).Ok?
    requires forall i :: 0 <= i < |d| ==> Lower(d[i].1).Ok? ==> Styled(Lower(d[i].1).value)
    ensures Styled(Lower(Dict(d)).value)
  {
    LowerDict(d);
    forall i | 0 <= i < |d|
      ensures EntryResults(d)[i].Ok? && Styled(EntryResults(d)[i].value.0) && Styled(EntryResults(d)[i].value.1)
    {
      assert EntryResults(d)[i].Ok?;
      assert EntryResults(d)[i] == Wrap(Keyed(d[i].0), Lower(d[i].1));
    }
  }

  // ----- reading back

  function KeyText(n: Node): string {
    if n.Scalar? then n.text else ""
  }

  function Read(n: Node): Value {
    match n
    case Scalar(NullTag, _, _) => PyNone
    case Scalar(BoolTag, text, _) => Bool(text == "true")
    case Scalar(IntTag, text, _) => Int(ReadInt(text))
    case Scalar(StrTag, text, _) => Str(text)
    case Sequence(items) => List(seq(|items|, i requires 0 <= i < |items| => Read(items[i])))
    case Mapping(entries) =>
      Dict(seq(|entries|, i requires 0 <= i < |entries| => (KeyText(entries[i].0), Read(entries[i].1))))
  }

  /** The value with its sets as sorted lists and its configuration objects as dictionaries. */
  function Canon(v: Value): Value {
    match v
    case List(items) => List(seq(|items|, i requires 0 <= i < |items| => Canon(items[i])))
    case Dict(entries) => Dict(seq(|entries|, i requires 0 <= i < |entries| => (entries[i].0, Canon(entries[i].1))))
    case Set(elems) =>
      var sorted := Sorting.Sorted(ValueLess, elems);
      Sorting.SortedMembers(ValueLess, elems);
      List(seq(|sorted|, i requires 0 <= i < |sorted| => assert sorted[i] in elems; Canon(sorted[i])))
    case Config(_, printed) => Canon(printed)
    case _ => v
  }

  ghost predicate Plain(v: Value) {
    match v
    case List(items) => forall i :: 0 <= i < |items| ==> Plain(items[i])
    case Dict(entries) => forall i :: 0 <= i < |entries| ==> Plain(entries[i].1)
    case Set(_) => false
    case Config(_, _) => false
    case _ => true
  }

  function CanonAll(vs: seq<Value>): seq<Value> {
    seq(|vs|, i requires 0 <= i < |vs| => Canon(vs[i]))
  }

  function CanonEntries(d: OD): OD {
    seq(|d|, i requires 0 <= i < |d| => (d[i].0, Canon(d[i].1)))
  }

  lemma CanonCases(vs: seq<Value>, d: OD)
    ensures Canon(List(vs)) == List(CanonAll(vs))
    ensures Canon(Dict(d)) == Dict(CanonEntries(d))
    ensures Canon(Set(vs)) == List(CanonAll(Sorting.Sorted(ValueLess, vs)))
  {
    var sorted := Sorting.Sorted(ValueLess, vs);
    Sorting.SortedMembers(ValueLess, vs);
    assert CanonAll(vs) == seq(|vs|, i requires 0 <= i < |vs| => Canon(vs[i]));
    assert CanonEntries(d) == seq(|d|, i requires 0 <= i < |d| => (d[i].0, Canon(d[i].1)));
    assert CanonAll(sorted) == seq(|sorted|, i requires 0 <= i < |sorted| => assert sorted[i] in vs; Canon(sorted[i]));
  }

  lemma ReadSequence(vs: seq<Value>)
    requires Lower(List(vs)).Ok?
    requires forall i :: 0 <= i < |vs| ==> Lower(vs[i]).Ok? ==> Read(Lower(vs[i]).value) == Canon(vs[i])
    ensures Read(Lower(List(vs)).value) == List(CanonAll(vs))
  {
    LowerList(vs);
    var nodes := Collect(LowerAll(vs)).value;
    assert forall i :: 0 <= i < |vs| ==> LowerAll(vs)[i].Ok?;
    assert forall i :: 0 <= i < |vs| ==> Read(nodes[i]) == Canon(vs[i]);
    assert CanonAll(vs) == seq(|nodes|, i requires 0 <= i < |nodes| => Read(nodes[i]));
  }

  lemma ReadMapping(d: OD)
    requires Lower(Dict(d)).Ok?
    requires forall i :: 0 <= i < |d| ==> Lower(d[i].1).Ok? ==> Read(Lower(d[i].1).value) == Canon(d[i].1)
    ensures Read(Lower(Dict(d)).value) == Dict(CanonEntries(d))
  {
    LowerDict(d);
    var nodes := Collect(EntryResults(d)).value;
    forall i | 0 <= i < |d|
      ensures EntryResults(d)[i].Ok? && nodes[i].0 == ScalarNode(StrTag, d[i].0) && Read(nodes[i].1) == Canon(d[i].1)
    {
      assert EntryResults(d)[i].Ok?;
      assert EntryResults(d)[i] == Wrap(Keyed(d[i].0), Lower(d[i].1));
    }
    assert CanonEntries(d) == seq(|nodes|, i requires 0 <= i < |nodes| => (KeyText(nodes[i].0), Read(nodes[i].1)));
  }

  /** Reading the nodes back gives the value, its sets as sorted lists and its configuration objects
      as dictionaries: lowering loses nothing else. */
  lemma {:induction false} ReadBack(v: Value)
    requires Lower(v).Ok?
    ensures Read(Lower(v).value) == Canon(v)
  {
    match v
    case Int(i) => ReadIntText(i);
    case List(items) =>
      forall i | 0 <= i < |items| && Lower(items[i]).Ok? { ReadBack(items[i]); }
      ReadSequence(items);
      CanonCases(items, []);
    case Dict(entries) =>
      forall i | 0 <= i < |entries| && Lower(entries[i].1).Ok? { ReadBack(entries[i].1); }
      ReadMapping(entries);
      CanonCases([], entries);
    case Set(elems) =>
      var sorted := Sorting.Sorted(ValueLess, elems);
      LowerSetAsList(elems);
      Sorting.SortedMembers(ValueLess, elems);
      forall i | 0 <= i < |sorted| && Lower(sorted[i]).Ok?
        ensures Read(Lower(sorted[i]).value) == Canon(sorted[i])
      {
        assert sorted[i] in elems;
        ReadBack(sorted[i]);
      }
      ReadSequence(sorted);
      CanonCases(elems, []);
    case Config(_, printed) => ReadBack(printed);
    case _ =>
  }

  lemma CanonSet(elems: seq<Value>)
    requires Sortable(elems)
    requires forall i :: 0 <= i < |elems| ==> Plain(Canon(elems[i])) && Lower(Canon(elems[i])) == Lower(elems[i])
    ensures Plain(Canon(Set(elems))) && Lower(Canon(Set(elems))) == Lower(Set(elems))
  {
    var sorted := Sorting.Sorted(ValueLess, elems);
    LowerSetAsList(elems);
    Sorting.SortedMembers(ValueLess, elems);
    forall i | 0 <= i < |sorted|
      ensures Plain(Canon(sorted[i])) && Lower(Canon(sorted[i])) == Lower(sorted[i])
    {
      assert sorted[i] in elems;
    }
    CanonCases(elems, []);
    SameLists(CanonAll(sorted), sorted);
  }

  /** The canonical form has no set and no configuration object left, and lowers to the same nodes. */
  lemma {:induction false} CanonLowersAlike(v: Value)
    requires Lower(v).Ok?
    ensures Plain(Canon(v))
    ensures Lower(Canon(v)) == Lower(v)
  {
    LowerOk(v);
    match v
    case List(items) =>
      forall i | 0 <= i < |items|
        ensures Plain(Canon(items[i])) && Lower(Canon(items[i])) == Lower(items[i])
      {
        LowerOk(items[i]);
        CanonLowersAlike(items[i]);
      }
      CanonCases(items, []);
      SameLists(CanonAll(items), items);
    case Dict(entries) =>
      forall i | 0 <= i < |entries|
        ensures Plain(Canon(entries[i].1)) && Lower(Canon(entries[i].1)) == Lower(entries[i].1)
      {
        LowerOk(entries[i].1);
        CanonLowersAlike(entries[i].1);
      }
      CanonCases([], entries);
      SameDicts(CanonEntries(entries), entries);
    case Set(elems) =>
      forall i | 0 <= i < |elems|
        ensures Plain(Canon(elems[i])) && Lower(Canon(elems[i])) == Lower(elems[i])
      {
        LowerOk(elems[i]);
        CanonLowersAlike(elems[i]);
      }
      CanonSet(elems);
    case Config(_, printed) => CanonLowersAlike(printed);
    case _ =>
  }

  /** Two values lower to the same nodes exactly when their canonical forms are equal. */
  lemma LowerEqual(v: Value, w: Value)
    requires Lower(v).Ok? && Lower(w).Ok?
    ensures Lower(v) == Lower(w) <==> Canon(v) == Canon(w)
  {
    ReadBack(v);
    ReadBack(w);
    CanonLowersAlike(v);
    CanonLowersAlike(w);
  }
}
