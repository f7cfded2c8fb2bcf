/** From a task to its YAML nodes: what printing and lowering do together. */
module TaskNodes {
  import opened Seqs
  import Sorting
  import opened Values
  import opened Printing
  import opened Dumper

  /** The nodes of a task whose tag set iterates in the given order: those of what its `to_dict` returns. */
  function TaskNode(name: string, st: TaskState, order: seq<Value>): Result<Node> {
    Lower(Dict(Printed(name, st, order)))
  }

  ghost predicate GoodEntries(d: OD) {
    forall i :: 0 <= i < |d| ==> GoodSets(d[i].1)
  }

  ghost predicate GoodState(st: TaskState) {
    && WellFormed(st) && GoodEntries(st.options) && GoodSets(st.commands)
    && (forall i :: 0 <= i < |st.deps| ==> GoodSets(st.deps[i]))
    && (forall v :: v in st.tags ==> GoodSets(v))
  }

  // ----- the printed dictionary under two iteration orders

  ghost predicate SameEntries(d: OD, e: OD) {
    |d| == |e| && forall i :: 0 <= i < |d| ==> d[i].0 == e[i].0 && Same(d[i].1, e[i].1)
  }

  ghost function Identity(n: nat): (p: seq<nat>)
    ensures IsPermutation(p, n) && forall i :: 0 <= i < n ==> p[i] == i
  {
    if n == 0 then []
    else
      var p := Identity(n - 1) + [n - 1];
      assert forall i :: 0 <= i < n ==> p[i] == i;
      p
  }

  lemma {:induction false} SameReflexive(v: Value)
    ensures Same(v, v)
  {
    match v
    case List(items) => forall i | 0 <= i < |items| { SameReflexive(items[i]); }
    case Dict(entries) => forall i | 0 <= i < |entries| { SameReflexive(entries[i].1); }
    case Set(elems) =>
      forall i | 0 <= i < |elems| { SameReflexive(elems[i]); }
      var p := Identity(|elems|);
      assert forall i :: 0 <= i < |elems| ==> Same(elems[i], elems[p[i]]);
    case Config(_, printed) => SameReflexive(printed);
    case _ =>
  }

  lemma {:induction false} PutGood(d: OD, k: string, v: Value)
    requires GoodEntries(d) && GoodSets(v)
    ensures GoodEntries(Put(d, k, v))
  {
    if d == [] || d[0].0 == k {
    } else {
      PutGood(d[1..], k, v);
    }
  }

  lemma {:induction false} PutSame(d: OD, e: OD, k: string, v: Value, w: Value)
    requires SameEntries(d, e) && Same(v, w)
    ensures SameEntries(Put(d, k, v), Put(e, k, w))
  {
    if d == [] || d[0].0 == k {
    } else {
      PutSame(d[1..], e[1..], k, v, w);
    }
  }

  lemma PutBoth(d: OD, e: OD, k: string, v: Value, w: Value)
    requires SameEntries(d, e) && Same(v, w)
    requires GoodEntries(d) && GoodEntries(e) && GoodSets(v) && GoodSets(w)
    ensures SameEntries(Put(d, k, v), Put(e, k, w))
    ensures GoodEntries(Put(d, k, v)) && GoodEntries(Put(e, k, w))
  {
    PutSame(d, e, k, v, w);
    PutGood(d, k, v);
    PutGood(e, k, w);
  }

  lemma {:induction false} UpdateSame(d: OD, e: OD, more: OD, more': OD)
    requires SameEntries(d, e) && GoodEntries(d) && GoodEntries(e)
    requires SameEntries(more, more') && GoodEntries(more) && GoodEntries(more')
    ensures SameEntries(Update(d, more), Update(e, more'))
    ensures GoodEntries(Update(d, more)) && GoodEntries(Update(e, more'))
    decreases |more|
  {
    if more == [] {
    } else {
      var k, v, w := more[0].0, more[0].1, more'[0].1;
      PutBoth(d, e, k, v, w);
      UpdateSame(Put(d, k, v), Put(e, k, w), more[1..], more'[1..]);
    }
  }

  lemma TagSet(order: seq<Value>, st: TaskState)
    requires GoodState(st) && Enumerates(order, st.tags)
    ensures IsSet(order) && GoodSets(Set(order))
  {
    forall i, j | 0 <= i < j < |order|
      ensures !PyEqual(order[i], order[j])
    {
      assert order[i] in st.tags && order[j] in st.tags;
    }
    assert forall i :: 0 <= i < |order| ==> order[i] in st.tags;
  }

  function Position(s: seq<Value>, v: Value): (i: nat)
    requires v in s
    ensures i < |s| && s[i] == v
  {
    if s[0] == v then 0 else 1 + Position(s[1..], v)
  }

  /** Two iteration orders of one set. */
  lemma SameEnumerations(a: seq<Value>, b: seq<Value>, tags: set<Value>)
    requires Enumerates(a, tags) && Enumerates(b, tags)
    ensures Same(Set(a), Set(b))
  {
    EnumerationLength(a, tags);
    EnumerationLength(b, tags);
    assert forall i :: 0 <= i < |a| ==> a[i] in tags;
    var p := seq(|a|, i requires 0 <= i < |a| => Position(b, a[i]));
    forall j | 0 <= j < |b|
      ensures j in p
    {
      assert b[j] in tags;
      var i :| 0 <= i < |a| && a[i] == b[j];
      assert p[i] == j;
    }
    forall i | 0 <= i < |a|
      ensures Same(a[i], b[p[i]])
    {
      SameReflexive(a[i]);
    }
    assert IsPermutation(p, |a|);
  }

  lemma {:induction false} EnumerationLength(order: seq<Value>, tags: set<Value>)
    requires Enumerates(order, tags)
    ensures |order| == |tags|
  {
    if order == [] {
      assert tags == {};
    } else {
      InitLast(order);
      var rest := tags - {Last(order)};
      forall t
        ensures t in Init(order) <==> t in rest
      {
        if t in Init(order) {
          assert t in order;
        }
      }
      EnumerationLength(Init(order), rest);
    }
  }

  /** The same task, but for the order in which sets iterate, its tags and those inside anything it holds. */
  ghost predicate SameState(st: TaskState, order: seq<Value>, st': TaskState, order': seq<Value>) {
    && Same(Set(order), Set(order')) && SameEntries(st.options, st'.options) && Same(st.commands, st'.commands)
    && |st.deps| == |st'.deps| && (forall i :: 0 <= i < |st.deps| ==> Same(st.deps[i], st'.deps[i]))
  }

  lemma DepsSame(a: seq<Value>, b: seq<Value>)
    requires |a| == |b| && forall i :: 0 <= i < |a| ==> a[i].Dict? && b[i].Dict? && Same(a[i], b[i])
    requires forall i :: 0 <= i < |a| ==> GoodSets(a[i]) && GoodSets(b[i])
    ensures PrintedDeps(a).Some? <==> PrintedDeps(b).Some?
    ensures PrintedDeps(a).Some? ==> Same(PrintedDeps(a).value, PrintedDeps(b).value)
    ensures PrintedDeps(a).Some? ==> GoodSets(PrintedDeps(a).value) && GoodSets(PrintedDeps(b).value)
  {
  }

  lemma PrintedSame(name: string, st: TaskState, order: seq<Value>, st': TaskState, order': seq<Value>)
    requires GoodState(st) && GoodState(st') && Enumerates(order, st.tags) && Enumerates(order', st'.tags)
    requires SameState(st, order, st', order')
    ensures SameEntries(Printed(name, st, order), Printed(name, st', order'))
    ensures GoodEntries(Printed(name, st, order)) && GoodEntries(Printed(name, st', order'))
  {
    TagSet(order, st);
    TagSet(order', st');
    var d0: OD, v, v' := [("name", Str(name))], Set(order), Set(order');
    PutBoth(d0, d0, "tags", v, v');
    var d1, e1 := BeforeOptions(name, order), BeforeOptions(name, order');
    assert SameEntries(d1, e1) && GoodEntries(d1) && GoodEntries(e1);
    UpdateSame(d1, e1, st.options, st'.options);
    DepsSame(st.deps, st'.deps);
    EndSame(Update(d1, st.options), Update(e1, st'.options), PrintedDeps(st.deps), PrintedDeps(st'.deps),
            st.commands, st'.commands);
  }

  lemma EndSame(d: OD, e: OD, deps: Option<Value>, deps': Option<Value>, commands: Value, commands': Value)
    requires SameEntries(d, e) && GoodEntries(d) && GoodEntries(e)
    requires deps.Some? <==> deps'.Some?
    requires deps.Some? ==> Same(deps.value, deps'.value) && GoodSets(deps.value) && GoodSets(deps'.value)
    requires Same(commands, commands') && GoodSets(commands) && GoodSets(commands')
    ensures var d' := Put(if deps.Some? then Put(d, "depends_on", deps.value) else d, "commands", commands);
            var e' := Put(if deps'.Some? then Put(e, "depends_on", deps'.value) else e, "commands", commands');
            SameEntries(d', e') && GoodEntries(d') && GoodEntries(e')
  {
    if deps.Some? {
      PutBoth(d, e, "depends_on", deps.value, deps'.value);
      PutBoth(Put(d, "depends_on", deps.value), Put(e, "depends_on", deps'.value), "commands", commands, commands');
    } else {
      PutBoth(d, e, "commands", commands, commands');
    }
  }

  /** A task's nodes do not depend on the order in which any set iterates, its tags or another. */
  lemma SetOrderIrrelevant(name: string, st: TaskState, order: seq<Value>, st': TaskState, order': seq<Value>)
    requires GoodState(st) && GoodState(st') && Enumerates(order, st.tags) && Enumerates(order', st'.tags)
    requires SameState(st, order, st', order')
    ensures TaskNode(name, st, order) == TaskNode(name, st', order')
  {
    PrintedSame(name, st, order, st', order');
    OrderIrrelevant(Dict(Printed(name, st, order)), Dict(Printed(name, st', order')));
  }

  /** In particular two iteration orders of the one tag set give the same nodes. */
  lemma TagOrderIrrelevant(name: string, st: TaskState, order: seq<Value>, order': seq<Value>)
    requires GoodState(st) && Enumerates(order, st.tags) && Enumerates(order', st.tags)
    ensures TaskNode(name, st, order) == TaskNode(name, st, order')
  {
    SameEnumerations(order, order', st.tags);
    SameReflexive(Dict(st.options));
    SameReflexive(List(st.deps));
    SameReflexive(st.commands);
    SetOrderIrrelevant(name, st, order, st, order');
  }

  // ----- what the nodes tell about the task

  /** The canonical form of a task: tags in order, everything else canonical. */
  ghost predicate SameTask(name: string, st: TaskState, order: seq<Value>,
                           name': string, st': TaskState, order': seq<Value>) {
    && name == name' && Canon(Set(order)) == Canon(Set(order'))
    && CanonEntries(st.options) == CanonEntries(st'.options)
    && CanonAll(st.deps) == CanonAll(st'.deps)
    && Canon(st.commands) == Canon(st'.commands)
  }

  lemma {:induction false} LookupCanon(d: OD, k: string)
    ensures Lookup(CanonEntries(d), k) == match Lookup(d, k) case None => None case Some(v) => Some(Canon(v))
  {
    if d == [] {
    } else {
      assert CanonEntries(d)[1..] == CanonEntries(d[1..]);
      LookupCanon(d[1..], k);
    }
  }

  lemma {:induction false} FilterCanon(d: OD)
    ensures Filter(Unreserved(), CanonEntries(d)) == CanonEntries(Filter(Unreserved(), d))
  {
    if d == [] {
    } else {
      assert Init(CanonEntries(d)) == CanonEntries(Init(d));
      FilterCanon(Init(d));
      CanonConcat(Filter(Unreserved(), Init(d)), if Unreserved()(Last(d)) then [Last(d)] else []);
    }
  }

  lemma CanonTagsEmpty(order: seq<Value>)
    ensures Canon(Set(order)) == List(CanonAll(Sorting.Sorted(ValueLess, order)))
    ensures |Canon(Set(order)).items| == |order|
  {
    CanonCases(order, []);
    Sorting.SortedMembers(ValueLess, order);
  }

  /** Tags that are not configuration objects are told by their canonical form. */
  lemma TagsFromNodes(order: seq<Value>, order': seq<Value>)
    requires IsSet(order) && Sortable(order) && IsSet(order') && Sortable(order')
    requires forall v :: v in order || v in order' ==> Hashable(v) && !v.Config?
    ensures Canon(Set(order)) == Canon(Set(order')) <==> (forall v :: v in order <==> v in order')
  {
    CanonTagsEmpty(order);
    CanonTagsEmpty(order');
    CanonScalars(order);
    CanonScalars(order');
    SetCompares(order);
    SetCompares(order');
    Sorting.SortedCanonical(ValueLess, order, order');
  }

  lemma CanonScalars(order: seq<Value>)
    requires forall v :: v in order ==> Hashable(v) && !v.Config?
    ensures CanonAll(Sorting.Sorted(ValueLess, order)) == Sorting.Sorted(ValueLess, order)
  {
    var sorted := Sorting.Sorted(ValueLess, order);
    Sorting.SortedMembers(ValueLess, order);
    forall i | 0 <= i < |sorted|
      ensures Canon(sorted[i]) == sorted[i]
    {
      assert sorted[i] in order;
    }
  }

  /** The dependencies as printed tell the dependencies, one lone empty mapping apart. */
  lemma DepsFromNodes(a: seq<Value>, b: seq<Value>)
    requires forall i :: 0 <= i < |a| ==> a[i].Dict?
    requires forall i :: 0 <= i < |b| ==> b[i].Dict?
    requires a != [Dict([])] && b != [Dict([])]
    ensures CanonDeps(a) == CanonDeps(b) <==> CanonAll(a) == CanonAll(b)
  {
    DepsShape(a);
    DepsShape(b);
    assert CanonAll(a) == CanonAll(b) ==> |a| == |b|;
    if |a| == 1 && |b| == 1 {
      assert CanonAll(a) == [Canon(a[0])] && CanonAll(b) == [Canon(b[0])];
    }
  }

  ghost function CanonDeps(deps: seq<Value>): Option<Value> {
    match PrintedDeps(deps)
    case None => None
    case Some(v) => Some(Canon(v))
  }

  lemma DepsShape(deps: seq<Value>)
    requires forall i :: 0 <= i < |deps| ==> deps[i].Dict?
    requires deps != [Dict([])]
    ensures CanonDeps(deps) ==
            if deps == [] then None else if |deps| == 1 then Some(Canon(deps[0])) else Some(List(CanonAll(deps)))
    ensures |deps| == 1 ==> Canon(deps[0]).Dict?
  {
    CanonCases(deps, []);
    if |deps| == 1 {
      assert deps == [deps[0]];
      CanonCases([], deps[0].entries);
    }
  }

  /** Equal nodes tell equal tasks: the name, the tags, and the options, dependencies and commands as
      far as YAML can tell values apart; and the other way round. */
  lemma TaskNodeEqual(name: string, st: TaskState, order: seq<Value>,
                      name': string, st': TaskState, order': seq<Value>)
    requires WellFormed(st) && Enumerates(order, st.tags) && OptionsApart(st.options) && st.deps != [Dict([])]
    requires WellFormed(st') && Enumerates(order', st'.tags) && OptionsApart(st'.options) && st'.deps != [Dict([])]
    requires TaskNode(name, st, order).Ok? && TaskNode(name', st', order').Ok?
    ensures TaskNode(name, st, order) == TaskNode(name', st', order') <==> SameTask(name, st, order, name', st', order')
  {
    var d, d' := Printed(name, st, order), Printed(name', st', order');
    LowerEqual(Dict(d), Dict(d'));
    CanonCases([], d);
    CanonCases([], d');
    if CanonEntries(d) == CanonEntries(d') {
      PartsFromCanon(name, st, order, name', st', order');
    }
    if SameTask(name, st, order, name', st', order') {
      CanonFromParts(name, st, order, name', st', order');
    }
  }

  lemma PartsFromCanon(name: string, st: TaskState, order: seq<Value>,
                       name': string, st': TaskState, order': seq<Value>)
    requires WellFormed(st) && Enumerates(order, st.tags) && OptionsApart(st.options) && st.deps != [Dict([])]
    requires WellFormed(st') && Enumerates(order', st'.tags) && OptionsApart(st'.options) && st'.deps != [Dict([])]
    requires CanonEntries(Printed(name, st, order)) == CanonEntries(Printed(name', st', order'))
    ensures SameTask(name, st, order, name', st', order')
  {
    var d, d' := Printed(name, st, order), Printed(name', st', order');
    PrintedLookup(name, st, order);
    PrintedLookup(name', st', order');
    PrintedOptions(name, st, order);
    PrintedOptions(name', st', order');
    forall k
      ensures Lookup(CanonEntries(d), k) == match Lookup(d, k) case None => None case Some(v) => Some(Canon(v))
      ensures Lookup(CanonEntries(d'), k) == match Lookup(d', k) case None => None case Some(v) => Some(Canon(v))
    {
      LookupCanon(d, k);
      LookupCanon(d', k);
    }
    assert Canon(Str(name)) == Canon(Str(name'));
    CanonTagsEmpty(order);
    CanonTagsEmpty(order');
    DepsFromNodes(st.deps, st'.deps);
    FilterCanon(d);
    FilterCanon(d');
  }

  lemma CanonConcat(d: OD, e: OD)
    ensures CanonEntries(d + e) == CanonEntries(d) + CanonEntries(e)
  {
  }

  lemma CanonLayout(name: string, st: TaskState, order: seq<Value>)
    requires UniqueKeys(st.options) && OptionsApart(st.options)
    ensures CanonEntries(Printed(name, st, order)) ==
            CanonEntries([("name", Str(name))]) + CanonEntries(TagsEntry(order)) + CanonEntries(st.options)
            + CanonEntries(DepsEntry(st.deps)) + CanonEntries([("commands", st.commands)])
  {
    PrintedLayout(name, st, order);
    var a, b, c := [("name", Str(name))], TagsEntry(order), st.options;
    CanonConcat(a, b);
    CanonConcat(a + b, c);
    CanonConcat(a + b + c, DepsEntry(st.deps));
    CanonConcat(a + b + c + DepsEntry(st.deps), [("commands", st.commands)]);
  }

  lemma CanonFromParts(name: string, st: TaskState, order: seq<Value>,
                       name': string, st': TaskState, order': seq<Value>)
    requires WellFormed(st) && Enumerates(order, st.tags) && OptionsApart(st.options) && st.deps != [Dict([])]
    requires WellFormed(st') && Enumerates(order', st'.tags) && OptionsApart(st'.options) && st'.deps != [Dict([])]
    requires SameTask(name, st, order, name', st', order')
    ensures CanonEntries(Printed(name, st, order)) == CanonEntries(Printed(name', st', order'))
  {
    CanonLayout(name, st, order);
    CanonLayout(name', st', order');
    CanonTagsEmpty(order);
    CanonTagsEmpty(order');
    assert CanonEntries(TagsEntry(order)) == CanonEntries(TagsEntry(order'));
    DepsFromNodes(st.deps, st'.deps);
    assert CanonEntries(DepsEntry(st.deps)) == CanonEntries(DepsEntry(st'.deps));
    assert CanonEntries([("commands", st.commands)]) == CanonEntries([("commands", st'.commands)]);
  }
}
