/** `Task.to_dict` on the task's abstract state, and a reader for what it prints. */
module Printing {
  import opened Seqs
  import opened Values

  /** A task as its callers see it; `deps` are the dependencies in the order they were added. */
  datatype TaskState = TaskState(tags: set<Value>, options: OD, deps: seq<Value>, commands: Value)

  ghost predicate WellFormed(st: TaskState) {
    && UniqueKeys(st.options)
    && (forall i :: 0 <= i < |st.deps| ==> st.deps[i].Dict?)
    && IsPySet(st.tags)
  }

  /** `order` is an order in which the set may iterate. */
  ghost predicate Enumerates(order: seq<Value>, tags: set<Value>) {
    && (forall i, j :: 0 <= i < j < |order| ==> order[i] != order[j])
    && (forall t :: t in order <==> t in tags)
  }

  /** What `if self.depends_on` lets through: nothing, the one mapping unless it is empty, or a list. */
  function PrintedDeps(deps: seq<Value>): Option<Value> {
    if deps == [] then None
    else if |deps| == 1 then (if Truthy(deps[0]) then Some(deps[0]) else None)
    else Some(List(deps))
  }

  function PutGiven<V>(d: OrderedDict<V>, k: string, v: Option<V>): OrderedDict<V> {
    match v
    case None => d
    case Some(w) => Put(d, k, w)
  }

  /** The steps of `to_dict`, on whatever the dictionary holds. */
  function Layout<V>(name: V, tags: Option<V>, options: OrderedDict<V>, deps: Option<V>, commands: V)
    : OrderedDict<V>
  {
    var before := PutGiven([("name", name)], "tags", tags);
    Put(PutGiven(Update(before, options), "depends_on", deps), "commands", commands)
  }

  function TagsShown(order: seq<Value>): Option<Value> {
    if order == [] then None else Some(Set(order))
  }

  function Printed(name: string, st: TaskState, order: seq<Value>): OD {
    Layout(Str(name), TagsShown(order), st.options, PrintedDeps(st.deps), st.commands)
  }

  function BeforeOptions(name: string, order: seq<Value>): (d: OD)
    ensures UniqueKeys(d)
  {
    PutUnique([("name", Str(name))], "tags", Set(order));
    PutGiven([("name", Str(name))], "tags", TagsShown(order))
  }

  // ----- the reader

  const RESERVED: set<string> := {"name", "tags", "depends_on", "commands"}

  function Unreserved(): ((string, Value)) -> bool {
    (e: (string, Value)) => e.0 !in RESERVED
  }

  function ReadName(d: OD): string {
    match Lookup(d, "name")
    case Some(Str(s)) => s
    case _ => ""
  }

  function ReadTags(d: OD): set<Value> {
    match Lookup(d, "tags")
    case Some(Set(elems)) => set e | e in elems
    case _ => {}
  }

  function ReadDeps(d: OD): seq<Value> {
    match Lookup(d, "depends_on")
    case None => []
    case Some(List(items)) => items
    case Some(v) => [v]
  }

  function ReadCommands(d: OD): Value {
    match Lookup(d, "commands")
    case None => PyNone
    case Some(v) => v
  }

  function ReadTask(d: OD): TaskState {
    TaskState(ReadTags(d), Filter(Unreserved(), d), ReadDeps(d), ReadCommands(d))
  }

  // ----- layout

  predicate OptionsApart(options: OD) {
    forall i :: 0 <= i < |options| ==> options[i].0 !in RESERVED
  }

  lemma OptionsApartExactly(options: OD)
    ensures OptionsApart(options) <==>
            forall k :: k in Keys(options) ==> k !in ["name", "tags", "depends_on", "commands"]
  {
    assert forall i :: 0 <= i < |options| ==> Keys(options)[i] == options[i].0 && Keys(options)[i] in Keys(options);
  }

  function TagsEntry(order: seq<Value>): OD {
    if order == [] then [] else [("tags", Set(order))]
  }

  function DepsEntry(deps: seq<Value>): OD {
    var v := PrintedDeps(deps);
    if v.Some? then [("depends_on", v.value)] else []
  }

  lemma {:induction false} KeysConcat(d: OD, e: OD)
    ensures Keys(d + e) == Keys(d) + Keys(e)
  {
    if d == [] {
      assert d + e == e;
    } else {
      assert (d + e)[1..] == d[1..] + e;
      KeysConcat(d[1..], e);
    }
  }

  lemma OneEntry(k: string, v: Value)
    ensures Keys([(k, v)]) == [k] && Lookup([(k, v)], k) == Some(v)
  {
  }

  lemma KeysOfApart(options: OD)
    requires OptionsApart(options)
    ensures forall k :: k in RESERVED ==> k !in Keys(options)
  {
  }

  /** Options apart, the keys come in the fixed order name, tags, options, depends_on, commands. */
  lemma PrintedLayout(name: string, st: TaskState, order: seq<Value>)
    requires UniqueKeys(st.options) && OptionsApart(st.options)
    ensures Printed(name, st, order) ==
            [("name", Str(name))] + TagsEntry(order) + st.options + DepsEntry(st.deps) + [("commands", st.commands)]
    ensures UniqueKeys(Printed(name, st, order))
  {
    var d0 := [("name", Str(name))];
    var d1 := d0 + TagsEntry(order);
    KeysOfApart(st.options);
    PutFresh(d0, "tags", Set(order));
    assert order == [] ==> d1 == d0;
    assert forall k :: k in Keys(d1) ==> k in RESERVED;
    UpdateFresh(d1, st.options);
    var d2 := d1 + st.options;
    KeysConcat(d1, st.options);
    assert Keys(d1) == ["name"] + Keys(TagsEntry(order)) by { KeysConcat(d0, TagsEntry(order)); }
    var deps := PrintedDeps(st.deps);
    var d3 := d2 + DepsEntry(st.deps);
    if deps.Some? {
      PutFresh(d2, "depends_on", deps.value);
    } else {
      assert d3 == d2;
    }
    KeysConcat(d2, DepsEntry(st.deps));
    PutFresh(d3, "commands", st.commands);
    PrintedUnique(name, st, order);
  }

  /** Whatever the options, the printed keys are distinct. */
  lemma PrintedUnique(name: string, st: TaskState, order: seq<Value>)
    ensures UniqueKeys(Printed(name, st, order))
  {
    var d0 := [("name", Str(name))];
    PutUnique(d0, "tags", Set(order));
    var d1 := if order == [] then d0 else Put(d0, "tags", Set(order));
    UpdateUnique(d1, st.options);
    var d2 := Update(d1, st.options);
    var deps := PrintedDeps(st.deps);
    if deps.Some? {
      PutUnique(d2, "depends_on", deps.value);
      PutUnique(Put(d2, "depends_on", deps.value), "commands", st.commands);
    } else {
      PutUnique(d2, "commands", st.commands);
    }
  }

  lemma {:induction false} KeepUnreserved(d: OD)
    requires OptionsApart(d)
    ensures Filter(Unreserved(), d) == d
  {
    if d == [] {
    } else {
      InitLast(d);
      KeepUnreserved(Init(d));
    }
  }

  lemma {:induction false} DropReserved(d: OD)
    requires forall i :: 0 <= i < |d| ==> d[i].0 in RESERVED
    ensures Filter(Unreserved(), d) == []
  {
    if d == [] {
    } else {
      DropReserved(Init(d));
    }
  }

  lemma FilterUnreserved(a: OD, d: OD, b: OD)
    requires OptionsApart(d)
    requires forall i :: 0 <= i < |a| ==> a[i].0 in RESERVED
    requires forall i :: 0 <= i < |b| ==> b[i].0 in RESERVED
    ensures Filter(Unreserved(), a + d + b) == d
  {
    KeepUnreserved(d);
    DropReserved(a);
    DropReserved(b);
    FilterConcat(Unreserved(), a + d, b);
    FilterConcat(Unreserved(), a, d);
    assert [] + d + [] == d;
  }

  lemma HeadLookup(name: string, order: seq<Value>)
    ensures var head := [("name", Str(name))] + TagsEntry(order);
            && Keys(head) == (if order == [] then ["name"] else ["name", "tags"])
            && Lookup(head, "name") == Some(Str(name))
            && Lookup(head, "tags") == if order == [] then None else Some(Set(order))
  {
    var e := [("name", Str(name))];
    OneEntry("name", Str(name));
    OneEntry("tags", Set(order));
    KeysConcat(e, TagsEntry(order));
    LookupConcat(e, TagsEntry(order), "name");
    LookupConcat(e, TagsEntry(order), "tags");
  }

  lemma TailLookup(deps: seq<Value>, commands: Value)
    ensures var tail := DepsEntry(deps) + [("commands", commands)];
            && Keys(tail) == (if PrintedDeps(deps).Some? then ["depends_on", "commands"] else ["commands"])
            && Lookup(tail, "depends_on") == PrintedDeps(deps)
            && Lookup(tail, "commands") == Some(commands)
            && Lookup(tail, "tags") == None
  {
    var e := [("commands", commands)];
    OneEntry("commands", commands);
    KeysConcat(DepsEntry(deps), e);
    LookupConcat(DepsEntry(deps), e, "depends_on");
    LookupConcat(DepsEntry(deps), e, "commands");
    LookupAbsent(e, "depends_on");
    LookupAbsent(DepsEntry(deps) + e, "tags");
    if PrintedDeps(deps).Some? {
      OneEntry("depends_on", PrintedDeps(deps).value);
    }
  }

  lemma LookupAround(head: OD, options: OD, tail: OD, k: string)
    requires k !in Keys(options)
    ensures Lookup(head + options + tail, k) == if k in Keys(head) then Lookup(head, k) else Lookup(tail, k)
  {
    LookupConcat(head + options, tail, k);
    LookupConcat(head, options, k);
    LookupAbsent(options, k);
    KeysConcat(head, options);
  }

  lemma PrintedParts(name: string, st: TaskState, order: seq<Value>)
    requires UniqueKeys(st.options) && OptionsApart(st.options)
    ensures Printed(name, st, order) ==
            ([("name", Str(name))] + TagsEntry(order)) + st.options + (DepsEntry(st.deps) + [("commands", st.commands)])
  {
    PrintedLayout(name, st, order);
    Assoc([("name", Str(name))] + TagsEntry(order) + st.options, DepsEntry(st.deps), [("commands", st.commands)]);
  }

  /** With the options apart, looking the four keys up finds exactly what was put there. */
  lemma PrintedLookup(name: string, st: TaskState, order: seq<Value>)
    requires UniqueKeys(st.options) && OptionsApart(st.options)
    ensures Lookup(Printed(name, st, order), "name") == Some(Str(name))
    ensures Lookup(Printed(name, st, order), "tags") == if order == [] then None else Some(Set(order))
    ensures Lookup(Printed(name, st, order), "depends_on") == PrintedDeps(st.deps)
    ensures Lookup(Printed(name, st, order), "commands") == Some(st.commands)
  {
    PrintedParts(name, st, order);
    KeysOfApart(st.options);
    HeadLookup(name, order);
    TailLookup(st.deps, st.commands);
    var head, tail := [("name", Str(name))] + TagsEntry(order), DepsEntry(st.deps) + [("commands", st.commands)];
    forall k | k in RESERVED
      ensures Lookup(head + st.options + tail, k) == if k in Keys(head) then Lookup(head, k) else Lookup(tail, k)
    {
      LookupAround(head, st.options, tail, k);
    }
  }

  lemma PrintedOptions(name: string, st: TaskState, order: seq<Value>)
    requires UniqueKeys(st.options) && OptionsApart(st.options)
    ensures Filter(Unreserved(), Printed(name, st, order)) == st.options
  {
    PrintedParts(name, st, order);
    FilterUnreserved([("name", Str(name))] + TagsEntry(order), st.options,
                     DepsEntry(st.deps) + [("commands", st.commands)]);
  }

  /** The reader recovers the whole task exactly when no option uses a key of the task's own and
      the dependencies are not one lone empty mapping. */
  lemma PrintedRoundTrip(name: string, st: TaskState, order: seq<Value>)
    requires WellFormed(st) && Enumerates(order, st.tags)
    ensures ReadName(Printed(name, st, order)) == name && ReadTask(Printed(name, st, order)) == st <==>
            OptionsApart(st.options) && st.deps != [Dict([])]
  {
    var d := Printed(name, st, order);
    if OptionsApart(st.options) {
      PrintedLookup(name, st, order);
      PrintedOptions(name, st, order);
      ReadTagsBack(order, st.tags, d);
      ReadDepsBack(st.deps, d);
    } else {
      FilterKeepsApart(d);
    }
  }

  lemma ReadTagsBack(order: seq<Value>, tags: set<Value>, d: OD)
    requires Enumerates(order, tags)
    requires Lookup(d, "tags") == if order == [] then None else Some(Set(order))
    ensures ReadTags(d) == tags
  {
    assert forall t :: t in tags <==> t in order;
  }

  lemma ReadDepsBack(deps: seq<Value>, d: OD)
    requires forall i :: 0 <= i < |deps| ==> deps[i].Dict?
    requires Lookup(d, "depends_on") == PrintedDeps(deps)
    ensures ReadDeps(d) == if deps == [Dict([])] then [] else deps
  {
    if |deps| == 1 {
      assert deps == [deps[0]];
    }
  }

  lemma FilterKeepsApart(d: OD)
    ensures OptionsApart(Filter(Unreserved(), d))
  {
    FilterPositions(Unreserved(), d);
    var r := Filter(Unreserved(), d);
    forall i | 0 <= i < |r|
      ensures r[i].0 !in RESERVED
    {
      var n := Positions(Unreserved(), d)[i];
      assert n in Positions(Unreserved(), d);
    }
  }

  // ----- what is lost otherwise

  /** One lone empty mapping prints like no dependency. */
  lemma EmptyMappingNotPrinted(name: string, st: TaskState, order: seq<Value>)
    requires st.deps == [Dict([])]
    ensures Printed(name, st, order) == Printed(name, st.(deps := []), order)
  {
  }

  /** An option named `tags`, put first, prints like the tags themselves. */
  lemma TagsOptionMistaken(name: string, st: TaskState, order: seq<Value>)
    requires Enumerates(order, st.tags) && st.tags != {}
    ensures Printed(name, st, order) ==
            Printed(name, st.(tags := {}, options := [("tags", Set(order))] + st.options), [])
  {
    var d0: OD, more := [("name", Str(name))], [("tags", Set(order))] + st.options;
    var t :| t in st.tags;
    assert t in order;
    assert more[0] == ("tags", Set(order)) && more[1..] == st.options;
    assert Update(d0, more) == Update(Put(d0, "tags", Set(order)), st.options);
  }

  lemma {:induction false} UpdateSnoc(d: OD, e: OD, k: string, v: Value)
    ensures Update(d, e + [(k, v)]) == Put(Update(d, e), k, v)
    decreases |e|
  {
    if e == [] {
      assert e + [(k, v)] == [(k, v)];
      assert Update(d, [(k, v)]) == Update(Put(d, k, v), [(k, v)][1..]);
    } else {
      assert (e + [(k, v)])[1..] == e[1..] + [(k, v)];
      UpdateSnoc(Put(d, e[0].0, e[0].1), e[1..], k, v);
    }
  }

  /** An option named `depends_on`, put last, prints like the dependencies themselves. */
  lemma DependsOptionMistaken(name: string, st: TaskState, order: seq<Value>)
    requires PrintedDeps(st.deps).Some?
    ensures Printed(name, st, order) ==
            Printed(name, st.(deps := [], options := st.options + [("depends_on", PrintedDeps(st.deps).value)]), order)
  {
    UpdateSnoc(BeforeOptions(name, order), st.options, "depends_on", PrintedDeps(st.deps).value);
  }

  /** The same dictionary but for the value at one key. */
  ghost predicate SameBut(d: OD, e: OD, k: string) {
    |d| == |e| && forall i :: 0 <= i < |d| ==> d[i].0 == e[i].0 && (d[i].0 != k ==> d[i].1 == e[i].1)
  }

  lemma {:induction false} PutOver(d: OD, e: OD, k: string, v: Value)
    requires SameBut(d, e, k) && UniqueKeys(d)
    ensures Put(d, k, v) == Put(e, k, v)
  {
    if d == [] {
    } else {
      UniqueTail(d);
      if d[0].0 == k {
        assert forall i :: 0 <= i < |d[1..]| ==> d[1..][i].0 == Keys(d[1..])[i] != k;
        assert d[1..] == e[1..];
      } else {
        PutOver(d[1..], e[1..], k, v);
      }
    }
  }

  lemma {:induction false} PutBeside(d: OD, e: OD, k: string, k': string, v: Value, w: Value)
    requires SameBut(d, e, k) && (k' != k ==> v == w)
    ensures SameBut(Put(d, k', v), Put(e, k', w), k)
  {
    if d == [] || d[0].0 == k' {
    } else {
      PutBeside(d[1..], e[1..], k, k', v, w);
    }
  }

  lemma {:induction false} UpdateBeside(d: OD, e: OD, k: string, m: OD, n: OD)
    requires SameBut(d, e, k) && SameBut(m, n, k)
    ensures SameBut(Update(d, m), Update(e, n), k)
    decreases |m|
  {
    if m == [] {
    } else {
      PutBeside(d, e, k, m[0].0, m[0].1, n[0].1);
      UpdateBeside(Put(d, m[0].0, m[0].1), Put(e, n[0].0, n[0].1), k, m[1..], n[1..]);
    }
  }

  lemma {:induction false} UpdateOver(d: OD, e: OD, k: string, m: OD)
    requires SameBut(d, e, k) && UniqueKeys(d) && k in Keys(m)
    ensures Update(d, m) == Update(e, m)
    decreases |m|
  {
    if m[0].0 == k {
      PutOver(d, e, k, m[0].1);
    } else {
      PutBeside(d, e, k, m[0].0, m[0].1, m[0].1);
      PutUnique(d, m[0].0, m[0].1);
      UpdateOver(Put(d, m[0].0, m[0].1), Put(e, m[0].0, m[0].1), k, m[1..]);
    }
  }

  /** Under an option named `name` the task's name does not show. */
  lemma NameHidden(name: string, name': string, st: TaskState, order: seq<Value>)
    requires "name" in Keys(st.options)
    ensures Printed(name, st, order) == Printed(name', st, order)
  {
    PutBeside([("name", Str(name))], [("name", Str(name'))], "name", "tags", Set(order), Set(order));
    UpdateOver(BeforeOptions(name, order), BeforeOptions(name', order), "name", st.options);
  }

  /** Under an option named `tags` it does not show which tags there are. */
  lemma TagsHidden(name: string, st: TaskState, order: seq<Value>, tags: set<Value>, order': seq<Value>)
    requires "tags" in Keys(st.options) && order != [] && order' != []
    ensures Printed(name, st, order) == Printed(name, st.(tags := tags), order')
  {
    PutBeside([("name", Str(name))], [("name", Str(name))], "tags", "tags", Set(order), Set(order'));
    UpdateOver(BeforeOptions(name, order), BeforeOptions(name, order'), "tags", st.options);
  }

  /** The value of an option named `depends_on` does not show when there are dependencies. */
  lemma DependsOptionLost(name: string, st: TaskState, options: OD, order: seq<Value>)
    requires SameBut(st.options, options, "depends_on") && PrintedDeps(st.deps).Some?
    ensures Printed(name, st, order) == Printed(name, st.(options := options), order)
  {
    var d1 := BeforeOptions(name, order);
    UpdateBeside(d1, d1, "depends_on", st.options, options);
    UpdateUnique(d1, st.options);
    PutOver(Update(d1, st.options), Update(d1, options), "depends_on", PrintedDeps(st.deps).value);
  }

  /** The value of an option named `commands` never shows. */
  lemma CommandsOptionLost(name: string, st: TaskState, options: OD, order: seq<Value>)
    requires SameBut(st.options, options, "commands")
    ensures Printed(name, st, order) == Printed(name, st.(options := options), order)
  {
    var d1, deps := BeforeOptions(name, order), PrintedDeps(st.deps);
    UpdateBeside(d1, d1, "commands", st.options, options);
    UpdateUnique(d1, st.options);
    var d2, e2 := Update(d1, st.options), Update(d1, options);
    if deps.Some? {
      PutBeside(d2, e2, "commands", "depends_on", deps.value, deps.value);
      PutUnique(d2, "depends_on", deps.value);
      PutOver(Put(d2, "depends_on", deps.value), Put(e2, "depends_on", deps.value), "commands", st.commands);
    } else {
      PutOver(d2, e2, "commands", st.commands);
    }
  }

  /** Tasks that print the same are the same. */
  lemma PrintedInjective(name: string, st: TaskState, order: seq<Value>,
                         name': string, st': TaskState, order': seq<Value>)
    requires WellFormed(st) && Enumerates(order, st.tags) && OptionsApart(st.options) && st.deps != [Dict([])]
    requires WellFormed(st') && Enumerates(order', st'.tags) && OptionsApart(st'.options) && st'.deps != [Dict([])]
    requires Printed(name, st, order) == Printed(name', st', order')
    ensures name == name' && st == st'
  {
    PrintedRoundTrip(name, st, order);
    PrintedRoundTrip(name', st', order');
  }

  // ----- printed with fewer tags or other dependencies

  /** What the key `depends_on` shows: the dependencies, or else an option of that name. */
  function ShownDeps(st: TaskState): Option<Value> {
    if PrintedDeps(st.deps).Some? then PrintedDeps(st.deps) else Lookup(st.options, "depends_on")
  }

  /** The first option, one named `name` apart, is named `tags`. */
  predicate LeadsWithTags(options: OD) {
    options != [] && (options[0].0 == "tags" || (options[0].0 == "name" && LeadsWithTags(options[1..])))
  }

  lemma HeadKeys(name: string, order: seq<Value>)
    ensures Keys(BeforeOptions(name, order)) == if order == [] then ["name"] else ["name", "tags"]
  {
    PutKeys([("name", Str(name))], "tags", Set(order));
  }

  lemma PrintedDependsOn(name: string, st: TaskState, order: seq<Value>)
    requires UniqueKeys(st.options)
    ensures Lookup(Printed(name, st, order), "depends_on") == ShownDeps(st)
  {
    var d1, deps := BeforeOptions(name, order), PrintedDeps(st.deps);
    HeadKeys(name, order);
    LookupAbsent(d1, "depends_on");
    LookupAbsent(st.options, "depends_on");
    LookupUpdate(d1, st.options, "depends_on");
    var d2 := Update(d1, st.options);
    LookupPut(PutGiven(d2, "depends_on", deps), "commands", st.commands, "depends_on");
    if deps.Some? {
      LookupPut(d2, "depends_on", deps.value, "depends_on");
    }
  }

  lemma {:induction false} UpdateKeepsKeys(d: OD, e: OD)
    ensures Keys(d) <= Keys(Update(d, e))
    decreases |e|
  {
    if e == [] {
    } else {
      PutKeys(d, e[0].0, e[0].1);
      UpdateKeepsKeys(Put(d, e[0].0, e[0].1), e[1..]);
    }
  }

  lemma {:induction false} SecondOption(d: OD, options: OD)
    requires Keys(d) == ["name"]
    ensures |Update(d, options)| == 1 ==> !LeadsWithTags(options)
    ensures |Update(d, options)| > 1 ==> (Keys(Update(d, options))[1] == "tags" <==> LeadsWithTags(options))
    decreases |options|
  {
    if options == [] {
    } else {
      var k, next := options[0].0, Put(d, options[0].0, options[0].1);
      PutKeys(d, k, options[0].1);
      if k == "name" {
        SecondOption(next, options[1..]);
      } else {
        UpdateKeepsKeys(next, options[1..]);
        assert Keys(next)[1] == k;
      }
    }
  }

  lemma SecondKey(name: string, st: TaskState, order: seq<Value>)
    ensures var d := Printed(name, st, order);
            |d| > 1 && (Keys(d)[1] == "tags" <==> order != [] || LeadsWithTags(st.options))
  {
    var d1, deps := BeforeOptions(name, order), PrintedDeps(st.deps);
    var d2 := Update(d1, st.options);
    HeadKeys(name, order);
    UpdateKeepsKeys(d1, st.options);
    if order == [] {
      SecondOption(d1, st.options);
    }
    if deps.Some? {
      PutKeys(d2, "depends_on", deps.value);
    }
    PutKeys(PutGiven(d2, "depends_on", deps), "commands", st.commands);
  }

  lemma {:induction false} TagsOverlaid(name: Value, tags: Value, options: OD)
    requires LeadsWithTags(options)
    ensures Update([("name", name)], options) == Update([("name", name), ("tags", tags)], options)
    decreases |options|
  {
    var k, v := options[0].0, options[0].1;
    if k == "tags" {
      assert Put([("name", name)], k, v) == Put([("name", name), ("tags", tags)], k, v);
    } else {
      assert Put([("name", name)], k, v) == [("name", v)];
      assert Put([("name", name), ("tags", tags)], k, v) == [("name", v), ("tags", tags)];
      TagsOverlaid(v, tags, options[1..]);
    }
  }

  lemma {:induction false} PutAgain(d: OD, k: string, v: Value)
    requires Lookup(d, k) == Some(v)
    ensures Put(d, k, v) == d
  {
    if d[0].0 == k {
    } else {
      PutAgain(d[1..], k, v);
    }
  }

  lemma TagsUnseen(name: string, st: TaskState, order: seq<Value>)
    requires LeadsWithTags(st.options)
    ensures Printed(name, st, []) == Printed(name, st, order)
  {
    if order != [] {
      assert BeforeOptions(name, order) == [("name", Str(name)), ("tags", Set(order))] by {
        PutFresh([("name", Str(name))], "tags", Set(order));
      }
      TagsOverlaid(Str(name), Set(order), st.options);
    }
  }

  lemma DepsUnseen(name: string, st: TaskState, deps: seq<Value>, order: seq<Value>)
    requires UniqueKeys(st.options) && ShownDeps(st) == ShownDeps(st.(deps := deps))
    ensures Printed(name, st, order) == Printed(name, st.(deps := deps), order)
  {
    var d1 := BeforeOptions(name, order);
    var d2 := Update(d1, st.options);
    HeadKeys(name, order);
    LookupAbsent(d1, "depends_on");
    LookupAbsent(st.options, "depends_on");
    LookupUpdate(d1, st.options, "depends_on");
    if ShownDeps(st).Some? && PrintedDeps(st.deps) != PrintedDeps(deps) {
      PutAgain(d2, "depends_on", ShownDeps(st).value);
    }
  }

  /** Without its tags, and with other dependencies, a task prints alike exactly when an option shows
      in place of the tags and the key `depends_on` shows the same. */
  lemma PrintedAlike(name: string, st: TaskState, deps: seq<Value>, order: seq<Value>, order': seq<Value>)
    requires UniqueKeys(st.options) && (order == order' || order == [])
    ensures Printed(name, st, order) == Printed(name, st.(deps := deps), order') <==>
            (order == order' || LeadsWithTags(st.options)) && ShownDeps(st) == ShownDeps(st.(deps := deps))
  {
    PrintedDependsOn(name, st, order);
    PrintedDependsOn(name, st.(deps := deps), order');
    if order != order' {
      SecondKey(name, st, order);
      SecondKey(name, st.(deps := deps), order');
      if LeadsWithTags(st.options) {
        TagsUnseen(name, st, order');
      }
    }
    if ShownDeps(st) == ShownDeps(st.(deps := deps)) {
      DepsUnseen(name, st, deps, order');
    }
  }
}
