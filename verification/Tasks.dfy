/** Tasks and matrix tasks as the objects that configuration scripts build and update. */
module Tasks {
  import opened Seqs
  import opened Values
  import Product
  import opened Rules
  import opened Matrix
  import opened Printing

  class PyList {
    var items: seq<Value>

    constructor (items: seq<Value>)
      ensures this.items == items
    {
      this.items := items;
    }

    method Append(x: Value)
      modifies this
      ensures items == old(items) + [x]
    {
      items := items + [x];
    }
  }

  class PySet {
    var elems: set<Value>

    constructor ()
      ensures elems == {}
    {
      elems := {};
    }

    /** `update(args)`: one element after the other, until one cannot be hashed. */
    method Update(args: seq<Value>) returns (error: Option<PyError>)
      modifies this
      ensures elems == AddAll(old(elems), HashablePrefix(args))
      ensures error == if HashablePrefix(args) == args then None else Some(TypeError)
    {
      HashablePrefixIsPrefix(args);
      var prefix := HashablePrefix(args);
      for i := 0 to |args|
        invariant i <= |prefix|
        invariant elems == AddAll(old(elems), prefix[..i])
      {
        if !Hashable(args[i]) {
          assert prefix[..i] == prefix;
          return Some(TypeError);
        }
        assert i < |prefix| && Init(prefix[..i + 1]) == prefix[..i] && prefix[i] == args[i];
        elems := Add(elems, args[i]);
      }
      assert prefix[..|args|] == prefix == args;
      return None;
    }

    /** `intersection(args)` is not empty: every argument is hashed. */
    method Meets(args: seq<Value>) returns (r: Result<bool>)
      ensures r.Err? <==> exists v :: v in args && !Hashable(v)
      ensures r.Err? ==> r.error == TypeError
      ensures r.Ok? ==> (r.value <==> exists v :: v in args && Has(elems, v))
    {
      var found := false;
      for i := 0 to |args|
        invariant forall v :: v in args[..i] ==> Hashable(v)
        invariant found <==> exists v :: v in args[..i] && Has(elems, v)
      {
        if !Hashable(args[i]) {
          return Err(TypeError);
        }
        assert args[..i + 1] == args[..i] + [args[i]];
        found := found || Has(elems, args[i]);
      }
      assert args[..|args|] == args;
      return Ok(found);
    }
  }

  /** The three shapes of `depends_on`. */
  datatype DependsOn = Absent | One(mapping: Value) | Many(list: PyList)

  /** A dependency that is not a mapping becomes the `name` of one, whatever it is. */
  function AsMapping(dependency: Value): Value {
    if dependency.Dict? then dependency else Dict([("name", dependency)])
  }

  // ----- what a construction does with its keywords

  predicate Given(kwargs: Env, k: string) {
    k in kwargs && Truthy(kwargs[k])
  }

  /** `add_tags(*tags)`: iterating a string gives its characters, a dictionary its keys. */
  function TagElements(tags: Value): Result<seq<Value>> {
    match tags
    case Str(s) => Ok(seq(|s|, i requires 0 <= i < |s| => Str([s[i]])))
    case List(items) => Ok(items)
    case Set(elems) => Ok(elems)
    case Dict(entries) => Ok(Strs(Keys(entries)))
    case _ => Err(TypeError)
  }

  /** The receiver of a construction; a keyword of this name would give it a second value. */
  const RECEIVER := "self"

  /** The exception a construction raises; the commands are looked at before the tags. */
  function ConstructionError(kwargs: Env): Option<PyError> {
    if RECEIVER in kwargs then Some(TypeError)
    else if Given(kwargs, "commands") && !kwargs["commands"].List? && !kwargs["commands"].Str? then Some(AssertionError)
    else if Given(kwargs, "tags") && !CanIterateTags(kwargs["tags"]) then Some(TypeError)
    else None
  }

  predicate CanIterateTags(tags: Value) {
    var elements := TagElements(tags);
    elements.Ok? && HashablePrefix(elements.value) == elements.value
  }

  /** The state a construction that raises nothing leaves. */
  function InitialState(kwargs: Env): TaskState
    requires ConstructionError(kwargs) == None
  {
    TaskState(
      if Given(kwargs, "tags") then AddAll({}, TagElements(kwargs["tags"]).value) else {},
      if "exec_timeout_secs" in kwargs then [("exec_timeout_secs", kwargs["exec_timeout_secs"])] else [],
      if Given(kwargs, "depends_on") then [AsMapping(kwargs["depends_on"])] else [],
      if Given(kwargs, "commands") then kwargs["commands"] else List([]))
  }

  /** Which keywords raise, spelled out: `self` is taken by the receiver, commands must be falsy, a list
      or a string, and tags must be falsy or give hashable elements only. */
  lemma ConstructionRaises(kwargs: Env)
    ensures ConstructionError(kwargs) == Some(AssertionError) <==>
            && "self" !in kwargs && "commands" in kwargs
            && match kwargs["commands"]
               case Bool(b) => b
               case Int(i) => i != 0
               case Dict(entries) => entries != []
               case Set(elems) => elems != []
               case Config(_, _) => true
               case _ => false
    ensures ConstructionError(kwargs) == Some(TypeError) <==>
            || "self" in kwargs
            || (&& ConstructionError(kwargs) != Some(AssertionError) && "tags" in kwargs
                && match kwargs["tags"]
                   case Bool(b) => b
                   case Int(i) => i != 0
                   case List(items) => exists v :: v in items && !Hashable(v)
                   case Set(elems) => exists v :: v in elems && !Hashable(v)
                   case Config(_, _) => true
                   case _ => false)
    ensures ConstructionError(kwargs) != Some(IndexError)
  {
    if "tags" in kwargs && TagElements(kwargs["tags"]).Ok? {
      HashablePrefixIsPrefix(TagElements(kwargs["tags"]).value);
    }
  }

  /** The tags of a new task: what a list or a set of tags holds, the characters of a string, the keys
      of a dictionary; none otherwise. */
  lemma InitialTags(kwargs: Env)
    requires ConstructionError(kwargs) == None
    ensures "tags" !in kwargs ==> InitialState(kwargs).tags == {}
    ensures "tags" in kwargs ==>
              match kwargs["tags"]
              case List(items) => HoldsExactly(InitialState(kwargs).tags, items)
              case Set(elems) => HoldsExactly(InitialState(kwargs).tags, elems)
              case Str(text) => InitialState(kwargs).tags == set i | 0 <= i < |text| :: Str([text[i]])
              case Dict(entries) => InitialState(kwargs).tags == set e | e in entries :: Str(e.0)
              case _ => InitialState(kwargs).tags == {}
  {
    if Given(kwargs, "tags") {
      var elements := TagElements(kwargs["tags"]).value;
      HashablePrefixIsPrefix(elements);
      AddAllMembers({}, elements);
      match kwargs["tags"]
      case Str(text) => CharacterTags(text);
      case Dict(entries) => KeyTags(entries);
      case _ =>
    }
  }

  /** A set made of the items: each has an equal in it, and nothing else has. */
  ghost predicate HoldsExactly(s: set<Value>, items: seq<Value>) {
    && IsPySet(s) && (forall v :: v in s ==> v in items)
    && (forall v :: Has(s, v) <==> exists a :: a in items && PyEqual(a, v))
  }

  lemma CharacterTags(text: string)
    ensures AddAll({}, TagElements(Str(text)).value) == set i | 0 <= i < |text| :: Str([text[i]])
  {
    var elements := TagElements(Str(text)).value;
    AddAllStrings({}, elements);
    forall i | 0 <= i < |text|
      ensures Str([text[i]]) in elements
    {
      assert elements[i] == Str([text[i]]);
    }
  }

  lemma KeyTags(entries: OD)
    ensures AddAll({}, TagElements(Dict(entries)).value) == set e | e in entries :: Str(e.0)
  {
    var elements := TagElements(Dict(entries)).value;
    AddAllStrings({}, elements);
    forall i | 0 <= i < |entries|
      ensures elements[i] == Str(entries[i].0) && entries[i] in entries
    {
    }
    forall e | e in entries
      ensures Str(e.0) in elements
    {
      var i :| 0 <= i < |entries| && entries[i] == e;
      assert elements[i] == Str(e.0);
    }
  }

  /** The rest of a new task: at most the one option, at most one dependency, and the commands. */
  lemma InitialRest(kwargs: Env)
    requires ConstructionError(kwargs) == None
    ensures InitialState(kwargs).options ==
            if "exec_timeout_secs" in kwargs then [("exec_timeout_secs", kwargs["exec_timeout_secs"])] else []
    ensures InitialState(kwargs).deps ==
            if "depends_on" !in kwargs || !Truthy(kwargs["depends_on"]) then []
            else if kwargs["depends_on"].Dict? then [kwargs["depends_on"]]
            else [Dict([("name", kwargs["depends_on"])])]
    ensures InitialState(kwargs).commands ==
            if "commands" !in kwargs || !Truthy(kwargs["commands"]) then List([]) else kwargs["commands"]
  {
  }

  /** What is printed for the one dependency of a task: a mapping as it was given, unless it is empty,
      and anything else as the `name` of a mapping. */
  lemma DependencyShown(name: string, st: TaskState, dependency: Value, order: seq<Value>)
    requires UniqueKeys(st.options)
    ensures Lookup(Printed(name, st.(deps := [AsMapping(dependency)]), order), "depends_on") ==
            match dependency
            case Dict(entries) => if entries == [] then Lookup(st.options, "depends_on") else Some(dependency)
            case _ => Some(Dict([("name", dependency)]))
  {
    PrintedDependsOn(name, st.(deps := [AsMapping(dependency)]), order);
  }

  // ----- the printed dictionary

  /** What a printed dictionary holds: a value, or the task's own set or list. */
  datatype Slot = Fixed(value: Value) | TagsOf(tags: PySet) | DepsOf(list: PyList)

  type PrintedDict = OrderedDict<Slot>

  function FixedAll(options: OD): PrintedDict {
    if options == [] then [] else [(options[0].0, Fixed(options[0].1))] + FixedAll(options[1..])
  }

  function DepsSlot(dependsOn: DependsOn): Option<Slot> {
    match dependsOn
    case Absent => None
    case One(mapping) => if Truthy(mapping) then Some(Fixed(mapping)) else None
    case Many(list) => Some(DepsOf(list))
  }

  /** What `to_dict` returns; `tagged` is whether the tag set is not empty when it is called. */
  function Slots(name: string, tags: PySet, tagged: bool, options: OD, dependsOn: DependsOn, commands: Value)
    : PrintedDict
  {
    Layout(Fixed(Str(name)), if tagged then Some(TagsOf(tags)) else None, FixedAll(options), DepsSlot(dependsOn),
           Fixed(commands))
  }

  /** What a printed dictionary shows while the set iterates in `order` and the list holds `items`. */
  function View(d: PrintedDict, order: seq<Value>, items: seq<Value>): OD {
    if d == [] then [] else [(d[0].0, Show(d[0].1, order, items))] + View(d[1..], order, items)
  }

  function Show(slot: Slot, order: seq<Value>, items: seq<Value>): Value {
    match slot
    case Fixed(value) => value
    case TagsOf(_) => Set(order)
    case DepsOf(_) => List(items)
  }

  lemma {:induction false} ViewPut(d: PrintedDict, k: string, slot: Slot, order: seq<Value>, items: seq<Value>)
    ensures View(Put(d, k, slot), order, items) == Put(View(d, order, items), k, Show(slot, order, items))
  {
    if d == [] {
    } else if d[0].0 == k {
      assert Put(d, k, slot)[1..] == d[1..];
    } else {
      ViewPut(d[1..], k, slot, order, items);
      assert Put(d, k, slot)[1..] == Put(d[1..], k, slot);
    }
  }

  function ShowGiven(slot: Option<Slot>, order: seq<Value>, items: seq<Value>): Option<Value> {
    match slot
    case None => None
    case Some(given) => Some(Show(given, order, items))
  }

  lemma ViewPutGiven(d: PrintedDict, k: string, slot: Option<Slot>, order: seq<Value>, items: seq<Value>)
    ensures View(PutGiven(d, k, slot), order, items) ==
            PutGiven(View(d, order, items), k, ShowGiven(slot, order, items))
  {
    if slot.Some? {
      ViewPut(d, k, slot.value, order, items);
    }
  }

  lemma {:induction false} ViewUpdate(d: PrintedDict, options: OD, order: seq<Value>, items: seq<Value>)
    ensures View(Update(d, FixedAll(options)), order, items) == Update(View(d, order, items), options)
    decreases |options|
  {
    if options == [] {
    } else {
      var k, v := options[0].0, options[0].1;
      assert FixedAll(options)[1..] == FixedAll(options[1..]);
      ViewPut(d, k, Fixed(v), order, items);
      ViewUpdate(Put(d, k, Fixed(v)), options[1..], order, items);
    }
  }

  /** The dependencies a printed dictionary shows: the list follows its task, a lone mapping does not. */
  function DepsShown(dependsOn: DependsOn, items: seq<Value>): seq<Value> {
    match dependsOn
    case Absent => []
    case One(mapping) => [mapping]
    case Many(_) => items
  }

  /** A printed dictionary shows a task with the options and commands of the time of printing, its tags
      now if there were any then, and its dependencies now if they were a list then. */
  lemma ViewOfSlots(name: string, tags: PySet, tagged: bool, options: OD, dependsOn: DependsOn, commands: Value,
                    order: seq<Value>, items: seq<Value>, elems: set<Value>)
    requires dependsOn.Many? ==> |items| >= 2
    requires tagged ==> order != []
    ensures View(Slots(name, tags, tagged, options, dependsOn, commands), order, items) ==
            Printed(name, TaskState(elems, options, DepsShown(dependsOn, items), commands),
                    if tagged then order else [])
  {
    var d0: PrintedDict, slot := [("name", Fixed(Str(name)))], DepsSlot(dependsOn);
    var shown := if tagged then Some(TagsOf(tags)) else None;
    var d1 := PutGiven(d0, "tags", shown);
    var d2 := Update(d1, FixedAll(options));
    assert View(d0, order, items) == [("name", Str(name))] by { assert d0[1..] == []; }
    ViewPutGiven(d0, "tags", shown, order, items);
    ViewUpdate(d1, options, order, items);
    ViewPutGiven(d2, "depends_on", slot, order, items);
    ViewPut(PutGiven(d2, "depends_on", slot), "commands", Fixed(commands), order, items);
  }

  lemma EnumeratesNothing(order: seq<Value>, tags: set<Value>)
    requires Enumerates(order, tags)
    ensures order == [] <==> tags == {}
  {
    assert order != [] ==> order[0] in tags;
  }

  // ----- a printed dictionary and what the task does later

  /** The state that a dictionary printed at `was` shows once the task is at `now`: the tags of now if
      there were any then, the dependencies of now if they were a list then, and the rest as it was. */
  function Stale(was: TaskState, now: TaskState): TaskState {
    was.(tags := if was.tags == {} then {} else now.tags, deps := if |was.deps| >= 2 then now.deps else was.deps)
  }

  /** That state printed, while the tags iterate in `order`. */
  function StalePrint(name: string, was: TaskState, now: TaskState, order: seq<Value>): OD {
    var shown := Stale(was, now);
    Printed(name, shown, if shown.tags == {} then [] else order)
  }

  /** It is up to date exactly when the tags and the dependencies that came since go where it follows
      them, or an option hides them. */
  lemma PrintedUpToDate(name: string, was: TaskState, now: TaskState, order: seq<Value>)
    requires WellFormed(now) && now.options == was.options && now.commands == was.commands
    requires Enumerates(order, now.tags)
    ensures StalePrint(name, was, now, order) == Printed(name, now, order) <==>
            && (was.tags != {} || now.tags == {} || LeadsWithTags(now.options))
            && (|was.deps| >= 2 || ShownDeps(was) == ShownDeps(now))
  {
    var shown := Stale(was, now);
    EnumeratesNothing(order, now.tags);
    PrintedAlike(name, shown, now.deps, if shown.tags == {} then [] else order, order);
  }

  class Task {
    const tags: PySet
    var options: OD
    var dependsOn: DependsOn
    var commands: Value

    /** The list the task appends to; it belongs to this task alone. */
    ghost function Owned(): set<PyList>
      reads this
    {
      if dependsOn.Many? then {dependsOn.list} else {}
    }

    ghost function Dependencies(): seq<Value>
      reads this, Owned()
    {
      match dependsOn
      case Absent => []
      case One(mapping) => [mapping]
      case Many(list) => list.items
    }

    ghost function State(): TaskState
      reads this, tags, Owned()
    {
      TaskState(tags.elems, options, Dependencies(), commands)
    }

    ghost predicate Valid()
      reads this, tags, Owned()
    {
      WellFormed(State()) && (dependsOn.Many? ==> |Dependencies()| >= 2)
    }

    constructor (commands: Value)
      ensures Valid() && State() == TaskState({}, [], [], commands) && Owned() == {}
      ensures fresh(tags)
    {
      tags := new PySet();
      options, dependsOn := [], Absent;
      this.commands := commands;
    }

    static method Create(kwargs: Env) returns (r: Result<Task>)
      ensures r.Ok? <==> ConstructionError(kwargs) == None
      ensures r.Err? ==> ConstructionError(kwargs) == Some(r.error)
      ensures r.Ok? ==> fresh(r.value) && fresh(r.value.tags) && fresh(r.value.Owned()) && r.value.Valid()
      ensures r.Ok? ==> r.value.State() == InitialState(kwargs)
    {
      if RECEIVER in kwargs {
        return Err(TypeError);
      }
      var commands := if Given(kwargs, "commands") then kwargs["commands"] else List([]);
      if !commands.List? && !commands.Str? {
        return Err(AssertionError);
      }
      var task := new Task(commands);
      if Given(kwargs, "tags") {
        var elements := TagElements(kwargs["tags"]);
        if elements.Err? {
          return Err(TypeError);
        }
        var error := task.AddTags(elements.value);
        if error.Some? {
          return Err(error.value);
        }
      }
      if Given(kwargs, "depends_on") {
        task.AddDependency(kwargs["depends_on"]);
      }
      if "exec_timeout_secs" in kwargs {
        task.options := Put(task.options, "exec_timeout_secs", kwargs["exec_timeout_secs"]);
      }
      return Ok(task);
    }

    method AddTags(args: seq<Value>) returns (error: Option<PyError>)
      requires Valid()
      modifies tags
      ensures Valid()
      ensures State() == old(State()).(tags := AddAll(old(tags.elems), HashablePrefix(args)))
      ensures error == if HashablePrefix(args) == args then None else Some(TypeError)
      ensures (forall v :: v in args || v in old(tags.elems) ==> v.Str?) ==>
                error == None && tags.elems == old(tags.elems) + set a | a in args
    {
      HashablePrefixIsPrefix(args);
      if forall v :: v in args || v in old(tags.elems) ==> v.Str? {
        AddAllStrings(tags.elems, args);
      }
      AddAllMembers(tags.elems, HashablePrefix(args));
      error := tags.Update(args);
    }

    method HasTags(args: seq<Value>) returns (r: Result<bool>)
      ensures r.Err? <==> exists v :: v in args && !Hashable(v)
      ensures r.Err? ==> r.error == TypeError
      ensures r.Ok? ==> (r.value <==> exists v :: v in args && Has(tags.elems, v))
    {
      r := tags.Meets(args);
    }

    method AddDependency(dependency: Value)
      requires Valid()
      modifies this`dependsOn, Owned()
      ensures Valid()
      ensures Dependencies() ==
              old(Dependencies()) + [if dependency.Dict? then dependency else Dict([("name", dependency)])]
      ensures old(dependsOn).Many? ==> dependsOn == old(dependsOn)
      ensures old(dependsOn).One? ==> dependsOn.Many? && fresh(dependsOn.list)
      ensures old(dependsOn).Absent? ==> dependsOn == One(AsMapping(dependency))
    {
      var mapped := AsMapping(dependency);
      match dependsOn
      case Absent =>
        dependsOn := One(mapped);
      case One(mapping) =>
        var list := new PyList([mapping, mapped]);
        dependsOn := Many(list);
      case Many(list) =>
        list.Append(mapped);
    }

    /** `name` is the value of the name property. The dictionary holds the task's own set and list. */
    method ToDict(name: string) returns (task: PrintedDict)
      requires Valid()
      ensures task == Slots(name, tags, tags.elems != {}, options, dependsOn, commands)
      ensures forall order :: Enumerates(order, tags.elems) ==>
                View(task, order, Dependencies()) == Printed(name, State(), order)
    {
      task := [("name", Fixed(Str(name)))];
      if tags.elems != {} {
        task := Put(task, "tags", TagsOf(tags));
      }
      task := Update(task, FixedAll(options));
      match dependsOn {
        case Absent =>
        case One(mapping) =>
          if Truthy(mapping) {
            task := Put(task, "depends_on", Fixed(mapping));
          }
        case Many(list) =>
          if list.items != [] {
            task := Put(task, "depends_on", DepsOf(list));
          }
      }
      task := Put(task, "commands", Fixed(commands));
      forall order | Enumerates(order, tags.elems)
        ensures View(task, order, Dependencies()) == Printed(name, State(), order)
      {
        EnumeratesNothing(order, tags.elems);
        ViewOfSlots(name, tags, tags.elems != {}, options, dependsOn, commands, order, Dependencies(), tags.elems);
      }
    }

    /** What a dictionary printed in an earlier state shows in this one, when a dependency list is the
        same object still and tags have not all gone; runs of calls see to both. */
    twostate lemma PrintedEarlier(name: string, new d: PrintedDict)
      requires old(Valid())
      requires Valid()
      requires d == old(Slots(name, tags, tags.elems != {}, options, dependsOn, commands))
      requires old(dependsOn).Many? ==> dependsOn == old(dependsOn)
      requires old(tags.elems) != {} ==> tags.elems != {}
      ensures forall order :: Enumerates(order, tags.elems) ==>
                View(d, order, Dependencies()) == StalePrint(name, old(State()), State(), order)
    {
      var was := old(State());
      forall order | Enumerates(order, tags.elems)
        ensures View(d, order, Dependencies()) == StalePrint(name, was, State(), order)
      {
        EnumeratesNothing(order, tags.elems);
        ViewOfSlots(name, tags, was.tags != {}, was.options, old(dependsOn), was.commands, order,
                    Dependencies(), Stale(was, State()).tags);
      }
    }
  }

  // ----- many tasks, any run of calls

  ghost function TagSets(tasks: seq<Task>): set<PySet> {
    set t | t in tasks :: t.tags
  }

  ghost function Lists(tasks: seq<Task>): set<PyList>
    reads tasks
  {
    set t, l | t in tasks && l in t.Owned() :: l
  }

  /** Valid tasks that share neither tag set nor list. */
  ghost predicate Separated(tasks: seq<Task>)
    reads tasks, TagSets(tasks), Lists(tasks)
  {
    && (forall i :: 0 <= i < |tasks| ==> tasks[i].Valid())
    && (forall i, j :: 0 <= i < j < |tasks| ==>
          tasks[i] != tasks[j] && tasks[i].tags != tasks[j].tags && tasks[i].Owned() !! tasks[j].Owned())
  }

  ghost predicate AreAt(tasks: seq<Task>, states: seq<TaskState>)
    reads tasks, TagSets(tasks), Lists(tasks)
  {
    |states| == |tasks| && forall i :: 0 <= i < |tasks| ==> tasks[i].State() == states[i]
  }

  /** A call on the task at a place: `add_dependency(dependency)` or `add_tags(*args)`. */
  datatype Call = Depend(task: nat, dependency: Value) | Tag(task: nat, args: seq<Value>)

  /** The state after a call; a call that raises has done what it did before. */
  ghost function After(st: TaskState, call: Call): TaskState {
    match call
    case Depend(_, dependency) => st.(deps := st.deps + [AsMapping(dependency)])
    case Tag(_, args) => st.(tags := AddAll(st.tags, HashablePrefix(args)))
  }

  ghost predicate Callable(calls: seq<Call>, n: nat) {
    forall k :: 0 <= k < |calls| ==> calls[k].task < n
  }

  /** The states after a run of calls. */
  ghost function AfterCalls(states: seq<TaskState>, calls: seq<Call>): (after: seq<TaskState>)
    requires Callable(calls, |states|)
    ensures |after| == |states|
  {
    if calls == [] then states
    else
      var before, call := AfterCalls(states, Init(calls)), Last(calls);
      before[call.task := After(before[call.task], call)]
  }

  /** The dependencies that a run of calls adds to task j, in call order. */
  ghost function AddressedDeps(calls: seq<Call>, j: nat): seq<Value> {
    if calls == [] then []
    else AddressedDeps(Init(calls), j)
         + (if Last(calls).Depend? && Last(calls).task == j then [AsMapping(Last(calls).dependency)] else [])
  }

  ghost function AddressedTags(calls: seq<Call>, j: nat): seq<Value> {
    if calls == [] then []
    else AddressedTags(Init(calls), j)
         + (if Last(calls).Tag? && Last(calls).task == j then HashablePrefix(Last(calls).args) else [])
  }

  lemma {:induction false} AddAllConcat(s: set<Value>, a: seq<Value>, b: seq<Value>)
    ensures AddAll(s, a + b) == AddAll(AddAll(s, a), b)
  {
    if b == [] {
      assert a + b == a;
    } else {
      assert Init(a + b) == a + Init(b);
      AddAllConcat(s, a, Init(b));
    }
  }

  /** After any run each task has its own calls, in call order, and nothing else has changed. */
  lemma {:induction false} AfterCallsPerTask(states: seq<TaskState>, calls: seq<Call>, j: nat)
    requires Callable(calls, |states|) && j < |states|
    ensures AfterCalls(states, calls)[j] ==
            states[j].(deps := states[j].deps + AddressedDeps(calls, j),
                       tags := AddAll(states[j].tags, AddressedTags(calls, j)))
  {
    if calls == [] {
      assert states[j].deps + [] == states[j].deps;
    } else {
      var before, call := AfterCalls(states, Init(calls)), Last(calls);
      AfterCallsPerTask(states, Init(calls), j);
      var deps := if call.Depend? && call.task == j then [AsMapping(call.dependency)] else [];
      var tags := if call.Tag? && call.task == j then HashablePrefix(call.args) else [];
      Assoc(states[j].deps, AddressedDeps(Init(calls), j), deps);
      AddAllConcat(states[j].tags, AddressedTags(Init(calls), j), tags);
      assert before[j].deps + [] == before[j].deps;
    }
  }

  /** One call: no other task notices, even one that was given the same mapping. */
  method DependOne(tasks: seq<Task>, k: nat, dependency: Value)
    requires Separated(tasks) && k < |tasks|
    modifies tasks[k], tasks[k].Owned()
    ensures Separated(tasks)
    ensures tasks[k].State() == After(old(tasks[k].State()), Depend(k, dependency))
    ensures forall j :: 0 <= j < |tasks| && j != k ==> tasks[j].State() == old(tasks[j].State())
    ensures forall l :: l in tasks[k].Owned() ==> fresh(l) || l in old(tasks[k].Owned())
    ensures forall j :: 0 <= j < |tasks| && j != k ==> tasks[j].Owned() == old(tasks[j].Owned())
    ensures forall j :: 0 <= j < |tasks| && old(tasks[j].dependsOn).Many? ==>
              tasks[j].dependsOn == old(tasks[j].dependsOn)
  {
    forall j | 0 <= j < |tasks| && j != k
      ensures tasks[j] != tasks[k] && tasks[j].Owned() !! tasks[k].Owned()
    {
    }
    label before:
    tasks[k].AddDependency(dependency);
    forall j | 0 <= j < |tasks| && j != k
      ensures tasks[j].State() == old@before(tasks[j].State()) && tasks[j].Valid()
      ensures tasks[j].Owned() == old@before(tasks[j].Owned())
    {
    }
  }

  method TagOne(tasks: seq<Task>, k: nat, args: seq<Value>)
    requires Separated(tasks) && k < |tasks|
    modifies tasks[k].tags
    ensures Separated(tasks)
    ensures tasks[k].State() == After(old(tasks[k].State()), Tag(k, args))
    ensures forall j :: 0 <= j < |tasks| && j != k ==> tasks[j].State() == old(tasks[j].State())
    ensures forall j :: 0 <= j < |tasks| && old(tasks[j].dependsOn).Many? ==>
              tasks[j].dependsOn == old(tasks[j].dependsOn)
  {
    forall j | 0 <= j < |tasks| && j != k
      ensures tasks[j].tags != tasks[k].tags
    {
    }
    label before:
    var _ := tasks[k].AddTags(args);
    forall j | 0 <= j < |tasks| && j != k
      ensures tasks[j].State() == old@before(tasks[j].State()) && tasks[j].Valid()
    {
    }
  }

  method PerformOne(tasks: seq<Task>, call: Call, ghost states: seq<TaskState>)
    requires Separated(tasks) && call.task < |tasks| && AreAt(tasks, states)
    modifies tasks, TagSets(tasks), Lists(tasks)
    ensures Separated(tasks)
    ensures forall l :: l in Lists(tasks) && l !in old(Lists(tasks)) ==> fresh(l)
    ensures AreAt(tasks, states[call.task := After(states[call.task], call)])
    ensures forall j :: 0 <= j < |tasks| && old(tasks[j].dependsOn).Many? ==>
              tasks[j].dependsOn == old(tasks[j].dependsOn)
  {
    match call
    case Depend(k, dependency) => DependOne(tasks, k, dependency);
    case Tag(k, args) => TagOne(tasks, k, args);
  }

  /** Any run of calls over any tasks, whatever states they start from; a dependency list stays the
      same object. */
  method Perform(tasks: seq<Task>, calls: seq<Call>, ghost states: seq<TaskState>)
    requires Separated(tasks) && Callable(calls, |tasks|) && AreAt(tasks, states)
    modifies tasks, TagSets(tasks), Lists(tasks)
    ensures Separated(tasks)
    ensures forall l :: l in Lists(tasks) && l !in old(Lists(tasks)) ==> fresh(l)
    ensures AreAt(tasks, AfterCalls(states, calls))
    ensures forall j :: 0 <= j < |tasks| && old(tasks[j].dependsOn).Many? ==>
              tasks[j].dependsOn == old(tasks[j].dependsOn)
  {
    if calls == [] {
    } else {
      Perform(tasks, Init(calls), states);
      PerformOne(tasks, Last(calls), AfterCalls(states, Init(calls)));
    }
  }

  /** What a dictionary printed before a run of calls shows after it. */
  method PrintThenPerform(tasks: seq<Task>, k: nat, name: string, calls: seq<Call>, ghost states: seq<TaskState>)
    returns (d: PrintedDict)
    requires Separated(tasks) && k < |tasks| && Callable(calls, |tasks|) && AreAt(tasks, states)
    modifies tasks, TagSets(tasks), Lists(tasks)
    ensures Separated(tasks) && AreAt(tasks, AfterCalls(states, calls))
    ensures forall order :: Enumerates(order, tasks[k].tags.elems) ==>
              View(d, order, tasks[k].Dependencies()) ==
              StalePrint(name, states[k], AfterCalls(states, calls)[k], order)
  {
    d := tasks[k].ToDict(name);
    label printed:
    Perform(tasks, calls, states);
    AfterCallsPerTask(states, calls, k);
    AddAllKeeps(states[k].tags, AddressedTags(calls, k));
    tasks[k].PrintedEarlier@printed(name, d);
  }

  // ----- matrix tasks

  datatype MatrixClass = MatrixClass(axes: seq<Axis>, rules: seq<Rule>)

  /** The entries that `Task.__init__` leaves in `__dict__`. */
  const TASK_FIELDS: set<string> := {"tags", "options", "depends_on", "commands"}

  /** An axis of this name hides the method from `allowed`. */
  const CHECK := "_check_allowed"

  /** An entry of `__dict__`: the task's field of that name, or the value of an axis. */
  datatype Attribute = TaskField | AxisValue(value: Value)

  type Attributes = map<string, Attribute>

  function TaskEntries(): Attributes {
    map k | k in TASK_FIELDS :: TaskField
  }

  function AxisEntries(env: Env): Attributes {
    map k | k in env :: AxisValue(env[k])
  }

  /** The axis values among the entries; they are what rules look at. */
  function AxisValues(dict: Attributes): Env {
    map k | k in dict && dict[k].AxisValue? :: dict[k].value
  }

  lemma AxesWin(env: Env)
    ensures AxisValues(TaskEntries() + AxisEntries(env)) == env
  {
  }

  class MatrixTask {
    const base: Task
    var dict: Attributes

    constructor (base: Task)
      ensures this.base == base && dict == TaskEntries()
    {
      this.base, dict := base, TaskEntries();
    }

    /** `self.__dict__.update(axis_dict)` */
    method SetAxes(axisDict: Env)
      modifies this
      ensures dict == old(dict) + AxisEntries(axisDict)
    {
      dict := dict + AxisEntries(axisDict);
    }

    /** Every axis takes its keyword out, or its first value; the rest goes to the task, whose fields are
        then written over by the axes of the same name. */
    static method Create(cls: MatrixClass, kwargs: Env) returns (r: Result<MatrixTask>)
      requires DistinctNames(cls.axes)
      ensures "self" in kwargs ==> r == Err(TypeError)
      ensures "self" !in kwargs && !NoEmptyAxis(cls.axes) ==> r == Err(IndexError)
      ensures "self" !in kwargs && NoEmptyAxis(cls.axes) ==>
                var error := ConstructionError(kwargs - NameSet(cls.axes));
                r.Ok? == error.None? && (r.Err? ==> error == Some(r.error))
      ensures r.Ok? ==>
                && fresh(r.value) && fresh(r.value.base) && fresh(r.value.base.tags) && fresh(r.value.base.Owned())
                && r.value.IsBuilt(Filled(cls.axes, kwargs), InitialState(kwargs - NameSet(cls.axes)))
      ensures r.Ok? ==>
                && r.value.dict.Keys == {"tags", "options", "depends_on", "commands"} + NameSet(cls.axes)
                && forall k :: k in r.value.dict ==>
                     && (k in NameSet(cls.axes) <==> r.value.dict[k].AxisValue?)
                     && (k in NameSet(cls.axes) ==> r.value.dict[k] == AxisValue(Filled(cls.axes, kwargs)[k]))
    {
      if RECEIVER in kwargs {
        return Err(TypeError);
      }
      var taken := TakeAxes(cls.axes, kwargs);
      if taken.Err? {
        return Err(taken.error);
      }
      var (axisDict, rest) := taken.value;
      var task := Task.Create(rest);
      if task.Err? {
        return Err(task.error);
      }
      var matrixTask := new MatrixTask(task.value);
      matrixTask.SetAxes(axisDict);
      FilledKeys(cls.axes, kwargs);
      return Ok(matrixTask);
    }

    /** The `allowed` property; it calls what `self._check_allowed` finds. */
    method Allowed(rules: seq<Rule>) returns (r: Result<bool>)
      ensures r == if "_check_allowed" in dict then Err(TypeError) else Ok(Rules.Allowed(rules, AxisValues(dict)))
    {
      if CHECK in dict {
        return Err(TypeError);
      }
      var allowed := IsAllowed(rules, AxisValues(dict));
      return Ok(allowed);
    }

    ghost predicate IsBuilt(env: Env, st: TaskState)
      reads this, base, base.tags, base.Owned()
    {
      dict == TaskEntries() + AxisEntries(env) && base.Valid() && base.State() == st
    }
  }

  /** The loop over the axes: the attributes it collects and the keywords it leaves. */
  method TakeAxes(axes: seq<Axis>, kwargs: Env) returns (r: Result<(Env, Env)>)
    requires DistinctNames(axes)
    ensures !NoEmptyAxis(axes) ==> r == Err(IndexError)
    ensures NoEmptyAxis(axes) ==> r == Ok((Filled(axes, kwargs), kwargs - NameSet(axes)))
  {
    var axisDict: Env, rest := map[], kwargs;
    for i := 0 to |axes|
      invariant NoEmptyAxis(axes[..i])
      invariant axisDict == Filled(axes[..i], kwargs)
      invariant rest == kwargs - NameSet(axes[..i])
    {
      var name, values := axes[i].name, axes[i].values;
      if values == [] {
        return Err(IndexError);
      }
      NextAxis(axes, i);
      assert name in rest <==> name in kwargs;
      axisDict := axisDict[name := if name in rest then rest[name] else values[0]];
      rest := rest - {name};
    }
    assert axes[..|axes|] == axes;
    return Ok((axisDict, rest));
  }

  lemma NextAxis(axes: seq<Axis>, i: nat)
    requires i < |axes| && DistinctNames(axes)
    ensures Init(axes[..i + 1]) == axes[..i]
    ensures axes[i].name !in NameSet(axes[..i])
    ensures NameSet(axes[..i + 1]) == NameSet(axes[..i]) + {axes[i].name}
  {
    assert axes[..i + 1] == axes[..i] + [axes[i]];
  }

  const FRESH_STATE := TaskState({}, [], [], List([]))

  lemma NoKeywords()
    ensures ConstructionError(map[]) == None && InitialState(map[]) == FRESH_STATE
  {
  }

  lemma CheckIsNoField(axes: seq<Axis>)
    ensures CHECK in TASK_FIELDS + NameSet(axes) <==> CHECK in NameSet(axes)
  {
    assert CHECK[0] == '_';
  }

  /** `cls(**axis_values)` for one cell raises only when an axis has the name of the receiver. */
  method BuildCell(cls: MatrixClass, cell: seq<Value>) returns (r: Result<MatrixTask>)
    requires DistinctNames(cls.axes) && cell in Product.Cells(Pools(cls.axes))
    ensures r.Err? <==> RECEIVER in NameSet(cls.axes)
    ensures r.Err? ==> r.error == TypeError
    ensures r.Ok? ==> fresh(r.value) && fresh(r.value.base) && fresh(r.value.base.tags)
    ensures r.Ok? ==> r.value.IsBuilt(Zipping(Names(cls.axes))(cell), FRESH_STATE)
    ensures r.Ok? ==> (CHECK in r.value.dict <==> CHECK in NameSet(cls.axes))
  {
    CellKeywords(cls.axes, cell);
    NoKeywords();
    CheckIsNoField(cls.axes);
    r := MatrixTask.Create(cls, Zip(Names(cls.axes), cell));
  }

  /** The new task of a cell, or none when the rules prohibit it. */
  method CheckCell(cls: MatrixClass, cell: seq<Value>) returns (r: Result<Option<MatrixTask>>)
    requires DistinctNames(cls.axes) && cell in Product.Cells(Pools(cls.axes))
    ensures r.Err? <==> RECEIVER in NameSet(cls.axes) || CHECK in NameSet(cls.axes)
    ensures r.Err? ==> r.error == TypeError
    ensures r.Ok? ==> (r.value.Some? <==> AllowedBy(cls.rules)(Zipping(Names(cls.axes))(cell)))
    ensures r.Ok? && r.value.Some? ==>
              var task := r.value.value;
              && fresh(task) && fresh(task.base) && fresh(task.base.tags)
              && task.IsBuilt(Zipping(Names(cls.axes))(cell), FRESH_STATE)
  {
    var built := BuildCell(cls, cell);
    if built.Err? {
      return Err(built.error);
    }
    var task := built.value;
    AxesWin(Zipping(Names(cls.axes))(cell));
    var allowed := task.Allowed(cls.rules);
    if allowed.Err? {
      return Err(allowed.error);
    }
    return Ok(if allowed.value then Some(task) else None);
  }

  /** Distinct matrix tasks with the given attributes and nothing else set. */
  ghost predicate AreBuilt(tasks: seq<MatrixTask>, envs: seq<Env>)
    reads tasks, set t | t in tasks :: t.base, set t | t in tasks :: t.base.tags,
          set t, l | t in tasks && l in t.base.Owned() :: l
  {
    && |tasks| == |envs|
    && (forall j :: 0 <= j < |tasks| ==> tasks[j].IsBuilt(envs[j], FRESH_STATE))
    && (forall i, j :: 0 <= i < j < |tasks| ==>
          tasks[i] != tasks[j] && tasks[i].base != tasks[j].base && tasks[i].base.tags != tasks[j].base.tags)
  }

  lemma AppendBuilt(tasks: seq<MatrixTask>, envs: seq<Env>, task: MatrixTask, env: Env)
    requires AreBuilt(tasks, envs) && task.IsBuilt(env, FRESH_STATE)
    requires forall t :: t in tasks ==> t != task && t.base != task.base && t.base.tags != task.base.tags
    ensures AreBuilt(tasks + [task], envs + [env])
  {
  }

  /** One round of the loop. */
  method YieldCell(cls: MatrixClass, cell: seq<Value>, tasks: seq<MatrixTask>, ghost envs: seq<Env>)
    returns (more: Result<seq<MatrixTask>>)
    requires DistinctNames(cls.axes) && cell in Product.Cells(Pools(cls.axes))
    requires AreBuilt(tasks, envs)
    ensures more.Err? <==> RECEIVER in NameSet(cls.axes) || CHECK in NameSet(cls.axes)
    ensures more.Err? ==> more.error == TypeError
    ensures more.Ok? ==>
              var env := Zipping(Names(cls.axes))(cell);
              AreBuilt(more.value, envs + if AllowedBy(cls.rules)(env) then [env] else [])
    ensures more.Ok? ==>
              forall t :: t in more.value && t !in tasks ==> fresh(t) && fresh(t.base) && fresh(t.base.tags)
  {
    var checked := CheckCell(cls, cell);
    if checked.Err? {
      return Err(checked.error);
    }
    match checked.value
    case None =>
      assert envs + [] == envs;
      return Ok(tasks);
    case Some(task) =>
      AppendBuilt(tasks, envs, task, Zipping(Names(cls.axes))(cell));
      return Ok(tasks + [task]);
  }

  /** `matrix()`: one new task, with nothing but its attributes set, for each allowed cell in order.
      An axis named like the receiver makes the first construction raise, and one that hides
      `_check_allowed` the first check. */
  method ExpandMatrix(cls: MatrixClass) returns (r: Result<seq<MatrixTask>>)
    requires DistinctNames(cls.axes)
    ensures r.Err? <==>
            NoEmptyAxis(cls.axes) && ("self" in NameSet(cls.axes) || "_check_allowed" in NameSet(cls.axes))
    ensures r.Err? ==> r.error == TypeError
    ensures r.Ok? ==> AreBuilt(r.value, Expansion(cls.axes, cls.rules))
    ensures r.Ok? ==> forall t :: t in r.value ==> fresh(t) && fresh(t.base) && fresh(t.base.tags)
  {
    var cells := Product.Enumerate(Pools(cls.axes));
    ghost var all := Combinations(cls.axes);
    NoCellsIffEmptyAxis(cls.axes);
    var tasks: seq<MatrixTask> := [];
    for n := 0 to |cells|
      invariant n > 0 ==> RECEIVER !in NameSet(cls.axes) && CHECK !in NameSet(cls.axes)
      invariant AreBuilt(tasks, FilterUpTo(AllowedBy(cls.rules), all, n))
      invariant forall t :: t in tasks ==> fresh(t) && fresh(t.base) && fresh(t.base.tags)
    {
      var more := YieldCell(cls, cells[n], tasks, FilterUpTo(AllowedBy(cls.rules), all, n));
      if more.Err? {
        return Err(more.error);
      }
      tasks := more.value;
    }
    FilterUpToAll(AllowedBy(cls.rules), all);
    return Ok(tasks);
  }

  lemma CellKeywords(axes: seq<Axis>, cell: seq<Value>)
    requires DistinctNames(axes) && cell in Product.Cells(Pools(axes))
    ensures NoEmptyAxis(axes)
    ensures Filled(axes, Zip(Names(axes), cell)) == Zip(Names(axes), cell)
    ensures Zip(Names(axes), cell) - NameSet(axes) == map[] && Zip(Names(axes), cell).Keys == NameSet(axes)
  {
    Product.CellLength(Pools(axes), cell);
    NoCellsIffEmptyAxis(axes);
    CellRoundTrip(axes, cell);
    CellOfZip(axes, cell);
  }
}
