/** Function calls and shell commands as configuration dictionaries. */
module Functions {
  import opened Seqs
  import Sorting
  import opened Values
  import opened Scripts

  // ----- func

  predicate KeyLess(a: (string, Value), b: (string, Value)) {
    Sorting.StrLess(a.0, b.0)
  }

  lemma KeysCompare(d: OD)
    requires UniqueKeys(d)
    ensures Sorting.StrictOrder(KeyLess) && Sorting.Comparable(KeyLess, d)
  {
    Sorting.StrLessStrictOrder();
    forall i, j | 0 <= i < j < |d|
      ensures Sorting.StrLess(d[i].0, d[j].0) || Sorting.StrLess(d[j].0, d[i].0)
    {
      assert Keys(d)[i] != Keys(d)[j];
      Sorting.StrLessTotal(d[i].0, d[j].0);
    }
  }

  function VarsEntry(kwargs: OD): OD {
    if kwargs == [] then [] else [("vars", Dict(Sorting.Sorted(KeyLess, kwargs)))]
  }

  function FuncDict(name: string, kwargs: OD): OD {
    [("func", Str(name))] + VarsEntry(kwargs)
  }

  /** A keyword that repeats the positional parameter is Python's TypeError. */
  method Func(name: string, kwargs: OD) returns (r: Result<OD>)
    requires UniqueKeys(kwargs)
    ensures r == if "func_name" in Keys(kwargs) then Err(TypeError) else Ok(FuncDict(name, kwargs))
  {
    if "func_name" in Keys(kwargs) {
      return Err(TypeError);
    }
    var od := [("func", Str(name))];
    if kwargs != [] {
      PutNew(od, {"func"}, "vars", Dict(Sorting.Sorted(KeyLess, kwargs)));
      od := Put(od, "vars", Dict(Sorting.Sorted(KeyLess, kwargs)));
    }
    assert od == FuncDict(name, kwargs);
    return Ok(od);
  }

  /** The variables come out by name, in code point order and a proper prefix first, and are those that
      went in. */
  lemma VarsSorted(kwargs: OD)
    requires UniqueKeys(kwargs)
    ensures |Sorting.Sorted(KeyLess, kwargs)| == |kwargs|
    ensures forall i, j :: 0 <= i < j < |kwargs| ==>
              var a, b := Sorting.Sorted(KeyLess, kwargs)[i].0, Sorting.Sorted(KeyLess, kwargs)[j].0;
              a < b || exists k :: 0 <= k < |a| && k < |b| && a[..k] == b[..k] && a[k] < b[k]
    ensures multiset(Sorting.Sorted(KeyLess, kwargs)) == multiset(kwargs)
  {
    var vars := Sorting.Sorted(KeyLess, kwargs);
    KeysCompare(kwargs);
    Sorting.SortedIncreasing(KeyLess, kwargs);
    Sorting.SortedMembers(KeyLess, kwargs);
    forall i, j | 0 <= i < j < |vars|
      ensures var a, b := vars[i].0, vars[j].0;
              a < b || exists k :: 0 <= k < |a| && k < |b| && a[..k] == b[..k] && a[k] < b[k]
    {
      assert KeyLess(vars[i], vars[j]);
      Sorting.StrLessIsLexicographic(vars[i].0, vars[j].0);
    }
  }

  /** The function's name, and its variables under `vars` if there are any; nothing else. */
  lemma FuncEntries(name: string, kwargs: OD)
    ensures Keys(FuncDict(name, kwargs)) == if kwargs == [] then ["func"] else ["func", "vars"]
    ensures Lookup(FuncDict(name, kwargs), "func") == Some(Str(name))
    ensures Lookup(FuncDict(name, kwargs), "vars") ==
            if kwargs == [] then None else Some(Dict(Sorting.Sorted(KeyLess, kwargs)))
  {
    assert FuncDict(name, kwargs)[1..] == VarsEntry(kwargs);
    assert kwargs != [] ==> VarsEntry(kwargs)[1..] == [];
  }

  /** Two calls print the same exactly when they call the same function with the same variables,
      in whatever order they were passed. */
  lemma FuncDictEqual(name: string, a: OD, name': string, b: OD)
    requires UniqueKeys(a) && UniqueKeys(b)
    ensures FuncDict(name, a) == FuncDict(name', b) <==> name == name' && (forall e :: e in a <==> e in b)
  {
    KeysCompare(a);
    KeysCompare(b);
    Sorting.SortedCanonical(KeyLess, a, b);
    assert FuncDict(name, a)[0] == ("func", Str(name)) && FuncDict(name', b)[0] == ("func", Str(name'));
    assert FuncDict(name, a)[1..] == VarsEntry(a) && FuncDict(name', b)[1..] == VarsEntry(b);
    assert a != [] ==> a[0] in a;
    assert b != [] ==> b[0] in b;
  }

  // ----- bootstrap and run_tests

  const BOOTSTRAP := "bootstrap mongo-orchestration"
  const RUN_TESTS := "run tests"

  /** `{k: v}` if v is given, else nothing. */
  function IfGiven(k: string, v: Value): OD {
    if Truthy(v) then [(k, v)] else []
  }

  function BootstrapVars(version: Value, topology: Value, kwargs: OD): OD {
    [("VERSION", version)] + (IfGiven("TOPOLOGY", topology) + kwargs)
  }

  function RunTestsVars(uri: Value, kwargs: OD): OD {
    IfGiven("URI", uri) + kwargs
  }

  /** The keywords that reach `**kwargs` are those that no parameter takes. */
  ghost predicate Spare(kwargs: OD, parameters: seq<string>) {
    UniqueKeys(kwargs) && forall k :: k in Keys(kwargs) ==> k !in parameters
  }

  lemma GivenUnique(k: string, v: Value, kwargs: OD)
    requires UniqueKeys(kwargs) && k !in Keys(kwargs)
    ensures UniqueKeys(IfGiven(k, v) + kwargs)
    ensures forall k' :: k' in Keys(IfGiven(k, v) + kwargs) <==> (Truthy(v) && k' == k) || k' in Keys(kwargs)
  {
    if Truthy(v) {
      UniqueCons(k, v, kwargs);
    } else {
      assert [] + kwargs == kwargs;
    }
  }

  lemma BootstrapVarsUnique(version: Value, topology: Value, kwargs: OD)
    requires Spare(kwargs, ["VERSION", "TOPOLOGY"])
    ensures UniqueKeys(BootstrapVars(version, topology, kwargs))
    ensures "func_name" in Keys(BootstrapVars(version, topology, kwargs)) <==> "func_name" in Keys(kwargs)
  {
    var rest := IfGiven("TOPOLOGY", topology) + kwargs;
    GivenUnique("TOPOLOGY", topology, kwargs);
    UniqueCons("VERSION", version, rest);
  }

  lemma RunTestsVarsUnique(uri: Value, kwargs: OD)
    requires Spare(kwargs, ["URI"])
    ensures UniqueKeys(RunTestsVars(uri, kwargs))
    ensures "func_name" in Keys(RunTestsVars(uri, kwargs)) <==> "func_name" in Keys(kwargs)
  {
    GivenUnique("URI", uri, kwargs);
  }

  method Bootstrap(version: Value := Str("latest"), topology: Value := PyNone, kwargs: OD := [])
    returns (r: Result<OD>)
    requires Spare(kwargs, ["VERSION", "TOPOLOGY"])
    ensures r == if "func_name" in Keys(kwargs) then Err(TypeError)
                 else Ok(FuncDict(BOOTSTRAP, BootstrapVars(version, topology, kwargs)))
  {
    BootstrapVarsUnique(version, topology, kwargs);
    if Truthy(topology) {
      r := Func(BOOTSTRAP, [("VERSION", version)] + ([("TOPOLOGY", topology)] + kwargs));
    } else {
      assert [] + kwargs == kwargs;
      r := Func(BOOTSTRAP, [("VERSION", version)] + kwargs);
    }
  }

  method RunTests(uri: Value := PyNone, kwargs: OD := []) returns (r: Result<OD>)
    requires Spare(kwargs, ["URI"])
    ensures r == if "func_name" in Keys(kwargs) then Err(TypeError)
                 else Ok(FuncDict(RUN_TESTS, RunTestsVars(uri, kwargs)))
  {
    RunTestsVarsUnique(uri, kwargs);
    if Truthy(uri) {
      r := Func(RUN_TESTS, [("URI", uri)] + kwargs);
    } else {
      assert [] + kwargs == kwargs;
      r := Func(RUN_TESTS, kwargs);
    }
  }

  lemma FunctionsCalled(version: Value, topology: Value, uri: Value, kwargs: OD)
    ensures Lookup(FuncDict(BOOTSTRAP, BootstrapVars(version, topology, kwargs)), "func") ==
            Some(Str("bootstrap mongo-orchestration"))
    ensures Lookup(FuncDict(RUN_TESTS, RunTestsVars(uri, kwargs)), "func") == Some(Str("run tests"))
  {
  }

  /** `bootstrap()` and `run_tests()` */
  method DefaultFunctions() returns (bootstrap: Result<OD>, runTests: Result<OD>)
    ensures bootstrap ==
            Ok([("func", Str("bootstrap mongo-orchestration")), ("vars", Dict([("VERSION", Str("latest"))]))])
    ensures runTests == Ok([("func", Str("run tests"))])
  {
    bootstrap := Bootstrap();
    runTests := RunTests();
    var vars := [("VERSION", Str("latest"))];
    assert BootstrapVars(Str("latest"), PyNone, []) == vars && RunTestsVars(PyNone, []) == [];
    assert vars[1..] == [] && Sorting.Sorted(KeyLess, vars) == vars;
    assert FuncDict(BOOTSTRAP, vars) == [("func", Str(BOOTSTRAP)), ("vars", Dict(vars))];
    assert FuncDict(RUN_TESTS, []) == [("func", Str(RUN_TESTS))];
  }

  /** Given alike: the same value, or both left out. */
  predicate SameGiven(v: Value, w: Value) {
    v == w || (!Truthy(v) && !Truthy(w))
  }

  lemma SpareMember(kwargs: OD, parameters: seq<string>, e: (string, Value))
    requires Spare(kwargs, parameters) && e in kwargs
    ensures e.0 !in parameters
  {
    var i :| 0 <= i < |kwargs| && kwargs[i] == e;
    assert Keys(kwargs)[i] == e.0;
  }

  /** Bootstrap commands are equal exactly when the version, the given topology and the other
      variables are; a falsy topology counts as none. */
  lemma BootstrapEqual(version: Value, topology: Value, a: OD, version': Value, topology': Value, b: OD)
    requires Spare(a, ["VERSION", "TOPOLOGY"]) && Spare(b, ["VERSION", "TOPOLOGY"])
    ensures FuncDict(BOOTSTRAP, BootstrapVars(version, topology, a)) ==
            FuncDict(BOOTSTRAP, BootstrapVars(version', topology', b)) <==>
            version == version' && SameGiven(topology, topology') && (forall e :: e in a <==> e in b)
  {
    var x, y := BootstrapVars(version, topology, a), BootstrapVars(version', topology', b);
    BootstrapVarsUnique(version, topology, a);
    BootstrapVarsUnique(version', topology', b);
    FuncDictEqual(BOOTSTRAP, x, BOOTSTRAP, y);
    BootstrapMembers(version, topology, a);
    BootstrapMembers(version', topology', b);
    if forall e :: e in x <==> e in y {
      assert ("VERSION", version) in x && ("VERSION", version') in y;
      assert ("TOPOLOGY", topology) in x <==> ("TOPOLOGY", topology) in y;
      assert ("TOPOLOGY", topology') in x <==> ("TOPOLOGY", topology') in y;
      forall e
        ensures e in a <==> e in b
      {
        assert e in x <==> e in y;
      }
    }
  }

  lemma BootstrapMembers(version: Value, topology: Value, kwargs: OD)
    requires Spare(kwargs, ["VERSION", "TOPOLOGY"])
    ensures forall e: (string, Value) :: e in BootstrapVars(version, topology, kwargs) <==>
              if e.0 == "VERSION" then e.1 == version
              else if e.0 == "TOPOLOGY" then Truthy(topology) && e.1 == topology
              else e in kwargs
    ensures forall e: (string, Value) :: e in kwargs ==> e.0 != "VERSION" && e.0 != "TOPOLOGY"
  {
    forall e | e in kwargs
      ensures e.0 != "VERSION" && e.0 != "TOPOLOGY"
    {
      SpareMember(kwargs, ["VERSION", "TOPOLOGY"], e);
    }
  }

  /** Likewise for the test runs and their URI. */
  lemma RunTestsEqual(uri: Value, a: OD, uri': Value, b: OD)
    requires Spare(a, ["URI"]) && Spare(b, ["URI"])
    ensures FuncDict(RUN_TESTS, RunTestsVars(uri, a)) == FuncDict(RUN_TESTS, RunTestsVars(uri', b)) <==>
            SameGiven(uri, uri') && (forall e :: e in a <==> e in b)
  {
    var x, y := RunTestsVars(uri, a), RunTestsVars(uri', b);
    RunTestsVarsUnique(uri, a);
    RunTestsVarsUnique(uri', b);
    FuncDictEqual(RUN_TESTS, x, RUN_TESTS, y);
    forall e | e in a || e in b
      ensures e.0 != "URI"
    {
      if e in a {
        SpareMember(a, ["URI"], e);
      } else {
        SpareMember(b, ["URI"], e);
      }
    }
    if forall e :: e in x <==> e in y {
      assert ("URI", uri) in x <==> ("URI", uri) in y;
      assert ("URI", uri') in x <==> ("URI", uri') in y;
      forall e
        ensures e in a <==> e in b
      {
        assert e in x <==> e in y;
      }
    }
  }

  // ----- shell_exec

  const ERREXIT := "set -o errexit"
  const XTRACE := "set -o xtrace"

  datatype ShellOptions =
    ShellOptions(test: bool, silent: bool, workingDir: Option<string>, continueOnErr: bool, background: bool)

  function Directives(errexit: bool, xtrace: bool): seq<string> {
    (if errexit then [ERREXIT] else []) + (if xtrace then [XTRACE] else [])
  }

  function Prefix(on: bool, directive: string): string {
    if on then directive + "\n" else ""
  }

  /** The text that `shell_exec` puts together. */
  function ScriptText(errexit: bool, xtrace: bool, script: string): string {
    Prefix(errexit, ERREXIT) + (Prefix(xtrace, XTRACE) + Normalised(script))
  }

  function Entry(on: bool, k: string, v: Value): OD {
    if on then [(k, v)] else []
  }

  function WhereFlags(o: ShellOptions): OD {
    Entry(o.silent, "silent", Bool(true))
    + (if o.workingDir.Some? then Entry(true, "working_dir", Str(o.workingDir.value)) else [])
  }

  function Flags(o: ShellOptions): OD {
    WhereFlags(o)
    + Entry(o.continueOnErr, "continue_on_err", Bool(true))
    + Entry(o.background, "background", Bool(true))
  }

  function Params(o: ShellOptions, text: string): OD {
    Flags(o) + Entry(true, "shell", Str("bash")) + Entry(true, "script", Str(text))
  }

  function ShellDict(o: ShellOptions, text: string): OD {
    [("command", Str("shell.exec"))]
    + Entry(o.test, "type", Str("test"))
    + Entry(true, "params", Dict(Params(o, text)))
  }

  /** The entries of a command, in order; `type: test` is there exactly for a test. */
  lemma CommandEntries(o: ShellOptions, text: string)
    ensures Keys(ShellDict(o, text)) == if o.test then ["command", "type", "params"] else ["command", "params"]
    ensures Lookup(ShellDict(o, text), "command") == Some(Str("shell.exec"))
    ensures ("type", Str("test")) in ShellDict(o, text) <==> o.test
    ensures Lookup(ShellDict(o, text), "params") == Some(Dict(Params(o, text)))
  {
    var command, test, params := ("command", Str("shell.exec")), ("type", Str("test")), Dict(Params(o, text));
    var rest := Entry(o.test, test.0, test.1) + [("params", params)];
    assert ShellDict(o, text) == [command] + rest;
    assert ([command] + rest)[1..] == rest;
    if o.test {
      assert rest == [test, ("params", params)];
      assert ShellDict(o, text)[1] == test;
      assert rest[1..] == [("params", params)];
    } else {
      assert rest == [("params", params)];
    }
    LookupOne("params", params);
  }

  lemma LookupOne(k: string, v: Value)
    ensures Keys([(k, v)]) == [k] && Lookup([(k, v)], k) == Some(v)
  {
  }

  /** The parameters of a command, in order. */
  lemma ParamKeys(o: ShellOptions, text: string)
    ensures Keys(Params(o, text)) ==
            (if o.silent then ["silent"] else []) + (if o.workingDir.Some? then ["working_dir"] else [])
            + (if o.continueOnErr then ["continue_on_err"] else []) + (if o.background then ["background"] else [])
            + ["shell", "script"]
  {
  }

  const DEFAULT_OPTIONS := ShellOptions(true, false, None, false, false)

  method ShellExec(script: string, errexit: bool := true, xtrace: bool := false, o: ShellOptions := DEFAULT_OPTIONS)
    returns (command: OD)
    ensures command == ShellDict(o, ScriptText(errexit, xtrace, script))
  {
    var dedented := BuildText(script, errexit, xtrace);
    var params := BuildParams(o, dedented);
    command := [("command", Str("shell.exec"))];
    command := PutIf(o.test, command, {"command"}, "type", Str("test"));
    command := PutIf(true, command, {"command", "type"}, "params", Dict(params));
  }

  /** `shell_exec(script)` */
  method DefaultShellExec(script: string) returns (command: OD)
    ensures command == [("command", Str("shell.exec")), ("type", Str("test")),
                        ("params", Dict([("shell", Str("bash")),
                                         ("script", Str("set -o errexit\n" + Normalised(script)))]))]
  {
    command := ShellExec(script);
    var text := ScriptText(true, false, script);
    assert text == "set -o errexit\n" + Normalised(script) by {
      assert "" + Normalised(script) == Normalised(script);
    }
    assert Params(DEFAULT_OPTIONS, text) == [("shell", Str("bash")), ("script", Str(text))];
  }

  method BuildText(script: string, errexit: bool, xtrace: bool) returns (dedented: string)
    ensures dedented == ScriptText(errexit, xtrace, script)
  {
    dedented := AddLineIf(errexit, "", ERREXIT);
    dedented := AddLineIf(xtrace, dedented, XTRACE);
    var body := Dedent(StripLines(script));
    Assoc(Prefix(errexit, ERREXIT), Prefix(xtrace, XTRACE), body);
    dedented := dedented + body;
  }

  /** `if on: text += line + "\n"` */
  method AddLineIf(on: bool, text: string, line: string) returns (r: string)
    ensures r == text + Prefix(on, line)
  {
    r := text;
    if on {
      Assoc(text, line, "\n");
      r := r + line + "\n";
    }
  }

  method BuildParams(o: ShellOptions, text: string) returns (params: OD)
    ensures params == Params(o, text)
  {
    params := BuildFlags(o);
    params := PutIf(true, params, FLAG_KEYS, "shell", Str("bash"));
    params := PutIf(true, params, FLAG_KEYS + {"shell"}, "script", Str(text));
  }

  ghost const FLAG_KEYS := {"silent", "working_dir", "continue_on_err", "background"}

  method BuildFlags(o: ShellOptions) returns (params: OD)
    ensures params == Flags(o)
    ensures forall k :: k in Keys(params) ==> k in FLAG_KEYS
  {
    params := PutIf(o.silent, [], {}, "silent", Bool(true));
    if o.workingDir.Some? {
      params := PutIf(true, params, {"silent"}, "working_dir", Str(o.workingDir.value));
    }
    assert params == WhereFlags(o);
    params := PutIf(o.continueOnErr, params, {"silent", "working_dir"}, "continue_on_err", Bool(true));
    params := PutIf(o.background, params, {"silent", "working_dir", "continue_on_err"}, "background", Bool(true));
  }

  /** `if on: d[k] = v` for a key that is new: those present are among `ks`. */
  method PutIf(on: bool, d: OD, ghost ks: set<string>, k: string, v: Value) returns (r: OD)
    requires (forall k' :: k' in Keys(d) ==> k' in ks) && k !in ks
    ensures r == d + Entry(on, k, v)
    ensures forall k' :: k' in Keys(r) ==> k' in ks + {k}
  {
    r := d;
    if on {
      PutNew(d, ks, k, v);
      r := Put(d, k, v);
    }
  }

  /** The emitted script, line by line: the directives, then the body of the script. */
  lemma ScriptLines(errexit: bool, xtrace: bool, script: string)
    ensures Lines(ScriptText(errexit, xtrace, script)) ==
            Directives(errexit, xtrace) + (if Body(script) == [] then [""] else Body(script))
  {
    LinesOfNormalised(script);
    OneLineEach();
    TwoPrefixes(errexit, ERREXIT, xtrace, XTRACE, Normalised(script));
  }

  lemma DirectivesLiterally(errexit: bool, xtrace: bool)
    ensures Directives(errexit, xtrace) ==
            (if errexit then ["set -o errexit"] else []) + (if xtrace then ["set -o xtrace"] else [])
  {
  }

  lemma OneLineEach()
    ensures '\n' !in ERREXIT && '\n' !in XTRACE
  {
  }

  lemma TwoPrefixes(e: bool, first: string, x: bool, second: string, text: string)
    requires '\n' !in first && '\n' !in second
    ensures Lines(Prefix(e, first) + (Prefix(x, second) + text)) ==
            (if e then [first] else []) + (if x then [second] else []) + Lines(text)
  {
    PrefixLines(x, second, text);
    PrefixLines(e, first, Prefix(x, second) + text);
    Assoc(if e then [first] else [], if x then [second] else [], Lines(text));
  }

  lemma PrefixLines(on: bool, directive: string, text: string)
    requires '\n' !in directive
    ensures Lines(Prefix(on, directive) + text) == (if on then [directive] else []) + Lines(text)
  {
    if on {
      LinesOfCons(directive, text);
    } else {
      assert "" + text == text && [] + Lines(text) == Lines(text);
    }
  }

  lemma DirectivesHaveText(errexit: bool, xtrace: bool)
    ensures forall i :: 0 <= i < |Directives(errexit, xtrace)| ==>
              NonBlank(Directives(errexit, xtrace)[i]) && Directives(errexit, xtrace)[i][0] == 's'
  {
    assert !IsSpace(ERREXIT[0]) && !IsSpace(XTRACE[0]);
  }

  /** No line of the emitted script is blank exactly when the script had a non-blank line. */
  lemma NoBlankLines(errexit: bool, xtrace: bool, script: string)
    ensures (forall line :: line in Lines(ScriptText(errexit, xtrace, script)) ==> NonBlank(line)) <==>
            Body(script) != []
  {
    var lines := Lines(ScriptText(errexit, xtrace, script));
    ScriptLines(errexit, xtrace, script);
    DirectivesHaveText(errexit, xtrace);
    BodyLines(script);
    if Body(script) == [] {
      assert lines[|lines| - 1] == "" && !NonBlank("");
    }
  }

  /** Feeding an emitted script back without flags changes nothing, exactly when there was a
      non-blank line or nothing was put in front. */
  lemma EmittedIsNormal(errexit: bool, xtrace: bool, script: string)
    ensures Normalised(ScriptText(errexit, xtrace, script)) == ScriptText(errexit, xtrace, script) <==>
            Body(script) != [] || (!errexit && !xtrace)
  {
    var text, front, body := ScriptText(errexit, xtrace, script), Directives(errexit, xtrace), Body(script);
    ScriptLines(errexit, xtrace, script);
    LinesOfNormalised(text);
    if front == [] {
      NormalisedIdempotent(script);
      assert text == Normalised(script);
    } else {
      DirectivesHaveText(errexit, xtrace);
      BodyLines(script);
      EmittedBody(front, body, Lines(text));
      JoinOfLines(text);
      JoinOfLines(Normalised(text));
      if body == [] {
        assert |Lines(Normalised(text))| < |Lines(text)|;
      }
    }
  }

  lemma EmittedBody(front: seq<string>, body: seq<string>, lines: seq<string>)
    requires front != [] && front[0] != [] && front[0][0] == 's'
    requires forall i :: 0 <= i < |front| ==> NonBlank(front[i])
    requires forall i :: 0 <= i < |body| ==> NonBlank(body[i])
    requires lines == front + (if body == [] then [""] else body)
    ensures Undent(Kept(lines)) == front + body
  {
    EmittedKept(front, body);
    FlushFirstLine(front + body);
  }

  lemma EmittedKept(front: seq<string>, body: seq<string>)
    requires forall i :: 0 <= i < |front| ==> NonBlank(front[i])
    requires forall i :: 0 <= i < |body| ==> NonBlank(body[i])
    ensures Kept(front + (if body == [] then [""] else body)) == front + body
  {
    FilterAll(NonBlank, front);
    FilterAll(NonBlank, body);
    FilterNone(NonBlank, [""]);
    FilterConcat(NonBlank, front, if body == [] then [""] else body);
  }

  lemma FlushMargin(lines: seq<string>)
    requires lines != [] && lines[0] != [] && lines[0][0] == 's'
    ensures Margin(lines) == ""
  {
    MarginIsPrefix(lines);
    assert Margin(lines) <= lines[0];
  }

  lemma FlushFirstLine(lines: seq<string>)
    requires lines != [] && lines[0] != [] && lines[0][0] == 's'
    ensures Undent(lines) == lines
  {
    FlushMargin(lines);
  }

  /** A command tells its options and its script text. */
  lemma ShellDictEqual(o: ShellOptions, text: string, o': ShellOptions, text': string)
    ensures ShellDict(o, text) == ShellDict(o', text') <==> o == o' && text == text'
  {
    var d, d' := ShellDict(o, text), ShellDict(o', text');
    if d == d' {
      assert d[|d| - 1] == ("params", Dict(Params(o, text)));
      assert d'[|d'| - 1] == ("params", Dict(Params(o', text')));
      var p := Params(o, text);
      FlagsIn(o, text);
      FlagsIn(o', text');
      assert p[|p| - 1] == ("script", Str(text)) && p[|p| - 1] == ("script", Str(text'));
      if o.workingDir.Some? {
        WorkingDirIn(o, text, o.workingDir.value);
        WorkingDirIn(o', text', o.workingDir.value);
      } else if o'.workingDir.Some? {
        WorkingDirIn(o, text, o'.workingDir.value);
        WorkingDirIn(o', text', o'.workingDir.value);
      }
    }
  }

  lemma FlagsIn(o: ShellOptions, text: string)
    ensures ("silent", Bool(true)) in Params(o, text) <==> o.silent
    ensures ("continue_on_err", Bool(true)) in Params(o, text) <==> o.continueOnErr
    ensures ("background", Bool(true)) in Params(o, text) <==> o.background
  {
    ParamsMember(o, text, ("silent", Bool(true)));
    ParamsMember(o, text, ("continue_on_err", Bool(true)));
    ParamsMember(o, text, ("background", Bool(true)));
  }

  lemma WorkingDirIn(o: ShellOptions, text: string, dir: string)
    ensures ("working_dir", Str(dir)) in Params(o, text) <==> o.workingDir == Some(dir)
  {
    ParamsMember(o, text, ("working_dir", Str(dir)));
  }

  lemma ParamsMember(o: ShellOptions, text: string, e: (string, Value))
    ensures e in Params(o, text) <==>
            || (o.silent && e == ("silent", Bool(true)))
            || (o.workingDir.Some? && e == ("working_dir", Str(o.workingDir.value)))
            || (o.continueOnErr && e == ("continue_on_err", Bool(true)))
            || (o.background && e == ("background", Bool(true)))
            || e == ("shell", Str("bash")) || e == ("script", Str(text))
  {
  }

  /** With the same flags, two scripts are emitted alike exactly when their non-blank lines differ by
      at most a uniform indentation. */
  lemma ScriptTextEqual(errexit: bool, xtrace: bool, s: string, t: string)
    ensures ScriptText(errexit, xtrace, s) == ScriptText(errexit, xtrace, t) <==>
            SameUpToIndent(Kept(Lines(s)), Kept(Lines(t)))
  {
    NormalFormComplete(s, t);
    var x := Prefix(xtrace, XTRACE);
    SamePrefix(x, Normalised(s), Normalised(t));
    SamePrefix(Prefix(errexit, ERREXIT), x + Normalised(s), x + Normalised(t));
  }

  lemma SamePrefix(p: string, a: string, b: string)
    ensures p + a == p + b <==> a == b
  {
    assert (p + a)[|p|..] == a && (p + b)[|p|..] == b;
  }

  // ----- what the text tells about the flags

  lemma DirectivesDiffer()
    ensures ERREXIT != XTRACE && NonBlank(ERREXIT) && NonBlank(XTRACE) && !NonBlank("")
    ensures ERREXIT[0] == 's' && XTRACE[0] == 's'
  {
    assert !IsSpace(ERREXIT[0]) && !IsSpace(XTRACE[0]);
    assert |ERREXIT| != |XTRACE|;
  }

  /** The lines a script contributes to the emitted text. */
  function Emitted(script: string): seq<string> {
    if Body(script) == [] then [""] else Body(script)
  }

  ghost predicate StartsWithDirective(lines: seq<string>) {
    lines != [] && (lines[0] == ERREXIT || lines[0] == XTRACE)
  }

  /** The text tells the flags: no other script with other flags is emitted alike. */
  ghost predicate FlagsDetermined(errexit: bool, xtrace: bool, script: string) {
    forall e, x, t :: ScriptText(errexit, xtrace, script) == ScriptText(e, x, t) ==> errexit == e && xtrace == x
  }

  lemma SameTextSameLines(e: bool, x: bool, s: string, e': bool, x': bool, t: string)
    ensures ScriptText(e, x, s) == ScriptText(e', x', t) <==>
            Directives(e, x) + Emitted(s) == Directives(e', x') + Emitted(t)
  {
    ScriptLines(e, x, s);
    ScriptLines(e', x', t);
    JoinOfLines(ScriptText(e, x, s));
    JoinOfLines(ScriptText(e', x', t));
  }

  lemma LastEmitted(script: string)
    ensures Last(Emitted(script)) == "" <==> Body(script) == []
  {
    BodyLines(script);
    DirectivesDiffer();
    if Body(script) != [] {
      assert NonBlank(Body(script)[|Body(script)| - 1]);
    }
  }

  lemma SameTextBothBlank(e: bool, x: bool, s: string, e': bool, x': bool, t: string)
    requires Directives(e, x) + Emitted(s) == Directives(e', x') + Emitted(t)
    ensures Body(s) == [] <==> Body(t) == []
  {
    LastEmitted(s);
    LastEmitted(t);
    LastOfConcat(Directives(e, x), Emitted(s));
    LastOfConcat(Directives(e', x'), Emitted(t));
  }

  lemma DirectivesTellFlags(e: bool, x: bool, e': bool, x': bool)
    requires Directives(e, x) == Directives(e', x')
    ensures e == e' && x == x'
  {
    DirectivesMembers(e, x);
    DirectivesMembers(e', x');
  }

  lemma DirectivesMembers(e: bool, x: bool)
    ensures (ERREXIT in Directives(e, x) <==> e) && (XTRACE in Directives(e, x) <==> x)
  {
    DirectivesDiffer();
  }

  /** Before lines that do not start with a directive, the directives are where they seem to be. */
  lemma DirectivesSplit(e: bool, x: bool, a: seq<string>, e': bool, x': bool, b: seq<string>)
    requires a != [] && !StartsWithDirective(a) && b != [] && !StartsWithDirective(b)
    requires Directives(e, x) + a == Directives(e', x') + b
    ensures e == e' && x == x' && a == b
  {
    var d, d', lines := Directives(e, x), Directives(e', x'), Directives(e, x) + a;
    assert lines[|d|] == a[0] && lines[|d'|] == b[0];
    assert forall i :: 0 <= i < |d| ==> lines[i] == d[i];
    assert forall i :: 0 <= i < |d'| ==> lines[i] == d'[i];
    assert |d| == |d'|;
    assert d == lines[..|d|] && d' == lines[..|d'|];
    assert a == lines[|d|..] && b == lines[|d'|..];
    DirectivesTellFlags(e, x, e', x');
  }

  /** Scripts that do not start with a directive themselves are emitted alike exactly when the flags
      agree and the non-blank lines differ by at most a uniform indentation. */
  lemma FlagsAndScript(e: bool, x: bool, s: string, e': bool, x': bool, t: string)
    requires !StartsWithDirective(Body(s)) && !StartsWithDirective(Body(t))
    ensures ScriptText(e, x, s) == ScriptText(e', x', t) <==>
            e == e' && x == x' && SameUpToIndent(Kept(Lines(s)), Kept(Lines(t)))
  {
    if ScriptText(e, x, s) == ScriptText(e', x', t) {
      SameTextSameLines(e, x, s, e', x', t);
      EmittedPlain(s);
      EmittedPlain(t);
      DirectivesSplit(e, x, Emitted(s), e', x', Emitted(t));
    }
    ScriptTextEqual(e, x, s, t);
  }

  lemma EmittedPlain(script: string)
    requires !StartsWithDirective(Body(script))
    ensures Emitted(script) != [] && !StartsWithDirective(Emitted(script))
  {
    DirectivesDiffer();
  }

  /** A script with a non-blank line that carries the directives itself is emitted alike without flags. */
  lemma FlagsAbsorbed(errexit: bool, xtrace: bool, script: string)
    requires Body(script) != []
    ensures ScriptText(false, false, ScriptText(errexit, xtrace, script)) == ScriptText(errexit, xtrace, script)
  {
    EmittedIsNormal(errexit, xtrace, script);
  }

  lemma DeterminedWhenBlank(e: bool, x: bool, s: string)
    requires Body(s) == []
    ensures FlagsDetermined(e, x, s)
  {
    forall e', x', t | ScriptText(e, x, s) == ScriptText(e', x', t)
      ensures e == e' && x == x'
    {
      SameTextSameLines(e, x, s, e', x', t);
      SameTextBothBlank(e, x, s, e', x', t);
      assert Init(Directives(e, x) + [""]) == Directives(e, x);
      assert Init(Directives(e', x') + [""]) == Directives(e', x');
      DirectivesTellFlags(e, x, e', x');
    }
  }

  lemma NotDeterminedBehindFlags(e: bool, x: bool, s: string)
    requires Body(s) != [] && (e || x)
    ensures !FlagsDetermined(e, x, s)
  {
    FlagsAbsorbed(e, x, s);
  }

  /** A directive in the script itself, with a body of its own after it, reads like a flag. */
  ghost predicate HidesFlag(body: seq<string>) {
    |body| >= 2 && StartsWithDirective(body) && Margin(body[1..]) == ""
  }

  /** Lines that are a body are the body of their own join. */
  lemma BodyOfJoin(body: seq<string>)
    requires NoNewlines(body) && Margin(body) == ""
    requires forall i :: 0 <= i < |body| ==> NonBlank(body[i])
    ensures Body(Join(body)) == body
  {
    KeptOfJoin(body);
    FilterAll(NonBlank, body);
    assert Undent(body) == body;
  }

  lemma OneDirective(errexit: bool)
    ensures Directives(errexit, !errexit) == [if errexit then ERREXIT else XTRACE]
  {
  }

  lemma SplitFirst(body: seq<string>)
    requires body != []
    ensures body == [body[0]] + body[1..]
  {
  }

  lemma RestOfBody(script: string)
    requires HidesFlag(Body(script))
    ensures Emitted(Join(Body(script)[1..])) == Body(script)[1..]
  {
    BodyLines(script);
    BodyOfJoin(Body(script)[1..]);
  }

  lemma NotDeterminedHidden(s: string)
    requires HidesFlag(Body(s))
    ensures !FlagsDetermined(false, false, s)
  {
    var body := Body(s);
    var e, t := body[0] == ERREXIT, Join(body[1..]);
    RestOfBody(s);
    OneDirective(e);
    SplitFirst(body);
    assert Directives(false, false) + Emitted(s) == body;
    SameTextSameLines(false, false, s, e, !e, t);
    assert ScriptText(false, false, s) == ScriptText(e, !e, t);
  }

  lemma DeterminedPlain(s: string)
    requires Body(s) != [] && !HidesFlag(Body(s))
    ensures FlagsDetermined(false, false, s)
  {
    forall e, x, t | ScriptText(false, false, s) == ScriptText(e, x, t)
      ensures !e && !x
    {
      SameTextSameLines(false, false, s, e, x, t);
      SameTextBothBlank(false, false, s, e, x, t);
      assert [] + Body(s) == Body(s);
      if e || x {
        BodyBehindFlags(Body(s), e, x, t);
      }
    }
  }

  lemma BodyBehindFlags(body: seq<string>, e: bool, x: bool, t: string)
    requires (e || x) && Body(t) != [] && body == Directives(e, x) + Body(t)
    ensures HidesFlag(body)
  {
    UndentHasNoMargin(Kept(Lines(t)));
    DirectivesFirst(e, x);
    TailOfConcat(Directives(e, x), Body(t));
    if e && x {
      FlushMargin(body[1..]);
    } else {
      assert [] + Body(t) == Body(t);
    }
  }

  lemma DirectivesFirst(e: bool, x: bool)
    requires e || x
    ensures Directives(e, x)[0] == if e then ERREXIT else XTRACE
    ensures Directives(e, x)[1..] == if e && x then [XTRACE] else []
    ensures XTRACE[0] == 's'
  {
    DirectivesDiffer();
  }

  /** When the flags can be read off the emitted text: there is only a prefix to read, or there is
      no prefix and the script does not start with a directive of its own. */
  lemma FlagsDeterminedExactly(errexit: bool, xtrace: bool, script: string)
    ensures FlagsDetermined(errexit, xtrace, script) <==>
            Body(script) == [] || (!errexit && !xtrace && !HidesFlag(Body(script)))
  {
    if Body(script) == [] {
      DeterminedWhenBlank(errexit, xtrace, script);
    } else if errexit || xtrace {
      NotDeterminedBehindFlags(errexit, xtrace, script);
    } else if HidesFlag(Body(script)) {
      NotDeterminedHidden(script);
    } else {
      DeterminedPlain(script);
    }
  }
}
