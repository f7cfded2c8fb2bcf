# Verified model of `evergreen_config_generator`

The package builds Evergreen CI configuration from Python objects: tasks, matrices of tasks, shell
commands, and the YAML node tree they become. This project models its four working parts and proves
what they promise, for all inputs.

| file | what it models |
|---|---|
| `MixedRadix.dfy`, `Product.dfy` | `itertools.product` as the loop it is documented to be, and the index arithmetic behind it |
| `Rules.dfy`, `Matrix.dfy` | the rule helpers, `allowed`, and the matrix of a class as attribute assignments |
| `Tasks.dfy` | `Task` and `MatrixTask` as objects on the heap: construction, `depends_on` in its three shapes, printed dictionaries that share them, `matrix()` |
| `Printing.dfy` | `Task.to_dict` and a reader that takes its output apart |
| `Scripts.dfy` | `strip_lines`, and `textwrap.dedent` with its margin loop |
| `Functions.dfy` | `func`, `bootstrap`, `run_tests`, `shell_exec` |
| `Dumper.dfy` | the lowering of values to YAML nodes by `_Dumper` |
| `TaskNodes.dfy` | printing and lowering together: what a task's nodes tell about the task |
| `Seqs.dfy`, `Sorting.dfy`, `Values.dfy` | sequences, `sorted`, Python values and insertion-ordered dictionaries |

How the source is rendered:

- An exception is a `Result` with a `PyError`, or the outcome `Prohibited`. A rule argument is a
  total function of the attributes, and rules raise nothing but `Prohibited`.
- A set inside a value is given by the order in which it happens to iterate (`Value.Set`), and so is a
  task's tag set when it is printed (`order`); the theorems say that this order never shows. Set
  membership is Python's equality, under which `True` is `1`; a ConfigObject is equal to itself only.
- A dictionary is a sequence of pairs with distinct keys. `Put` is item assignment: an existing key
  keeps its place.
- `to_dict` returns slots: a value, or the task's own tag set or dependency list. `View` is what such a
  dictionary shows while the set and the list hold what they hold.
- `MatrixTask` holds its `Task` part as a field and its `__dict__` as a map: each key is still the task's
  field or, after the update, an axis value.
- `textwrap.dedent` and `sorted` are written out from their documentation. `dedent` is the form with
  the running margin; `MarginFromExtremes` shows that the least and the greatest line give the same.

Facts the proofs turned up:

- The reader recovers what `to_dict` prints exactly when no option uses one of the keys `name`, `tags`,
  `depends_on`, `commands` and the dependencies are not one lone empty mapping
  (`PrintedRoundTrip`). What is lost otherwise is stated option by option: the name and the tags are
  hidden under options of their names, the values of `depends_on` and `commands` options give way
  (`NameHidden`, `TagsHidden`, `DependsOptionLost`, `CommandsOptionLost`), and two of them can be
  mistaken for the task's own (`TagsOptionMistaken`, `DependsOptionMistaken`).
- A dictionary that `to_dict` returned before a run of calls follows the task's tags if there were any
  then, and its dependencies if they were a list by then; otherwise it keeps what it showed
  (`PrintThenPerform`). It is up to date exactly when it follows what came, nothing came that shows,
  or options of the same names show instead (`PrintedUpToDate`).
- An axis named `self` makes `matrix()` raise at its first cell, and so does one named `_check_allowed`;
  no other axis name does (`ExpandMatrix`).
- A script of blank lines leaves the `set -o` prefix with a trailing newline, and this is the only way
  a blank line gets into an emitted script (`NoBlankLines`, `EmittedIsNormal`).
- The emitted text tells the `errexit` and `xtrace` flags exactly in two cases: the script has no
  non-blank line, or both flags are off and the script does not start with a directive that has a
  body of its own after it (`FlagsDeterminedExactly`). Among scripts that do not start with a directive
  the text tells the flags and the script (`FlagsAndScript`).

## Model

| member | source | states |
|---|---|---|
| `MixedRadix.DigitsOfRank` | evergreen_config_generator/evergreen_config_generator/tasks.py:148 | every choice of positions is the digits of its rank: no cell is missed |
| `MixedRadix.RankOfDigits` | evergreen_config_generator/evergreen_config_generator/tasks.py:148 | different cell numbers have different positions: no cell comes twice |
| `MixedRadix.OrderIsLexicographic` | evergreen_config_generator/evergreen_config_generator/tasks.py:148 | cells come in lexicographic order of their positions, the last axis fastest |
| `MixedRadix.DigitFormula` | evergreen_config_generator/evergreen_config_generator/tasks.py:148 | the position on axis i is n divided by the number of cells to its right, modulo the length of the axis |
| `Product.Enumerate` | evergreen_config_generator/evergreen_config_generator/tasks.py:148 | the nested loops of the product compute its cells |
| `Product.CellsAreDigits` | evergreen_config_generator/evergreen_config_generator/tasks.py:148 | as many cells as the lengths multiply to, the n-th picked by the mixed-radix digits of n |
| `Product.CellCount` | evergreen_config_generator/evergreen_config_generator/tasks.py:148-149 | a tuple occurs as often as the multiplicities of its values multiply to, and never with another length |
| `Product.EvenShare` | evergreen_config_generator/evergreen_config_generator/tasks.py:148-149 | the cells with value v on axis i are to all cells as v's occurrences are to the axis |
| `Product.EvenShareDistinct` | evergreen_config_generator/evergreen_config_generator/tasks.py:148-149 | with distinct values each is in exactly total / length cells |
| `Product.CellsNest` | evergreen_config_generator/evergreen_config_generator/tasks.py:148-149 | expanding A followed by B is expanding B inside each cell of A |
| `Rules.BothOrNeitherOf` | evergreen_config_generator/evergreen_config_generator/tasks.py:127-131 | raises exactly when the two rules differ, though it is built from require and prohibit |
| `Rules.RulesSay` | evergreen_config_generator/evergreen_config_generator/tasks.py:117-131 | require demands its rule, prohibit its opposite, and both_or_neither is two prohibitions |
| `Rules.CheckAllowed` | evergreen_config_generator/evergreen_config_generator/tasks.py:117-131 | running the rules until one raises completes exactly when all hold, and otherwise stops at the first that does not |
| `Rules.IsAllowed` | evergreen_config_generator/evergreen_config_generator/tasks.py:154-160 | the exception turned into an answer is the conjunction of the rules |
| `Rules.AllowedSameRules` | evergreen_config_generator/evergreen_config_generator/tasks.py:154-160 | rule order and repetition do not matter |
| `Matrix.ZipAt` | evergreen_config_generator/evergreen_config_generator/tasks.py:149 | zipping names with a cell gives a dictionary with those names and those values |
| `Matrix.CombinationsInOrder` | evergreen_config_generator/evergreen_config_generator/tasks.py:148-149 | the n-th assignment takes from each axis the value at n's mixed-radix digit |
| `Matrix.ExpansionInOrder` | evergreen_config_generator/evergreen_config_generator/tasks.py:146-152 | the matrix is the allowed assignments and no others, in counting order |
| `Matrix.ExpansionCount` | evergreen_config_generator/evergreen_config_generator/tasks.py:146-160 | how often each assignment is yielded, prohibited and malformed ones not at all |
| `Matrix.YieldedExactly` | evergreen_config_generator/evergreen_config_generator/tasks.py:146-160 | an assignment is yielded iff it takes each axis value from its axis and no rule prohibits it |
| `Matrix.YieldedOnce` | evergreen_config_generator/evergreen_config_generator/tasks.py:146-152 | no assignment is yielded twice when no axis repeats a value |
| `Matrix.AxisOrderIrrelevant` | evergreen_config_generator/evergreen_config_generator/tasks.py:148-152 | reordering the axes permutes the filtered matrix |
| `Matrix.RuleOrderIrrelevant` | evergreen_config_generator/evergreen_config_generator/tasks.py:146-160 | reordering or repeating rules leaves the matrix as it is, order included |
| `Matrix.RulesFuse` | evergreen_config_generator/evergreen_config_generator/tasks.py:146-160 | the matrix under two rule lists is that under the first filtered by the second |
| `Matrix.CombinationsNest` | evergreen_config_generator/evergreen_config_generator/tasks.py:148-149 | the assignments of A followed by B are those of A each merged with those of B |
| `Matrix.PruneEarly` | evergreen_config_generator/evergreen_config_generator/tasks.py:146-160 | rules that read only the first axes can prune them before the rest is expanded |
| `Matrix.CellRoundTrip` | evergreen_config_generator/evergreen_config_generator/tasks.py:137-150 | passing a cell as keywords restores exactly that cell and leaves no keyword over |
| `Matrix.NoCellsIffEmptyAxis` | evergreen_config_generator/evergreen_config_generator/tasks.py:148 | the unfiltered matrix is empty exactly when some axis is |
| `Matrix.DefaultIsFirstCell` | evergreen_config_generator/evergreen_config_generator/tasks.py:139-141 | construction without keywords is the cell at index 0 |
| `Tasks.Task.Create` | evergreen_config_generator/evergreen_config_generator/tasks.py:30-45 | it raises as `ConstructionError` says, and otherwise leaves the whole state `InitialState`, with a tag set and a list of its own |
| `Tasks.ConstructionRaises` | evergreen_config_generator/evergreen_config_generator/tasks.py:30-45 | spelled out which values of which keywords raise: AssertionError for truthy commands that are no sequence, TypeError for a keyword `self` and for tags that cannot be iterated or hold an unhashable element |
| `Tasks.InitialTags` | evergreen_config_generator/evergreen_config_generator/tasks.py:37-39 | the tags of a new task are those of the list or set given, the characters of a string, the keys of a dictionary |
| `Tasks.InitialRest` | evergreen_config_generator/evergreen_config_generator/tasks.py:32-45 | its one option, its one dependency and its commands, each exactly as given or left out |
| `Values.FalsyExactly` | evergreen_config_generator/evergreen_config_generator/tasks.py:34-42 | what counts as not given: None, False, zero and the four empty values |
| `Values.PyEqualExactly` | evergreen_config_generator/evergreen_config_generator/tasks.py:49-53 | when two elements are the same for a set: truth values are the numbers 0 and 1 |
| `Values.HashableExactly` | evergreen_config_generator/evergreen_config_generator/tasks.py:49-53 | lists, dictionaries and sets cannot be tags, everything else can |
| `Values.AddAllMembers` | evergreen_config_generator/evergreen_config_generator/tasks.py:49-50 | updating a set keeps it a set under Python's equality, keeps its elements, and has an equal of every argument and of nothing else |
| `Tasks.PySet.Update` | evergreen_config_generator/evergreen_config_generator/tasks.py:50 | elements are added one by one up to the first unhashable one, which raises |
| `Tasks.PySet.Meets` | evergreen_config_generator/evergreen_config_generator/tasks.py:53 | some argument is in the set; every argument must be hashable |
| `Tasks.Task.AddTags` | evergreen_config_generator/evergreen_config_generator/tasks.py:49-50 | the tag set grows in place by the arguments before the first unhashable one, TypeError if there is one; on strings it is the union; nothing else changes |
| `Tasks.Task.HasTags` | evergreen_config_generator/evergreen_config_generator/tasks.py:52-53 | true exactly when some argument equals a tag, TypeError exactly when some argument cannot be hashed |
| `Tasks.Task.AddDependency` | evergreen_config_generator/evergreen_config_generator/tasks.py:55-64 | the three shapes represent the dependencies in call order, one that is no mapping under `name`; a list is made once, holds at least two, and is then appended to |
| `Tasks.DependencyShown` | evergreen_config_generator/evergreen_config_generator/tasks.py:55-64 | the one dependency is printed as the mapping given, or else as the `name` of one; an empty mapping is not printed |
| `Tasks.DependOne` | evergreen_config_generator/evergreen_config_generator/tasks.py:55-64 | an `add_dependency` call on one task leaves every other task as it was |
| `Tasks.TagOne` | evergreen_config_generator/evergreen_config_generator/tasks.py:49-50 | so does an `add_tags` call |
| `Tasks.Perform` | evergreen_config_generator/evergreen_config_generator/tasks.py:49-64 | any run of both calls over any tasks is the run of the abstract state machine, keeps sets and lists unshared, and keeps each dependency list the same object |
| `Tasks.AfterCallsPerTask` | evergreen_config_generator/evergreen_config_generator/tasks.py:49-64 | after any run each task has its own calls, in call order, on top of what it had |
| `Tasks.Task.ToDict` | evergreen_config_generator/evergreen_config_generator/tasks.py:86-94 | the stepwise dictionary holds the task's own set and list, and shows the printed form of the abstract state for every iteration order |
| `Tasks.ViewOfSlots` | evergreen_config_generator/evergreen_config_generator/tasks.py:86-94 | what a printed dictionary shows, whatever the shared set and list hold by then |
| `Tasks.Task.PrintedEarlier` | evergreen_config_generator/evergreen_config_generator/tasks.py:86-94 | what a dictionary printed in an earlier state shows now, in terms of the two states |
| `Tasks.PrintThenPerform` | evergreen_config_generator/evergreen_config_generator/tasks.py:49-94 | printing one task and then running any calls over any tasks: what the printed dictionary shows at the end |
| `Tasks.PrintedUpToDate` | evergreen_config_generator/evergreen_config_generator/tasks.py:86-94 | it shows the task as it is now iff tags came only to tags or under an option, and what `depends_on` shows is followed or the same |
| `Printing.PrintedAlike` | evergreen_config_generator/evergreen_config_generator/tasks.py:86-94 | without the tags and with other dependencies a task prints alike iff a leading option hides the tags and `depends_on` shows the same |
| `Tasks.TakeAxes` | evergreen_config_generator/evergreen_config_generator/tasks.py:138-141 | the pop loop raises IndexError exactly when an axis is empty, else collects the attributes and leaves the other keywords |
| `Tasks.MatrixTask.Create` | evergreen_config_generator/evergreen_config_generator/tasks.py:137-144 | the entry of every key of `__dict__` and the task state of a construction, or the exception it raises: for a keyword `self`, an empty axis, or what is left for the task, in this order |
| `Tasks.MatrixTask.Allowed` | evergreen_config_generator/evergreen_config_generator/tasks.py:154-160 | the conjunction of the rules, unless an axis hides `_check_allowed` |
| `Tasks.ExpandMatrix` | evergreen_config_generator/evergreen_config_generator/tasks.py:146-152 | one new object per allowed cell, in order, with the cell as attributes and an untouched task state; it raises iff there is a cell and an axis is named `self` or hides `_check_allowed` |
| `Tasks.CellKeywords` | evergreen_config_generator/evergreen_config_generator/tasks.py:148-150 | the keywords of a cell build it and leave nothing for the task part |
| `Printing.PrintedUnique` | evergreen_config_generator/evergreen_config_generator/tasks.py:86-94 | printed keys are distinct whatever the options |
| `Printing.PrintedLayout` | evergreen_config_generator/evergreen_config_generator/tasks.py:86-94 | name, tags, options, depends_on, commands, in this order, each only when there is something to print |
| `Printing.OptionsApartExactly` | evergreen_config_generator/evergreen_config_generator/tasks.py:86-94 | options are apart from the task's keys when none of the four names is among theirs |
| `Printing.PrintedRoundTrip` | evergreen_config_generator/evergreen_config_generator/tasks.py:86-94 | the reader recovers the whole task iff options avoid the task's keys and the dependencies are not one empty mapping |
| `Printing.PrintedInjective` | evergreen_config_generator/evergreen_config_generator/tasks.py:86-94 | tasks that print the same are the same |
| `Printing.EmptyMappingNotPrinted` | evergreen_config_generator/evergreen_config_generator/tasks.py:91-92 | a lone empty mapping prints like no dependency |
| `Printing.TagsOptionMistaken` | evergreen_config_generator/evergreen_config_generator/tasks.py:88-90 | a first option named tags prints like the tags, whatever options follow |
| `Printing.DependsOptionMistaken` | evergreen_config_generator/evergreen_config_generator/tasks.py:90-92 | a last option named depends_on prints like the dependencies |
| `Printing.NameHidden` | evergreen_config_generator/evergreen_config_generator/tasks.py:87-90 | under an option named name the name does not show |
| `Printing.TagsHidden` | evergreen_config_generator/evergreen_config_generator/tasks.py:88-90 | under an option named tags it does not show which tags there are |
| `Printing.DependsOptionLost` | evergreen_config_generator/evergreen_config_generator/tasks.py:90-92 | the value of an option named depends_on gives way to dependencies |
| `Printing.CommandsOptionLost` | evergreen_config_generator/evergreen_config_generator/tasks.py:90-93 | the value of an option named commands never shows |
| `Scripts.LinesOfJoin` | evergreen_config_generator/evergreen_config_generator/functions.py:75 | splitting undoes joining on every non-empty list of lines |
| `Scripts.LinesOfStripped` | evergreen_config_generator/evergreen_config_generator/functions.py:74-75 | the lines of a stripped script are the non-blank lines in order, or one empty line |
| `Scripts.KeptExactly` | evergreen_config_generator/evergreen_config_generator/functions.py:75 | a line is kept iff it has a character that is not blank |
| `Scripts.IsSpaceExactly` | evergreen_config_generator/evergreen_config_generator/functions.py:75 | the 29 characters that are blank |
| `Scripts.VisibleKept` | evergreen_config_generator/evergreen_config_generator/functions.py:75 | a line with a visible ASCII character is kept |
| `Scripts.BlankDropped` | evergreen_config_generator/evergreen_config_generator/functions.py:75 | a line of ASCII blanks is dropped |
| `Scripts.StripLinesIdempotent` | evergreen_config_generator/evergreen_config_generator/functions.py:74-75 | stripping twice is stripping once, blank scripts included |
| `Seqs.FilterPositions` | evergreen_config_generator/evergreen_config_generator/functions.py:75 | a comprehension with a condition keeps exactly the passing elements, each in its place |
| `Scripts.FindMargin` | evergreen_config_generator/evergreen_config_generator/functions.py:95 | the margin loop computes the common margin of the lines with text |
| `Scripts.MarginGreatest` | evergreen_config_generator/evergreen_config_generator/functions.py:95 | a run of spaces and tabs starts every line iff it starts the margin |
| `Scripts.IsIndentExactly` | evergreen_config_generator/evergreen_config_generator/functions.py:95 | a margin is made of spaces and tabs |
| `Scripts.MarginFromExtremes` | evergreen_config_generator/evergreen_config_generator/functions.py:95 | the least and the greatest line give the same margin |
| `Scripts.Dedent` | evergreen_config_generator/evergreen_config_generator/functions.py:95 | dedenting line by line computes the dedented text |
| `Scripts.DedentedLineByLine` | evergreen_config_generator/evergreen_config_generator/functions.py:95 | lines of spaces and tabs become empty, every other line is the margin and what comes out of it |
| `Scripts.UndentHasNoMargin` | evergreen_config_generator/evergreen_config_generator/functions.py:95 | what is left after removing the margin has none |
| `Scripts.UndentKeepsLines` | evergreen_config_generator/evergreen_config_generator/functions.py:95 | removing the margin blanks no line and makes no new one |
| `Scripts.LinesOfNormalised` | evergreen_config_generator/evergreen_config_generator/functions.py:95 | splitting a normalised script gives its undented non-blank lines back |
| `Scripts.NormalisedIdempotent` | evergreen_config_generator/evergreen_config_generator/functions.py:95 | normalising twice is normalising once |
| `Scripts.NormalFormByBody` | evergreen_config_generator/evergreen_config_generator/functions.py:95 | two scripts normalise alike iff their undented non-blank lines are equal |
| `Scripts.NormalFormComplete` | evergreen_config_generator/evergreen_config_generator/functions.py:95 | two scripts normalise alike iff their non-blank lines differ by at most a uniform indentation |
| `Scripts.BlankLineIrrelevant` | evergreen_config_generator/evergreen_config_generator/functions.py:95 | a whitespace-only line can be inserted anywhere |
| `Scripts.IndentIrrelevant` | evergreen_config_generator/evergreen_config_generator/functions.py:95 | all lines can be indented alike |
| `Functions.Func` | evergreen_config_generator/evergreen_config_generator/functions.py:21-26 | the dictionary of a call, or TypeError for a repeated parameter |
| `Functions.VarsSorted` | evergreen_config_generator/evergreen_config_generator/functions.py:23-24 | the variables are those supplied, sorted by name in code point order with a proper prefix first |
| `Sorting.StrLessIsLexicographic` | evergreen_config_generator/evergreen_config_generator/functions.py:24 | strings compare by the first difference, a proper prefix first |
| `Functions.FuncEntries` | evergreen_config_generator/evergreen_config_generator/functions.py:21-26 | a call has its name under `func`, its sorted variables under `vars` if there are any, and nothing else |
| `Functions.FuncDictEqual` | evergreen_config_generator/evergreen_config_generator/functions.py:21-26 | calls print alike iff they name the same function and the same variables, in any order |
| `Functions.Bootstrap` | evergreen_config_generator/evergreen_config_generator/functions.py:29-38 | which variables a bootstrap passes on |
| `Functions.BootstrapEqual` | evergreen_config_generator/evergreen_config_generator/functions.py:29-38 | bootstraps print alike iff version, given topology and other variables agree; a falsy topology is none |
| `Functions.RunTests` | evergreen_config_generator/evergreen_config_generator/functions.py:41-45 | which variables a test run passes on |
| `Functions.FunctionsCalled` | evergreen_config_generator/evergreen_config_generator/functions.py:29-45 | which function each of the two calls |
| `Functions.DefaultFunctions` | evergreen_config_generator/evergreen_config_generator/functions.py:29-45 | the whole dictionaries of `bootstrap()` and `run_tests()` |
| `Functions.RunTestsEqual` | evergreen_config_generator/evergreen_config_generator/functions.py:41-45 | test runs print alike iff the given URI and the other variables agree |
| `Functions.ShellExec` | evergreen_config_generator/evergreen_config_generator/functions.py:78-115 | the steps build the command with each optional entry present when asked for, in a fixed order, around the script text |
| `Functions.CommandEntries` | evergreen_config_generator/evergreen_config_generator/functions.py:96-115 | the entries of a command in order, `type: test` iff it is a test |
| `Functions.ParamKeys` | evergreen_config_generator/evergreen_config_generator/functions.py:100-114 | the parameters of a command in order |
| `Functions.DefaultShellExec` | evergreen_config_generator/evergreen_config_generator/functions.py:78-115 | the whole dictionary of `shell_exec(script)` |
| `Functions.DirectivesLiterally` | evergreen_config_generator/evergreen_config_generator/functions.py:89-93 | the two directives, errexit first |
| `Functions.BuildText` | evergreen_config_generator/evergreen_config_generator/functions.py:88-95 | the script text is the enabled directives in front of the normalised script |
| `Functions.ScriptLines` | evergreen_config_generator/evergreen_config_generator/functions.py:88-95 | the emitted lines are the directives and then the undented non-blank lines, for every script and flags |
| `Functions.NoBlankLines` | evergreen_config_generator/evergreen_config_generator/functions.py:88-95 | no emitted line is blank iff the script had a non-blank line |
| `Functions.EmittedIsNormal` | evergreen_config_generator/evergreen_config_generator/functions.py:88-95 | an emitted script is already normal iff the script had a non-blank line or no directive was added |
| `Functions.FlagsAbsorbed` | evergreen_config_generator/evergreen_config_generator/functions.py:88-95 | the same text comes, without flags, from a script that carries the directives itself |
| `Functions.FlagsDeterminedExactly` | evergreen_config_generator/evergreen_config_generator/functions.py:88-95 | the text tells the flags iff the script is blank, or the flags are off and the script does not start with a directive and a body |
| `Functions.FlagsAndScript` | evergreen_config_generator/evergreen_config_generator/functions.py:88-95 | among scripts that do not start with a directive, equal text iff equal flags and equal scripts up to blank lines and uniform indentation |
| `Functions.ScriptTextEqual` | evergreen_config_generator/evergreen_config_generator/functions.py:88-95 | under the same flags scripts are emitted alike iff they differ by blank lines and uniform indentation |
| `Functions.FlagsIn` | evergreen_config_generator/evergreen_config_generator/functions.py:101-111 | each flag is among the parameters, as True, iff it was passed |
| `Functions.WorkingDirIn` | evergreen_config_generator/evergreen_config_generator/functions.py:104-105 | a working directory is among the parameters iff it was passed, an empty one too |
| `Functions.ShellDictEqual` | evergreen_config_generator/evergreen_config_generator/functions.py:96-115 | commands are equal iff all their options and their text are |
| `Sorting.SortedCanonical` | evergreen_config_generator/evergreen_config_generator/__init__.py:68-69 | sorting forgets the order elements came in and nothing else |
| `Dumper.LowerOk` | evergreen_config_generator/evergreen_config_generator/__init__.py:68-72 | lowering fails, with TypeError, iff some set inside mixes kinds of elements |
| `Dumper.LowerOkCompares` | evergreen_config_generator/evergreen_config_generator/__init__.py:68-72 | which is: iff some set inside has two elements that do not compare |
| `Dumper.SortableExactly` | evergreen_config_generator/evergreen_config_generator/__init__.py:68-69 | a set can be sorted iff any two of its elements compare |
| `Dumper.ValueLessExactly` | evergreen_config_generator/evergreen_config_generator/__init__.py:68-69 | strings compare in code point order, numbers by size with truth values as 0 and 1, nothing else compares |
| `Dumper.LowerSet` | evergreen_config_generator/evergreen_config_generator/__init__.py:68-69 | a set is lowered as its elements in strictly increasing order, iff they compare |
| `Dumper.LowerStrings` | evergreen_config_generator/evergreen_config_generator/__init__.py:68-69 | a set of strings is always lowered, to the nodes of its sorted strings |
| `Dumper.StringsInOrder` | evergreen_config_generator/evergreen_config_generator/__init__.py:68-69 | these are the strings of the set, in code point order with a proper prefix first |
| `Dumper.LowerScalars` | evergreen_config_generator/evergreen_config_generator/__init__.py:63-66 | the node of every scalar |
| `Dumper.DecimalText` | evergreen_config_generator/evergreen_config_generator/__init__.py:63-66 | integers are written in decimal, without leading zeros |
| `Dumper.LowerStyled` | evergreen_config_generator/evergreen_config_generator/__init__.py:63-66 | at every depth exactly the scalars with a newline are in block style, and only strings have one |
| `Dumper.OrderIrrelevant` | evergreen_config_generator/evergreen_config_generator/__init__.py:63-72 | values that differ in the iteration order of sets, at any depth, give the same nodes, or the same error |
| `Dumper.ReadBack` | evergreen_config_generator/evergreen_config_generator/__init__.py:63-72 | reading the nodes back gives the value with sets as sorted lists and objects as their dictionaries |
| `Dumper.CanonLowersAlike` | evergreen_config_generator/evergreen_config_generator/__init__.py:63-72 | the canonical form holds no set and no object and has the same nodes |
| `Dumper.LowerEqual` | evergreen_config_generator/evergreen_config_generator/__init__.py:63-72 | nodes are equal iff canonical forms are |
| `TaskNodes.SetOrderIrrelevant` | evergreen_config_generator/evergreen_config_generator/__init__.py:68-72 | a task's nodes do not depend on the iteration order of its tags or of any set inside what it holds |
| `TaskNodes.TagOrderIrrelevant` | evergreen_config_generator/evergreen_config_generator/__init__.py:68-72 | in particular not on the order of its tags |
| `TaskNodes.TagsFromNodes` | evergreen_config_generator/evergreen_config_generator/__init__.py:68-69 | tags that are scalars are told by their canonical form |
| `TaskNodes.TaskNodeEqual` | evergreen_config_generator/evergreen_config_generator/tasks.py:86-94 | two tasks have equal nodes iff name and canonical tags, options, dependencies and commands agree |

## Left out

- `generate`, `yaml_dump`: file writing and the text that PyYAML emits; the model stops at the node tree. PyYAML and yamlordereddictloader are not part of this model, nor are aliases for shared objects and the key sorting of plain dictionaries: every dictionary is an ordered one with string keys.
- `Variant`, `Function`, `NamedTask`, `FuncTask`, `s3_put`, `targz_pack`, `display`, `on_off`: they fill records with what they are given, or choose one of two strings by an attribute; no property beyond their bodies.
- Tasks.Task.Create: tuples, as commands or as tags, are not modelled.
- Tasks.MatrixTask.Create: a subclass with its own constructor is not modelled; nor is what the methods of `Task` do with a field that an axis of its name has overwritten.
- Tasks.ExpandMatrix: collects the tasks, while the source yields them one at a time.
- Tasks.Task.ToDict: values given by the caller, such as the commands list and the dependency mappings, are values; a caller that changes one later is not modelled.
- Functions.ShellExec: builds the nested `params` dictionary before putting it into the command; the source puts it in first and fills it there.
- Floating-point numbers, and subclasses of `set` and `str`, in lowered values.
