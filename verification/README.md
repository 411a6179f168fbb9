# qmake's evaluator, graph walks and text machines, and the UI event loop

A Dafny model of the parts of this repository whose behaviour is hard to see from one function, with
proofs of what they do on all inputs and over all runs. `dafny verify dfyconfig.toml` checks it.

* **Evaluator.** `QmakeProgram` holds the abstract syntax of project files and the encoder to the flat
  token stream; `QmakeValues` the string lists and the stack of variable maps; `QmakeSemantics` a
  structural big-step semantics; `QmakeStream` what a pointer finds in an encoded stream;
  `QmakeEvaluator` the interpreter as a class whose methods advance a token pointer, each proved to give
  what the structural semantics gives. `QmakeWords` says what is in the words of an expression,
  `QmakeUpdates` what lookups find behind an assignment, `QmakeCalls` what a function finds in its frame,
  `QmakeLoops` how often and with what a loop runs its body.
  `QmakeScoping` proves what every run leaves of the caller's variables, `QmakeTermination` that programs
  without bypass blocks end and that skipping and evaluating end at the same line, and `QmakeGuards` that
  the three flags behind `:`, `|`, `!` and `else` mean guarded statements, and what value every call has.
  Where a run need not end, a ghost amount of fuel bounds the bypass blocks; it drops out of every
  statement about programs without them. The state carries a history that nothing reads: how many calls
  have ended, and the names that were exported.
* **Graphs.** `DependencySort` is the priority topological sort behind `sort_depends` and
  `resolve_depends`; `SourceDeps` the recursive include scan and the closure over cyclic include graphs,
  on file objects that are updated in place.
* **Event loop.** `EventLoop` is the Go event loop as a state machine over the atomic steps of any number
  of posters, runners and stops.
* **Quoting.** `ShellQuoting` holds both quoters and what a POSIX shell, cmd.exe and the argv rules of the
  Microsoft C runtime make of their output.
* **Text machines.** `LineSplicing` is the in-place reading of include directives over spliced lines,
  `IncludeLines` their grammar, `Substitutes` the `!!IF` machine, `XmlWriter` the XML writer.
* **Lists and paths.** `CompilerChain` is the reordering of extra compilers, `ShadowBuild` the roots of a
  shadow build. `Basics` holds what several modules share.

Where the code does not do what its comments or names promise, the model follows the code: a passed-over
`return` still sets the return value, also of functions called later (`SkippedReturnReturns`,
`PassedOverLeaks`), `export` can publish a caller's positional parameter (`ExportedValue`), an item
that names its last dependency twice is sorted twice (`TakenOnceIff`), a late file type leaves a dependency
unscanned (`AddSourceFileClosed`), the guard against endless moves of extra compilers also stops
reorderings that would end (`CountStopsTooEarly`), a restart of the event loop can let tasks overtake each
other (`OvertakesIff`), text that looks like a character reference is not escaped (`ConversionInverts`),
and directories given with and without a slash at the end are not mirrored (`MirrorsIff`).

## Model

| member | source | states |
|---|---|---|
| QmakeEvaluator.Evaluator.constructor | qmake/library/qmakeevaluator.cpp:181-207 | a fresh evaluator has one empty frame of variables and no functions |
| QmakeEvaluator.Evaluator.GetBlockLen | qmake/library/qmakeevaluator.cpp:228-233 | gives the length of the code that the encoder wrote behind its length, for every code whose length the format can hold, and ends where that code starts |
| QmakeEvaluator.Evaluator.GetStr | qmake/library/proitems.cpp:444-451 | reads the string that the encoder wrote behind its length, and ends behind it |
| QmakeEvaluator.Evaluator.GetHashStr | qmake/library/proitems.cpp:453-461 | reads the name that the encoder wrote behind its hash and length, and ends behind it |
| QmakeEvaluator.Evaluator.SkipStr | qmake/library/qmakeevaluator.cpp:235-239 | ends where reading the string would end |
| QmakeEvaluator.Evaluator.SkipHashStr | qmake/library/qmakeevaluator.cpp:241-246 | ends where reading the name would end |
| QmakeEvaluator.Evaluator.SkipPayload | qmake/library/qmakeevaluator.cpp:466-486 | over any operand, ends behind its payload, and at the line that the line marks in a nested call lead to |
| QmakeEvaluator.Evaluator.SkipExpression | qmake/library/qmakeevaluator.cpp:450-488 | on every encoded argument list, with arbitrarily nested calls, ends behind the terminator and at the line where its last line mark leaves off, evaluating nothing |
| QmakeEvaluator.Evaluator.EvaluateExpression | qmake/library/qmakeevaluator.cpp:387-448 | on the tokens of every expression gives the code, words and state of the structural semantics, and stops at the first token that is not part of it |
| QmakeEvaluator.Evaluator.EvaluateToken | qmake/library/qmakeevaluator.cpp:396-446 | one operand: new-string and quoting flags, line marks and nested calls as in the structural semantics |
| QmakeEvaluator.Evaluator.AddOperand | qmake/library/qmakeevaluator.cpp:406-433 | literals, variables, properties and environment variables are added to the pending word or list as the structural semantics adds them |
| QmakeEvaluator.Evaluator.ExpandVariableReferences | qmake/library/qmakeevaluator.cpp:1648-1671 | joins or lists the values of all arguments as the structural semantics does, and ends behind the terminator |
| QmakeEvaluator.Evaluator.PrepareFunctionArgs | qmake/library/qmakeevaluator.cpp:1673-1689 | one list per argument, none for an empty argument list, evaluated left to right |
| QmakeEvaluator.Evaluator.PrepareArgList | qmake/library/qmakeevaluator.cpp:1676-1686 | the loop over at least one argument |
| QmakeEvaluator.Evaluator.EvaluateExpandFunction | qmake/library/qmakeevaluator.cpp:1778-1803 | builtin, user-defined and unknown replace functions give the code, words and state of the structural semantics and leave the pointer behind the argument list |
| QmakeEvaluator.Evaluator.EvaluateConditionalFunction | qmake/library/qmakeevaluator.cpp:1751-1776 | the same for test functions |
| QmakeEvaluator.Evaluator.FrameOf | qmake/library/qmakeevaluator.cpp:1701-1709 | the frame of a function: its arguments by number, all of them in one list, and how many there are |
| QmakeEvaluator.Evaluator.EvaluateFunction | qmake/library/qmakeevaluator.cpp:1691-1721 | a call beyond the depth limit fails and changes nothing; otherwise the body runs in a new frame with its numbered arguments, ARGS and ARGC, a return ends it, and frame, location and return value are put back |
| QmakeEvaluator.Evaluator.EvaluateBoolFunction | qmake/library/qmakeevaluator.cpp:1723-1749 | the returned list as a truth value: empty, true, and non-zero numbers hold |
| QmakeEvaluator.Evaluator.FindValues | qmake/library/qmakeevaluator.cpp:1846-1864 | finds the innermost frame whose entry is visible; a tombstone hides the name, and positional parameters are looked for in the top frame only |
| QmakeEvaluator.Evaluator.LookUp | qmake/library/qmakeevaluator.cpp:1892-1909 | the value of the innermost visible entry, or the empty list |
| QmakeEvaluator.Evaluator.ValuesRef | qmake/library/qmakeevaluator.cpp:1866-1890 | the top frame gets its own entry with the value that a lookup gave, and nothing else changes |
| QmakeEvaluator.Evaluator.ExportVariable | qmake/library/qmakebuiltins.cpp:1444-1463 | the value of the innermost entry above the bottom frame moves to the bottom frame and is removed from the frames in between |
| QmakeEvaluator.Evaluator.EvaluateBuiltinConditional | qmake/library/qmakebuiltins.cpp:1444-1701 | export, clear and unset change the frames as specified; any other builtin changes nothing |
| QmakeEvaluator.Evaluator.IsActive | qmake/library/qmakeevaluator.cpp:1610-1646 | the magic names, the spec name and the members of CONFIG hold |
| QmakeEvaluator.Evaluator.VisitProVariable | qmake/library/qmakeevaluator.cpp:836-941 | the five assignment operators store what the structural semantics stores; a bad left-hand side skips the value |
| QmakeEvaluator.Evaluator.VisitProFunctionDef | qmake/library/qmakeevaluator.cpp:716-724 | the function table gets the position of the body, for which the encoded body stands |
| QmakeEvaluator.Evaluator.VisitOptionalBlock | qmake/library/qmakeevaluator.cpp:541-552 | an empty block is not entered and holds |
| QmakeEvaluator.Evaluator.VisitBranch | qmake/library/qmakeevaluator.cpp:522-556 | exactly one of the two blocks runs, and the pointer ends behind both |
| QmakeEvaluator.Evaluator.VisitBypass | qmake/library/qmakeevaluator.cpp:576-595 | the block runs on the bottom frame alone, and the other frames are put back on top of it |
| QmakeEvaluator.Evaluator.VisitFor | qmake/library/qmakeevaluator.cpp:557-575 | a loop that is not selected is skipped; the pointer ends behind the body either way |
| QmakeEvaluator.Evaluator.VisitProLoop | qmake/library/qmakeevaluator.cpp:726-834 | what is iterated over, and that the loop variable gets its old value back |
| QmakeEvaluator.Evaluator.CountingRange | qmake/library/qmakeevaluator.cpp:757-784 | a range a..b is every number from a to b in either direction, anything else is nothing |
| QmakeEvaluator.CountUp | qmake/library/qmakeevaluator.cpp:774-776 | the numbers from start up to end |
| QmakeEvaluator.CountDown | qmake/library/qmakeevaluator.cpp:777-779 | the numbers from start down to end |
| QmakeEvaluator.Evaluator.NextValue | qmake/library/qmakeevaluator.cpp:802-807 | the next value that is not empty |
| QmakeEvaluator.Evaluator.StartTurn | qmake/library/qmakeevaluator.cpp:792-810 | a turn sets the loop variable; forever loops are left after the limit |
| QmakeEvaluator.Evaluator.RunLoop | qmake/library/qmakeevaluator.cpp:792-829 | the loop over the encoded body gives the code and state of the structural iteration |
| QmakeEvaluator.Evaluator.VisitProBlock | qmake/library/qmakeevaluator.cpp:498-713 | for every list of items in the token format, the walk over the flat stream gives the return code and the state of the structural big-step semantics, and the location stack is as before |
| QmakeEvaluator.Evaluator.VisitItem | qmake/library/qmakeevaluator.cpp:506-709 | one item: same registers and state as the structural semantics, and the pointer lands behind the item |
| QmakeEvaluator.Evaluator.VisitConsumer | qmake/library/qmakeevaluator.cpp:512-521 | assignments, conditions, test calls, return, break and next consume the pending words and set the three flags as the structural semantics does |
| QmakeEvaluator.Evaluator.VisitNested | qmake/library/qmakeevaluator.cpp:522-611 | branches, loops, bypass blocks and definitions start afresh behind the item |
| QmakeScoping.SetTopLookup | qmake/library/qmakeevaluator.cpp:895 | storing in the top frame changes the lookup of that name only |
| QmakeScoping.ValuesRefInvisible | qmake/library/qmakeevaluator.cpp:1866-1890 | valuesRef() changes no lookup, and afterwards the visible entry is the top frame's own |
| QmakeScoping.ExportMoves | qmake/library/qmakebuiltins.cpp:1444-1463 | a name held above the bottom frame is left in the bottom frame only, and no other name is affected |
| QmakeScoping.ExportedValue | qmake/library/qmakebuiltins.cpp:1450-1455 | the exported value is the one that a lookup gave before, iff the name is not a positional parameter, or the top frame has it, or the entry taken holds nothing |
| QmakeScoping.ExportedVisible | qmake/library/qmakebuiltins.cpp:1444-1463 | a lookup of an exported variable gives what it gave before |
| QmakeScoping.ExportNothing | qmake/library/qmakebuiltins.cpp:1446-1461 | a name that only the bottom frame may hold is left as it is |
| QmakeScoping.ExportParameterOfCaller | qmake/library/qmakebuiltins.cpp:1446-1456 | the instance where export() publishes a caller's parameter that lookups do not see |
| QmakeScoping.UnsetLookup | qmake/library/qmakebuiltins.cpp:1688-1701 | afterwards the name has no value and every other name keeps its own |
| QmakeScoping.BodyRun | qmake/library/qmakeevaluator.cpp:1700-1718 | over a call without bypass blocks every name keeps its entries in all frames of the caller, unless the call led to an export() of that name; then the bottom frame has it, and the frames above may have lost it. With bypass blocks this holds for the frames above the bottom |
| QmakeScoping.CallerUnchanged | qmake/library/qmakeevaluator.cpp:1700-1718 | such a call that exports nothing leaves all frames of the caller as they are |
| QmakeScoping.ItemsRun | qmake/library/qmakeevaluator.cpp:498-713 | over every run: as many frames as before, no tombstone in the bottom frame, and for the frames below the top what holds of the caller's frames over a call: no entry changes but by an export() of its name |
| QmakeScoping.ItemRun | qmake/library/qmakeevaluator.cpp:506-709 | the same for every item |
| QmakeScoping.BypassRun | qmake/library/qmakeevaluator.cpp:576-595 | the same for bypass blocks, which besides leave every frame above the bottom as it is |
| QmakeScoping.IterateRun | qmake/library/qmakeevaluator.cpp:792-829 | the same for every number of turns of a loop |
| QmakeScoping.TestRun | qmake/library/qmakeevaluator.cpp:1751-1776 | the same for test calls |
| QmakeScoping.ExpandRun | qmake/library/qmakeevaluator.cpp:1778-1803 | the same for replace calls |
| QmakeTermination.Terminates | qmake/library/qmakeevaluator.cpp:498-834 | every program without bypass blocks, in a state whose functions have none, ends; no fuel is used |
| QmakeTermination.BypassRecursionDiverges | qmake/library/qmakeevaluator.cpp:576-595 | a function of any name that starts with a bypass block that calls it uses up any fuel, whatever follows, as the block resets the depth |
| QmakeTermination.ItemsFuel | qmake/library/qmakeevaluator.cpp:498-713 | more fuel does not change the result of a run that ended, so the fuel stands for time only |
| QmakeTermination.ExprLine | qmake/library/qmakeevaluator.cpp:387-448 | evaluation without error ends at the line at which skipping the expression ends |
| QmakeTermination.ExpandLine | qmake/library/qmakeevaluator.cpp:1778-1803 | for builtin, user-defined and unknown replace functions with any nested arguments, a call without error ends at the line at which skipping it ends |
| QmakeTermination.TestLine | qmake/library/qmakeevaluator.cpp:1751-1776 | the same for test functions |
| QmakeGuards.OperandRefines | qmake/library/qmakeevaluator.cpp:612-678 | one operand is evaluated iff the flags differ, and negated as often as there are negations |
| QmakeGuards.LinksRefine | qmake/library/qmakeevaluator.cpp:616-678 | each operand behind a connective is evaluated iff the truth so far does not decide it |
| QmakeGuards.GuardRefines | qmake/library/qmakeevaluator.cpp:612-678 | the flags okey, or_op and invert compute the left-associative fold of the chain, evaluating exactly the operands that short-circuiting requires, whatever the status of the statement before |
| QmakeGuards.StmtsRefine | qmake/library/qmakeevaluator.cpp:498-713 | structured statements with guards and else branches, compiled to items, mean what they say |
| QmakeGuards.ForRefines | qmake/library/qmakeevaluator.cpp:726-834 | so do loops |
| QmakeGuards.TurnsRefine | qmake/library/qmakeevaluator.cpp:792-829 | and every number of turns of them |
| QmakeGuards.OutsideRefines | qmake/library/qmakeevaluator.cpp:576-595 | and bypass blocks |
| QmakeGuards.StmtsFit | qmake/library/proitems.h:332-403 | compiled statements have what the token format asks for |
| QmakeGuards.ReturnValue | qmake/library/qmakeevaluator.cpp:1710-1715 | the value of every call: a return that is taken gives exactly its words; otherwise, unless the function fails, it is what the last return left that was passed over with no user call ending behind it, or, if there is none and no user call ended, what was left over at the call, or nothing; no return is passed over if none stands behind a chain of tests |
| QmakeGuards.StmtsStore | qmake/library/qmakeevaluator.cpp:679-696 | the same for statements, along the run of their blocks and loops |
| QmakeGuards.EmptyReturnsLeftOver | qmake/library/qmakeevaluator.cpp:1710-1715 | the instance: an empty function returns what its caller passed over, so its value is empty iff nothing was left over |
| QmakeGuards.PassedOverLeaks | qmake/library/qmakeevaluator.cpp:679-696 | whatever the guard, the words of a return that is passed over are what an empty function called next returns |
| QmakeGuards.PassedReturnReturns | qmake/library/qmakeevaluator.cpp:679-696 | whatever the guard: if a return is passed over, and a test that calls no user function succeeds behind it, the function returns the words of that return |
| QmakeGuards.SkippedReturnReturns | qmake/library/qmakeevaluator.cpp:679-696 | the instance of it with constant tests |
| QmakeWords.ExprWords | qmake/library/qmakeevaluator.cpp:387-448 | an expression adds the words of its operands, in the order of evaluation, to the words before it |
| QmakeWords.WordsText | qmake/library/qmakeevaluator.cpp:339-385 | those words hold the characters of all operands in order and no others; a quoted list is its elements with a blank between each two |
| QmakeWords.WordsBorders | qmake/library/qmakeevaluator.cpp:339-385 | an operand behind a pending word and without the new-string flag goes on with that word and opens one for each further element; any other operand leaves all words as they are and opens one for each of its elements, but for an empty first one |
| QmakeWords.ExprText | qmake/library/qmakeevaluator.cpp:387-448 | a joined expression adds one word, the text of its operands |
| QmakeWords.VarRefsTexts | qmake/library/qmakeevaluator.cpp:1648-1671 | joined arguments make one word each |
| QmakeWords.TextChars | qmake/library/proitems.cpp:188-238 | that text holds the characters of all operands in order, and besides them only blanks |
| QmakeWords.TextIsWords | qmake/library/proitems.cpp:188-238 | if nothing is empty, that text is the words that the operands would make with a blank between each two |
| QmakeWords.VarRefsWords | qmake/library/qmakeevaluator.cpp:1648-1671 | arguments that are not joined make one list of all their words |
| QmakeWords.CallArgsLists | qmake/library/qmakeevaluator.cpp:1673-1689 | a user function gets the words of each argument as a list of its own, and none for an empty argument list |
| QmakeUpdates.AssignmentAssigns | qmake/library/qmakeevaluator.cpp:836-941 | an assignment to one name stores what the operator says of the evaluated words, and changes no other variable; with any other left-hand side it changes none |
| QmakeUpdates.StoreAssigns | qmake/library/qmakeevaluator.cpp:856-910 | a lookup afterwards gives: for = the non-empty words; for += the old list and behind it the non-empty words; for *= the old list and behind it each non-empty word that is new, once, in the order of the words; for -= the old elements that are empty or not among the words; for ~= the substitution if the word is a substitution, otherwise the old list |
| QmakeUpdates.SubstitutionFields | qmake/library/qmakeevaluator.cpp:856-865 | a substitution has at least four characters, starts with an s, and is cut by its second character into three or four fields |
| QmakeCalls.ArgumentsFound | qmake/library/qmakeevaluator.cpp:1701-1709 | in a call, the i-th argument is found under i, all of them in one list under ARGS, how many there are under ARGC, nothing under any other number, and under any other name what the caller finds |
| QmakeCalls.NumberReadsBack | qmake/library/qmakeevaluator.cpp:1706 | numbers are written in decimal digits without leading zeros |
| QmakeCalls.TestSucceeds | qmake/library/qmakeevaluator.cpp:1728-1746 | a test function succeeds iff it returns nothing, true, or a number other than zero |
| QmakeCalls.ConditionHolds | qmake/library/qmakeevaluator.cpp:1610-1646 | a condition holds iff it is true, or host_build on a host build, or names or matches the spec or a member of CONFIG |
| QmakeCalls.RangeLists | qmake/library/qmakeevaluator.cpp:757-784 | what the first two dots split into two numbers stands for every number from the one to the other, in order; nothing else is a range |
| QmakeCalls.ParameterNames | qmake/library/qmakeevaluator.cpp:1834-1844 | positional parameters are the names that hold nothing but digits |
| QmakeCalls.CallsNest | qmake/library/qmakeevaluator.cpp:1751-1803 | a call of a user function fails without running anything at a hundred frames and runs the body below; a call of an unknown function fails and only skips its arguments |
| QmakeCalls.VariableTests | qmake/library/qmakebuiltins.cpp:1444-1701 | export, clear and unset fail without one non-empty name; clear and unset also fail if a lookup finds nothing, and change that name only: behind clear it is there without value, behind unset it is not there; other tests change nothing |
| QmakeLoops.LoopRuns | qmake/library/qmakeevaluator.cpp:726-834 | a loop runs its body once for each non-empty element of the named variable, in order, or, if that has none, for each number of a range, or for forever for the numbers below a thousand; next ends a turn, break the loop, and any other code but truth values leaves it with that code; behind it a lookup of the loop variable gives what it gave before |
| DependencySort.DependencySorter.Explore | qmake/library/qmakebuiltins.cpp:534-556 | visits exactly what the list reaches, on cyclic graphs too; the tables are the dependencies and their inverse, and the queue holds the leaves |
| DependencySort.DependencySorter.AddItem | qmake/library/qmakebuiltins.cpp:541-552 | the entry of one item in the tables |
| DependencySort.DependencySorter.PopulateDeps | qmake/library/qmakebuiltins.cpp:540-555 | the recursion over the dependencies |
| DependencySort.DependencySorter.LinkAll | qmake/library/qmakebuiltins.cpp:549-552 | every dependency gets the item as a dependee, as often as it is named |
| DependencySort.DependencySorter.Enqueue | qmake/library/qmakebuiltins.cpp:1110 | the entry goes behind all entries of lower priority and in front of all others, and the others keep their places |
| DependencySort.DependencySorter.Release | qmake/library/qmakebuiltins.cpp:1106-1111 | an item leaves the dependency sets of its dependees, and those left without any are queued |
| DependencySort.DependencySorter.Order | qmake/library/qmakebuiltins.cpp:1088-1114 | terminates on every graph; every item taken had all dependencies taken before and the least priority of all such items, none is left that could be taken, of equal priorities the one that became ready last is taken (leaves became ready in the order in which a depth-first search meets them, others when their last dependency was taken, in the order in which that search met them), every item is taken once iff each names its last dependency once, and the result is the order of taking, reversed, of all items or of those in the list |
| DependencySort.LeavesReturned | qmake/library/qmakebuiltins.cpp:1088-1114 | distinct items of one priority without dependencies are returned in the order in which they were given |
| DependencySort.VisitedParts | qmake/library/qmakebuiltins.cpp:540-555 | the search goes through every list in its order and meets an item before its dependencies |
| DependencyOrder.PriorityZero | qmake/library/qmakebuiltins.cpp:547 | an item without a priority counts as one of priority zero |
| DependencyOrder.ResolvableIffNoCycle | qmake/library/qmakebuiltins.cpp:1088-1114 | an item can be taken by stages iff no cycle can be reached from it |
| DependencyOrder.TakenAreResolvable | qmake/library/qmakebuiltins.cpp:1088-1114 | taken are exactly the items that the list reaches and from which no cycle is reached |
| DependencyOrder.BeforeDependencies | qmake/library/qmakebuiltins.cpp:1105 | in the result every item stands before all its dependencies |
| DependencyOrder.SortIsRestriction | qmake/library/qmakebuiltins.cpp:1104-1105 | sort_depends gives the result of resolve_depends restricted to the list |
| DependencyOrder.ReturnedDistinct | qmake/library/qmakebuiltins.cpp:1105 | items taken once are returned once |
| DependencySort.TakenOnceIff | qmake/library/qmakebuiltins.cpp:1100-1112 | every item is taken once iff each taken item names the one of its dependencies that was taken last once |
| DependencySort.TakenOnce | qmake/library/qmakebuiltins.cpp:1100-1112 | in particular if no item that can be resolved names a dependency twice |
| DependencySort.RepeatTakenOnce | qmake/library/qmakebuiltins.cpp:1100-1112 | an instance where an item names a dependency twice and is taken once |
| DependencySort.TakenAsNamed | qmake/library/qmakebuiltins.cpp:1100-1112 | an item whose last dependency is taken once is taken as often as it names that one |
| DependencySort.RepeatedDependency | qmake/library/qmakebuiltins.cpp:549-552 | an item that names its only dependency n times is taken n times as often as that |
| DependencySort.TakenTwice | qmake/library/qmakebuiltins.cpp:549-552 | the instance of it |
| SourceDeps.SourceFileInfo.constructor | qmake/generators/makefiledeps.cpp:218-232 | empty tables |
| SourceDeps.SourceFileInfo.FindInclude | qmake/generators/makefiledeps.cpp:794-845 | finds the file of a directive in the table of includes or by a lookup, entering new files in both tables |
| SourceDeps.SourceFileInfo.Count | qmake/generators/makefiledeps.cpp:847 | one more inclusion, modulo 256 |
| SourceDeps.SourceFileInfo.AddChild | qmake/generators/makefiledeps.cpp:65-71 | one more child behind the others |
| SourceDeps.SourceFileInfo.RecordInclude | qmake/generators/makefiledeps.cpp:846-852 | inclusions of another file are counted, and recorded if that file exists |
| SourceDeps.SourceFileInfo.ScanIncludes | qmake/generators/makefiledeps.cpp:533-855 | the directives of a file, one after the other |
| SourceDeps.SourceFileInfo.ScanOne | qmake/generators/makefiledeps.cpp:498-522 | a file is marked before it is opened; one that cannot be opened gets no list of children |
| SourceDeps.SourceFileInfo.FindDeps | qmake/generators/makefiledeps.cpp:498-861 | the recursion over file objects gives the tables, counts and lists of the functional form, with or without recursive mode |
| SourceDeps.SourceFileInfo.FindAllDeps | qmake/generators/makefiledeps.cpp:856-861 | children that have no list yet are scanned in turn |
| SourceDeps.SourceFileInfo.AddSourceFile | qmake/generators/makefiledeps.cpp:251-275 | a request enters the file, sets its type and searches it |
| SourceDeps.SourceFileInfo.Included | qmake/generators/makefiledeps.cpp:199-208 | the count of a file in the table, otherwise zero |
| SourceDeps.SourceFileInfo.DependTreeWalker | qmake/generators/makefiledeps.cpp:151-161 | marks in place exactly what the functional walk marks, in the same order |
| SourceDeps.SourceFileInfo.Dependencies | qmake/generators/makefiledeps.cpp:174-197 | returns the closure and leaves every object as it was, so all marks are taken back |
| SourceDeps.SourceFileInfo.Reset | qmake/generators/makefiledeps.cpp:189-193 | takes back the marks and lists the names |
| SourceDepsGraph.DependenciesAreReached | qmake/generators/makefiledeps.cpp:151-197 | on every graph the closure is exactly the files reached from the direct dependencies over existing files, each once |
| SourceDepsGraph.WalkSweeps | qmake/generators/makefiledeps.cpp:151-161 | nothing is marked twice, and every existing child of a marked file is marked |
| SourceDepsGraph.FindDepsClosed | qmake/generators/makefiledeps.cpp:498-861 | whatever is still being scanned, the search leaves no dependency of any other file unscanned |
| SourceDepsGraph.ReachableChecked | qmake/generators/makefiledeps.cpp:498-861 | after a recursive search every file of a known type that recorded dependencies lead to is checked |
| SourceDepsGraph.IncludedScanned | qmake/generators/makefiledeps.cpp:498-861 | every file that a search enters can be scanned: after a recursive search each readable file that was not in the table before, and that recorded dependencies lead to, has been scanned |
| SourceDepsGraph.RequestedScanned | qmake/generators/makefiledeps.cpp:251-275 | after a request with a search the requested file has been scanned if it is readable and of a known type |
| SourceDepsGraph.AddSourceFileClosed | qmake/generators/makefiledeps.cpp:251-275 | a request keeps that so iff it does not give a type, without a search, to a file of unknown type that is a dependency already |
| SourceDepsGraph.FindDepsFaithful | qmake/generators/makefiledeps.cpp:498-861 | the search keeps that no file is scanned twice and every count is the number of directives that hit the file modulo 256; if lookups agree on what exists, the recorded dependencies are the existing files that the directives mean, in order |
| SourceDepsGraph.ScanEdges | qmake/generators/makefiledeps.cpp:533-855 | scanning a file counts at most one directive for every one it holds; of quoted ones, or if the lookups are uniform, exactly those that mean a file, in order |
| SourceDepsGraph.FindDepsTold | qmake/generators/makefiledeps.cpp:498-861 | if an angle-bracket directive means the same everywhere, a search counts exactly the directives that mean a file, of exactly the files it scans, in the order of the scans |
| SourceDepsGraph.AddAllTold | qmake/generators/makefiledeps.cpp:251-275 | so does the request behind any sequence of requests |
| SourceDepsGraph.AddAllFaithful | qmake/generators/makefiledeps.cpp:251-275 | so does every sequence of requests, in both modes |
| SourceDepsGraph.AddSourceFileClean | qmake/generators/makefiledeps.cpp:251-275 | no request leaves a mark of the walk |
| SourceDepsGraph.NothingFaithful | qmake/generators/makefiledeps.cpp:218-232 | the empty tables have these properties |
| LineSplicing.SkipEscapedLineEnds | qmake/generators/makefiledeps.cpp:334-348 | ends behind all deleted line ends at the position, which leaves the logical text as it is, and counts them |
| LineSplicing.MatchWhileUnsplitting | qmake/generators/makefiledeps.cpp:350-366 | compares character by character over deleted line ends, and gives length and lines of a match |
| LineSplicing.MatchesIff | qmake/generators/makefiledeps.cpp:350-366 | from a position behind deleted line ends, it succeeds iff the logical text begins with the needle |
| LineSplicing.MatchesUnskipped | qmake/generators/makefiledeps.cpp:350-366 | from any other position it succeeds iff the needle is empty or begins with the backslash itself |
| LineSplicing.ReadKeyword | qmake/generators/makefiledeps.cpp:690-712 | the letters that begin the logical text end up in place in front of the clean position, nothing from the read position on is overwritten, and the directive is recognised |
| LineSplicing.ReadName | qmake/generators/makefiledeps.cpp:715-772 | the logical text up to the closing delimiter ends up in place, with a NUL behind it; a line end in front of the delimiter makes it malformed |
| LineSplicing.ReadUpTo | qmake/generators/makefiledeps.cpp:741-764 | while that text is moved, nothing at or behind the read position is overwritten |
| LineSplicing.SeekCode | qmake/generators/makefiledeps.cpp:635-684 | skips space and both kinds of comments in the logical text, whatever deleted line ends they hold |
| LineSplicing.SkipLine | qmake/generators/makefiledeps.cpp:648-655 | to the line end that the logical text has behind a comment |
| LineSplicing.SkipComment | qmake/generators/makefiledeps.cpp:656-673 | to the first star and slash that are neighbours in the logical text |
| LineSplicing.ReadInclude | qmake/generators/makefiledeps.cpp:632-788 | the successive turns on one directive read, in place, the include that the logical line names |
| IncludeLines.SpliceText | qmake/generators/makefiledeps.cpp:334-348 | how a text is made of characters and deleted line ends: LF, CR and CR LF are one each, and a backslash in front of anything else stays |
| IncludeLines.CodeSkips | qmake/generators/makefiledeps.cpp:635-684 | space of every kind is passed over (blanks, line ends, comments to the end of the line, bracketed comments), and a line starts behind it if one ended in it |
| IncludeLines.CodeParts | qmake/generators/makefiledeps.cpp:635-684 | and nothing else is: what is passed over in front of code is a list of these, with a line end among them if a line starts behind |
| IncludeLines.IncludeOfIff | qmake/generators/makefiledeps.cpp:632-788 | a logical line names an include iff it is one by the grammar: space without line end, include or import, such space, and a name in quotes or angle brackets that holds neither the closing delimiter nor a line end |
| EventLoop.InvAlways | internal/ui/event_loop.go:36-92 | in every interleaving of Post, Run and Stop: a queued task has a token, a poster about to send one or a runner about to swap; tasks are conserved; at most one live runner listens to an open channel |
| EventLoop.InvInitially | internal/ui/event_loop.go:24-33 | the loop as it is created satisfies the invariant |
| EventLoop.NoDoubleClose | internal/ui/event_loop.go:82-91 | after every schedule from the start, a stop that closes a channel closes one that is open |
| EventLoop.AtMostOnce | internal/ui/event_loop.go:36-78 | no task is lost, executed twice, or held or queued twice |
| EventLoop.Fifo | internal/ui/event_loop.go:64-78 | unless two runners hold tasks at once, what was executed is a prefix of what was posted |
| EventLoop.OvertakesIff | internal/ui/event_loop.go:64-78 | from a state in posting order, some next step executes a later task before an earlier one iff two runners hold tasks |
| EventLoop.FifoInTurn | internal/ui/event_loop.go:64-78 | on every schedule that starts the loop only after the earlier runs have returned, what was executed is a prefix of what was posted |
| EventLoop.EmitOrder | internal/ui/signals.go:33-51 | as long as tasks were executed in posting order, the listeners of one signal ran in the order in which they were connected |
| EventLoop.RestartOvertakes | internal/ui/engine.go:33-37 | a restart can let a later task run before an earlier one |
| EventLoop.NoLostWakeup | internal/ui/event_loop.go:36-78 | when all goroutines wait, a running loop has executed every posted task, and a stopped one keeps a token for queued tasks |
| EventLoop.StoppedReturn | internal/ui/event_loop.go:64-92 | when all goroutines wait, every run whose channel was closed has returned; once the loop is stopped, all of them have |
| EventLoop.OneRunLeft | internal/ui/event_loop.go:48-92 | after every schedule from the start, when all goroutines wait at most one run has not returned, and then the loop was started after it was last stopped |
| EventLoop.MayServe | internal/ui/event_loop.go:64-78 | running or stopped, a run that waits while there is a token may take the whole queue and execute it in order |
| EventLoop.ComesToRest | internal/ui/event_loop.go:36-78 | the goroutines' own steps always come to rest, within a bound that the state gives |
| ShellQuoting.HasSpecialChars | qmake/library/ioutils.cpp:129-145 | some character is in the table of bits |
| ShellQuoting.ShellQuoteUnix | qmake/library/ioutils.cpp:147-165 | the quoted form, which a POSIX shell reads as one word, the argument |
| ShellQuoting.UnixArgument | qmake/library/ioutils.cpp:147-165 | a POSIX shell reads every quoted argument as one word, the argument, with nothing left over |
| ShellQuoting.BuildArgs | qmake/generators/makefile.cpp:2271-2283 | the loops give the joined line, which a POSIX shell splits into both argument lists |
| ShellQuoting.BuildArgsSplit | qmake/generators/makefile.cpp:2271-2283 | splitting the line by the quoting rules (section 2.2 of the Shell Command Language, POSIX.1-2017 XCU) gives back both argument lists, for all lists |
| ShellQuoting.InsertCarets | qmake/library/ioutils.cpp:198-205 | the loop that inserts carets in place is the one-pass form, and ends with its quoting state |
| ShellQuoting.ShellQuoteWin | qmake/library/ioutils.cpp:167-212 | the quoted form, from which cmd.exe and the argv rules make the one argument, unless it holds a newline |
| ShellQuoting.CmdArgument | qmake/library/ioutils.cpp:194-209 | cmd.exe removes the carets, acts on nothing and is outside quotes behind every argument |
| ShellQuoting.ArgvArgument | qmake/library/ioutils.cpp:188-193 | the argv rules give back exactly the argument |
| ShellQuoting.WinArgumentRoundTrip | qmake/library/ioutils.cpp:167-212 | both together, for every argument without newline |
| ShellQuoting.ArgvLineEnd | qmake/library/ioutils.cpp:183-193 | whatever the argument holds, newlines too, the argv rules make it again of what is enclosed in quotes, iff no backslash stands in front of a line end at its end; those are doubled |
| ShellQuoting.WinRoundTrip | qmake/generators/makefile.cpp:2271-2283 | the same for a joined line of any number of arguments |
| Substitutes.Substitute | qmake/generators/makefile.cpp:513-562 | the loop over the lines with its stack of modes, for any file |
| Substitutes.MachineRunsMeaning | qmake/generators/makefile.cpp:513-562 | on the lines of any template the machine adds the text of the selected branches, evaluates the same conditions in the same order and at the same lines, and leaves its stack as it was |
| Substitutes.Unselected | qmake/generators/makefile.cpp:528-560 | no condition is evaluated and nothing is added in a region that is not selected |
| Substitutes.UnselectedChain | qmake/generators/makefile.cpp:530-557 | nor behind a branch that was taken |
| Substitutes.PendingChain | qmake/generators/makefile.cpp:530-557 | of the alternatives the first whose test succeeds is selected, or the unconditional one |
| Substitutes.Parse | qmake/generators/makefile.cpp:513-562 | every file in which conditions are balanced is the lines of a template |
| Substitutes.SubstituteMeaning | qmake/generators/makefile.cpp:513-562 | so its substitution is the meaning of a template |
| Substitutes.LinesRead | qmake/generators/makefile.cpp:528-558 | the four keywords start conditional lines; what is tested is all that stands between the keyword and the last character of the line |
| Substitutes.TextRead | qmake/generators/makefile.cpp:528-558 | no other line is a conditional one |
| CompilerChain.ExtraCompilers.FindTarget | qmake/generators/makefile.cpp:435-459 | the nested loops find the place for the first output that a compiler in front takes |
| CompilerChain.ExtraCompilers.Move | qmake/generators/makefile.cpp:449-451 | inserting and removing moves one compiler to the front of others |
| CompilerChain.ExtraCompilers.Reorder | qmake/generators/makefile.cpp:430-461 | the loop with its count gives the functional form, keeps the members, moves at most size + 1 times, and leaves no output as the input of an earlier compiler unless the count stopped it |
| CompilerChain.ReorderChains | qmake/generators/makefile.cpp:430-461 | the same for the functional form from any position |
| CompilerChain.CycleStops | qmake/generators/makefile.cpp:433-434 | compilers that cannot be ordered always run into the count |
| CompilerChain.CountSuffices | qmake/generators/makefile.cpp:430-461 | there are at most as many moves as the weighted number of pairs in the wrong order, or of outputs that come too late, for any weights under which a compiler that feeds another outweighs what those that feed it can get behind with; if that number is at most the number of compilers, they end up chained |
| CompilerChain.RanksDominate | qmake/generators/makefile.cpp:430-461 | there are such weights whenever compilers only feed such of a higher rank |
| CompilerChain.FlatSuffices | qmake/generators/makefile.cpp:430-461 | if no compiler that feeds another is fed itself, every weight is one |
| CompilerChain.FlatExactly | qmake/generators/makefile.cpp:430-461 | such a list needs one move for every output of a compiler that is taken further in front than all outputs it lists before; the count stops the reordering iff these are more than there are compilers, and the result is chained iff they are at most one more |
| CompilerChain.OneOutputSuffices | qmake/generators/makefile.cpp:430-461 | if besides each has at most one output, they always end up chained |
| CompilerChain.CountStopsTooEarly | qmake/generators/makefile.cpp:433-434 | otherwise the count can stop what could be ordered: six compilers are left out of order |
| CompilerChain.GeneratorsExist | qmake/generators/makefile.cpp:433-434 | there are such six |
| XmlWriter.DoConversion | qmake/generators/xmloutput.cpp:79-125 | the loop and the two replacements convert every character by itself |
| XmlWriter.ConversionInverts | qmake/generators/xmloutput.cpp:79-125 | replacing references and entities (sections 4.1 and 4.6 of XML 1.0) gives back the text, iff nothing in it looks like a reference of four digits |
| XmlWriter.EscapeInverts | qmake/generators/xmloutput.cpp:79-125 | under the conversion for quotes, taking out the backslashes in front of quotes always gives back the text |
| XmlWriter.ConvertedIsPlain | qmake/generators/xmloutput.cpp:79-125 | no angle bracket, quote or control character is left |
| XmlWriter.ScanPieces | qmake/generators/xmloutput.cpp:79-125 | a reader of the characters of a text written in plain pieces finds the tags that the pieces leave open |
| XmlWriter.XmlOutput.constructor | qmake/generators/xmloutput.cpp:8-13 | a new writer is bare |
| XmlWriter.XmlOutput.UpdateIndent | qmake/generators/xmloutput.cpp:56-62 | one indent string per level |
| XmlWriter.XmlOutput.NewTagOpen | qmake/generators/xmloutput.cpp:213-224 | ends an open start tag, starts the next and pushes it |
| XmlWriter.XmlOutput.CloseOpen | qmake/generators/xmloutput.cpp:226-237 | ends a start tag if one is open |
| XmlWriter.XmlOutput.CloseTag | qmake/generators/xmloutput.cpp:239-264 | ends the innermost tag under its own name, or as an empty element, and pops it |
| XmlWriter.XmlOutput.CloseTo | qmake/generators/xmloutput.cpp:266-279 | closes tags up to and with the innermost of that name; none if there is none |
| XmlWriter.XmlOutput.CloseAll | qmake/generators/xmloutput.cpp:281-286 | closes all tags; what was written then reads back as a whole document |
| XmlWriter.XmlOutput.AddRaw | qmake/generators/xmloutput.cpp:306-310 | text stands behind the end of a start tag |
| XmlWriter.XmlOutput.AddAttribute | qmake/generators/xmloutput.cpp:312-327 | attributes are written in a start tag only |
| XmlWriter.XmlOutput.AddAttributeTag | qmake/generators/xmloutput.cpp:329-343 | the same on one line |
| XmlWriter.XmlOutput.AddTagValue | qmake/generators/xmloutput.cpp:149-153 | a whole element, whose name is not converted |
| XmlWriter.XmlOutput.AddValueTag | qmake/generators/xmloutput.cpp:154-159 | the text and end of the open tag, and the format is NewLine afterwards, whatever it was |
| XmlWriter.XmlOutput.AddData | qmake/generators/xmloutput.cpp:177-190 | data on lines of its own, or just the end of a start tag |
| XmlWriter.XmlOutput.BlockLines | qmake/generators/xmloutput.cpp:177-190 | under every conversion each line of the data stands behind the indent |
| XmlWriter.AttributeUnique | qmake/generators/xmloutput.cpp:312-343 | space, name and value of an attribute can be told apart in one way only |
| XmlWriter.XmlOutput.Put | qmake/generators/xmloutput.cpp:133-203 | every item keeps the writer valid (bare iff no tag is open iff the level is zero, and the output reads back as the open tags) opens and closes what it should, and writes exactly the pieces of that item; with plain names the text stays plain, and read back, apart from blank text, it tells exactly what the item says: names, values and text |
| XmlWriter.XmlOutput.Document | qmake/generators/xmloutput.cpp:15-18 | after any items and the destructor every tag is closed, under its own name and in LIFO order; under the XML conversion and with plain names, a reader of the characters finds the same in the file; if besides no text holds what looks like a reference, what is read back is what all items say, in order |
| ShadowBuild.Globals.FindRoots | qmake/library/qmakeglobals.cpp:216-224 | the loop finds the longest common end that starts at a slash and leaves something of both paths |
| ShadowBuild.Globals.SetDirectories | qmake/library/qmakeglobals.cpp:207-226 | the roots are the directories without it; nothing changes for builds in the source |
| ShadowBuild.Globals.ShadowedPath | qmake/library/qmakeglobals.cpp:228-238 | a file in the source directory has the same place in the build directory, if the directories are such that it mirrors |
| ShadowBuild.MirrorsIff | qmake/library/qmakeglobals.cpp:207-238 | everything in the source directory goes to the same place in the build directory, iff the source directory is neither empty nor the root and both or none of the two are given with a slash at the end |
| ShadowBuild.ShadowedInjective | qmake/library/qmakeglobals.cpp:228-238 | no two paths have the same shadow |

## Left out

- QmakeSemantics.Builtin: builtin tests other than export, clear and unset, and all builtin replace functions, are opaque functions of their arguments and of what they can look up; those that parse text again or touch the system (eval, if, include, load, infile, fromfile, requires, cache, system, cat, files, write_file) are not modelled.
- QmakeEvaluator.Evaluator.VisitProVariable: the hooks of TEMPLATE, QMAKE_PLATFORM, QMAKE_DIR_SEP, QMAKESPEC and REQUIRES behind an assignment, and regular expressions, which are an opaque function.
- QmakeEvaluator.Evaluator.IsActive: matching of wildcards is an opaque function.
- QmakeEvaluator.Evaluator.CountingRange: numbers are unbounded; a range that ends at the largest 32-bit number is not modelled.
- QmakeEvaluator.Evaluator.EvaluateBoolFunction: what counts as a number is an opaque function of the word.
- QmakeWords.TextIsWords: for operands without empty values; with them, ExprText says where blanks stand.
- Cumulative mode, warnings, messages, debug traces, size hints, and the parser: programs are given as abstract syntax.
- Function tables are maps; the iterator into a hash table that defining functions inside arguments can invalidate is not modelled.
- String hashes and the sharing of string data: strings are values.
- DependencySort.TakenOnce: goes one way; exactly when items are taken once is TakenOnceIff, whose condition is about the order of taking.
- QmakeBuiltins `split_value_list` for the suffixes: the dependencies of an item are given as one list, in order and with repetitions.
- SourceDeps.SourceFileInfo.FindInclude: directories, path lookups and system includes are one opaque function from a file and a directive to a target; the file system does not change meanwhile.
- SourceDeps.SourceFileInfo.ScanOne: the directives found in a file of a type are an opaque function; whether the buffer of an empty first file is null is not modelled.
- SourceDepsGraph.FindDepsTold: what is counted when one angle-bracket directive means different files in different places depends on which was looked up first and is not stated.
- SourceDepsGraph.FindDepsFaithful: the order of the recorded dependencies is stated for lookups that agree on which files exist; a file that one lookup finds and another does not keeps the last answer.
- LineSplicing.ReadName: the text must not end inside the name, where the code writes its NUL behind the buffer's last character.
- LineSplicing.SeekCode: says nothing of line numbers, which are only used in messages.
- String literals and raw strings, user interface files and the search for moc keywords in `makefiledeps.cpp`.
- EventLoop.Fifo: goes one way; two runners with tasks at once can overtake each other in the next step, but need not.
- EventLoop.EmitOrder: the lock of a signal and connecting while a signal is emitted are not modelled; a call of Emit is a poster with a fixed number of tasks.
- ShellQuoting.WinRoundTrip: percent expansion and newlines, at which cmd.exe cuts a line, and the response file and Makefile levels around quoted arguments.
- Substitutes.Substitute: files are read as lines with their ends, output files are not modelled; a template line that ends the file without a line end still loses its last character.
- CompilerChain.CountSuffices: goes one way; one move can lower the disorder by more than one, so a larger disorder need not run into the count. For lists in two layers FlatExactly goes both ways.
- XmlWriter.XmlOutput.CloseTo: a name that is not open while no tag is open makes the message read the last of an empty stack, so it is excluded.
- XmlWriter.XmlOutput.Document: the reader of characters knows no comments, processing instructions or CDATA sections, and takes names, equals signs and values in a start tag in any order; what is read back is stated for the XML conversion, plain names and texts without what looks like a reference, and leaves blank text out.
- XmlWriter.XmlOutput.Put: raw text, comments, CDATA, declarations, imports, and setting the state, level or indent string by hand; an indent string with a percent sign.
- ShadowBuild.Globals.SetDirectories: directories are taken as they are given, without cleaning their paths.
- The rest of the Go port, the Python scripts and the mkspecs.
