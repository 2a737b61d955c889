# A verified model of NilScript

NilScript is a small workflow language with a kernel that admits and walks programs, an edge that puts
any system of record behind PROPOSE / COMMIT / ROLLBACK, a control plane that arms and fires automations,
and a read plane that pages through records. This project models these parts in Dafny and proves what they
promise. Everything a backend, an adapter, a clock or a scheduler can decide is an arbitrary parameter of
the model, so the theorems hold whatever they answer.

## What is modelled, and the main results

**The kernel.** `References` and `Guards` are the two little languages of a program, with print/parse theorems
in both directions; `GuardEval` has the denotation of guards and the one-pass parser-evaluator (a class with a
cursor), proved to compute it; `GuardTruths` says what they mean in terms of numbers, texts, lists and truth
values. `Replacing` says what resolving makes of a value at every place in it. `GuardText` has the tokenizer
and the textual rewriting of `has`; `Lexemes` and `HasInText` show how the two commute, and `GuardMeaning` and
`SpeltGuards` what a guard's text means and when it is refused. `Validator` has the admission passes over
`Graph` and `Kahn`: Kahn's sort on a multigraph reports a cycle exactly when there is one, and what it leaves
over is exactly what lies on a cycle *or downstream of one* (`CycleMessages` says when that makes its message
right). `Executor` has the walk with its nested `foreach` and `parallel` walks, as functions of the run state
and as a class whose methods update that state; the measure is the topological rank. `Interleaving` lets the
branches of a `parallel` go on in any order, move by move: every schedule is bounded, nothing deadlocks, and
everything `Schedules` proves holds for all of them; `Sequential` shows that the executor's own order is one
of these schedules. `Accounts` says where every call, output and notice of a run comes from, under every
schedule, and `Rounds` how loops and polls proceed. `Admission` puts this together: an admitted program runs
to a proper end whatever the adapter answers and however its branches interleave. `Client` says which answers
the client lets through, and `Shapes` which paths into a node's output are always there; `Resolving` turns
that into a check under which no reference is ever missing, on the way forward or back, under any schedule;
`StraightLines` proves the check exact for programs without branches, with the adapter that makes an unassured
reference go missing; `Realizing` that in a graph without `parallel` nodes every path can be the one taken.
`OutputTyping` proves the typed-path check sound and complete.

**The planner.** `Prerequisites` is the depth-first planner: it refuses exactly when a cycle of unmet
prerequisites can be reached from the goal, and otherwise creates each needed entity once, after all that its
own verb needs. `PrerequisiteSaga` executes the plan and says exactly when every call gets the ids it needs.

**The edge.** `Edge` has its requests as functions of its state and of the record store (`Store`);
`EdgeService` has the handlers as methods of a class that update the shim's dictionaries and call the client
in order, proved equal to those functions. `EdgeRuns` proves over any sequence of requests that the books
balance (mutations = ledger keys = events = sum of the workspace counters), that no store change is silent,
and that replays change nothing; `EdgeCommits` that a proposal is carried out once per executed key;
`EdgeUndo` exactly when undoing restores, and that undoing the undo redoes; `MappedUndo` what the mapped
reversals of an adapter's own verbs do; `KernelOnEdge` that a kernel run, repeated as often as one likes,
writes at most twice per action. `EdgeEffects` says what a commit does to which record, what its receipt says,
and what is previewed; `PocketBase` instantiates the edge with the adapter's own verb tables.

**The control plane.** `Registry` is the version chain; `Dispatch` interleaves any number of firers with
registrations and state changes, one atomic store operation at a time; `Firings` and `Origins` have the
theorems over whole histories, `Scheduler` the spacing of scheduled runs, `Triggers` cron expressions and
event filters, `Events` the dispatch of an event to all who ask for it, `TriggerFires` both over the real
triggers, `AutomationService` the tables as an object. `RunRecords` ties the recorded state of a run to what
the kernel run came to.

**The read plane and the transport.** `ReadPlane`, `Filters`, `Paging` and `Exporting` have filters, grants,
projections, the edge's filter operators, keyset pages and the streaming export; `LeanRows` says exactly when
the edge's filter and count are right over backends that hand over only the fields asked for; `Breaker` the
circuit breaker and the retry loop; `Manifests` the merge and diff of requirement manifests, and
`MergeWinners` whose word counts in them; `Bulk` the resumable batch runner.

## Where the code does not keep what it says

Each of these is a lemma, with the condition under which the claim does hold.

- `resolve` says that a source or field is never absent in an admitted program. A condition can skip the step
  a reference names (`Branching.SkippingIsAdmitted`, `Branching.SkippingAlwaysRaises`), and a step that ran
  need not have the field (`MissingFields.ShowingIsAdmitted`, `MissingFields.FieldGoesMissing`). No reference
  is missing, in guards, arguments and compensations, when each is assured: its step lies settled on every way
  and its output always offers the path, or the input or the loop it reads from has it
  (`Resolving.AssuredReferencesAreFound`). For programs without branches this is exact
  (`StraightLines.AssuredLinesNeverMiss`, `StraightLines.UnassuredLinesCanMiss`); in general the part about
  paths into outputs is exact (`Shapes.OffersExactly`), and so is, for what the graph alone can tell and
  without `parallel` nodes, the part about ways (`Realizing.OtherSourcesAreMissed`): a program's own guards
  may still rule a way out.
- The grammar of guards has `has` as a macro. The code rewrites it in the text, before reading tokens: with a
  blank before its parenthesis it is refused (`SpeltGuards.SpacedHasIsRefused`), and inside a string it is
  rewritten all the same (`SpeltGuards.CallInAStringIsRewritten`). A guard's text means what the grammar says
  when its calls are well written and none is in a string, and is always refused when they are not
  (`GuardMeaning.GuardTextMeansItsDenotation`, `GuardMeaning.StringsStayExactly`).
- The message of `V3_CYCLE` calls the left-over nodes "nodes in a cycle". They include nodes downstream of one
  (`CycleMessages.NodeOffTheCycle`); it is right exactly when no edge leads from a node on a cycle to one on
  none (`CycleMessages.CycleMessageIsRight`).
- The saga promises each dependent the ids it needs. A shared entity is carried under its first dependent's
  argument name only (`PrerequisiteSaga.SharedEntityLosesItsSecondName`), and an entity planned later takes
  over the name of an earlier one (`PrerequisiteSaga.LaterEntityTakesTheName`). Every call is given every id
  exactly when the plan has each entity under the name and field its dependents ask for, with no later step
  before them taking the name (`PrerequisiteSaga.SagaCarriesEverything`,
  `PrerequisiteSaga.MiswiredSagaMisdelivers`).
- The edge writes once per idempotency key, not once per proposal: as often as there are keys under which the
  proposal was executed (`EdgeCommits.OneWritePerExecutedKey`), so at most once under one key
  (`EdgeCommits.OneKeyWritesOnce`) and twice under two (`EdgeCommits.OneProposalTwoKeys`,
  `EdgeCommits.UnhinderedIsCarriedOut`).
- Undoing restores exactly when the before-image was read, or there was nothing in it to lose, and an update
  touched only present fields (`EdgeUndo.UndoRestores`; a lost before-image is an empty one). An update that
  changed the record's id leaves the undo nothing to find (`EdgeUndo.MovedRecordIsNotRestored`), or another
  record to overwrite (`EdgeUndo.MovedUndoGoesByIdentifier`).
- `active_automations` says that the active version is always the latest; setting a state can arm an old one
  (`Registry.ArmingOldVersions`). An older version that is armed asks for events in vain
  (`Events.OlderVersionIsNotRun`); what asks is what runs exactly when no older version is armed
  (`Events.AskersAreRun`).
- A run id leaves out the workspace (`Firings.RunIdDetermines`), so a fire can be answered with another
  workspace's run (`Firings.OtherWorkspaceIsTakenForAReplay`); a replay is of an own run exactly when no other
  workspace's automation of that id opened it first (`Origins.ReplaysAreOwnRunsExactly`).
- A re-delivered event is said to replay its run; a version registered in between runs for it again. The exact
  condition is in `Events.RedeliveryChangesNothing`. Events without an id are all one event
  (`Events.EventsAreToldApart`).
- A sensitive field is said to need an explicit grant. With no grant list at all it is returned
  (`ReadPlane.SensitiveFieldWithoutGrant`); only granted ones go out exactly when there is a list or none was
  asked for (`ReadPlane.GrantsAreNeededExactly`).
- The edge's filter sees only the fields it was handed. Over a backend that hands over just those, a row that
  matches is lost where absence does not pass the operator (`LeanRows.UnseenRowIsLost`) and one that does not
  is let through where it does (`LeanRows.UnseenRowIsLetThrough`, `LeanRows.NotEqualLetsThrough`). The
  fallback agrees with a filtering backend exactly when the filter's field is handed over or its operator
  decides alike for every value (`LeanRows.FallbackIsFaithfulExactly`). The approximate count, which asks for
  the ids only, is exact under that condition over a backend that does not filter
  (`LeanRows.UnfilteredCountIsExactly`), and over one that does exactly when the filter looks at the id,
  absence passes it, or nothing does (`LeanRows.FilteredCountIsExactly`). The export never filters at the edge
  (`Exporting.UnfilteredStream`).
- A cursor made from a text id that `int` reads, `2024_01` among them, comes back as a number
  (`ReadPlane.CursorRoundTrip`, `ReadPlane.JoinedIdComesBackAsANumber`).
- A manifest diff is `changed` only for differences in outline (`Manifests.ChangedMeansAnotherOutline`).

## Model

| member | source | states |
|---|---|---|
| `References.ReferenceRoundTrip` | src/nilscript/kernel/references.py:37-49 | a well-formed reference, printed and parsed, is itself again |
| `References.FinalNewlineIsIgnored` | src/nilscript/kernel/references.py:37-49 | a newline after a reference does not matter |
| `References.ParsedIsWellFormed` | src/nilscript/kernel/references.py:37-49 | whatever parses names a step, `item` or `input` and has a path of words and indices |
| `References.FollowPath` | src/nilscript/kernel/references.py:52-62 | the loop over segments gives the value the path selects, or fails where a segment does not fit |
| `References.ResolvesExactlyWhenAllDo` | src/nilscript/kernel/references.py:65-84 | a nested value resolves exactly when every reference inside it is found |
| `Replacing.ResolvesToTheFilled` | src/nilscript/kernel/references.py:65-84 | a value whose references are all found resolves to another exactly when that has, at every place, the same keys and lengths, what each reference finds where the reference stood, and every other leaf as it was |
| `Replacing.LookupsFind` | src/nilscript/kernel/references.py:52-84 | a reference to a step leads to the part of its output that the path names, into a text to one character, from `item` into the loop element; a step not in the context gives nothing |
| `Guards.GuardPrintParse` | src/nilscript/kernel/guards.py:94-192 | printing any guard of the grammar and parsing the tokens gives the same tree with nothing left |
| `Guards.AcceptsExactlyPrints` | src/nilscript/kernel/guards.py:94-192 | a token list is accepted as a guard exactly when it is that guard's print, so the grammar is unambiguous |
| `GuardEval.NoOperandIsSkipped` | src/nilscript/kernel/guards.py:101-115 | when a guard has a value, every reference in it outside `has` resolved: neither `and` nor `or` shields an operand |
| `GuardEval.Parser.ParseWhole` | src/nilscript/kernel/guards.py:94-99 | on every token list the one-pass evaluator ends with the denotation of the parsed guard, or an error where nothing parses, tokens trail or an operand has no value |
| `GuardTruths.NumbersCompare` | src/nilscript/kernel/guards.py:134-153 | operands that give numbers, integers, decimals or booleans, compare as the numbers do under all six operators |
| `GuardTruths.LiteralsCompare` | src/nilscript/kernel/guards.py:134-174 | the guard of two integer literals and an operator has the truth of that comparison of the integers |
| `GuardTruths.TextsCompare` | src/nilscript/kernel/guards.py:134-153 | texts compare by the first character in which they differ, or by which goes on where the other ends |
| `GuardTruths.ListsCompare` | src/nilscript/kernel/guards.py:142-153 | lists compare as the first elements do that are not equal |
| `GuardTruths.BeginningsCompare` | src/nilscript/kernel/guards.py:142-153 | and where one is a beginning of the other, by their lengths |
| `GuardTruths.NothingElseIsOrdered` | src/nilscript/kernel/guards.py:142-153 | values of different kinds, nulls and objects are an error under an ordering operator |
| `GuardTruths.EqualityIsIdentity` | src/nilscript/kernel/guards.py:144-147 | two values are equal exactly when they are the same value with every number in them read as a decimal |
| `GuardTruths.Inclusion` | src/nilscript/kernel/guards.py:148-149 | a text is in a text in which it occurs at some index, a value in a list with an equal element, a text in an object that has the key; every other `in` is false or an error as said |
| `GuardTruths.Sizes` | src/nilscript/kernel/guards.py:185-192 | `size` is the length of a text or list or the number of an object's fields, and an error of anything else |
| `GuardTruths.FalseValues` | src/nilscript/kernel/guards.py:109-127 | exactly null, false, the zeros and the empty text, list and object count as false |
| `GuardTruths.Disjunction` | src/nilscript/kernel/guards.py:101-107 | a chain of `or` between true or false operands is true exactly when one of them is |
| `GuardTruths.Conjunction` | src/nilscript/kernel/guards.py:109-115 | a chain of `&&` exactly when all of them are |
| `GuardTruths.Negation` | src/nilscript/kernel/guards.py:117-122 | an odd number of `!` turns true and false round and an even one leaves them |
| `GuardTruths.Literals` | src/nilscript/kernel/guards.py:155-183 | a list literal is the list of its elements' values in order, and the other literals stand for themselves |
| `Lexemes.IntegerIsRead` | src/nilscript/kernel/guards.py:37-38 | the lexeme of an integer, with its sign, is that integer |
| `Lexemes.DecimalIsRead` | src/nilscript/kernel/guards.py:37-38 | the lexeme of a decimal is the number of all its digits with the point moved back over those behind it |
| `GuardText.Tokenize` | src/nilscript/kernel/guards.py:49-61 | the loop over the text takes lexeme after lexeme, drops blanks and ends with their tokens, or fails at the first character that begins none |
| `GuardText.EvaluateText` | src/nilscript/kernel/guards.py:202-217 | the value of a guard's text is that of the tokens of the text with `has(...)` rewritten in it, and must be a boolean |
| `GuardMeaning.WellWrittenTextMeansItsTokens` | src/nilscript/kernel/guards.py:202-240 | a text in which every call of `has` is written as one token after the other, with no blank before its parenthesis and nothing glued to it, has the value of its tokens with the calls, and those inside strings, rewritten |
| `GuardMeaning.IllWrittenTextIsRefused` | src/nilscript/kernel/guards.py:202-240 | any other text is refused in every context, provided an opening parenthesis in it always follows an operator, `has`, `size` or `in` |
| `GuardMeaning.StringsStayExactly` | src/nilscript/kernel/guards.py:220-240 | the strings of a guard are left as they are exactly when none of them has a call of `has` in it |
| `GuardMeaning.GuardTextMeansItsDenotation` | src/nilscript/kernel/guards.py:202-240 | any text that reads as a guard of the grammar is refused when it is not well written, and otherwise has the guard's denotation if no string has a call in it |
| `SpeltGuards.SpeltGuardMeansItsDenotation` | src/nilscript/kernel/guards.py:30-61 | every guard written down lexeme by lexeme with blanks between is read back and has its denotation, unless a string has a call in it |
| `SpeltGuards.ReferencesAreWritten` | src/nilscript/kernel/guards.py:30-46 | a well-formed reference, printed, is one lexeme and reads as that reference |
| `SpeltGuards.LeavesAreWritten` | src/nilscript/kernel/guards.py:30-46 | so are a quoted text, a name and an integer |
| `SpeltGuards.OperatorsAreWritten` | src/nilscript/kernel/guards.py:40-41 | so is each operator and bracket of the grammar |
| `SpeltGuards.SpacedHasIsRefused` | src/nilscript/kernel/guards.py:220-240 | `has (` with a blank and a reference reads as the guard that asks for the reference, and is refused |
| `SpeltGuards.CallInAStringIsRewritten` | src/nilscript/kernel/guards.py:220-240 | comparing the string `has(x)` with `true` says whether x is found, where the tokens say that the two texts differ |
| `Graph.CycleUpstream` | src/nilscript/kernel/validator.py:97-122 | from a set of nodes that all have a predecessor inside it, a cycle lies upstream of each |
| `Kahn.TopologicalSort` | src/nilscript/kernel/validator.py:97-116 | the sort with its in-degree table and stack, on a multigraph with self-loops, lists distinct nodes, predecessors first, and leaves over only nodes with an edge from a left-over node |
| `Kahn.LeftOverExactly` | src/nilscript/kernel/validator.py:118-122 | a node is left over exactly when it lies on a cycle or can be reached from one |
| `Validator.CheckReferences` | src/nilscript/kernel/validator.py:79-91 | a diagnostic for the entry and for each undefined target of each node, and for nothing else |
| `Dsl.TargetsAreThoseNamed` | src/nilscript/kernel/validator.py:55-76 | the targets of a node are exactly those it names: the next one, its error policy's, and those its kind branches to |
| `Resolving.ReadsAreScanned` | src/nilscript/kernel/validator.py:289-303 | the sources scanned for are exactly those of the references a node reads when executed, and of those its guard asks about |
| `Validator.CheckAcyclicity` | src/nilscript/kernel/validator.py:97-122 | V3_CYCLE exactly when a directed cycle exists, with the left-over nodes; otherwise a permutation of the nodes with every edge forward |
| `Validator.SortDecides` | src/nilscript/kernel/validator.py:118-122 | comparing the length of the order with the number of nodes decides acyclicity |
| `CycleMessages.CycleMessageIsRight` | src/nilscript/kernel/validator.py:118-122 | the message "nodes in a cycle" is right exactly when no edge leads from a node on a cycle to one that is on none |
| `CycleMessages.NodeOffTheCycle` | src/nilscript/kernel/validator.py:118-122 | a program with a left-over node that lies on no cycle |
| `Validator.ReachableSet` | src/nilscript/kernel/validator.py:315-324 | the frontier loop ends with exactly the nodes that have a path from the entry |
| `Validator.CheckReachability` | src/nilscript/kernel/validator.py:306-345 | V6_UNREACHABLE, V6_NO_TERMINAL and V6_FORWARD_REF each exactly where their conditions hold |
| `Validator.ForwardReferenceVerdict` | src/nilscript/kernel/validator.py:332-345 | whatever order the sort pops, a reference to the consumer or downstream of it is reported and one to a strict ancestor is not |
| `Validator.AcyclicProgramsEnd` | src/nilscript/kernel/validator.py:328-330 | with no V2 or V3 error V6_NO_TERMINAL cannot fire |
| `Validator.EndsWhereNothingIsNamed` | src/nilscript/kernel/validator.py:328-330 | a node counts as terminal exactly when it names no other |
| `Validator.Validate` | src/nilscript/kernel/validator.py:37-58 | no diagnostic exactly when the program is well shaped, closed, acyclic, reachable and forward-reference free |
| `OutputTyping.WalkOutput` | src/nilscript/kernel/validator.py:223-264 | the cursor loop finds the first complaint about the path, if any |
| `OutputTyping.AcceptedPathIsSound` | src/nilscript/kernel/validator.py:223-264 | an accepted path never clashes with the shape of a conforming output, and what it reaches conforms to the sub-schema |
| `OutputTyping.CheckIsExact` | src/nilscript/kernel/validator.py:223-264 | the check is silent exactly when no conforming output clashes with the path |
| `OutputTyping.CheckOutputReferences` | src/nilscript/kernel/validator.py:267-283 | the pass reports exactly the faulty output references of action and query arguments |
| `OutputTyping.FaultsAreThoseOf` | src/nilscript/kernel/validator.py:223-264 | the references checked are those in action and query arguments that read the output of a query whose verb declares a response |
| `OutputTyping.ComplaintsArePlaced` | src/nilscript/kernel/validator.py:223-264 | a complaint is about the first segment that does not fit: a mismatch where the schema is no array for an index or no object for a name, an unknown field where the object declares none of that name |
| `OutputTyping.CheckedReferencesNeverClash` | src/nilscript/kernel/validator.py:267-283 | at run time a checked reference to a conforming output fails only on an absent property or index |
| `Executor.OrderGivesRank` | src/nilscript/kernel/graph.py:18-30 | the validator's order gives a rank, at most the number of nodes, that every successor edge lowers |
| `Executor.LocalExecutor.Execute` | src/nilscript/kernel/executor.py:86-117 | a whole run, with its result and its state, is what the run function says |
| `Executor.LocalExecutor.WalkFrom` | src/nilscript/kernel/executor.py:119-128 | the loop with its step guard walks and records outputs as the walk function says |
| `Executor.LocalExecutor.ExecuteAt` | src/nilscript/kernel/executor.py:130-160 | each node type's execution, nested walks and swallowed branch faults included, is what the node function says |
| `Rounds.LoopsWalkTheirList` | src/nilscript/kernel/executor.py:152-157 | a loop over a list walks its body for each element in turn from the first, with the element under the binder, up to its limit or the first pass that does not finish, and records as count the smaller of the list's length and the limit |
| `Rounds.PollsUntilDecided` | src/nilscript/kernel/executor.py:178-186 | an approval is asked about until an answer decides or all polls are used; which reported states mean approved, rejected and timeout; what answers came before the last decided nothing |
| `Executor.LocalExecutor.Act` | src/nilscript/kernel/executor.py:162-176 | resolve, propose, on refusal halt or record, else commit under the node's key and remember it |
| `Executor.LocalExecutor.AwaitVerdict` | src/nilscript/kernel/executor.py:178-186 | polls until a state routes, `timeout` after the allowed polls |
| `Executor.LocalExecutor.CompensateAll` | src/nilscript/kernel/executor.py:188-208 | walks the commits from last to first, stopping at the first that cannot be undone |
| `Runs.UnwindGoesBackwards` | src/nilscript/kernel/executor.py:188-208 | the unwinding undoes a suffix of the commits strictly backwards, one commit per node under its rollback key, and stops early only at a node with no undo, a refused one, or one at whose undo it raises |
| `Runs.KeysAreDistinct` | src/nilscript/kernel/graph.py:33-36 | within a run every node has a forward and a rollback key of its own |
| `Admission.RunsToAnEnd` | src/nilscript/kernel/executor.py:86-160 | whatever the answers, a ranked closed program's run never looks up an undefined node, never meets the step guard and ends properly |
| `Admission.AdmittedProgramsRunToAnEnd` | src/nilscript/kernel/validator.py:37-58 | admission soundness: every program with no V1-V3 error runs to a proper end |
| `Admission.SchedulesEndProperly` | src/nilscript/kernel/executor.py:147-157 | however its branches interleaved, a run of an admitted program ends properly, its unwinding included |
| `Admission.AdmittedReferencesAreFound` | src/nilscript/kernel/references.py:65-84 | in an admitted program with no branches every reference to a defined step finds it in the context, under every schedule |
| `Interleaving.MovesLowerTheMeasure` | src/nilscript/kernel/executor.py:147-157 | every move of every task, branches interleaved in any order, lowers a measure |
| `Interleaving.SchedulesAreBounded` | src/nilscript/kernel/executor.py:119-160 | no schedule makes more moves than the weight of the entry |
| `Interleaving.SomethingCanMove` | src/nilscript/kernel/executor.py:147-157 | a run that is not over can always move |
| `Schedules.MovesKeepSafe` | src/nilscript/kernel/executor.py:119-160 | every move keeps each task inside the graph, below the step guard and behind a settled path from the entry |
| `Schedules.AdmittedUnderEverySchedule` | src/nilscript/kernel/executor.py:119-176 | an admitted program under every interleaving: bounded, never stuck, no undefined node, no step guard, only its own actions committed under their own keys |
| `Accounts.RunsAreAccounted` | src/nilscript/kernel/executor.py:119-186 | at every point of every schedule: each call was made for a visited node, a proposal or query with its arguments resolved in the context of the visit, a commit of the very proposal answered under the node's key, a poll of the proposal awaited; each output is what was answered, decided or counted; each notice its message; and a halted run was refused with its code |
| `Accounts.PassesComeInOrder` | src/nilscript/kernel/executor.py:155-157 | under every schedule a loop's next pass starts at the body with the element whose turn it is, the first first, up to the count |
| `Accounts.ProgramIsAccounted` | src/nilscript/kernel/executor.py:86-117 | so is a run in the executor's own order; its unwinding proposes compensations resolved at the end of the walk and commits what was answered; an incomplete result names the action refused and the code |
| `Accounts.ArgumentsAreFilled` | src/nilscript/kernel/executor.py:162-176 | what was resolved for a call has what each reference finds in the context of a visit, and is the node's own argument everywhere else |
| `Schedules.DominatingSourcesAreFound` | src/nilscript/kernel/references.py:65-84 | a step that lies settled on every way to its consumer is in the context whenever the consumer starts |
| `Sequential.WalkIsASchedule` | src/nilscript/kernel/executor.py:119-160 | the executor's one-branch-at-a-time walk is one of the interleaved schedules |
| `Realizing.StepFollows` | src/nilscript/kernel/graph.py:18-30 | in a program that asks its input which way to go, a round of the walk goes on along any edge of the path the input describes |
| `Realizing.PathIsTaken` | src/nilscript/kernel/executor.py:119-160 | without `parallel` nodes, the run of such a program comes to every node of the path, loops included |
| `Realizing.OtherSourcesAreMissed` | src/nilscript/kernel/references.py:65-84 | where some way to the consumer lacks the settled source, a program with the same graph, an input and an adapter start the consumer without it |
| `Realizing.AskingIsAdmitted` | src/nilscript/kernel/validator.py:37-58 | and that program is admitted when the given one is |
| `Shapes.OffersExactly` | src/nilscript/kernel/executor.py:129-207 | a path is offered exactly when it can be followed into everything the node may record by answers the client lets through |
| `Resolving.MovesGo` | src/nilscript/kernel/executor.py:119-160 | every move of every task keeps each task on a settled way with the loop element that belongs there, and every recorded output in its node's shape |
| `Resolving.AssuredReferencesAreFound` | src/nilscript/kernel/references.py:65-84 | where every reference is assured, each task about to start finds all it reads under every schedule, none stops for want of a reference, and what is committed can be unwound |
| `StraightLines.AdmittedProgramsHaveLines` | src/nilscript/kernel/graph.py:18-30 | an admitted program without branches runs along one line through all its nodes |
| `StraightLines.AssuredLinesNeverMiss` | src/nilscript/kernel/references.py:65-84 | without branches, when every reference is assured no run misses one whatever the adapter answers, its unwinding included |
| `StraightLines.UnassuredLinesCanMiss` | src/nilscript/kernel/references.py:65-84 | and when one is not, an adapter whose answers the client lets through makes the run end for want of it |
| `MissingFields.ShowingIsAdmitted` | src/nilscript/kernel/validator.py:37-58 | the validator admits a program that shows a field of what a query was answered |
| `MissingFields.FieldGoesMissing` | src/nilscript/kernel/references.py:52-62 | and an adapter that answers the query with an object makes its run end for want of the field |
| `Branching.SkippingIsAdmitted` | src/nilscript/kernel/validator.py:332-345 | the validator admits a program in which a step reads the output of one that a condition skips |
| `Branching.SkippingAlwaysRaises` | src/nilscript/kernel/references.py:68-70 | every run of that program fails to resolve the reference, whatever the adapter answers |
| `DataFlow.SourceLiesBefore` | src/nilscript/kernel/validator.py:315-345 | without branches the order check means that the source lies settled on every way to the consumer |
| `Prerequisites.PlanPrerequisites` | src/nilscript/kernel/prerequisites.py:58-86 | ends on every prerequisite map; refused exactly when a cycle of unmet prerequisites can be reached; otherwise each needed entity once, after its own verb's needs, and nothing else |
| `Prerequisites.PlannedAsDeclared` | src/nilscript/kernel/prerequisites.py:77-83 | a planned step has the verb, the entity and the carry of a needed prerequisite |
| `Prerequisites.Planner.Visit` | src/nilscript/kernel/prerequisites.py:72-83 | the recursive visit, with the path as its termination measure, places all that the verb needs |
| `PrerequisiteSaga.RunSaga` | src/nilscript/kernel/prerequisites.py:122-148 | the loop carries ids and stops at the first failure as the saga function says |
| `PrerequisiteSaga.SagaCarriesEverything` | src/nilscript/kernel/prerequisites.py:135-146 | when the plan is wired as its dependents ask, every call, the goal's included, carries the id of the very record its verb needed, whatever the host answers |
| `PrerequisiteSaga.MiswiredSagaMisdelivers` | src/nilscript/kernel/prerequisites.py:135-146 | and otherwise some host answers every call and yet some call goes out without such an id |
| `PrerequisiteSaga.LaterEntityTakesTheName` | src/nilscript/kernel/prerequisites.py:135-146 | with all names agreed, an entity planned later can still take an earlier one's argument name from the goal |
| `PrerequisiteSaga.SharedEntityLosesItsSecondName` | src/nilscript/kernel/prerequisites.py:75-85 | when two dependents name a shared entity differently, a good plan has it under one name only |
| `Store.WritesKeepKeys` | src/nilscript/demo/pocketbase_nil_adapter/system.py:78-108 | create, update and delete keep every record under the id it carries |
| `Edge.FirstMissing` | src/nilscript/demo/pocketbase_nil_adapter/translate.py:38-39 | no missing argument exactly when all required ones are given and not empty |
| `EdgeService.EdgeApp.Propose` | src/nilscript/demo/pocketbase_nil_adapter/edge.py:157-216 | gates in order, then stores the proposal; nothing else changes |
| `EdgeEffects.PreviewedExactly` | src/nilscript/demo/pocketbase_nil_adapter/edge.py:157-216 | a request is previewed exactly when it is in order and its target provisioned, and then just what was asked for is stored; a refusal changes nothing |
| `EdgeEffects.RefusalsAreTrue` | src/nilscript/demo/pocketbase_nil_adapter/edge.py:164-204 | a refused request is told an argument it lacks or that is no object, a verb or target that is not known, or a target not provisioned |
| `EdgeService.EdgeApp.Commit` | src/nilscript/demo/pocketbase_nil_adapter/edge.py:218-349 | replay, expiry, execution, ledger, event and undo, as the commit function says |
| `EdgeService.EdgeApp.ApplyGeneric` | src/nilscript/demo/pocketbase_nil_adapter/edge.py:231-267 | the resource path: resolve, before-image, mutate, read back |
| `EdgeService.EdgeApp.ApplySpecific` | src/nilscript/demo/pocketbase_nil_adapter/edge.py:283-334 | the translated path, written the way the verb's name says |
| `EdgeEffects.ExecutedCommitsDoAsProposed` | src/nilscript/demo/pocketbase_nil_adapter/edge.py:231-282 | an executed resource commit has created, updated or deleted one record as proposed, every written field as written and every other as it was, and nothing else; the receipt names proposal, collection and record, and says verified exactly when the read-back shows every written field landed, or no record after a delete; one event goes out |
| `EdgeEffects.ExecutedVerbsDoAsTranslated` | src/nilscript/demo/pocketbase_nil_adapter/edge.py:283-334 | an executed commit of the adapter's own verb has written the translation, filled in from the manifest, to a new record or to the one the first required argument stands for |
| `EdgeService.EdgeApp.Rollback` | src/nilscript/demo/pocketbase_nil_adapter/edge.py:385-429 | previews the reversal behind a token and never writes |
| `EdgeService.Resolve` | src/nilscript/demo/pocketbase_nil_adapter/edge.py:70-85 | a record id, or the one record a human identifier names in the first field that names exactly one |
| `EdgeEffects.FirstSingleIsPicked` | src/nilscript/demo/pocketbase_nil_adapter/edge.py:78-84 | an identifier goes by the first field in which exactly one listed row carries it, and stands for the id that row goes by |
| `EdgeEffects.NoSingleFails` | src/nilscript/demo/pocketbase_nil_adapter/edge.py:81-86 | where no field has exactly one such row, a commit of an update or delete by a value that is no visible id fails and changes nothing |
| `EdgeEffects.SingleIsWritten` | src/nilscript/demo/pocketbase_nil_adapter/edge.py:241-252 | where one has, the commit writes the record that row goes by and touches no other, or fails and changes nothing |
| `EdgeEffects.VisibleIdIsWritten` | src/nilscript/demo/pocketbase_nil_adapter/edge.py:75-76 | the id of a visible record stands for that record |
| `EdgeEffects.QueriesReadDeclaredTargets` | src/nilscript/demo/pocketbase_nil_adapter/edge.py:351-368 | a query is answered with the target's rows exactly when a verb writes there, it is provisioned and the search comes through |
| `EdgeService.ShimState.NextSequence` | src/nilscript/demo/pocketbase_nil_adapter/state.py:19-21 | the workspace's counter goes up by one and is returned |
| `EdgeService.SystemClient.Update` | src/nilscript/demo/pocketbase_nil_adapter/system.py:97-103 | merges into the record or is refused |
| `PocketBase.TablesAreConsistent` | src/nilscript/demo/pocketbase_nil_adapter/translate.py:125-171 | every verb's required arguments suffice to translate it, and every mapped reversal is a verb the entity's id alone supplies |
| `PocketBase.TranslationsHandOn` | src/nilscript/demo/pocketbase_nil_adapter/translate.py:125-171 | a creating verb hands on the arguments it needs and takes that are given and not null; the updates hand on the fields to set, or the quantity |
| `MappedUndo.DeletingRestores` | src/nilscript/demo/pocketbase_nil_adapter/compensation.py:47-51 | committing a mapped reversal that deletes from the effect's collection takes the created record back and leaves the rest alone |
| `MappedUndo.OffsettingLeavesTheRecord` | src/nilscript/demo/pocketbase_nil_adapter/compensation.py:20-25 | one that creates a record elsewhere leaves the effect's own record as it is |
| `MappedUndo.OnlyProductsAreTakenBack` | src/nilscript/demo/pocketbase_nil_adapter/compensation.py:17-28 | of the mapped effects exactly the creation of a product is taken back, and the others are offset |
| `EdgeRuns.ServeKeepsInv` | src/nilscript/demo/pocketbase_nil_adapter/edge.py:157-429 | every request keeps the invariant; no commit meets a proposal it cannot translate and no minted token is irreversible |
| `EdgeRuns.RunsKeepInv` | src/nilscript/demo/pocketbase_nil_adapter/edge.py:218-349 | in every reachable state mutations = ledger keys = events = sum of counters, each workspace's events numbered 1 to n, each key written once |
| `EdgeRuns.ReplaysChangeNothing` | src/nilscript/demo/pocketbase_nil_adapter/edge.py:224-226 | after an executed commit, every later one under its key changes nothing and gets the original receipt |
| `EdgeRuns.NoSilentWrite` | src/nilscript/demo/pocketbase_nil_adapter/edge.py:164-204 | whenever the store changes, a COMMIT did it, of a proposal previewed earlier in the run, inside one collection DESCRIBE advertises |
| `EdgeRuns.StatusIsTruthful` | src/nilscript/demo/pocketbase_nil_adapter/edge.py:370-383 | executed exactly when a write carried the proposal out, pending exactly when it was only previewed |
| `EdgeCommits.OneWritePerExecutedKey` | src/nilscript/demo/pocketbase_nil_adapter/edge.py:223-230 | over any run, the writes carrying out a proposal are as many as the keys under which a commit of it was executed |
| `EdgeCommits.OneKeyWritesOnce` | src/nilscript/demo/pocketbase_nil_adapter/edge.py:224-226 | a proposal whose commits all use one key is carried out at most once |
| `EdgeCommits.OneProposalTwoKeys` | src/nilscript/demo/pocketbase_nil_adapter/edge.py:223-230 | two executed commits of a proposal carry it out twice |
| `EdgeCommits.UnhinderedIsCarriedOut` | src/nilscript/demo/pocketbase_nil_adapter/edge.py:236-241 | a commit of a create without an id, under an unused key with a free id, is executed and adds a record, however often the proposal was committed before |
| `EdgeUndo.UndoRestores` | src/nilscript/demo/pocketbase_nil_adapter/edge.py:231-282 | committing the reversal gives back the record and leaves the rest alone exactly when it can be had back: after a create; after a delete whose before-image was read; after an id-keeping update of present fields whose before-image was read, or that changed nothing |
| `EdgeUndo.UndoingTheUndoRedoes` | src/nilscript/demo/pocketbase_nil_adapter/edge.py:231-282 | rolling back the reversal leaves the record it wrote as it found it, which is as the effect first left it unless a delete's before-image was lost |
| `EdgeUndo.MovedRecordIsNotRestored` | src/nilscript/demo/pocketbase_nil_adapter/edge.py:249-251 | after an update that changed the id the reversal finds no record and fails |
| `EdgeUndo.MovedUndoGoesByIdentifier` | src/nilscript/demo/pocketbase_nil_adapter/edge.py:241-251 | where the old id names one record some other way, that record is overwritten and moved under the old id; only if it is the moved record itself does that undo the update |
| `EdgeUndo.RollbackThenCommit` | src/nilscript/demo/pocketbase_nil_adapter/edge.py:385-405 | the same through the requests: ROLLBACK writes nothing, and committing its preview restores exactly when the record can be had back |
| `KernelOnEdge.RunsCommitUnderTheirKeys` | src/nilscript/kernel/executor.py:172-207 | every commit of an admitted run, forward or back, goes under one of the two keys of one of its actions |
| `KernelOnEdge.SchedulesCommitUnderTheirKeys` | src/nilscript/kernel/executor.py:172-207 | and so under every interleaving, at every point and through the unwinding |
| `KernelOnEdge.AtMostTwoWritesPerAction` | src/nilscript/kernel/graph.py:33-36 | however often a node is visited or the run repeated, the edge writes at most once forward and once in compensation per action |
| `Registry.RegisterKeepsChain` | src/nilscript/controlplane/store.py:596-653 | versions stay 1 to n, each superseded by the next and differing from it; one version more exactly when the hash changed |
| `Registry.NewVersionIsAsDefined` | src/nilscript/controlplane/store.py:628-653 | a plan with another hash becomes the latest version in everything as defined, the one before it is archived, and no other changes |
| `Registry.OneStateIsSet` | src/nilscript/controlplane/store.py:697-732 | setting a version's state sets that one's and leaves everything else |
| `Registry.ArmingOldVersions` | src/nilscript/controlplane/store.py:697-732 | a state change keeps "only the latest is active" exactly when it does not arm an existing older version |
| `Registry.TriggerEditIsIgnored` | src/nilscript/controlplane/store.py:611-626 | the same plan with another trigger is no new version |
| `Dispatch.StepsKeepInv` | src/nilscript/automation/dispatch.py:60-152 | every atomic step of any firer, registration or state change keeps the invariant and moves runs only forward |
| `Firings.FirersGoByTheLatest` | src/nilscript/automation/dispatch.py:60-80 | a firer goes on with the latest version exactly when that is active, and composed if fired as composed, and otherwise answers why not |
| `Firings.FirersRunThePlan` | src/nilscript/automation/dispatch.py:81-152 | it opens a run under the version it read unless there is one, calls the runner with that version's plan or fails when a composed plan does not parse, and closes the run as that came out |
| `Firings.HistoriesKeepInv` | src/nilscript/automation/dispatch.py:85-101 | under any interleaving the runner is called at most once per run id, with the plan of the version the run pins |
| `Firings.HistoriesGoForward` | src/nilscript/controlplane/store.py:735-763 | a run keeps its pin for ever and leaves `running` at most once; a version's plan, hash and trigger never change |
| `Firings.RunsPinArmedVersions` | src/nilscript/automation/dispatch.py:75-92 | every run pins a version that was the latest and active when its firer read it |
| `Firings.RunIdDetermines` | src/nilscript/automation/dispatch.py:86 | a run id determines automation id, version and fire key, and nothing else |
| `Firings.OtherWorkspaceIsTakenForAReplay` | src/nilscript/automation/dispatch.py:85-92 | a fire in one workspace is answered as a replay of another workspace's run |
| `Origins.RunsComeFromFirers` | src/nilscript/automation/dispatch.py:85-92 | in any history every run was opened for a launched firer, and its id is made of that firer's automation id, the pinned version and the firer's key |
| `Origins.ReplaysAreOwnRunsExactly` | src/nilscript/automation/dispatch.py:85-92 | a firer that finds its run there is answered as a replay of its own automation's run exactly when no other workspace's automation of that id opened it first |
| `Scheduler.LoneFireIsASchedule` | src/nilscript/automation/dispatch.py:60-101 | a fire nothing comes in between of is one schedule of the interleaved machine |
| `Scheduler.ScheduledRunsAreSpaced` | src/nilscript/automation/scheduler.py:54-73 | interval runs start at least the interval after every earlier run of their automation |
| `Scheduler.OneCronRunPerMinute` | src/nilscript/automation/triggers.py:103-109 | however ticks overlap, of the firers they launch within a minute of a cron schedule at most one opens a run of any one version, and it calls the runner at most once |
| `Triggers.MatchesField` | src/nilscript/automation/triggers.py:30-47 | the loop over a field's parts finds whether one of them hits the value |
| `Triggers.FieldMeansItsItems` | src/nilscript/automation/triggers.py:30-47 | a field written from a list of items, each a range with an optional step, matches exactly the values that one of them names |
| `Triggers.MalformedPartIsPassedOver` | src/nilscript/automation/triggers.py:43-44 | a malformed part matches nothing and hides none of the others |
| `Triggers.CronMeansItsFields` | src/nilscript/automation/triggers.py:50-68 | an expression matches a minute exactly when all five fields name it, Sunday being 0 and 7 |
| `TriggerFires.CronFiresInItsMinutes` | src/nilscript/automation/scheduler.py:54-73 | a tick fires an automation armed with an expression exactly in the minutes its fields name, once each |
| `TriggerFires.IntervalFiresWhenRested` | src/nilscript/automation/triggers.py:90-94 | a tick starts an automation armed with an interval exactly when no run of it is on record or every one started at least the interval ago; it opens the run of the latest version under that second's key |
| `TriggerFires.CronFiresOncePerMinute` | src/nilscript/automation/triggers.py:82-88 | one armed with an expression exactly when its fields name the minute and no run on record started in it or after |
| `TriggerFires.OthersDoNotTick` | src/nilscript/automation/scheduler.py:60-63 | a tick does nothing for an automation fired by hand or by events |
| `TriggerFires.FireOpens` | src/nilscript/automation/dispatch.py:60-101 | a lone fire opens the run of the latest version under its key and closes it with what the runner came to, unless none is armed or it has run, and answers which it was |
| `Triggers.MatchesEvent` | src/nilscript/automation/triggers.py:16-27 | an event matches when kind and verb agree and each field asked for has its value in the arguments or the body |
| `TriggerFires.FiltersFindTheirFields` | src/nilscript/automation/triggers.py:16-27 | a filter asks for an event exactly when kind and verb agree and each field has the value among the arguments or in the event; one given in neither is had by a filter for null only |
| `TriggerFires.FilterFiresOnItsEvents` | src/nilscript/automation/scheduler.py:35-50 | a delivery fires an automation armed with an event filter exactly on the events of its workspace that the filter asks for |
| `TriggerFires.FilterOpensItsRun` | src/nilscript/automation/scheduler.py:35-50 | on such events of its workspace a delivery opens the run of the latest version under the event's id, and otherwise does nothing |
| `Events.DeliveryIsExact` | src/nilscript/automation/scheduler.py:31-51 | whatever the registry, a delivery opens exactly the missing runs of the latest armed versions of the listed automations that ask for the event, and none for an event the control plane caused |
| `Events.RedeliveryChangesNothing` | src/nilscript/automation/triggers.py:97-100 | an event delivered again changes nothing exactly when every run it now calls for is there already |
| `Events.DeliveredTwiceIsOnce` | src/nilscript/automation/triggers.py:97-100 | with nothing in between a second delivery leaves everything as the first left it |
| `Events.AskersAreRun` | src/nilscript/controlplane/store.py:697-705 | every armed version that asks is the version that is run exactly when no version older than the latest is armed |
| `Events.OlderVersionIsNotRun` | src/nilscript/automation/dispatch.py:66-86 | an older version armed again asks in vain: its own run is not opened |
| `Events.VisitIsExact` | src/nilscript/automation/scheduler.py:58-72 | a tick's visit opens the latest armed version's run under the due version's key, and nothing else |
| `Events.TickOnlyAdds` | src/nilscript/automation/scheduler.py:54-73 | over a whole tick no run changes and only such runs of listed automations are opened |
| `Events.EventsAreToldApart` | src/nilscript/automation/triggers.py:97-100 | two events have separate runs exactly when their identities differ; all events without an id have one |
| `Events.OneRunPerEvent` | src/nilscript/automation/scheduler.py:31-51 | under any interleaving, of the firers deliveries launch for an event at most one opens a run of any one version, and it calls the runner at most once |
| `AutomationService.DispatchEvent` | src/nilscript/automation/scheduler.py:31-51 | scans the armed automations and does what the delivery function says |
| `AutomationService.ControlStore.RegisterAutomation` | src/nilscript/controlplane/store.py:596-653 | the table after a registration, and the row returned |
| `AutomationService.ControlStore.StartRun` | src/nilscript/controlplane/store.py:735-752 | opens a run unless the id is taken |
| `AutomationService.ControlStore.ActiveAutomations` | src/nilscript/controlplane/store.py:697-705 | exactly the armed versions |
| `AutomationService.FireManual` | src/nilscript/automation/dispatch.py:60-101 | gate, pin, open, run, close, as a lone fire |
| `AutomationService.RunDueSchedules` | src/nilscript/automation/scheduler.py:54-73 | scans the armed automations and does what the tick function says |
| `RunRecords.AdmittedRunsAreRecordedWell` | src/nilscript/automation/dispatch.py:36-45 | a run of an admitted program is never recorded as partial, and what is recorded is what happened |
| `RunRecords.ScheduledRunsAreRecordedWell` | src/nilscript/automation/dispatch.py:36-45 | and so is a run whose branches interleaved in any other order |
| `ReadPlane.ParseFilter` | src/nilscript/dataplane/__init__.py:76-98 | refused exactly when a clause is malformed; otherwise every clause becomes one predicate, in order |
| `ReadPlane.ClausesAreTakenAsWritten` | src/nilscript/dataplane/__init__.py:76-98 | a clause is accepted exactly when its operator is one of the ten, with a pair to lie between and a list to be in |
| `Filters.MatchesRow` | src/nilscript/dataplane/engine.py:339-364 | whether every predicate holds of the row; otherwise the first that does not decides between false and a type error |
| `Filters.ComparisonsAgree` | src/nilscript/dataplane/engine.py:344-361 | of two comparable values exactly one of less, equal and greater holds, and the six operators agree on which |
| `Filters.RangesAndLists` | src/nilscript/dataplane/engine.py:352-363 | `between` is both weak comparisons and `in` is equality with one of the list |
| `Filters.AbsentFields` | src/nilscript/dataplane/engine.py:342-363 | a row without the field passes no comparison and equals null only |
| `Filters.NumbersAreFiltered` | src/nilscript/dataplane/engine.py:344-361 | of numbers the six comparing operators say how the numbers compare |
| `Filters.TextsAreFiltered` | src/nilscript/dataplane/engine.py:344-361 | of texts, by their first difference |
| `Filters.TextIsSearched` | src/nilscript/dataplane/engine.py:346-363 | `contains` and `ilike` look for the operand's text anywhere in the field's, `in` a text for the value; an unknown operator lets everything through |
| `ReadPlane.AuthorizeFields` | src/nilscript/dataplane/engine.py:179-195 | the requested fields that may be returned, in order, and those redacted for want of a grant |
| `ReadPlane.GrantsAreNeededExactly` | src/nilscript/dataplane/engine.py:179-195 | sensitive fields go out only where granted exactly when there is a grant list or no returnable field asked for is sensitive |
| `ReadPlane.SensitiveFieldWithoutGrant` | src/nilscript/dataplane/engine.py:190-194 | a sensitive field asked for without any grant is returned and not redacted |
| `ReadPlane.ReturnedOrRedacted` | src/nilscript/dataplane/engine.py:186-195 | each returnable field asked for is either returned or redacted, as often as asked |
| `ReadPlane.ProjectionShows` | src/nilscript/dataplane/engine.py:301-309 | a row is shown with its id and the fields asked for, as far as it has them, and nothing else |
| `ReadPlane.CursorRoundTrip` | src/nilscript/dataplane/engine.py:139-150 | a cursor gives back its id exactly when that is an integer or a text that is not empty and that `int` does not read |
| `Numerals.BlanksAndPlusDoNotMatter` | src/nilscript/dataplane/engine.py:147-150 | blanks around an integer and a plus sign before it do not matter |
| `ReadPlane.JoinedIdComesBackAsANumber` | src/nilscript/dataplane/engine.py:147-150 | two groups of digits joined by an underscore come back as one number |
| `Paging.FallbackAgrees` | src/nilscript/dataplane/engine.py:325-337 | the edge filter refuses exactly when more rows than the bound lie past the cursor; otherwise, where the rows handed over get the verdicts of the rows themselves, it gathers what a filtering backend would |
| `Paging.PageAtCursor` | src/nilscript/dataplane/engine.py:289-314 | the page after k matches is the next `limit` of them, with a cursor exactly when more follow |
| `Paging.RowsAreThosePassing` | src/nilscript/dataplane/engine.py:289-314 | the rows found are exactly those past the key that pass every predicate, in the order of their keys |
| `Paging.ListingIsComplete` | src/nilscript/dataplane/engine.py:289-314 | following the cursors shows every matching row once, in order and projected |
| `Paging.PageCountIsLeast` | src/nilscript/dataplane/engine.py:307-311 | the number of pages is max(1, ceil(n / limit)) |
| `Paging.ListingEnds` | src/nilscript/dataplane/engine.py:305-314 | the end is reached when no page is refused |
| `Paging.BoundIsDecidedByPageOne` | src/nilscript/dataplane/engine.py:331-335 | if page one is not refused for the bound, no later page is |
| `LeanRows.FallbackIsFaithfulExactly` | src/nilscript/dataplane/engine.py:331-337 | over lean rows the fallback agrees with a filtering backend on every table within the bound exactly when the filter's field is handed over or its operator decides alike for every value |
| `LeanRows.LeanVerdicts` | src/nilscript/dataplane/engine.py:339-364 | for a filter of several such predicates the edge's verdicts are those of the rows themselves |
| `LeanRows.UnseenRowIsLost` | src/nilscript/dataplane/engine.py:331-337 | a filter on a field not handed over loses a matching row where absence does not pass |
| `LeanRows.UnseenRowIsLetThrough` | src/nilscript/dataplane/engine.py:331-337 | and lets a row through that does not match where absence passes |
| `LeanRows.NotEqualLetsThrough` | src/nilscript/dataplane/engine.py:346-347 | `ne` lets a row through whose field has that very value |
| `Exporting.Stream` | src/nilscript/dataplane/engine.py:270-287 | the generator yields every row the backend finds, once and in order |
| `Exporting.UnfilteredStream` | src/nilscript/dataplane/engine.py:270-287 | over a backend that does not filter the stream is the filtered set exactly when every row matches |
| `Exporting.CountIsExactUpToTheBound` | src/nilscript/dataplane/engine.py:203-209 | where the rows handed over get the verdicts of the rows themselves the approximate count over a filtering backend is the exact one cut off at the bound |
| `Exporting.UnfilteredCount` | src/nilscript/dataplane/engine.py:203-209 | over a backend that does not filter it is the number of matches among the first rows, one more than the bound, cut off at the bound |
| `LeanRows.FilteredCountIsExactly` | src/nilscript/dataplane/engine.py:203-209 | over a lean backend that filters the count is exact exactly when the filter looks at the id, absence passes it, or nothing does |
| `LeanRows.UnfilteredCountIsExactly` | src/nilscript/dataplane/engine.py:203-209 | over one that does not, exactly when the filter looks at the id or its operator decides alike for every value |
| `LeanRows.UnseenCountIsAllOrNothing` | src/nilscript/dataplane/engine.py:205-209 | otherwise the count is every row up to the bound or none |
| `Breaker.CircuitBreaker.RecordFailure` | src/nilscript/sdk/breaker.py:48-54 | re-opens when half-open, else counts and opens at the threshold |
| `Breaker.Transport.Request` | src/nilscript/sdk/transport.py:69-102 | the retry loop does what the request function says, driving the breaker |
| `Breaker.RequestsKeepPace` | src/nilscript/sdk/breaker.py:33-54 | the breaker is closed exactly while failures are below the threshold, and later failures are a recovery time apart |
| `Breaker.RequestsAreShort` | src/nilscript/sdk/transport.py:73-102 | a request sends at most one attempt more than its retries and none when the breaker is open |
| `Breaker.RequestsRecover` | src/nilscript/sdk/transport.py:69-102 | a request sends attempts while they fail, and ends with the first reply that does not, closing the breaker if the server answered, or with the last failure, or where the breaker is shut; it sends none exactly within the recovery time after the stamp |
| `Breaker.OutageIsBounded` | src/nilscript/sdk/transport.py:69-102 | when every attempt fails, attempts sent are at most the threshold plus the whole recovery times since the first trip |
| `Manifests.MergeOverrides` | src/nilscript/cli/manifest/__init__.py:178-201 | the loops lay each override over what the earlier ones left |
| `MergeWinners.LastScalarWins` | src/nilscript/cli/manifest/__init__.py:178-201 | a scalar of the merged manifest is that of the last override to give one that is not empty, and the base's if none does |
| `MergeWinners.LastVerbScalarWins` | src/nilscript/cli/manifest/__init__.py:216-220 | so is a scalar of a verb's entry |
| `MergeWinners.LastInstanceWins` | src/nilscript/cli/manifest/__init__.py:214-215 | an instance value is that of the last override to have one |
| `MergeWinners.VerbsAreCollected` | src/nilscript/cli/manifest/__init__.py:193-195 | the merged manifest has the verbs of the base and of every override |
| `MergeWinners.RequirementsAreAdded` | src/nilscript/cli/manifest/__init__.py:204-213 | a verb's requirements and prerequisites begin with the base's as they were and go on with the first of each new identity |
| `MergeWinners.QuirksAreAdded` | src/nilscript/cli/manifest/__init__.py:196-226 | of the base's quirks the last of each name stays, and the override adds the first of each new name |
| `Manifests.MergeAssociatesExactly` | src/nilscript/cli/manifest/__init__.py:178-226 | merging is associative, whatever the base and the last override, exactly when of each name the middle manifest's first and last quirk are the same |
| `Manifests.MergeIsIdempotent` | src/nilscript/cli/manifest/__init__.py:178-226 | laying a manifest over itself changes nothing exactly when it names no quirk twice |
| `Manifests.MergeOnlyAdds` | src/nilscript/cli/manifest/__init__.py:229-278 | a diff from the base to the merge reports nothing removed, and as added exactly what the override brought |
| `Manifests.ChangedMeansAnotherOutline` | src/nilscript/cli/manifest/__init__.py:271-277 | `changed` exactly when verbs, identities, tiers or quirk names differ |
| `MergeWinners.ReportsTurnRound` | src/nilscript/cli/manifest/__init__.py:229-278 | a report names the old tier and the new where they differ, and turns round when the manifests do |
| `Bulk.RunBulk` | src/nilscript/dataplane/bulk.py:31-64 | the loop reports what the attempts came to |
| `Bulk.AttemptsAreAPrefix` | src/nilscript/dataplane/bulk.py:46-64 | the ids attempted are a beginning of the pending ones, all of them unless stopped, and it stops only where told to |
| `Bulk.RunsObey` | src/nilscript/dataplane/bulk.py:49-62 | no batch is attempted where the run is told to stop, nor after a failure that must not be skipped, and every batch but the last is full |
| `Bulk.ReportsAreTrue` | src/nilscript/dataplane/bulk.py:46-64 | a report tells of pending ids only; not stopped means all of them, and stopped that it was told to or a batch failed that must not be skipped |
| `Bulk.ReportedBatchesWereTried` | src/nilscript/dataplane/bulk.py:53-63 | what is reported checkpointed was applied and what is reported failed was not |
| `Bulk.ProcessedAndFailed` | src/nilscript/dataplane/bulk.py:53-63 | processed and failed are between them exactly what was attempted |
| `Bulk.SeriesAppliesOnce` | src/nilscript/dataplane/bulk.py:46-63 | over any series of resumed runs no id is applied successfully twice |

## Left out

- `Validator.Validate`: the V4 whitelist and the V5 argument-schema passes of the validator, and the wording,
  severity and order of diagnostics.
- `Kahn.TopologicalSort`: the initial queue is in arbitrary order, as the source's is; the theorems about the
  verdict hold for every order it could pop.
- `GuardText.EvaluateText`: ASCII texts only. The guards of programs (`Executor`, `Resolving`) stand as their
  tokens, and the references in a guard as those of its tokens; a guard whose text is not well written or has
  a call of `has` in a string is not among them.
- `Admission.AdmittedReferencesAreFound`: about the steps references name; what lies behind the name, the
  input, loop elements and compensations are in `Resolving`.
- `References.ReferenceRoundTrip`: ASCII words and digits only; Python's recursion limit and its limit on the
  digits of an integer are not modelled.
- `iter_references` is modelled as the set of sources; its order and the removal of duplicates are not.
- `Realizing.OtherSourcesAreMissed`: graphs without `parallel` nodes, because a branch of one may be unable to
  fail, so that not every path out of it need be takeable. The program that misses its source has the same
  graph as the given one and its own guards, lists and proposals, read from the input.
- `Resolving.AssuredReferencesAreFound`: enough but not needed where a program branches: its own guards may
  keep it off the ways that lack a source, a loop element may always have a field it is not known to have, and
  a compensation may only ever be undone after later steps.
- Notification texts are kept as resolved values; the text form of other values is not modelled. `wait` nodes
  pass at once, without time.
- `GuardEval.Parser.ParseWhole`: comparisons of floats are comparisons of reals, without rounding or
  infinities.
- Client exceptions are one kind of fault; what the client's own retries do is modelled in `Breaker` only, and
  back-off sleeps and jitter not at all.
- `StraightLines.UnassuredLinesCanMiss`: for run ids that are not empty, because the client takes no
  idempotency key under eight characters. Of what the client checks, `Client` has the ids, the keys, the
  object behind a query and the code of a refusal; verb patterns, enumerations of states and tiers, and
  previews are not modelled.
- `Prerequisites.PlanPrerequisites`: a carry is a pair of names; the arrow notation it is parsed from is not
  modelled. The oracle answers the same all through a plan.
- The edge's bearer check, envelopes, bilingual previews, tiers, timestamps and the HMAC of events.
- `Edge.FirstMissing` and the other gates: a target that is not a text is taken as undeclared; the source
  would fail on one that cannot be hashed.
- `Store.WritesKeepKeys`: the store is exact: no schema, no dropped or normalised fields and no server
  timestamps. A backend that refuses to change an id is a store that does not accept that update.
- `EdgeService.Resolve`: answers to searches are arbitrary rows; that the backend's filter finds what it
  should is not assumed.
- Errors other than the client's own `SystemError`, and failures of the read-back or of the emitter after a
  mutation.
- The manifest pre-fill of native records is an arbitrary function, and so are the text of a value and the
  test that a written value landed.
- SQL, locks and JSON columns: a store method is one atomic step on maps and sequences. `approved_by`, names
  and descriptions of automations are dropped.
- `Firings.HistoriesKeepInv`: a firer that crashes simply never moves again; its run stays `running`.
- `Scheduler.ScheduledRunsAreSpaced`: times are microseconds as whole numbers; ISO text, time zones and
  unreadable timestamps are not modelled.
- `Triggers.CronMeansItsFields`: an expression stands as the list of its fields, and the calendar is an
  arbitrary function.
- `ReadPlane.CursorRoundTrip`: `int` is that of ASCII texts (blanks around, a sign, digits with single
  underscores); other digits and the limit on their number are not modelled.
- `Events.DeliveryIsExact`: an envelope's id, workspace and grant are texts, and its body an object. One
  delivery is not interrupted there; `Events.OneRunPerEvent` allows any interleaving.
- The stages of composed automations are not modelled beyond the gate and the plan that may not parse.
- `Filters.MatchesRow`: a field name that cannot be hashed reads as absent; `str` and lower-casing are
  arbitrary functions. The paging theorems hold for whatever the operators mean, as long as backend and edge
  agree and no comparison raises.
- `Paging.ListingIsComplete`: the byte size of a page is an arbitrary function, and the base64 step of a
  cursor is the identity.
- Aggregation, `get`, export storage and the bulk-approval threshold.
- `Manifests.MergeAssociatesExactly`: key order and other members of a manifest are not modelled; nor are
  validation, sharing checks and the stripping of instance values.
- `Bulk.SeriesAppliesOnce`: a crash between applying a batch and checkpointing it is not modelled.