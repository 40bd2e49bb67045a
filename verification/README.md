# Event trigger model

This project models the trigger engine of the Kabanero events operator and proves properties of it:

- **The trigger language.** `pkg/trigger/trigger.go` interprets small programs written in YAML: `if`, `switch`,
  `body` and assignment statements whose expressions are CEL text, dotted assignment into nested maps, recursive
  user functions, and the built-in functions `call`, `filter`, `sendEvent`, `applyResources` and `kabaneroConfig`.
  A run has two stores: the variables, a Go map that is written in place and lives as long as the run, and the
  environment of declared names and types, a value that is dropped at the end of a block.
- **The job identifier allocator**, also in `trigger.go`: threads that share the last issued instant under a mutex.
- **The Kubernetes name normalisers** in `pkg/utils/kube_util.go`.
- **The secret selection loop** in `pkg/utils/kabanero_util.go`.

## How the model is built

`Semantics` gives every step of the interpreter as a function from a state (heap of maps, effect trace, counter of
outside choices) to a state and an outcome. `Interpreter.Processor` is the program in its own imperative form, with
fields that change in place and the loops of the source; each method is proved equal to the function of its step, so
everything proved about the functions holds of the program. The table below names the methods with loops and the
larger branching; the straight-line ones between them are proved in the same way. A map is a reference into the heap;
several slots, the message and a call parameter can hold the same map, and cycles are possible.

Every order in which Go may visit a map is covered: the order is a permutation picked by an arbitrary oracle, and
`Text.PermuteReachesEveryOrder` shows that no order is missing. What services answer comes from a second oracle.
`fuel` bounds the nesting of `call` and nothing else; `Determinacy`, `Termination` and `Divergence` say what it means.

What is assumed of the CEL library is written out in `Semantics`: `Extend` adds exactly one name or fails on a name
that is already declared (`redeclare` is the switch for a library that overwrites); checking rejects an undeclared
root and operands that cannot fit; `&&` is false when either side is false, and a false right side hides a failure on
the left; both operands of a binary function are evaluated; integers wrap around at 64 bits; a map value is the same
map object that the variable holds. Of `strings.ToLower` only `KubeNames.Lowers` is assumed: ASCII text is lower-cased
letter by letter, and no text becomes empty; other text may become any bytes.

| file | subject |
|---|---|
| Text, Values, Syntax | strings and visit orders; values and the heap; YAML objects and expressions |
| Semantics, Interpreter | the steps as functions; the program as a class |
| ExpressionLaws, StatementLaws | the steps, said independently: laws of operators, the type check, and what each statement does |
| Effects, Ownership | the effect trace; which maps a run may write |
| Determinacy, Termination, Divergence | what fuel means; which runs end; which never end |
| Scoping | declarations against values |
| DottedAssignment | assignment to a path on a heap with sharing |
| Renaming, Messages | the identity of maps does not matter; whole messages with several triggers |
| Purity, Steadiness | expressions without effects, whatever they call; expressions that always have the same outcome |
| Addresses, Planning, NewMaps, OrderIndependence | several assignments under one `if` |
| Preprocess, OrderExamples | a function that returns nested new maps; independent assignments |
| Filtering, Switching, RecursiveSum | the filter function; first match; the documented recursive function |
| KubeNames | domain names, label names and labels |
| Calendar, Timestamps | the identifier format; the allocator |
| Secrets | secret selection |

## Where the code differs from its description

- The comment of `ToDomainName` says that "0" is appended to a name that does not end with an alphanumeric character.
  From 252 bytes on the code drops two characters and adds one (`pkg/utils/kube_util.go:159`); `ToLabelName` does the
  same from 62 bytes on. The model follows the code.
- `ToLabel` prepares the name "nolabel" for an empty result and then returns the empty string
  (`pkg/utils/kube_util.go:241-242`). The model returns the empty string.
- `ToLabel` is not idempotent. With an empty name part the converted prefix is returned as the whole label, and read
  back it is a name; `KubeNames.LabelExactly` gives the exact condition.
- Reading a path back after assigning to it can fail when the walk goes through the slot that it writes:
  `DottedAssignment.ReadBackCanFail` is such a run (`a.b: a`, then `a.b.b: 1`), `DottedAssignment.ReadAfterAssign` says
  what is read on any map graph, `DottedAssignment.ReadBackExactly` gives the exact condition, and
  `DottedAssignment.ReadBack` is the law without cycles.
- Two filters are one filter by the conjunction only if the second predicate passes the type check; a second predicate
  that is never reached is never checked. `Filtering.ConjunctionCanFail` and `Filtering.MapConjunctionCanFail` are such
  runs, `Filtering.ConjunctionSucceedsExactly` and `Filtering.MapConjunctionSucceedsExactly` give the exact condition.
- The assignments of one object are visited in the order of a Go map, so their order can decide between success and
  failure: `OrderExamples.OrderCanMatter`. `OrderIndependence.OrdersAgree` says when it does not.
- A declared name can stop having its declared type if the environment accepts a second declaration:
  `Scoping.RedeclarationBreaksTypes` is such a run, `Scoping.ArrayScoped` the law without redeclaration.

## Model

| member | source | states |
|---|---|---|
| Interpreter.Processor.CountKeywords | pkg/trigger/trigger.go:177-191 | the number of keyword keys and which of them occur, as the keyword function of the object says |
| StatementLaws.KeywordsExactly | pkg/trigger/trigger.go:153-191 | the reserved words are `if`, `switch`, `default` and `body`: the count is the number of keys that are one of them, and each flag says that its word is a key |
| Interpreter.Processor.DryRun | pkg/trigger/trigger.go:193-202 | the run is dry if and only if some setting is true and no setting before it is a boolean |
| Interpreter.Processor.CreateOneVariable | pkg/trigger/trigger.go:732-770 | heap, declarations and failure of a dotted assignment: the walk is the recursive function on the remaining components, and a failure leaves the heap as it was |
| Interpreter.Processor.WalkComponents | pkg/trigger/trigger.go:741-767 | its loop: what is missing has been created and the root declared, so that the last component completes the assignment; a failure means that the whole assignment cannot succeed |
| Interpreter.Processor.FilterArray | pkg/trigger/trigger.go:1944-1958 | the loop over a list keeps the elements the predicate accepts, in order |
| Interpreter.Processor.FilterMapEntries | pkg/trigger/trigger.go:1930-1943 | the loop over a map, in any visit order, collects the accepted entries in a new map |
| Interpreter.Processor.ApplyResourcesCEL | pkg/trigger/trigger.go:1687-1772 | all templates are substituted before the first resource is created; creation stops at the first failure; failures become a string |
| Effects.SendExactly | pkg/trigger/trigger.go:1862-1893 | a malformed call of sendEvent fails and sends nothing, in a dry run it sends nothing and succeeds, and otherwise exactly one send to the destination is recorded and the call succeeds exactly when it is accepted |
| Effects.SendOperands | pkg/trigger/trigger.go:1826-1845 | destination, message and context are evaluated in this order, a failing one ends the call, and the first and the third are what is sent with |
| Effects.ApplyExactly | pkg/trigger/trigger.go:1687-1772 | a failing template or a dry run creates nothing; otherwise the resources are created in order up to the one that fails, and the answer is empty exactly when all were created |
| Effects.ApplyOperands | pkg/trigger/trigger.go:1687-1712 | both operands are evaluated, and the value of the first is the directory |
| Interpreter.Processor.EvalAssignment | pkg/trigger/trigger.go:475-519 | all entries of an object in the visit order, keywords skipped, stopping at the first failure |
| StatementLaws.PrimitiveIsText | pkg/trigger/trigger.go:494-509 | a YAML number or bool under any key is assigned as the text it is written with |
| StatementLaws.EntryKinds | pkg/trigger/trigger.go:485-513 | keys that are not strings, and values that are lists, objects or null, fail before anything is evaluated; the empty name is skipped |
| StatementLaws.ReservedSkipped | pkg/trigger/trigger.go:489-491 | an entry under a reserved word is skipped, whatever it holds |
| StatementLaws.TextAssigned | pkg/trigger/trigger.go:698-730 | a text that parses and checks is evaluated and its value stored in the state it leaves; otherwise nothing is stored, and a failing evaluation keeps its writes |
| StatementLaws.PlainStored | pkg/trigger/trigger.go:772-918 | a name without dots is declared with the kind of its value and bound to it; null and other kinds, and a declared name, fail |
| StatementLaws.Kinds | pkg/trigger/trigger.go:772-918 | the kinds of values that can be declared; null and other values have none |
| StatementLaws.LiteralStatement | pkg/trigger/trigger.go:412-473 | a statement such as `x: 1` or `x: true` declares x with the type of the literal and binds it |
| StatementLaws.InSomeOrder | pkg/trigger/trigger.go:481-517 | the entries of an object are assigned one after the other, in some order of them |
| StatementLaws.EntriesInTurn | pkg/trigger/trigger.go:481-517 | the assignments of one part of the order run first, and those of the rest only when they succeed |
| StatementLaws.IfStatement | pkg/trigger/trigger.go:536-592 | a malformed `if` fails at once, a failing condition fails it, a false one leaves it at that; a true one runs the guarded part, whose failure is its failure and whose declarations end with it |
| StatementLaws.IfChecked | pkg/trigger/trigger.go:541-556 | an `if` object is accepted exactly when its condition is a string and at most one other reserved word, `body` or `switch`, stands with it alone |
| StatementLaws.GuardedPart | pkg/trigger/trigger.go:574-591 | the guarded part is the body if there is one, else the switch, else the assignments |
| StatementLaws.BodyBlock | pkg/trigger/trigger.go:445-458 | a `body` block runs its list, fails if it is none, and its declarations end with it |
| StatementLaws.SwitchBlock | pkg/trigger/trigger.go:430-444 | a `switch` block runs as a switch, fails on anything but a list, and its declarations end with it |
| StatementLaws.DefaultElement | pkg/trigger/trigger.go:626-638 | an element of a switch is a default exactly when it is the word alone with a list |
| StatementLaws.NoStatement | pkg/trigger/trigger.go:414-470 | what is no object, a `default` outside a switch, a block that does not stand alone, and several assignments without an `if` fail |
| Interpreter.Processor.EvalSwitch | pkg/trigger/trigger.go:594-650 | the cases one after the other, the default kept for the end |
| Interpreter.Processor.EvalArrayObject | pkg/trigger/trigger.go:412-473 | the statements one after the other, each with the declarations of those before |
| StatementLaws.Sequence | pkg/trigger/trigger.go:412-473 | a list is its first statement and then the rest, with the declarations and the state it leaves; a failure ends the list |
| Interpreter.Processor.ProcessMessage | pkg/trigger/trigger.go:350-400 | all triggers of the event source in order, each in a frame that holds only the message |
| Messages.MessageExactly | pkg/trigger/trigger.go:350-400 | a message succeeds exactly when its event source has triggers and each of them has an input name and a body that succeeds, in a new frame that binds its own input name to the message, in the state the earlier bodies left; the returned frames are these, in order, as each body left them |
| Messages.InputStaysBound | pkg/trigger/trigger.go:686-693 | in every frame that a message returns, the input name of its trigger is still bound to the message |
| ExpressionLaws.TypeSound | pkg/trigger/trigger.go:698-720 | a checked expression that has a value in a frame that fits the declarations has one of its type |
| ExpressionLaws.OperatorChecked | pkg/trigger/trigger.go:698-720 | the check rejects an operator exactly when no values of the operands' types are operands of it |
| ExpressionLaws.BoolsChecked | pkg/trigger/trigger.go:1108-1120 | where bools are needed, a part is rejected exactly when it cannot be one |
| ExpressionLaws.FunctionsChecked | pkg/trigger/trigger.go:1544-1970 | the functions need a string first; their other operands only have to check |
| ExpressionLaws.PathChecked | pkg/trigger/trigger.go:698-720 | an undeclared root is rejected wherever it is read, and so is a component of what cannot be a map |
| ExpressionLaws.Paths | pkg/trigger/trigger.go:698-720 | a path reads the variable and then one component after the other |
| ExpressionLaws.Integers | test_data/trigger8/trigger8.yaml:8-17 | integers are added up to a multiple of 2^64, subtraction undoes addition, and the order is that of the numbers |
| ExpressionLaws.Concatenation | pkg/trigger/trigger.go:698-720 | strings and lists are joined, the left operand first |
| ExpressionLaws.LeqIsOrder | pkg/trigger/trigger.go:1108-1132 | on each ordered kind `<=` is a total order with the equality `==` |
| ExpressionLaws.LeqDirection | pkg/trigger/trigger.go:1108-1132 | strings are ordered by their first difference, prefixes come first, and false is below true |
| ExpressionLaws.Doubles | pkg/trigger/trigger.go:772-790 | doubles are added, subtracted and compared as real numbers |
| ExpressionLaws.Equality | pkg/trigger/trigger.go:1108-1132 | equality holds of equal values only, and values of different kinds cannot be operands together |
| ExpressionLaws.Literals | pkg/trigger/trigger.go:494-509 | a literal denotes itself |
| ExpressionLaws.KnownTypes | pkg/trigger/trigger.go:698-720 | the type the check finds: that of the operands of an arithmetic operator, bool for comparisons, string for the two effects, a map for the configuration |
| ExpressionLaws.FilterNeedsCollection | pkg/trigger/trigger.go:1904-1922 | a filter fails on what is neither a list nor a map |
| ExpressionLaws.Conjunctions | pkg/trigger/trigger.go:1108-1132 | a false left side decides alone; otherwise both are evaluated, and a false right side hides a failure on the left |
| ExpressionLaws.Conditions | pkg/trigger/trigger.go:1108-1132 | an empty condition holds; any other must parse, check and give a bool, which is its verdict |
| ExpressionLaws.Calls | pkg/trigger/trigger.go:1544-1590 | an unknown or nameless function fails after its operands; a declared one is run on the parameter |
| ExpressionLaws.CallReturns | pkg/trigger/trigger.go:1544-1647 | a call succeeds exactly when its body does and leaves an output variable of a declarable kind, whose value it returns; without input name, output name or list body it fails before anything runs |
| Scoping.CreateVariableScoped | pkg/trigger/trigger.go:732-918 | without redeclaration, one assignment keeps every declared name declared with its type and bound to the very value it had, and every name it declares is bound to a value of its type |
| Scoping.ArrayScoped | pkg/trigger/trigger.go:412-473 | through any statements, also when they fail or are cut off, every name declared in a block still open stays bound to the value it had, which has its declared type, for a library that refuses redeclaration |
| Scoping.TriggerScoped | pkg/trigger/trigger.go:674-696 | the same for a whole trigger on any message |
| Scoping.RedeclarationBreaksTypes | pkg/trigger/trigger.go:448-458 | from any environment, a run in which the agreement breaks when redeclaration overwrites |
| Scoping.ArrayDeclares | pkg/trigger/trigger.go:412-473 | the declared names after a list are those before it and the roots that its own plain assignments introduce, exactly |
| Scoping.UndeclaredStaysUndeclared | pkg/trigger/trigger.go:741-769 | a root that an inner block created never becomes declared by later dotted assignments |
| Scoping.OutputAlwaysConverts | pkg/trigger/trigger.go:1631-1646 | after a successful function body the conversion of the output variable cannot fail and gives the value itself |
| Text.JoinSplit | pkg/trigger/trigger.go:737 | the components of a dotted name, joined with dots, are the name |
| DottedAssignment.AssignWritesOneSlot | pkg/trigger/trigger.go:737-769 | a successful dotted assignment writes one slot of one existing map and creates the chain of missing maps; every other slot is unchanged |
| DottedAssignment.AssignFailsExactly | pkg/trigger/trigger.go:756-763 | it fails exactly when a component on the way is present and not a map |
| Scoping.AssignMissing | pkg/trigger/trigger.go:741-756 | once a component is missing the walk cannot fail any more |
| DottedAssignment.ReadAfterAssign | pkg/trigger/trigger.go:737-769 | what reading the path gives after a successful assignment, on any map graph: the value, unless the walk goes through the written slot; then the rest of the path, read from the value |
| DottedAssignment.ReadBackExactly | pkg/trigger/trigger.go:737-769 | a value that is not a map is read back if and only if the walk does not go through the written slot |
| DottedAssignment.ReadBackCanFail | pkg/trigger/trigger.go:737-769 | two statements on a map variable that succeed, after which the assigned path cannot be read |
| DottedAssignment.ReadBack | pkg/trigger/trigger.go:737-769 | on an acyclic map graph, reading the path after the assignment always gives the value |
| DottedAssignment.AcyclicExactly | pkg/trigger/trigger.go:737-769 | the map graph stays acyclic exactly when the value does not lead back to the written map |
| Ownership.AssignAtKept | pkg/trigger/trigger.go:737-769 | the frame rule for the walk: only maps of the region and the frame are written |
| Ownership.ExprKept | pkg/trigger/trigger.go:1544-1970 | evaluating any expression writes maps of a closed region only, so not the evaluating frame when it lies outside the region, and never takes an effect back |
| Ownership.CallKept | pkg/trigger/trigger.go:1617-1646 | the same for a call: it writes maps of the region only, so not the frame of a caller outside it |
| Ownership.ArrayKept | pkg/trigger/trigger.go:412-473 | the frame rule for statements: writes stay in the region, keys are never removed, a dry run adds no effect, the trace stays licensed |
| Messages.CallSparesCaller | pkg/trigger/trigger.go:1617-1633 | a call leaves the caller's top-level bindings as they were |
| Messages.MessageOwnership | pkg/trigger/trigger.go:369-400 | a map that existed before and is not reachable from the message is not written by processing the message |
| Messages.DryRunHasNoEffects | pkg/trigger/trigger.go:193-202 | when the first boolean dryrun setting is true, no program on any message sends or creates anything |
| Messages.MessageLicensed | pkg/trigger/trigger.go:350-400 | whatever a message does, the trace only grows and remains a sequence of sends and of in-order prefixes of directories |
| Messages.SavedInOrder | pkg/trigger/trigger.go:369-399 | one frame per trigger in order, each as its trigger, run on the heap the earlier ones left, finished it; later triggers do not touch it |
| Messages.MessageComposition | pkg/trigger/trigger.go:350-400 | the same for a whole successful message |
| Messages.KthTriggerAlone | pkg/trigger/trigger.go:369-399 | the k-th trigger of a message: when the earlier ones wrote nothing reachable from the message, the frame saved for it corresponds to the one it would reach on the original heap |
| Renaming.RelArray | pkg/trigger/trigger.go:412-473 | runs from states that correspond under a one-to-one renaming of references have corresponding outcomes and states |
| Effects.ApplyLicensed | pkg/trigger/trigger.go:1736-1772 | the trace remains a sequence of sends and of in-order prefixes of directories |
| Determinacy.ArrayMore | pkg/trigger/trigger.go:412-473 | a run that was not cut off is the same with any larger bound on nested calls |
| Determinacy.MessageDeterminate | pkg/trigger/trigger.go:350-400 | any two sufficient bounds give the same result of a message |
| Termination.FunctionEnds | pkg/trigger/trigger.go:1544-1647 | a function of a ranked program is not cut off when the bound exceeds its rank |
| Termination.ArrayEnds | pkg/trigger/trigger.go:412-473 | statements whose calls all go to functions of rank below the bound are not cut off |
| Termination.MessageEnds | pkg/trigger/trigger.go:350-400 | if every call goes to a function of smaller rank, every message is answered |
| Termination.SelfCallNeverEnds | pkg/trigger/trigger.go:1626-1630 | the simplest loop: a function whose first statement hands its own input on to itself is cut off under every bound, in any state |
| Divergence.NeverEnds | pkg/trigger/trigger.go:1544-1647 | a family of calls, each of which must come to another call of the family, in any statement and in any expression, predicates of filters included, never ends: every member is cut off under every bound |
| Divergence.CycleNeverEnds | pkg/trigger/trigger.go:1544-1647 | functions of a set that call each other without a condition, wherever in an expression the call must be evaluated and after any statements that do not fail, with arguments that stay in a class of values, are cut off under every bound |
| Divergence.PingPongNeverEnds | pkg/trigger/trigger.go:1544-1647 | such a set of two functions, one of which calls below a `!` after another statement |
| Divergence.CountdownCarries | test_data/trigger8/trigger8.yaml:8-17 | the argument `n - i` of an integer n is always an integer, so it may be the argument of such a call |
| RecursiveSum.EndlessSum | test_data/trigger8/trigger8.yaml:8-17 | the recursive function without its stop case is cut off under every bound, for every 64-bit argument |
| OrderIndependence.OrdersAgree | pkg/trigger/trigger.go:481-517 | any two orders of independent assignments fail alike, or give the same declarations and the same maps up to the references of new ones; the expressions may call functions and give values with new maps that refer to each other in any way |
| OrderIndependence.AssignmentOrderIrrelevant | pkg/trigger/trigger.go:589-591 | the same for the object of an `if` under two arbitrary iteration orders of its map |
| OrderIndependence.RunOrder | pkg/trigger/trigger.go:481-517 | what the entries visited so far have stored, created and declared is described by their set, whatever their order was |
| NewMaps.LinkChunk | pkg/trigger/trigger.go:481-517 | the value of an expression, at whatever references its new maps were allocated, corresponds to the same value in the heap where the new maps of all entries have fixed places |
| NewMaps.Through | pkg/trigger/trigger.go:481-517 | two runs whose maps correspond to two heaps that correspond have corresponding maps, the old ones in place |
| Planning.StoreHeap | pkg/trigger/trigger.go:741-769 | after any independent entries, one more adds exactly its value at its target and the missing maps on its way |
| Addresses.Insert | pkg/trigger/trigger.go:741-769 | an assignment below an existing map adds exactly its value and the maps on its path to the description by addresses |
| OrderExamples.SimpleIndependent | pkg/trigger/trigger.go:481-517 | for reads and operators independence is a matter of slots: no entry reads or walks through what another writes |
| OrderExamples.PlainIndependent | pkg/trigger/trigger.go:481-517 | different new variables whose expressions are steady and do not name them are independent, in any environment |
| OrderExamples.CallsIndependent | pkg/trigger/trigger.go:481-517 | an object with two calls of the recursive sum and a `kabaneroConfig` is independent |
| OrderExamples.NestedIndependent | test_data/sandbox/sample2/triggers/github.yaml:47-72 | two calls that build nested new maps from messages are independent |
| OrderExamples.SharedRootIndependent | pkg/trigger/trigger.go:741-756 | assignments that create the same missing map are independent |
| OrderExamples.OrderCanMatter | pkg/trigger/trigger.go:481-517 | without independence one order succeeds and another fails, in any environment that does not declare the two names |
| Purity.SimpleEffectFree | pkg/trigger/trigger.go:1108-1132 | a condition of reads and operators has no effect, when it does not read what may be written in the meantime |
| Steadiness.SimpleSteady | pkg/trigger/trigger.go:698-730 | an expression of reads and operators always has the same value, when it does not read what may be written in the meantime |
| Steadiness.NotSteady | pkg/trigger/trigger.go:698-730 | the negation of a steady operand is steady, failures included |
| Steadiness.AndSteady | pkg/trigger/trigger.go:698-730 | the conjunction of steady operands without new maps is steady, failures included |
| Steadiness.BinSteady | pkg/trigger/trigger.go:698-730 | an operator on steady operands without new maps is steady, also when the operands are calls |
| Preprocess.PreprocessSteady | test_data/sandbox/sample2/triggers/github.yaml:47-72 | a call of a function that builds a nested map from a message, one part of it a filter, always returns the same three new maps up to their references, and writes nothing else |
| Purity.ConjunctionVerdict | pkg/trigger/trigger.go:1108-1132 | the conjunction of two conditions without effects has none, and its verdict in terms of theirs |
| RecursiveSum.SumAtMostEffectFree | pkg/trigger/trigger.go:1904-1970 | the predicate `call("sum", value) <= bound` has no effect, and its verdict on every integer for which the calls fit the bound |
| RecursiveSum.SumSteady | pkg/trigger/trigger.go:1544-1647 | the call `call("sum", n)` has the same value wherever and whenever it is evaluated |
| Filtering.ListFilter | pkg/trigger/trigger.go:1944-1958 | for any collection expression and any predicate without effects, a list filter succeeds exactly when the predicate gives a bool on every element, and returns the subsequence on which it holds; no existing map is written |
| Filtering.MapFilter | pkg/trigger/trigger.go:1930-1943 | the same for a map, in any visit order: success exactly when the predicate gives a bool on every entry, and a new map with the restriction |
| Filtering.ListFilterIdempotent | pkg/trigger/trigger.go:1944-1958 | a second run of the same list filter on the result of the first succeeds and gives the same list |
| Filtering.MapFilterIdempotent | pkg/trigger/trigger.go:1930-1943 | a second run of the same map filter on the result of the first succeeds and keeps the same entries |
| Filtering.TwoFiltersAreOne | pkg/trigger/trigger.go:1944-1958 | two list filters that succeed keep what one filter by the conjunction keeps |
| Filtering.NestedListFilters | pkg/trigger/trigger.go:1904-1970 | the same run through the interpreter, as nested filter expressions |
| Filtering.TwoMapFiltersAreOne | pkg/trigger/trigger.go:1930-1943 | two map filters that succeed keep the entries that one filter by the conjunction keeps |
| Filtering.NestedMapFilters | pkg/trigger/trigger.go:1904-1970 | the same run through the interpreter, as nested filter expressions |
| Filtering.ConjunctionSucceedsExactly | pkg/trigger/trigger.go:1904-1970 | when both filters succeed on a nonempty list, the filter by the conjunction succeeds if and only if the second predicate checks |
| Filtering.ConjunctionCanFail | pkg/trigger/trigger.go:1904-1970 | filters of a list by `false` and then by an undeclared name succeed, the filter by their conjunction fails |
| Filtering.MapConjunctionSucceedsExactly | pkg/trigger/trigger.go:1904-1970 | when both filters succeed on a nonempty map, the filter by the conjunction succeeds if and only if the second predicate checks |
| Filtering.MapConjunctionCanFail | pkg/trigger/trigger.go:1904-1970 | on every nonempty map, filters by `false` and then by an undeclared name succeed, the filter by their conjunction fails |
| Filtering.ListFilterSteady | pkg/trigger/trigger.go:1944-1958 | a list filter over a steady collection is itself steady |
| Filtering.MapFilterSteady | pkg/trigger/trigger.go:1930-1943 | a filter of a map that is not written always gives a new map with the same entries |
| Switching.FirstMatch | pkg/trigger/trigger.go:594-650 | when the elements before it pass, a true condition makes its own part the result, and a malformed element or failing condition fails the switch |
| Switching.DefaultWhenAllPass | pkg/trigger/trigger.go:612-649 | the default, wherever it stands, runs when all elements were well formed and no condition held; without one nothing happens |
| Switching.LaterCasesIgnored | pkg/trigger/trigger.go:605-620 | elements after the deciding one have no influence |
| RecursiveSum.SumCorrect | test_data/trigger8/trigger8.yaml:8-17 | the recursive function returns the 64-bit sum of 1 to n for positive n and n otherwise, leaves existing maps alone and has no effects |
| RecursiveSum.SumInRange | test_data/trigger8/trigger8.yaml:8-17 | it returns n(n+1)/2 whenever that fits in 64 bits |
| RecursiveSum.TriangleClosed | test_data/trigger8/trigger8.yaml:8-17 | the sum of 1 to n in closed form |
| KubeNames.ToDomainName | pkg/utils/kube_util.go:106-160 | the loops compute conversion, collapsing of dots, truncation and repair, and the rewriting loop ends, for any lower-casing |
| KubeNames.ReplaceKeepsCollapse | pkg/utils/kube_util.go:138-140 | one round of replacing ".." leaves the collapsed form unchanged |
| KubeNames.LabelNameFinished | pkg/utils/kube_util.go:162-219 | the label name of any text, from the converted text: nothing but the last character is new, a text that fits and ends well stays, a short one gets a zero, and near the limit of 63 bytes at most two characters are lost |
| KubeNames.DomainNameFinished | pkg/utils/kube_util.go:97-160 | the same for the domain name, from the converted and collapsed text and with the limit of 253 bytes |
| KubeNames.ConvertedAt | pkg/utils/kube_util.go:111-135 | valid characters stay, others become dots, and a zero goes before a first character that is not alphanumeric |
| KubeNames.Lowercase | pkg/utils/kube_util.go:108 | ASCII lower-casing takes each upper-case letter to its lower-case one and leaves the rest |
| KubeNames.CollapseRuns | pkg/utils/kube_util.go:138-140 | a run of dots becomes one dot, a text without two dots in a row stays, and texts whose dots do not meet are collapsed independently |
| KubeNames.Classes | pkg/utils/kube_util.go:106-135 | the character classes, spelled out |
| KubeNames.SplitExactly | pkg/utils/kube_util.go:224-234 | the prefix is what stands before the first slash, and the name what stands after it |
| KubeNames.RepairValid | pkg/utils/kube_util.go:142-160 | the repair at the end, which drops two characters and adds one near the limit, leaves valid characters, alphanumeric ends, no new "..", and at most the maximum length |
| KubeNames.AsciiLowers | pkg/utils/kube_util.go:108 | what is assumed of lower-casing holds of lower-casing the ASCII letters only |
| KubeNames.DomainNameValid | pkg/utils/kube_util.go:97-160 | every byte string is converted to a valid domain name, which is empty for the empty string only, whatever lower-casing does to text that is not ASCII |
| KubeNames.DomainNameFixed | pkg/utils/kube_util.go:97-160 | the fixed points are exactly the valid domain names |
| KubeNames.ToLabelName | pkg/utils/kube_util.go:169-219 | the loop computes conversion, truncation and repair |
| KubeNames.LabelNameValid | pkg/utils/kube_util.go:162-219 | every byte string is converted to a valid label name |
| KubeNames.LabelNameFixed | pkg/utils/kube_util.go:162-219 | the fixed points are exactly the valid label names |
| KubeNames.ToLabel | pkg/utils/kube_util.go:222-252 | the label is the converted prefix and the converted name joined |
| KubeNames.LabelExactly | pkg/utils/kube_util.go:222-252 | the result re-splits into converted prefix and name; it is valid and a fixed point exactly unless the name part is empty and the converted prefix is longer than 63 |
| KubeNames.LabelBounds | pkg/utils/kube_util.go:222-252 | the result is empty for "" and "/" only and never longer than 317 bytes |
| Timestamps.Allocator.GetTimestamp | pkg/trigger/trigger.go:1376-1390 | the first reading at least a tenth of a second after the last issued one is stored; the identifier is fifteen decimal digits that read as its date and time of day; until then the caller waits |
| Timestamps.CallerServed | pkg/trigger/trigger.go:1376-1390 | from any state in which the mutex is free, a thread that is not interrupted is given the first reading that is late enough and leaves the mutex free |
| Timestamps.StepKeepsInvariant | pkg/trigger/trigger.go:1376-1390 | every step of every thread keeps the mutex discipline and the spacing of issued instants |
| Timestamps.MutualExclusion | pkg/trigger/trigger.go:1377-1378 | at most one thread is between locking and unlocking |
| Timestamps.IdentifiersIncrease | pkg/trigger/trigger.go:1368-1390 | identifiers are unique and increase in issue order, for all threads, interleavings and clocks |
| Calendar.FormatStamps | pkg/trigger/trigger.go:1389 | in the years 0 to 9999 an identifier is fifteen decimal digits, and its parts read as year, month, day, hour, minute, second and tenth of the instant, by the closed form of the calendar |
| Calendar.DateCounted | pkg/trigger/trigger.go:1389 | year, month and day of an instant are a date of the calendar, and the days before it, leap days included, are the days of the instant |
| Calendar.FormatLength | pkg/trigger/trigger.go:1389 | an identifier has 15 characters in the years 0 to 9999 |
| Calendar.FormatOrdered | pkg/trigger/trigger.go:1389 | a later tenth of a second has a larger identifier |
| Secrets.MatchSpelled | pkg/utils/kabanero_util.go:171-173 | an annotation matches when its name starts with the prefix of its kind and the URL starts with its value |
| Secrets.ScanAnnotations | pkg/utils/kabanero_util.go:170-177 | in any order of the annotations, whether a kabanero.io one matches, and else whether a tekton.dev one does |
| Secrets.GetGitHubSecretForRepo | pkg/utils/kabanero_util.go:167-181 | the first secret with a matching kabanero.io annotation, else the last with a matching tekton.dev one, else none |
| Text.PermuteReachesEveryOrder | pkg/trigger/trigger.go:481 | every order in which Go may visit the entries of a map is selected by some picks |

## Left out

- CEL parsing, program construction and the rest of the CEL language: only literals, paths, `!`, `&&`, `+`, `-`, `<=`,
  `==`, the built-in functions above and the type check of these are modelled; map and list literals, indexing, `?:`
  and comparison of lists or maps are not (a comparison of lists or maps fails in the model).
- The built-in functions `jobID`, `downloadYAML`, `toDomainName`, `toLabel`, `split` and `substring` inside expressions;
  the normalisers and the allocator are modelled on their own.
- The second argument of `filter` as a computed string: it is a literal in the model.
- Floating point: doubles are reals, only carried, added and compared.
- JSON marshalling of a message and its failure, the payload that is sent, and the context nil.
- The lookup of an event source among several trigger files, `parseTrigger`, settings and YAML decoding: a trigger
  arrives as its input name and body, either of which may be missing.
- Template substitution, the path check and the file search: a directory is the list of its template files, and an
  outside choice says which template or which creation fails.
- Listeners, message providers, Kubernetes and GitHub clients, and secret contents.
- Interpreter.Processor.CreateOneVariable: maps of another Go type than `map[string]interface{}` (header maps, map
  literals), which dotted assignment rejects on the way, do not exist in the model.
- Interpreter.Processor.FilterMapEntries: entries that a predicate adds to the map while it is being filtered are not
  visited; Go may or may not visit them. (The laws of `Filtering` are about predicates that write no map.)
- OrderIndependence.OrdersAgree: expressions whose outcome depends on the order in which Go visits a map, or on the
  answer of a service, are not steady, and then the orders need not agree.
- Messages.KthTriggerAlone: the run on the original maps is given the trace and the choices of the outside world that
  the earlier triggers leave.
- Timestamps.IdentifiersIncrease: instants are whole nanoseconds since the year 0 and the years end at 9999; that a
  waiting thread is eventually served is not stated, because the clock may stand still.
- Divergence.CycleNeverEnds: the calls stand in assignments at the top level of a body; for calls inside `if`, `switch`
  or a nested body `Divergence.NeverEnds` applies, whose hypothesis is about the runs of the bodies.
- Log output and the text of error messages.
