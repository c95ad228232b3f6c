# Model

This project models the logic by which the Ivy port in `goivy` turns actions into formulas, and proves what those
formulas mean. An action (assume, assert, assignment, havoc, sequence, choice, conditional, local scope, "if some",
loop, call) is compiled to an *update*: the symbols it modifies, a transition formula over the state before and the
`new_` state after, and a failing condition. Existential symbols (`__x`, `__m_x`, `__ts0_a`, …) carry everything that
is not a program symbol, and correctness depends on their names never clashing. On top of the updates the repository
builds images, symbolic histories, bounded model checking, and traces that are read back from satisfying assignments
through *annotations*.

The model keeps the names. Symbols are spelled as the source spells them, fresh names come from the same generator
(`_a`, …, `_z`, `_a0`, …), and every theorem is about the clauses with those names in them. Actions have their own
meaning, independent of the formulas (`Actions.Exec` and `Actions.Aborts`), and the theorems connect the two.

| module | content |
|---|---|
| `Options` | values that may be missing |
| `Names` | fresh names: the suffix stream, the renamer (imperative) |
| `Logic`, `Substitution` | symbols, expressions, clauses, valuations; renaming, substitution, capture |
| `ClauseOps`, `Updates`, `Hiding` | conjunction, disjunction, conditional; composition, join, hiding, old values |
| `Backgrounds` | composition under background axioms |
| `Procedures` | the loops that compute these updates, as methods proved against the functions above |
| `Images` | forward and reverse image |
| `Actions`, `Runs` | actions and their runs |
| `Sizes`, `Atoms`, `Somes`, `Compiler` | a measure of actions; the updates of atomic actions, of "if some", of all actions |
| `Exactness`, `Destructors` | exactly when the updates of atomic actions are right; assignment to fields |
| `Loops`, `Unrolling` | invariant expansion and bounded unrolling of loops |
| `Limits` | runs on which assertions are true, or loops make so many rounds |
| `Equivariance`, `Calls` | independence of names; calls by inlining |
| `Refinement`, `Transforms`, `Flattening`, `Programs` | comparison of actions, assert-to-assume, nested sequences, whole programs |
| `Writes`, `Cuts` | what a program may change; what its update means when loops are told by their invariants |
| `Histories`, `Readings` | symbolic histories and which runs they read back |
| `Bmc` | the bounded check |
| `Walkers`, `Annotations`, `Scopes`, `Orders` | walking an annotation; the annotations that updates write; when walk and run agree; which renamings may be entered in any order |
| `Spelling`, `NameTrees` | kinds read off names; compound names |
| `Graphs` | the analysis graph (imperative) |
| `Findings`, `WalkFindings` | inputs on which the source does not do what it is for |

## Model

| member | source | states |
|---|---|---|
| `Names.FirstUnusedIsFirst` | goivy/ivyutils_renamer.go:78-110 | the unused name chosen for a base is the first of the suffix stream: every earlier candidate is in use |
| `Names.SuffixInjective` | goivy/ivyutils_renamer.go:78-110 | the suffix stream never repeats, so a fresh name always exists |
| `Names.UnusedNameWithBase` | goivy/ivyutils_renamer.go:23-36 | the search loop over the stateful generator ends and returns that first unused name |
| `Names.UniqueRenamer.Rename` | goivy/ivyutils_renamer.go:23-36 | the stateful renamer answers prefix and name if that is unused, else the first unused suffixed name, and marks exactly its answer as used |
| `Logic.RenameMeaning` | goivy/module_ops.go:612-628 | renamed clauses hold under a valuation exactly if the clauses hold under the valuation read through the renaming |
| `Substitution.SubstMeaning` | goivy/module_batch16.go:10-48 | without capture, substituting terms for variables means evaluating with the variables set to the values of the terms |
| `Substitution.NoCaptureExact` | goivy/module_batch16.go:10-48 | substituting variables for variables keeps every free occurrence free and replaces it exactly if no quantifier binds, above it, the variable that is put in |
| `ClauseOps.OrMeaning` | goivy/module_ops.go:187-332 | the disjunction by fresh flags, with false disjuncts dropped, is satisfiable in a program valuation exactly if a disjunct is |
| `ClauseOps.IteMeaning` | goivy/module_ops.go:337-419 | the conditional by a defined flag is satisfiable exactly if the chosen branch is |
| `ClauseOps.ConjoinMeaning` | goivy/actions_transrel.go:485-556 | conjunction after renaming existential symbols apart is intersection: neither side's witnesses disturb the other's |
| `Updates.ComposeRel` | goivy/actions_transrel.go:644-736 | the transitions of a composition are exactly the pairs connected through some state in between |
| `Updates.ComposeFails` | goivy/actions_transrel.go:738-762 | a composition fails exactly where the first update does or leads to a state where the second does |
| `Updates.ComposeAssociative` | goivy/actions_transrel.go:644-762 | regrouping compositions changes neither transitions nor failures, whatever names are generated |
| `Updates.ComposeUnit` | goivy/actions_transrel.go:160-170 | the null update is neutral on both sides |
| `Backgrounds.ComposeInRel` | goivy/actions_transrel.go:644-736 | under background axioms the state in between must satisfy those axioms that mention a symbol both updates change, and nothing else is asked |
| `Backgrounds.ComposeInFails` | goivy/actions_transrel.go:738-762 | the same for failures |
| `Backgrounds.MiddleExact` | goivy/module_ops.go:590-607 | a state in between satisfies all axioms exactly if those that are not asked hold of the first update's symbols as they are after and the others as they were before |
| `Backgrounds.MiddleTrue` | goivy/module_ops.go:590-607 | between states that satisfy all axioms the state in between does too, if no axiom that is not asked ties a symbol only the first update changes to one only the second changes |
| `Updates.JoinMeaning` | goivy/actions_transrel.go:830-854 | a join has the transitions and the failures of either update, with frames for what only the other changes |
| `Updates.IteActionMeaning` | goivy/actions_transrel.go:875-911 | a conditional update is one or the other, by the condition before |
| `Updates.DeterminizedMeaning` | goivy/actions_update.go:1393-1405 | a two-way choice turned into a conditional on a branch constant has the transitions and failures of the join, once the constant is existential and unused by both |
| `Hiding.HideRel` | goivy/actions_transrel.go:930-1014 | hiding relates exactly the states that some values of the hidden symbols before and after connect, and restores the symbols |
| `Hiding.HideFails` | goivy/actions_transrel.go:930-1014 | a hidden update fails exactly where some values of the hidden symbols make the update fail |
| `Hiding.HideTwice` | goivy/actions_transrel.go:930-1014 | hiding one list and then another is hiding both at once |
| `Hiding.BindOldsMeaning` | goivy/actions_transrel.go:1780-1805 | binding makes `old_` symbols read the state before the update, in transitions and failures |
| `Hiding.FrameUpdateMeaning` | goivy/actions_transrel.go:1719-1741 | adding symbols to the modified ones with frames changes no transition and no failure |
| `Procedures.ComposeUpdates` | goivy/actions_transrel.go:644-762 | the loops over modified symbols that build both renamings compute the composition |
| `Procedures.RenameDistinctClauses` | goivy/actions_transrel.go:485-511 | the loop over used symbols with its renamer computes the renaming apart |
| `Procedures.HideUpdate` | goivy/actions_transrel.go:930-1014 | the loops that collect symbols, rename and filter compute the hidden update |
| `Procedures.ForwardImageMap` | goivy/actions_transrel.go:1156-1186 | the loops compute the forward image and the renaming of past values |
| `Procedures.SequenceUpdate` | goivy/actions_update.go:1319-1367 | folding composition over the elements computes the update of the sequence |
| `Procedures.ChoiceUpdate` | goivy/actions_update.go:1393-1428 | folding join over the branches computes the update of the choice |
| `Images.ForwardImageMeaning` | goivy/actions_transrel.go:1156-1193 | the forward image is exactly the set of states one transition away |
| `Images.ReverseImageMeaning` | goivy/actions_transrel.go:1394-1419 | the reverse image is exactly the set of states from which one transition leads into the set |
| `Images.ImagesAdjoint` | goivy/actions_transrel.go:1156-1193 | a set meets the reverse image of another exactly if its forward image meets that set |
| `Images.ImagesCompose` | goivy/actions_transrel.go:1156-1193 | the image of a composition is the image of the image, forward and backward |
| `Compiler.CompilerCorrect` | goivy/actions_update.go:1319-1542 | for actions of assume, assert, assignment, havoc, sequence, choice, conditional, local scope, old binding and "if some", the computed update has exactly the runs as transitions and fails exactly where some run reaches a false assertion |
| `Compiler.DualHolds` | goivy/module_skolem.go:45-74 | the negation with free variables as constants is satisfiable exactly where the formula is not valid |
| `Exactness.AssumeExact` | goivy/actions_update.go:315-350 | for every formula, the update of an assumption holds in place exactly where one choice of the leading existential variables serves all values of the other variables |
| `Exactness.AssumeRight` | goivy/module_skolem.go:76-107 | so it is right in a state exactly if the truth of the formula there needs no different choices for different values |
| `Exactness.AssignExact` | goivy/actions_update.go:240-295 | for every target and right-hand side, the update of an assignment changes nothing else and gives each cell what every value of the variables demands of it |
| `Exactness.AssignTaken` | goivy/actions_update.go:240-295 | it can be taken exactly if no cell is asked for two values: neither addressed twice for different values, nor addressed for a new value and also missed |
| `Exactness.AssignRight` | goivy/actions_update.go:240-295 | without capture it is what an assignment means exactly if no cell is both addressed for a new value and missed, or two values are meant for one cell anyway |
| `Exactness.HavocExact` | goivy/actions_update.go:830-897 | for every target, a havoc's update lets exactly those cells change that every value of the variables addresses |
| `Exactness.HavocRight` | goivy/actions_update.go:830-897 | so it is right exactly if no cell is both addressed and missed |
| `Destructors.FieldExact` | goivy/actions_update.go:533-688 | for all arguments of root, chain and right-hand side: assignment through destructors leaves other symbols alone and gives the root new structs such that, for every value of the variables, each level of the chain differs at most in the addressed destructor where its arguments are hit, and the end of the chain has the value of the right-hand side |
| `Destructors.FieldDirect` | goivy/actions_update.go:533-688 | with different variables at the root, the new structs are those of the addressed cells, and other cells stay |
| `Destructors.FieldsKept` | goivy/actions_update.go:533-688 | for all values of the variables the addressed path then reads the right-hand side, and every path that turns off it reads what it read before |
| `Destructors.FieldDetermined` | goivy/actions_update.go:533-688 | if structs with equal fields are equal and all variables are different, two results of one assignment from one state are equal |
| `Destructors.FreshExact` | goivy/actions_update.go:602-614 | for one destructor at variables, the result is determined exactly if these are different from each other and from the variables of the root |
| `Loops.ExpandRuns` | goivy/actions_update.go:1673-1809 | the expansion by invariants runs exactly to the states that differ from that at entry only on what the body modifies, satisfy all invariants, and have the condition false |
| `Loops.ExpandAborts` | goivy/actions_update.go:1673-1809 | it fails exactly if an invariant is false at entry, or at some such state with the condition true the rank is negative, the body fails, or the body has a run after which an invariant is false or the rank is not lower |
| `Loops.LoopSound` | goivy/actions_update.go:1673-1809 | so where the expansion cannot fail, no iteration of the loop fails, every loop head satisfies the invariants, every exit is a result of the expansion, and a rank bounds the iterations |
| `Loops.ExpandCore` | goivy/actions_update.go:1673-1809 | the expansion consists of constructs that updates are computed for |
| `Unrolling.UnrolledExact` | goivy/actions_transforms.go:655-713 | the unrolled loop has exactly the runs of at most n rounds and fails exactly where the body fails within n rounds |
| `Unrolling.UnrollWhile` | goivy/actions_transforms.go:655-713 | the loop builds that unrolling, and none without a bound or above the limit |
| `Unrolling.UnrollExact` | goivy/actions_transforms.go:622-650 | with all its loops unrolled, nested ones too, an action has exactly the runs and failures on which every execution of a loop makes at most n rounds |
| `Unrolling.UnrollActionExact` | goivy/bmc.go:230-247 | for a bound from 0 to 100 the unrolled action is that; with another bound, or without loops, it is the action itself |
| `Limits.Unlimited` | goivy/actions_transforms.go:622-650 | without a limit these are the runs and failures of the action |
| `Unrolling.UnrollLimit` | goivy/actions_transforms.go:622-650 | an action has a run or a failure exactly if some unrolling of all its loops has it |
| `Unrolling.UnrollMore` | goivy/actions_transforms.go:622-650 | unrolling further loses no run and no failure |
| `Unrolling.UnrolledExpanded` | goivy/actions_transforms.go:655-713 | where the expansion by invariants cannot fail, every run of an unrolling is a run of the loop and of the expansion |
| `Somes.PartsCorrect` | goivy/actions_action.go:574-661 | the two parts of "if some" together run and fail exactly as it does |
| `Somes.SomeMeaning` | goivy/actions_action.go:574-661 | the then-part can be entered with exactly the witnesses that no other witness betters |
| `Somes.NoneMeaning` | goivy/actions_action.go:574-661 | the else-part can be entered exactly if there is no witness |
| `Somes.ExactlyOnePart` | goivy/actions_action.go:574-661 | never both parts; without an index, always exactly one |
| `Somes.ExactlyOneOptimum` | goivy/actions_action.go:574-661 | with an index bounded in its direction, always exactly one |
| `Calls.ComputeRenaming` | goivy/actions_update.go:2105-2139 | the loop keeps each formal's name unless an actual, a target or an earlier formal uses it, and else gives the first unused one |
| `Calls.RenamingIdentity` | goivy/actions_update.go:2105-2139 | formals keep their names when nothing clashes |
| `Calls.InliningCorrect` | goivy/actions_update.go:1957-2088 | a call is call by value-result: the inlined call exists exactly if the numbers of arguments match, and then has exactly the runs and the failures of the call |
| `Calls.CallablePlainly` | goivy/actions_update.go:1957-2088 | when no formal has to be renamed, nested calls may use the same formal names freely |
| `Equivariance.ExecTwin` | goivy/module_astutil.go:103-133 | renaming the symbols of an action by a permutation renames its runs, callees and their formals left as they are, and symbols that it does not mention may take any value |
| `Equivariance.ExecFrame` | goivy/actions_update.go:1957-2088 | a run changes no symbol that the action does not mention outside its scopes and its callees' formals |
| `Transforms.AssertToAssumeExact` | goivy/actions_transforms.go:36-118 | with assertions turned into assumptions an action has, from every state, exactly its runs on which every assertion met is true, and fails exactly where such a run comes to a call that fails |
| `Transforms.AssertToAssumeCorrect` | goivy/actions_transforms.go:36-118 | so it adds no run and no failure, and where the action does not fail it keeps all runs |
| `Transforms.ConvertedNeverAborts` | goivy/actions_transforms.go:36-118 | without calls nothing that can fail is left |
| `Flattening.ConcatActions` | goivy/actions_helpers.go:14-24 | the loop computes the flattened list |
| `Flattening.FlattenedIn` | goivy/actions_helpers.go:14-24 | anywhere in the list, a sequence gives its elements and another action itself, between what the actions before and after it give |
| `Flattening.FlattenedRuns` | goivy/actions_helpers.go:14-24 | flattening keeps exactly the runs, for all actions |
| `Flattening.FlattenedUpdate` | goivy/actions_helpers.go:14-24 | and exactly the transitions and failing states of the computed update |
| `Programs.ProgramSound` | goivy/actions_update.go:1587-1612 | with loops expanded and calls inlined: from a state where the computed update does not fail no run of the program fails, and every run is a transition of the update |
| `Cuts.ProgramCut` | goivy/actions_update.go:1587-1612 | with loops and calls: the computed update has exactly the cut runs of the program as transitions and fails exactly where a cut run comes to a false assertion, when a loop, nested ones too, goes to any state that satisfies its invariants and differs only on what its body may change |
| `Cuts.CutFree` | goivy/actions_update.go:1587-1612 | without loops the cut runs and failures are the runs and failures |
| `Writes.CompiledModifies` | goivy/actions_update.go:1587-1612 | the symbols that the update modifies are exactly those that the program assigns to or havocs outside of the scopes that hide them |
| `Programs.ProgramExact` | goivy/actions_update.go:1909-1956 | without loops the update of the program has exactly its runs and failures |
| `Programs.LowerCore` | goivy/actions_update.go:1157-1236 | what is left after lowering is what updates are computed for |
| `Histories.HistorySound` | goivy/actions_transrel.go:2160-2262 | every valuation of a history's clauses, read back through the renamings, is a run in which all assumptions hold |
| `Histories.HistoryPresent` | goivy/actions_transrel.go:2091-2134 | the clauses describe exactly the states in which runs end, whatever the names |
| `Readings.HistoryReadBack` | goivy/actions_transrel.go:2091-2134 | a run is read back exactly if it has values for the existential symbols of its clauses such that past values and these values agree wherever the history gives them one name |
| `Readings.RunsWitnessed` | goivy/actions_transrel.go:2091-2134 | the runs are exactly those that have such values, names apart |
| `Histories.HistoryExact` | goivy/actions_transrel.go:2160-2262 | if no past value's name is given to an existential symbol of a later step, only past values need to agree |
| `Histories.HistoryFresh` | goivy/actions_transrel.go:2160-2262 | with names fresh against all earlier ones, exactly the runs are read back |
| `Histories.BackMapNames` | goivy/actions_transrel.go:2305-2320 | composed backwards in time, the renamings call a past value by the name that the next step changing it gave it |
| `Procedures.ActionComposeMaps` | goivy/actions_transrel.go:2305-2320 | the loop over the first renaming computes the composed one |
| `Histories.PastRenamings` | goivy/actions_transrel.go:2169-2250 | the loop that composes renamings from the last step to the first yields the renaming for every time |
| `Bmc.Check` | goivy/bmc.go:66-178 | given an oracle for satisfiability, nothing is found exactly if every state up to the bound satisfies the conjecture and no step from it fails; else the depth found is the least, and the kind of failure is right |
| `Bmc.Module.CheckIsolate` | goivy/bmc.go:66-178 | nothing is found exactly if, for every depth up to the bound, in all states that so many calls of existing exported actions lead to the conjecture holds and no such call fails; else the depth is the least and the kind of failure is right; loops make at most so many rounds or are told by their invariants; the module's actions are put back |
| `Bmc.CalledIs` | goivy/actions_action.go:2262-2295 | one step of the check is a run of any exported action that exists, its loops limited by the bound if that is usable, and fails exactly where one of them does |
| `Bmc.Module.DepthIs` | goivy/bmc.go:66-178 | so what is asked of the update at a depth is what is said of the module's calls |
| `Bmc.CleanIs` | goivy/bmc.go:66-178 | for an action without loops, a depth is clean exactly if every run of that many steps of the action ends in a state that satisfies the conjecture and does not fail |
| `Walkers.WalkFaithful` | goivy/actions_match.go:52-297 | whatever order renamings are entered in, the walk with one environment from which new entries are never removed hands over exactly the actions that lexically scoped renamings mean, if no flag asked later in a sequence is among the names entered earlier on the way and the order does not matter to the flags asked |
| `Walkers.WalkIsPath` | goivy/actions_match.go:52-297 | and that is a path of the program |
| `Walkers.EnvironmentExact` | goivy/actions_match.go:60-83 | if renamings on the way may be entered in any order: the walk leaves exactly the bindings that were new, and hands over with each event an environment that agrees with its lexical scope at a name exactly if the renamings above do not lead from that name to one left behind, with another value, by something earlier |
| `Walkers.NegatedExact` | goivy/actions_update.go:1558-1577 | asking for a negated flag is the opposite of asking for the flag, whatever the answers, exactly if the environment gives the flag no other name |
| `Walkers.OrderIrrelevant` | goivy/actions_match.go:60-83 | entering a renaming entry by entry does not depend on the order exactly if no entry's value is renamed by another entry |
| `Walkers.SteadyExact` | goivy/actions_match.go:60-83 | and symbol by symbol: a name is read as the renaming says in every order exactly if the value of its entry is not renamed by another entry |
| `Walkers.WalkEnds` | goivy/actions_match.go:52-297 | from everywhere there is a walk |
| `Walkers.Walker.Enter` | goivy/actions_match.go:60-83 | the loop over a renaming, in any order: the entries it makes, and exactly what it has overwritten |
| `Walkers.Walker.Recur` | goivy/actions_match.go:52-297 | the recursive procedure over the changing environment, for every annotation, does one of the walks: log, environment, misfit and giving up are those of the walk |
| `Walkers.ChoiceUnited` | goivy/actions_match.go:309-333 | picking the last true arm of the flattened annotation is picking in the nested one |
| `Annotations.TransitionTold` | goivy/actions_transrel.go:644-762 | the annotation written along with a transition formula, read with the answers of any of its valuations, tells a run between the states of the valuation, if no negated flag on the way has been renamed to one with another value |
| `Annotations.FailureTold` | goivy/module_ops.go:241-255 | the annotation of the failing condition tells a run that ends in a false assertion |
| `Annotations.IfSomeTold` | goivy/actions_update.go:1544-1580 | the swapped and negated annotation of "if some" tells the part that was taken |
| `Scopes.TransitionWalked` | goivy/actions_match.go:35-48 | every walk of the compiled annotation, in whatever order renamings are entered, meets no misfit, never gives up, and hands over in order the actions of a run from the state before to the state after, if the order does not matter to the flags asked on the way and no negated flag there has been renamed to one with another value |
| `Scopes.FailureWalked` | goivy/actions_match.go:35-48 | the same for a failure: the actions of a run whose last action fails |
| `Orders.DistinctIdempotent` | goivy/actions_transrel.go:485-511 | renaming c apart from d, the order of entries matters exactly if the name given to one existential symbol of c, which depends only on the names in c and d, is that of a later one of the same arity |
| `Orders.NoSuffixIdempotent` | goivy/actions_transrel.go:485-511 | it does not matter if no existential name of c is an earlier one with a suffix |
| `Orders.DistinctFixes` | goivy/actions_transrel.go:485-511 | renaming c apart from d renames nothing exactly if the existential names of c are different, not empty and not used in d |
| `Orders.UnchainedOrderly` | goivy/actions_transrel.go:644-762 | mid variables, hidden and old symbols can always be entered in any order: if no composition in an action renames apart in that chained way, all renamings of its annotations can |
| `Orders.UnmovedSteadfast` | goivy/actions_update.go:1544-1580 | if no composition renames anything apart around an "if some", no renaming above a negated flag moves it |
| `Orders.CompiledWalked` | goivy/actions_match.go:35-48 | so for such actions every walk with the answers of a valuation hands over a run that it describes |
| `Orders.CompiledFailureWalked` | goivy/actions_match.go:35-48 | and for a failing condition one that ends in a false assertion |
| `Spelling.NewNameMistaken` | goivy/actions_transrel.go:42-83 | the `new_` symbol of a name is taken for existential exactly if the name contains two underscores in a row or begins with one |
| `Spelling.SpellClassify` | goivy/actions_transrel.go:42-83 | for all other names the kind read off the spelling is right |
| `Spelling.SpellInjective` | goivy/actions_transrel.go:42-83 | and different symbols are spelled differently |
| `Spelling.HiddenName` | goivy/actions_transrel.go:42-83 | two underscores before a name make an existential symbol exactly if the name does not begin in upper case |
| `Spelling.FreshSkolem` | goivy/ivyutils_renamer.go:78-110 | suffixes keep a symbol existential |
| `NameTrees.UnparseParse` | goivy/ast_rewrite.go:141-171 | parsing a compound name and printing it gives the name back exactly if it is well formed |
| `NameTrees.ParseUnparse` | goivy/ast_rewrite.go:141-171 | printing a tree and parsing it gives the tree back exactly if it is normal |
| `NameTrees.SubstIdentity` | goivy/ast_rewrite.go:174-194 | the empty substitution leaves exactly the well-formed names and those without brackets alone |
| `NameTrees.SubstScans` | goivy/ast_rewrite.go:174-194 | substitution in a well-formed name is one pass over its characters: the first symbol of the name and of every subscript is replaced if the substitution has it, "this" with the dot behind it goes away, and everything else stays |
| `NameTrees.SubstTwice` | goivy/ast_rewrite.go:174-194 | two substitutions in a row are the one that applies the second to the results of the first |
| `NameTrees.ParseNameRecur` | goivy/ast_rewrite.go:146-171 | the loop over the characters computes the parse |
| `Graphs.DoomedPath` | goivy/art.go:1192-1218 | a state is marked for deletion exactly if it depends, along predecessors and joined states, on the deleted one |
| `Graphs.CoveredOnChain` | goivy/art.go:1253-1286 | a state counts as covered exactly if a chain of action applications leads to a state that is covered |
| `Graphs.DoomedAll` | goivy/art.go:1192-1218 | the set of doomed states holds exactly the states at doomed positions, and what depends on one of them is doomed |
| `Graphs.KeptWithout` | goivy/art.go:1221-1250 | the loops over states, transitions and coverings read the old lists at increasing positions, exactly those whose entry touches nothing that is gone |
| `Graphs.AnalysisGraph.Delete` | goivy/art.go:1192-1218 | after deletion each list reads the old one at increasing positions, which are exactly those of the states that are not doomed and of the transitions and coverings that touch no doomed state; the states are renumbered |
| `Graphs.AnalysisGraph.RemoveMarkedStates` | goivy/art.go:1221-1250 | the same for any set of marked states that what depends on it belongs to |
| `Graphs.AnalysisGraph.UncoveredStates` | goivy/art.go:1253-1286 | returns the states at exactly the positions that are neither covered through their action chain nor joined into another, each once and in order |
| `Graphs.AnalysisGraph.Add` | goivy/art.go:742-780 | a state is appended with its number, provenance and dependencies, and exactly the transitions of its provenance follow the old ones, entry by entry |
| `Findings.HistoryReusesNames` | goivy/actions_transrel.go:2091-2120 | a two-step run that is never read back, because two past values get one name |
| `Findings.AssumeTooStrong` | goivy/module_skolem.go:76-107 | a formula true in every state whose update has no transition |
| `Findings.AssignBlocks` | goivy/actions_update.go:240-295 | an assignment whose update has no transition |
| `Findings.AssignCaptures` | goivy/actions_update.go:240-295 | an assignment whose update stores another value |
| `Findings.MixedAxiomIsNotAsked` | goivy/actions_transrel.go:677-694 | a composition through states none of which satisfies a background axiom |
| `WalkFindings.ChainedFlags` | goivy/actions_transrel.go:485-511 | the renaming written when two conditionals are composed behind a third gives a name that it also renames |
| `WalkFindings.BranchNotRun` | goivy/actions_match.go:60-83 | for every valuation of those conditionals some order of entries lets the walk hand over a branch that was not run |
| `WalkFindings.NegatedFlagMisread` | goivy/actions_update.go:1558-1577 | two "if some" in a row: every walk hands over a branch of the second that was not run |
| `WalkFindings.TwoMoves` | goivy/actions_update.go:1544-1580 | there are such valuations |
| `WalkFindings.BindingLeftBehind` | goivy/actions_match.go:60-83 | three assignments: every walk hands over the last with an environment in which a symbol does not have the name of its scope |
| `Destructors.FieldLoose` | goivy/actions_update.go:602-614 | an assignment with a repeated variable has two results from one state, although structs with equal fields are equal |

## Findings

Each is a lemma with an input, in `Findings` unless said otherwise; the exact condition for the good case is the
theorem named beside it.

- `HistoryReusesNames`: `x := 1; x := 2`. Both the value before the first step and the value after it are called
  `__x`, since the first name no longer occurs when the second is chosen. A run that starts with x different from 1 is
  never read back. `Readings.HistoryReadBack` says which runs are; no valuation is read back as anything but a run.
- `AssumeTooStrong`: `assume exists x. x = Y`. The leading existential becomes one constant for all Y.
  `Exactness.AssumeRight` has the condition.
- `AssignBlocks`: `f(g(X)) := 1`. A cell that some X addresses and another does not is asked to change and to stay.
  `Exactness.AssignTaken` and `Exactness.AssignRight` have the conditions.
- `AssignCaptures`: `f(X) := exists V0. V0 < X`. X becomes the placeholder V0 and is captured.
  `Substitution.NoCaptureExact` has the condition.
- `WalkFindings.BranchNotRun`: `if p …; { if q …; if r … }`. Composed behind the first conditional, the flags of the
  others are renamed by `{__ts0_a := __ts0_a_a, __ts0_a_a := __ts0_a_a_a}`, which is entered entry by entry in the
  iteration order of a Go map. With the second entry first, the second conditional is told by the third one's flag.
  `Walkers.OrderIrrelevant` and `Walkers.SteadyExact` have the condition for one renaming, `Orders.DistinctIdempotent`
  says when renaming apart writes such a one, and `Orders.CompiledWalked` that without them every walk is right.
- `WalkFindings.NegatedFlagMisread`: `if some c. p …; if some c. q …`. The annotation of "if some" asks for the negation
  of its second flag `__ts0_b`, which is looked up as a whole and so never renamed: the second "if some" is told by the
  flag of the first. `Walkers.NegatedExact` has the condition, `Orders.DistinctFixes` says when the flags keep their
  names, and `Orders.CompiledWalked` that the walk is right then.
- `WalkFindings.BindingLeftBehind`: `x := 1; x := 2; y := x`. New entries of the environment are not removed when their
  scope ends, so `y := x` comes with an x that is not `new_x`. `Walkers.EnvironmentExact` has the condition. Which
  actions are handed over is not affected.
- `Destructors.FieldLoose`: `a(X).d(X) := 0`. Variables among the arguments are not compared, so what `d` reads at other
  arguments of the struct is left open. `Destructors.FreshExact` has the condition.
- `MixedAxiomIsNotAsked`: `x := 1; y := 1` under the axiom `x = y`. Only axioms about symbols that both updates change
  are asked of the state in between. `Backgrounds.MiddleExact` has the condition.
- `Spelling.UnderscoreMistaken`: a program symbol `_x` is a program symbol, but `new__x` is taken for existential.
  `Spelling.NewNameMistaken` has the condition.

## Left out

- Updates.ComposeRel: background axioms are in `Backgrounds.ComposeInRel`; the `ModifiedAll` flag, which only pure
  states carry (goivy/actions_transrel.go:168-187) and no update of an action, is not modelled.
- Updates.ComposeFails: the same, with the axioms in `Backgrounds.ComposeInFails`.
- Compiler.CompilerCorrect: loops and calls are in `Programs`; in an "if some" no quantifier binds a placeholder;
  environment, let, set, field, native, debug,
  crash, instantiate and fail actions and the update axioms of the domain are not modelled. Actions are compiled
  without background axioms.
- Compiler.IntUpdate: definitions are kept as constraints of the clauses; the elimination of definitions that occur in
  one disjunct only is not modelled.
- Transforms.AssertToAssumeExact: all assertions are of one kind, so the kinds that are asked for and require, ensure and
  subgoal actions are not modelled; callees are left as they are, as in the source.
- Loops.ExpandRuns: invariants that are given as assume or subgoal actions are not modelled.
- Cuts.ProgramCut: a call has the cut runs of the inlined action, which `Calls.InliningCorrect` compares with the call.
- Bmc.Module.CheckIsolate: with a usable bound, callees have no loops (the source unrolls those too, through the table of
  actions); labels and return markers of the branches are not modelled.
- Programs.ProgramSound: the callee is a tree, so recursive calls are not modelled; a loop whose condition is a "some"
  is not modelled; formals of exported actions are not hidden.
- Somes.PartsCorrect: the non-strict order is modelled as "not greater"; sorts are integers.
- Calls.InliningCorrect: actuals of variant sorts and the checks of sorts are not modelled.
- Histories.HistorySound: a valuation is read back by looking up names; the model clauses that the solver returns, the
  inverse maps applied to them and their minimization are not modelled.
- Bmc.Check: the solver is an oracle; the bound is on depth only, tactics and printing are left out; the assertion
  check of the initializer before the first step is not modelled.
- Walkers.WalkIsPath: labels and formals of environment actions are not told.
- Scopes.TransitionWalked: for the actions of `Compiler.CompilerCorrect` whose program names contain no two underscores
  in a row and begin with none; calls and loops are walked (`Walkers`), but their annotations are not compiled here.
- Orders.UnmovedSteadfast: goes one way; a negated flag that is moved does no harm where it is never asked.
- Orders.UnchainedOrderly: goes one way; a conditional of two literally false parts drops an annotation.
- Sorts are reduced to the number of arguments and all values are integers; partial application, variants, native
  code, polymorphism and interpreted sorts are not modelled.
- Destructors.FieldsKept: the variables at the root are different and arguments there are variables or closed, no
  variable is called like a placeholder (V1, V2, …), and the root is no destructor; whether a struct with the new fields
  exists at all is not modelled.
- Destructors.FieldDetermined: the same, with variables or closed expressions as arguments of the destructors.
- NameTrees.SubstTwice: for substitutions whose values are plain symbols; a compound value is taken apart when the
  result is parsed again.
- Assignments of partially applied functions are not modelled.
- Substitutions of whole subterms, letters outside ASCII in names, and the iteration order of maps other than in
  `Walkers.Walker.Enter` are not modelled.
- Interpolation, unsat cores, abstraction, concepts, the parser, the type checker and all printing are left out.
