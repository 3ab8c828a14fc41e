# A verified model of the ferroplan HDDL grounder and three of its satellites

This project states, in Dafny, what four parts of the repository compute and proves that
they compute it.

- **The HDDL grounder** (`crates/ferroplan-hddl/src/grounder.rs`) turns lifted actions,
  methods and task networks into ground ones. Modelled are formula and effect compilation,
  the lazy binding generator, the type closure, the grounding loops with their limits, the
  two pruning passes and the whole pipeline. What pruning must preserve is stated over the
  transition system that `crates/ferroplan-hddl/src/translate.rs` explores: facts together
  with a partially decomposed, partially ordered task network, changed by decomposition and
  by the execution of actions with several outcomes.
- **Recipe demand** (`benchmarks/encoding-ab/gen.py`): topological sort, reverse propagation
  with ceiling division, and the raw stock derived from it.
- **The durative-action compressor** with its S-expression reader and printer
  (`benchmarks/probes-0.28/sgplan-timing/compress.py`).
- **Timeline lanes** (`crates/ferroplan-bevy/src/gantt.rs`): greedy interval packing.

| module | what it holds |
|---|---|
| Prelude, HddlAst, Names | shared types, the syntax trees, ground names and what they determine |
| Bindings | the odometer (a class with the original's fields) and the product it walks |
| Goals, Effects, Applying | grounding, expansion and budgeted evaluation of goals; flattening and application of effects, alone and one after the other |
| TypeClosure | the white/grey/black ancestor search, its inverse, the typed object universe |
| Validation | which inputs the grounder is given: what validation accepts |
| Grounders, Instances | the six grounding loops, the filtering they amount to, and what they list in terms of the objects that parameters are bound to |
| Reachability, Relevance | the two fixpoints |
| Htn, Addresses, Ordering | the transition system, when its addresses tell positions apart, and that its runs respect the order of tasks |
| Markers, Bisimulation | the marker under which a state is stored, and when the steps of one network are followed in another |
| Merging, Walkers, Tangles, Retasking, MergeSafety, Crossings | when states with one marker may be merged: exactly for two lines, and for which vocabularies of subtask ids |
| Preservation, Nullary, PruningSafety, Pipeline, Refusals | what pruning preserves over those runs, and for exactly which inputs; which inputs ground at all |
| TopoSort, Demand, Provision | recipe demand |
| SExpressions, Compressor, Compression, SequentialLayout, MergedChanges | the compressor |
| Lanes | lane packing |

Code that changes things step by step is a method with loops, or a class where the original
is an object; each is tied by its `ensures` to a function or a predicate, and the lemmas are
about that function or predicate.

## Hypotheses

They are written as `requires` clauses where they are used.

- Ground names: task symbols and predicates contain no `(`; objects contain no `,`;
  predicates in states contain no `:`. `CommaCollision`, `MarkerIsNoKey` and `MarkerIsNoFact` show
  what they buy.
- `SafeToDrop`, for the results about reachability pruning: the domain has no actions or no methods,
  or no decomposed task has the name of an action, subtask ids join without ambiguity and a repeated
  id repeats its task. `SafeVocabularyIff` says that this is the exact condition on the names. Relevance pruning
  needs none of it.
- `Unambiguous`, for the results about addresses: different sequences of the subtask ids that occur never
  join to one address. Ids without dots are unambiguous; `AddressesNeverCollideIff` says that this is the
  exact condition. The results about order and merging do not need it; `MergesWellIff` says that it
  suffices for merging.
- Ordering constraints name subtasks of their own network and are acyclic (`ValidOrder`), which
  `crates/ferroplan-hddl/src/validate.rs` enforces, for the results about order and merging.
- `Accepted` is what validation lets through. It is a hypothesis of `SafeVocabularyIff`, and the inputs
  that show a claim failing satisfy it.
- Grounding results are about successful returns; a wall-clock refusal is an early error and
  is not modelled. Every error that the code does distinguish here is kept.
- Recipes have distinct names and outputs and positive output quantities, and mention listed
  resources only.
- Durative actions have literal conditions, and effects that are literals, increases or
  decreases; atoms are words the printer can print.

## Claims that do not hold as stated, and when they do

The code is followed in each case.

- The module documentation calls the intersection of the two filters sound
  (`grounder.rs:61-67`). The rule that drops a method with an unreachable primitive subtask can lose the
  only plan of an accepted problem in three ways: it looks a subtask up by its symbol only, so a symbol
  that is both an action and a decomposed task misleads it (`SharedNameLosesPlans`); of two subtasks with
  one id only the last is ever pending, so the first need not be executed (`RepeatedIdsLosePlans`); and
  ids that join ambiguously let one task take another's address (`AmbiguousIdsLosePlans`). Validation
  checks none of the three. `SafeVocabularyIff` gives the exact condition on the names that occur.
- Addresses are called collision-free by construction (`translate.rs:571-576`).
  `AddressesNeverCollideIff` says for which subtask ids that is so; ids are taken verbatim, so `a`, `b`
  and `a.b` may occur together. Within one network every subtask has a pending node of its own exactly
  when the ids are distinct (`OwnNodesIff`), and no task is lost exactly when equal ids carry equal
  tasks (`NoTaskIsLostIff`).
- Networks with one marker are called interchangeable for every future step (`translate.rs:797-805`), and
  the step that stores a state drops all but the first of them. Two things in an address matter after all.
  - A child can take the address of a node that its parent had to precede; that node then has to precede
    itself, and the network can never be emptied. Of two networks with one marker this can happen to one only, so the
    only plan can be lost: `JoinedIdsLosePlans` gives an accepted problem for every vocabulary in which some
    id is the join of others (such as `b`, `c` and `b.c`). For two networks with one marker the exact
    condition is that the same ways down are blocked (`LinesMergeIff`; `MergedStatesSolveAlike` for runs).
    For a vocabulary it is that the lines which runs can end in agree on that (`MergesWellIff`); as long as
    no child takes an occupied address it is that no id joins from others
    (`MergesWellBeforeCollisionsIff`). Joins are not the whole of it once children do (`JoinsAreNotAll`); ids
    without tangles, in particular unambiguous ones, are always safe.
  - The limit on the depth of the network is checked on the address: of two states of one run stored under
    the same facts one can be refused and the other not (`DepthIsNotInMarker`). `RefusedIff` says when a node
    is refused.
- Any goal text within the parser's nesting limit is said to evaluate within the same limit
  (`grounder.rs:480-491`). An implication's antecedent is one list further in as written and two levels
  further down once ground, so the limit that suffices for texts `h` lists deep is `2h - 1` (`AlwaysAnsweredIff`); what counts for one
  goal is the nesting with antecedents counted twice (`GroundedLevels`).
- A type that occurs only in a quantifier's binder, in the parameters of the task network or on
  a problem object is not collected, and its objects disappear from every type.
  `UniverseCompleteIff` is exact.
- Validation refuses a name declared twice among the constants or among the objects (`validate.rs:565-602`,
  `1221-1229`), not an object that repeats a constant. Such an object is listed twice, and everything over its type is
  ground twice (`RepeatedConstantIsListedTwice`); `AcceptedListsTwiceIff` is exact.
- Greedy packing does not always use the fewest lanes: with the tolerance of one millionth, a
  step no longer than that can be placed after a longer one that it could have gone before.
  `OptimalIffUniformLengths` is exact in terms of the lengths that occur; `PackingIsOptimal` is
  the finer condition on one plan, and minimality among assignments that respect the order of
  placement always holds.
- Compression matches conditions and effects on lifted atoms. Two parameters bound to one
  object can make a start addition and an end deletion, or a start addition and a later
  condition, meet only after binding. `FinalFactsAgreeIff` and `NoRunIsLostIff` are exact.
- `raw_init` supplies raws only, so a resource that the goal needs and that neither a recipe makes nor
  the raws list is overdrawn; `ProvisionSufficesIff` is exact.
- The compressor reads all amounts before the action. An end amount that reads a fluent changed at the
  start then has the wrong value; `PlansKeepFluentsIff` is exact in terms of the fluents that start
  changes touch and end amounts read.

One remark on effects: the conditionals of an effect are applied one after the other, as
`translate.rs:534-543` describes, so a later conditional's delete beats an earlier add;
`ApplyIsSimultaneousIff` says when that is the simultaneous application, and all preservation results
are about the in-order one.

## Model

| member | source | states |
|---|---|---|
| Names.BaseNameInvertsKey | crates/ferroplan-hddl/src/grounder.rs:1289-1294 | cutting a ground name at its first parenthesis gives back exactly the symbol it was rendered from, for every symbol without a parenthesis |
| Names.KeyInjective | crates/ferroplan-hddl/src/grounder.rs:656-662 | two atoms with clean names render to the same fact string only if they are the same atom |
| Names.CommaCollision | crates/ferroplan-hddl/src/grounder.rs:656-662 | with commas inside object names two different atoms of one arity render alike, so the name hypothesis is needed |
| Bindings.ProductAt | crates/ferroplan-hddl/src/grounder.rs:1312-1318 | the k-th binding of the nested loops is the one whose indices are the mixed-radix digits of k, for every index tuple |
| Bindings.SuccessorAddsOne | crates/ferroplan-hddl/src/grounder.rs:1376-1390 | one odometer step adds one to the mixed-radix value, and there is no step exactly from the last tuple |
| Bindings.ValueIsBijective | crates/ferroplan-hddl/src/grounder.rs:1312-1318 | every number below the product size is the value of exactly one index tuple, so no binding is produced twice or skipped |
| Bindings.BindingIter.constructor | crates/ferroplan-hddl/src/grounder.rs:1330-1356 | a new generator has the whole eager product still to come, including the single empty binding for no parameters and nothing when a choice list is empty |
| Bindings.BindingIter.Next | crates/ferroplan-hddl/src/grounder.rs:1361-1392 | yields the first remaining binding and drops it; once none remains it yields nothing, for ever |
| Bindings.BindingIter.Current | crates/ferroplan-hddl/src/grounder.rs:1372-1375 | the binding built in the loop is the one the index tuple selects |
| Bindings.BindingIter.Advance | crates/ferroplan-hddl/src/grounder.rs:1376-1390 | the carrying loop performs exactly one successor step, or marks the generator exhausted when the carry leaves the first place |
| Bindings.EnumerateBindings | crates/ferroplan-hddl/src/grounder.rs:1404-1409 | draining the generator gives exactly the eager product in nested-loop order |
| Bindings.ProductKeys | crates/ferroplan-hddl/src/grounder.rs:1404-1409 | every binding binds exactly the listed variables |
| Bindings.BindingsAreTyped | crates/ferroplan-hddl/src/grounder.rs:1404-1409 | for distinct parameter names a binding is enumerated exactly when it binds just those names, each to an object listed for its type |
| Bindings.BindingsAreDistinct | crates/ferroplan-hddl/src/grounder.rs:1404-1409 | no binding is enumerated twice when parameter names are distinct and no type lists an object twice |
| Goals.EvalFaithful | crates/ferroplan-hddl/src/grounder.rs:526-564 | any answer of the budgeted evaluator is the unbounded truth value, and the only refusal is at depth budget + 1 |
| Goals.EvalTotal | crates/ferroplan-hddl/src/grounder.rs:526-564 | a goal no higher than the remaining budget is always answered |
| Goals.EvalBudgetMonotone | crates/ferroplan-hddl/src/grounder.rs:526-564 | an answer stays the same under every larger budget, short-circuiting included |
| Goals.BudgetedEvaluation | crates/ferroplan-hddl/src/grounder.rs:515-564 | the three facts above for the public entry point, which starts at depth one |
| Goals.GroundedLevels | crates/ferroplan-hddl/src/grounder.rs:348-413 | a goal grounds to a tree no higher than its nesting with antecedents counted twice, whatever the quantifiers range over |
| Goals.GroundedPart | crates/ferroplan-hddl/src/grounder.rs:348-413 | the i-th part of a ground conjunction or disjunction is the i-th written part ground, and the i-th part of a ground quantification is its body ground with the i-th binding laid over the enclosing one |
| Goals.AlwaysAnsweredIff | crates/ferroplan-hddl/src/grounder.rs:480-492 | every goal nested at most h lists deep that grounds is answered within a budget in every state exactly when the budget is at least 2h - 1 |
| Goals.AtomMeansMembership | crates/ferroplan-hddl/src/grounder.rs:780-790 | a substituted atom's string is among the state's fact strings exactly when the ground atom is in the state |
| Goals.ForallRangesOverProduct | crates/ferroplan-hddl/src/grounder.rs:386-398 | conjoining the body over the product of the binders is the binder-by-binder universal, inner binders shadowing outer ones |
| Goals.ExistsRangesOverProduct | crates/ferroplan-hddl/src/grounder.rs:399-411 | the same for the existential |
| Goals.GroundingPreservesTruth | crates/ferroplan-hddl/src/grounder.rs:348-413 | whenever grounding succeeds the ground goal is true of a state exactly when the lifted goal holds under the binding, by recursion over all connectives |
| Goals.GroundedAnswerIsTruth | crates/ferroplan-hddl/src/grounder.rs:515-564 | whenever grounding and evaluation both succeed the answer is the lifted goal's truth |
| Goals.ExpandersCommute | crates/ferroplan-hddl/src/grounder.rs:428-478 | expanding quantifiers in the syntax tree and then grounding gives the very tree that grounding gives, or both fail; the expanded goal has no binder and no variable |
| Effects.FlattenGoal | crates/ferroplan-hddl/src/grounder.rs:848-906 | accumulating into the two literal sets adds exactly the flattened condition to what was there, with the same refusals |
| Effects.CollectEffect | crates/ferroplan-hddl/src/grounder.rs:908-967 | accumulating into a branch appends exactly the effect's own branch, conditionals in order |
| Effects.CollectWhenBody | crates/ferroplan-hddl/src/grounder.rs:988-1050 | the body of a conditional contributes its literals and its inner conditionals under the conjoined guard, refusing a third level |
| Effects.MarkerIsNoKey | crates/ferroplan-hddl/src/grounder.rs:832-846 | no atom with a colon-free predicate renders to the never-true marker of a false equality |
| Effects.ColonFreeStatesAreMarkerFree | crates/ferroplan-hddl/src/grounder.rs:832-846 | so no state built from such atoms ever satisfies that marker |
| Effects.FlattenedGuardMeans | crates/ferroplan-hddl/src/grounder.rs:848-906 | a flattened guard is satisfied by a state exactly when the condition it came from holds there, equalities decided statically |
| Effects.WhenBodyMeans | crates/ferroplan-hddl/src/grounder.rs:970-1050 | under a satisfied guard a flattened body fires exactly the nested body's adds and deletes, and otherwise nothing |
| Effects.FlatteningPreservesEffect | crates/ferroplan-hddl/src/grounder.rs:1052-1083 | in every marker-free state the unconditional and fired conditional adds (and likewise deletes) are exactly those of the nested effect with all guards read in the source state |
| Effects.OutcomesPreserveEffects | crates/ferroplan-hddl/src/grounder.rs:1060-1083 | one outcome per alternative in order, each with exactly its alternative's adds and deletes in every marker-free state |
| Effects.NestedWhenConjoins | crates/ferroplan-hddl/src/grounder.rs:970-1050 | a conditional inside a conditional grounds to the conditional of the conjunction, followed by one that changes nothing |
| Effects.ApplyEffectBranch | crates/ferroplan-hddl/src/translate.rs:544-567 | the loop computes the in-order application, deletes before adds in each group, all guards read in the source |
| Effects.ApplyAt | crates/ferroplan-hddl/src/translate.rs:534-567 | a fact holds afterwards exactly when it held and no group takes it, or some group adds it and no later one takes it |
| Effects.ApplyIsSimultaneousIff | crates/ferroplan-hddl/src/translate.rs:534-567 | the result is (source minus all deletes) plus all adds exactly when no added fact is taken away by a later fired conditional |
| Effects.LaterDeleteBeatsAdd | crates/ferroplan-hddl/src/translate.rs:534-567 | a concrete branch for which it is not: a conditional's delete removes an unconditional add |
| Effects.ApplyAddsOnly | crates/ferroplan-hddl/src/translate.rs:534-567 | applying a branch never adds a fact outside the branch's add sets |
| Applying.ApplyingPerformsEffect | crates/ferroplan-hddl/src/translate.rs:544-567 | grounding an effect and applying it to a state's fact strings gives the strings of the state after the effect as written: its own deletes and adds, then, for each conditional that held before, nested ones before the one around them and in written order, its deletes and adds |
| Applying.ApplyingPerformsOutcome | crates/ferroplan-hddl/src/grounder.rs:1060-1083 | the same for every outcome of an action, one for each alternative |
| TypeClosure.Visit | crates/ferroplan-hddl/src/grounder.rs:672-694 | the grey/black visit finishes exactly what the current type reaches, each type once, and a failure names a type on a real cycle reachable from the start |
| TypeClosure.AncestorsOf | crates/ferroplan-hddl/src/grounder.rs:672-704 | succeeds exactly when no cycle is reachable (diamonds accepted); then lists each reflexive-transitive ancestor once and ends with object; a refusal names a type on a reachable cycle |
| TypeClosure.BuildTypeClosure | crates/ferroplan-hddl/src/grounder.rs:707-744 | the closure is exactly the inverse of the ancestor relation over the types it collects, and fails exactly when one of them reaches a cycle |
| TypeClosure.AddToAll | crates/ferroplan-hddl/src/grounder.rs:738-743 | one type is added to the entry of each of its ancestors and nothing else changes |
| TypeClosure.InstanceListedIff | crates/ferroplan-hddl/src/grounder.rs:746-768 | an instance is listed for a type exactly when its own type stands in the hierarchy or types a parameter of a declaration or a constant |
| TypeClosure.UniverseCompleteIff | crates/ferroplan-hddl/src/grounder.rs:710-768 | parameters and quantifiers of a type range over all of its instances exactly when each instance's type stands in the hierarchy or types a parameter of a declaration or a constant |
| TypeClosure.SortByNameIsStableSort | crates/ferroplan-hddl/src/grounder.rs:746-756 | the objects are put in code-point order of their names, and objects with one name keep their order |
| TypeClosure.NameLeqIff | crates/ferroplan-hddl/src/grounder.rs:756 | the order is that of the first character in which two names differ, a proper beginning coming first |
| TypeClosure.IndexIsInNameOrder | crates/ferroplan-hddl/src/grounder.rs:746-768 | so each type lists its objects in name order |
| TypeClosure.ListedAsOftenAsDeclared | crates/ferroplan-hddl/src/grounder.rs:751-765 | for a type of the closure each name is listed exactly as often as the constants and objects together declare it with one of the type's known subtypes |
| TypeClosure.ListsTwiceIff | crates/ferroplan-hddl/src/grounder.rs:751-765 | so a type lists a name twice exactly when two declarations of it have known subtypes of the type |
| TypeClosure.BindingsOverIndexAreDistinct | crates/ferroplan-hddl/src/grounder.rs:1404-1409 | over distinct constants and objects no binding of distinct parameters is enumerated twice |
| Validation.UnknownTypeHidesObject | crates/ferroplan-hddl/src/grounder.rs:710-768 | an accepted problem with an object of a declared type that nothing else mentions: it is an object, and is not even listed as one |
| Validation.AcceptedListsTwiceIff | crates/ferroplan-hddl/src/validate.rs:1221-1229 | in an accepted input a type lists a name twice exactly when an object of the problem repeats a constant of the domain, both with known subtypes of the type |
| Validation.RepeatedConstantIsListedTwice | crates/ferroplan-hddl/src/validate.rs:1221-1229 | an accepted input in which that happens, so that a parameter of type object takes one object twice |
| Grounders.GroundActions | crates/ferroplan-hddl/src/grounder.rs:1411-1451 | returns every schema instance in order or refuses past the limit, drawing at most limit + 1 bindings however large the product |
| Grounders.GroundActionsReachable | crates/ferroplan-hddl/src/grounder.rs:1459-1502 | the loop is the filtered enumeration: the test on the name precedes the limit and the substitution work |
| Grounders.GroundActionsRelevant | crates/ferroplan-hddl/src/grounder.rs:1878-1945 | the same with both filters, skipping whole schemas by base name without changing the result |
| Grounders.GroundMethods | crates/ferroplan-hddl/src/grounder.rs:1504-1570 | every method instance in order or a refusal, with at most limit + 1 draws |
| Grounders.GroundMethodsReachable | crates/ferroplan-hddl/src/grounder.rs:1583-1658 | the filtered enumeration that drops a method with an unreachable primitive subtask |
| Grounders.GroundMethodsRelevant | crates/ferroplan-hddl/src/grounder.rs:1955-2037 | the filtered enumeration under both filters |
| Grounders.CollectIsFilter | crates/ferroplan-hddl/src/grounder.rs:1459-1502 | for any grounding loop, filtering candidates before building gives the order-preserving filter of the unfiltered output, limits included |
| Grounders.PrunedActionsAreFilter | crates/ferroplan-hddl/src/grounder.rs:1878-1945 | when unpruned grounding succeeds pruned grounding succeeds and is its order-preserving filter |
| Grounders.PrunedMethodsAreFilter | crates/ferroplan-hddl/src/grounder.rs:1955-2037 | the same for methods |
| Grounders.SkippingSchemasIsSound | crates/ferroplan-hddl/src/grounder.rs:1887-1905 | skipping an action schema whose name is no relevant task's base name changes neither output nor refusal |
| Grounders.RootNetworksAt | crates/ferroplan-hddl/src/grounder.rs:2062-2118 | the i-th root network has the source subtasks under the i-th binding of the network's parameters, and the source order |
| Instances.ActionsAreInstances | crates/ferroplan-hddl/src/grounder.rs:1438-1444 | a successful enumeration holds exactly the actions named by the schema and the objects its parameters are bound to, position by position, with the schema's precondition and outcomes ground under that binding |
| Instances.MethodsAreInstances | crates/ferroplan-hddl/src/grounder.rs:1557-1567 | the same for methods, with the head and every subtask rendered under the binding, ids and order kept |
| Instances.EveryChoiceHasAction | crates/ferroplan-hddl/src/grounder.rs:1438-1444 | for distinct parameter names every choice of objects of the parameters' types has its action, under the binding of each parameter to its object |
| Instances.EveryChoiceHasMethod | crates/ferroplan-hddl/src/grounder.rs:1557-1567 | the same for methods |
| Instances.FullActionAt | crates/ferroplan-hddl/src/grounder.rs:1420-1448 | the k-th ground action is the instance under the binding that the enumeration reaches k-th |
| Instances.FullMethodAt | crates/ferroplan-hddl/src/grounder.rs:1513-1567 | the same for methods |
| Instances.CallNamesInstance | crates/ferroplan-hddl/src/grounder.rs:1529-1545 | a subtask renders to an instance's name exactly when its symbol is the schema's and its arguments denote, position by position, the objects the instance binds |
| Instances.FullActionsIff | crates/ferroplan-hddl/src/grounder.rs:1420-1448 | the enumeration succeeds exactly when the choices of objects fit the limit and every precondition and effect compiles |
| Instances.FullMethodsIff | crates/ferroplan-hddl/src/grounder.rs:1513-1567 | the same for methods, whose heads and subtasks must render as well |
| Instances.CollectAllFails | crates/ferroplan-hddl/src/grounder.rs:1420-1448 | otherwise the first instance that is one too many or does not compile decides the refusal |
| Instances.PrunedActionsAreInstances | crates/ferroplan-hddl/src/grounder.rs:1878-1945 | pruned enumeration holds exactly the instances whose names are relevant and reachable, where these are computed |
| Instances.PrunedMethodsAreInstances | crates/ferroplan-hddl/src/grounder.rs:1955-2037 | and exactly the method instances whose head is relevant and none of whose subtasks is a call, by symbol, of an action that is not reachable |
| Instances.RootNetworksAreInstances | crates/ferroplan-hddl/src/grounder.rs:2062-2118 | the root networks are exactly the written one under each binding of its parameters |
| Reachability.SatFaithful | crates/ferroplan-hddl/src/grounder.rs:1097-1137 | an answer of the bounded relaxed test is the unbounded relaxed truth value, and the only refusal is at depth budget + 1 |
| Reachability.SatIsEvaluation | crates/ferroplan-hddl/src/grounder.rs:1097-1137 | the relaxed test is the exact evaluation, with the same budget and the same refusals, of the goal with every negation taken to hold |
| Reachability.RelaxedTest | crates/ferroplan-hddl/src/grounder.rs:1097-1137 | it answers the relaxed truth for every goal whose levels outside negations fit the budget, in particular for every goal no higher than the budget, and its one refusal is of a goal that does not fit |
| Reachability.ExactImpliesRelaxed | crates/ferroplan-hddl/src/grounder.rs:1085-1137 | what holds exactly in a set of facts holds relaxed in every superset |
| Reachability.RelaxedMonotone | crates/ferroplan-hddl/src/grounder.rs:1085-1137 | relaxed truth is monotone in the facts |
| Reachability.AddsIff | crates/ferroplan-hddl/src/grounder.rs:1229-1271 | a rule adds a fact exactly when some branch of the action's outcomes or of the method's effect adds it, or one of the branch's conditionals does |
| Reachability.TrySchema | crates/ferroplan-hddl/src/grounder.rs:1212-1272 | one pass over a schema's pending bindings keeps the facts inside the least closed set and fires or leaves idle every binding; it is refused only by a rule that does not ground or by a precondition too deep outside its negations |
| Reachability.Saturate | crates/ferroplan-hddl/src/grounder.rs:1210-1276 | the repeat-until-unchanged loop ends, in exactly the least closed set of facts and the names that may fire in it, or is refused for those two reasons |
| Reachability.ComputeReachability | crates/ferroplan-hddl/src/grounder.rs:1169-1282 | the result is exactly the least set of facts closed under the relaxed add rules of actions and methods, with exactly the names of the actions that may fire in it; it is refused only with the error of a rule that does not ground, or when some ground precondition is too deep outside its negations |
| Reachability.ReachabilityIgnoresOrder | crates/ferroplan-hddl/src/grounder.rs:1169-1282 | listing schemas in another order gives the same facts and names |
| Relevance.RelevantSymbols | crates/ferroplan-hddl/src/grounder.rs:1743-1762 | the symbol worklist ends in exactly the least set with the root symbols that has, with each method head, the symbols of its subtasks |
| Relevance.IndexSchema | crates/ferroplan-hddl/src/grounder.rs:1776-1821 | a schema's bindings are filed under exactly their ground heads, or the schema has no renderable head at all |
| Relevance.IndexMethods | crates/ferroplan-hddl/src/grounder.rs:1776-1821 | only schemas with a relevant head symbol are indexed, each with its bindings, and every such schema is unless no instance of it has a head |
| Relevance.IndexBases | crates/ferroplan-hddl/src/grounder.rs:1822-1831 | each bucket holds, in increasing order, exactly the positions of the indexed schemas with its head symbol |
| Relevance.SeedRoots | crates/ferroplan-hddl/src/grounder.rs:1764-1774 | the worklist starts with exactly the root networks' ground subtasks |
| Relevance.ExpandInstance | crates/ferroplan-hddl/src/grounder.rs:1847-1861 | one method instance makes exactly its ground subtasks relevant and queues the new ones |
| Relevance.ExpandTask | crates/ferroplan-hddl/src/grounder.rs:1834-1863 | one popped name makes exactly the subtasks of all method instances decomposing it relevant |
| Relevance.DemandStaysInSymbols | crates/ferroplan-hddl/src/grounder.rs:1743-1762 | the symbol of every task demanded by a relevant one is a relevant symbol, so the symbol stage excludes nothing |
| Relevance.ComputeTaskRelevance | crates/ferroplan-hddl/src/grounder.rs:1735-1868 | a successful result is exactly the least set containing the root tasks and closed under demand; the only failures are tasks that cannot be rendered |
| Relevance.DrainWorklist | crates/ferroplan-hddl/src/grounder.rs:1833-1863 | the worklist loop terminates in that least set |
| Relevance.RelevanceIsUnique | crates/ferroplan-hddl/src/grounder.rs:1735-1868 | the least such set is unique |
| Relevance.RelevantIff | crates/ferroplan-hddl/src/grounder.rs:1735-1868 | a task is relevant exactly when a chain of decompositions by method instances leads to it from a root task |
| Htn.MovesAreSteps | crates/ferroplan-hddl/src/translate.rs:1034-1160 | the moves recorded at an enabled node are exactly the steps of the transition relation there |
| Htn.ExecutionStep | crates/ferroplan-hddl/src/translate.rs:1114-1152 | an execution applies its outcome; the task stays pending exactly when the action has more than one outcome and this one changes no fact, and then the state is the same; otherwise the task goes with its constraints and every other task and constraint stays |
| Htn.RetryAnyNumberOfTimes | crates/ferroplan-hddl/src/translate.rs:1119-1141 | so an outcome that changes nothing can occur any number of times in a row along a run |
| Htn.DecompositionStep | crates/ferroplan-hddl/src/translate.rs:634-703 | a decomposition applies the method's effect, takes the node away and puts each subtask, the last of equal ids, at the node's address with its id; every other task stays unless a subtask takes its address |
| Htn.DecompositionOrder | crates/ferroplan-hddl/src/translate.rs:634-703 | the constraints afterwards are exactly those not from the node, the method's between its subtasks, and those from each subtask that precedes no other to whatever the node preceded |
| Htn.InitialNetwork | crates/ferroplan-hddl/src/translate.rs:955-985 | an exploration starts in the initial facts with the root subtasks below r and exactly the network's constraints between them |
| Htn.ChildDepth | crates/ferroplan-hddl/src/translate.rs:583-587 | a child is exactly one level deeper than its parent when its id has no dot |
| Addresses.DotFreeIsUnambiguous | crates/ferroplan-hddl/src/translate.rs:571-581 | sequences of ids without dots join to different addresses |
| Addresses.DottedIdsAreAmbiguous | crates/ferroplan-hddl/src/translate.rs:571-581 | the ids a, b and a.b do not |
| Addresses.NoTaskIsLostIff | crates/ferroplan-hddl/src/translate.rs:694-700 | every subtask of a network is pending with its own task exactly when equal ids carry equal tasks |
| Addresses.OwnNodesIff | crates/ferroplan-hddl/src/translate.rs:694-700 | every subtask has a pending node of its own exactly when the ids of the network are distinct |
| Addresses.RefineKeepsNoneBelow | crates/ferroplan-hddl/src/translate.rs:634-703 | over unambiguous ids decomposing a node keeps the pending nodes unrelated in the tree, adds every child with its task and leaves every other pending node as it was |
| Addresses.RunKeepsNoneBelow | crates/ferroplan-hddl/src/translate.rs:571-719 | so along every run from a root network no pending node lies below another |
| Addresses.ClashCollides | crates/ferroplan-hddl/src/translate.rs:571-581 | for any two id sequences that part at once and first join alike at their ends, a run of a problem over these ids in which a child takes the address of another pending node |
| Addresses.AddressesNeverCollideIff | crates/ferroplan-hddl/src/translate.rs:571-581 | along every run of every problem whose networks draw their ids from a vocabulary no child takes an occupied address, exactly when no two id sequences over it join alike; repeated ids within a network do not matter for this |
| Ordering.EnabledHasNoPredecessor | crates/ferroplan-hddl/src/translate.rs:613-624 | an enabled node has no predecessor among the pending ones, not even an indirect one |
| Ordering.EnabledIff | crates/ferroplan-hddl/src/translate.rs:613-624 | a pending node is enabled exactly when nothing precedes it |
| Ordering.AdvanceKeepsPrecedes | crates/ferroplan-hddl/src/translate.rs:705-719 | discharging an enabled node neither adds nor loses a constraint between two others, transitively |
| Ordering.RefineKeepsPrecedes | crates/ferroplan-hddl/src/translate.rs:626-703 | decomposing a node loses no constraint between two others, transitively, bridging an empty method included, and adds none unless a child takes the address of a pending node |
| Ordering.ChildrenInheritPredecessors | crates/ferroplan-hddl/src/translate.rs:626-703 | every child stands behind the nodes its parent stood behind, and behind no others if the children are at new addresses |
| Ordering.ChildrenInheritSuccessors | crates/ferroplan-hddl/src/translate.rs:626-703 | every child stands before the nodes its parent stood before, and before no others if the children are at new addresses |
| Ordering.ChildrenKeepOrder | crates/ferroplan-hddl/src/translate.rs:634-703 | one child precedes another, transitively, exactly when the method orders their ids so, if the children are at new addresses; no such constraint is lost in any case |
| Ordering.RootsKeepOrder | crates/ferroplan-hddl/src/translate.rs:969-975 | one root subtask precedes another exactly when the network orders their ids so |
| Ordering.StepKeepsEdgesWithin | crates/ferroplan-hddl/src/translate.rs:599-602 | every step keeps constraints between pending nodes only, whatever the ids |
| Ordering.OrderIsRespected | crates/ferroplan-hddl/src/translate.rs:613-719 | along every run, whatever the ids, once one node must come before another, nothing left of the second is decomposed or executed while anything is left of the first |
| Ordering.LeftIsPendingBelow | crates/ferroplan-hddl/src/translate.rs:571-719 | over unambiguous ids what is left of a node is what is pending at or below its address |
| Ordering.OrderNeverChanges | crates/ferroplan-hddl/src/translate.rs:626-719 | along every run no constraint between two nodes that stay pending is lost, and none is added unless a child takes the address of a pending node |
| Ordering.ValidOrdersGroundCleanly | crates/ferroplan-hddl/src/validate.rs:833-857 | networks whose constraints name their own subtasks acyclically, as validation demands, ground to networks of that kind |
| Markers.FieldsSplit | crates/ferroplan-hddl/src/translate.rs:721-730 | two lists of length-prefixed fields with a semicolon between them can be told apart, whatever characters the fields contain |
| Markers.TotalOrderRanks | crates/ferroplan-hddl/src/translate.rs:741-778 | the counting loop returns the ranking of the pending nodes, or nothing as soon as not exactly one is ready or a constraint leads outside |
| Markers.TotalOrderIff | crates/ferroplan-hddl/src/translate.rs:732-778 | the ranking is a given list exactly when all constraints go forward in it and one leads from each node to the next |
| Markers.CanonicalMarkersAgree | crates/ferroplan-hddl/src/translate.rs:811-827 | two markers by rank are equal exactly when the tasks in rank order and the constraints between ranks are |
| Markers.RawMarkersAgree | crates/ferroplan-hddl/src/translate.rs:828-842 | two markers by address are equal only for equal networks |
| Markers.MarkerIsNoFact | crates/ferroplan-hddl/src/translate.rs:780-784 | no atom with a colon-free predicate renders to a marker |
| Bisimulation.EqualMarkersAreAlike | crates/ferroplan-hddl/src/translate.rs:797-805 | networks with one marker match one to one, keeping tasks and constraints |
| Bisimulation.LineMarkersIff | crates/ferroplan-hddl/src/translate.rs:786-796 | if the constraints leave no choice, networks that match one to one also have one marker |
| Bisimulation.StoredAlikeIff | crates/ferroplan-hddl/src/translate.rs:849-869 | two states of colon-free atoms are stored under the same facts exactly when their facts and their markers are equal |
| Bisimulation.StoredFactsTell | crates/ferroplan-hddl/src/translate.rs:862-870 | the stored facts contain the done marker exactly when nothing is pending, and an atom exactly when the state does |
| Bisimulation.AlikeIffBothFresh | crates/ferroplan-hddl/src/translate.rs:634-703 | if one of two matching networks gives every child of a decomposition a new address, decomposing both keeps them alike exactly when the other does so too |
| Bisimulation.RefineKeepsMatching | crates/ferroplan-hddl/src/translate.rs:634-703 | decomposing corresponding nodes by one method makes matching networks again if the children take the addresses of corresponding nodes, or of none |
| Bisimulation.StepIsMatched | crates/ferroplan-hddl/src/translate.rs:797-805 | a step from one of two states with equal facts and matching networks can be followed from the other by the same choice, with equal facts; the networks match again unless a decomposition collides on one side only, and with new addresses on one side they are alike just if there are on the other |
| Merging.HitIsDead | crates/ferroplan-hddl/src/translate.rs:634-703 | a child that takes the address of a node its parent had to precede leaves a node that has to precede itself |
| Merging.DeadCannotFinish | crates/ferroplan-hddl/src/translate.rs:1018-1160 | from such a network no sequence of steps empties it |
| Merging.PathIsReplayed | crates/ferroplan-hddl/src/translate.rs:797-805 | from two states with equal facts and equal markers whose lines have the same ways down blocked, any path from the one that does not end in such a network can be followed from the other, choice by choice, through states with equal facts and alike networks |
| Merging.MergedStatesSolveAlike | crates/ferroplan-hddl/src/translate.rs:849-861 | of two runs that end with equal facts and equal markers, in lines with the same ways down blocked or in one network, either both can be continued to an empty network in a goal state or neither can |
| Walkers.WalkFinishesIff | crates/ferroplan-hddl/src/translate.rs:634-703 | a program that walks down given ids from the first node of a line can be finished exactly when no later node is in its way |
| Walkers.LinesMergeIff | crates/ferroplan-hddl/src/translate.rs:797-805 | two lines may be merged, for every problem over given ids and all states with equal facts and equal markers in these lines, exactly when rank by rank the same ways down over these ids are blocked |
| Tangles.RunKeepsBeside | crates/ferroplan-hddl/src/translate.rs:634-703 | along every run a constraint leads from at or below one child of a node to another child of it |
| Tangles.CleanRunKeepsBeside | crates/ferroplan-hddl/src/translate.rs:634-703 | so does the transitive order, as long as no child takes an occupied address |
| Tangles.UntangledMergesWell | crates/ferroplan-hddl/src/translate.rs:797-805 | merging is sound for ids without a chain of such constraints from an address to one below it |
| Tangles.UnambiguousIsUntangled | crates/ferroplan-hddl/src/translate.rs:571-576 | ids that join unambiguously have no such chain |
| Retasking.PlayedAgain | crates/ferroplan-hddl/src/translate.rs:1018-1160 | any run can be played again, address by address and constraint by constraint, with whatever tasks one likes at its end |
| MergeSafety.JoinedIdsLosePlans | crates/ferroplan-hddl/src/translate.rs:797-805 | if some id is the join of others, an accepted problem over these ids, with distinct ids in every network, has two runs that end in states stored under the same facts, of which exactly one can be continued to the goal |
| MergeSafety.MergesWellBeforeCollisionsIff | crates/ferroplan-hddl/src/translate.rs:797-805 | merging is sound, for every problem over given ids and all runs in which no child takes an occupied address, exactly when no id is the join of others |
| MergeSafety.MergesWellIff | crates/ferroplan-hddl/src/translate.rs:797-805 | merging is sound, for every problem over given ids and all runs, exactly when all lines that such runs can end in, with equally ranked constraints, have the same ways down blocked; not if an id joins from others, and always without tangles |
| Crossings.JoinsAreNotAll | crates/ferroplan-hddl/src/translate.rs:797-805 | two ids, neither of them a join of others, for which merging is sound until children collide and unsound over all runs |
| Bisimulation.RefusedIff | crates/ferroplan-hddl/src/translate.rs:1055-1069 | a node offers moves exactly when all conditions evaluated for its task have answers and its depth leaves room for the children of every applicable method |
| Bisimulation.RefusedTogetherIff | crates/ferroplan-hddl/src/translate.rs:797-805 | corresponding nodes of states with equal facts and matching networks are refused together exactly when both have that room or neither |
| Bisimulation.DepthIsNotInMarker | crates/ferroplan-hddl/src/translate.rs:797-805 | two states of one run stored under the same facts, of which only the deeper one is refused for its depth |
| Preservation.RelevancePreservesProblem | crates/ferroplan-hddl/src/grounder.rs:39-61 | over all runs from all root networks the full and relevance-filtered problems have the same runs, and at the end of each run every enabled node offers the same moves in the same order or the same refusal |
| Preservation.RelaxationCoversHistories | crates/ferroplan-hddl/src/grounder.rs:1139-1282 | every fact true after any history of applicable actions (any outcome, any fired conditional) and method effects is in the reachable facts, and every ground action applicable there is recorded |
| Preservation.RunIsHistory | crates/ferroplan-hddl/src/translate.rs:1018-1160 | every run of the transition system is such a history |
| Preservation.PendingPrimitivesAreReachable | crates/ferroplan-hddl/src/grounder.rs:1572-1658 | along a run that empties the network every pending primitive is a reachable action, if ids tell subtasks apart and no decomposed task is named like an action |
| Preservation.GroundingKeepsIds | crates/ferroplan-hddl/src/grounder.rs:1504-1570 | subtask ids survive grounding and equal tasks render alike, so conditions on the syntax suffice |
| Preservation.UsedMethodIsKept | crates/ferroplan-hddl/src/grounder.rs:1572-1658 | a run that empties the network decomposes only by methods without an unreachable primitive subtask |
| Preservation.BothFiltersKeepPlans | crates/ferroplan-hddl/src/grounder.rs:61-67 | a run empties the task network, and ends in the goal, over the full grounding exactly when it does over the grounding with both filters, including the rule on unreachable primitive subtasks |
| Preservation.StrongCyclicPoliciesSurvive | crates/ferroplan-hddl/src/grounder.rs:61-67 | the policies that can always be continued to an empty network in a goal state, however outcomes fall, are the same before and after both filters, with the same runs |
| Preservation.PrunedPoliciesLift | crates/ferroplan-hddl/src/grounder.rs:61-67 | such a policy of the pruned problem is one of the full problem, whatever was pruned |
| Nullary.ProgramAccepted | crates/ferroplan-hddl/src/validate.rs:1026-1066 | every program of plain methods over declared tasks, with valid orders and distinct method names, lifts to an input that validation accepts |
| Nullary.ProgramGrounds | crates/ferroplan-hddl/src/grounder.rs:2176-2244 | and that input grounds to the program itself |
| PruningSafety.HazardAccepted | crates/ferroplan-hddl/src/validate.rs:1026-1066 | every input of the family that loses its only plan is one that validation accepts |
| PruningSafety.SharedNameLosesPlans | crates/ferroplan-hddl/src/grounder.rs:1583-1658 | a name that is both an action and a decomposed task: an accepted problem solvable as grounded without pruning and unsolvable as grounded with it |
| PruningSafety.RepeatedIdsLosePlans | crates/ferroplan-hddl/src/grounder.rs:1583-1658 | the same for any action and task, with one id repeated in a network for two tasks |
| PruningSafety.AmbiguousIdsLosePlans | crates/ferroplan-hddl/src/grounder.rs:1583-1658 | the same, without repeated ids, for any vocabulary of ids that join ambiguously |
| PruningSafety.SafeInputsKeepSolvability | crates/ferroplan-hddl/src/grounder.rs:61-67 | if no decomposed task is named like an action and ids tell subtasks apart, or there is nothing to drop, a problem solvable as grounded without pruning is solvable as grounded with either setting of the other flag |
| PruningSafety.SafeVocabularyIff | crates/ferroplan-hddl/src/grounder.rs:61-67 | reachability pruning keeps every solvable accepted problem over given action names, task names and subtask ids solvable exactly when one of the three is empty, or no name is in both of the first two, ids join unambiguously and a repeated id repeats its task |
| Pipeline.InitialFactsAreTheAtoms | crates/ferroplan-hddl/src/grounder.rs:2039-2059 | the initial facts are exactly the strings of the initial atoms, and a variable among them is refused |
| Pipeline.GroundProblem | crates/ferroplan-hddl/src/grounder.rs:2176-2244 | a successful result is the grounding described by the flags over the typed universe; a cyclic hierarchy is refused, and otherwise every problem that grounds without pruning grounds with any flags, unless reachability meets a precondition too deep outside its negations |
| Pipeline.GroundOver | crates/ferroplan-hddl/src/grounder.rs:2180-2244 | the same over a fixed object universe, for all four settings of the two flags |
| Pipeline.ShallowRulesFit | crates/ferroplan-hddl/src/grounder.rs:1097-1137 | no precondition is too deep for it when all have at most 256 levels as written, antecedents counted twice |
| Pipeline.PruningDrops | crates/ferroplan-hddl/src/grounder.rs:2180-2244 | relevance pruning drops exactly the actions and methods whose task no chain of decompositions leads to; reachability pruning drops exactly the actions that cannot fire in the least relaxed set and the methods with a subtask named after an action that is no such action; initial facts, roots and goal are the same |
| Refusals.GroundSucceedsIff | crates/ferroplan-hddl/src/grounder.rs:348-413 | a goal grounds when every variable is bound where it stands and every equality has two sides; only then, if no quantifier ranges over nothing |
| Refusals.FlattenSucceedsIff | crates/ferroplan-hddl/src/grounder.rs:848-906 | a condition flattens exactly when it is a conjunction of literals with bound variables and binary equalities |
| Refusals.OutcomesSucceedIff | crates/ferroplan-hddl/src/grounder.rs:1060-1083 | an effect compiles exactly when it is a choice of, or one, combination of literals and of conditionals at most two deep with flat conditions, all variables bound |
| Refusals.GroundRefuses | crates/ferroplan-hddl/src/grounder.rs:348-413 | a refused goal is refused for a variable that stands unbound in it, which the refusal names, or for an equality in it that is not binary |
| Refusals.OutcomesRefuse | crates/ferroplan-hddl/src/grounder.rs:848-1083 | a refused effect is refused for something that stands in it: an unbound variable or a numeric change, which the refusal names, or an unsupported condition, choice or third level of conditionals |
| Refusals.GroundsWithinLimits | crates/ferroplan-hddl/src/grounder.rs:2180-2244 | an input whose formulas and effects all compile grounds without pruning exactly when the limits hold its choices of objects |
| Refusals.AcceptedInputGrounds | crates/ferroplan-hddl/src/grounder.rs:2176-2244 | for an accepted input only closed action formulas, effects of that form and a closed goal are left to ask for |
| Pipeline.FlagsPreserveProblem | crates/ferroplan-hddl/src/grounder.rs:2120-2244 | two groundings of one problem that differ in the flags have the same runs that empty the network and the same that end in the goal; without reachability pruning, and then under no condition on names, all runs and all offered moves agree |
| TopoSort.TopologicalOrder | benchmarks/encoding-ab/gen.py:131-138 | the queue loop lists each resource at most once and after all its inputs, and lists all of them exactly when the graph is acyclic |
| TopoSort.Sources | benchmarks/encoding-ab/gen.py:131 | the queue starts with exactly the resources that have no inputs, each once |
| TopoSort.CompleteIffAcyclic | benchmarks/encoding-ab/gen.py:131-138 | an exhausted queue has missed nothing exactly when some rank grows along every edge |
| Demand.BuildGraph | benchmarks/encoding-ab/gen.py:126-130 | builds exactly the recipe graph with its in-degree counts, each edge counted once |
| Demand.RecipeGraphEdges | benchmarks/encoding-ab/gen.py:126-130 | an edge joins two resources exactly when some recipe turns one into the other |
| Demand.CeilDivBounds | benchmarks/encoding-ab/gen.py:145 | negated floor division of the negated numerator is the least quotient that covers the numerator |
| Demand.ComputeDemand | benchmarks/encoding-ab/gen.py:121-149 | demand is exactly what the firings and the goal require of each resource, and for an acyclic graph each recipe fires just often enough for what is required of its output |
| Demand.AddDemand | benchmarks/encoding-ab/gen.py:147-148 | one maker's inputs each gain quantity times firings, repeated inputs adding up, and no other demand changes |
| Provision.FiringsAreLeast | benchmarks/encoding-ab/gen.py:121-149 | for an acyclic graph the computed firings make enough and every vector that makes enough fires each recipe at least as often |
| Provision.DemandedIffNeeded | benchmarks/encoding-ab/gen.py:121-149 | for an acyclic graph the demand for a resource is positive exactly when some of the goal is wanted and it needs the resource through positive quantities |
| Provision.StockNeverNegative | benchmarks/encoding-ab/gen.py:152-157 | at any stage reached by firing inputs first a stock is non-negative exactly when the resource is made or raw, or has not been consumed |
| Provision.ProvisionSufficesIff | benchmarks/encoding-ab/gen.py:152-157 | firing everything from the raw stock leaves no stock negative and at least N of the goal exactly when every resource that the goal needs and no recipe makes is a raw |
| Provision.RawStockIsTight | benchmarks/encoding-ab/gen.py:152-157 | a demanded raw starts with no more than any sufficient firing vector consumes of it, and an undemanded raw still starts with some |
| Provision.LeftAtTheEnd | benchmarks/encoding-ab/gen.py:152-157 | when everything has fired, of a resource that no recipe makes exactly the goal amount is left if it is the goal, four if it is a raw that the goal does not need, nothing if it is another raw, and it is short by all that was used if it is no raw |
| Provision.TopologicalRunNeverOverdraws | benchmarks/encoding-ab/gen.py:152-157 | firing one at a time in topological order ends with the full counts; no stock is ever negative and N of the goal are left exactly under the same condition |
| Lanes.Sink | crates/ferroplan-bevy/src/gantt.rs:135-140 | moving one entry forwards past exactly the later-starting ones keeps the prefix sorted and stable, and permutes the array |
| Lanes.SortByStart | crates/ferroplan-bevy/src/gantt.rs:135-140 | the array ends with every step once, by start time, ties in plan order |
| Lanes.Position | crates/ferroplan-bevy/src/gantt.rs:147-153 | finds the first lane free at the start time, or one past the last |
| Lanes.PackLanes | crates/ferroplan-bevy/src/gantt.rs:134-159 | the loop assigns lanes as the one-pass packing of the steps in placement order does; every lane it assigns is below the number it reports, and every lane below that number is used, or the plan is empty and the number is one |
| Lanes.PackingIsSound | crates/ferroplan-bevy/src/gantt.rs:131-159 | every step is placed exactly once, and of any two steps in one lane, not only neighbours, the earlier placed one is over up to the tolerance when the other starts |
| Lanes.CountIsAttained | crates/ferroplan-bevy/src/gantt.rs:147-158 | the lanes assigned are a valid assignment of all steps to exactly the reported number of lanes |
| Lanes.PackHasClique | crates/ferroplan-bevy/src/gantt.rs:147-154 | opening a lane exhibits that many intervals each still running when a later one starts |
| Lanes.PackIsLeastChronological | crates/ferroplan-bevy/src/gantt.rs:131-159 | no assignment that respects placement order uses fewer lanes |
| Lanes.PackingIsOptimal | crates/ferroplan-bevy/src/gantt.rs:131-159 | no assignment at all uses fewer lanes when no step within the tolerance in length is placed after a longer one it could have preceded |
| Lanes.MixedLengthsWasteALane | crates/ferroplan-bevy/src/gantt.rs:131-159 | a long step and then a very short one at the same time take two lanes where one would do |
| Lanes.OptimalIffUniformLengths | crates/ferroplan-bevy/src/gantt.rs:131-159 | the reported number is attained by a valid assignment and none uses fewer, for every plan built from given lengths, exactly when those lengths do not mix lengths within the tolerance with longer ones |
| SExpressions.Reader.constructor | benchmarks/probes-0.28/sgplan-timing/compress.py:9-11 | the cursor starts before the first token |
| SExpressions.Reader.Read | benchmarks/probes-0.28/sgplan-timing/compress.py:12-20 | the recursive reader with its shared cursor returns the tree and moves the cursor as reading the token suffix prescribes, and fails exactly when the tokens run out |
| SExpressions.Parse | benchmarks/probes-0.28/sgplan-timing/compress.py:8-21 | parsing returns what reading the tokens of the comment-free text prescribes |
| SExpressions.TokensOfDump | benchmarks/probes-0.28/sgplan-timing/compress.py:9-23 | tokenizing a printed tree gives the tree's tokens back, whatever delimited text follows |
| SExpressions.SeparatorSplits | benchmarks/probes-0.28/sgplan-timing/compress.py:9 | in any text a space separates tokens and is none, and a parenthesis separates tokens and is one |
| SExpressions.RunIsOneToken | benchmarks/probes-0.28/sgplan-timing/compress.py:9 | any other run of characters is one token |
| SExpressions.CommentRunsToLineEnd | benchmarks/probes-0.28/sgplan-timing/compress.py:8 | a comment runs from its semicolon up to the end of the line, which stays, or to the end of the text |
| SExpressions.CaseIsIgnored | benchmarks/probes-0.28/sgplan-timing/compress.py:12-20 | reading gives the same tree, or the same refusal, for tokens in any case |
| SExpressions.LowersLetters | benchmarks/probes-0.28/sgplan-timing/compress.py:20 | lowering turns each capital letter into the letter at its place and keeps every other ASCII character |
| SExpressions.ReadingIsFlat | benchmarks/probes-0.28/sgplan-timing/compress.py:12-20 | what reading returns is spelled, token by token, as what it read, lowered |
| SExpressions.ReadsBack | benchmarks/probes-0.28/sgplan-timing/compress.py:12-23 | reading a printable tree's tokens gives the tree back and leaves the rest |
| SExpressions.JoinAppends | benchmarks/probes-0.28/sgplan-timing/compress.py:22-23 | a list prints as its parts in order with single spaces between them |
| SExpressions.ParseUndoesDump | benchmarks/probes-0.28/sgplan-timing/compress.py:8-23 | parsing a printed tree gives the tree back, empty lists and any depth included |
| SExpressions.DumpIsInjective | benchmarks/probes-0.28/sgplan-timing/compress.py:22-23 | two printable trees never print alike, so printed trees can serve as keys |
| SExpressions.ParsedIsPrintable | benchmarks/probes-0.28/sgplan-timing/compress.py:8-21 | whatever parsing returns is printable, but for a stray closing parenthesis |
| SExpressions.RoundTripIff | benchmarks/probes-0.28/sgplan-timing/compress.py:8-23 | printing then parsing gives back exactly the trees with nonempty lower-case atoms free of spaces, parentheses and semicolons, and the stray closing parenthesis |
| SExpressions.PrintingIsNormal | benchmarks/probes-0.28/sgplan-timing/compress.py:8-23 | printing what was parsed and parsing again changes nothing |
| Compressor.SelectPreconditions | benchmarks/probes-0.28/sgplan-timing/compress.py:69-76 | the loop keeps exactly the conditions that the start effects do not establish |
| Compressor.PreconditionSplits | benchmarks/probes-0.28/sgplan-timing/compress.py:69-76 | conditions are kept one by one and in order |
| Compressor.ConjOfAnd | benchmarks/probes-0.28/sgplan-timing/compress.py:24-26 | conjunctions flatten part by part and in order, whatever the nesting; every other nonempty formula stays whole |
| Compressor.FieldIsLast | benchmarks/probes-0.28/sgplan-timing/compress.py:60 | the value behind the last place of a keyword counts |
| Compressor.TimeInside | benchmarks/probes-0.28/sgplan-timing/compress.py:42-58 | the time of a formula is that of its first timed part, and it is stripped part by part |
| Compressor.HardIff | benchmarks/probes-0.28/sgplan-timing/compress.py:28-40 | a condition is dropped exactly when, time specifiers aside, it is a preference, or quantifies one or a conjunction of such; the second test of the original adds nothing |
| Compressor.GroupByFluent | benchmarks/probes-0.28/sgplan-timing/compress.py:80-83 | the dictionary files every increase or decrease under its fluent, in order |
| Compressor.CancelEqual | benchmarks/probes-0.28/sgplan-timing/compress.py:92-93 | removing equal amounts in place leaves each list without exactly the occurrences that the other one has too |
| Compressor.TotalOf | benchmarks/probes-0.28/sgplan-timing/compress.py:95-96 | the loop builds the sum of the increases less each decrease |
| Compressor.MergeChanges | benchmarks/probes-0.28/sgplan-timing/compress.py:84-99 | the output loop with its done set emits one combined change per fluent changed twice or more, at the first of them, and everything else in place |
| Compressor.CompressAction | benchmarks/probes-0.28/sgplan-timing/compress.py:59-101 | the resulting action has the selected precondition and the merged effect, parameters unchanged |
| Compressor.OtherEffectsStay | benchmarks/probes-0.28/sgplan-timing/compress.py:77-99 | effects other than literals, increases and decreases all stay, those of the start before those of the end and each in order |
| Compressor.SplitByTime | benchmarks/probes-0.28/sgplan-timing/compress.py:64-65 | an effect at the start or without a time is a start effect, one at the end an end effect, any other neither |
| Compression.ListsOf | benchmarks/probes-0.28/sgplan-timing/compress.py:60-65 | for a durative action with literal conditions and effects no condition is lost as a preference and the effects split by their time specifier |
| Compression.QuantifiedReadsBack | benchmarks/probes-0.28/sgplan-timing/compress.py:42-58 | a time specifier inside a quantification counts as if it stood outside |
| Compression.CompressedSets | benchmarks/probes-0.28/sgplan-timing/compress.py:77-99 | the compressed effect sets what the end effects set, and what the start effects set of atoms the end leaves alone |
| SequentialLayout.FinalFactsAgreeIff | benchmarks/probes-0.28/sgplan-timing/compress.py:77-101 | from any facts and under any binding the compressed action ends in the facts of start-then-end execution exactly when no kept start addition is bound to the same ground atom as an end deletion |
| SequentialLayout.UnaliasedIsNotClobbered | benchmarks/probes-0.28/sgplan-timing/compress.py:77-78 | which never happens when different atoms stay different under the binding |
| SequentialLayout.AliasingClobbers | benchmarks/probes-0.28/sgplan-timing/compress.py:77-78 | and does happen when two parameters are bound to one object |
| SequentialLayout.CompressedAsks | benchmarks/probes-0.28/sgplan-timing/compress.py:67-76 | the compressed precondition asks for the start conditions and for those later ones that no start effect on the same atom brings about |
| SequentialLayout.CompressedRunsIff | benchmarks/probes-0.28/sgplan-timing/compress.py:67-76 | wherever the compressed action is applicable the durative one is too exactly when its start effects falsify none of its own over-all or end conditions |
| SequentialLayout.NoRunIsLostIff | benchmarks/probes-0.28/sgplan-timing/compress.py:67-76 | for an action that can run at all, every state it can run from is one the compressed action can run from, exactly when each later condition helped only by aliasing is asked for at the start as well |
| SequentialLayout.UnaliasedIsCompressible | benchmarks/probes-0.28/sgplan-timing/compress.py:59-101 | without aliasing nothing further is asked of such an action |
| SequentialLayout.PlansAgree | benchmarks/probes-0.28/sgplan-timing/compress.py:1-6 | every run of a plan of durative actions laid end to end is a run of the compressed plan to the same facts, and the other way round exactly when no action of the plan falsifies its own later conditions |
| MergedChanges.EvalDependsOn | benchmarks/probes-0.28/sgplan-timing/compress.py:135-146 | an amount's value depends only on the fluents read in it |
| MergedChanges.CancelKeepsDifference | benchmarks/probes-0.28/sgplan-timing/compress.py:91-93 | cancelling keeps increases less decreases, whatever the amounts' values |
| MergedChanges.TotalIsDifference | benchmarks/probes-0.28/sgplan-timing/compress.py:95-96 | the combined amount evaluates to increases less decreases |
| MergedChanges.MergingKeepsNetChange | benchmarks/probes-0.28/sgplan-timing/compress.py:79-99 | merging keeps the net change of every ground fluent under every binding and valuation |
| MergedChanges.EarlyReaderDiffers | benchmarks/probes-0.28/sgplan-timing/compress.py:79-99 | a durative action whose end amount reads a fluent bound like one that its start changes: the values differ, from every starting value |
| MergedChanges.PlansKeepFluentsIff | benchmarks/probes-0.28/sgplan-timing/compress.py:1-6 | all plans whose start changes touch only given fluents and whose end amounts read only given ones keep every fluent, from every starting value, exactly when under none of the bindings a touched and a read fluent are one ground fluent |

## Left out

- wall-clock deadlines: an arbitrary early error with no functional content.
- HDDL text parsing: the model starts from the syntax trees, and states what validation accepts without modelling its loops; `:constraints`, numeric-fluent and probability constructs, each refused or weighted by one branch, are not in them.
- error payloads: an error keeps its kind and the data the results speak about, not its message text.
- iterative dropping of deep goals (`grounder.rs:299-341`): memory management only.
- state ids, transition probabilities, the disjunctive goal encoding and the breadth-first queue of `translate.rs`: runs are sequences of moves, the goal is read as a formula (the encoding of a negated empty goal differs from that reading), and merging is stated between any two runs.
- the loops that write a marker's characters: the marker is a function of the network; only the ranking loop is a method. Lengths in it count characters, in the original bytes.
- ordered-set iteration: loops over sets pick elements in any order, which covers the original's order; the set-valued results do not depend on it.
- library sorts: the stable sort of `pack_lanes` is modelled as an in-place insertion sort, the sort of objects by name as an insertion into a sequence.
- floating point: times and fluents are reals, so rounding and NaN are not modelled; division by zero in an amount is zero here and an exception there.
- `str.lower` and whitespace classes beyond ASCII, and recursion limits of the reader.
- lists that the compressor indexes without checking and that are too short: they raise there and are excluded by `CanCompress` here.
- `assign`, `scale-up`, `scale-down`, quantified and conditional effects of durative actions: passed through unchanged by the compressor, given no meaning here; over-all effects are in neither effect list, as in the code.
- Pipeline.GroundProblem: does not include the refusals that come first, of invalid inputs, numeric fluents and constraints; it takes clean task names instead, and says what grounding does with whatever is let through.
- Refusals.GroundSucceedsIff: says nothing against a goal with an unbound variable or a malformed equality below a quantifier that ranges over nothing, which grounds.
- vocabularies with tangles but without joined ids: `MergesWellIff` covers them, but only the join-free part and the tangle-free part are decided by looking at the ids alone.
- policies over merged states: merging is stated for paths and for reaching the goal, policies for the problem before merging.
- Preservation.RelaxationCoversHistories: speaks of every action and method applicable by its precondition, which is more than the runs of the transition system offer.
- the PDDL text emitters, plan replay and external validators around `gen.py` and `compress.py`, and the rest of the timeline user interface.
