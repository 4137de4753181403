# Tentris: a verified model of query evaluation

Tentris answers SPARQL queries over a boolean hypertrie. A WHERE clause becomes
an *operand dependency graph*: vertices are operands (slices of the store, one
position for each variable) or filters, edges are dependencies labelled with a
shared variable. The graph is evaluated by recursion: at each step one operator
(Join, LeftJoin, Union, Cartesian, Filter, Resolve, Count) does a little work
and hands smaller graphs on. Entries carry a count, so that variables that are
not *tracked* never have to be enumerated.

This project models that evaluation, the construction of the graphs, and four
smaller state machines around them, in Dafny 4.11, and proves that the counted,
variable-at-a-time evaluation yields the bag of solutions of the naive algebra
(section 18.5 of the SPARQL 1.1 Query Language).

## How it is modelled

- A term is an identifier of the node storage; an operand (`Tries.Trie`) is a
  depth and a finite set of rows; a solution mapping is a finite map from
  variables to terms.
- A graph (`Graphs.Graph`) is a value: a sequence of vertices and a set of
  edges. The graphs that the program derives and caches (without a variable,
  without some vertices, pruned, one component) are new values here; the graph
  under construction is an object that is updated
  (`GraphBuilder.OperandDependencyGraph`).
- The entry that the operators fill in is an object (`Entries.Entry`), passed
  down and updated in place. A generator is the sequence of the snapshots it
  yields.
- `Semantics` defines the naive meaning: `NaiveJoin` joins operands one after
  the other as sets of mappings, `Sols` filters the complete result, and
  `EngineFacts.GraphCount(g, ops, tracked, c, k)` counts, over all union
  components, the solutions that project to key `k` (positions without a
  solution's variable keep `c`). Every operator is proved against it.
- The hash join of the hypertrie library is given by its specification
  (`Tries.JoinKeys`, `Tries.JoinSlices`): each value present at all listed
  positions, with the slices, without data operands of depth 0. Connected and
  strong components are computed by verified routines (`Reachability`).
- Where the program's order does not matter for the result, it is left open:
  the joined variable, the component of a product that is iterated, the order
  of join keys and of rows.

Graphs built without OPTIONAL are *plain*: each union component is a set of
mutually dependent vertices, and an edge labelled x joins two dependent
vertices exactly when both have x. `GraphBuilder.LinkedClique` and
`UnionNormalForm.CombineAndMerge` establish this, `Graphs.RemoveVarPlain` and
the other graph operations keep it, and the engine relies on it.

The files from the ground up: `Reachability`, `Graphs`, `Tries`, `Semantics`,
`Projection` (keys and counts); `JoinProof`, `ProductProof`, `LeafProof`,
`CartesianProof`, `CountElimination`, `CountFactor` (why each operator is
right); `Odometer`, `CartesianResult`, `ProductSteps`, `ProductEmission`,
`ProductResults` (the cartesian product); `DependencyGraph`, `Entries`,
`EngineFacts`, `EngineSteps`, `Engine` (the operators); `Bags`, `Selections`,
`Preparation`, `Evaluation` (the entry point); `GraphBuilder`, `GraphUnions`,
`SourceComponents`, `UnionNormalForm`, `OptionalNormalForm` (graph
construction); `JoinedParts` (its edges); `BranchBags`, `BranchLives`, `FilterScopes`, `JoinQuery`,
`FilterQuery` (joins of bags, and filters); `PathMeaning`,
`PathCompiler`, `PathQuery` (property paths);
`LeftJoinProof`, `LeftJoinSteps`, `LeftJoinEngine`, `OptionalQuery` (OPTIONAL);
`NodeStorage`, `NodeHistory`, `QueryCache`, `Pagination`, `UpdateOperations`.

## Main results

1. `Evaluation.Evaluate`: for every plain graph of fewer than 256 vertices, all
   operands, any tracked variables (an untracked one may not repeat within a
   pattern) and any choices, the values yielded for each key sum to the number
   of solutions that project to it. The unbound key alone can differ: it lacks one
   for each union branch of patterns without variables that hold if another branch
   has all operands non-empty, and gets one if there are only such. So all keys get
   their number **if and only if** such a branch stands alone
   (`EvaluatedExactly`, `PreparationExactly`; `ScalarBranchLost` is the smallest
   query that fails). With every variable tracked each entry stands for one
   solution. It composes the operators of `Engine`, each of which has the same
   statement for its own graph. From 256 operands on the first loop never ends
   (`Preparation.ScanEnds`).
2. `CountFactor.FactorExactly`: the factor that counting out takes as it is
   written, from the operand at the component's number, is right for all
   operands if and only if every counted component has the number of its vertex
   and its operand repeats no variable; `FactorWrong` is a concrete failure.
   The engine is proved with the operand of the counted vertex
   (`ByOperand`), and with the index as written (`ByComponent`) where every
   variable is tracked and nothing is counted out.
3. `UnionNormalForm.CombineAndMerge`: the union components of the combined graph
   are exactly the pairs of components of both sides, each with the edges of both
   and one edge for each shared variable between their sources, labels and
   optional parts included (`JoinedParts.PartsOfJoin`, `PairEdges`), a plain graph
   again, and each has one independent strong component. Over every store, and whatever the filters
   test, its bag is the join of both bags (section 18.5), **if and only if** no
   filter reads a variable that its own branch does not bind and a branch of the
   other side does (`FilterScopes.GraphsJoinExactly`). `FilterQuery.AddFilters`: the
   filters of a group, which enter its graph in the same way, keep exactly the
   solutions that pass them, with their multiplicity and without any condition.
   `MergeGroups`: UNION adds up the bags of its groups but for the solution of each
   empty group, so exactly if none of several groups is empty. `JoinQuery.EvaluateJoin` and
   `FilterQuery.EvaluateFiltered` compose this with result 1: built and evaluated,
   each key gets the pairs of solutions, or the solutions that pass, that project
   to it.
4. `PathQuery.EvaluatePath`: compiling a property path and evaluating the graph
   yields, for each pair of ends, the multiplicity that sections 18.2.2.3 and
   18.2.2.4 give the path (`PathMeaning.PathLaws`), if and only if no alternative
   that is a single stored triple between constants stands beside another live
   branch (`PathHarmless`, a condition on path, store and ends), and else one less
   for each such alternative, or one; with a variable end always. A path is refused
   exactly if an element at some depth has a modifier or is a negated property set
   (`PathCompiler.SupportedExactly`). The graph has as many vertices as `PathSize`
   counts.
5. `OptionalNormalForm.OptionalExactly`: OPTIONAL gives each component one part
   that depends on it, with an unchanged independent strong component, if and
   only if every component of the optional side has a source among the
   positions that are linked; one component always does, a union of single
   patterns never.
6. `OptionalQuery.EvaluateOptional`: for a group of patterns and one optional
   pattern, with or without variables and matches, building the graph, preparing
   and evaluating it yields exactly their left join, if and only if the group is
   not empty or the pattern matches.
7. `CartesianResult.RunVisitsAll` and `ProductEmission.EmitProduct`: from its
   first tuple to its end the odometer visits every index tuple exactly once, with
   the exact product of the current values, and one entry is written for each.
8. `NodeHistory.Linearizable`: over every interleaving the answers of the node
   storage are those of one map that each call uses at once, erasures included;
   every call is answered and somebody can always go on (`StepAnswers`, `NotStuck`).
9. `QueryCache`, over every run, and exactly when an insertion keeps list and map
   together; `Pagination.LimitPagination`; `UpdateOperations.EvalSparqlUpdate`, the
   new graph triple by triple, and exactly when the blank nodes of an update are new
   (`NewExactly`).

## Where the code departs from its intent

The model keeps the code as it is; each point is a precondition, an exact
condition or a line under "Left out".

- Operator.hpp:185 multiplies the size of `operands[pos]`, where `pos` is a
  component number; line 184 computes the operand's position (result 2).
- Evaluation.hpp:153-169 drops a union branch that has only patterns without
  variables (result 1).
- QueryUpdateVisitor.cpp:1581-1585 never advances `offset` over the components
  of the optional side (result 5).
- QueryUpdateVisitor.cpp:1411-1414 gives a labelled blank node a fresh variable
  each time, because the second assignment is not an alternative: variables stand
  for labels exactly if no label occurs twice (`VisitBlankNodes`).
- QueryUpdateVisitor.cpp:584 merges an empty group of a UNION into nothing: its one
  empty solution is lost unless it is the only group (`UnionNormalForm.MergeGroups`,
  `EmptyGroupLost`).
- QueryUpdateVisitor.cpp:1574-1575 makes the optional side mandatory beside an empty
  group: without a match the one empty solution is lost (result 6,
  `OptionalQuery.SolutionMissed`).
- QueryUpdateVisitor.cpp:966-969 does not test whether the variable of BOUND is in
  the scope of the filter's group, and lines 835-838 test the whole group, not the
  branch. A filter whose own branch does not bind a variable, but the other side of a
  join does, sees the joined value (`FilterQuery.FilterEscapes`, with a group of one
  pattern); result 3 has the exact condition.
- LeftJoinOperator.hpp:98-101 can yield bindings of an optional part that
  failed late; with one optional operand of distinct variables it cannot, and is
  not even reached (`LeftJoinEngine.EvaluatedYields`).
- SyncedLRUCache.hpp:103-109 leaves a stale node exactly when the key is present,
  as it is for the second of two callers that both missed it
  (`QueryCache.SyncedLRUCache.Insert`, `RacingInserts`).
- TripleStore.cpp:381 numbers blank nodes from 0 for each store: updates create new
  nodes only exactly if the data has no blank node whose number is still to come
  (`UpdateOperations.NewExactly`; `BlankCollides` is an insertion that adds nothing).
- Positions are `uint8_t` (Commons.hpp:125, Evaluation.hpp:128-131, Operator.hpp:181):
  the loop of `prune_empty_operands` ends exactly for fewer than 256 operands
  (`Preparation.ScanEnds`), which evaluation asks for.

## Model

| member | source | states |
|---|---|---|
| Reachability.Closure | libs/query/src/dice/query/OperandDependencyGraph.hpp:371-393 | the work list ends having marked exactly the vertices reached from the given ones |
| Reachability.ConnectedComponents | libs/query/src/dice/query/OperandDependencyGraph.hpp:699-716 | exactly the weakly connected components, ordered by their first vertices |
| Reachability.StrongComponents | libs/query/src/dice/query/OperandDependencyGraph.hpp:771-783 | two vertices get the same number exactly when they reach each other |
| Reachability.SourceComponents | libs/query/src/dice/query/OperandDependencyGraph.hpp:784-806 | the candidates that are left are exactly the vertices whose strong component nothing outside it reaches |
| Graphs.InducedPlain | libs/query/src/dice/query/OperandDependencyGraph.hpp:947-962 | an induced subgraph of a plain graph is plain: cliques, and labels exactly on shared variables |
| Graphs.RemoveVarPlain | libs/query/src/dice/query/OperandDependencyGraph.hpp:314-363 | resolving a variable keeps a graph plain: an edge labelled y stays exactly where both ends still share y |
| Graphs.PartClique | libs/query/src/dice/query/OperandDependencyGraph.hpp:699-716 | every union component of a plain graph is a plain set of mutually dependent vertices |
| DependencyGraph.RemoveVarId | libs/query/src/dice/query/OperandDependencyGraph.hpp:314-363 | the loops give the graph without the variable: filters stay, operands without another variable go, labels are erased |
| DependencyGraph.RemoveVertices | libs/query/src/dice/query/OperandDependencyGraph.hpp:291-306 | the subgraph of the vertices not listed, and their original positions in order |
| DependencyGraph.PruneGraph | libs/query/src/dice/query/OperandDependencyGraph.hpp:371-402 | keeps exactly the vertices that no empty operand reaches over mandatory edges |
| DependencyGraph.UnionComponents | libs/query/src/dice/query/OperandDependencyGraph.hpp:699-716 | the weakly connected components of the graph |
| DependencyGraph.IscOperands | libs/query/src/dice/query/OperandDependencyGraph.hpp:768-807 | exactly the vertices of source strong components, in increasing order |
| DependencyGraph.CartesianComponents | libs/query/src/dice/query/OperandDependencyGraph.hpp:727-759 | the components that remain without unlabelled edges into the independent strong component |
| DependencyGraph.FiltersForEvaluation | libs/query/src/dice/query/OperandDependencyGraph.hpp:816-843 | exactly the filters of the independent strong component none of whose variables an operand still has |
| Entries.UpdateEntryKey | libs/query/src/dice/query/operators/CartesianOperator.hpp:20-26 | the listed positions take the source key, all others and the value stay |
| Entries.ClearUsedEntryPoss | libs/query/src/dice/query/operators/Operator.hpp:90-96 | exactly the tracked variables the graph still has become unbound |
| JoinProof.JoinStepCard | libs/query/src/dice/query/operators/JoinOperator.hpp:26-40 | the solutions that give the joined variable a value are as many as those of the resolved graph over the slices, for each key |
| JoinProof.ResolvedAll | libs/query/src/dice/query/operators/JoinOperator.hpp:28-40 | over all join keys no solution is missed |
| LeafProof.SingleMatching | libs/query/src/dice/query/operators/ResolveOperator.hpp:26-33 | the solutions of one operand with distinct variables that project to a key are its rows for that key |
| LeafProof.CountMatching | libs/query/src/dice/query/operators/CountOperator.hpp:21-31 | an operand without tracked or repeated variables has as many solutions as rows |
| LeafProof.ReadyDecided | libs/query/src/dice/query/OperandDependencyGraph.hpp:816-843 | a filter that is ready has the same outcome on every solution, and it can be read off the entry |
| LeafProof.FilterStep | libs/query/src/dice/query/operators/FilterOperator.hpp:17-33 | deciding ready filters first gives the solutions of the filtered complete join: all of them without these filters, or none |
| EngineFacts.CartesianApart | libs/query/src/dice/query/OperandDependencyGraph.hpp:727-759 | among mutually dependent vertices, different cartesian components share no variable |
| EngineFacts.CliqueCount | libs/query/src/dice/query/operators/Operator.hpp:129-132 | mutually dependent vertices are one union component, whose count is that of one join |
| CartesianProof.CartesianCount | libs/query/src/dice/query/operators/CartesianOperator.hpp:205-294 | the solutions of a clique that project to a key are the product over its cartesian components |
| CountElimination.CountOut | libs/query/src/dice/query/operators/Operator.hpp:181-195 | for each key, the solutions are those without the counted operands times the sizes of these |
| CountElimination.FindCounts | libs/query/src/dice/query/operators/Operator.hpp:171-177 | exactly the numbers of the single-vertex components without tracked variables |
| CountElimination.EliminateCounts | libs/query/src/dice/query/operators/Operator.hpp:165-196 | removes the counted vertices and returns the rest with the product of the sizes it reads, at the positions the chosen index names |
| CountElimination.EliminateExact | libs/query/src/dice/query/operators/Operator.hpp:183-187 | with the sizes of the counted operands themselves the product restores every key's count |
| CountFactor.FactorExactly | libs/query/src/dice/query/operators/Operator.hpp:183-187 | the factor as written is right for all operands if and only if every counted component has its vertex's number and no counted operand repeats a variable |
| CountFactor.FactorWrong | libs/query/src/dice/query/operators/Operator.hpp:185 | a graph and operands with two solutions for which the factor as written is one |
| Odometer.RankInjective | libs/query/src/dice/query/operators/CartesianOperator.hpp:66-97 | different index tuples have different ranks |
| CartesianResult.ToVector | libs/query/src/dice/query/operators/CartesianOperator.hpp:47-60 | each pair of a materialized map once; an empty map becomes one unbound entry of value 1 |
| CartesianResult.FullCartesianResult.constructor | libs/query/src/dice/query/operators/CartesianOperator.hpp:40-64 | one list for each map, the positions of all components but the excluded one, and an ended iterator |
| CartesianResult.FullCartesianResult.Restart | libs/query/src/dice/query/operators/CartesianOperator.hpp:103-114 | the first tuple, its product as the value, and the entry showing it |
| CartesianResult.FullCartesianResult.TurnWheel | libs/query/src/dice/query/operators/CartesianOperator.hpp:67-83 | one wheel moves or carries over; after the exact division the value is the product of the new tuple |
| CartesianResult.FullCartesianResult.ShowRest | libs/query/src/dice/query/operators/CartesianOperator.hpp:84-93 | the remaining components' positions show the current tuple |
| CartesianResult.FullCartesianResult.Advance | libs/query/src/dice/query/operators/CartesianOperator.hpp:66-97 | from one tuple to its successor or the end, with the product as value and every component's positions equal to its current key |
| CartesianResult.TurnedRank | libs/query/src/dice/query/operators/CartesianOperator.hpp:66-97 | an advance adds one to the mixed-radix rank, and ends exactly after the last tuple |
| CartesianResult.RunVisitsAll | libs/query/src/dice/query/operators/CartesianOperator.hpp:66-114 | a run from the first tuple, step by step to the end, has as many tuples as the product has, contains every tuple, and none twice |
| CartesianResult.TurnedSum | libs/query/src/dice/query/operators/CartesianOperator.hpp:66-97 | the products of the tuples passed add up, at the end to the product of the sums |
| ProductEmission.Collect | libs/query/src/dice/query/operators/CartesianOperator.hpp:157-161 | the map holds for each key the sum of the values yielded for it |
| ProductEmission.EmitProduct | libs/query/src/dice/query/operators/CartesianOperator.hpp:251-258 | every tuple of the other components is visited once, and one entry is written for it, showing all the keys, with the product of the values |
| ProductEmission.EmitProducts | libs/query/src/dice/query/operators/CartesianOperator.hpp:246-259 | for every key, the emitted values sum to the iterated component's share times those of the others |
| ProductResults.ProductYields | libs/query/src/dice/query/operators/CartesianOperator.hpp:224-294 | what the product emits sums, for every key, to the number of solutions of the whole graph |
| Engine.NextOpSingle | libs/query/src/dice/query/operators/Operator.hpp:107-127 | the one operator for a lone vertex: Filter, Count, Resolve or Join |
| Engine.NextOpSeveral | libs/query/src/dice/query/operators/Operator.hpp:128-160 | the one operator for several vertices, in the order Filter, Cartesian, LeftJoin or FilterAlt, Join |
| Engine.NextOp | libs/query/src/dice/query/operators/Operator.hpp:98-160 | the one operator that is right for the graph, in terms of its components, sources and ready filters |
| Engine.OperatorFacts | libs/query/src/dice/query/operators/Operator.hpp:98-160 | on the graphs the engine meets, Join has a candidate variable, Filter a ready filter, and the optional operators are not chosen |
| Engine.GetMinCardLabel | libs/query/src/dice/query/operators/CardinalityEstimation.hpp:16-55 | returns a variable of the operands |
| Engine.EnumerateRows | libs/query/src/dice/query/operators/ResolveOperator.hpp:26-33 | one entry of value 1 for each row, written to the positions of its variables |
| Engine.ResolveOperator | libs/query/src/dice/query/operators/ResolveOperator.hpp:10-34 | the values yielded for each key sum to the solutions of the operand that project to it |
| Engine.GetSubOperator | libs/query/src/dice/query/operators/Operator.hpp:44-88 | whatever operator is chosen, the values yielded for each key sum to the number of solutions that project to it; the entry changes only at the graph's variables; vertices plus variables strictly drop at each nested call |
| Engine.JoinOperator | libs/query/src/dice/query/operators/JoinOperator.hpp:14-41 | the same, summed over the join keys of any variable |
| Engine.JoinValue | libs/query/src/dice/query/operators/JoinOperator.hpp:28-40 | for one join key, the count of the resolved graph, with the entry restored |
| Engine.EvaluateFilters | libs/query/src/dice/query/operators/FilterOperator.hpp:17-24 | true exactly if all ready filters hold for the entry |
| Engine.FilterOperator | libs/query/src/dice/query/operators/FilterOperator.hpp:11-33 | the same count, filters decided before the remaining variables are resolved |
| Engine.GetSubResult | libs/query/src/dice/query/operators/CartesianOperator.hpp:147-162 | the materialized counts of one component, leaving the caller's entry alone |
| Engine.GetSubResults | libs/query/src/dice/query/operators/CartesianOperator.hpp:134-170 | all components but the iterated one materialized, or nothing exactly when one of them has no solution |
| Engine.CombineComponents | libs/query/src/dice/query/operators/CartesianOperator.hpp:224-294 | the same count for a product whose counts were not eliminated |
| Engine.ScaleEntries | libs/query/src/dice/query/operators/CartesianOperator.hpp:215-223 | every key's total is multiplied by the factor |
| Engine.CartesianOperator | libs/query/src/dice/query/operators/CartesianOperator.hpp:205-294 | the same count for a graph that splits into cartesian components, with the counts eliminated first |
| Engine.ComponentEntries | libs/query/src/dice/query/operators/UnionOperator.hpp:39-46 | the entries of one union component |
| Engine.UnionOperator | libs/query/src/dice/query/operators/UnionOperator.hpp:28-49 | the same count, each union component in turn, unbound positions restored between them |
| Engine.GetSubCount | libs/query/src/dice/query/operators/Operator.hpp:44-88 | without tracked variables left, the entry's value becomes the number of solutions and its key is untouched |
| Engine.EntryGeneratorOperator | libs/query/src/dice/query/operators/EntryGeneratorOperator.hpp:22-30 | the empty graph has one solution |
| Engine.CountOperator | libs/query/src/dice/query/operators/CountOperator.hpp:21-31 | the number of solutions of the one operand left |
| Engine.JoinCount | libs/query/src/dice/query/operators/JoinOperator.hpp:43-61 | the number of solutions, summed over the join keys |
| Engine.CartesianCountOperator | libs/query/src/dice/query/operators/CartesianOperator.hpp:296-335 | the number of solutions, multiplied over the components |
| Engine.FilterCount | libs/query/src/dice/query/operators/FilterOperator.hpp:35-60 | the number of solutions, zero if a ready filter fails |
| Engine.UnionCount | libs/query/src/dice/query/operators/UnionOperator.hpp:51-70 | the number of solutions, added over the union components |
| Preparation.GenerateQueryOperands | libs/query/src/dice/query/Evaluation.hpp:78-114 | slices of the store for patterns and the true scalar for expressions, aligned with the vertices |
| Preparation.PatternSolutions | libs/query/src/dice/query/Evaluation.hpp:101-103 | the mappings of a slice are exactly those under which the store holds the pattern |
| Preparation.SurvivesExactly | libs/query/src/dice/query/OperandDependencyGraph.hpp:371-402 | where mandatory edges lead from every vertex of a union component to every other, a vertex survives exactly when no empty operand lies in its component |
| Preparation.PlainStrong | libs/query/src/dice/query/OperandDependencyGraph.hpp:371-402 | graphs without OPTIONAL are of that kind |
| Preparation.FindEmptyOperands | libs/query/src/dice/query/Evaluation.hpp:128-132 | exactly the positions of the empty operands, for fewer than 256 of them |
| Preparation.ScanEnds | libs/query/src/dice/query/Evaluation.hpp:129 | with an index that wraps at 256 the loop comes to its end if and only if there are fewer than 256 operands |
| Preparation.PruneEmptyOperands | libs/query/src/dice/query/Evaluation.hpp:124-141 | graph and operands of exactly the vertices that survive |
| Preparation.RemoveRankZeroOperands | libs/query/src/dice/query/Evaluation.hpp:151-169 | graph and operands without exactly the data operands of depth 0 |
| Selections.SelectionBag | libs/query/src/dice/query/Evaluation.hpp:153-169 | a selection that drops only patterns that hold has the bag of the parts it touches; the rest is the bag of the parts it loses |
| Evaluation.PreparationExactly | libs/query/src/dice/query/Evaluation.hpp:41-51 | pruning and dropping scalars keeps every key's count if and only if no branch of scalars only stands beside another live branch |
| Evaluation.EvaluatedExactly | libs/query/src/dice/query/Evaluation.hpp:41-51 | what the prepared graph has for each key: the count of the query graph, but for the unbound key one less for each live part of scalars if another part is live, and one if there are only such |
| Evaluation.Project | libs/query/src/dice/query/operators/ProjectOperator.hpp:12-42 | the prepared graph's entries; without tracked variables one entry, whose value may be zero |
| Evaluation.Evaluate | libs/query/src/dice/query/Evaluation.hpp:30-52 | the values yielded for every key sum to its number of solutions, the unbound key's to that number without the live parts of scalars, or to one if there are only such; all keys get their number if and only if scalars are harmless; with every variable tracked all values are 1, or one entry counts the solutions without variables |
| Evaluation.ScalarBranchLost | libs/query/src/dice/query/Evaluation.hpp:153-169 | a union of a pattern without variables that holds and another pattern loses its first branch |
| GraphBuilder.OperandDependencyGraph.AddVertex | libs/query/src/dice/query/OperandDependencyGraph.hpp:168-187 | the new vertex comes last and its position is returned |
| GraphBuilder.OperandDependencyGraph.AddDependency | libs/query/src/dice/query/OperandDependencyGraph.hpp:235-239 | one more edge |
| GraphBuilder.OperandDependencyGraph.AddDependencies | libs/query/src/dice/query/OperandDependencyGraph.hpp:248-270 | an edge for each shared variable or one unlabelled edge, in one direction or both |
| GraphBuilder.LinkedClique | libs/sparql/src/dice/sparql/parser/visitors/QueryUpdateVisitor.cpp:1557-1562 | linking all operands of two cliques makes a plain clique |
| GraphBuilder.MergePlain | libs/query/src/dice/query/OperandDependencyGraph.hpp:908-914 | side by side plain graphs are plain |
| GraphUnions.MergeParts | libs/query/src/dice/query/OperandDependencyGraph.hpp:908-914 | the union components of the merged graph are those of the first and then those of the second |
| GraphUnions.MergeBranches | libs/sparql/src/dice/sparql/parser/visitors/QueryUpdateVisitor.cpp:514-521 | a union has the branches of both sides, in order |
| SourceComponents.SourceAbove | libs/query/src/dice/query/OperandDependencyGraph.hpp:787-806 | every vertex of a finite graph is reached from a source |
| SourceComponents.RootedIff | libs/query/src/dice/query/OperandDependencyGraph.hpp:800 | each union component has exactly one source strong component if and only if it is reached from one of its vertices |
| SourceComponents.RootedSource | libs/query/src/dice/query/OperandDependencyGraph.hpp:761-767 | then every vertex of a union component is reached from each of its sources |
| SourceComponents.PlainRooted | libs/query/src/dice/query/OperandDependencyGraph.hpp:800 | graphs without OPTIONAL meet the assertion |
| SourceComponents.MergeRooted | libs/query/src/dice/query/OperandDependencyGraph.hpp:908-914 | merged graphs meet it exactly when both do |
| SourceComponents.PartRooted | libs/query/src/dice/query/OperandDependencyGraph.hpp:699-716 | a union component alone has the sources it has in the graph, and they reach all of it |
| SourceComponents.LinkedIsc | libs/sparql/src/dice/sparql/parser/visitors/QueryUpdateVisitor.cpp:1558-1562 | after linking, the sources are those of the first side, and those of the second if the links lead back |
| SourceComponents.SourcesLinkedBranch | libs/sparql/src/dice/sparql/parser/visitors/QueryUpdateVisitor.cpp:1557-1563 | linking two union components makes one whose sources are both their sources |
| UnionNormalForm.LinkOperands | libs/sparql/src/dice/sparql/parser/visitors/QueryUpdateVisitor.cpp:1558-1562 | exactly the dependencies between both lists of sources are added |
| UnionNormalForm.LinkComponents | libs/sparql/src/dice/sparql/parser/visitors/QueryUpdateVisitor.cpp:1557-1562 | two components with dependencies between their sources, in both directions |
| UnionNormalForm.PlainLinked | libs/sparql/src/dice/sparql/parser/visitors/QueryUpdateVisitor.cpp:1558-1562 | between cliques these are dependencies between all operands, and the result is plain |
| UnionNormalForm.CombineOne | libs/sparql/src/dice/sparql/parser/visitors/QueryUpdateVisitor.cpp:1554-1565 | one component of the first side paired with every component of the second |
| UnionNormalForm.CombineAndMerge | libs/sparql/src/dice/sparql/parser/visitors/QueryUpdateVisitor.cpp:1543-1567 | the result is the linked pairs of components side by side; its bag is that of the pairs of branches, and the join of both bags, mapping by mapping and over every store, where no filter escapes to the other side; the union components are exactly the pairs of components, their sources the pairs of sources; plain and one-source graphs stay so; an empty graph adds nothing |
| JoinedParts.PartsOfJoin | libs/sparql/src/dice/sparql/parser/visitors/QueryUpdateVisitor.cpp:1554-1565 | the union components of the result are the linked pairs of components, row by row |
| JoinedParts.PairAt | libs/sparql/src/dice/sparql/parser/visitors/QueryUpdateVisitor.cpp:1554-1565 | the pair of the i-th and the j-th component has its place |
| JoinedParts.PairEdges | libs/query/src/dice/query/OperandDependencyGraph.hpp:248-270 | a linked pair has the edges of both sides, with labels and flags, and between the sources of both, in both directions, one edge for each shared variable or one unlabelled edge |
| JoinedParts.EdgesByParts | libs/query/src/dice/query/OperandDependencyGraph.hpp:699-716 | a graph has exactly the edges of its union components |
| JoinedParts.PartsMerge | libs/query/src/dice/query/OperandDependencyGraph.hpp:908-914 | merging keeps the components of both sides, edges, labels and flags included |
| JoinedParts.JoinLabels | libs/sparql/src/dice/sparql/parser/visitors/QueryUpdateVisitor.cpp:1557-1562 | joining graphs with exact labels gives exact labels, with OPTIONAL too |
| UnionNormalForm.UnionBag | libs/sparql/src/dice/sparql/parser/visitors/QueryUpdateVisitor.cpp:578-590 | the bag of a UNION lacks exactly the solution of each empty group, but for one if all are empty |
| UnionNormalForm.MergeGroups | libs/sparql/src/dice/sparql/parser/visitors/QueryUpdateVisitor.cpp:578-590 | the groups side by side; the bag is the sum of the bags of the groups without the solution of each empty group, so it is the sum if and only if there is one group or none is empty |
| UnionNormalForm.EmptyGroupLost | libs/sparql/src/dice/sparql/parser/visitors/QueryUpdateVisitor.cpp:584 | an empty group beside a pattern loses its solution |
| BranchBags.PairSols | libs/sparql/src/dice/sparql/parser/visitors/QueryUpdateVisitor.cpp:1557-1562 | a mapping solves a linked pair exactly when its parts solve the sides, filters included |
| BranchBags.PairingsSize | libs/sparql/src/dice/sparql/parser/visitors/QueryUpdateVisitor.cpp:1554-1565 | pairing every branch with every branch: as many solutions with a property as compatible pairs of solutions that merge to one with it |
| FilterScopes.PairSolsLate | libs/sparql/src/dice/sparql/parser/visitors/QueryUpdateVisitor.cpp:1557-1562 | with any filters, a mapping solves a linked pair exactly when its parts are in the joins of both sides and it passes all filters of both |
| FilterScopes.ScopedPairExactly | libs/sparql/src/dice/sparql/parser/visitors/QueryUpdateVisitor.cpp:1557-1562 | over all stores, mappings and tests of the filters a mapping solves a linked pair exactly when its parts solve the sides, if and only if no filter reads a variable that its side does not bind and the other does |
| FilterScopes.ScopedExactly | libs/sparql/src/dice/sparql/parser/visitors/QueryUpdateVisitor.cpp:1554-1565 | over all stores and tests the bag of all pairs is the join of both bags, if and only if this holds for every pair of branches |
| FilterScopes.GraphsJoinExactly | libs/sparql/src/dice/sparql/parser/visitors/QueryUpdateVisitor.cpp:1543-1567 | the same for the graphs of two groups |
| GraphBuilder.CreateDependenciesBetweenOperands | libs/sparql/src/dice/sparql/parser/visitors/QueryUpdateVisitor.cpp:1534-1541 | the loops add exactly the dependencies between every two vertices, in both directions |
| GraphBuilder.CompletePlain | libs/sparql/src/dice/sparql/parser/visitors/QueryUpdateVisitor.cpp:1534-1541 | they make a plain clique |
| FilterQuery.VisitFilter | libs/sparql/src/dice/sparql/parser/visitors/QueryUpdateVisitor.cpp:602-627 | a plain clique of the conjuncts |
| FilterQuery.FilteredSols | libs/sparql/src/dice/sparql/parser/visitors/QueryUpdateVisitor.cpp:1652-1655 | a branch with filters keeps exactly the solutions that pass them |
| FilterQuery.AddFilters | libs/sparql/src/dice/sparql/parser/visitors/QueryUpdateVisitor.cpp:1652-1655 | over every store each mapping that passes all filters is in the bag of the result as often as in that of the group, and no other is |
| FilterQuery.EvaluateFiltered | libs/sparql/src/dice/sparql/parser/visitors/QueryUpdateVisitor.cpp:1652-1655 | a group with filters built and evaluated: each key gets the solutions that pass all filters and project to it, always if there is a filter, and without one as for the group alone |
| FilterQuery.FilterEscapes | libs/sparql/src/dice/sparql/parser/visitors/QueryUpdateVisitor.cpp:966-969 | two groups, of one pattern each, whose combined graph loses the pair of their solutions, because a filter of the first asks whether the variable of the second is unbound |
| GraphUnions.BranchesHold | libs/query/src/dice/query/OperandDependencyGraph.hpp:699-716 | every vertex lies in exactly one union component: their sizes add up to the graph's |
| JoinQuery.GraphBagCount | libs/query/src/dice/query/Evaluation.hpp:30-52 | the count of a key is the number of mappings of the graph's bag that project to it |
| JoinQuery.HarmlessIs | libs/query/src/dice/query/Evaluation.hpp:153-169 | scalars are harmless in a graph exactly if no branch of scalars that holds stands beside another branch without empty patterns |
| BranchLives.HarmlessExactly | libs/query/src/dice/query/Evaluation.hpp:153-169 | scalars are harmless if and only if no live branch is of scalars only, or just one branch is live |
| JoinQuery.PartNumbers | libs/query/src/dice/query/Evaluation.hpp:153-169 | a graph has as many live parts, and live parts of scalars, as live branches |
| JoinQuery.EvaluateJoin | libs/sparql/src/dice/sparql/parser/visitors/QueryUpdateVisitor.cpp:1543-1567 | two groups combined and evaluated: each key gets the solutions of the pairs of branches that project to it, the unbound key without those of branches of scalars, or one; all of them if and only if scalars are harmless; where no filter escapes these are the compatible pairs of solutions |
| OptionalNormalForm.LinkOptional | libs/sparql/src/dice/sparql/parser/visitors/QueryUpdateVisitor.cpp:1580-1588 | exactly the dependencies from the sources of one component to the local source positions, in one direction |
| OptionalNormalForm.CombineOptional | libs/sparql/src/dice/sparql/parser/visitors/QueryUpdateVisitor.cpp:1569-1592 | a copy of the optional side for each component of the mandatory side, linked as the loops do it |
| JoinedParts.OptionalIs | libs/sparql/src/dice/sparql/parser/visitors/QueryUpdateVisitor.cpp:1578-1591 | a copy of the optional side linked to each component, side by side |
| JoinedParts.OptionalEdges | libs/sparql/src/dice/sparql/parser/visitors/QueryUpdateVisitor.cpp:1580-1588 | the edges of such a copy: those of both, and from the sources of the component to the local source positions, none back |
| OptionalNormalForm.OptionalExactly | libs/sparql/src/dice/sparql/parser/visitors/QueryUpdateVisitor.cpp:1578-1591 | one component with one source each if and only if every optional component has a linked source; then sources stay and the optional operands are appended |
| OptionalNormalForm.OneBranchHarmless | libs/sparql/src/dice/sparql/parser/visitors/QueryUpdateVisitor.cpp:1582-1588 | an optional side of one component is always linked |
| OptionalNormalForm.SinglesHarmful | libs/sparql/src/dice/sparql/parser/visitors/QueryUpdateVisitor.cpp:1581-1588 | a union of single patterns in OPTIONAL never is |
| PathMeaning.JoinTotal | libs/sparql/src/dice/sparql/parser/visitors/QueryUpdateVisitor.cpp:536-548 | joining at a fresh variable connects two ends through every term at it, with multiplicities multiplied and added |
| PathMeaning.AlternativesAdd | libs/sparql/src/dice/sparql/parser/visitors/QueryUpdateVisitor.cpp:510-521 | the multiplicities of lists of alternatives add up |
| PathMeaning.SequenceJoins | libs/sparql/src/dice/sparql/parser/visitors/QueryUpdateVisitor.cpp:536-548 | one more element of a sequence joins at every term, multiplicities multiplied and added |
| PathMeaning.ElementCounts | libs/sparql/src/dice/sparql/parser/visitors/QueryUpdateVisitor.cpp:554-576 | an IRI counts its triples, parentheses change nothing, an inverse exchanges the ends |
| PathMeaning.PathLaws | libs/sparql/src/dice/sparql/parser/visitors/QueryUpdateVisitor.cpp:510-552 | the meaning of sequence and alternative of any two paths |
| PathCompiler.SupportedExactly | libs/sparql/src/dice/sparql/parser/visitors/QueryUpdateVisitor.cpp:564-576 | a path is supported if and only if no element at any depth has a modifier or is a negated property set |
| PathCompiler.PathsAccepted | libs/sparql/src/dice/sparql/parser/visitors/QueryUpdateVisitor.cpp:510-576 | IRIs, and inverse, sequence and alternative of accepted paths, are accepted |
| PathCompiler.PatternTotal | libs/sparql/src/dice/sparql/parser/visitors/QueryUpdateVisitor.cpp:1440-1460 | a triple pattern connects its ends once if the store holds the triple, and else not |
| PathCompiler.QueryUpdateVisitor.VariableFromBlankNode | libs/sparql/src/dice/sparql/parser/visitors/QueryUpdateVisitor.cpp:533 | a variable that was not made before |
| PathCompiler.QueryUpdateVisitor.VisitBlankNode | libs/sparql/src/dice/sparql/parser/visitors/QueryUpdateVisitor.cpp:1408-1417 | a new variable, whether or not the blank node has a label |
| PathCompiler.QueryUpdateVisitor.VisitBlankNodes | libs/sparql/src/dice/sparql/parser/visitors/QueryUpdateVisitor.cpp:1408-1417 | each occurrence gets the next new variable; equal variables for equal labels if and only if no label occurs twice |
| PathCompiler.QueryUpdateVisitor.CreateOperandFromTp | libs/sparql/src/dice/sparql/parser/visitors/QueryUpdateVisitor.cpp:1440-1460 | adds the pattern of the active subject, predicate and object |
| PathCompiler.QueryUpdateVisitor.VisitPath | libs/sparql/src/dice/sparql/parser/visitors/QueryUpdateVisitor.cpp:510-521 | a plain graph whose bag, projected to the ends, is the path's, and whose branches and patterns are as many as the path's size says; active subject and object are unchanged; nothing exactly for unsupported paths |
| PathCompiler.QueryUpdateVisitor.VisitPathSequence | libs/sparql/src/dice/sparql/parser/visitors/QueryUpdateVisitor.cpp:523-552 | the same for a sequence, whose intermediate variables never repeat |
| PathCompiler.QueryUpdateVisitor.VisitFirst | libs/sparql/src/dice/sparql/parser/visitors/QueryUpdateVisitor.cpp:532-536 | the first element ends in a new variable, which becomes the active subject |
| PathCompiler.QueryUpdateVisitor.VisitNext | libs/sparql/src/dice/sparql/parser/visitors/QueryUpdateVisitor.cpp:537-549 | one more element joined at the variable the part before ends in |
| PathCompiler.QueryUpdateVisitor.VisitPathEltOrInverse | libs/sparql/src/dice/sparql/parser/visitors/QueryUpdateVisitor.cpp:554-562 | the same for an element, the ends swapped and restored if it is inverse |
| PathCompiler.QueryUpdateVisitor.VisitPathElt | libs/sparql/src/dice/sparql/parser/visitors/QueryUpdateVisitor.cpp:564-576 | the same for an IRI or a path in parentheses; modifiers and negated sets are refused |
| PathQuery.EvaluatePath | libs/sparql/src/dice/sparql/parser/visitors/QueryUpdateVisitor.cpp:510-576 | compiled and evaluated, each pair of ends gets the path's multiplicity, if and only if among the live branches of the path between these ends none is a single stored triple, or it is the only one; else one less for each, or one; always with a variable end; refused exactly for a modifier or negated set at some depth |
| PathQuery.HarmlessPath | libs/sparql/src/dice/sparql/parser/visitors/QueryUpdateVisitor.cpp:510-576 | the condition on the compiled graph is this one on path, store and ends |
| LeftJoinProof.LeftIff | libs/query/src/dice/query/operators/LeftJoinOperator.hpp:60-107 | a solution of the left join binds the mandatory variables alone and has no extension, or extends one by a row of the optional operand |
| LeftJoinProof.LeftStepIff | libs/query/src/dice/query/operators/LeftJoinOperator.hpp:73-81 | resolving a mandatory variable: the rest of a solution solves the rest of the left join, and conversely |
| LeftJoinProof.LeftStepCard | libs/query/src/dice/query/operators/LeftJoinOperator.hpp:73-105 | so many solutions have a value as the resolved problem has, for each key |
| LeftJoinProof.LeftAlone | libs/query/src/dice/query/operators/LeftJoinOperator.hpp:80-96 | with no mandatory operand left the optional one gives the solutions, if it has a row |
| LeftJoinProof.LeftWithout | libs/query/src/dice/query/operators/LeftJoinOperator.hpp:28-39 | an optional operand that is empty or has no variable left changes nothing |
| LeftJoinSteps.LeftSources | libs/query/src/dice/query/OperandDependencyGraph.hpp:787-806 | the independent strong component is everything but the optional vertex |
| LeftJoinSteps.PruneEmpty | libs/query/src/dice/query/operators/LeftJoinOperator.hpp:23-41 | prunes what depends on empty operands, and drops true scalars of data operands |
| LeftJoinSteps.PrunedLeft | libs/query/src/dice/query/operators/LeftJoinOperator.hpp:28-32 | for a join value only the optional operand is ever pruned, exactly if its slice is empty |
| LeftJoinSteps.LeftWithoutVar | libs/query/src/dice/query/operators/LeftJoinOperator.hpp:81 | resolving a variable keeps the shape, if a mandatory operand and the optional one are left |
| LeftJoinEngine.NonOptEvaluated | libs/query/src/dice/query/operators/LeftJoinOperator.hpp:48-57 | true exactly if the mandatory vertices have at most one variable left |
| LeftJoinEngine.LeftDispatch | libs/query/src/dice/query/operators/Operator.hpp:145-155 | a graph of this shape is left-joined |
| LeftJoinEngine.RestRemains | libs/query/src/dice/query/operators/LeftJoinOperator.hpp:79-81 | what a join value leaves is again such a graph, or a clique with the same solutions |
| LeftJoinEngine.LeftValue | libs/query/src/dice/query/operators/LeftJoinOperator.hpp:73-106 | the entries of one join value are the solutions of the resolved left join; the entry is reset |
| LeftJoinEngine.EvaluatedYields | libs/query/src/dice/query/operators/LeftJoinOperator.hpp:97-101 | with the mandatory part resolved the rest always yields, so the fallback is not needed |
| LeftJoinEngine.LeftJoinOperator | libs/query/src/dice/query/operators/LeftJoinOperator.hpp:60-107 | the values yielded for each key sum to the solutions of the left join that project to it |
| OptionalQuery.DependingLeft | libs/sparql/src/dice/sparql/parser/visitors/QueryUpdateVisitor.cpp:1578-1588 | combining a group with one optional pattern gives a graph of the shape that is left-joined |
| OptionalQuery.EvaluateOptional | libs/sparql/src/dice/sparql/parser/visitors/QueryUpdateVisitor.cpp:1569-1592 | built, prepared and evaluated, a group with an optional pattern yields its left join, if and only if the group is not empty or the pattern matches, and else nothing |
| OptionalQuery.SolutionMissed | libs/sparql/src/dice/sparql/parser/visitors/QueryUpdateVisitor.cpp:1574-1575 | no entry is not the left join of the empty group with a pattern that does not match |
| OptionalQuery.ScalarsDropped | libs/query/src/dice/query/Evaluation.hpp:153-169 | patterns without variables that hold can be dropped from a join |
| OptionalQuery.KeptShape | libs/query/src/dice/query/Evaluation.hpp:124-169 | pruning and dropping scalars keep the mandatory patterns with variables, and the optional one unless it is empty or has none |
| NodeStorage.StepInv | libs/metall-node-storage/src/dice/metall-node-storage/MetallNodeStorageBackendImpl.cpp:126-158 | each step of each caller keeps mutual exclusion, inverse maps, one identifier per view, and a truthful log |
| NodeStorage.MapsInverse | libs/metall-node-storage/src/dice/metall-node-storage/MetallNodeStorageBackendImpl.cpp:126-158 | in every reachable state without a writer the two maps are inverse |
| NodeStorage.SameIdentifier | libs/metall-node-storage/src/dice/metall-node-storage/MetallNodeStorageBackendImpl.cpp:126-158 | two calls return the same identifier for equal views and different ones for different views, unless it was erased between |
| NodeStorage.ResolvesBack | libs/metall-node-storage/src/dice/metall-node-storage/MetallNodeStorageBackendImpl.cpp:216-220 | an identifier resolves to the view it was returned for, until it is erased |
| NodeStorage.FoundAgain | libs/metall-node-storage/src/dice/metall-node-storage/MetallNodeStorageBackendImpl.cpp:131-138 | a returned view is found again, and its identifier can be erased, until it is |
| NodeStorage.NeverReissued | libs/metall-node-storage/src/dice/metall-node-storage/MetallNodeStorageBackendImpl.cpp:147 | a newly made identifier was never returned before, not even before an erasure |
| NodeStorage.LeadsBack | libs/metall-node-storage/src/dice/metall-node-storage/MetallNodeStorageBackendImpl.cpp:226-234 | the identifier of a literal leads to the storage that issued it, if and only if a literal given by value has a fixed datatype |
| NodeHistory.StepMatches | libs/metall-node-storage/src/dice/metall-node-storage/MetallNodeStorageBackendImpl.cpp:126-158 | each step of each caller keeps one map from identifiers to views in step with the answers given so far |
| NodeHistory.Linearizable | libs/metall-node-storage/src/dice/metall-node-storage/MetallNodeStorageBackendImpl.cpp:126-267 | in every run each answer, of making, finding, resolving and erasing, is that of this map at its time; made identifiers are numbered one after the other |
| NodeHistory.ErasedGone | libs/metall-node-storage/src/dice/metall-node-storage/MetallNodeStorageBackendImpl.cpp:244-267 | only a stored identifier is erased, and then no call returns it, it resolves to nothing, and erasing it again is refused |
| NodeHistory.ViewGone | libs/metall-node-storage/src/dice/metall-node-storage/MetallNodeStorageBackendImpl.cpp:244-267 | its view is not found before it is made again under another identifier |
| NodeHistory.NothingLeaks | libs/metall-node-storage/src/dice/metall-node-storage/MetallNodeStorageBackendImpl.cpp:244-267 | in every reachable state without a writer exactly the entered backends are alive: an erased one has been destroyed |
| NodeHistory.StepAnswers | libs/metall-node-storage/src/dice/metall-node-storage/MetallNodeStorageBackendImpl.cpp:126-267 | every step brings a caller nearer to its end, and each operation is answered once, in its own terms |
| NodeHistory.NotStuck | libs/metall-node-storage/src/dice/metall-node-storage/MetallNodeStorageBackendImpl.cpp:126-158 | while identifiers are left some caller in an operation can go on |
| QueryCache.SyncedLRUCache.Insert | libs/triplestore/src/dice/triplestore/SyncedLRUCache.hpp:103-109 | the new node is in front and survives; list and map keep the same keys if and only if the key was absent, and then the least recently used are evicted; the size bound |
| QueryCache.SyncedLRUCache.Lookup | libs/triplestore/src/dice/triplestore/SyncedLRUCache.hpp:111-119 | a hit moves its node to the front and returns its value, a miss changes nothing |
| QueryCache.SyncedLRUCache.Prune | libs/triplestore/src/dice/triplestore/SyncedLRUCache.hpp:130-141 | drops nodes from the back only, with their keys, until exactly the maximal size is left when the limit is passed |
| QueryCache.ParseSparqlQuery | libs/triplestore/src/dice/triplestore/TripleStore.cpp:409-416 | the result of parsing the string, from the cache or new; every node keeps what its key parses to |
| QueryCache.MostRecentKept | libs/triplestore/src/dice/triplestore/SyncedLRUCache.hpp:103-141 | after any run of uses the cached keys are the most recently used ones, at least max_size of them if so many were used, and at most max(max_size, max_size + elasticity - 1) |
| QueryCache.RacingInserts | libs/triplestore/src/dice/triplestore/TripleStore.cpp:412-414 | two insertions of one missing key always leave list and map different: one node too many |
| Pagination.LimitPagination | libs/query/src/dice/query/operators/LimitPaginationOperator.hpp:13-56 | expanding the output by its counts gives the slice of the expanded input, for any offset and limit, set or not |
| Pagination.Pages | libs/query/src/dice/query/operators/LimitPaginationOperator.hpp:24-55 | consecutive pages make up the whole |
| UpdateOperations.InstancesIff | libs/triplestore/src/dice/triplestore/TripleStore.cpp:367-405 | the instances of a template are exactly the patterns with all parts bound |
| UpdateOperations.TripleStore.Populate | libs/triplestore/src/dice/triplestore/TripleStore.cpp:367-405 | one pattern instantiated up to its first unbound part; a label keeps its node, a new label gets a new one |
| UpdateOperations.TripleStore.PopulateEntriesForUpdateOp | libs/triplestore/src/dice/triplestore/TripleStore.cpp:355-407 | the instances of a template for one solution, one blank node for each label |
| UpdateOperations.DeletedIff | libs/triplestore/src/dice/triplestore/TripleStore.cpp:311-352 | a triple is deleted if and only if some pattern gives it for some solution |
| UpdateOperations.InsertedExactly | libs/triplestore/src/dice/triplestore/TripleStore.cpp:311-352 | a triple is inserted if and only if some pattern gives it for some solution and its blank nodes |
| UpdateOperations.NumbersExactly | libs/triplestore/src/dice/triplestore/TripleStore.cpp:378-386 | each solution has nodes for exactly the labels met before an unbound part, and together they have all numbers from the old counter to the new one |
| UpdateOperations.TripleStore.EvalModify | libs/triplestore/src/dice/triplestore/TripleStore.cpp:311-352 | a triple is in the new graph if and only if some insertion gives it, or it was there and no deletion gives it, both over the solutions of the old graph; blank nodes of different solutions differ, and are numbered one after the other from the old counter to the new one |
| UpdateOperations.TripleStore.EvalSparqlUpdate | libs/triplestore/src/dice/triplestore/TripleStore.cpp:283-353 | the same with the two DATA forms; a deletion with an unknown part has no effect; if all blank nodes have numbers below the counter, the created ones are new and this stays so |
| UpdateOperations.BlanksStayNew | libs/triplestore/src/dice/triplestore/TripleStore.cpp:378-386 | from such a graph the created nodes occur nowhere in it, and the next graph is such a graph for the next counter |
| UpdateOperations.NewExactly | libs/triplestore/src/dice/triplestore/TripleStore.cpp:378-386 | all templates over all solutions create nodes that are new to the graph, if and only if it has no blank node whose number is the counter or more |
| UpdateOperations.BlankCollides | libs/triplestore/src/dice/triplestore/TripleStore.hpp:71 | a graph of one triple and an insertion whose new node is the old one: the graph does not change |

## Left out

- LeftJoinEngine.LeftJoinOperator: for one optional operand with distinct variables, on which every mandatory operand's vertex has an edge, no filters, and every variable tracked. Optional parts of several operands, where a late failure can leave stale bindings, filters beside OPTIONAL, and the counting left join, which hands on operands that were not pruned (LeftJoinOperator.hpp:125), are not modelled.
- OptionalQuery.EvaluateOptional: one group of mutually dependent patterns and one optional pattern that repeats no variable (a repeated one can make it fail late), all variables tracked; the operands are any, empty or without variables.
- OptionalNormalForm.OptionalExactly: the edges between several optional parts of one group (optional_cartesian_connections, which takes positions within components and never resets its offset, QueryUpdateVisitor.cpp:1609-1618) are not modelled, nor the cartesian product between optional parts and the alternative filter operator.
- Evaluation.Evaluate: asks that an untracked variable does not repeat within a pattern, because counting out takes sizes without the diagonal (`CountFactor.FactorExactly`), and that filters read tracked variables only, as the visitor makes sure. BIND and assignments, EXISTS and other variables resolved beforehand, subqueries and inline data, DISTINCT, GROUP BY, ORDER BY and expressions in the projection are not modelled.
- PathQuery.EvaluatePath: intermediate variables are untracked, so counting out is taken with the operand of the counted vertex; with the index as written it holds under the condition of `CountFactor.FactorExactly`. Paths of 256 patterns or more are not evaluated.
- Engine.CartesianOperator: with the index as written (`ByComponent`) only where every variable is tracked; otherwise with the operand of the counted vertex, because the factor as written is right only under the condition of `CountFactor.FactorExactly`.
- Evaluation.Project: the plain projection of the prepared graph, from the unbound entry; expressions in it and the other solution modifiers are not modelled, but for LIMIT and OFFSET (`Pagination`).
- Preparation.GenerateQueryOperands: triple patterns and expressions; the operands of subqueries and inline data are not modelled.
- UnionNormalForm.CombineAndMerge: its bag is the join of both bags exactly under the condition of `FilterScopes.GraphsJoinExactly`; with a filter that escapes it is the bag of the pairs of branches, where all filters see the joined mapping (`FilterScopes.PairSolsLate`).
- FilterQuery.VisitFilter: gets the conjuncts of a FILTER as vertices; equality filters that become operands or assignments are not modelled.
- PathCompiler.QueryUpdateVisitor.VisitBlankNode: a label is given by the variable of its name; that this variable is registered and then unused is not modelled.
- Engine.GetMinCardLabel: any variable, where the program takes the one with the smallest estimate; the estimates, in floating point, do not affect the result.
- Engine.FilterOperator: an expression is a Boolean function of the bindings of its variables; its evaluation, with errors as false, is not modelled.
- DependencyGraph.PruneGraph: derived graphs are recomputed; the memo slots, keyed by hashes of vertex sets, are not modelled, nor is the graph's own identifier.
- Tries.JoinSlices: the hash join is given by its specification; hypertries, their iteration and their cardinalities are libraries that are not part of this model.
- CartesianResult.FullCartesianResult.Advance: values are unbounded numbers; the 64-bit product of the program can overflow.
- NodeStorage.StepInv: one node type at a time; a lock is taken and a map is read or written in one step each. Views are compared by equality, so a NaN double is not covered; a destroyed backend's memory counts as free, though the program does not hand it back to its allocator.
- QueryCache.ParseSparqlQuery: parsing is a function of the string; its errors are not modelled. The list and the map are values of the cache object, an iterator is a handle.
- QueryCache.RacingInserts: how far the list can grow with stale nodes is not bounded.
- UpdateOperations.TripleStore.EvalModify: the WHERE part is a function from the graph to its solutions; an entry that stands for several solutions is instantiated once, as in the program. That the writer lock is taken only after the solutions are read is not modelled.
- Pagination.LimitPagination: that it stops asking for entries once the limit is reached.
- Variables made for blank nodes are new numbers; how their labels are spelled, and that identifiers of variables are single characters, is not modelled.
- Timeouts, logging, coroutines, allocators, persistence, parsing, loading and the HTTP server.
