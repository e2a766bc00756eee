# Verified model of the pre-image counter and its SAT solver

The program counts, for a Boolean function given as clauses, how many inputs lead to each output, and bounds the entropy of
that histogram while the count is incomplete. It does so by driving a CDCL SAT solver with a preprocessing simplifier. This
project models these parts in Dafny and proves that they do what they are for.

* **Literals, Collections, Assignment, Watching, Meaning, Invariant** define literals, the trail with its levels and reasons, watch lists
  with blocking literals, and the meaning of the clause database, over arbitrary total assignments. One invariant is shared
  by all parts of the solver: every literal waiting in the propagation queue has the current decision level, and a processed
  false watch has its other watch or its blocker true at no higher level.
* **Conflict** and **Steps** hold the reasoning about conflict analysis, minimisation, learning, backtracking, deletion,
  final conflicts, adding clauses and variables. **Implication** is the graph of reasons; in its terms **Learning** says which
  literals a conflict leads to, **Minimising** which of them are dropped, and **Blame** which assumptions a final conflict
  names. **Progress** ranks trails, and **SearchLog** is the record of the conflicts of one search. **Strengthening** is the
  detaching and attaching of a clause that loses a literal in place, **Probing** the test whether a clause follows. **Normal**
  and **Sort** are clause normalisation and the hybrid quicksort. **Relocation** is the copying garbage collection of clauses
  seen from the solver, **Region** the same word by word.
* **Solver** is the class `Solver`: propagate, analyze, backtrack, search, solve under assumptions, add clauses and
  variables, simplify, reduce the learnt clauses and collect garbage, all against that invariant.
* **Resolution, Elimination, SimpState, SimpTables, History** and **Simplifier** model subsumption, bounded variable
  elimination and the reconstruction of a model from the flat record vector; **Subsuming** says what a clause of the queue
  leaves to be done on the others, and **Attempts** is the record of what became of each variable taken up. The class
  `Simplifier` works on the clauses, trail, reasons and watch lists of a `Solver` in place. **OpenValues** says when
  reconstruction works from values that leave variables open. **SimpSolver** puts simplifier and search together.
* **Projection, Tallying, Interface** and **Counter** model the three exhaustive counting modes. They run on the class
  `Solver` itself, not on an assumed oracle.
* **Entropy** models the entropy bounds, **Heap** the indexed heap, **Luby** the restart sequence and the
  limits on conflicts made from it.

The main results, in the order of the chain that leads from the solver to the counts:

1. `Solver.Solve` terminates and never gives up: l_True leaves a model of every clause ever added and of every assumption,
   provided each clause variable is a decision variable or assumed; l_False comes with a clause of negated assumptions that
   follows from the clauses alone, so an empty one means that they are unsatisfiable. Each conflict and each decision raises
   the rank of the trail, whatever learnt clauses are removed, so one search has fewer conflicts than there are ranks
   (`SearchLog.LogBelow`), and the limits of the restarts outgrow that number (`LubySequence.LimitsGrow`).
2. What is learnt and what is blamed is exact. `Solver.Analyze` returns the negation of the latest unique implication point and
   of just those variables of lower levels that took part in the conflict and whose reasons lead to something other than
   such variables; marks left by one test of minimisation do not change the answer of another (`Minimising.EscapesSame`).
   `Solver.AnalyzeFinal` names, each once, exactly the assumptions that led to the failure of the next one.
3. `Simplifier.EliminateVar` replaces the clauses by exactly "some value of v makes the old clauses true", and
   `Simplifier.ExtendModel` turns every model of what remains, after any sequence of operations, into a model of every
   clause ever added.
4. `Simplifier.Eliminate` terminates with nothing touched, queued or left in the order, and hands the search a solver with
   every clause watched properly: strengthening may leave a clause that watches a false literal, but
   `Simplifier.BackwardSubsumptionCheck` ends with no clause below its length limit that has an assigned literal, and with
   no clause that was queued or shortened subsuming or strengthening another. Each variable taken up is eliminated exactly
   if it is free and the resolvents are within the limits. So `SimpSolving.EliminateLast`, followed by any number of
   `SolveOff` and `AddClauseOff` on the same solver, answers for all clauses added, not only for those that are left.
5. `PICounter.CountBucketAll`, `CountUnguided` and `CountAllSync` end with every input that extends to a model counted exactly
   once, and if the inputs determine the output all three give each output its number of pre-images.
6. `Entropy.LevelledOptimal` and `Entropy.Bracket`: the levelling loop is optimal for every discretely convex cost, and the
   two bounds returned enclose the cost of every possible completion of the histogram.

Conventions: literals are a variable and a sign, with the integer encoding as functions. A total assignment is the set of its
true variables. Clause references are positions in the clause database; a removed clause keeps its place and is marked.
A mask of 32 signature bits is the set of its bits. Heuristics (activities, polarities, which learnt clauses go, when to
restart or collect garbage) are arbitrary choices, so every statement holds whatever they do.

Findings about the code:

* The lower bound on the entropy sums the open buckets as they were, not the levelled queue (src/entropy.cpp:106). The
  returned value is still a lower bound. For a cost that is 0 at 0 and 1 and grows from 1 on it is the cost of the levelled
  queue exactly if the residue is no larger than the number of empty open buckets (`TightExactly`).
* Reconstructing a model (src/minisat/simp/SimpSolver.cc:550-563) is right if every variable that was not eliminated has a
  value. With values left open, as can happen for variables that are not decision variables, it is right exactly if each
  elimination finds one of its records falsified or all of them true in another literal (`SettledExactly` for one
  elimination, `ReconstructedExactly` for a sequence). `OpenValuesMatter` is a case of three clauses where it fails.
* Strengthening a clause in place moves its watches to the first two remaining literals (src/minisat/simp/SimpSolver.cc:192-194),
  which may be false already, and then the watch invariant fails (`FalseWatch`). At level 0 it is kept exactly if neither of
  the two is false while the other is not true (`StrengthenedWatches`). The backward subsumption check repairs it before it ends.
* Closing an output bucket-wise reads the model after an unsatisfiable query (src/PICounter.cpp:159); this is right as long as
  the values of the last model stay readable, which is how the interface is modelled.

## Model

| member | source | states |
|---|---|---|
| Literals.CodeRoundTrip | src/minisat/core/SolverTypes.h:54-63 | the compact integer encoding of literals and its decoding are inverse to each other |
| Literals.NegationAdjacent | src/minisat/core/SolverTypes.h:51-55 | nothing lies between a literal and its negation in the order, so sorting puts complementary literals next to each other |
| Assignment.LevelMonotone | src/minisat/core/Solver.cc:436-441 | decision levels grow along the trail |
| Assignment.CancelKeepsTrail | src/minisat/core/Solver.cc:209-220 | backtracking leaves a well-formed trail in which exactly the literals before the level's start keep value, level and position |
| Assignment.CancelKeepsReasons | src/minisat/core/Solver.cc:209-220 | every reason clause of a remaining literal still explains it after backtracking |
| Assignment.TrailLength | src/minisat/core/Solver.cc:436-441 | the trail never holds more literals than there are variables |
| Watching.CancelKeepsWatches | src/minisat/core/Solver.cc:209-220 | backtracking keeps the watch invariant although no watch list is touched, because true partners are at no higher level |
| Watching.QuietClause | src/minisat/core/Solver.cc:456-515 | when propagation has finished, each live clause has a true literal or two watches that are not false: none is falsified or unit |
| Watching.AttachKeepsSem | src/minisat/core/Solver.cc:164-170 | attaching a clause whose watches are in order keeps the watch invariant |
| Watching.LiveEntriesExact | src/minisat/core/SolverTypes.h:295-305 | cleaning a list keeps exactly the entries of clauses that are not deleted |
| Meaning.UnitAtTop | src/minisat/core/Solver.cc:456-515 | a clause with all but its first literal false at level 0 makes that literal a consequence of the clauses added |
| Meaning.ConflictAtTop | src/minisat/core/Solver.cc:630-634 | a clause false at level 0 refutes the clauses added |
| Meaning.DeleteSatisfiedKeepsMeaning | src/minisat/core/Solver.cc:552-563 | deleting a clause that is true at level 0 keeps the meaning of clauses and trail together |
| Meaning.AddProblemKeepsMeaning | src/minisat/core/Solver.cc:134-161 | storing the normal form of a clause makes the database mean the clauses added before and the new one |
| Invariant.VisitKeeps | src/minisat/core/Solver.cc:468-508 | one watcher of propagation, in all its branches, keeps the shared invariant, and reports a conflict only for a clause that is wholly false |
| ConflictAnalysis.Resolve | src/minisat/core/Solver.cc:281-299 | one resolution step with the antecedent keeps "the marked literals form a clause that follows from the database" |
| ConflictAnalysis.ReachedUip | src/minisat/core/Solver.cc:301-309 | when one marked literal of the conflict level is left, the negation of that literal and the marked lower ones form a clause that follows from the database |
| ConflictAnalysis.MarkedHold | src/minisat/core/Solver.cc:313-343 | by induction on the trail: in a model of the database in which the kept literals are false, every marked closed literal is as on the trail |
| ConflictAnalysis.MinimiseSound | src/minisat/core/Solver.cc:313-343 | dropping all literals found redundant leaves a clause that still follows, in spite of marks shared between the tests |
| Steps.AssertingAfterCancel | src/minisat/core/Solver.cc:638-648 | after backtracking to its level the learnt clause is unit: its first literal is free and all others are false |
| Steps.ModelSatisfies | src/minisat/core/Solver.cc:791-794 | at rest with every clause variable assigned, any total assignment that agrees with the trail satisfies all clauses added |
| Steps.FinalImplied | src/minisat/core/Solver.cc:415-429 | replacing a marked implied literal by the literals of its reason keeps the final clause a consequence |
| Steps.FinalDecision | src/minisat/core/Solver.cc:415-429 | a marked literal without a reason above level 0 is an assumption, so its negation may enter the final clause |
| Learning.TraceMarked | src/minisat/core/Solver.cc:285-299 | going through one antecedent marks exactly the variables above level 0 that imply the literal resolved on, and all of them took part in the conflict |
| Learning.TraceSelected | src/minisat/core/Solver.cc:301-305 | while another variable of the level is marked, the one selected is not a unique implication point |
| Learning.TraceEnds | src/minisat/core/Solver.cc:301-309 | the variable at which the walk ends is the latest unique implication point, and the marks left are exactly the lower variables that took part through later ones |
| Minimising.TestFinds | src/minisat/core/Solver.cc:376-380 | what is found unmarked in a reason on the stack is reached backwards from the literal tested, over unmarked literals |
| Minimising.TestEnds | src/minisat/core/Solver.cc:368-394 | once the stack is empty nothing but marks is led to: no literal without a reason and none of a level outside the signatures |
| Minimising.EscapesSame | src/minisat/core/Solver.cc:319-322 | the marks that earlier tests leave behind change no answer: a literal leads out of the marks now exactly if it led out of the marks at the start |
| Minimising.LearntIsExact | src/minisat/core/Solver.cc:301-343 | what is left is the negation of the latest implication point and of exactly the lower variables that are not superfluous |
| Blame.WalkOn | src/minisat/core/Solver.cc:417-429 | going through a marked position keeps: what has been gone through led to the failed literal, and what led to it in turn is marked or has been gone through |
| Blame.WalkEnds | src/minisat/core/Solver.cc:406-433 | at the end of the walk the clause names exactly the decisions from which the failed literal is reached through reasons, each once |
| Progress.RankDecided | src/minisat/core/Solver.cc:681-708 | a decision, perhaps above dummy levels, raises the rank of the trail |
| Progress.RankLearnt | src/minisat/core/Solver.cc:636-650 | a conflict raises it too, whichever level is returned to: that level gets one literal more |
| SearchLog.LogBelow | src/minisat/core/Solver.cc:621-712 | the conflicts of one search are fewer than the ranks, a number that depends only on the numbers of variables and assumptions |
| SearchLog.LogBound | src/minisat/core/Solver.cc:621-712 | so is the length of any record of conflicts, wherever the search stops |
| Sorting.SelectionSort | src/minisat/mtl/Sort.h:39-52 | sorts the range in place into a permutation, for any strict weak order |
| Sorting.Partition | src/minisat/mtl/Sort.h:63-75 | the scans never leave the range, both parts are non-empty and smaller than the range, and no element of the right part is below one of the left |
| Sorting.Sort | src/minisat/mtl/Sort.h:57-80 | the hybrid quicksort terminates with a sorted permutation of the range, for any strict weak order |
| Normalising.Normalise | src/minisat/core/Solver.cc:139-147 | one pass over the sorted literals finds every true literal and every complementary pair, and otherwise keeps each free literal once |
| Normalising.SortAndNormalise | src/minisat/core/Solver.cc:139-147 | a clause is dropped exactly when it has a true literal or two complementary ones; otherwise its duplicate-free normal form over free variables results |
| Relocation.GarbageCollected | src/minisat/core/Solver.cc:883-930 | when all clauses have been moved and all references renamed, the whole solver invariant holds of the new database, and every live clause is in it |
| Relocation.MovingInjective | src/minisat/core/SolverTypes.h:230-244 | references are equal after relocation exactly when they were equal before |
| Relocation.Reloc | src/minisat/core/SolverTypes.h:230-244 | a clause is copied when first met; later references to it get the same new reference |
| Relocation.RelocWatches | src/minisat/core/Solver.cc:885-897 | all watchers of all literals are renamed by one map and keep their blockers |
| SatSolver.Solver.constructor | src/minisat/core/Solver.cc:50-107 | an empty solver satisfies the invariant |
| SatSolver.Solver.NewVar | src/minisat/core/Solver.cc:116-131 | a new unassigned variable with two empty watch lists keeps the invariant and all else |
| SatSolver.Solver.VisitWatcher | src/minisat/core/Solver.cc:468-508 | the imperative step agrees with its specification in every branch: blocker, swap, true first literal, new watch, unit, conflict |
| SatSolver.Solver.PropagateList | src/minisat/core/Solver.cc:463-509 | the two-pointer compaction of a watch list visits every watcher once and keeps the invariant; without a conflict the whole list is in order |
| SatSolver.Solver.Propagate | src/minisat/core/Solver.cc:456-515 | propagation ends with an empty queue and the watch invariant for the whole trail, or with a live clause that is wholly false and the invariant up to the current level |
| SatSolver.Solver.LitRedundant | src/minisat/core/Solver.cc:368-394 | true exactly if the reason of the literal leads, over literals unmarked on entry, to nothing without a reason or of a level outside the signatures; a positive answer leaves only marks that are closed, a negative one restores marks and record |
| SatSolver.Solver.Minimise | src/minisat/core/Solver.cc:313-343 | in each of the three modes, keeps exactly the literals that are not superfluous with respect to the marks on entry: deep, those that lead out of the marks; basic, those with an unmarked literal in their reason; none, all |
| SatSolver.Solver.Analyze | src/minisat/core/Solver.cc:271-363 | terminates with a clause that follows from the database and consists of exactly the negated latest implication point, first, and the lower literals that took part and are not superfluous; at index 1 is a literal of the backtrack level, the greatest of the rest; all marks are cleared |
| SatSolver.Solver.CancelUntil | src/minisat/core/Solver.cc:209-220 | removes exactly the levels above the given one, puts their decision variables back into the order, and keeps the invariant without touching watch lists |
| SatSolver.Solver.AnalyzeFinal | src/minisat/core/Solver.cc:406-433 | the clause returned holds the failed literal and, each once, exactly the negations of the assumptions that led to it; it follows from the database; all marks are cleared |
| SatSolver.Solver.HandleConflict | src/minisat/core/Solver.cc:636-650 | after a conflict above level 0 the state is exactly the trail of the backtrack level with the first literal of the exact learnt clause behind it, that clause being stored as its reason unless it is a unit, and the invariant holds |
| SatSolver.Solver.RemoveClause | src/minisat/core/Solver.cc:190-197 | marks one clause deleted and forgets it as a reason, keeping the invariant with the lists cleaned lazily |
| SatSolver.Solver.RemoveSatisfied | src/minisat/core/Solver.cc:552-563 | deletes exactly the clauses of the list with a literal true at level 0 and keeps exactly the others |
| SatSolver.Solver.ReduceDB | src/minisat/core/Solver.cc:532-549 | deletes only learnt clauses of more than two literals that are not reasons, and lists exactly the rest |
| SatSolver.Solver.GarbageCollect | src/minisat/core/Solver.cc:883-930 | copies all live clauses; every watcher of the cleaned lists and every reason, learnt and problem reference denotes the same clause as before, and the invariant is kept |
| SatSolver.Solver.Simplify | src/minisat/core/Solver.cc:584-605 | finishes propagation at level 0 and keeps the invariant; if clauses are dropped, no learnt clause has a true literal afterwards, and no problem clause either if these are to be removed; false only if the clauses added are unsatisfiable |
| SatSolver.Solver.RebuildOrderHeap | src/minisat/core/Solver.cc:566-573 | afterwards every unassigned decision variable is in the order |
| SatSolver.Solver.PickBranchLit | src/minisat/core/Solver.cc:227-251 | returns an unassigned decision variable, or nothing, and then every decision variable is assigned, because the order never loses an unassigned one |
| SatSolver.Solver.NextAssumption | src/minisat/core/Solver.cc:681-695 | opens dummy levels for true assumptions; a false one yields a final conflict, a free one is the next decision |
| SatSolver.Solver.Search | src/minisat/core/Solver.cc:621-712 | terminates for every limit, negative ones meaning none; l_Undef only after that many conflicts, at rest, and never with a limit beyond the number of ranks; l_True only below the limit, with all decision variables and assumptions assigned; l_False a refutation or a final conflict; every conflict is recorded with what it taught |
| SatSolver.Solver.Solve | src/minisat/core/Solver.cc:758-800 | terminates with l_True or l_False: l_True leaves a model of all clauses ever added and of the assumptions; l_False a clause of negated assumptions that they entail, empty only if they are unsatisfiable, and otherwise naming exactly the assumptions that led to a failure; the solver is back at level 0 |
| SatSolver.Solver.SearchAll | src/minisat/core/Solver.cc:778-785 | the loop of restarts ends with a result, because its limits pass every bound |
| SatSolver.Solver.AddClause | src/minisat/core/Solver.cc:134-161 | afterwards the solver stands for the clauses added before and this one; false exactly when it is then known to be contradictory |
| ClauseRegion.NewClause | src/minisat/core/SolverTypes.h:131-147 | header, literals and extra word written behind each other form a clause that reads back as the literals given |
| ClauseRegion.ClauseAllocator.Alloc | src/minisat/core/SolverTypes.h:204-215 | the new clause lies behind everything allocated, which is unchanged, and reads back as given, with the signature of its literals; it joins the live clauses |
| ClauseRegion.ForwardOne | src/minisat/core/SolverTypes.h:167-169 | a forwarding reference written over a copied clause disturbs no other clause |
| ClauseRegion.CollectOne | src/minisat/core/SolverTypes.h:230-244 | a copy at the end of the new region reads back as the original and overlaps no other copy |
| ClauseRegion.CopiesDistinct | src/minisat/core/SolverTypes.h:230-244 | equal references stay equal, different clauses get different, disjoint places |
| ClauseRegion.ClauseAllocator.Reloc | src/minisat/core/SolverTypes.h:230-244 | returns the forwarding reference if there is one; otherwise copies literals, mark and activity and leaves a forwarding reference |
| ClauseRegion.ClauseAllocator.GarbageCollect | src/minisat/core/Solver.cc:919-930 | all references are renamed by one injective map, and each denotes a clause with the same literals, mark and activity, without overlap; the copies are the live clauses of the new region |
| ClauseRegion.CollectorsAgree | src/minisat/core/Solver.cc:919-930 | if the region holds the live clauses of the solver's database before collection, the new region holds those of the collected database |
| Resolution.Merge | src/minisat/simp/SimpSolver.cc:205-235 | false exactly for a tautology; otherwise each literal of the parents except those on v, once |
| Resolution.MergeSize | src/minisat/simp/SimpSolver.cc:239-265 | the same answer, and the number of literals of the resolvent that is not built |
| Resolution.AbstractionFilter | src/minisat/core/SolverTypes.h:150-155 | the signature filter never rejects a clause all of whose variables occur in the other |
| Resolution.LengthFilter | src/minisat/core/SolverTypes.h:369-370 | nor does the length filter |
| Resolution.Subsumes | src/minisat/core/SolverTypes.h:363-392 | agrees with set inclusion, and with inclusion up to one flipped literal, in both directions |
| Elimination.UndoElimination | src/minisat/simp/SimpSolver.cc:550-563 | undoing one elimination gives v its default exactly when all recorded clauses hold without it |
| Elimination.EliminationExtends | src/minisat/simp/SimpSolver.cc:488-506 | a model of all resolvents becomes a model of both sides by changing v only |
| Elimination.MkElimClause | src/minisat/simp/SimpSolver.cc:435-456 | appends the record of the clause with its literal on v first and its length last |
| Elimination.UndoAgrees | src/minisat/simp/SimpSolver.cc:550-563 | on lifted booleans the records are undone as on total assignments, since each record finds its other literals decided |
| Elimination.ExtendValues | src/minisat/simp/SimpSolver.cc:550-563 | the backward reading of the flat vector undoes the records last to first |
| SimpState.StrengthenSound | src/minisat/simp/SimpSolver.cc:366-374 | the literal found by subsumption resolution is superfluous in its clause |
| SimpState.ShortenedMeaning | src/minisat/simp/SimpSolver.cc:191-198 | without a superfluous literal the models of clauses and trail stay the same |
| SimpState.BinaryToUnit | src/minisat/simp/SimpSolver.cc:188-200 | a binary clause may be replaced by the unit left of it |
| History.EliminationProjects | src/minisat/simp/SimpSolver.cc:498-506 | clauses on v replaced by their resolvents mean that some value of v makes the old clauses true |
| History.EliminationKeeps | src/minisat/simp/SimpSolver.cc:459-516 | the records of one elimination, put behind those of earlier ones, lead back to all clauses ever added |
| History.ExtendedModel | src/minisat/simp/SimpSolver.cc:550-563 | values that satisfy the current clauses become values that satisfy every clause ever added; variables not eliminated keep theirs |
| OpenValues.SettledExactly | src/minisat/simp/SimpSolver.cc:550-563 | for any values that make all resolvents true, undoing one elimination makes its clauses true exactly if some record has all other literals false or every record has another true literal |
| OpenValues.ReconstructedExactly | src/minisat/simp/SimpSolver.cc:550-563 | for any values that make the remaining clauses true, undoing a sequence of eliminations makes every clause true exactly if each of them is settled in this sense when its turn comes |
| OpenValues.ValuesSettle | src/minisat/simp/SimpSolver.cc:550-563 | an elimination is settled whenever the other variables of its records have values |
| OpenValues.SubsumedSame | src/minisat/simp/SimpSolver.cc:366-369 | removing a subsumed clause does not change which partial values make all clauses true |
| OpenValues.StrengthenedSame | src/minisat/simp/SimpSolver.cc:370-374 | nor does dropping a literal by subsumption resolution |
| OpenValues.UnitSame | src/minisat/core/Solver.cc:456-515 | nor does adding a unit found by propagation |
| OpenValues.ExampleReached | src/minisat/simp/SimpSolver.cc:459-516 | from "not 3, or 0", "3 or 1" and "3 or 2" the elimination of 3 leads to two resolvents and the records below |
| OpenValues.ExampleFits | src/minisat/simp/SimpSolver.cc:474-481 | the default limits allow that elimination |
| OpenValues.ExampleRecords | src/minisat/simp/SimpSolver.cc:488-496 | the records stored for it are in order |
| OpenValues.OpenValuesMatter | src/minisat/simp/SimpSolver.cc:550-563 | with variable 0 left open the two resolvents are true and the step is not settled; the reconstructed values leave "not 3, or 0" without a true literal |
| Strengthening.FalseWatch | src/minisat/simp/SimpSolver.cc:192-194 | three clauses, a trail and watch lists in order, and one literal cut: the clause then watches a false literal while the other is open, and the watch invariant fails |
| Strengthening.StrengthenedWatches | src/minisat/simp/SimpSolver.cc:192-194 | at level 0 with an empty queue, detaching, cutting and attaching keeps the watch invariant exactly if neither of the first two literals left is false while the other is not true |
| Strengthening.AttachAgainSem | src/minisat/core/Solver.cc:164-170 | attaching keeps the watch invariant exactly if the two watches are in order, and always for all other clauses |
| SatSolver.Solver.Strengthen | src/minisat/simp/SimpSolver.cc:192-194 | the clause loses exactly the one literal, in database and watch lists, and all invariants hold with this clause excepted from the watch invariant |
| Simplification.Simplifier.StrengthenClause | src/minisat/simp/SimpSolver.cc:179-201 | removes one superfluous literal in place, watches included, or turns a binary clause into a propagated unit; models stay the same, false only if there are none |
| Simplification.Simplifier.TryCandidate | src/minisat/simp/SimpSolver.cc:364-380 | removes a candidate exactly when it is subsumed, strengthens it exactly when one literal is flipped, and leaves it alone otherwise |
| Subsuming.CandidateSpared | src/minisat/simp/SimpSolver.cc:364-380 | after a candidate has been dealt with, the item neither subsumes nor strengthens it any more |
| Subsuming.HandledAll | src/minisat/simp/SimpSolver.cc:351-362 | going through the occurrence list of one variable of the item is enough: no clause elsewhere is subsumed or strengthened by it |
| Subsuming.ProgressedOn | src/minisat/simp/SimpSolver.cc:316-384 | using one item keeps: every clause that was queued or has been shortened is on the queue or leaves all others alone |
| Simplification.Simplifier.BackwardSubsumptionCheck | src/minisat/simp/SimpSolver.cc:316-384 | terminates; the models of clauses and top-level trail stay exactly the same, and false means there are none; otherwise queue and trail are used up, no clause below the length limit has an assigned literal, every clause is watched properly again, and no clause that was queued or has been shortened subsumes or strengthens another below the limit |
| Probing.ConflictForces | src/minisat/simp/SimpSolver.cc:299-309 | a conflict after assuming the negation of a clause means that the clause follows |
| Probing.ComesToRest | src/minisat/simp/SimpSolver.cc:299-311 | without a conflict the negation of the clause is a state at rest: all its literals are false, and no clause is false or has one literal left |
| SatSolver.Solver.Implied | src/minisat/simp/SimpSolver.cc:296-312 | assumes, propagates on the real watch lists and takes everything back: trail and values are as before; true means that the clause follows and is not trivial, false that it is trivial or that propagation comes to rest without a conflict |
| Simplification.Simplifier.Implied | src/minisat/simp/SimpSolver.cc:296-312 | the same for the simplifier, whose tables are kept as well |
| Simplification.Simplifier.AddClause | src/minisat/simp/SimpSolver.cc:126-162 | the records still lead back to all clauses ever added, now including this one; a clause that was stored is queued and its variables are touched |
| Simplification.Simplifier.WithinLimits | src/minisat/simp/SimpSolver.cc:474-481 | true exactly when the resolvents that are not tautologies are few enough and none is too long |
| Simplification.Simplifier.RecordSide | src/minisat/simp/SimpSolver.cc:488-496 | stores the smaller side behind the earlier records, with the default that satisfies the other side |
| Simplification.Simplifier.EliminateVar | src/minisat/simp/SimpSolver.cc:459-516 | beyond the limits nothing changes; within them v is quantified away exactly, and false means the clauses added are unsatisfiable |
| Simplification.Simplifier.GatherTouched | src/minisat/simp/SimpSolver.cc:269-293 | queues every live clause on a touched variable; afterwards nothing is touched |
| Simplification.Simplifier.EliminateNext | src/minisat/simp/SimpSolver.cc:594-622 | takes one variable from the order; it is passed over if it is eliminated, assigned or frozen, and otherwise eliminated exactly if its resolvents are few and short enough at that moment |
| Attempts.EliminatedWhen | src/minisat/simp/SimpSolver.cc:594-622 | whatever is eliminated in the end was taken up when it was free and its resolvents were within the limits |
| Simplification.Simplifier.EliminateRound | src/minisat/simp/SimpSolver.cc:574-627 | one round ends with queue and order empty and the trail used up; before elimination starts no clause on a touched variable subsumes or strengthens another; every variable of the order is taken, and what became of it is recorded; unless a variable is eliminated nothing is touched and no literal is added |
| Simplification.Simplifier.Eliminate | src/minisat/simp/SimpSolver.cc:566-655 | terminates; at the end nothing is touched, queued or in the order and the trail is used up; every variable that was in the order has been taken up, with the result recorded; the relation to all clauses ever added is kept; frozen variables, such as assumptions, are not eliminated |
| Simplification.Simplifier.ExtendModel | src/minisat/simp/SimpSolver.cc:550-563 | any values that satisfy the current clauses become values that satisfy every clause ever added |
| SimpSolving.FreezeAssumptions | src/minisat/simp/SimpSolver.cc:91-103 | freezes the variables of the assumptions and remembers exactly those that were not frozen |
| SimpSolving.SearchLeft | src/minisat/simp/SimpSolver.cc:109-110 | the search answers for the clauses that are left: values for all remaining variables that satisfy them and the assumptions, or none exist |
| SimpSolving.Solve | src/minisat/simp/SimpSolver.cc:85-123 | with or without preprocessing: true leaves values that make every clause ever added and every assumption true, false means there are none; the frozen marks are restored |
| SimpSolving.EliminateLast | src/minisat/simp/SimpSolver.cc:566-655 | simplifies for the last time and leaves the solver in order for searching in place, with a formula over the remaining variables that stands for all clauses added |
| SimpSolving.SolveOff | src/minisat/simp/SimpSolver.cc:85-123 | any number of searches in place after that: true leaves values for all clauses ever added and the assumptions, false means there are none |
| SimpSolving.AddClauseOff | src/minisat/simp/SimpSolver.cc:126-138 | clauses over remaining variables may still be added in between |
| SatInterface.MinisatInterface.Solve | src/sat.h:83-100 | terminates; true comes with a model of all clauses and assumptions, false means there is none; the last model stays readable |
| Projection.IndexInjective | src/PICounter.h:190-198 | different outputs fall into different buckets |
| Projection.IndexBound | src/PICounter.h:190-198 | the bucket of an output exists |
| Projection.IndexBits | src/PICounter.h:190-198 | bit i of the number of an output is the value of its i-th variable, the first being the lowest bit |
| Projection.BlockingMeaning | src/PICounter.cpp:43-60 | the blocking clause excludes exactly one valuation |
| Projection.ExhaustedInputs | src/PICounter.cpp:103-163 | on exhaustion each input that extends to a model has been counted exactly once, and no other |
| Projection.ExhaustedCounts | src/PICounter.cpp:103-163 | if the inputs determine the output, each output has then been counted once per pre-image |
| Projection.TallyBound | src/PICounter.cpp:295-325 | no more inputs are counted than there are valuations, which bounds the number of rounds |
| Tallying.CountInput | src/PICounter.cpp:140-141 | counting and blocking an input keeps "the clauses describe exactly what has not been counted" |
| Tallying.CloseOutput | src/PICounter.cpp:149-159 | an output whose inputs have all been counted may be blocked |
| Tallying.LabelOutput | src/PICounter.cpp:222-234 | a label clause excludes its output exactly while the label is true |
| Tallying.NoneUnnamed | src/PICounter.cpp:220-247 | when no model is left under all labels, every model not counted has a labelled output |
| Tallying.NoneForLabel | src/PICounter.cpp:263-277 | when no model is left with one label released, no model not counted has that output |
| Tallying.ModesAgree | src/PICounter.cpp:84-325 | the exhaustive modes compute the same histogram |
| Counting.PICounter.ProjectModel | src/PICounter.cpp:62-81 | exactly the literals over the variables that the model makes true; if all variables have values, the cube that fixes them, in order |
| Counting.PICounter.Interpret | src/PICounter.h:190-198 | the loop from the last variable down computes the number below 2 to the number of variables whose bit i is the model's value of the i-th variable |
| Counting.PICounter.ProhibitProject | src/PICounter.cpp:43-60 | adds exactly the clause that blocks the model's valuation |
| Counting.PICounter.CountUnstructuredOne | src/PICounter.cpp:306-325 | counts exactly one more input, under its output, or finds that all have been counted |
| Counting.PICounter.CountUnguided | src/PICounter.cpp:295-304 | terminates with every input that extends to a model counted exactly once; if the inputs determine the output the histogram is that of the function |
| Counting.PICounter.CountOneBucket | src/PICounter.cpp:103-163 | counts all inputs of one more output and closes it, or finds that all inputs have been counted |
| Counting.PICounter.CountBucketAll | src/PICounter.cpp:84-91 | terminates with every input counted exactly once, each bucket closed in turn; if the inputs determine the output the histogram is that of the function |
| Counting.PICounter.PrepareSyncCounting | src/PICounter.cpp:215-247 | labels every output that occurs, each bucket starting with one input |
| Counting.PICounter.SyncOne | src/PICounter.cpp:263-280 | with one label released, counts one more input of exactly that output, or closes its bucket when no model is left |
| Counting.PICounter.CountSync | src/PICounter.cpp:249-293 | in one round each open bucket is counted once more or closed, and closed ones stay; a round without growth closes every bucket, and then all inputs have been counted |
| Counting.PICounter.CountAllSync | src/main.cpp:168-205 | terminates with all inputs counted: every labelled bucket holds the pre-image count of its output, and all other outputs have none |
| Entropy.Level | src/entropy.cpp:87-104 | terminates, uses up the residue exactly, and leaves everything it raised at most one above everything else |
| Entropy.LevelledOptimal | src/entropy.cpp:87-104 | no distribution of the residue over the open buckets costs less than the levelled queue, for every discretely convex cost |
| Entropy.LowerBound | src/entropy.cpp:71-108 | the value returned is that of closed and open buckets as they were; the levelled queue is built but not used |
| Entropy.UpperBound | src/entropy.cpp:51-68 | the whole residue goes to the first largest bucket |
| Entropy.Bracket | src/entropy.cpp:51-108 | for every distribution of the uncounted inputs over the open buckets the cost lies between the two values returned |
| Entropy.TighterBound | src/entropy.cpp:106-107 | the levelled queue would bound every distribution from below at least as tightly as the value returned |
| Entropy.TightExactly | src/entropy.cpp:71-108 | for a cost that is 0 at 0 and 1 and increases from 1 on, the value returned is the cost of the levelled queue exactly if the residue is no larger than the number of empty open buckets |
| Entropy.ReturnedBoundIsLoose | src/entropy.cpp:106-107 | an input on which it is strictly smaller |
| IndexedHeap.SwapUp | src/minisat/mtl/Heap.h:44-57 | exchanging a too small element with its parent leaves only the parent's place in doubt |
| IndexedHeap.SwapDown | src/minisat/mtl/Heap.h:60-72 | exchanging a too large element with its smaller child leaves only the child's place in doubt |
| IndexedHeap.RootMinimal | src/minisat/mtl/Heap.h:110-119 | the root of an ordered heap is a minimum |
| IndexedHeap.KeyDecreased | src/minisat/mtl/Heap.h:84 | a smaller key leaves exactly the situation that percolating up repairs |
| IndexedHeap.KeyIncreased | src/minisat/mtl/Heap.h:85 | a larger key leaves exactly the situation that percolating down repairs |
| IndexedHeap.KeyChanged | src/minisat/mtl/Heap.h:89-96 | any other key leaves the situation that percolating up and then down repairs |
| IndexedHeap.ElementsChange | src/minisat/mtl/Heap.h:99-119 | seen as a set of variables, inserting adds the element and removing the minimum takes it out |
| IndexedHeap.Heap.PercolateUp | src/minisat/mtl/Heap.h:44-57 | restores the order if only one element was too small, keeping elements and the inverse of positions |
| IndexedHeap.Heap.PercolateDown | src/minisat/mtl/Heap.h:60-72 | restores the order if only one element was too large, keeping elements and the inverse of positions |
| IndexedHeap.Heap.Insert | src/minisat/mtl/Heap.h:99-107 | adds one element and keeps order and inverse |
| IndexedHeap.Heap.Update | src/minisat/mtl/Heap.h:89-96 | restores the order after any change of one key, or inserts the element |
| IndexedHeap.Heap.RemoveMin | src/minisat/mtl/Heap.h:110-119 | removes an element that no other is below and keeps order and inverse |
| IndexedHeap.Heap.Build | src/minisat/mtl/Heap.h:123-134 | an ordered heap of exactly the given elements |
| LubySequence.FinitePrefix | src/minisat/core/Solver.cc:729-739 | each finite subsequence is a prefix of the later ones |
| LubySequence.LubyExponent | src/minisat/core/Solver.cc:741-755 | both loops terminate, and the exponent is that of the recursively defined sequence at every index |
| LubySequence.LimitsGrow | src/minisat/core/Solver.cc:778-785 | with either restart strategy the limits on conflicts pass every bound |
| LubySequence.Luby | src/minisat/core/Solver.cc:741-755 | the result is the base to the power of that exponent |

## Left out

- SatSolver.Solver.Search: budgets on conflicts and propagations and interrupts, which are off unless asked for, are not modelled; which of the literals without a value is decided on is left open.
- SatSolver.Solver.PickBranchLit: which variable and which polarity is left open, as activities and phases are; the order is a set here, and the heap that implements it is a module of its own.
- SatSolver.Solver.ReduceDB: which learnt clauses have low activity is left open.
- SatSolver.Solver.Simplify: whether enough has happened since the last simplification to try again is left open.
- Simplification.Simplifier.EliminateNext: which variable of the order comes first is left open, as the product of its occurrences only guides the choice.
- Simplification.Simplifier.StrengthenClause: a binary clause that is removed keeps both literals in the database, and a clause shortened at its first literal is forgotten as that literal's reason; neither is read again at level 0.
- SimpSolving.Solve: with simplification left on, the search runs on a copy of the solver, made field by field, because the simplifier is modelled without learnt clauses; after `EliminateLast` it runs in place.
- Garbage collection in the middle of simplification is not modelled; it runs when simplification is turned off.
- Counting.PICounter.CountOneBucket: the tolerance test and termination on user request are not modelled.
- Entropy.LowerBound: exactly one open bucket with inputs left to count is excluded, because the loop then reads the top of an empty queue; the factor one over the input space and the logarithm are replaced by an arbitrary convex cost.
- Entropy.UpperBound: a histogram with only empty buckets is excluded, because no largest bucket is then found.
- ClauseRegion.ClauseAllocator.Alloc: growth of the capacity and exhaustion of the 32-bit address space are not modelled.
- Learnt clauses in the simplifier, asymmetric branching, substitution and interrupts are off by default or unused.
- The randomised counting mode, min-entropy, the external counter, the tolerance test and the default projection of the plain counter are not part of this model.
- Activities, decay, rescaling, progress estimates and statistics do not affect any result proved here.
- Reading and writing of files, command line, console output, signals and timing.
- Machine integers are unbounded here: counts, bucket numbers and variable numbers are not limited to 32 or 64 bits.
