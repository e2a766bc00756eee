/** Solving with preprocessing: freeze the assumptions, simplify, search, and extend the model. */
module SimpSolving {
  import opened Literals
  import opened Assignment
  import Meaning
  import Steps
  import SatSolver
  import Projection
  import opened Elimination
  import opened SimpState
  import opened History
  import SimpTables
  import opened Simplification

  /** Only variables that have not been eliminated occur. */
  ghost predicate Remaining(f: seq<seq<Lit>>, elim: seq<bool>) {
    forall c, p :: c in f && p in c ==> p.v < |elim| && !elim[p.v]
  }

  /** Every variable that was not eliminated is a decision variable or assumed. */
  ghost predicate Decidable(decision: seq<bool>, elim: seq<bool>, assumptions: seq<Lit>) {
    |decision| == |elim| && forall v :: 0 <= v < |elim| && !elim[v] ==>
      decision[v] || exists i :: 0 <= i < |assumptions| && assumptions[i].v == v
  }

  /** Assumptions over variables that have not been eliminated. */
  ghost predicate AssumptionsOk(assumptions: seq<Lit>, elim: seq<bool>) {
    forall i :: 0 <= i < |assumptions| ==> assumptions[i].v < |elim| && !elim[assumptions[i].v]
  }

  /** Values for all variables that were not eliminated, which satisfy the formula. */
  ghost predicate ValuesFor(values: seq<LBool>, elim: seq<bool>, f: seq<seq<Lit>>) {
    && |values| == |elim| && (forall v :: 0 <= v < |elim| && !elim[v] ==> values[v] != LUndef)
    && SatAll(Projection.AsModel(values), f)
  }

  /** They make the clauses and units true that the formula stands for. */
  lemma SearchModel(f: seq<seq<Lit>>, ca: seq<Clause>, trail: seq<Lit>, elim: seq<bool>, values: seq<LBool>)
    requires StandsFor(f, ca, trail) && DbGood(elim, ca) && ValuesFor(values, elim, f)
    requires forall i :: 0 <= i < |trail| ==> trail[i].v < |elim| && !elim[trail[i].v]
    ensures ModelOfNow(values, elim, ca, trail)
  {
    var m := Projection.AsModel(values);
    assert Now(m, ca, trail);
    forall r | 0 <= r < |ca| && !ca[r].deleted ensures TrueIn(values, ca[r].lits) {
      assert Good(elim, ca[r]) && Sat(m, ca[r].lits);
      var p :| p in ca[r].lits && Holds(m, p);
      var k :| 0 <= k < |ca[r].lits| && ca[r].lits[k] == p;
      assert TrueLit(values, p);
    }
    forall i | 0 <= i < |trail| ensures TrueIn(values, [trail[i]]) {
      assert Holds(m, trail[i]) && trail[i] in [trail[i]] && TrueLit(values, trail[i]);
    }
  }

  /** Values for a formula that stands for all clauses added extend to these. */
  lemma RepresentedModel(orig: seq<seq<Lit>>, recs: seq<seq<Lit>>, elim: seq<bool>, elims: seq<nat>, f: seq<seq<Lit>>, values: seq<LBool>)
    requires Represents(orig, recs, f) && RecordsGood(recs, elim, elims) && InRange(orig, |elim|) && ValuesFor(values, elim, f)
    ensures forall c :: c in orig ==> TrueIn(UndoValues(values, recs), c)
    ensures forall u :: 0 <= u < |elim| && !elim[u] ==> UndoValues(values, recs)[u] == values[u]
  {
    hide RecordsGood, InRange, TrueIn;
    ExtendedValues(orig, recs, elim, elims, values);
  }

  lemma TrailRemaining(elim: seq<bool>, values: seq<LBool>, trail: seq<Lit>)
    requires TrailGood(elim, values, trail)
    ensures |values| == |elim| && forall i :: 0 <= i < |trail| ==> trail[i].v < |elim| && !elim[trail[i].v]
  {
    forall i | 0 <= i < |trail| ensures trail[i].v < |elim| && !elim[trail[i].v] {
      assert values[trail[i].v] != LUndef;
    }
  }

  ghost predicate NoSolution(orig: seq<seq<Lit>>, assumptions: seq<Lit>) {
    forall m: Model :: SatAll(m, orig) ==> !Projection.HoldAll(m, assumptions)
  }

  lemma NothingLeft(f: seq<seq<Lit>>, conflict: seq<Lit>, assumptions: seq<Lit>)
    requires Entails(f, conflict) && forall q :: q in conflict ==> Neg(q) in assumptions
    ensures NoSolution(f, assumptions)
  {
    forall m: Model | SatAll(m, f) ensures !Projection.HoldAll(m, assumptions) {
      assert Sat(m, conflict);
      var q :| q in conflict && Holds(m, q);
      var i :| 0 <= i < |assumptions| && assumptions[i] == Neg(q);
      assert !Holds(m, assumptions[i]);
    }
  }

  /** What is ruled out for the formula that is left is ruled out for all clauses ever added. */
  lemma NoneAtAll(orig: seq<seq<Lit>>, recs: seq<seq<Lit>>, ca: seq<Clause>, trail: seq<Lit>, f: seq<seq<Lit>>, assumptions: seq<Lit>)
    requires Reduces(orig, recs, ca, trail) && StandsFor(f, ca, trail) && NoSolution(f, assumptions)
    ensures NoSolution(orig, assumptions)
  {
  }

  lemma NoneRepresented(orig: seq<seq<Lit>>, recs: seq<seq<Lit>>, f: seq<seq<Lit>>, assumptions: seq<Lit>)
    requires Represents(orig, recs, f)
    ensures NoSolution(f, assumptions) ==> NoSolution(orig, assumptions)
    ensures Unsat(f) ==> Unsat(orig)
  {
  }

  /** The variables frozen on top of those that were. */
  ghost predicate FrozenMore(before: seq<bool>, frozen: seq<bool>, extra: seq<Var>) {
    && |frozen| == |before| && NoDup(extra) && (forall i :: 0 <= i < |extra| ==> extra[i] < |before| && !before[extra[i]])
    && forall u :: 0 <= u < |before| ==> frozen[u] == (before[u] || u in extra)
  }

  /** Freeze the variables of the assumptions and remember which were not frozen before. */
  method FreezeAssumptions(simp: Simplifier, assumptions: seq<Lit>) returns (extraFrozen: seq<Var>)
    requires simp.Consistent() && AssumptionsOk(assumptions, simp.eliminated)
    modifies simp`frozen, simp`elimHeap
    ensures simp.Consistent() && FrozenMore(old(simp.frozen), simp.frozen, extraFrozen)
    ensures forall i :: 0 <= i < |assumptions| ==> assumptions[i].v < |simp.frozen| && simp.frozen[assumptions[i].v]
  {
    hide simp.Consistent;
    simp.FrozenSize();
    extraFrozen := [];
    var i := 0;
    while i < |assumptions|
      invariant 0 <= i <= |assumptions| && simp.Consistent() && FrozenMore(old(simp.frozen), simp.frozen, extraFrozen)
      invariant forall k :: 0 <= k < i ==> simp.frozen[assumptions[k].v]
    {
      var v := assumptions[i].v;
      if !simp.frozen[v] {
        simp.SetFrozen(v, true);
        extraFrozen := extraFrozen + [v];
      }
      i := i + 1;
    }
  }

  method Unfreeze(simp: Simplifier, extraFrozen: seq<Var>, ghost before: seq<bool>)
    requires simp.Consistent() && FrozenMore(before, simp.frozen, extraFrozen)
    modifies simp`frozen, simp`elimHeap
    ensures simp.Consistent() && simp.frozen == before
  {
    hide simp.Consistent;
    var i := 0;
    while i < |extraFrozen|
      invariant 0 <= i <= |extraFrozen| && simp.Consistent() && |simp.frozen| == |before|
      invariant forall u :: 0 <= u < |before| ==> simp.frozen[u] == (before[u] || u in extraFrozen[i..])
    {
      assert extraFrozen[i..] == [extraFrozen[i]] + extraFrozen[i + 1..];
      assert extraFrozen[i] !in extraFrozen[i + 1..];
      simp.SetFrozen(extraFrozen[i], false);
      i := i + 1;
    }
  }

  /** Values that make every clause added and every assumption true. */
  ghost predicate Solved(values: seq<LBool>, orig: seq<seq<Lit>>, assumptions: seq<Lit>) {
    (forall c :: c in orig ==> TrueIn(values, c)) && Meets(values, assumptions)
  }

  /** The values make every assumption true. */
  ghost predicate Meets(values: seq<LBool>, assumptions: seq<Lit>) {
    forall i :: 0 <= i < |assumptions| ==> TrueLit(values, assumptions[i])
  }

  /** Search on a solver whose formula is over the remaining variables. */
  method SearchLeft(s: SatSolver.Solver, assumptions: seq<Lit>, ghost elim: seq<bool>) returns (result: LBool)
    requires s.Consistent() && s.ok && |s.assigns| == |elim| && Remaining(s.orig, elim)
    requires AssumptionsOk(assumptions, elim) && Decidable(s.decision, elim, assumptions)
    modifies s
    ensures s.Consistent() && s.orig == old(s.orig) && s.decision == old(s.decision) && |s.assigns| == |old(s.assigns)|
    ensures result == LTrue ==> s.ok && ValuesFor(s.model, elim, s.orig) && Meets(s.model, assumptions)
    ensures result == LFalse ==> NoSolution(s.orig, assumptions)
  {
    hide Remaining, Decidable, AssumptionsOk, Entails, NoSolution, ValuesFor, Meets, s.Consistent, s.ModelFound;
    AssumptionsInRange(assumptions, elim);
    result := s.Solve(assumptions);
    if result == LTrue {
      FoundModel(s, elim, assumptions);
    } else if result == LFalse {
      NothingLeft(s.orig, s.conflict, assumptions);
    }
  }

  lemma AssumptionsInRange(assumptions: seq<Lit>, elim: seq<bool>)
    requires AssumptionsOk(assumptions, elim)
    ensures forall i :: 0 <= i < |assumptions| ==> assumptions[i].v < |elim|
  {
  }

  /** What the search found is a model of the formula, with a value for every remaining variable. */
  lemma FoundModel(s: SatSolver.Solver, elim: seq<bool>, assumptions: seq<Lit>)
    requires s.ModelFound() && s.assumptions == assumptions && |s.assigns| == |elim| && Remaining(s.orig, elim)
    requires AssumptionsOk(assumptions, elim) && Decidable(s.decision, elim, assumptions)
    ensures ValuesFor(s.model, elim, s.orig) && Meets(s.model, assumptions)
  {
    assert Steps.Agrees(Projection.AsModel(s.model), s.model);
    forall p: Lit | Meaning.Mentions(s.orig, p) ensures s.Fixed(p.v) {
      var c :| c in s.orig && p in c;
    }
    forall v | 0 <= v < |elim| && !elim[v] ensures s.model[v] != LUndef {
    }
  }

  /** Assumptions are not eliminated, so extending the model keeps them true. */
  lemma AssumptionsKept(values: seq<LBool>, values': seq<LBool>, assumptions: seq<Lit>, elim: seq<bool>)
    requires AssumptionsOk(assumptions, elim) && |values| == |values'| == |elim| && Meets(values, assumptions)
    requires forall u :: 0 <= u < |elim| && !elim[u] ==> values'[u] == values[u]
    ensures Meets(values', assumptions)
  {
  }

  lemma UnsatNoSolution(orig: seq<seq<Lit>>, assumptions: seq<Lit>)
    requires Unsat(orig)
    ensures NoSolution(orig, assumptions)
  {
  }

  /** Elimination removes neither frozen variables nor the decidability of the others. */
  lemma StillDecidable(decision: seq<bool>, elim: seq<bool>, decision': seq<bool>, elim': seq<bool>, frozen: seq<bool>, assumptions: seq<Lit>)
    requires Decidable(decision, elim, assumptions) && AssumptionsOk(assumptions, elim)
    requires |elim'| == |elim| && |decision'| == |decision|
    requires forall u :: 0 <= u < |elim'| && u < |frozen| && frozen[u] ==> elim'[u] == elim[u]
    requires forall u :: 0 <= u < |decision'| && u < |elim'| && !elim'[u] ==> decision'[u] == decision[u]
    requires forall u :: 0 <= u < |elim'| && elim[u] ==> elim'[u]
    requires forall i :: 0 <= i < |assumptions| ==> assumptions[i].v < |frozen| && frozen[assumptions[i].v]
    ensures Decidable(decision', elim', assumptions) && AssumptionsOk(assumptions, elim')
  {
  }

  /** What the search needs of the simplifier's state. */
  lemma SearchReady(simp: Simplifier)
    requires simp.Consistent() && simp.solver.ok
    ensures DbGood(simp.eliminated, simp.solver.ca) && |simp.solver.assigns| == |simp.eliminated|
    ensures forall i :: 0 <= i < |simp.solver.trail| ==> simp.solver.trail[i].v < |simp.eliminated| && !simp.eliminated[simp.solver.trail[i].v]
    ensures Reduces(simp.orig, simp.recs, simp.solver.ca, simp.solver.trail)
  {
    hide DbGood, OccGood, AbsGood, SimpTables.Agenda, SimpTables.ListedOnce, simp.Top, Reduces, RecordsGood, InRange;
    TrailRemaining(simp.eliminated, simp.solver.assigns, simp.solver.trail);
  }

  /**
   Search on the clauses that are left. The search starts from the very state of the simplifier's solver, watch lists
   included, but on a copy, since the simplifier knows no learnt clauses.
   */
  method SearchCopy(simp: Simplifier, assumptions: seq<Lit>) returns (result: LBool, values: seq<LBool>)
    requires simp.Consistent() && simp.solver.ok
    requires AssumptionsOk(assumptions, simp.eliminated) && Decidable(simp.solver.decision, simp.eliminated, assumptions)
    modifies simp.solver`orig
    ensures simp.Consistent()
    ensures result == LTrue ==> ModelOfNow(values, simp.eliminated, simp.solver.ca, simp.solver.trail) && Meets(values, assumptions)
    ensures result == LFalse ==> NoSolution(simp.orig, assumptions)
  {
    hide DbGood, Reduces, Decidable, AssumptionsOk, StandsFor, NoSolution, ModelOfNow, Meets, ValuesFor, simp.Consistent, simp.solver.Consistent;
    simp.Describe();
    simp.SolverConsistent();
    SearchReady(simp);
    var s := new SatSolver.Solver.Copy(simp.solver);
    result := SearchLeft(s, assumptions, simp.eliminated);
    values := s.model;
    if result == LTrue {
      SearchModel(simp.solver.orig, simp.solver.ca, simp.solver.trail, simp.eliminated, values);
    } else if result == LFalse {
      NoneAtAll(simp.orig, simp.recs, simp.solver.ca, simp.solver.trail, simp.solver.orig, assumptions);
    }
  }

  /** Search on the clauses that are left, and extend the model found to all variables. */
  method SearchAndExtend(simp: Simplifier, assumptions: seq<Lit>) returns (result: LBool)
    requires simp.Consistent() && simp.solver.ok
    requires AssumptionsOk(assumptions, simp.eliminated) && Decidable(simp.solver.decision, simp.eliminated, assumptions)
    modifies simp.solver`orig, simp.solver`model
    ensures simp.Consistent()
    ensures result == LTrue ==> Solved(simp.solver.model, simp.orig, assumptions)
    ensures result == LFalse ==> NoSolution(simp.orig, assumptions)
  {
    hide RecordsGood, InRange, Reduces, Decidable, AssumptionsOk, NoSolution, ModelOfNow, Meets, simp.Shape, simp.Sizes, simp.solver.Listed;
    var values;
    result, values := SearchCopy(simp, assumptions);
    if result == LTrue {
      ModelSize(values, simp.eliminated, simp.solver.ca, simp.solver.trail);
      simp.solver.model := values;
      simp.ExtendModel();
      AssumptionsKept(values, simp.solver.model, assumptions, simp.eliminated);
    }
  }

  /**
   Solve under assumptions, with or without preprocessing: true comes with values for all variables that make every
   clause ever added and every assumption true; false means that there are none. The frozen marks are restored.
   */
  method Solve(simp: Simplifier, assumptions: seq<Lit>, doSimp: bool) returns (result: LBool)
    requires simp.Consistent() && AssumptionsOk(assumptions, simp.eliminated) && Decidable(simp.solver.decision, simp.eliminated, assumptions)
    modifies simp, simp.solver
    ensures simp.Consistent() && simp.orig == old(simp.orig) && simp.frozen == old(simp.frozen)
    ensures result == LTrue ==> Solved(simp.solver.model, simp.orig, assumptions)
    ensures result == LFalse ==> NoSolution(simp.orig, assumptions)
  {
    hide simp.Ready, simp.Shape, simp.Consistent, Reduces, Decidable, AssumptionsOk, Solved, NoSolution, Unsat, FrozenMore;
    result := LTrue;
    var extraFrozen: seq<Var> := [];
    if doSimp {
      result, extraFrozen := Preprocess(simp, assumptions);
    }
    if result == LTrue {
      if simp.solver.ok {
        result := SearchAndExtend(simp, assumptions);
      } else {
        result := LFalse;
      }
    }
    if !simp.solver.ok {
      Hopeless(simp, assumptions);
    }
    if doSimp {
      Unfreeze(simp, extraFrozen, old(simp.frozen));
    }
  }

  /** Freeze the assumptions and simplify. */
  method Preprocess(simp: Simplifier, assumptions: seq<Lit>) returns (result: LBool, extraFrozen: seq<Var>)
    requires simp.Consistent() && AssumptionsOk(assumptions, simp.eliminated) && Decidable(simp.solver.decision, simp.eliminated, assumptions)
    modifies simp, simp.solver
    ensures simp.Consistent() && simp.orig == old(simp.orig) && FrozenMore(old(simp.frozen), simp.frozen, extraFrozen)
    ensures AssumptionsOk(assumptions, simp.eliminated) && Decidable(simp.solver.decision, simp.eliminated, assumptions)
    ensures result == (if simp.solver.ok then LTrue else LFalse)
  {
    hide simp.Consistent, Decidable, AssumptionsOk, FrozenMore;
    extraFrozen := FreezeAssumptions(simp, assumptions);
    ghost var decision0, elim0 := simp.solver.decision, simp.eliminated;
    var fine, _ := simp.Eliminate();
    StillDecidable(decision0, elim0, simp.solver.decision, simp.eliminated, simp.frozen, assumptions);
    result := if fine then LTrue else LFalse;
  }

  lemma Hopeless(simp: Simplifier, assumptions: seq<Lit>)
    requires simp.Consistent() && !simp.solver.ok
    ensures NoSolution(simp.orig, assumptions)
  {
    UnsatNoSolution(simp.orig, assumptions);
  }

  // ---------- after simplification has been turned off ----------

  /** The solver works on its own: its formula, over the remaining variables, stands for all clauses added. */
  ghost predicate TurnedOff(simp: Simplifier)
    reads simp, simp.solver
  {
    && simp.solver.Consistent() && |simp.solver.assigns| == |simp.eliminated| && InRange(simp.orig, |simp.eliminated|)
    && RecordsGood(simp.recs, simp.eliminated, simp.elimclauses)
    && if simp.solver.ok then Remaining(simp.solver.orig, simp.eliminated) && Represents(simp.orig, simp.recs, simp.solver.orig)
       else Unsat(simp.orig)
  }

  lemma StandsRepresents(orig: seq<seq<Lit>>, recs: seq<seq<Lit>>, ca: seq<Clause>, trail: seq<Lit>, f: seq<seq<Lit>>)
    requires Reduces(orig, recs, ca, trail) && StandsFor(f, ca, trail)
    ensures Represents(orig, recs, f)
  {
  }

  lemma HandOver(simp: Simplifier)
    requires simp.Consistent()
    ensures RecordsGood(simp.recs, simp.eliminated, simp.elimclauses) && InRange(simp.orig, |simp.eliminated|)
    ensures |simp.solver.assigns| == |simp.eliminated| && (!simp.solver.ok ==> simp.solver.Consistent() && Unsat(simp.orig))
  {
  }

  /** Simplify for the last time; from now on the solver's own clauses, watch lists and trail are searched in place. */
  method EliminateLast(simp: Simplifier) returns (r: bool)
    requires simp.Consistent()
    modifies simp, simp.solver
    ensures TurnedOff(simp) && r == simp.solver.ok && simp.orig == old(simp.orig) && simp.frozen == old(simp.frozen)
    ensures simp.Fewer(old(simp.eliminated), old(simp.solver.decision))
  {
    hide simp.Consistent, simp.solver.Consistent, RecordsGood, InRange, Reduces, Represents, StandsFor, Unsat, DbGood, Remaining;
    ghost var takes;
    r, takes := simp.Eliminate();
    HandOver(simp);
    if r {
      simp.Describe();
      HandOver(simp);
      simp.SolverConsistent();
      SearchReady(simp);
      StandsRepresents(simp.orig, simp.recs, simp.solver.ca, simp.solver.trail, simp.solver.orig);
      DescribedRemaining(simp.solver.orig, simp.eliminated);
      CleanUp(simp);
    }
  }

  lemma DescribedRemaining(f: seq<seq<Lit>>, elim: seq<bool>)
    requires forall c, p :: c in f && p in c ==> p.v < |elim| && !elim[p.v]
    ensures Remaining(f, elim)
  {
  }

  /** Drop the data of simplification; satisfied clauses may be removed from now on. */
  method CleanUp(simp: Simplifier)
    requires simp.solver.ok && simp.solver.Consistent()
    modifies simp`touched, simp`occurs, simp`elimHeap, simp`queue, simp.solver
    ensures simp.solver.Consistent() && simp.solver.ok && simp.solver.removeSat
    ensures simp.solver.orig == old(simp.solver.orig) && simp.solver.decision == old(simp.solver.decision) && simp.solver.assigns == old(simp.solver.assigns)
  {
    hide simp.solver.Consistent;
    simp.touched, simp.occurs, simp.elimHeap, simp.queue := {}, [], {}, [];
    simp.solver.CleanUp();
    simp.solver.removeSat := true;
  }

  /** Solve in place: as often as needed, with clauses added in between. */
  method SolveOff(simp: Simplifier, assumptions: seq<Lit>) returns (result: LBool)
    requires TurnedOff(simp) && AssumptionsOk(assumptions, simp.eliminated) && Decidable(simp.solver.decision, simp.eliminated, assumptions)
    modifies simp.solver
    ensures TurnedOff(simp) && simp.solver.decision == old(simp.solver.decision)
    ensures result == LTrue ==> Solved(simp.solver.model, simp.orig, assumptions)
    ensures result == LFalse ==> NoSolution(simp.orig, assumptions)
  {
    hide simp.solver.Consistent, RecordsGood, InRange, Represents, Decidable, AssumptionsOk, NoSolution, ValuesFor, Meets, Remaining, Unsat, TrueIn;
    if !simp.solver.ok {
      UnsatNoSolution(simp.orig, assumptions);
      return LFalse;
    }
    result := SearchLeft(simp.solver, assumptions, simp.eliminated);
    StillRepresents(simp);
    NoneRepresented(simp.orig, simp.recs, simp.solver.orig, assumptions);
    if result == LTrue {
      ExtendInPlace(simp, assumptions);
    }
  }

  lemma StillRepresents(simp: Simplifier)
    requires simp.solver.Consistent()
    ensures !simp.solver.ok ==> Unsat(simp.solver.orig)
  {
    simp.solver.ConsistentSizes();
  }

  /** Extend the values found to the eliminated variables. */
  method ExtendInPlace(simp: Simplifier, assumptions: seq<Lit>)
    requires TurnedOff(simp) && simp.solver.ok && AssumptionsOk(assumptions, simp.eliminated)
    requires ValuesFor(simp.solver.model, simp.eliminated, simp.solver.orig) && Meets(simp.solver.model, assumptions)
    modifies simp.solver`model
    ensures TurnedOff(simp) && Solved(simp.solver.model, simp.orig, assumptions)
  {
    hide Represents, AssumptionsOk, Meets, Remaining, TrueIn, RecordsGood, InRange, simp.solver.Consistent;
    ghost var values := simp.solver.model;
    RepresentedModel(simp.orig, simp.recs, simp.eliminated, simp.elimclauses, simp.solver.orig, values);
    ReadableRange(simp.recs, simp.eliminated, simp.elimclauses);
    simp.solver.model := ExtendValues(simp.elimclauses, simp.solver.model, simp.recs);
    AssumptionsKept(values, simp.solver.model, assumptions, simp.eliminated);
  }

  /** Add a clause over variables that have not been eliminated. */
  method AddClauseOff(simp: Simplifier, ps: seq<Lit>) returns (r: bool)
    requires TurnedOff(simp) && AssumptionsOk(ps, simp.eliminated)
    modifies simp`orig, simp.solver
    ensures TurnedOff(simp) && simp.orig == old(simp.orig) + [ps] && r == simp.solver.ok && simp.solver.decision == old(simp.solver.decision)
  {
    hide simp.solver.Consistent, simp.solver.Settled, RecordsGood, Represents, Unsat, Steps.Stored;
    simp.solver.ConsistentSettled();
    AddsToAll(simp.orig, simp.recs, simp.eliminated, simp.elimclauses, simp.solver.ca, simp.solver.trail, ps);
    if simp.solver.ok {
      RepresentsMore(simp.orig, simp.recs, simp.eliminated, simp.elimclauses, simp.solver.orig, ps);
    }
    r := simp.solver.AddClause(ps);
    StillRepresents(simp);
    simp.orig := simp.orig + [ps];
    NoneRepresented(simp.orig, simp.recs, simp.solver.orig, []);
  }

  lemma ReadableRange(recs: seq<seq<Lit>>, elim: seq<bool>, elims: seq<nat>)
    requires RecordsGood(recs, elim, elims)
    ensures elims == Flat(recs) && RecordsInRange(recs, |elim|)
  {
  }
}
