/** The solver as the counters see it. */
module SatInterface {
  import opened Literals
  import opened Meaning
  import SatSolver
  import Projection

  class MinisatInterface {
    const solver: SatSolver.Solver
    var model: seq<LBool>

    ghost predicate Valid()
      reads this, solver
    {
      solver.Consistent()
    }

    /** All clauses added. */
    ghost function Formula(): seq<seq<Lit>>
      reads this, solver
    {
      solver.orig
    }

    /** Which of the variables are decision variables. */
    ghost function Decision(): seq<bool>
      reads this, solver
    {
      solver.decision
    }

    constructor ()
      ensures Valid() && Formula() == [] && Decision() == [] && fresh(solver)
    {
      solver := new SatSolver.Solver();
      model := [];
      new;
      Sizes();
    }

    lemma Sizes()
      requires Valid()
      ensures |solver.assigns| == |Decision()|
    {
    }

    method NewVariable(dvar: bool) returns (v: Var)
      requires Valid()
      modifies solver
      ensures Valid() && v == |old(Decision())| && Decision() == old(Decision()) + [dvar]
      ensures Formula() == old(Formula())
    {
      Sizes();
      v := solver.NewVar(dvar);
    }

    /** Literals over existing variables. */
    ghost predicate Known(c: seq<Lit>)
      reads this, solver
    {
      forall k :: 0 <= k < |c| ==> c[k].v < |Decision()|
    }

    method AddClause(c: seq<Lit>)
      requires Valid() && Known(c)
      modifies solver
      ensures Valid() && Formula() == old(Formula()) + [c] && Decision() == old(Decision())
    {
      hide solver.Consistent, solver.Settled;
      solver.ConsistentSettled();
      Sizes();
      var r := solver.AddClause(c);
    }

    /** Every variable of a clause is a decision variable or assumed. */
    ghost predicate Decidable(assumptions: seq<Lit>)
      reads this, solver
    {
      forall p: Lit :: Mentions(Formula(), p) ==>
        p.v < |Decision()| && (Decision()[p.v] || exists i :: 0 <= i < |assumptions| && assumptions[i].v == p.v)
    }

    /** A model of all clauses and assumptions, with a value for every decision variable. */
    ghost predicate ModelFor(assumptions: seq<Lit>)
      reads this, solver
    {
      && |model| == |Decision()| && (forall v :: 0 <= v < |model| && Decision()[v] ==> model[v] != LUndef)
      && SatAll(Projection.AsModel(model), Formula()) && Projection.HoldAll(Projection.AsModel(model), assumptions)
    }

    /** True stores a model, false means there is none; then the values of the last model found stay readable. */
    method Solve(assumptions: seq<Lit>) returns (found: bool)
      requires Valid() && Known(assumptions) && Decidable(assumptions)
      modifies this, solver
      ensures Valid() && Formula() == old(Formula()) && Decision() == old(Decision())
      ensures found ==> ModelFor(assumptions)
      ensures !found ==> model == old(model) && forall m: Model :: SatAll(m, Formula()) ==> !Projection.HoldAll(m, assumptions)
    {
      hide solver.Consistent, solver.ModelFound;
      Sizes();
      var status := solver.Solve(assumptions);
      found := status == LTrue;
      Sizes();
      if found {
        model := solver.model;
        FoundModel(assumptions);
      } else {
        NoModel(Formula(), solver.conflict, assumptions);
      }
    }

    lemma FoundModel(assumptions: seq<Lit>)
      requires Valid() && solver.ModelFound() && model == solver.model && solver.assumptions == assumptions
      requires Decidable(assumptions)
      ensures ModelFor(assumptions)
    {
    }
  }

  /** A clause of negated assumptions that follows rules the assumptions out. */
  lemma NoModel(f: seq<seq<Lit>>, conflict: seq<Lit>, assumptions: seq<Lit>)
    requires Entails(f, conflict) && forall q :: q in conflict ==> Neg(q) in assumptions
    ensures forall m: Model :: SatAll(m, f) ==> !Projection.HoldAll(m, assumptions)
  {
  }
}
