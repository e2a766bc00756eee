/** The simplifier: it works on the solver's clauses, trail and watch lists; subsumption, and bounded variable elimination with its undo record. */
module Simplification {
  import opened Literals
  import opened Assignment
  import opened Meaning
  import opened Steps
  import opened Normalising
  import opened Resolution
  import opened Elimination
  import opened SimpState
  import opened History
  import opened SimpTables
  import opened Subsuming
  import opened Attempts
  import Strengthening
  import Probing
  import SatSolver

  /** The formula has exactly the models of clauses and trail. */
  ghost predicate StandsFor(f: seq<seq<Lit>>, ca: seq<Clause>, trail: seq<Lit>) {
    forall m: Model :: SatAll(m, f) <==> Now(m, ca, trail)
  }

  lemma SameFormula(f: seq<seq<Lit>>, ca: seq<Clause>, trail: seq<Lit>, ca': seq<Clause>, trail': seq<Lit>)
    requires StandsFor(f, ca, trail)
    ensures StandsFor(f, ca', trail') ==> Equivalent(ca, trail, ca', trail')
    ensures Unsat(f) ==> Contradictory(ca, trail)
  {
  }

  lemma MoreFormula(f: seq<seq<Lit>>, ca: seq<Clause>, trail: seq<Lit>, c: seq<Lit>, ca': seq<Clause>, trail': seq<Lit>)
    requires StandsFor(f, ca, trail)
    ensures StandsFor(f + [c], ca', trail') ==> Adds(ca, trail, c, ca', trail')
    ensures Unsat(f + [c]) ==> Excludes(ca, trail, c)
    ensures Entails(f, c) ==> Forced(ca, trail, c)
  {
    AddedEntailed(f, c);
  }

  lemma FormulaStands(ca: seq<Clause>, trail: seq<Lit>)
    ensures StandsFor(Formula(ca, trail), ca, trail)
  {
    forall m: Model ensures SatAll(m, Formula(ca, trail)) <==> Now(m, ca, trail) {
      FormulaMeans(m, ca, trail);
    }
  }

  /** A binary clause with a superfluous literal, removed, and its other literal propagated. */
  lemma UnitReplaces(ca: seq<Clause>, trail: seq<Lit>, r: CRef, l: Lit, q: Lit, f: seq<seq<Lit>>, ca': seq<Clause>, trail': seq<Lit>)
    requires r < |ca| && !ca[r].deleted && Distinct(ca[r].lits) && |ca[r].lits| == 2 && Superfluous(ca, trail, r, l)
    requires Without(ca[r].lits, l, [q]) && StandsFor(f, Deleted(ca, r), trail)
    ensures StandsFor(f + [[q]], ca', trail') ==> Equivalent(ca, trail, ca', trail')
    ensures Unsat(f + [[q]]) ==> Contradictory(ca, trail)
  {
    BinaryToUnit(ca, trail, r, l, q);
    AddedEntailed(f, [q]);
    forall m: Model ensures Now(m, ca, trail) <==> SatAll(m, f + [[q]]) {
      HoldMore(m, trail, q);
      assert Sat(m, [q]) <==> Holds(m, q) by { assert q in [q]; }
    }
  }

  /** After a unit has been enqueued and propagated. */
  lemma ExplainedUnit(a: Asg, q: Lit, b: Asg, c: Asg, ca: seq<Clause>)
    requires SameSize(a) && q.v < |a.assigns| && Explained(b, c, ca, [])
    requires b == if a.assigns[q.v] == LUndef then Enqueue(a, q, None) else a
    ensures Explained(a, c, ca, [q])
  {
    assert q in [q];
  }

  /** The variables waiting to be looked at exist. */
  ghost predicate Pending(touched: set<Var>, heap: set<Var>, n: nat) {
    (forall v :: v in touched ==> v < n) && forall v :: v in heap ==> v < n
  }

  lemma StillListed(ca: seq<Clause>, ca': seq<Clause>, refs: seq<CRef>)
    requires ListedOnce(ca, refs) && |ca| <= |ca'|
    ensures ListedOnce(ca', refs)
  {
  }

  lemma CutShortens(c: Clause, k: nat, l: Lit, lits: seq<Lit>)
    requires k < |c.lits| && CutAt(c.lits, k, l, lits)
    ensures lits == Strengthening.Cut(c, k).lits && Shortened(c, l, Strengthening.Cut(c, k))
  {
  }

  lemma UnitShape(a: Asg, q: Lit, b: Asg)
    requires SameSize(a) && q.v < |a.assigns| && b == if a.assigns[q.v] == LUndef then Enqueue(a, q, None) else a
    ensures |b.assigns| == |a.assigns| && a.trail <= b.trail
  {
  }

  /** An enqueued unit is on the trail, whether or not it was before. */
  lemma UnitOnTrail(elim: seq<bool>, a: Asg, ca: seq<Clause>, occurs: seq<seq<CRef>>, dirty: set<Var>, abs: seq<set<nat>>, q: Lit, b: Asg)
    requires Tables(elim, a.assigns, a.trail, ca, occurs, dirty, abs) && SameSize(a) && q.v < |a.assigns| && a.assigns[q.v] != ValueOf(!q.sign)
    requires b == if a.assigns[q.v] == LUndef then Enqueue(a, q, None) else a
    ensures q in b.trail
  {
    KnownValue(elim, a.assigns, ca, a.trail, q);
  }

  lemma SameSelf(ca: seq<Clause>)
    ensures forall x :: 0 <= x < |ca| ==> SameClause(ca[x], ca[x])
  {
  }

  lemma SameOthers(ca: seq<Clause>, cr: CRef, ca': seq<Clause>)
    requires |ca'| == |ca| && forall x :: 0 <= x < |ca| && x != cr ==> ca'[x] == ca[x]
    ensures forall x :: 0 <= x < |ca| && x != cr ==> SameClause(ca[x], ca'[x])
  {
  }

  lemma ReworkedOthers(ca: seq<Clause>, cr: CRef, ca': seq<Clause>)
    requires cr < |ca| && Reworked(Deleted(ca, cr), ca')
    ensures |ca'| == |ca| && ca'[cr].deleted && forall x :: 0 <= x < |ca| && x != cr ==> SameClause(ca[x], ca'[x])
  {
    forall x | 0 <= x < |ca| && x != cr ensures SameClause(ca[x], ca'[x]) {
      assert SameClause(Deleted(ca, cr)[x], ca'[x]);
    }
    assert SameClause(Deleted(ca, cr)[cr], ca'[cr]);
  }

  lemma SignatureOf(ca: seq<Clause>, abs: seq<set<nat>>, r: CRef)
    requires AbsGood(ca, abs) && r < |ca| && !ca[r].deleted
    ensures |abs| == |ca| && abs[r] == Abstraction(ca[r].lits)
  {
  }

  lemma OnTrail(elim: seq<bool>, values: seq<LBool>, trail: seq<Lit>, l: Lit)
    requires TrailGood(elim, values, trail) && l in trail
    ensures l.v < |elim|
  {
  }

  lemma NothingNew(a: Asg, b: Asg, ca: seq<Clause>)
    requires a.assigns == b.assigns
    ensures Explained(a, b, ca, [])
  {
  }

  /** The two ways a clause is added differ in the number of clauses listed. */
  lemma StoredCases(a: Asg, ca: seq<Clause>, refs: seq<CRef>, ps: seq<Lit>, b: Asg, cb: seq<Clause>, refs': seq<CRef>)
    requires Stored(a, ca, refs, ps, b, cb, refs')
    ensures |refs'| == |refs| + 1 || refs' == refs
    ensures |refs'| == |refs| + 1 ==> b == a && refs' == refs + [|ca|] && |cb| == |ca| + 1 && cb == ca + [Clause(cb[|ca|].lits, false, false)]
    ensures |refs'| == |refs| + 1 ==> |cb[|ca|].lits| > 1 && NormalForm(a, ps, cb[|ca|].lits)
    ensures refs' == refs ==> Reworked(ca, cb) && GrownBy(a, b, ps)
  {
    hide NormalForm, Reworked, GrownBy;
    if |refs'| == |refs| + 1 {
      var c :| NormalForm(a, ps, c) && |c| > 1 && cb == ca + [Clause(c, false, false)];
      assert cb[|ca|] == Clause(c, false, false);
    }
  }

  lemma ListedMore(ca: seq<Clause>, refs: seq<CRef>, ca': seq<Clause>)
    requires ListedOnce(ca, refs) && |ca'| == |ca| + 1
    ensures ListedOnce(ca', refs + [|ca|])
  {
  }

  lemma PendingGrown(touched: set<Var>, heap: set<Var>, n: nat)
    requires Pending(touched, heap, n)
    ensures Pending(touched, heap + {n}, n + 1)
  {
  }

  lemma CleanListed(elim: seq<bool>, ca: seq<Clause>, refs: seq<CRef>, cs: seq<CRef>)
    requires ListedOnce(ca, refs) && NoDup(cs) && NoLearnts(ca) && forall r :: r in cs <==> r in refs && !ca[r].deleted
    ensures ListedOnce(ca, cs) && RefsOk(ca, cs, false)
  {
    forall i | 0 <= i < |cs| ensures cs[i] < |ca| && !ca[cs[i]].deleted {
      assert cs[i] in cs;
    }
  }

  /** What the check did to the clauses keeps the relation to all clauses added. */
  lemma CheckKeeps(orig: seq<seq<Lit>>, recs: seq<seq<Lit>>, ca: seq<Clause>, trail: seq<Lit>, ca': seq<Clause>, trail': seq<Lit>, r: bool)
    requires Reduces(orig, recs, ca, trail)
    requires if r then Equivalent(ca, trail, ca', trail') else Contradictory(ca, trail)
    ensures if r then Reduces(orig, recs, ca', trail') else Unsat(orig)
  {
    if r {
      EquivalentKeeps(orig, recs, ca, trail, ca', trail');
    } else {
      ContradictoryRefutes(orig, recs, ca, trail);
    }
  }

  /** The number of variables that have not been eliminated. */
  ghost function VarsLeft(elim: seq<bool>): nat {
    if elim == [] then 0 else VarsLeft(elim[..|elim| - 1]) + if elim[|elim| - 1] then 0 else 1
  }

  lemma {:induction false} OneFewer(elim: seq<bool>, v: Var)
    requires v < |elim| && !elim[v]
    ensures VarsLeft(elim[v := true]) < VarsLeft(elim)
  {
    var k := |elim| - 1;
    if v == k {
      assert elim[v := true][..k] == elim[..k];
    } else {
      assert elim[v := true][..k] == elim[..k][v := true];
      OneFewer(elim[..k], v);
    }
  }

  lemma VarAppended(a: Asg, b: Asg)
    requires SameSize(a) && b == WithVar(a)
    ensures b.assigns == a.assigns + [LUndef] && b.trail == a.trail && b.lim == a.lim && b.loose == a.loose && b.probing == a.probing
  {
  }

  lemma NothingYet(lim: int)
    ensures Tables([], [], [], [], [], {}, []) && Agenda([], 0, [], [], lim, {}) && ListedOnce([], []) && Pending({}, {}, 0)
    ensures Reduces([], [], [], []) && RecordsGood([], [], []) && InRange([], 0)
  {
    assert Known([]) == {};
  }

  lemma FormulaVarsLeft(elim: seq<bool>, values: seq<LBool>, ca: seq<Clause>, trail: seq<Lit>)
    requires DbGood(elim, ca) && TrailGood(elim, values, trail)
    ensures forall c, p :: c in Formula(ca, trail) && p in c ==> p.v < |elim| && !elim[p.v]
  {
    LiveClausesExact(ca);
    forall c, p | c in Formula(ca, trail) && p in c ensures p.v < |elim| && !elim[p.v] {
      if c in LiveClauses(ca) {
        var r :| 0 <= r < |ca| && !ca[r].deleted && ca[r].lits == c;
        assert Good(elim, ca[r]);
        var k :| 0 <= k < |c| && c[k] == p;
      } else {
        var i :| 0 <= i < |trail| && Units(trail)[i] == c;
        assert values[trail[i].v] != LUndef;
      }
    }
  }

  class Simplifier {
    const solver: SatSolver.Solver
    var frozen: seq<bool>
    var eliminated: seq<bool>
    var occurs: seq<seq<CRef>>
    var dirtyOcc: set<Var>
    var abs: seq<set<nat>>
    var queue: seq<CRef>
    var bwdsubAssigns: nat
    var elimclauses: seq<nat>
    var touched: set<Var>
    var elimHeap: set<Var>
    var grow: int
    var clauseLim: int
    var subsumptionLim: int
    var useRcheck: bool
    ghost var used: nat
    ghost var orig: seq<seq<Lit>>
    ghost var recs: seq<seq<Lit>>

    /** The solver is at level 0 and has propagated everything; there are no learnt clauses. */
    ghost predicate Top()
      reads solver`assigns, solver`trail, solver`trailLim, solver`level, solver`reason, solver`pos, solver`loose, solver`probing,
            solver`orig, solver`assumptions, solver`ca, solver`watches, solver`dirty, solver`dirties, solver`decision, solver`orderHeap,
            solver`seen, solver`qhead, solver`learnts
    {
      solver.Running() && solver.trailLim == [] && solver.qhead == |solver.trail| && !solver.probing && solver.learnts == []
    }

    /** What holds of the data structures while simplifying. */
    ghost predicate Shape()
      reads `frozen, `eliminated, `occurs, `dirtyOcc, `abs, `queue, `bwdsubAssigns, `touched, `elimHeap, `subsumptionLim, `used,
            solver`assigns, solver`trail, solver`trailLim, solver`level, solver`reason, solver`pos, solver`loose, solver`probing,
            solver`orig, solver`assumptions, solver`ca, solver`watches, solver`dirty, solver`dirties, solver`decision, solver`orderHeap,
            solver`seen, solver`qhead, solver`learnts, solver`clauses
    {
      && Top() && |frozen| == |eliminated| && used <= bwdsubAssigns <= |solver.trail|
      && Tables(eliminated, solver.assigns, solver.trail, solver.ca, occurs, dirtyOcc, abs)
      && Agenda(queue, used, solver.ca, solver.trail, subsumptionLim, solver.loose)
      && ListedOnce(solver.ca, solver.clauses) && Pending(touched, elimHeap, |eliminated|)
    }

    lemma Stands()
      requires solver.Running() && solver.trailLim == []
      ensures StandsFor(solver.orig, solver.ca, solver.trail)
    {
      forall m: Model ensures SatAll(m, solver.orig) <==> Now(m, solver.ca, solver.trail) {
        solver.Means(m);
      }
    }

    // ---------- removing and strengthening clauses ----------

    lemma FrozenSize()
      requires Consistent()
      ensures |frozen| == |eliminated|
    {
    }

    ghost predicate Eliminable(v: Var)
      reads `frozen, `eliminated, solver`assigns
    {
      v < |frozen| && !frozen[v] && v < |eliminated| && !eliminated[v] && v < |solver.assigns| && solver.assigns[v] == LUndef
    }

    /** Put a variable into the elimination order if it is free to be eliminated. */
    method UpdateElimHeap(v: Var)
      requires v < |frozen| && v < |eliminated| && v < |solver.assigns|
      modifies `elimHeap
      ensures elimHeap == old(elimHeap) + if Eliminable(v) then {v} else {}
      ensures Pending(touched, old(elimHeap), |eliminated|) ==> Pending(touched, elimHeap, |eliminated|)
    {
      if v in elimHeap || (!frozen[v] && !eliminated[v] && solver.assigns[v] == LUndef) {
        elimHeap := elimHeap + {v};
      }
    }

    /** The variables of a clause that goes: their lists become dirty, their places in the order change. */
    method SmudgeOccurrences(c: seq<Lit>)
      requires forall k :: 0 <= k < |c| ==> c[k].v < |frozen| && c[k].v < |eliminated| && c[k].v < |solver.assigns|
      modifies `dirtyOcc, `elimHeap
      ensures dirtyOcc == old(dirtyOcc) + VarSet(c)
      ensures old(elimHeap) <= elimHeap && forall v :: v in VarSet(c) && Eliminable(v) ==> v in elimHeap
      ensures Pending(touched, old(elimHeap), |eliminated|) ==> Pending(touched, elimHeap, |eliminated|)
    {
      hide Pending;
      var i := 0;
      assert VarSet(c[..0]) == {};
      while i < |c|
        invariant i <= |c| && dirtyOcc == old(dirtyOcc) + VarSet(c[..i])
        invariant old(elimHeap) <= elimHeap && forall v :: v in VarSet(c[..i]) && Eliminable(v) ==> v in elimHeap
        invariant Pending(touched, old(elimHeap), |eliminated|) ==> Pending(touched, elimHeap, |eliminated|)
      {
        assert c[..i + 1] == c[..i] + [c[i]];
        assert VarSet(c[..i + 1]) == VarSet(c[..i]) + {c[i].v};
        UpdateElimHeap(c[i].v);
        dirtyOcc := dirtyOcc + {c[i].v};
        i := i + 1;
      }
      assert c[..|c|] == c;
    }

    lemma ClauseVars(cr: CRef)
      requires Shape() && cr < |solver.ca| && !solver.ca[cr].deleted
      ensures |eliminated| == |solver.assigns| == |frozen| && Good(eliminated, solver.ca[cr])
    {
      TablesParts(eliminated, solver.assigns, solver.trail, solver.ca, occurs, dirtyOcc, abs);
    }

    /** Mark a clause as removed; the occurrence lists of its variables become dirty. */
    method RemoveClause(cr: CRef)
      requires Shape() && cr < |solver.ca| && !solver.ca[cr].deleted
      modifies solver`ca, solver`dirty, solver`dirties, solver`reason, solver`orig, `dirtyOcc, `elimHeap
      ensures Shape() && solver.ca == Deleted(old(solver.ca), cr) && TotalLits(solver.ca) < TotalLits(old(solver.ca))
      ensures old(elimHeap) <= elimHeap && forall v :: v in VarSet(old(solver.ca)[cr].lits) && Eliminable(v) ==> v in elimHeap
    {
      hide Tables, Agenda, ListedOnce, Pending, solver.Running, Formula, TotalLits, Good;
      ClauseVars(cr);
      TablesRemoved(eliminated, solver.assigns, solver.trail, solver.ca, occurs, dirtyOcc, abs, cr);
      AgendaRemoved(queue, used, solver.ca, solver.trail, subsumptionLim, solver.loose, cr);
      StillListed(solver.ca, Deleted(solver.ca, cr), solver.clauses);
      GoodLits(eliminated, solver.ca[cr]);
      SmudgeOccurrences(solver.ca[cr].lits);
      ghost var f := Formula(Deleted(solver.ca, cr), solver.trail);
      FormulaSound(Deleted(solver.ca, cr), solver.A());
      solver.RemoveTop(cr, f);
    }

    /** Remove the first occurrence of an element, moving the later ones down. */
    static method Remove<T(==)>(s: seq<T>, x: T) returns (t: seq<T>, at: nat)
      requires x in s
      ensures at < |s| && CutAt(s, at, x, t) && Without(s, x, t)
    {
      at := 0;
      while s[at] != x
        invariant at < |s| && x in s[at..]
        decreases |s| - at
      {
        at := at + 1;
      }
      t := s;
      var j := at;
      while j < |s| - 1
        invariant at <= j < |s| == |t|
        invariant forall k :: 0 <= k < at ==> t[k] == s[k]
        invariant forall k :: at <= k < j ==> t[k] == s[k + 1]
        invariant forall k :: j <= k < |s| ==> t[k] == s[k]
      {
        t := t[j := t[j + 1]];
        j := j + 1;
      }
      t := t[..|t| - 1];
      assert CutAt(s, at, x, t);
    }

    lemma ListedHere(cr: CRef, l: Lit)
      requires Shape() && cr < |solver.ca| && !solver.ca[cr].deleted && l in solver.ca[cr].lits
      ensures l.v < |occurs| && cr in occurs[l.v]
    {
      hide DbGood, TrailGood, OccGood, AbsGood, Agenda, ListedOnce, Pending, Top, Good;
      ClauseVars(cr);
      GoodLits(eliminated, solver.ca[cr]);
      ListedAt(|eliminated|, solver.ca, occurs, dirtyOcc, cr, l);
    }

    /** The tables for the shortened clause, and a formula for the solver that has it. */
    lemma BeforeShorten(cr: CRef, l: Lit, k: nat, lits: seq<Lit>, cs: seq<CRef>)
      requires Shape() && cr < |solver.ca| && !solver.ca[cr].deleted && l in solver.ca[cr].lits && l.v < |occurs|
      requires |solver.ca[cr].lits| > 2 && Superfluous(solver.ca, solver.trail, cr, l) && Short(solver.ca[cr], subsumptionLim)
      requires k < |solver.ca[cr].lits| && CutAt(solver.ca[cr].lits, k, l, lits) && Without(occurs[l.v], cr, cs)
      ensures var d := Strengthening.Cut(solver.ca[cr], k); var ca := solver.ca[cr := d];
              && lits == d.lits && Shortened(solver.ca[cr], l, d) && Equivalent(solver.ca, solver.trail, ca, solver.trail)
              && |abs| == |solver.ca| && TotalLits(ca) < TotalLits(solver.ca) && ListedOnce(ca, solver.clauses)
              && Tables(eliminated, solver.assigns, solver.trail, ca, occurs[l.v := cs], dirtyOcc, abs[cr := Abstraction(lits)])
              && Agenda(queue, used, ca, solver.trail, subsumptionLim, solver.loose + {cr})
              && Sound(Formula(ca, solver.trail), ca, solver.A())
    {
      hide Tables, Agenda, ListedOnce, Pending, solver.Running, Formula, TotalLits, Good, Superfluous, Equivalent, NoLearnts, Strengthening.Cut, Shortened, Sound;
      ClauseVars(cr);
      GoodLits(eliminated, solver.ca[cr]);
      ListCount();
      var d := Strengthening.Cut(solver.ca[cr], k);
      CutShortens(solver.ca[cr], k, l, lits);
      ShortenedMeaning(solver.ca, solver.trail, cr, l, d);
      TablesShortened(eliminated, solver.assigns, solver.trail, solver.ca, occurs, dirtyOcc, abs, cr, l, d, cs);
      AgendaShortened(queue, used, solver.ca, solver.trail, subsumptionLim, solver.loose, cr, l, d);
      StillListed(solver.ca, solver.ca[cr := d], solver.clauses);
      FormulaSound(solver.ca[cr := d], solver.A());
    }

    /** Strengthen a clause of three or more literals in place. */
    method Shorten(cr: CRef, l: Lit)
      requires Shape() && cr < |solver.ca| && !solver.ca[cr].deleted && l in solver.ca[cr].lits
      requires |solver.ca[cr].lits| > 2 && Superfluous(solver.ca, solver.trail, cr, l) && Short(solver.ca[cr], subsumptionLim)
      modifies solver`ca, solver`watches, solver`reason, solver`loose, solver`orig, `occurs, `abs, `elimHeap
      ensures elimHeap == old(elimHeap) + if Eliminable(l.v) then {l.v} else {}
      ensures Shape() && TotalLits(solver.ca) < TotalLits(old(solver.ca))
      ensures |solver.ca| == |old(solver.ca)| && forall x :: 0 <= x < |solver.ca| && x != cr ==> solver.ca[x] == old(solver.ca)[x]
      ensures Equivalent(old(solver.ca), solver.trail, solver.ca, solver.trail) && Shortened(old(solver.ca)[cr], l, solver.ca[cr])
      ensures l.v < |old(occurs)| && exists cs :: Without(old(occurs)[l.v], cr, cs) && occurs == old(occurs)[l.v := cs]
    {
      hide Tables, Agenda, ListedOnce, Pending, solver.Running, Formula, TotalLits, Superfluous, Equivalent, Strengthening.Cut, Shortened, Sound, Without, CutAt, Short;
      ListedHere(cr, l);
      VarsHere(cr, l);
      var lits, k := Remove(solver.ca[cr].lits, l);
      var sig := CalcAbstraction(lits);
      var cs, at := Remove(occurs[l.v], cr);
      BeforeShorten(cr, l, k, lits, cs);
      ghost var d := Strengthening.Cut(solver.ca[cr], k);
      solver.StrengthenTop(cr, k, lits, Formula(solver.ca[cr := d], solver.trail));
      abs := abs[cr := sig];
      occurs := occurs[l.v := cs];
      UpdateElimHeap(l.v);
    }

    lemma VarsHere(cr: CRef, l: Lit)
      requires Shape() && cr < |solver.ca| && !solver.ca[cr].deleted && l in solver.ca[cr].lits
      ensures l.v < |frozen| == |eliminated| == |solver.assigns|
    {
      hide Good;
      ClauseVars(cr);
      GoodLits(eliminated, solver.ca[cr]);
    }

    /** Enqueue a literal as a unit clause and propagate it. */
    method PropagateUnit(q: Lit) returns (r: bool)
      requires Shape() && q.v < |eliminated| && !eliminated[q.v]
      modifies solver`orig, solver`assigns, solver`trail, solver`level, solver`reason, solver`pos, solver`ca, solver`watches,
               solver`qhead, solver`dirty, solver`dirties
      ensures Sizes() && solver.orig == old(solver.orig) + [[q]] && old(solver.trail) <= solver.trail && Reworked(old(solver.ca), solver.ca)
      ensures if r then Shape() && q in solver.trail else Unsat(solver.orig)
    {
      hide Tables, Agenda, ListedOnce, Pending, solver.Running, Unsat, Explained, TrailInv, ReasonInv, Reworked, Enqueue;
      ghost var a, ca0 := solver.A(), solver.ca;
      solver.RunningParts();
      TablesParts(eliminated, solver.assigns, solver.trail, solver.ca, occurs, dirtyOcc, abs);
      r := solver.EnqueueTop(q);
      ghost var b := solver.A();
      ReworkedSelf(ca0);
      UnitShape(a, q, b);
      if r {
        var conflict := solver.PropagateTop();
        r := !conflict;
        if r {
          solver.RunningParts();
          ExplainedUnit(a, q, b, solver.A(), solver.ca);
          TablesPropagated(eliminated, a, ca0, occurs, dirtyOcc, abs, solver.A(), solver.ca, [q]);
          AgendaPropagated(queue, used, ca0, a.trail, subsumptionLim, solver.loose, solver.ca, solver.trail);
          StillListed(ca0, solver.ca, solver.clauses);
          UnitOnTrail(eliminated, a, ca0, occurs, dirtyOcc, abs, q, b);
        }
      }
    }

    /** Replace a binary clause by the unit that is left of it. */
    method ToUnit(cr: CRef, l: Lit) returns (r: bool)
      requires Shape() && cr < |solver.ca| && !solver.ca[cr].deleted && l in solver.ca[cr].lits
      requires |solver.ca[cr].lits| == 2 && Superfluous(solver.ca, solver.trail, cr, l)
      modifies solver`orig, solver`assigns, solver`trail, solver`level, solver`reason, solver`pos, solver`ca, solver`watches,
               solver`qhead, solver`dirty, solver`dirties, `dirtyOcc, `elimHeap
      ensures old(elimHeap) <= elimHeap
      ensures Sizes() && old(solver.trail) <= solver.trail && TotalLits(solver.ca) < TotalLits(old(solver.ca))
      ensures r ==> Shape() && Equivalent(old(solver.ca), old(solver.trail), solver.ca, solver.trail)
      ensures !r ==> Unsat(solver.orig) && Contradictory(old(solver.ca), old(solver.trail))
      ensures Reworked(Deleted(old(solver.ca), cr), solver.ca)
      ensures r ==> forall q :: q in old(solver.ca)[cr].lits && q != l ==> q in solver.trail
    {
      hide Shape, Top, Sizes, TotalLits, Superfluous, Equivalent, Contradictory, Unsat, StandsFor, Reworked, Good;
      ghost var ca0, t0 := solver.ca, solver.trail;
      ClauseVars(cr);
      GoodLits(eliminated, solver.ca[cr]);
      var lits, k := Remove(solver.ca[cr].lits, l);
      WithoutOne(eliminated, solver.ca[cr], l, lits);
      RemoveClause(cr);
      StandsNow();
      ghost var f, mid := solver.orig, solver.ca;
      r := PropagateUnit(lits[0]);
      TotalReworked(mid, solver.ca);
      if r {
        StandsNow();
      }
      UnitReplaces(ca0, t0, cr, l, lits[0], f, solver.ca, solver.trail);
    }

    lemma StandsNow()
      requires Shape()
      ensures StandsFor(solver.orig, solver.ca, solver.trail)
    {
      Stands();
    }

    /** Drop a superfluous literal; a clause that becomes unit is removed and its literal propagated. */
    method StrengthenClause(cr: CRef, l: Lit) returns (r: bool)
      requires Shape() && cr < |solver.ca| && !solver.ca[cr].deleted && l in solver.ca[cr].lits
      requires Superfluous(solver.ca, solver.trail, cr, l) && Short(solver.ca[cr], subsumptionLim)
      modifies solver`orig, solver`assigns, solver`trail, solver`level, solver`reason, solver`pos, solver`ca, solver`watches,
               solver`qhead, solver`dirty, solver`dirties, solver`loose, `dirtyOcc, `elimHeap, `occurs, `abs, `queue
      ensures old(elimHeap) <= elimHeap && queue == old(queue) + [cr]
      ensures Sizes() && |solver.ca| == |old(solver.ca)| && old(solver.trail) <= solver.trail && TotalLits(solver.ca) < TotalLits(old(solver.ca))
      ensures forall x :: 0 <= x < |solver.ca| && x != cr ==> SameClause(old(solver.ca)[x], solver.ca[x])
      ensures r ==> Shape() && Equivalent(old(solver.ca), old(solver.trail), solver.ca, solver.trail)
      ensures !r ==> Unsat(solver.orig) && Contradictory(old(solver.ca), old(solver.trail))
      ensures |old(solver.ca)[cr].lits| > 2 ==> r && Shortened(old(solver.ca)[cr], l, solver.ca[cr])
      ensures |old(solver.ca)[cr].lits| > 2 ==> l.v < |old(occurs)| && exists cs :: Without(old(occurs)[l.v], cr, cs) && occurs == old(occurs)[l.v := cs]
      ensures |old(solver.ca)[cr].lits| <= 2 ==> solver.ca[cr].deleted && occurs == old(occurs)
      ensures |old(solver.ca)[cr].lits| <= 2 && r ==> forall q :: q in old(solver.ca)[cr].lits && q != l ==> q in solver.trail
    {
      hide Top, Tables, TotalLits, Superfluous, Equivalent, Contradictory, Unsat, Good, Shortened, ListedOnce, Pending, solver.Running, Agenda, Reworked;
      ClauseVars(cr);
      GoodLits(eliminated, solver.ca[cr]);
      AgendaQueued(queue, used, solver.ca, solver.trail, subsumptionLim, solver.loose, cr);
      queue := queue + [cr];
      if |solver.ca[cr].lits| == 2 {
        r := ToUnit(cr, l);
        ReworkedOthers(old(solver.ca), cr, solver.ca);
      } else {
        Shorten(cr, l);
        SizesHere();
        SameOthers(old(solver.ca), cr, solver.ca);
        r := true;
      }
    }

    // ---------- occurrence lists ----------

    /** The entries that refer to live clauses, in order. */
    static method FilterLive(ca: seq<Clause>, vec: seq<CRef>) returns (cs: seq<CRef>)
      requires forall i :: 0 <= i < |vec| ==> vec[i] < |ca|
      ensures cs == LiveRefs(ca, vec)
    {
      cs := [];
      var i := 0;
      while i < |vec|
        invariant i <= |vec| && cs == LiveRefs(ca, vec[..i])
      {
        assert vec[..i + 1][..i] == vec[..i];
        if !ca[vec[i]].deleted {
          cs := cs + [vec[i]];
        }
        i := i + 1;
      }
      assert vec[..|vec|] == vec;
    }

    lemma ListCount()
      requires Shape()
      ensures |occurs| == |eliminated| == |solver.assigns| && |abs| == |solver.ca| && NoLearnts(solver.ca)
      ensures forall v :: 0 <= v < |occurs| ==> forall i :: 0 <= i < |occurs[v]| ==> occurs[v][i] < |solver.ca|
    {
      TablesParts(eliminated, solver.assigns, solver.trail, solver.ca, occurs, dirtyOcc, abs);
    }

    /** Bring an occurrence list up to date: drop removed clauses if the list is dirty. */
    method Lookup(v: Var)
      requires Shape() && v < |occurs|
      modifies `occurs, `dirtyOcc
      ensures Shape() && v !in dirtyOcc && |occurs| == |old(occurs)|
    {
      hide Top, Tables, Agenda, ListedOnce, Pending, LiveRefs;
      if v in dirtyOcc {
        TablesCleaned(eliminated, solver.assigns, solver.trail, solver.ca, occurs, dirtyOcc, abs, v);
        var cs := FilterLive(solver.ca, occurs[v]);
        occurs := occurs[v := cs];
        dirtyOcc := dirtyOcc - {v};
      }
    }

    /** The variable of the clause with the shortest occurrence list. */
    method BestVar(lits: seq<Lit>) returns (best: Var)
      requires lits != [] && forall k :: 0 <= k < |lits| ==> lits[k].v < |occurs|
      ensures Mentioned(lits, best) && best < |occurs|
      ensures forall k :: 0 <= k < |lits| ==> |occurs[best]| <= |occurs[lits[k].v]|
    {
      best := lits[0].v;
      var i := 1;
      while i < |lits|
        invariant 1 <= i <= |lits| && Mentioned(lits, best) && best < |occurs|
        invariant forall k :: 0 <= k < i ==> |occurs[best]| <= |occurs[lits[k].v]|
      {
        if |occurs[lits[i].v]| < |occurs[best]| {
          best := lits[i].v;
        }
        i := i + 1;
      }
    }

    // ---------- backward subsumption ----------

    /** A queue item that stands for a live clause or for a literal of the trail. */
    ghost predicate Live(x: Item)
      reads solver`ca, solver`trail
    {
      LiveIn(x, solver.ca, solver.trail)
    }

    /** The clause an item stands for, with its signature. */
    method ItemClause(x: Item) returns (c: seq<Lit>, sig: set<nat>)
      requires Shape() && Live(x)
      ensures c != [] && Distinct(c) && sig == Abstraction(c) && forall k :: 0 <= k < |c| ==> c[k].v < |eliminated|
      ensures c == ItemLits(x, solver.ca)
    {
      hide Top, DbGood, TrailGood, OccGood, AbsGood, Good, Agenda, ListedOnce, Pending;
      match x
      case Ref(r) =>
        LiveGoodAll(eliminated, solver.ca, r);
        GoodLits(eliminated, solver.ca[r]);
        SignatureOf(solver.ca, abs, r);
        c, sig := solver.ca[r].lits, abs[r];
      case Unit(l) =>
        OnTrail(eliminated, solver.assigns, solver.trail, l);
        c := [l];
        sig := CalcAbstraction(c);
    }

    /** Use the clause c of the item on one candidate: remove it, strengthen it, or leave it alone. */
    method TryCandidate(x: Item, cr: CRef) returns (r: bool, l: Option<Lit>)
      requires Shape() && Live(x) && cr < |solver.ca| && !solver.ca[cr].deleted && x != Ref(cr) && Short(solver.ca[cr], subsumptionLim)
      modifies solver`orig, solver`assigns, solver`trail, solver`level, solver`reason, solver`pos, solver`ca, solver`watches,
               solver`qhead, solver`dirty, solver`dirties, solver`loose, `dirtyOcc, `elimHeap, `occurs, `abs, `queue
      ensures old(elimHeap) <= elimHeap && old(queue) <= queue && Thinned(old(solver.ca), solver.ca, queue, subsumptionLim)
      ensures Sizes() && |solver.ca| == |old(solver.ca)| && old(solver.trail) <= solver.trail
      ensures Included(ItemLits(x, old(solver.ca)), old(solver.ca)[cr].lits) ==> r && solver.ca == Deleted(old(solver.ca), cr) && occurs == old(occurs)
      ensures forall p :: l == Some(p) <==> IncludedBut(ItemLits(x, old(solver.ca)), old(solver.ca)[cr].lits, p)
      ensures forall p :: l == Some(p) ==>
                if |old(solver.ca)[cr].lits| <= 2 then solver.ca[cr].deleted && occurs == old(occurs)
                else Shortened(old(solver.ca)[cr], Neg(p), solver.ca[cr]) && p.v < |old(occurs)| &&
                     exists cs :: Without(old(occurs)[p.v], cr, cs) && occurs == old(occurs)[p.v := cs]
      ensures l.None? ==> occurs == old(occurs) && (!Included(ItemLits(x, old(solver.ca)), old(solver.ca)[cr].lits) ==> solver.ca == old(solver.ca))
      ensures forall y :: 0 <= y < |solver.ca| && y != cr ==> SameClause(old(solver.ca)[y], solver.ca[y])
      ensures TotalLits(solver.ca) < TotalLits(old(solver.ca)) ||
              (l.None? && solver.ca == old(solver.ca) && solver.trail == old(solver.trail) && queue == old(queue) && occurs == old(occurs))
      ensures r ==> Shape() && Live(x) && Equivalent(old(solver.ca), old(solver.trail), solver.ca, solver.trail)
      ensures !r ==> Unsat(solver.orig) && Contradictory(old(solver.ca), old(solver.trail))
    {
      hide Shape, Sizes, Equivalent, Contradictory, Unsat, Superfluous, Forced, TotalLits, Included, IncludedBut, SameClause, Shortened, Good, Thinned, Short;
      EquivalentSelf(solver.ca, solver.trail);
      SameSelf(solver.ca);
      ClauseVars(cr);
      GoodLits(eliminated, solver.ca[cr]);
      SizesHere();
      var c, sig := ItemClause(x);
      SignatureHere(cr);
      var s := Subsumes(c, sig, solver.ca[cr].lits, abs[cr]);
      match s
      case Unrelated =>
        ThinnedSelf(solver.ca, queue, subsumptionLim);
        return true, None;
      case Subsumed =>
        ItemForced(x, Deleted(solver.ca, cr), solver.trail, solver.ca, cr);
        RemoveSubsumed(solver.ca, solver.trail, cr, c);
        SameOthers(solver.ca, cr, Deleted(solver.ca, cr));
        ThinnedOne(solver.ca, cr, Deleted(solver.ca, cr), queue, subsumptionLim);
        RemoveClause(cr);
        SizesHere();
        return true, None;
      case Strengthens(p) =>
        ItemForced(x, solver.ca, solver.trail, solver.ca, cr);
        StrengthenSound(solver.ca, solver.trail, cr, c, p);
        NegIncluded(c, solver.ca[cr].lits, p);
        ghost var before := solver.ca;
        r := StrengthenClause(cr, Neg(p));
        ItemStays(x, before, solver.ca, cr);
        l := Some(p);
        ThinnedOne(before, cr, solver.ca, queue, subsumptionLim);
    }

    lemma SignatureHere(cr: CRef)
      requires Shape() && cr < |solver.ca| && !solver.ca[cr].deleted
      ensures |abs| == |solver.ca| && abs[cr] == Abstraction(solver.ca[cr].lits)
    {
      SignatureOf(solver.ca, abs, cr);
    }

    lemma EntryHere(v: Var, i: nat)
      requires Shape() && v < |occurs| && i < |occurs[v]|
      ensures NoDup(occurs[v]) && occurs[v][i] < |solver.ca|
      ensures !solver.ca[occurs[v][i]].deleted ==> Mentioned(solver.ca[occurs[v][i]].lits, v) && Distinct(solver.ca[occurs[v][i]].lits)
    {
      TablesParts(eliminated, solver.assigns, solver.trail, solver.ca, occurs, dirtyOcc, abs);
      OccEntryLive(|eliminated|, solver.ca, occurs, dirtyOcc, v, i);
      if !solver.ca[occurs[v][i]].deleted {
        assert Good(eliminated, solver.ca[occurs[v][i]]);
      }
    }

    lemma AllHandled(x: Item, v: Var)
      requires Shape() && Live(x) && v < |occurs| && Mentioned(ItemLits(x, solver.ca), v)
      requires Handled(x, solver.ca, occurs[v], |occurs[v]|, subsumptionLim)
      ensures Alone(x, solver.ca, subsumptionLim)
    {
      hide Handled, Alone;
      TablesParts(eliminated, solver.assigns, solver.trail, solver.ca, occurs, dirtyOcc, abs);
      HandledAll(x, |eliminated|, solver.ca, occurs, dirtyOcc, v, subsumptionLim);
    }

    /** A unit that leaves all clauses alone: no short clause mentions its variable. */
    lemma UnitAlone(l: Lit)
      requires Shape() && Alone(Unit(l), solver.ca, subsumptionLim)
      ensures forall y :: 0 <= y < |solver.ca| && !solver.ca[y].deleted && Short(solver.ca[y], subsumptionLim) ==> !Mentioned(solver.ca[y].lits, l.v)
    {
      hide Alone, Mentioned, Distinct;
      TablesParts(eliminated, solver.assigns, solver.trail, solver.ca, occurs, dirtyOcc, abs);
      forall y | 0 <= y < |solver.ca| && !solver.ca[y].deleted && Short(solver.ca[y], subsumptionLim) ensures !Mentioned(solver.ca[y].lits, l.v) {
        assert Good(eliminated, solver.ca[y]);
        AloneUnit(l, solver.ca, subsumptionLim, y);
      }
    }

    /** Use an item on the clause at index j of an occurrence list, and say at which index to go on. */
    method NextCandidate(x: Item, best: Var, j: nat) returns (r: bool, j': nat)
      requires Shape() && Live(x) && best < |occurs| && j < |occurs[best]| && Mentioned(ItemLits(x, solver.ca), best)
      requires Handled(x, solver.ca, occurs[best], j, subsumptionLim)
      modifies solver`orig, solver`assigns, solver`trail, solver`level, solver`reason, solver`pos, solver`ca, solver`watches,
               solver`qhead, solver`dirty, solver`dirties, solver`loose, `dirtyOcc, `elimHeap, `occurs, `abs, `queue
      ensures old(elimHeap) <= elimHeap
      ensures Sizes() && old(solver.trail) <= solver.trail && |solver.ca| == |old(solver.ca)|
      ensures TotalLits(solver.ca) < TotalLits(old(solver.ca)) ||
              (TotalLits(solver.ca) == TotalLits(old(solver.ca)) && solver.trail == old(solver.trail) && queue == old(queue))
      ensures r ==> Shape() && Live(x) && Equivalent(old(solver.ca), old(solver.trail), solver.ca, solver.trail)
      ensures r ==> best < |occurs| && j' <= |occurs[best]| && Mentioned(ItemLits(x, solver.ca), best)
      ensures r ==> Handled(x, solver.ca, occurs[best], j', subsumptionLim)
      ensures r ==> TotalLits(solver.ca) < TotalLits(old(solver.ca)) || |occurs[best]| - j' < |old(occurs)[best]| - j
      ensures old(queue) <= queue && Thinned(old(solver.ca), solver.ca, queue, subsumptionLim)
      ensures !r ==> Unsat(solver.orig) && Contradictory(old(solver.ca), old(solver.trail))
    {
      hide Shape, Sizes, Equivalent, Contradictory, Unsat, TotalLits, Handled, Included, IncludedBut, SameClause, Shortened, Mentioned, Thinned, Spared, Distinct;
      EquivalentSelf(solver.ca, solver.trail);
      ThinnedSelf(solver.ca, queue, subsumptionLim);
      SizesHere();
      EntryHere(best, j);
      r, j' := true, j + 1;
      var cr := occurs[best][j];
      if !solver.ca[cr].deleted && x != Ref(cr) && Short(solver.ca[cr], subsumptionLim) {
        ghost var mid, cs := solver.ca, occurs[best];
        var l: Option<Lit>;
        r, l := TryCandidate(x, cr);
        if r {
          CandidateDone(x, mid, cr, l, cs, j, solver.ca, occurs[best], best, subsumptionLim);
          StillMentions(x, mid, cr, solver.ca, best);
          j' := if l.Some? && l.value.v == best then j else j + 1;
        }
      } else {
        NothingToDo(x, solver.ca, cr, subsumptionLim);
        HandledNext(x, solver.ca, occurs[best], j, subsumptionLim);
      }
    }

    /** Use an item on every clause in the occurrence list of one of its variables. */
    method ScanCandidates(x: Item, best: Var) returns (r: bool)
      requires Shape() && Live(x) && best < |occurs| && Mentioned(ItemLits(x, solver.ca), best)
      modifies solver`orig, solver`assigns, solver`trail, solver`level, solver`reason, solver`pos, solver`ca, solver`watches,
               solver`qhead, solver`dirty, solver`dirties, solver`loose, `dirtyOcc, `elimHeap, `occurs, `abs, `queue
      ensures old(elimHeap) <= elimHeap
      ensures Sizes() && old(solver.trail) <= solver.trail && |solver.ca| == |old(solver.ca)|
      ensures TotalLits(solver.ca) < TotalLits(old(solver.ca)) ||
              (TotalLits(solver.ca) == TotalLits(old(solver.ca)) && solver.trail == old(solver.trail) && queue == old(queue))
      ensures r ==> Shape() && Equivalent(old(solver.ca), old(solver.trail), solver.ca, solver.trail)
      ensures r ==> Alone(x, solver.ca, subsumptionLim)
      ensures old(queue) <= queue && Thinned(old(solver.ca), solver.ca, queue, subsumptionLim)
      ensures !r ==> Unsat(solver.orig) && Contradictory(old(solver.ca), old(solver.trail))
    {
      hide Shape, Sizes, Equivalent, Contradictory, Unsat, TotalLits, Handled, Mentioned, Alone, Thinned;
      EquivalentSelf(solver.ca, solver.trail);
      ThinnedSelf(solver.ca, queue, subsumptionLim);
      SizesHere();
      NothingHandled(x, solver.ca, occurs[best], subsumptionLim);
      var j: nat := 0;
      while j < |occurs[best]|
        invariant old(elimHeap) <= elimHeap
        invariant best < |occurs| && j <= |occurs[best]| && Shape() && Sizes() && Live(x) && old(solver.trail) <= solver.trail && |solver.ca| == |old(solver.ca)|
        invariant Equivalent(old(solver.ca), old(solver.trail), solver.ca, solver.trail)
        invariant TotalLits(solver.ca) < TotalLits(old(solver.ca)) ||
                  (TotalLits(solver.ca) == TotalLits(old(solver.ca)) && solver.trail == old(solver.trail) && queue == old(queue))
        invariant Handled(x, solver.ca, occurs[best], j, subsumptionLim) && Mentioned(ItemLits(x, solver.ca), best)
        invariant old(queue) <= queue && Thinned(old(solver.ca), solver.ca, queue, subsumptionLim)
        decreases TotalLits(solver.ca), |occurs[best]| - j
      {
        ghost var mid, midTrail, midQueue := solver.ca, solver.trail, queue;
        r, j := NextCandidate(x, best, j);
        EquivalentTrans(old(solver.ca), old(solver.trail), mid, midTrail, solver.ca, solver.trail);
        ThinnedTrans(old(solver.ca), mid, midQueue, solver.ca, queue, subsumptionLim);
        if !r {
          return;
        }
      }
      AllHandled(x, best);
      r := true;
    }

    /** The next clause of the queue, or the next top-level assignment when the queue is empty. */
    method NextItem() returns (x: Item)
      requires Shape() && (queue != [] || bwdsubAssigns < |solver.trail|)
      modifies `queue, `bwdsubAssigns
      ensures Shape() && (x.Ref? ==> x.r < |solver.ca|)
      ensures if old(queue) == [] then x == Unit(solver.trail[old(bwdsubAssigns)]) && queue == [] && bwdsubAssigns == old(bwdsubAssigns) + 1
              else x == Ref(old(queue)[0]) && queue == old(queue)[1..] && bwdsubAssigns == old(bwdsubAssigns)
    {
      hide Top, Tables, Agenda, ListedOnce, Pending;
      if queue == [] {
        x := Unit(solver.trail[bwdsubAssigns]);
        bwdsubAssigns := bwdsubAssigns + 1;
      } else {
        AgendaTaken(queue, used, solver.ca, solver.trail, subsumptionLim, solver.loose);
        x := Ref(queue[0]);
        queue := queue[1..];
      }
    }

    /** Use the next item on all candidates. */
    method UseNext() returns (r: bool, ghost x: Item)
      requires Shape() && used == bwdsubAssigns && (queue != [] || bwdsubAssigns < |solver.trail|)
      modifies solver`orig, solver`assigns, solver`trail, solver`level, solver`reason, solver`pos, solver`ca, solver`watches,
               solver`qhead, solver`dirty, solver`dirties, solver`loose, `dirtyOcc, `elimHeap, `occurs, `abs, `queue, `bwdsubAssigns, `used
      ensures old(elimHeap) <= elimHeap
      ensures Sizes() && old(solver.trail) <= solver.trail && |solver.ca| == |old(solver.ca)|
      ensures r ==> Shape() && used == bwdsubAssigns && Equivalent(old(solver.ca), old(solver.trail), solver.ca, solver.trail)
      ensures !r ==> Unsat(solver.orig) && Contradictory(old(solver.ca), old(solver.trail))
      ensures r ==> Advanced(x, old(solver.ca), old(queue), solver.ca, queue, subsumptionLim)
      ensures TotalLits(solver.ca) < TotalLits(old(solver.ca)) ||
              (TotalLits(solver.ca) == TotalLits(old(solver.ca)) && solver.trail == old(solver.trail) &&
               if old(queue) == [] then queue == [] && bwdsubAssigns == old(bwdsubAssigns) + 1
               else queue == old(queue)[1..] && bwdsubAssigns == old(bwdsubAssigns))
    {
      hide Shape, Sizes, Equivalent, Contradictory, Unsat, TotalLits, Mentioned, Distinct, Alone, Thinned;
      EquivalentSelf(solver.ca, solver.trail);
      ghost var t0 := solver.trail;
      BwdBound();
      var item := NextItem();
      x := item;
      SizesHere();
      if item.Ref? && solver.ca[item.r].deleted {
        ThinnedSelf(solver.ca, queue, subsumptionLim);
        return true, item;
      }
      var c, sig := ItemClause(item);
      ListCount();
      var best := BestVar(c);
      Lookup(best);
      r := ScanCandidates(item, best);
      if r && item.Unit? {
        UnitAlone(item.l);
        CountUsed(t0);
      }
    }

    /** The unit just tried has been used: no short clause mentions it any more. */
    ghost method CountUsed(t0: seq<Lit>)
      requires Shape() && used + 1 == bwdsubAssigns <= |t0| && t0 <= solver.trail
      requires forall y :: 0 <= y < |solver.ca| && !solver.ca[y].deleted && Short(solver.ca[y], subsumptionLim) ==> !Mentioned(solver.ca[y].lits, t0[used].v)
      modifies `used
      ensures Shape() && used == bwdsubAssigns
    {
      hide Top, Tables, Agenda, ListedOnce, Pending, Mentioned;
      assert solver.trail[used] == t0[used];
      AgendaUsed(queue, used, solver.ca, solver.trail, subsumptionLim, solver.loose);
      used := used + 1;
    }

    /**
     Backward subsumption: the models of the clauses and the top-level assignment stay exactly the same; false means
     that there are none. At the end no clause below the length limit has an assigned literal, so all watches are in
     order again, although strengthening in place may have broken that on the way.
     */
    method BackwardSubsumptionCheck() returns (r: bool)
      requires Shape() && used == bwdsubAssigns
      modifies solver`orig, solver`assigns, solver`trail, solver`level, solver`reason, solver`pos, solver`ca, solver`watches,
               solver`qhead, solver`dirty, solver`dirties, solver`loose, `dirtyOcc, `elimHeap, `occurs, `abs, `queue, `bwdsubAssigns, `used
      ensures old(elimHeap) <= elimHeap
      ensures Sizes() && old(solver.trail) <= solver.trail && |solver.ca| == |old(solver.ca)| && TotalLits(solver.ca) <= TotalLits(old(solver.ca))
      ensures r ==> Shape() && Equivalent(old(solver.ca), old(solver.trail), solver.ca, solver.trail)
      ensures r ==> queue == [] && used == bwdsubAssigns == |solver.trail|
      ensures r ==> NoneAssigned(solver.ca, solver.assigns, subsumptionLim) && solver.loose == {}
      ensures r ==> Progressed(old(solver.ca), old(queue), solver.ca, [], subsumptionLim)
      ensures !r ==> Unsat(solver.orig) && Contradictory(old(solver.ca), old(solver.trail))
    {
      hide Shape, Sizes, Equivalent, Contradictory, Unsat, TotalLits, NoneAssigned, Progressed, Advanced;
      EquivalentSelf(solver.ca, solver.trail);
      SizesHere();
      ProgressedSelf(solver.ca, queue, subsumptionLim);
      while queue != [] || bwdsubAssigns < |solver.trail|
        invariant old(elimHeap) <= elimHeap
        invariant Shape() && Sizes() && used == bwdsubAssigns && old(solver.trail) <= solver.trail
        invariant Progressed(old(solver.ca), old(queue), solver.ca, queue, subsumptionLim)
        invariant Equivalent(old(solver.ca), old(solver.trail), solver.ca, solver.trail)
        invariant |solver.ca| == |old(solver.ca)| && TotalLits(solver.ca) <= TotalLits(old(solver.ca))
        decreases TotalLits(solver.ca), |solver.trail| - bwdsubAssigns, |queue|
      {
        ghost var mid, midTrail, midQueue, x := solver.ca, solver.trail, queue, Ref(0);
        r, x := UseNext();
        EquivalentTrans(old(solver.ca), old(solver.trail), mid, midTrail, solver.ca, solver.trail);
        if !r {
          return;
        }
        ProgressedOn(old(solver.ca), old(queue), mid, midQueue, x, solver.ca, queue, subsumptionLim);
      }
      BwdBound();
      TightenAll();
      SizesHere();
      r := true;
    }

    lemma BwdBound()
      requires Shape()
      ensures used <= bwdsubAssigns <= |solver.trail|
    {
    }

    /** With the whole trail used, the watches of all clauses are in order. */
    ghost method TightenAll()
      requires Shape() && used == |solver.trail|
      modifies solver`loose
      ensures Shape() && solver.loose == {} && NoneAssigned(solver.ca, solver.assigns, subsumptionLim)
    {
      hide DbGood, TrailGood, OccGood, AbsGood, Agenda, ListedOnce, Pending, solver.Running, NoneAssigned;
      AllUsed(eliminated, solver.assigns, solver.trail, queue, solver.ca, subsumptionLim, solver.loose);
      AgendaTight(queue, used, solver.ca, solver.trail, subsumptionLim, solver.loose);
      solver.Tighten();
    }

    // ---------- adding clauses ----------

    /** Variables that exist and have not been eliminated. */
    ghost predicate Usable(c: seq<Lit>)
      reads `eliminated
    {
      forall k :: 0 <= k < |c| ==> c[k].v < |eliminated| && !eliminated[c[k].v]
    }

    /** Assume the negation of the clause and propagate: true only if the clause follows, false only if it is trivial or nothing comes of it. */
    method Implied(c: seq<Lit>) returns (r: bool)
      requires Shape() && solver.loose == {} && Usable(c)
      modifies solver`assigns, solver`trail, solver`trailLim, solver`level, solver`reason, solver`pos, solver`ca, solver`watches,
               solver`qhead, solver`dirty, solver`dirties, solver`orderHeap, solver`probing
      ensures Shape() && Reworked(old(solver.ca), solver.ca) && solver.trail == old(solver.trail) && solver.assigns == old(solver.assigns)
      ensures Equivalent(old(solver.ca), solver.trail, solver.ca, solver.trail) && (old(solver.Listed()) ==> solver.Listed())
      ensures r ==> Forced(solver.ca, solver.trail, c) && !Probing.Trivial(old(solver.A()), c)
      ensures !r ==> Probing.Trivial(old(solver.A()), c) || Probing.Unsettled(old(solver.A()), solver.ca, c)
    {
      hide Tables, Agenda, ListedOnce, Pending, solver.Running, solver.Listed, Reworked, Entails, StandsFor, Equivalent, Forced, Explained, TrailInv, ReasonInv, Probing.Trivial, Probing.Unsettled;
      Stands();
      ListCount();
      ghost var a, ca0 := solver.A(), solver.ca;
      r := solver.Implied(c);
      Stands();
      SameFormula(solver.orig, ca0, a.trail, solver.ca, solver.trail);
      MoreFormula(solver.orig, solver.ca, solver.trail, c, solver.ca, solver.trail);
      solver.RunningParts();
      NothingNew(a, solver.A(), solver.ca);
      TablesPropagated(eliminated, a, ca0, occurs, dirtyOcc, abs, solver.A(), solver.ca, []);
      AgendaPropagated(queue, used, ca0, a.trail, subsumptionLim, solver.loose, solver.ca, solver.trail);
      StillListed(ca0, solver.ca, solver.clauses);
    }

    /** Enter a clause just stored into the occurrence lists, and note its variables as touched. */
    method EnterClause(cr: CRef, ghost ps: seq<Lit>, ghost ca0: seq<Clause>)
      requires cr == |ca0| && |solver.ca| == cr + 1 && solver.ca == ca0 + [Clause(solver.ca[cr].lits, false, false)] && NormalForm(solver.A(), ps, solver.ca[cr].lits)
      requires Tables(eliminated, solver.assigns, solver.trail, ca0, occurs, dirtyOcc, abs) && Usable(ps) && |solver.ca[cr].lits| > 1
      requires Agenda(queue, used, ca0, solver.trail, subsumptionLim, solver.loose) && Pending(touched, elimHeap, |eliminated|)
      modifies `occurs, `abs, `queue, `touched
      ensures Tables(eliminated, solver.assigns, solver.trail, solver.ca, occurs, dirtyOcc, abs)
      ensures Agenda(queue, used, solver.ca, solver.trail, subsumptionLim, solver.loose) && Pending(touched, elimHeap, |eliminated|)
      ensures queue == old(queue) + [cr] && touched == old(touched) + VarSet(solver.ca[cr].lits)
    {
      hide DbGood, TrailGood, OccGood, AbsGood, NormalForm, Agenda;
      var c := solver.ca[cr].lits;
      NormalUsable(solver.A(), ps, c);
      NormalDistinct(solver.A(), ps, c);
      TablesParts(eliminated, solver.assigns, solver.trail, ca0, occurs, dirtyOcc, abs);
      AgendaStored(eliminated, queue, used, ca0, solver.A(), subsumptionLim, solver.loose, ps, c);
      queue := queue + [cr];
      ghost var before := occurs;
      var i := 0;
      assert c[..0] == [] && VarSet(c[..0]) == {};
      while i < |c|
        invariant i <= |c| && |occurs| == |eliminated| && Entered(before, occurs, c, i, cr) && abs == old(abs) && queue == old(queue) + [cr]
        invariant (forall v :: v in touched ==> v < |eliminated|) && touched == old(touched) + VarSet(c[..i])
      {
        assert c[i] in ps;
        EnterOne(before, occurs, c, i, cr);
        occurs := occurs[c[i].v := occurs[c[i].v] + [cr]];
        assert c[..i + 1] == c[..i] + [c[i]];
        assert VarSet(c[..i + 1]) == VarSet(c[..i]) + {c[i].v};
        touched := touched + {c[i].v};
        i := i + 1;
      }
      assert c[..|c|] == c;
      var sig := CalcAbstraction(c);
      TablesStored(eliminated, solver.A(), ca0, before, dirtyOcc, abs, ps, c, occurs);
      abs := abs + [sig];
    }

    /** Let the solver add a clause, and enter it into the lists if it has been stored. */
    method StoreNormal(ps: seq<Lit>) returns (r: bool)
      requires solver.ok && Shape() && solver.loose == {} && Usable(ps)
      modifies solver`orig, solver`assigns, solver`trail, solver`level, solver`reason, solver`pos, solver`ca, solver`watches,
               solver`qhead, solver`dirty, solver`dirties, solver`ok, solver`clauses, `occurs, `abs, `queue, `touched
      ensures Sizes() && r == solver.ok && (r ==> GoneKept(old(solver.ca), solver.ca) && old(solver.trail) <= solver.trail)
      ensures r ==> Shape() && solver.loose == {} && Adds(old(solver.ca), old(solver.trail), ps, solver.ca, solver.trail)
      ensures r ==> Scheduled(old(solver.clauses), solver.clauses, solver.ca, old(queue), queue, old(touched), touched)
      ensures r && old(solver.Listed()) ==> solver.Listed()
      ensures !r ==> Unsat(solver.orig) && Excludes(old(solver.ca), old(solver.trail), ps)
    {
      hide Tables, Agenda, ListedOnce, Pending, solver.Running, StandsFor, Adds, Excludes, GoneKept, Stored, Explained, TrailInv, ReasonInv, NormalForm, Unsat, VarSet;
      Stands();
      ListCount();
      solver.RunningParts();
      ghost var a, ca0, f, refs := solver.A(), solver.ca, solver.orig, solver.clauses;
      var nclauses := |solver.clauses|;
      r := solver.AddClause(ps);
      if r {
        Stands();
      }
      MoreFormula(f, ca0, a.trail, ps, solver.ca, solver.trail);
      if r {
        solver.RunningParts();
        StoredCases(a, ca0, refs, ps, solver.A(), solver.ca, solver.clauses);
        GoneKeptStored(ca0, solver.ca);
        if |solver.clauses| == nclauses + 1 {
          EnterClause(solver.clauses[nclauses], ps, ca0);
          ListedMore(ca0, refs, solver.ca);
        } else {
          GrownExplained(a, solver.A(), solver.ca, ps);
          TablesPropagated(eliminated, a, ca0, occurs, dirtyOcc, abs, solver.A(), solver.ca, ps);
          AgendaPropagated(queue, used, ca0, a.trail, subsumptionLim, solver.loose, solver.ca, solver.trail);
          StillListed(ca0, solver.ca, solver.clauses);
        }
      }
    }

    /** Add a clause to the current ones, unless it is found to follow; false if they are now contradictory. */
    method StoreClause(ps: seq<Lit>) returns (r: bool)
      requires solver.ok && Shape() && solver.loose == {} && Usable(ps)
      modifies solver`orig, solver`assigns, solver`trail, solver`level, solver`reason, solver`pos, solver`ca, solver`watches,
               solver`qhead, solver`dirty, solver`dirties, solver`ok, solver`clauses, solver`trailLim, solver`orderHeap, solver`probing,
               `occurs, `abs, `queue, `touched
      ensures Sizes() && r == solver.ok && (r ==> GoneKept(old(solver.ca), solver.ca) && old(solver.trail) <= solver.trail)
      ensures r ==> Shape() && solver.loose == {} && Adds(old(solver.ca), old(solver.trail), ps, solver.ca, solver.trail)
      ensures r ==> Scheduled(old(solver.clauses), solver.clauses, solver.ca, old(queue), queue, old(touched), touched)
      ensures r && old(solver.Listed()) ==> solver.Listed()
      ensures !r ==> Unsat(solver.orig) && Excludes(old(solver.ca), old(solver.trail), ps)
    {
      hide Shape, Sizes, Forced, Equivalent, Adds, Excludes, Reworked, GoneKept, Unsat, solver.Listed, Scheduled;
      ghost var ca0 := solver.ca;
      GoneKeptSelf(ca0);
      EquivalentSelf(ca0, solver.trail);
      SizesHere();
      if useRcheck {
        var implied := Implied(ps);
        GoneKeptReworked(ca0, solver.ca);
        SizesHere();
        if implied {
          NothingScheduled(solver.clauses, solver.ca, queue, touched);
          ForcedAdds(ca0, solver.ca, solver.trail, ps);
          return true;
        }
      }
      ghost var mid := solver.ca;
      r := StoreNormal(ps);
      if r {
        GoneKeptTrans(ca0, mid, solver.ca);
      }
      AddsAfter(ca0, mid, old(solver.trail), ps, solver.ca, solver.trail);
    }

    // ---------- between calls ----------

    /** The sizes of all tables agree, and the solver is at level 0. */
    ghost predicate Sizes()
      reads `frozen, `eliminated, solver`assigns, solver`trail, solver`trailLim, solver`level, solver`reason, solver`pos, solver`loose, solver`probing, solver`decision, solver`seen
    {
      |frozen| == |eliminated| == |solver.assigns| && solver.Sized() && solver.trailLim == []
    }

    lemma SizesHere()
      requires Shape()
      ensures Sizes() && used <= bwdsubAssigns <= |solver.trail|
    {
      solver.RunningParts();
      TablesParts(eliminated, solver.assigns, solver.trail, solver.ca, occurs, dirtyOcc, abs);
    }

    /** Sizes and records are in order. */
    ghost predicate Ready()
      reads this, solver
    {
      Sizes() && RecordsGood(recs, eliminated, elimclauses) && InRange(orig, |eliminated|)
    }

    /** The records lead back to all clauses ever added, or those are known to be unsatisfiable; every clause is watched properly. */
    ghost predicate Working()
      reads this, solver
    {
      && Ready()
      && if solver.ok then Shape() && solver.loose == {} && used == bwdsubAssigns && Reduces(orig, recs, solver.ca, solver.trail)
         else Unsat(orig) && Unsat(solver.orig)
    }

    /** Between calls the solver's lists of clauses are up to date as well, and nothing is queued without being touched. */
    ghost predicate Consistent()
      reads this, solver
    {
      Working() && (solver.ok ==> solver.Listed() && (touched == {} ==> queue == []))
    }

    constructor (grow: int, clauseLim: int, subsumptionLim: int, useRcheck: bool)
      ensures Consistent() && solver.ok && orig == [] && eliminated == [] && fresh(solver)
      ensures this.grow == grow && this.clauseLim == clauseLim && this.subsumptionLim == subsumptionLim
    {
      hide *;
      solver := new SatSolver.Solver();
      frozen, eliminated, occurs, dirtyOcc, abs, queue, bwdsubAssigns, elimclauses := [], [], [], {}, [], [], 0, [];
      touched, elimHeap := {}, {};
      this.grow, this.clauseLim, this.subsumptionLim, this.useRcheck := grow, clauseLim, subsumptionLim, useRcheck;
      used, orig, recs := 0, [], [];
      new;
      solver.removeSat := false;
      NothingAdded();
    }

    /** An empty simplifier is in order. */
    lemma NothingAdded()
      requires solver.Consistent() && solver.ok && solver.orig == [] && solver.assigns == [] && solver.ca == [] && solver.trail == []
      requires solver.qhead == 0 && solver.clauses == [] && solver.learnts == [] && frozen == [] && eliminated == [] && occurs == []
      requires abs == [] && queue == [] && elimclauses == [] && dirtyOcc == {} && touched == {} && elimHeap == {}
      requires bwdsubAssigns == used == 0 && orig == [] && recs == []
      ensures Consistent()
    {
      hide Tables, Agenda, ListedOnce, Pending, Reduces, RecordsGood, InRange, solver.Running, solver.Listed;
      NothingYet(subsumptionLim);
    }

    method NewVar(dvar: bool) returns (v: Var)
      requires Consistent()
      modifies solver`watches, solver`assigns, solver`level, solver`reason, solver`pos, solver`seen, solver`decision, solver`orderHeap,
               `frozen, `eliminated, `occurs, `elimHeap
      ensures Consistent() && v == |old(eliminated)| && eliminated == old(eliminated) + [false]
      ensures solver.decision == old(solver.decision) + [dvar] && frozen == old(frozen) + [false] && elimHeap == old(elimHeap) + {v}
    {
      hide Consistent, Steady, Tables, Pending, RecordsGood, InRange, Unsat, SameSize, WithVar, solver.Consistent, solver.Settled;
      ghost var a := solver.A();
      BeforeVar();
      v := solver.NewVar(dvar);
      VarAppended(a, solver.A());
      frozen, eliminated, occurs, elimHeap := frozen + [false], eliminated + [false], occurs + [[]], elimHeap + {v};
      AfterVar();
    }

    /** What does not depend on the number of variables. */
    ghost predicate Steady()
      reads `queue, `bwdsubAssigns, `touched, `subsumptionLim, `used, `orig, `recs, solver`trail, solver`trailLim, solver`ca,
            solver`loose, solver`probing, solver`clauses, solver`learnts, solver`qhead
    {
      && used == bwdsubAssigns <= |solver.trail| && solver.trailLim == [] && solver.qhead == |solver.trail|
      && !solver.probing && solver.learnts == [] && (touched == {} ==> queue == [])
      && Agenda(queue, used, solver.ca, solver.trail, subsumptionLim, solver.loose)
      && ListedOnce(solver.ca, solver.clauses) && Reduces(orig, recs, solver.ca, solver.trail)
    }

    lemma BeforeVar()
      requires Consistent()
      ensures RecordsGood(recs, eliminated + [false], elimclauses) && InRange(orig, |eliminated + [false]|) && solver.Settled() && solver.Consistent()
      ensures solver.ok ==> Tables(eliminated + [false], solver.assigns + [LUndef], solver.trail, solver.ca, occurs + [[]], dirtyOcc, abs)
      ensures solver.ok ==> Pending(touched, elimHeap + {|solver.assigns|}, |eliminated + [false]|)
      ensures SameSize(solver.A()) && |solver.assigns| == |eliminated| == |frozen| && if solver.ok then Steady() else Unsat(orig)
    {
      hide Tables, Agenda, ListedOnce, Pending, Reduces, RecordsGood, InRange, Unsat, solver.Running, solver.Listed;
      RecordsGrow(recs, eliminated, elimclauses);
      RangeGrows(orig, |eliminated|);
      if solver.ok {
        TablesGrown(eliminated, solver.assigns, solver.trail, solver.ca, occurs, dirtyOcc, abs);
        PendingGrown(touched, elimHeap, |eliminated|);
      }
    }

    lemma AfterVar()
      requires solver.Consistent() && |frozen| == |eliminated| == |solver.assigns|
      requires RecordsGood(recs, eliminated, elimclauses) && InRange(orig, |eliminated|)
      requires solver.ok ==> Tables(eliminated, solver.assigns, solver.trail, solver.ca, occurs, dirtyOcc, abs)
      requires solver.ok ==> Pending(touched, elimHeap, |eliminated|)
      requires if solver.ok then Steady() else Unsat(orig)
      ensures Consistent()
    {
      hide Tables, Agenda, ListedOnce, Pending, Reduces, RecordsGood, InRange, Unsat, solver.Running, solver.Listed;
    }

    /** Freeze or release a variable; frozen variables are not eliminated. */
    method SetFrozen(v: Var, b: bool)
      requires Consistent() && v < |frozen|
      modifies `frozen, `elimHeap
      ensures Consistent() && frozen == old(frozen)[v := b] && elimHeap == old(elimHeap) + if !b && Eliminable(v) then {v} else {}
    {
      hide Tables, Agenda, ListedOnce, Pending, Reduces, RecordsGood, InRange, Unsat, solver.Running, solver.Listed;
      frozen := frozen[v := b];
      if !b {
        UpdateElimHeap(v);
      }
    }

    /** Add a clause over variables that have not been eliminated. */
    method AddClause(ps: seq<Lit>) returns (r: bool)
      requires Consistent() && Usable(ps)
      modifies solver`orig, solver`assigns, solver`trail, solver`level, solver`reason, solver`pos, solver`ca, solver`watches,
               solver`qhead, solver`dirty, solver`dirties, solver`ok, solver`clauses, solver`trailLim, solver`orderHeap, solver`probing,
               `occurs, `abs, `queue, `touched, `orig
      ensures Consistent() && r == solver.ok && orig == old(orig) + [ps]
      ensures r ==> Scheduled(old(solver.clauses), solver.clauses, solver.ca, old(queue), queue, old(touched), touched)
    {
      hide Shape, Sizes, Adds, Excludes, GoneKept, Reduces, RecordsGood, InRange, Unsat, solver.Listed, Scheduled;
      ghost var ca0, trail0 := solver.ca, solver.trail;
      AddsToAll(orig, recs, eliminated, elimclauses, solver.ca, solver.trail, ps);
      orig := orig + [ps];
      if !solver.ok {
        return false;
      }
      r := StoreClause(ps);
      if r {
        ScheduledTouches(old(solver.clauses), solver.clauses, solver.ca, old(queue), queue, old(touched), touched);
      }
      AddKeeps(old(orig), recs, eliminated, elimclauses, ca0, trail0, ps, solver.ca, solver.trail);
    }

    // ---------- eliminating a variable ----------

    /** Sort the clauses of an occurrence list by the sign of v. */
    method SplitOccurrences(v: Var) returns (pos: seq<CRef>, neg: seq<CRef>)
      requires Shape() && v < |eliminated| && v !in dirtyOcc
      ensures Lists(solver.ca, pos, Lit(v, false)) && Lists(solver.ca, neg, Lit(v, true))
      ensures v < |occurs| && |pos| + |neg| == |occurs[v]| && Both(occurs[v], pos, neg)
    {
      hide Top, Agenda, ListedOnce, Pending, DbGood, TrailGood, OccGood, AbsGood, Mentioned, Distinct, Lists, Both;
      OccSize(|eliminated|, solver.ca, occurs, dirtyOcc);
      CleanList(|eliminated|, solver.ca, occurs, dirtyOcc, v);
      ListGood(eliminated, solver.ca, occurs[v]);
      var cls := occurs[v];
      pos, neg := [], [];
      var i := 0;
      while i < |cls|
        invariant i <= |cls| && SplitUpTo(solver.ca, cls, v, i, pos, neg)
      {
        SplitOne(solver.ca, cls, v, i, pos, neg);
        if Lit(v, false) in solver.ca[cls[i]].lits {
          pos := pos + [cls[i]];
        } else {
          neg := neg + [cls[i]];
        }
        i := i + 1;
      }
      SplitLists(solver.ca, cls, v, pos, neg);
    }

    /** Count the resolvents that are not tautologies; false as soon as there are too many or one is too long. */
    method WithinLimits(pos: seq<CRef>, neg: seq<CRef>, v: Var, limit: int) returns (fits: bool)
      requires PairsReady(solver.ca, pos, neg, v)
      ensures fits <==> Fits(LitsOf(solver.ca, pos), LitsOf(solver.ca, neg), v, limit, clauseLim)
    {
      hide Clash, Distinct, Counted, Fits, OpenPairs;
      ghost var ps, ns := LitsOf(solver.ca, pos), LitsOf(solver.ca, neg);
      ghost var done: set<(nat, nat)> := {};
      var cnt := 0;
      var i := 0;
      assert Counted(ps, ns, v, 0, 0, clauseLim, done) by { CountNone(ps, ns, v, clauseLim); }
      while i < |pos|
        invariant i <= |pos| && cnt == |done| && Counted(ps, ns, v, i, 0, clauseLim, done) && (cnt <= limit || cnt == 0)
      {
        var j := 0;
        while j < |neg|
          invariant j <= |neg| && cnt == |done| && Counted(ps, ns, v, i, j, clauseLim, done) && (cnt <= limit || cnt == 0)
        {
          var open, size := MergeSize(solver.ca[pos[i]].lits, solver.ca[neg[j]].lits, v);
          if open {
            cnt := cnt + 1;
            CountOne(ps, ns, v, i, j, clauseLim, done);
            done := done + {(i, j)};
            if cnt > limit || (clauseLim != -1 && size > clauseLim) {
              TooMuch(ps, ns, v, i, j, limit, clauseLim, done);
              return false;
            }
          } else {
            CountSkip(ps, ns, v, i, j, clauseLim, done);
          }
          j := j + 1;
        }
        CountRow(ps, ns, v, i, clauseLim, done);
        i := i + 1;
      }
      CountAll(ps, ns, v, limit, clauseLim, done);
      fits := true;
    }

    /** Store the clauses of one side, and the value that satisfies the other side by default. */
    method StoreRecords(refs: seq<CRef>, x: Lit) returns (ghost more: seq<seq<Lit>>)
      requires elimclauses == Flat(recs) && Lists(solver.ca, refs, Neg(x)) && OnLit(LitsOf(solver.ca, refs), Neg(x))
      modifies `elimclauses
      ensures |more| == |refs| && elimclauses == Flat(recs + (more + [[x]]))
      ensures forall i :: 0 <= i < |refs| ==> RecordOf(more[i], LitsOf(solver.ca, refs)[i], Neg(x))
    {
      hide Flat, Distinct, RecordOf, Lists;
      ListedLive(solver.ca, refs, Neg(x));
      more := [];
      assert recs + more == recs;
      var i := 0;
      while i < |refs|
        invariant i <= |refs| && |more| == i && elimclauses == Flat(recs + more)
        invariant forall k :: 0 <= k < i ==> RecordOf(more[k], LitsOf(solver.ca, refs)[k], Neg(x))
      {
        ghost var c := LitsOf(solver.ca, refs)[i];
        assert Neg(x) in c;
        ghost var k := FrontedRecord(recs + more, c, Neg(x));
        elimclauses := MkElimClause(elimclauses, x.v, solver.ca[refs[i]].lits);
        assert recs + more + [Fronted(c, k)] == recs + (more + [Fronted(c, k)]);
        more := more + [Fronted(c, k)];
        i := i + 1;
      }
      elimclauses := MkElimUnit(elimclauses, x);
      FlatMore(recs + more, [x]);
      assert recs + more + [[x]] == recs + (more + [[x]]);
    }

    method RemoveAll(cls: seq<CRef>)
      requires Shape() && NoDup(cls) && RefsLive(solver.ca, cls)
      modifies solver`ca, solver`dirty, solver`dirties, solver`reason, solver`orig, `dirtyOcc, `elimHeap
      ensures old(elimHeap) <= elimHeap
      ensures Shape() && RemovedAll(old(solver.ca), solver.ca, cls)
    {
      hide Shape;
      var i := 0;
      while i < |cls|
        invariant old(elimHeap) <= elimHeap
        invariant i <= |cls| && Shape() && RemovedAll(old(solver.ca), solver.ca, cls[..i])
      {
        RemovedOneMore(old(solver.ca), solver.ca, cls, i);
        RemoveClause(cls[i]);
        i := i + 1;
      }
      assert cls[..|cls|] == cls;
    }

    /** Add the resolvents of all pairs of removed clauses. */
    method AddResolvents(pos: seq<CRef>, neg: seq<CRef>, v: Var) returns (r: bool)
      requires solver.ok && Shape() && solver.loose == {} && v < |eliminated| && eliminated[v]
      requires SideGone(eliminated, solver.ca, pos, v) && SideGone(eliminated, solver.ca, neg, v)
      modifies solver`orig, solver`assigns, solver`trail, solver`level, solver`reason, solver`pos, solver`ca, solver`watches,
               solver`qhead, solver`dirty, solver`dirties, solver`ok, solver`clauses, solver`trailLim, solver`orderHeap, solver`probing,
               `occurs, `abs, `queue, `touched
      ensures Sizes() && r == solver.ok
      ensures r ==> Shape() && solver.loose == {} && old(solver.trail) <= solver.trail && |old(solver.ca)| <= |solver.ca|
      ensures r ==> Resolves(old(solver.ca), old(solver.trail), LitsOf(old(solver.ca), pos), LitsOf(old(solver.ca), neg), v, solver.ca, solver.trail)
      ensures !r ==> Unsat(solver.orig)
      ensures !r ==> forall m: Model :: Now(m, old(solver.ca), old(solver.trail)) ==> !SatResolvents(m, LitsOf(old(solver.ca), pos), LitsOf(old(solver.ca), neg), v)
    {
      hide Shape, Sizes, Distinct, Now, Adds, Excludes, GoneKept, AddedUpTo, Clash, IsResolvent, Resolves, SatResolvents, Unsat;
      ghost var rest, t0, ps, ns := solver.ca, solver.trail, LitsOf(solver.ca, pos), LitsOf(solver.ca, neg);
      AddedNone(rest, t0, ps, ns, v);
      GoneKeptSelf(solver.ca);
      SizesHere();
      var i := 0;
      while i < |pos|
        invariant i <= |pos| && solver.ok && Shape() && Sizes() && solver.loose == {}
        invariant t0 <= solver.trail && GoneKept(rest, solver.ca) && |rest| <= |solver.ca|
        invariant AddedUpTo(rest, t0, ps, ns, v, i, 0, solver.ca, solver.trail)
      {
        r := AddRow(pos, neg, v, i, rest, t0);
        if !r {
          return;
        }
        i := i + 1;
      }
      AddedAll(rest, t0, ps, ns, v, solver.ca, solver.trail);
      r := true;
    }

    /** Add the resolvents of one clause with all clauses of the other side. */
    method AddRow(pos: seq<CRef>, neg: seq<CRef>, v: Var, i: nat, ghost rest: seq<Clause>, ghost t0: seq<Lit>) returns (r: bool)
      requires solver.ok && Shape() && solver.loose == {} && v < |eliminated| && eliminated[v] && i < |pos|
      requires t0 <= solver.trail && |rest| <= |solver.ca|
      requires GoneKept(rest, solver.ca) && SideGone(eliminated, rest, pos, v) && SideGone(eliminated, rest, neg, v)
      requires AddedUpTo(rest, t0, LitsOf(rest, pos), LitsOf(rest, neg), v, i, 0, solver.ca, solver.trail)
      modifies solver`orig, solver`assigns, solver`trail, solver`level, solver`reason, solver`pos, solver`ca, solver`watches,
               solver`qhead, solver`dirty, solver`dirties, solver`ok, solver`clauses, solver`trailLim, solver`orderHeap, solver`probing,
               `occurs, `abs, `queue, `touched
      ensures Sizes() && r == solver.ok
      ensures r ==> Shape() && solver.loose == {} && t0 <= solver.trail && GoneKept(rest, solver.ca) && |rest| <= |solver.ca|
      ensures r ==> AddedUpTo(rest, t0, LitsOf(rest, pos), LitsOf(rest, neg), v, i + 1, 0, solver.ca, solver.trail)
      ensures !r ==> Unsat(solver.orig)
      ensures !r ==> forall m: Model :: Now(m, rest, t0) ==> !SatResolvents(m, LitsOf(rest, pos), LitsOf(rest, neg), v)
    {
      hide Shape, Sizes, Distinct, Now, Adds, Excludes, AddedUpTo, Clash, IsResolvent, SatResolvents, Unsat;
      ghost var ps, ns := LitsOf(rest, pos), LitsOf(rest, neg);
      SizesHere();
      var j := 0;
      while j < |neg|
        invariant j <= |neg| && solver.ok && Shape() && Sizes() && solver.loose == {}
        invariant t0 <= solver.trail && GoneKept(rest, solver.ca) && |rest| <= |solver.ca|
        invariant AddedUpTo(rest, t0, ps, ns, v, i, j, solver.ca, solver.trail)
      {
        assert solver.ca[pos[i]].lits == ps[i] && solver.ca[neg[j]].lits == ns[j];
        var fine, resolvent := Merge(solver.ca[pos[i]].lits, solver.ca[neg[j]].lits, v);
        if fine {
          ghost var before, trail0 := solver.ca, solver.trail;
          ResolventUsable(eliminated, ps[i], ns[j], v, resolvent);
          r := StoreClause(resolvent);
          if r {
            GoneKeptTrans(rest, before, solver.ca);
          }
          AddedOne(rest, t0, ps, ns, v, i, j, before, trail0, resolvent, solver.ca, solver.trail);
          if !r {
            return;
          }
        } else {
          AddedSkip(rest, t0, ps, ns, v, i, j, solver.ca, solver.trail);
        }
        j := j + 1;
      }
      AddedRow(rest, t0, ps, ns, v, i, solver.ca, solver.trail);
      r := true;
    }

    /** Record the smaller side of the clauses on v; by default v satisfies the other one. */
    method RecordSide(v: Var, pos: seq<CRef>, neg: seq<CRef>) returns (ghost more: seq<seq<Lit>>, x: Lit)
      requires DbGood(eliminated, solver.ca) && RecordsGood(recs, eliminated, elimclauses) && v < |eliminated| && !eliminated[v]
      requires Lists(solver.ca, pos, Lit(v, false)) && Lists(solver.ca, neg, Lit(v, true))
      modifies `elimclauses
      ensures x == Lit(v, |pos| <= |neg|) && OnLit(LitsOf(solver.ca, pos), Lit(v, false)) && OnLit(LitsOf(solver.ca, neg), Lit(v, true))
      ensures RecordsOf(more, if x.sign then LitsOf(solver.ca, pos) else LitsOf(solver.ca, neg), x)
      ensures RecordsGood(recs + (more + [[x]]), eliminated[v := true], elimclauses)
    {
      hide DbGood, RecordOf, Distinct, Lists, RecordsGood, OnLit;
      ListReady(eliminated, solver.ca, pos, Lit(v, false));
      ListReady(eliminated, solver.ca, neg, Lit(v, true));
      FlatRecords(recs, eliminated, elimclauses);
      if |pos| > |neg| {
        x := Lit(v, false);
        more := StoreRecords(neg, x);
        RecordsUsable(eliminated, solver.ca, neg, more, Neg(x));
      } else {
        x := Lit(v, true);
        more := StoreRecords(pos, x);
        RecordsUsable(eliminated, solver.ca, pos, more, Neg(x));
      }
      RecordsMore(recs, eliminated, old(elimclauses), more, x, elimclauses);
    }

    /** Record one side of the clauses on v, remove them all, and mark v as eliminated. */
    method Detach(v: Var, cls: seq<CRef>, pos: seq<CRef>, neg: seq<CRef>) returns (ghost more: seq<seq<Lit>>, x: Lit)
      requires Shape() && RecordsGood(recs, eliminated, elimclauses)
      requires v < |solver.assigns| && v < |eliminated| && solver.assigns[v] == LUndef && !eliminated[v]
      requires Lists(solver.ca, pos, Lit(v, false)) && Lists(solver.ca, neg, Lit(v, true)) && Both(cls, pos, neg)
      modifies solver`ca, solver`dirty, solver`dirties, solver`reason, solver`orig, solver`decision, solver`orderHeap,
               `dirtyOcc, `elimHeap, `eliminated, `elimclauses, `recs
      ensures old(elimHeap) <= elimHeap
      ensures Shape() && RecordsGood(recs, eliminated, elimclauses) && |solver.ca| == |old(solver.ca)| && x == Lit(v, |pos| <= |neg|)
      ensures Detached(old(solver.ca), solver.trail, solver.ca, LitsOf(old(solver.ca), pos), LitsOf(old(solver.ca), neg), v, more, x)
      ensures SideGone(eliminated, solver.ca, pos, v) && SideGone(eliminated, solver.ca, neg, v)
      ensures LitsOf(solver.ca, pos) == LitsOf(old(solver.ca), pos) && LitsOf(solver.ca, neg) == LitsOf(old(solver.ca), neg)
      ensures eliminated == old(eliminated)[v := true] && solver.decision == old(solver.decision)[v := false]
      ensures recs == old(recs) + (more + [[x]])
    {
      hide Top, DbGood, TrailGood, OccGood, AbsGood, Agenda, ListedOnce, Pending, Now, Lists, RecordsGood, SideGone, OnLit, Independent, Splits, RemovedAll, Both, RefsLive, RecordsOf;
      ghost var ca0, elim0 := solver.ca, eliminated;
      more, x := RecordSide(v, pos, neg);
      BothLive(solver.ca, cls, pos, neg, v);
      RemoveAll(cls);
      RemovalSplits(ca0, solver.ca, solver.trail, cls, pos, neg, v);
      NoneLeft(ca0, solver.ca, cls, pos, neg, v);
      RemovalIndependent(eliminated, solver.assigns, solver.ca, solver.trail, v);
      EliminateKeepsShape(eliminated, solver.assigns, solver.ca, solver.trail, v);
      BothSidesGone(elim0, ca0, solver.ca, cls, pos, neg, v);
      recs := recs + (more + [[x]]);
      eliminated := eliminated[v := true];
      Undecide(v);
    }

    /** An eliminated variable is no decision variable any more. */
    method Undecide(v: Var)
      requires Top() && v < |solver.assigns|
      modifies solver`decision, solver`orderHeap
      ensures Top() && solver.decision == old(solver.decision)[v := false]
    {
      solver.RunningParts();
      solver.SetDecisionVar(v, false);
    }

    /** Free the occurrence list of an eliminated variable. */
    method FreeOccurrences(v: Var)
      requires Shape() && v < |eliminated| && eliminated[v]
      modifies `occurs
      ensures Shape()
    {
      hide Top, DbGood, TrailGood, OccGood, AbsGood, Agenda, ListedOnce, Pending;
      OccSize(|eliminated|, solver.ca, occurs, dirtyOcc);
      ClearKeeps(eliminated, solver.ca, occurs, dirtyOcc, v);
      occurs := occurs[v := []];
    }

    /** The clauses on v have been replaced by their resolvents, and the result has been simplified. */
    method Replace(v: Var, cls: seq<CRef>, pos: seq<CRef>, neg: seq<CRef>) returns (r: bool)
      requires solver.ok && Shape() && solver.loose == {} && used == bwdsubAssigns && RecordsGood(recs, eliminated, elimclauses)
      requires v < |solver.assigns| && v < |eliminated| && solver.assigns[v] == LUndef && !eliminated[v]
      requires Lists(solver.ca, pos, Lit(v, false)) && Lists(solver.ca, neg, Lit(v, true)) && Both(cls, pos, neg)
      modifies solver`orig, solver`assigns, solver`trail, solver`level, solver`reason, solver`pos, solver`ca, solver`watches,
               solver`qhead, solver`dirty, solver`dirties, solver`ok, solver`clauses, solver`trailLim, solver`orderHeap, solver`probing,
               solver`loose, solver`decision, `dirtyOcc, `elimHeap, `occurs, `abs, `queue, `touched, `bwdsubAssigns, `used,
               `eliminated, `elimclauses, `recs
      ensures old(elimHeap) <= elimHeap
      ensures Sizes() && RecordsGood(recs, eliminated, elimclauses)
      ensures eliminated == old(eliminated)[v := true] && solver.decision == old(solver.decision)[v := false]
      ensures exists more :: recs == old(recs) + more && (r ==> Eliminates(old(solver.ca), old(solver.trail), solver.ca, solver.trail, v, more))
      ensures r ==> solver.ok && Shape() && solver.loose == {} && used == bwdsubAssigns == |solver.trail| && queue == []
      ensures !r ==> Unsat(solver.orig) && Contradictory(old(solver.ca), old(solver.trail))
    {
      hide Shape, Sizes, Now, Lists, RecordsGood, SideGone, Both, Detached, Resolves, SatResolvents, Eliminates, Equivalent, Contradictory, RecordsOf, Unsat, NoneAssigned;
      ListedLive(solver.ca, pos, Lit(v, false));
      ListedLive(solver.ca, neg, Lit(v, true));
      ghost var ca0, t0, ps, ns := solver.ca, solver.trail, LitsOf(solver.ca, pos), LitsOf(solver.ca, neg);
      ghost var more;
      var x;
      more, x := Detach(v, cls, pos, neg);
      ghost var rest := solver.ca;
      r := AddResolvents(pos, neg, v);
      if !r {
        DetachedFailed(ca0, t0, rest, ps, ns, v, more, x);
        return;
      }
      DetachedResolved(ca0, t0, rest, ps, ns, v, more, x, solver.ca, solver.trail);
      FreeOccurrences(v);
      ghost var mid, midTrail := solver.ca, solver.trail;
      r := BackwardSubsumptionCheck();
      EliminatesThen(ca0, t0, mid, midTrail, v, more + [[x]], solver.ca, solver.trail);
    }

    /**
     Eliminate v if its resolvents are few and short enough; otherwise nothing changes. After an elimination the
     clauses are those of "some value of v makes the old clauses true"; false means they are contradictory.
     */
    method EliminateVar(v: Var) returns (r: bool, ghost pos: seq<CRef>, ghost neg: seq<CRef>)
      requires solver.ok && Working() && v < |eliminated| && v < |frozen| && v < |solver.assigns|
      requires !frozen[v] && !eliminated[v] && solver.assigns[v] == LUndef
      modifies solver`orig, solver`assigns, solver`trail, solver`level, solver`reason, solver`pos, solver`ca, solver`watches,
               solver`qhead, solver`dirty, solver`dirties, solver`ok, solver`clauses, solver`trailLim, solver`orderHeap, solver`probing,
               solver`loose, solver`decision, `dirtyOcc, `elimHeap, `occurs, `abs, `queue, `touched, `bwdsubAssigns, `used,
               `eliminated, `elimclauses, `recs
      ensures old(elimHeap) <= elimHeap
      ensures Lists(old(solver.ca), pos, Lit(v, false)) && Lists(old(solver.ca), neg, Lit(v, true)) && Ready()
      ensures r ==> Working() && solver.ok
      ensures !r ==> Unsat(orig) && Unsat(solver.orig)
      ensures Fits(LitsOf(old(solver.ca), pos), LitsOf(old(solver.ca), neg), v, |pos| + |neg| + grow, clauseLim) ==>
                eliminated == old(eliminated)[v := true] && solver.decision == old(solver.decision)[v := false] &&
                (r ==> Projects(old(solver.ca), old(solver.trail), solver.ca, solver.trail, v) && queue == [] && bwdsubAssigns == |solver.trail|)
      ensures !Fits(LitsOf(old(solver.ca), pos), LitsOf(old(solver.ca), neg), v, |pos| + |neg| + grow, clauseLim) ==>
                r && eliminated == old(eliminated) && solver.decision == old(solver.decision) && solver.ca == old(solver.ca) &&
                solver.trail == old(solver.trail) && elimclauses == old(elimclauses) && elimHeap == old(elimHeap) &&
                touched == old(touched) && queue == old(queue) && bwdsubAssigns == old(bwdsubAssigns)
    {
      hide Shape, Sizes, Now, Lists, RecordsGood, Both, Equivalent, Contradictory, Unsat, Fits, Reduces, Projects, InRange, PairsReady;
      ListCount();
      Lookup(v);
      var p, n := SplitOccurrences(v);
      pos, neg := p, n;
      PairsHere(p, n, v);
      var fits := WithinLimits(p, n, v, |occurs[v]| + grow);
      if !fits {
        SizesHere();
        return true, pos, neg;
      }
      ghost var ca0, t0, recs0 := solver.ca, solver.trail, recs;
      r := Replace(v, occurs[v], p, n);
      AfterElimination(orig, recs0, ca0, t0, v, recs, solver.ca, solver.trail);
    }

    lemma PairsHere(pos: seq<CRef>, neg: seq<CRef>, v: Var)
      requires Shape() && Lists(solver.ca, pos, Lit(v, false)) && Lists(solver.ca, neg, Lit(v, true))
      ensures PairsReady(solver.ca, pos, neg, v)
    {
      hide Top, DbGood, TrailGood, OccGood, AbsGood, Agenda, ListedOnce, Pending, Lists;
      ListReady(eliminated, solver.ca, pos, Lit(v, false));
      ListReady(eliminated, solver.ca, neg, Lit(v, true));
    }

    // ---------- the elimination loop ----------

    /** Queue the live clauses on touched variables that are not queued yet. */
    method GatherTouched()
      requires Shape()
      modifies `occurs, `dirtyOcc, `queue, `touched
      ensures Shape() && touched == {} && old(queue) <= queue
      ensures forall v, r :: v in old(touched) && 0 <= r < |solver.ca| && !solver.ca[r].deleted && Mentioned(solver.ca[r].lits, v) ==> r in queue
    {
      hide Shape, Mentioned;
      if touched == {} {
        return;
      }
      ListCount();
      PendingHere();
      var v := 0;
      while v < |occurs|
        invariant v <= |occurs| == |eliminated| && Shape() && old(queue) <= queue && touched == old(touched)
        invariant forall u, r :: 0 <= u < v && u in touched && 0 <= r < |solver.ca| && !solver.ca[r].deleted && Mentioned(solver.ca[r].lits, u) ==> r in queue
      {
        if v in touched {
          GatherOne(v);
        }
        v := v + 1;
      }
      NothingTouched();
    }

    /** Queue the clauses in the list of one variable. */
    method GatherOne(v: Var)
      requires Shape() && v < |occurs|
      modifies `occurs, `dirtyOcc, `queue
      ensures Shape() && old(queue) <= queue && |occurs| == |old(occurs)|
      ensures forall r :: 0 <= r < |solver.ca| && !solver.ca[r].deleted && Mentioned(solver.ca[r].lits, v) ==> r in queue
    {
      hide Top, Tables, ListedOnce, Pending, Agenda, Mentioned;
      Lookup(v);
      ListCount();
      var j := 0;
      while j < |occurs[v]|
        invariant v < |occurs| == |old(occurs)| && j <= |occurs[v]| && Shape() && old(queue) <= queue
        invariant forall i :: 0 <= i < |occurs[v]| ==> occurs[v][i] < |solver.ca|
        invariant forall i :: 0 <= i < j ==> occurs[v][i] in queue
      {
        var cr := occurs[v][j];
        if cr !in queue {
          AgendaQueued(queue, used, solver.ca, solver.trail, subsumptionLim, solver.loose, cr);
          queue := queue + [cr];
        }
        j := j + 1;
      }
      AllListed(v);
    }

    /** Every live clause on the variable is in its list. */
    lemma AllListed(v: Var)
      requires Shape() && v < |occurs|
      ensures forall r :: 0 <= r < |solver.ca| && !solver.ca[r].deleted && Mentioned(solver.ca[r].lits, v) ==> r in occurs[v]
    {
      hide Top, DbGood, TrailGood, AbsGood, ListedOnce, Pending, Agenda;
    }

    /** Keep the live ones of the problem clauses. */
    method CleanUpClauses()
      requires Shape()
      modifies solver`clauses
      ensures Shape() && solver.Listed()
      ensures forall r :: r in solver.clauses <==> r in old(solver.clauses) && r < |solver.ca| && !solver.ca[r].deleted
    {
      hide Tables, Agenda, Pending, solver.Running, LiveRefs;
      ListCount();
      var cs := FilterLive(solver.ca, solver.clauses);
      LiveRefsFacts(solver.ca, solver.clauses);
      CleanListed(eliminated, solver.ca, solver.clauses, cs);
      solver.clauses := cs;
    }

    /** What elimination changes of variables: some that are not frozen have been eliminated. */
    ghost predicate Fewer(elim: seq<bool>, decision: seq<bool>)
      reads `eliminated, `frozen, solver`decision
    {
      && |eliminated| == |elim| && |solver.decision| == |decision|
      && (forall u :: 0 <= u < |elim| && u < |frozen| && frozen[u] ==> eliminated[u] == elim[u])
      && (forall u :: 0 <= u < |elim| && elim[u] ==> eliminated[u])
      && (forall u :: 0 <= u < |decision| && u < |elim| && !eliminated[u] ==> solver.decision[u] == decision[u])
    }

    lemma PendingHere()
      requires Shape()
      ensures (forall v :: v in elimHeap ==> v < |eliminated|) && (forall v :: v in touched ==> v < |eliminated|) && |eliminated| == |frozen| == |solver.assigns| && |solver.decision| == |eliminated|
    {
      solver.RunningParts();
      TablesParts(eliminated, solver.assigns, solver.trail, solver.ca, occurs, dirtyOcc, abs);
    }

    method DropFromHeap(v: Var)
      requires Shape() && v in elimHeap
      modifies `elimHeap
      ensures Shape() && elimHeap == old(elimHeap) - {v}
    {
      elimHeap := elimHeap - {v};
    }

    method NothingTouched()
      requires Shape()
      modifies `touched
      ensures Shape() && touched == {}
    {
      touched := {};
    }

    /** Try to eliminate a variable that is free. */
    method TryVar(v: Var) returns (r: bool, ghost t: Take)
      requires solver.ok && Working() && v < |eliminated| && v < |frozen| && v < |solver.assigns|
      requires !frozen[v] && !eliminated[v] && solver.assigns[v] == LUndef && queue == [] && bwdsubAssigns == |solver.trail|
      modifies solver`orig, solver`assigns, solver`trail, solver`level, solver`reason, solver`pos, solver`ca, solver`watches,
               solver`qhead, solver`dirty, solver`dirties, solver`ok, solver`clauses, solver`trailLim, solver`orderHeap, solver`probing,
               solver`loose, solver`decision, `dirtyOcc, `elimHeap, `occurs, `abs, `queue, `touched, `bwdsubAssigns, `used,
               `eliminated, `elimclauses, `recs
      ensures (if r then solver.ok && Working() else Ready() && Unsat(orig) && Unsat(solver.orig)) && old(elimHeap) <= elimHeap
      ensures r ==> queue == [] && bwdsubAssigns == |solver.trail|
      ensures TakeOk(t, grow, clauseLim) && t.v == v
      ensures t.ca == old(solver.ca) && t.values == old(solver.assigns) && t.frozen == frozen && t.before == old(eliminated) && t.after == eliminated
      ensures if eliminated == old(eliminated) then
                solver.decision == old(solver.decision) && solver.ca == old(solver.ca) && touched == old(touched) && elimHeap == old(elimHeap)
              else eliminated == old(eliminated)[v := true] && solver.decision == old(solver.decision)[v := false]
    {
      hide Shape, Sizes, RecordsGood, InRange, Reduces, Unsat, Lists, Fits, Projects, TakeOk;
      t := Take(v, solver.ca, solver.assigns, frozen, [], [], eliminated, eliminated);
      ghost var pos, neg;
      r, pos, neg := EliminateVar(v);
      t := t.(pos := pos, neg := neg, after := eliminated);
      TakeTried(t, grow, clauseLim);
    }

    /** Take one variable from the order and eliminate it if possible. */
    method EliminateNext(ghost elim0: seq<bool>, ghost decision0: seq<bool>) returns (r: bool, ghost t: Take)
      requires solver.ok && Working() && elimHeap != {} && Fewer(elim0, decision0) && queue == [] && bwdsubAssigns == |solver.trail|
      modifies solver`orig, solver`assigns, solver`trail, solver`level, solver`reason, solver`pos, solver`ca, solver`watches,
               solver`qhead, solver`dirty, solver`dirties, solver`ok, solver`clauses, solver`trailLim, solver`orderHeap, solver`probing,
               solver`loose, solver`decision, `dirtyOcc, `elimHeap, `occurs, `abs, `queue, `touched, `bwdsubAssigns, `used,
               `eliminated, `elimclauses, `recs
      ensures Fewer(elim0, decision0) && (if r then solver.ok && Working() else Ready() && Unsat(orig) && Unsat(solver.orig))
      ensures r ==> queue == [] && bwdsubAssigns == |solver.trail|
      ensures TakeOk(t, grow, clauseLim) && t.v in old(elimHeap) && old(elimHeap) - {t.v} <= elimHeap
      ensures t.ca == old(solver.ca) && t.values == old(solver.assigns) && t.frozen == frozen && t.before == old(eliminated) && t.after == eliminated
      ensures VarsLeft(eliminated) < VarsLeft(old(eliminated)) ||
              (eliminated == old(eliminated) && solver.ca == old(solver.ca) && touched == old(touched) && |elimHeap| < |old(elimHeap)|)
    {
      hide Shape, Sizes, RecordsGood, InRange, Reduces, Unsat, TakeOk;
      PendingHere();
      var v :| v in elimHeap;
      DropFromHeap(v);
      if eliminated[v] || solver.assigns[v] != LUndef || frozen[v] {
        t := Take(v, solver.ca, solver.assigns, frozen, [], [], eliminated, eliminated);
        TakeSkipped(t, grow, clauseLim);
        return true, t;
      }
      OneFewer(eliminated, v);
      r, t := TryVar(v);
    }

    /** Take every variable from the order and try to eliminate it. */
    method EliminateInOrder(ghost elim0: seq<bool>, ghost decision0: seq<bool>) returns (r: bool, ghost takes: seq<Take>)
      requires solver.ok && Working() && Fewer(elim0, decision0) && queue == [] && bwdsubAssigns == |solver.trail| && touched == {}
      modifies solver`orig, solver`assigns, solver`trail, solver`level, solver`reason, solver`pos, solver`ca, solver`watches,
               solver`qhead, solver`dirty, solver`dirties, solver`ok, solver`clauses, solver`trailLim, solver`orderHeap, solver`probing,
               solver`loose, solver`decision, `dirtyOcc, `elimHeap, `occurs, `abs, `queue, `touched, `bwdsubAssigns, `used,
               `eliminated, `elimclauses, `recs
      ensures Fewer(elim0, decision0) && (if r then solver.ok && Working() && queue == [] else Ready() && Unsat(orig) && Unsat(solver.orig))
      ensures r ==> elimHeap == {} && bwdsubAssigns == |solver.trail|
      ensures TakesOk(takes, grow, clauseLim, old(eliminated), eliminated) && (r ==> old(elimHeap) <= Taken(takes))
      ensures old(solver.ca) == if takes == [] then solver.ca else takes[0].ca
      ensures r ==> VarsLeft(eliminated) < VarsLeft(old(eliminated)) ||
                    (eliminated == old(eliminated) && solver.ca == old(solver.ca) && touched == {})
    {
      hide TakeOk, TakesOk, Taken, Shape, Sizes, RecordsGood, InRange, Reduces, Unsat, VarsLeft;
      r, takes := true, [];
      NothingTaken(grow, clauseLim, eliminated);
      while elimHeap != {}
        invariant solver.ok && Working() && Fewer(elim0, decision0) && queue == [] && bwdsubAssigns == |solver.trail|
        invariant VarsLeft(eliminated) < VarsLeft(old(eliminated)) ||
                  (eliminated == old(eliminated) && solver.ca == old(solver.ca) && touched == {})
        invariant TakesOk(takes, grow, clauseLim, old(eliminated), eliminated) && old(elimHeap) <= elimHeap + Taken(takes)
        invariant old(solver.ca) == if takes == [] then solver.ca else takes[0].ca
        decreases VarsLeft(eliminated), |elimHeap|
      {
        ghost var t;
        r, t := EliminateNext(elim0, decision0);
        TakenOne(takes, grow, clauseLim, old(eliminated), t);
        takes := takes + [t];
        if !r {
          return;
        }
      }
    }

    /** Queue the clauses on touched variables, and use the queue and the trail up if there is anything to use. */
    method SubsumeTouched() returns (r: bool)
      requires solver.ok && Working()
      modifies solver`orig, solver`assigns, solver`trail, solver`level, solver`reason, solver`pos, solver`ca, solver`watches,
               solver`qhead, solver`dirty, solver`dirties, solver`loose, `dirtyOcc, `elimHeap, `occurs, `abs, `queue, `touched, `bwdsubAssigns, `used
      ensures if r then solver.ok && Working() && queue == [] && bwdsubAssigns == |solver.trail| else Ready() && Unsat(orig) && Unsat(solver.orig)
      ensures touched == {} && old(elimHeap) <= elimHeap && TotalLits(solver.ca) <= TotalLits(old(solver.ca))
      ensures r ==> TouchedAlone(old(touched), solver.ca, subsumptionLim)
    {
      hide Shape, Sizes, RecordsGood, InRange, Reduces, Unsat, TotalLits, Equivalent, Contradictory, NoneAssigned, Mentioned, Progressed, TouchedAlone;
      GatherTouched();
      SizesHere();
      r := true;
      ghost var ca0, t0, queue0 := solver.ca, solver.trail, queue;
      ProgressedSelf(ca0, queue0, subsumptionLim);
      if queue != [] || bwdsubAssigns < |solver.trail| {
        r := BackwardSubsumptionCheck();
        CheckKeeps(orig, recs, ca0, t0, solver.ca, solver.trail, r);
      }
      if r {
        TouchedProgressed(old(touched), ca0, queue0, solver.ca, subsumptionLim);
      }
    }

    /**
     Subsumption for the touched clauses, then elimination of the variables in the order. In the database in between,
     no clause on a variable that was touched subsumes or strengthens another.
     */
    method EliminateRound(ghost elim0: seq<bool>, ghost decision0: seq<bool>) returns (r: bool, ghost takes: seq<Take>, ghost mid: seq<Clause>)
      requires solver.ok && Working() && Fewer(elim0, decision0)
      modifies solver`orig, solver`assigns, solver`trail, solver`level, solver`reason, solver`pos, solver`ca, solver`watches,
               solver`qhead, solver`dirty, solver`dirties, solver`ok, solver`clauses, solver`trailLim, solver`orderHeap, solver`probing,
               solver`loose, solver`decision, `dirtyOcc, `elimHeap, `occurs, `abs, `queue, `touched, `bwdsubAssigns, `used,
               `eliminated, `elimclauses, `recs
      ensures Fewer(elim0, decision0) && (if r then solver.ok && Working() && queue == [] else Ready() && Unsat(orig) && Unsat(solver.orig))
      ensures r ==> elimHeap == {} && bwdsubAssigns == |solver.trail|
      ensures r ==> TouchedAlone(old(touched), mid, subsumptionLim) && mid == if takes == [] then solver.ca else takes[0].ca
      ensures TakesOk(takes, grow, clauseLim, old(eliminated), eliminated) && (r ==> old(elimHeap) <= Taken(takes))
      ensures r && VarsLeft(eliminated) >= VarsLeft(old(eliminated)) ==>
                eliminated == old(eliminated) && TotalLits(solver.ca) <= TotalLits(old(solver.ca)) && touched == {}
    {
      hide TakeOk, TakesOk, Taken, Shape, Sizes, RecordsGood, InRange, Reduces, Unsat, TotalLits, VarsLeft, TouchedAlone;
      takes := [];
      NothingTaken(grow, clauseLim, eliminated);
      r := SubsumeTouched();
      mid := solver.ca;
      if r {
        r, takes := EliminateInOrder(elim0, decision0);
      }
    }

    /** Rounds until nothing is touched, queued or in the order. */
    method EliminateRounds(ghost elim0: seq<bool>, ghost decision0: seq<bool>) returns (r: bool, ghost takes: seq<Take>)
      requires solver.ok && Working() && Fewer(elim0, decision0) && (touched == {} ==> queue == [])
      modifies solver`orig, solver`assigns, solver`trail, solver`level, solver`reason, solver`pos, solver`ca, solver`watches,
               solver`qhead, solver`dirty, solver`dirties, solver`ok, solver`clauses, solver`trailLim, solver`orderHeap, solver`probing,
               solver`loose, solver`decision, `dirtyOcc, `elimHeap, `occurs, `abs, `queue, `touched, `bwdsubAssigns, `used,
               `eliminated, `elimclauses, `recs
      ensures Fewer(elim0, decision0) && (if r then solver.ok && Working() && queue == [] else Ready() && Unsat(orig) && Unsat(solver.orig))
      ensures TakesOk(takes, grow, clauseLim, old(eliminated), eliminated) && (r ==> old(elimHeap) <= Taken(takes))
      ensures r ==> touched == {} && elimHeap == {} && |solver.trail| <= bwdsubAssigns
    {
      hide TakeOk, TakesOk, Taken, Shape, Sizes, RecordsGood, InRange, Reduces, Unsat, TotalLits, VarsLeft, TouchedAlone;
      r, takes := true, [];
      NothingTaken(grow, clauseLim, eliminated);
      while r && (touched != {} || bwdsubAssigns < |solver.trail| || elimHeap != {})
        invariant Fewer(elim0, decision0)
        invariant if r then solver.ok && Working() && (touched == {} ==> queue == []) else Ready() && Unsat(orig) && Unsat(solver.orig)
        invariant TakesOk(takes, grow, clauseLim, old(eliminated), eliminated) && (r ==> old(elimHeap) <= elimHeap + Taken(takes))
        decreases r, VarsLeft(eliminated), TotalLits(solver.ca),
                  if touched == {} && elimHeap == {} && bwdsubAssigns == |solver.trail| then 0 else 1
      {
        ghost var more, mid, elim1 := [], [], eliminated;
        r, more, mid := EliminateRound(elim0, decision0);
        TakenMore(takes, more, grow, clauseLim, old(eliminated), elim1, eliminated);
        takes := takes + more;
      }
    }

    /**
     Rounds of subsumption and elimination until nothing is touched, queued or left in the order; frozen variables are
     not eliminated. It terminates: every round that is not the last eliminates a variable or removes literals. What became
     of each variable taken from the order is noted; every one that was in it at first is among them.
     */
    method Eliminate() returns (r: bool, ghost takes: seq<Take>)
      requires Consistent()
      modifies solver`orig, solver`assigns, solver`trail, solver`level, solver`reason, solver`pos, solver`ca, solver`watches,
               solver`qhead, solver`dirty, solver`dirties, solver`ok, solver`clauses, solver`trailLim, solver`orderHeap, solver`probing,
               solver`loose, solver`decision, `dirtyOcc, `elimHeap, `occurs, `abs, `queue, `touched, `bwdsubAssigns, `used,
               `eliminated, `elimclauses, `recs
      ensures Consistent() && r == solver.ok && Fewer(old(eliminated), old(solver.decision))
      ensures TakesOk(takes, grow, clauseLim, old(eliminated), eliminated) && (r ==> old(elimHeap) <= Taken(takes))
      ensures r ==> touched == {} && elimHeap == {} && queue == [] && bwdsubAssigns == |solver.trail|
    {
      hide TakesOk, Taken, Shape, Sizes, RecordsGood, InRange, Reduces, Unsat, solver.Listed;
      takes := [];
      NothingTaken(grow, clauseLim, eliminated);
      if !solver.ok {
        return false, [];
      }
      r := Simplify();
      if r {
        r, takes := EliminateRounds(old(eliminated), old(solver.decision));
      }
      if r {
        BwdBound();
        CleanUpClauses();
        SizesHere();
      } else {
        solver.ok := false;
      }
    }

    /** Propagate once more and rebuild the order of decision variables; there are no learnt clauses to remove. */
    method Simplify() returns (r: bool)
      requires solver.ok && Consistent()
      modifies solver`orig, solver`assigns, solver`trail, solver`level, solver`reason, solver`pos, solver`ca, solver`watches,
               solver`qhead, solver`dirty, solver`dirties, solver`orderHeap
      ensures solver.ok && eliminated == old(eliminated)
      ensures if r then Working() && (touched == {} ==> queue == []) else Ready() && Unsat(orig) && Unsat(solver.orig)
    {
      hide Tables, Agenda, ListedOnce, Pending, solver.Running, Unsat, Explained, TrailInv, ReasonInv, Reworked, StandsFor, RecordsGood, InRange, Reduces, Equivalent, Contradictory;
      ghost var a, ca0 := solver.A(), solver.ca;
      Stands();
      var conflict := solver.PropagateTop();
      r := !conflict;
      if r {
        Stands();
        solver.RunningParts();
        TablesPropagated(eliminated, a, ca0, occurs, dirtyOcc, abs, solver.A(), solver.ca, []);
        AgendaPropagated(queue, used, ca0, a.trail, subsumptionLim, solver.loose, solver.ca, solver.trail);
        StillListed(ca0, solver.ca, solver.clauses);
      }
      SameFormula(solver.orig, ca0, a.trail, solver.ca, solver.trail);
      CheckKeeps(orig, recs, ca0, a.trail, solver.ca, solver.trail, r);
      if r {
        solver.RestoreOrder();
      }
    }

    // ---------- handing over to the search ----------

    /** Between calls the solver itself is in order, with every clause watched properly. */
    lemma SolverConsistent()
      requires Consistent() && solver.ok
      ensures solver.Consistent()
    {
    }

    /** Describe the solver's state by its own clauses and units; these do not mention eliminated variables. */
    ghost method Describe()
      requires Consistent() && solver.ok
      modifies solver`orig
      ensures Consistent() && solver.ok && StandsFor(solver.orig, solver.ca, solver.trail)
      ensures forall c, p :: c in solver.orig && p in c ==> p.v < |eliminated| && !eliminated[p.v]
    {
      hide DbGood, TrailGood, OccGood, AbsGood, Agenda, ListedOnce, Pending, Reduces, RecordsGood, InRange, solver.Running, solver.Listed, Formula, StandsFor;
      ListCount();
      FormulaSound(solver.ca, solver.A());
      FormulaStands(solver.ca, solver.trail);
      FormulaVarsLeft(eliminated, solver.assigns, solver.ca, solver.trail);
      solver.Restate(Formula(solver.ca, solver.trail));
    }

    /**
     Extend the values found for the remaining variables: if they satisfy the current clauses, the result satisfies
     every clause ever added. Variables that were not eliminated, among them all assumptions, keep their value.
     */
    method ExtendModel()
      requires solver.ok && Consistent() && ModelOfNow(solver.model, eliminated, solver.ca, solver.trail)
      modifies solver`model
      ensures |solver.model| == |eliminated| && forall c :: c in orig ==> TrueIn(solver.model, c)
      ensures forall u :: 0 <= u < |solver.model| && !eliminated[u] ==> solver.model[u] == old(solver.model)[u]
    {
      ExtendedModel(orig, recs, eliminated, elimclauses, solver.ca, solver.trail, solver.model);
      solver.model := ExtendValues(elimclauses, solver.model, recs);
    }
  }
}
