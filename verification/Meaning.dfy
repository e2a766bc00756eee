/**
 What the solver's state means for the clauses that were added: the live clauses and the top-level
 assignment follow from them, and together imply them again.
 */
module Meaning {
  import opened Literals
  import opened Assignment

  ghost predicate SatDb(m: Model, ca: seq<Clause>) {
    forall r :: 0 <= r < |ca| && !ca[r].deleted ==> Sat(m, ca[r].lits)
  }

  ghost predicate SatProblem(m: Model, ca: seq<Clause>) {
    forall r :: 0 <= r < |ca| && !ca[r].deleted && !ca[r].learnt ==> Sat(m, ca[r].lits)
  }

  ghost predicate TopTrue(m: Model, a: Asg) {
    forall i :: 0 <= i < Top(a) && i < |a.trail| ==> Holds(m, a.trail[i])
  }

  /** The facts that conflict analysis resolves with. */
  ghost predicate Facts(m: Model, ca: seq<Clause>, a: Asg) {
    SatDb(m, ca) && TopTrue(m, a)
  }

  ghost predicate Implied(orig: seq<seq<Lit>>, ca: seq<Clause>, a: Asg) {
    forall m: Model :: SatAll(m, orig) ==> Facts(m, ca, a)
  }

  ghost predicate Preserved(orig: seq<seq<Lit>>, ca: seq<Clause>, a: Asg) {
    forall m: Model :: SatProblem(m, ca) && TopTrue(m, a) ==> SatAll(m, orig)
  }

  ghost predicate Mentions(orig: seq<seq<Lit>>, p: Lit) {
    exists c :: c in orig && p in c
  }

  /** Problem clauses only use literals of the clauses that were added. */
  ghost predicate FromOrig(orig: seq<seq<Lit>>, ca: seq<Clause>) {
    forall r, k :: 0 <= r < |ca| && !ca[r].deleted && !ca[r].learnt && 0 <= k < |ca[r].lits| ==> Mentions(orig, ca[r].lits[k])
  }

  ghost predicate Sound(orig: seq<seq<Lit>>, ca: seq<Clause>, a: Asg) {
    Implied(orig, ca, a) && Preserved(orig, ca, a) && FromOrig(orig, ca)
  }

  lemma ReorderKeepsMeaning(orig: seq<seq<Lit>>, ca: seq<Clause>, a: Asg, r: CRef, d: Clause)
    requires r < |ca| && Sound(orig, ca, a)
    requires SameElements(ca[r].lits, d.lits) && ca[r].deleted == d.deleted && ca[r].learnt == d.learnt
    ensures Sound(orig, ca[r := d], a)
  {
    var ca' := ca[r := d];
    forall m: Model ensures SatDb(m, ca) == SatDb(m, ca') && SatProblem(m, ca) == SatProblem(m, ca') {
      SatSameElements(m, ca[r].lits, d.lits);
      if SatDb(m, ca') {
        forall x | 0 <= x < |ca| && !ca[x].deleted ensures Sat(m, ca[x].lits) {
          assert !ca'[x].deleted;
        }
      }
      if SatProblem(m, ca') {
        forall x | 0 <= x < |ca| && !ca[x].deleted && !ca[x].learnt ensures Sat(m, ca[x].lits) {
          assert !ca'[x].deleted;
        }
      }
    }
    forall x, k | 0 <= x < |ca'| && !ca'[x].deleted && !ca'[x].learnt && 0 <= k < |ca'[x].lits|
      ensures Mentions(orig, ca'[x].lits[k])
    {
      if x == r {
        assert d.lits[k] in d.lits;
        var j :| 0 <= j < |ca[r].lits| && ca[r].lits[j] == d.lits[k];
      }
    }
  }

  /** Enqueuing keeps the meaning; at level 0 the literal must follow from the clauses added. */
  lemma EnqueueKeepsMeaning(orig: seq<seq<Lit>>, ca: seq<Clause>, a: Asg, p: Lit, from: Option<CRef>)
    requires Sound(orig, ca, a) && TrailInv(a) && p.v < |a.assigns|
    requires a.lim == [] ==> forall m: Model :: SatAll(m, orig) ==> Holds(m, p)
    ensures Sound(orig, ca, Enqueue(a, p, from))
  {
    var b := Enqueue(a, p, from);
    forall m: Model | SatAll(m, orig) ensures Facts(m, ca, b) {
      assert Facts(m, ca, a);
      assert forall i :: 0 <= i < |a.trail| ==> b.trail[i] == a.trail[i];
    }
    forall m: Model | TopTrue(m, b) ensures TopTrue(m, a) {
      forall i | 0 <= i < Top(a) && i < |a.trail| ensures Holds(m, a.trail[i]) {
        assert b.trail[i] == a.trail[i];
      }
    }
  }

  /** The same top-level trail means the same facts. */
  lemma SameTopSameMeaning(orig: seq<seq<Lit>>, ca: seq<Clause>, a: Asg, b: Asg)
    requires Sound(orig, ca, a) && Top(a) == Top(b) <= |a.trail| && Top(b) <= |b.trail|
    requires forall i :: 0 <= i < Top(a) ==> a.trail[i] == b.trail[i]
    ensures Sound(orig, ca, b)
  {
  }

  /** At level 0 a false literal is refuted by the clauses added. */
  lemma FalseAtTop(ca: seq<Clause>, a: Asg, m: Model, q: Lit)
    requires TrailInv(a) && IsFalse(a, q) && a.level[q.v] == 0 && Facts(m, ca, a)
    ensures !Holds(m, q)
  {
    FalseOnTrail(a, q);
    LevelZero(a, q.v);
    assert Holds(m, a.trail[a.pos[q.v]]);
  }

  /** A clause with all but its first literal false at level 0 forces that literal. */
  lemma UnitAtTop(orig: seq<seq<Lit>>, ca: seq<Clause>, a: Asg, r: CRef)
    requires Sound(orig, ca, a) && TrailInv(a) && a.lim == [] && r < |ca| && !ca[r].deleted && |ca[r].lits| > 0
    requires forall k :: 1 <= k < |ca[r].lits| ==> IsFalse(a, ca[r].lits[k])
    ensures forall m: Model :: SatAll(m, orig) ==> Holds(m, ca[r].lits[0])
  {
    forall m: Model | SatAll(m, orig) ensures Holds(m, ca[r].lits[0]) {
      assert Sat(m, ca[r].lits);
      var q :| q in ca[r].lits && Holds(m, q);
      if q != ca[r].lits[0] {
        assert IsSet(a, q.v);
        FalseAtTop(ca, a, m, q);
      }
    }
  }

  /** A clause with all literals false at level 0 refutes the clauses added. */
  lemma ConflictAtTop(orig: seq<seq<Lit>>, ca: seq<Clause>, a: Asg, r: CRef)
    requires Sound(orig, ca, a) && TrailInv(a) && a.lim == [] && r < |ca| && !ca[r].deleted
    requires forall q :: q in ca[r].lits ==> IsFalse(a, q)
    ensures Unsat(orig)
  {
    forall m: Model ensures !SatAll(m, orig) {
      if SatAll(m, orig) {
        assert Facts(m, ca, a);
        assert Sat(m, ca[r].lits);
        var q :| q in ca[r].lits && Holds(m, q);
        assert IsSet(a, q.v);
        FalseAtTop(ca, a, m, q);
      }
    }
  }

  lemma DeleteLearntKeepsMeaning(orig: seq<seq<Lit>>, ca: seq<Clause>, a: Asg, r: CRef)
    requires Sound(orig, ca, a) && r < |ca| && ca[r].learnt
    ensures Sound(orig, ca[r := ca[r].(deleted := true)], a)
  {
    var ca' := ca[r := ca[r].(deleted := true)];
    forall m: Model ensures SatProblem(m, ca) == SatProblem(m, ca') && (SatDb(m, ca) ==> SatDb(m, ca')) {
      assert forall x :: 0 <= x < |ca| && x != r ==> ca'[x] == ca[x];
    }
  }

  /** A clause satisfied at level 0 is implied by the top-level assignment and may go. */
  lemma DeleteSatisfiedKeepsMeaning(orig: seq<seq<Lit>>, ca: seq<Clause>, a: Asg, r: CRef, q: Lit)
    requires Sound(orig, ca, a) && TrailInv(a) && a.lim == [] && r < |ca| && q in ca[r].lits && IsTrue(a, q)
    ensures Sound(orig, ca[r := ca[r].(deleted := true)], a)
  {
    var ca' := ca[r := ca[r].(deleted := true)];
    forall m: Model | SatDb(m, ca) ensures SatDb(m, ca') {
      assert forall x :: 0 <= x < |ca| && x != r ==> ca'[x] == ca[x];
    }
    forall m: Model | SatProblem(m, ca') && TopTrue(m, a) ensures SatProblem(m, ca) {
      TrueOnTrail(a, q);
      assert Holds(m, a.trail[a.pos[q.v]]);
      forall x | 0 <= x < |ca| && !ca[x].deleted && !ca[x].learnt ensures Sat(m, ca[x].lits) {
        if x != r {
          assert ca'[x] == ca[x];
        }
      }
    }
  }

  lemma AddLearntKeepsMeaning(orig: seq<seq<Lit>>, ca: seq<Clause>, a: Asg, c: Clause)
    requires Sound(orig, ca, a) && c.learnt && !c.deleted
    requires forall m: Model :: Facts(m, ca, a) ==> Sat(m, c.lits)
    ensures Sound(orig, ca + [c], a)
  {
    forall m: Model ensures SatProblem(m, ca) == SatProblem(m, ca + [c]) && (Facts(m, ca, a) ==> SatDb(m, ca + [c])) {
      assert forall x :: 0 <= x < |ca| ==> (ca + [c])[x] == ca[x];
    }
  }

  /** The normal form of an added clause: equivalent to it once the top-level assignment is known. */
  ghost predicate NormalOf(ps: seq<Lit>, c: seq<Lit>, a: Asg) {
    && (forall q :: q in c ==> q in ps)
    && (forall q :: q in ps && q !in c ==> IsFalse(a, q))
  }

  lemma AddedEntailed(orig: seq<seq<Lit>>, ps: seq<Lit>)
    ensures forall m: Model :: SatAll(m, orig + [ps]) <==> SatAll(m, orig) && Sat(m, ps)
  {
  }

  lemma NormalEquivalent(ca: seq<Clause>, a: Asg, ps: seq<Lit>, c: seq<Lit>, m: Model)
    requires TrailInv(a) && a.lim == [] && NormalOf(ps, c, a) && TopTrue(m, a)
    ensures Sat(m, ps) <==> Sat(m, c)
  {
    if Sat(m, ps) {
      var q :| q in ps && Holds(m, q);
      if q !in c {
        FalseOnTrail(a, q);
        assert false;
      }
    }
  }

  lemma AddProblemKeepsMeaning(orig: seq<seq<Lit>>, ca: seq<Clause>, a: Asg, ps: seq<Lit>, c: Clause)
    requires Sound(orig, ca, a) && TrailInv(a) && a.lim == [] && !c.learnt && !c.deleted && NormalOf(ps, c.lits, a)
    ensures Sound(orig + [ps], ca + [c], a)
  {
    AddedEntailed(orig, ps);
    var ca' := ca + [c];
    assert forall x :: 0 <= x < |ca| ==> ca'[x] == ca[x];
    forall m: Model | SatAll(m, orig + [ps]) ensures Facts(m, ca', a) {
      assert Facts(m, ca, a);
      NormalEquivalent(ca, a, ps, c.lits, m);
    }
    forall m: Model | SatProblem(m, ca') && TopTrue(m, a) ensures SatAll(m, orig + [ps]) {
      assert ca'[|ca|] == c;
      forall x | 0 <= x < |ca| && !ca[x].deleted && !ca[x].learnt ensures Sat(m, ca[x].lits) {
        assert ca'[x] == ca[x];
      }
      NormalEquivalent(ca, a, ps, c.lits, m);
    }
    MentionsGrow(orig, ps);
  }

  lemma MentionsGrow(orig: seq<seq<Lit>>, ps: seq<Lit>)
    ensures forall q :: Mentions(orig, q) ==> Mentions(orig + [ps], q)
    ensures forall q :: q in ps ==> Mentions(orig + [ps], q)
  {
    assert ps in orig + [ps];
    forall q | Mentions(orig, q) ensures Mentions(orig + [ps], q) {
      var c :| c in orig && q in c;
      assert c in orig + [ps];
    }
  }

  /** A clause that is already true at level 0, or a tautology, adds nothing. */
  lemma AddTrivialKeepsMeaning(orig: seq<seq<Lit>>, ca: seq<Clause>, a: Asg, ps: seq<Lit>)
    requires Sound(orig, ca, a) && TrailInv(a)
    requires forall m: Model :: TopTrue(m, a) ==> Sat(m, ps)
    ensures Sound(orig + [ps], ca, a)
  {
    AddedEntailed(orig, ps);
    MentionsGrow(orig, ps);
    forall m: Model | SatProblem(m, ca) && TopTrue(m, a) ensures SatAll(m, orig + [ps]) {
      assert SatAll(m, orig) && Sat(m, ps);
    }
  }

  // ---------- the database as a formula ----------

  ghost function LiveClauses(ca: seq<Clause>): seq<seq<Lit>> {
    if ca == [] then []
    else LiveClauses(ca[..|ca| - 1]) + if ca[|ca| - 1].deleted then [] else [ca[|ca| - 1].lits]
  }

  ghost function Units(trail: seq<Lit>): seq<seq<Lit>> {
    seq(|trail|, i requires 0 <= i < |trail| => [trail[i]])
  }

  /** The live clauses and the trail, as clauses. */
  ghost function Formula(ca: seq<Clause>, trail: seq<Lit>): seq<seq<Lit>> {
    LiveClauses(ca) + Units(trail)
  }

  lemma {:induction false} LiveClausesExact(ca: seq<Clause>)
    ensures forall c :: c in LiveClauses(ca) <==> exists r :: 0 <= r < |ca| && !ca[r].deleted && ca[r].lits == c
  {
    if ca != [] {
      var init, last := ca[..|ca| - 1], ca[|ca| - 1];
      LiveClausesExact(init);
      forall c | exists r :: 0 <= r < |ca| && !ca[r].deleted && ca[r].lits == c
        ensures c in LiveClauses(ca)
      {
        var r :| 0 <= r < |ca| && !ca[r].deleted && ca[r].lits == c;
        if r < |init| {
          assert init[r] == ca[r];
        }
      }
      forall c | c in LiveClauses(init) ensures exists r :: 0 <= r < |ca| && !ca[r].deleted && ca[r].lits == c {
        var r :| 0 <= r < |init| && !init[r].deleted && init[r].lits == c;
        assert ca[r] == init[r];
      }
    }
  }

  lemma FormulaMeans(m: Model, ca: seq<Clause>, trail: seq<Lit>)
    ensures SatAll(m, Formula(ca, trail)) <==> SatDb(m, ca) && forall i :: 0 <= i < |trail| ==> Holds(m, trail[i])
  {
    LiveClausesExact(ca);
    var f := Formula(ca, trail);
    if SatAll(m, f) {
      forall r | 0 <= r < |ca| && !ca[r].deleted ensures Sat(m, ca[r].lits) {
        assert ca[r].lits in f;
      }
      forall i | 0 <= i < |trail| ensures Holds(m, trail[i]) {
        assert Units(trail)[i] == [trail[i]] && [trail[i]] in f;
      }
    }
    if SatDb(m, ca) && forall i :: 0 <= i < |trail| ==> Holds(m, trail[i]) {
      forall c | c in f ensures Sat(m, c) {
        if c in Units(trail) {
          var i :| 0 <= i < |trail| && Units(trail)[i] == c;
          assert trail[i] in c;
        }
      }
    }
  }

  ghost predicate NoLearnts(ca: seq<Clause>) {
    forall r :: 0 <= r < |ca| && !ca[r].deleted ==> !ca[r].learnt
  }

  /** Without learnt clauses a database at level 0 stands for its own clauses and units. */
  lemma FormulaSound(ca: seq<Clause>, a: Asg)
    requires NoLearnts(ca) && a.lim == []
    ensures Sound(Formula(ca, a.trail), ca, a)
  {
    var f := Formula(ca, a.trail);
    LiveClausesExact(ca);
    forall m: Model ensures SatAll(m, f) <==> Facts(m, ca, a) {
      FormulaMeans(m, ca, a.trail);
    }
    forall r, k | 0 <= r < |ca| && !ca[r].deleted && 0 <= k < |ca[r].lits| ensures Mentions(f, ca[r].lits[k]) {
      assert ca[r].lits in f && ca[r].lits[k] in ca[r].lits;
    }
  }

  /** Whatever formula it is known to stand for has the same models. */
  lemma SoundExactly(orig: seq<seq<Lit>>, ca: seq<Clause>, a: Asg, m: Model)
    requires Sound(orig, ca, a) && a.lim == []
    ensures SatAll(m, orig) <==> SatDb(m, ca) && forall i :: 0 <= i < |a.trail| ==> Holds(m, a.trail[i])
  {
    assert SatDb(m, ca) ==> SatProblem(m, ca);
    assert SatAll(m, orig) ==> Facts(m, ca, a);
  }
}
