/** Reconstructing a model from values that leave variables open: exactly when every eliminated clause becomes true. */
module OpenValues {
  import Collections
  import opened Literals
  import opened Assignment
  import opened Resolution
  import opened Elimination
  import opened Meaning
  import SimpState
  import opened History

  ghost predicate Tautology(c: seq<Lit>) {
    exists p :: p in c && Neg(p) in c
  }

  /** Every clause that is not a tautology has a true literal. */
  ghost predicate AllTrue(values: seq<LBool>, f: seq<seq<Lit>>) {
    forall c :: c in f ==> TrueIn(values, c) || Tautology(c)
  }

  /** Another literal of the record than its first one is true. */
  ghost predicate OtherTrue(values: seq<LBool>, rec: seq<Lit>) {
    exists k :: 1 <= k < |rec| && TrueLit(values, rec[k])
  }

  ghost predicate OthersFalse(values: seq<LBool>, rec: seq<Lit>) {
    forall k :: 1 <= k < |rec| ==> FalseLit(values, rec[k])
  }

  /** The resolvent of the two clauses is a tautology or true. */
  ghost predicate TrueResolvent(values: seq<LBool>, s: seq<Lit>, t: seq<Lit>, v: Var) {
    Clash(s, t, v) || exists q :: q in ResolventSet(s, t, v) && TrueLit(values, q)
  }

  ghost predicate TrueResolvents(values: seq<LBool>, ss: seq<seq<Lit>>, ts: seq<seq<Lit>>, v: Var) {
    forall i, j :: 0 <= i < |ss| && 0 <= j < |ts| ==> TrueResolvent(values, ss[i], ts[j], v)
  }

  // ---------- one elimination ----------

  /** Clauses on a variable, the records of the side ss, and the default x, which satisfies the other side. */
  datatype Step = Step(ss: seq<seq<Lit>>, ts: seq<seq<Lit>>, more: seq<seq<Lit>>, x: Lit)

  ghost predicate StepOk(e: Step, n: nat) {
    && e.x.v < n && OnLit(e.ss, Neg(e.x)) && OnLit(e.ts, e.x) && |e.more| == |e.ss|
    && forall i :: 0 <= i < |e.ss| ==> RecordOf(e.more[i], e.ss[i], Neg(e.x))
  }

  ghost function StepRecords(e: Step): seq<seq<Lit>> {
    e.more + [[e.x]]
  }

  /** Some record is falsified, or every record is already true. */
  ghost predicate Settled(values: seq<LBool>, more: seq<seq<Lit>>) {
    (exists i :: 0 <= i < |more| && OthersFalse(values, more[i])) || forall i :: 0 <= i < |more| ==> OtherTrue(values, more[i])
  }

  ghost function SetTrue(values: seq<LBool>, p: Lit): seq<LBool>
    requires p.v < |values|
  {
    values[p.v := ValueOf(p.sign)]
  }

  ghost predicate SameValuesBut(values: seq<LBool>, values': seq<LBool>, v: Var) {
    |values| == |values'| && forall u :: 0 <= u < |values| && u != v ==> values[u] == values'[u]
  }

  lemma {:induction false} ReadRecords(values: seq<LBool>, values': seq<LBool>, recs: seq<seq<Lit>>, y: Lit)
    requires SameValuesBut(values, values', y.v) && y.v < |values| && forall i :: 0 <= i < |recs| ==> RecordFor(recs[i], y)
    ensures UndoValues(values', recs) == if exists i :: 0 <= i < |recs| && OthersFalse(values, recs[i]) then SetTrue(values', y) else values'
    decreases |recs|
  {
    if recs != [] {
      var init, last := recs[..|recs| - 1], recs[|recs| - 1];
      assert RecordFor(last, y);
      assert OthersFalse(values, last) == OthersFalse(values', last);
      ReadRecords(values, UndoValue(values', last), init, y);
      assert forall i :: 0 <= i < |init| ==> recs[i] == init[i];
    }
  }

  lemma LastRecord(values: seq<LBool>, e: Step)
    requires e.x.v < |values|
    ensures UndoValues(values, StepRecords(e)) == UndoValues(SetTrue(values, e.x), e.more)
  {
    assert StepRecords(e)[..|e.more|] == e.more;
    assert UndoValue(values, [e.x]) == SetTrue(values, e.x);
  }

  lemma RecordStarts(rec: seq<Lit>, c: seq<Lit>, y: Lit)
    requires RecordOf(rec, c, y)
    ensures RecordFor(rec, y)
  {
  }

  lemma SetTwice(values: seq<LBool>, p: Lit, q: Lit)
    requires p.v == q.v < |values|
    ensures |SetTrue(values, p)| == |values| && SetTrue(SetTrue(values, p), q) == SetTrue(values, q) && SameValuesBut(values, SetTrue(values, p), q.v)
  {
  }

  /** The value an elimination is undone to: the default unless some record is falsified. */
  lemma ReadStep(values: seq<LBool>, e: Step)
    requires StepOk(e, |values|)
    ensures UndoValues(values, StepRecords(e)) ==
            SetTrue(values, if exists i :: 0 <= i < |e.more| && OthersFalse(values, e.more[i]) then Neg(e.x) else e.x)
  {
    hide RecordOf, OthersFalse, OnLit, RecordFor, UndoValues, SetTrue;
    LastRecord(values, e);
    forall i | 0 <= i < |e.more| ensures RecordFor(e.more[i], Neg(e.x)) {
      RecordStarts(e.more[i], e.ss[i], Neg(e.x));
    }
    SetTwice(values, e.x, Neg(e.x));
    ReadRecords(values, SetTrue(values, e.x), e.more, Neg(e.x));
  }

  lemma TrueOther(values: seq<LBool>, c: seq<Lit>, rec: seq<Lit>, y: Lit, z: Lit)
    requires RecordOf(rec, c, y) && z.v == y.v && y.v < |values|
    ensures TrueIn(SetTrue(values, z), c) <==> z == y || OtherTrue(values, rec)
  {
    var values' := SetTrue(values, z);
    if TrueIn(values', c) && z != y {
      var p :| p in c && TrueLit(values', p);
      var k :| 0 <= k < |rec| && rec[k] == p;
    }
    if z == y {
      assert rec[0] in c;
    } else if OtherTrue(values, rec) {
      var k :| 1 <= k < |rec| && TrueLit(values, rec[k]);
      assert rec[k] in c;
    }
  }

  lemma OtherSideTrue(values: seq<LBool>, s: seq<Lit>, t: seq<Lit>, rec: seq<Lit>, x: Lit)
    requires RecordOf(rec, s, Neg(x)) && OthersFalse(values, rec) && TrueResolvent(values, s, t, x.v) && x.v < |values|
    ensures TrueIn(SetTrue(values, Neg(x)), t)
  {
    var q :| q in t && q.v != x.v && TrueLit(values, q);
  }

  lemma SideTrue(values: seq<LBool>, cs: seq<seq<Lit>>, y: Lit)
    requires OnLit(cs, y)
    ensures AllTrue(values, cs) <==> forall i :: 0 <= i < |cs| ==> TrueIn(values, cs[i])
  {
    forall i | 0 <= i < |cs| ensures !Tautology(cs[i]) {
      DistinctLits(cs[i]);
    }
  }

  /** A falsified record: the variable gets the value that satisfies its side, and the resolvents take care of the other. */
  lemma FalsifiedStep(values: seq<LBool>, e: Step, i: nat)
    requires StepOk(e, |values|) && TrueResolvents(values, e.ss, e.ts, e.x.v) && i < |e.more| && OthersFalse(values, e.more[i])
    ensures forall h :: 0 <= h < |e.ss| ==> TrueIn(SetTrue(values, Neg(e.x)), e.ss[h])
    ensures forall j :: 0 <= j < |e.ts| ==> TrueIn(SetTrue(values, Neg(e.x)), e.ts[j])
  {
    hide RecordOf, OthersFalse, TrueResolvent;
    forall h | 0 <= h < |e.ss| ensures TrueIn(SetTrue(values, Neg(e.x)), e.ss[h]) {
      TrueOther(values, e.ss[h], e.more[h], Neg(e.x), Neg(e.x));
    }
    forall j | 0 <= j < |e.ts| ensures TrueIn(SetTrue(values, Neg(e.x)), e.ts[j]) {
      OtherSideTrue(values, e.ss[i], e.ts[j], e.more[i], e.x);
    }
  }

  /** No falsified record: the default satisfies the other side, and this side is left to its other literals. */
  lemma DefaultStep(values: seq<LBool>, e: Step)
    requires StepOk(e, |values|)
    ensures forall h :: 0 <= h < |e.ss| ==> (TrueIn(SetTrue(values, e.x), e.ss[h]) <==> OtherTrue(values, e.more[h]))
    ensures forall j :: 0 <= j < |e.ts| ==> TrueIn(SetTrue(values, e.x), e.ts[j])
  {
    hide RecordOf, OtherTrue;
    forall h | 0 <= h < |e.ss| ensures TrueIn(SetTrue(values, e.x), e.ss[h]) <==> OtherTrue(values, e.more[h]) {
      TrueOther(values, e.ss[h], e.more[h], Neg(e.x), e.x);
    }
    forall j | 0 <= j < |e.ts| ensures TrueIn(SetTrue(values, e.x), e.ts[j]) {
      assert e.x in e.ts[j];
    }
  }

  /** With every resolvent true, undoing the elimination makes both sides true exactly if the step is settled by the values. */
  lemma SettledExactly(values: seq<LBool>, e: Step)
    requires StepOk(e, |values|) && TrueResolvents(values, e.ss, e.ts, e.x.v)
    ensures AllTrue(UndoValues(values, StepRecords(e)), e.ss) && AllTrue(UndoValues(values, StepRecords(e)), e.ts)
            <==> Settled(values, e.more)
  {
    hide RecordOf, OthersFalse, OtherTrue, TrueResolvents, TrueIn, OnLit, UndoValues, SetTrue, AllTrue;
    ReadStep(values, e);
    SideTrue(UndoValues(values, StepRecords(e)), e.ss, Neg(e.x));
    SideTrue(UndoValues(values, StepRecords(e)), e.ts, e.x);
    if i :| 0 <= i < |e.more| && OthersFalse(values, e.more[i]) {
      FalsifiedStep(values, e, i);
    } else {
      DefaultStep(values, e);
    }
  }

  /** When all other literals of the records have a value, the step is settled. */
  lemma ValuesSettle(values: seq<LBool>, more: seq<seq<Lit>>)
    requires forall i, k :: 0 <= i < |more| && 1 <= k < |more[i]| ==> more[i][k].v < |values| && values[more[i][k].v] != LUndef
    ensures Settled(values, more)
  {
    if i :| 0 <= i < |more| && !OtherTrue(values, more[i]) {
      forall k | 1 <= k < |more[i]| ensures FalseLit(values, more[i][k]) {
        assert !TrueLit(values, more[i][k]);
      }
      assert OthersFalse(values, more[i]);
    }
  }

  // ---------- a sequence of eliminations ----------

  /** A clause set is simplified without changing which values make it true, or a variable is eliminated from it. */
  datatype Change = Rewrite | Eliminate(e: Step, rest: seq<seq<Lit>>)

  ghost predicate SameTruth(f: seq<seq<Lit>>, g: seq<seq<Lit>>) {
    forall values: seq<LBool> :: AllTrue(values, f) <==> AllTrue(values, g)
  }

  ghost predicate Free(rest: seq<seq<Lit>>, v: Var) {
    forall c, p :: c in rest && p in c ==> p.v != v
  }

  /** The clauses of both sides have been replaced by their resolvents that are no tautologies. */
  ghost predicate Eliminated(f: seq<seq<Lit>>, e: Step, rest: seq<seq<Lit>>, g: seq<seq<Lit>>) {
    && (forall c :: c in f <==> c in rest || c in e.ss || c in e.ts) && Free(rest, e.x.v)
    && (forall c :: c in rest ==> c in g)
    && (forall i, j :: 0 <= i < |e.ss| && 0 <= j < |e.ts| && !Clash(e.ss[i], e.ts[j], e.x.v) ==>
          exists c :: c in g && IsResolvent(e.ss[i], e.ts[j], e.x.v, c))
    && (forall c :: c in g && c !in rest ==>
          exists i, j :: 0 <= i < |e.ss| && 0 <= j < |e.ts| && IsResolvent(e.ss[i], e.ts[j], e.x.v, c))
  }

  ghost predicate Changes(f: seq<seq<Lit>>, s: Change, g: seq<seq<Lit>>, n: nat) {
    match s
    case Rewrite => SameTruth(f, g)
    case Eliminate(e, rest) => StepOk(e, n) && Eliminated(f, e, rest, g)
  }

  /** The clause sets fs[0], fs[1], ... of a simplification. */
  ghost predicate Chain(fs: seq<seq<seq<Lit>>>, steps: seq<Change>, n: nat) {
    |fs| == |steps| + 1 && forall k :: 0 <= k < |steps| ==> Changes(fs[k], steps[k], fs[k + 1], n)
  }

  ghost function Records(steps: seq<Change>): seq<seq<Lit>> {
    if steps == [] then []
    else
      var s := steps[|steps| - 1];
      Records(steps[..|steps| - 1]) + if s.Rewrite? then [] else StepRecords(s.e)
  }

  /** Every elimination is settled by the values found when it is undone, the last one first. */
  ghost predicate AllSettled(steps: seq<Change>, values: seq<LBool>)
    decreases |steps|
  {
    steps == [] ||
    var init := steps[..|steps| - 1];
    match steps[|steps| - 1]
    case Rewrite => AllSettled(init, values)
    case Eliminate(e, _) => Settled(values, e.more) && AllSettled(init, UndoValues(values, StepRecords(e)))
  }

  lemma {:induction false} UndoValuesAppend(values: seq<LBool>, first: seq<seq<Lit>>, second: seq<seq<Lit>>)
    ensures UndoValues(values, first + second) == UndoValues(UndoValues(values, second), first)
    decreases |second|
  {
    if second == [] {
      assert first + second == first;
    } else {
      var init, last := second[..|second| - 1], second[|second| - 1];
      assert (first + second)[..|first + second| - 1] == first + init;
      UndoValuesAppend(UndoValue(values, last), first, init);
    }
  }

  lemma FreeSame(values: seq<LBool>, values': seq<LBool>, rest: seq<seq<Lit>>, v: Var)
    requires SameValuesBut(values, values', v) && Free(rest, v)
    ensures AllTrue(values, rest) <==> AllTrue(values', rest)
  {
    forall c | c in rest ensures TrueIn(values, c) <==> TrueIn(values', c) {
      forall p | p in c ensures TrueLit(values, p) <==> TrueLit(values', p) {
      }
    }
  }

  lemma ResolventTrue(values: seq<LBool>, s: seq<Lit>, t: seq<Lit>, v: Var, c: seq<Lit>)
    requires IsResolvent(s, t, v, c)
    ensures TrueIn(values, c) <==> exists q :: q in ResolventSet(s, t, v) && TrueLit(values, q)
    ensures !Tautology(c)
  {
    DistinctLits(c);
  }

  /** After an elimination all clauses are true exactly if the rest and all resolvents are. */
  lemma EliminatedTruth(f: seq<seq<Lit>>, e: Step, rest: seq<seq<Lit>>, g: seq<seq<Lit>>, values: seq<LBool>)
    requires Eliminated(f, e, rest, g)
    ensures AllTrue(values, g) <==> AllTrue(values, rest) && TrueResolvents(values, e.ss, e.ts, e.x.v)
  {
    if AllTrue(values, g) {
      forall i, j | 0 <= i < |e.ss| && 0 <= j < |e.ts| ensures TrueResolvent(values, e.ss[i], e.ts[j], e.x.v) {
        if !Clash(e.ss[i], e.ts[j], e.x.v) {
          var c :| c in g && IsResolvent(e.ss[i], e.ts[j], e.x.v, c);
          ResolventTrue(values, e.ss[i], e.ts[j], e.x.v, c);
        }
      }
    }
    if AllTrue(values, rest) && TrueResolvents(values, e.ss, e.ts, e.x.v) {
      forall c | c in g && c !in rest ensures TrueIn(values, c) {
        var i, j :| 0 <= i < |e.ss| && 0 <= j < |e.ts| && IsResolvent(e.ss[i], e.ts[j], e.x.v, c);
        ResolventTrue(values, e.ss[i], e.ts[j], e.x.v, c);
        assert TrueResolvent(values, e.ss[i], e.ts[j], e.x.v);
        ClashTautology(e.ss[i], e.ts[j], e.x.v, c);
      }
    }
  }

  lemma ClashTautology(s: seq<Lit>, t: seq<Lit>, v: Var, c: seq<Lit>)
    requires IsResolvent(s, t, v, c)
    ensures !Clash(s, t, v)
  {
    DistinctLits(c);
    if q :| q in t && q.v != v && Neg(q) in s {
      assert q in ResolventSet(s, t, v) && Neg(q) in ResolventSet(s, t, v);
      assert q in c && Neg(q) in c;
    }
  }

  /** Values that make both sides true and decide the variable make the resolvents true without it. */
  lemma SidesForceResolvents(values: seq<LBool>, values': seq<LBool>, e: Step)
    requires StepOk(e, |values|) && SameValuesBut(values, values', e.x.v)
    requires AllTrue(values', e.ss) && AllTrue(values', e.ts)
    ensures TrueResolvents(values, e.ss, e.ts, e.x.v)
  {
    SideTrue(values', e.ss, Neg(e.x));
    SideTrue(values', e.ts, e.x);
    forall i, j | 0 <= i < |e.ss| && 0 <= j < |e.ts| ensures TrueResolvent(values, e.ss[i], e.ts[j], e.x.v) {
      DistinctLits(e.ss[i]);
      DistinctLits(e.ts[j]);
      var p :| p in e.ss[i] && TrueLit(values', p);
      var q :| q in e.ts[j] && TrueLit(values', q);
      var r := if p.v == e.x.v then q else p;
      assert r.v != e.x.v && r in ResolventSet(e.ss[i], e.ts[j], e.x.v) && TrueLit(values, r);
    }
  }

  /** Undoing one change: what is true before it was also true after it, and the other way round if it is settled. */
  lemma OneChange(f: seq<seq<Lit>>, s: Change, g: seq<seq<Lit>>, values: seq<LBool>)
    requires Changes(f, s, g, |values|) && s.Eliminate?
    ensures var before := UndoValues(values, StepRecords(s.e));
            && (AllTrue(before, f) ==> AllTrue(values, g))
            && (AllTrue(values, g) ==> (AllTrue(before, f) <==> Settled(values, s.e.more)))
  {
    var e, before := s.e, UndoValues(values, StepRecords(s.e));
    ReadStep(values, e);
    FreeSame(values, before, s.rest, e.x.v);
    EliminatedTruth(f, e, s.rest, g, values);
    assert AllTrue(before, f) <==> AllTrue(before, s.rest) && AllTrue(before, e.ss) && AllTrue(before, e.ts);
    if AllTrue(before, f) {
      SidesForceResolvents(values, before, e);
    }
    if AllTrue(values, g) {
      SettledExactly(values, e);
    }
  }

  lemma {:induction false} TruthStays(fs: seq<seq<seq<Lit>>>, steps: seq<Change>, values: seq<LBool>)
    requires Chain(fs, steps, |values|)
    ensures AllTrue(UndoValues(values, Records(steps)), fs[0]) ==> AllTrue(values, fs[|steps|])
    decreases |steps|
  {
    if steps != [] {
      var k := |steps| - 1;
      var s, init := steps[k], steps[..k];
      assert Changes(fs[k], s, fs[k + 1], |values|);
      if s.Rewrite? {
        TruthStays(fs[..k + 1], init, values);
        assert Records(steps) == Records(init);
      } else {
        UndoValuesAppend(values, Records(init), StepRecords(s.e));
        TruthStays(fs[..k + 1], init, UndoValues(values, StepRecords(s.e)));
        OneChange(fs[k], s, fs[k + 1], values);
      }
    }
  }

  /**
   Values that make the clauses left true, with any variables open, become values that make all clauses true at the
   start exactly if each elimination is settled when its records are read.
   */
  lemma {:induction false} ReconstructedExactly(fs: seq<seq<seq<Lit>>>, steps: seq<Change>, values: seq<LBool>)
    requires Chain(fs, steps, |values|) && AllTrue(values, fs[|steps|])
    ensures AllTrue(UndoValues(values, Records(steps)), fs[0]) <==> AllSettled(steps, values)
    decreases |steps|
  {
    hide AllTrue, Settled, StepRecords, Eliminated, StepOk;
    if steps != [] {
      var k := |steps| - 1;
      var s, init := steps[k], steps[..k];
      assert Changes(fs[k], s, fs[k + 1], |values|);
      if s.Rewrite? {
        ReconstructedExactly(fs[..k + 1], init, values);
        assert Records(steps) == Records(init);
      } else {
        var before := UndoValues(values, StepRecords(s.e));
        UndoValuesAppend(values, Records(init), StepRecords(s.e));
        OneChange(fs[k], s, fs[k + 1], values);
        if AllTrue(before, fs[k]) {
          ReconstructedExactly(fs[..k + 1], init, before);
        } else {
          TruthStays(fs[..k + 1], init, before);
        }
      }
    }
  }

  // ---------- what simplifications between eliminations keep ----------

  lemma MoreTruth(values: seq<LBool>, f: seq<seq<Lit>>, c: seq<Lit>)
    ensures AllTrue(values, f + [c]) <==> AllTrue(values, f) && (TrueIn(values, c) || Tautology(c))
  {
    assert c in f + [c];
  }

  /** A subsumed clause may go. */
  lemma SubsumedSame(f: seq<seq<Lit>>, c: seq<Lit>, d: seq<Lit>)
    requires c in f && Included(c, d)
    ensures SameTruth(f + [d], f)
  {
    forall values: seq<LBool> ensures AllTrue(values, f + [d]) <==> AllTrue(values, f) {
      MoreTruth(values, f, d);
    }
  }

  /** Subsumption resolution: c is included in d but for the sign of p, so the negation of p may be dropped from d. */
  lemma StrengthenedSame(f: seq<seq<Lit>>, c: seq<Lit>, d: seq<Lit>, p: Lit, d': seq<Lit>)
    requires c in f && IncludedBut(c, d, p) && Distinct(c) && Distinct(d) && forall q :: q in d' <==> q in d && q != Neg(p)
    ensures SameTruth(f + [d], f + [d'])
  {
    DistinctLits(c);
    DistinctLits(d);
    forall values: seq<LBool> ensures AllTrue(values, f + [d]) <==> AllTrue(values, f + [d']) {
      MoreTruth(values, f, d);
      MoreTruth(values, f, d');
      if AllTrue(values, f) && TrueIn(values, d) {
        var q :| q in d && TrueLit(values, q);
        var r :| r in c && TrueLit(values, r);
        assert if q == Neg(p) then r in d' else q in d';
      }
    }
  }

  /** A unit found by propagation: the other literals of c are false in the units before it. */
  lemma UnitSame(f: seq<seq<Lit>>, c: seq<Lit>, q: Lit)
    requires c in f && q in c && !Tautology(c) && forall p :: p in c && p != q ==> [Neg(p)] in f
    ensures SameTruth(f, f + [[q]])
  {
    forall values: seq<LBool> ensures AllTrue(values, f) <==> AllTrue(values, f + [[q]]) {
      MoreTruth(values, f, [q]);
      if AllTrue(values, f) {
        var p :| p in c && TrueLit(values, p);
        if p != q {
          assert TrueIn(values, [Neg(p)]) || Tautology([Neg(p)]);
        }
      }
    }
  }

  // ---------- an input on which a value left open matters ----------

  /** "not 3, or 0", "3 or 1" and "3 or 2", before and after the elimination of variable 3. */
  ghost function ExampleAdded(): seq<seq<Lit>> {
    [[Lit(3, true), Lit(0, false)], [Lit(3, false), Lit(1, false)], [Lit(3, false), Lit(2, false)]]
  }

  ghost function ExampleLeft(): seq<seq<Lit>> {
    [[Lit(1, false), Lit(0, false)], [Lit(2, false), Lit(0, false)]]
  }

  /** The smaller side is recorded, and the default satisfies the other one. */
  ghost function ExampleStep(): Step {
    Step([ExampleAdded()[0]], [ExampleAdded()[1], ExampleAdded()[2]], [[Lit(3, true), Lit(0, false)]], Lit(3, false))
  }

  ghost function StoredAs(f: seq<seq<Lit>>, deleted: bool): seq<Clause> {
    seq(|f|, i requires 0 <= i < |f| => Clause(f[i], false, deleted))
  }

  lemma StoredMeans(f: seq<seq<Lit>>, m: Model)
    ensures SatDb(m, StoredAs(f, false)) <==> SatAll(m, f)
    ensures SatDb(m, StoredAs(f, true))
  {
    if SatAll(m, f) {
      forall r | 0 <= r < |f| ensures Sat(m, StoredAs(f, false)[r].lits) {
        assert f[r] in f;
      }
    }
    if SatDb(m, StoredAs(f, false)) {
      forall c | c in f ensures Sat(m, c) {
        var r :| 0 <= r < |f| && f[r] == c;
        assert Sat(m, StoredAs(f, false)[r].lits);
      }
    }
  }

  /** The two resolvents are as the code computes them. */
  lemma ExampleResolvents()
    ensures var e := ExampleStep(); IsResolvent(e.ss[0], e.ts[0], 3, ExampleLeft()[0]) && IsResolvent(e.ss[0], e.ts[1], 3, ExampleLeft()[1])
    ensures !Clash(ExampleStep().ss[0], ExampleStep().ts[0], 3) && !Clash(ExampleStep().ss[0], ExampleStep().ts[1], 3)
  {
    var e := ExampleStep();
    assert ResolventSet(e.ss[0], e.ts[0], 3) == {Lit(1, false), Lit(0, false)};
    assert ResolventSet(e.ss[0], e.ts[1], 3) == {Lit(2, false), Lit(0, false)};
  }

  /** Three clauses become two of length two, so with no growth allowed and clauses up to 20 the variable is eliminated. */
  lemma ExampleFits()
    ensures Fits(ExampleStep().ts, ExampleStep().ss, 3, 3, 20)
  {
    var e := ExampleStep();
    Collections.SubsetSize(OpenPairs(e.ts, e.ss, 3), {(0, 0), (1, 0)});
    assert ResolventSet(e.ts[0], e.ss[0], 3) == {Lit(1, false), Lit(0, false)};
    assert ResolventSet(e.ts[1], e.ss[0], 3) == {Lit(2, false), Lit(0, false)};
  }

  lemma ExampleEliminated()
    ensures StepOk(ExampleStep(), 4) && Eliminated(ExampleAdded(), ExampleStep(), [], ExampleLeft())
  {
    ExampleResolvents();
    var e := ExampleStep();
    assert ExampleAdded()[0] in e.ss && ExampleAdded()[1] in e.ts && ExampleAdded()[2] in e.ts;
    assert ExampleLeft()[0] in ExampleLeft() && ExampleLeft()[1] in ExampleLeft();
    assert RecordOf(e.more[0], e.ss[0], Lit(3, true));
  }

  lemma ResolventMeans(m: Model, s: seq<Lit>, t: seq<Lit>, v: Var, c: seq<Lit>)
    requires IsResolvent(s, t, v, c) && !Clash(s, t, v)
    ensures SatResolvent(m, s, t, v) <==> Sat(m, c)
  {
  }

  /** One clause on one side and two on the other: what the clauses and their resolvents mean. */
  lemma TwoResolvents(m: Model, s: seq<Lit>, t: seq<Lit>, t': seq<Lit>, v: Var, c: seq<Lit>, c': seq<Lit>)
    requires IsResolvent(s, t, v, c) && !Clash(s, t, v) && IsResolvent(s, t', v, c') && !Clash(s, t', v)
    ensures SatAll(m, [s, t, t']) <==> SatEach(m, [s]) && SatEach(m, [t, t'])
    ensures SatAll(m, [c, c']) <==> SatResolvents(m, [s], [t, t'], v)
  {
    hide IsResolvent, Clash, SatResolvent, Sat;
    ResolventMeans(m, s, t, v, c);
    ResolventMeans(m, s, t', v, c');
    assert s in [s, t, t'] && t in [s, t, t'] && t' in [s, t, t'] && c in [c, c'] && c' in [c, c'];
    assert SatEach(m, [s]) <==> Sat(m, [s][0]);
    assert SatEach(m, [t, t']) <==> Sat(m, [t, t'][0]) && Sat(m, [t, t'][1]);
    assert SatResolvents(m, [s], [t, t'], v) <==> SatResolvent(m, [s][0], [t, t'][0], v) && SatResolvent(m, [s][0], [t, t'][1], v);
  }

  lemma ExampleHolds(m: Model)
    ensures var e := ExampleStep(); SatAll(m, ExampleAdded()) <==> SatEach(m, e.ss) && SatEach(m, e.ts)
    ensures var e := ExampleStep(); SatAll(m, ExampleLeft()) <==> SatResolvents(m, e.ss, e.ts, 3)
  {
    hide IsResolvent, Clash, SatResolvents, SatAll, SatEach;
    ExampleResolvents();
    var f, g := ExampleAdded(), ExampleLeft();
    TwoResolvents(m, f[0], f[1], f[2], 3, g[0], g[1]);
  }

  /** The simplifier reaches the two resolvents and the records from the three clauses added. */
  lemma ExampleReached()
    ensures Reduces(ExampleAdded(), StepRecords(ExampleStep()), StoredAs(ExampleAdded(), true) + StoredAs(ExampleLeft(), false), [])
  {
    ExampleEliminated();
    forall m: Model
      ensures (SatAll(m, ExampleAdded()) <==> SatEach(m, ExampleStep().ss) && SatEach(m, ExampleStep().ts))
      ensures (SatAll(m, ExampleLeft()) <==> SatResolvents(m, ExampleStep().ss, ExampleStep().ts, 3))
    {
      ExampleHolds(m);
    }
    assert ExampleStep().x.v == 3;
    StepReaches(ExampleAdded(), ExampleStep(), ExampleLeft());
  }

  lemma StepSplits(f: seq<seq<Lit>>, e: Step, g: seq<seq<Lit>>)
    requires forall m: Model :: SatAll(m, f) <==> SatEach(m, e.ss) && SatEach(m, e.ts)
    requires forall m: Model :: SatAll(m, g) <==> SatResolvents(m, e.ss, e.ts, e.x.v)
    ensures Reduces(f, [], StoredAs(f, false), []) && Splits(StoredAs(f, false), [], StoredAs(f, true), e.ss, e.ts)
    ensures Resolves(StoredAs(f, true), [], e.ss, e.ts, e.x.v, StoredAs(f, true) + StoredAs(g, false), [])
    ensures Independent(StoredAs(f, true), [], e.x.v)
  {
    hide SatDb, SatAll, SatEach, SatResolvents, StoredAs;
    forall m: Model
      ensures SimpState.Now(m, StoredAs(f, false), []) <==> SatAll(m, f)
      ensures SimpState.Now(m, StoredAs(f, true), [])
      ensures SimpState.Now(m, StoredAs(f, true) + StoredAs(g, false), []) <==> SatAll(m, g)
    {
      StoredMeans(f, m);
      StoredMeans(g, m);
      GoneMeans(f, g, m);
    }
    hide SimpState.Now;
  }

  /** An elimination of all clauses added, as the simplifier's state sees it. */
  lemma StepReaches(f: seq<seq<Lit>>, e: Step, g: seq<seq<Lit>>)
    requires StepOk(e, e.x.v + 1)
    requires forall m: Model :: SatAll(m, f) <==> SatEach(m, e.ss) && SatEach(m, e.ts)
    requires forall m: Model :: SatAll(m, g) <==> SatResolvents(m, e.ss, e.ts, e.x.v)
    ensures Reduces(f, StepRecords(e), StoredAs(f, true) + StoredAs(g, false), [])
  {
    hide Reduces, Splits, Resolves, Independent, StoredAs, RecordOf, OnLit, SimpState.Now, Undo;
    StepSplits(f, e, g);
    EliminationProjects(StoredAs(f, false), [], StoredAs(f, true), e.ss, e.ts, e.more, e.x, StoredAs(f, true) + StoredAs(g, false), []);
    EliminationKeeps(f, [], StoredAs(f, false), [], StepRecords(e), StoredAs(f, true) + StoredAs(g, false), []);
    assert [] + StepRecords(e) == StepRecords(e);
  }

  lemma GoneMeans(f: seq<seq<Lit>>, g: seq<seq<Lit>>, m: Model)
    ensures SatDb(m, StoredAs(f, true) + StoredAs(g, false)) <==> SatDb(m, StoredAs(g, false))
  {
    var ca, cb := StoredAs(f, true), StoredAs(g, false);
    assert forall r :: 0 <= r < |f| ==> (ca + cb)[r] == ca[r];
    assert forall r :: 0 <= r < |g| ==> (ca + cb)[|f| + r] == cb[r];
    if SatDb(m, ca + cb) {
      forall r | 0 <= r < |g| ensures Sat(m, cb[r].lits) {
        assert Sat(m, (ca + cb)[|f| + r].lits);
      }
    }
  }

  lemma ExampleRecords()
    ensures RecordsGood(StepRecords(ExampleStep()), [false, false, false, true], Flat(StepRecords(ExampleStep())))
  {
    var e, elim := ExampleStep(), [false, false, false, false];
    assert [] + StepRecords(e) == StepRecords(e);
    assert Known(elim) == {0, 1, 2, 3};
    RecordsMore([], elim, [], e.more, e.x, Flat(StepRecords(e)));
    assert elim[3 := true] == [false, false, false, true];
  }

  /**
   With variable 0 left open the clauses that remain are true, but undoing the elimination does not make "not 3, or 0"
   true: the only record, of that clause, is neither falsified nor true.
   */
  lemma OpenValuesMatter()
    ensures var values := [LUndef, LTrue, LTrue, LUndef];
            AllTrue(values, ExampleLeft()) && !Settled(values, ExampleStep().more)
            && !AllTrue(UndoValues(values, StepRecords(ExampleStep())), ExampleAdded())
  {
    var values, e := [LUndef, LTrue, LTrue, LUndef], ExampleStep();
    ExampleEliminated();
    ExampleTruth(values);
    hide ExampleAdded, ExampleLeft, Settled, AllTrue, Eliminated, StepOk;
    OneChange(ExampleAdded(), Eliminate(e, []), ExampleLeft(), values);
  }

  lemma ExampleTruth(values: seq<LBool>)
    requires values == [LUndef, LTrue, LTrue, LUndef]
    ensures AllTrue(values, ExampleLeft()) && !Settled(values, ExampleStep().more)
  {
    var rec := ExampleStep().more[0];
    assert TrueLit(values, ExampleLeft()[0][0]) && TrueLit(values, ExampleLeft()[1][0]);
    assert !FalseLit(values, rec[1]) && !TrueLit(values, rec[1]);
  }
}
