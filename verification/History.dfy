/** How the simplifier's current clauses relate to all clauses ever added, through the stored records. */
module History {
  import Collections
  import opened Literals
  import opened Assignment
  import Normalising
  import opened Resolution
  import opened Elimination
  import opened SimpState
  import opened Meaning
  import Projection

  /** Models of the clauses added are models now; models now become models of the clauses added when the records are undone. */
  ghost predicate Reduces(orig: seq<seq<Lit>>, recs: seq<seq<Lit>>, ca: seq<Clause>, trail: seq<Lit>) {
    && (forall m: Model :: SatAll(m, orig) ==> Now(m, ca, trail))
    && (forall m: Model :: Now(m, ca, trail) ==> SatAll(Undo(m, recs), orig))
  }

  ghost function Known(elim: seq<bool>): set<Var> {
    set u | 0 <= u < |elim| && !elim[u]
  }

  /** The flat vector stores the records; each belongs to an eliminated variable. */
  ghost predicate RecordsGood(recs: seq<seq<Lit>>, elim: seq<bool>, elims: seq<nat>) {
    && elims == Flat(recs) && RecordsInRange(recs, |elim|) && Readable(recs, |elim|, Known(elim))
    && forall i :: 0 <= i < |recs| ==> elim[recs[i][0].v]
  }

  ghost predicate InRange(orig: seq<seq<Lit>>, n: nat) {
    forall c, p :: c in orig && p in c ==> p.v < n
  }

  lemma EquivalentKeeps(orig: seq<seq<Lit>>, recs: seq<seq<Lit>>, ca: seq<Clause>, trail: seq<Lit>,
                        ca': seq<Clause>, trail': seq<Lit>)
    requires Reduces(orig, recs, ca, trail) && Equivalent(ca, trail, ca', trail')
    ensures Reduces(orig, recs, ca', trail')
  {
  }

  lemma ContradictoryRefutes(orig: seq<seq<Lit>>, recs: seq<seq<Lit>>, ca: seq<Clause>, trail: seq<Lit>)
    requires Reduces(orig, recs, ca, trail) && Contradictory(ca, trail)
    ensures Unsat(orig)
  {
  }

  // ---------- adding clauses ----------

  /** The new state has exactly the models of the old one that satisfy c. */
  ghost predicate Adds(ca: seq<Clause>, trail: seq<Lit>, c: seq<Lit>, ca': seq<Clause>, trail': seq<Lit>) {
    forall m: Model :: Now(m, ca', trail') <==> Now(m, ca, trail) && Sat(m, c)
  }

  ghost predicate Excludes(ca: seq<Clause>, trail: seq<Lit>, c: seq<Lit>) {
    forall m: Model :: Now(m, ca, trail) ==> !Sat(m, c)
  }

  lemma RangeMore(orig: seq<seq<Lit>>, c: seq<Lit>, n: nat)
    requires forall k :: 0 <= k < |c| ==> c[k].v < n
    ensures InRange(orig, n) ==> InRange(orig + [c], n)
  {
  }

  lemma AddKeeps(orig: seq<seq<Lit>>, recs: seq<seq<Lit>>, elim: seq<bool>, elims: seq<nat>, ca: seq<Clause>, trail: seq<Lit>,
                 c: seq<Lit>, ca': seq<Clause>, trail': seq<Lit>)
    requires Reduces(orig, recs, ca, trail) && RecordsGood(recs, elim, elims)
    requires forall k :: 0 <= k < |c| ==> c[k].v < |elim| && !elim[c[k].v]
    ensures Adds(ca, trail, c, ca', trail') ==> Reduces(orig + [c], recs, ca', trail')
    ensures Excludes(ca, trail, c) ==> Unsat(orig + [c])
    ensures InRange(orig, |elim|) ==> InRange(orig + [c], |elim|)
  {
    hide InRange, RecordsGood;
    RangeMore(orig, c, |elim|);
    AddedEntailed(orig, c);
    forall m: Model | Sat(m, c) ensures Sat(Undo(m, recs), c) {
      UndoKeepsClause(m, recs, elim, elims, c);
    }
  }

  lemma NormalDistinct(a: Asg, ps: seq<Lit>, c: seq<Lit>)
    requires Normalising.NormalForm(a, ps, c)
    ensures Distinct(c)
  {
  }

  /** The occurrence lists after a new clause has been entered for its first i literals. */
  ghost predicate Entered(occurs: seq<seq<CRef>>, occurs': seq<seq<CRef>>, c: seq<Lit>, i: nat, cr: CRef) {
    && |occurs'| == |occurs| && i <= |c|
    && forall v :: 0 <= v < |occurs| ==> occurs'[v] == occurs[v] + if Mentioned(c[..i], v) then [cr] else []
  }

  lemma EnterOne(occurs: seq<seq<CRef>>, occurs': seq<seq<CRef>>, c: seq<Lit>, i: nat, cr: CRef)
    requires Entered(occurs, occurs', c, i, cr) && i < |c| && Distinct(c) && c[i].v < |occurs|
    ensures Entered(occurs, occurs'[c[i].v := occurs'[c[i].v] + [cr]], c, i + 1, cr)
  {
  }

  lemma EnteredKeeps(n: nat, ca: seq<Clause>, occurs: seq<seq<CRef>>, dirty: set<Var>, occurs': seq<seq<CRef>>, d: Clause)
    requires OccGood(n, ca, occurs, dirty) && Entered(occurs, occurs', d.lits, |d.lits|, |ca|) && !d.deleted
    ensures OccGood(n, ca + [d], occurs', dirty)
  {
  }

  lemma DbMore(elim: seq<bool>, ca: seq<Clause>, d: Clause)
    requires DbGood(elim, ca) && Good(elim, d)
    ensures DbGood(elim, ca + [d])
  {
  }

  /** Removed clauses stay as they are. */
  ghost predicate GoneKept(ca: seq<Clause>, ca': seq<Clause>) {
    |ca| <= |ca'| && forall r :: 0 <= r < |ca| && ca[r].deleted ==> ca'[r] == ca[r]
  }

  lemma GoneKeptReworked(ca: seq<Clause>, ca': seq<Clause>)
    requires Reworked(ca, ca')
    ensures GoneKept(ca, ca')
  {
  }

  lemma GoneKeptStored(ca: seq<Clause>, ca': seq<Clause>)
    ensures Reworked(ca, ca') ==> GoneKept(ca, ca')
    ensures |ca'| == |ca| + 1 && ca <= ca' ==> GoneKept(ca, ca')
  {
  }

  lemma GoneKeptSelf(ca: seq<Clause>)
    ensures GoneKept(ca, ca)
  {
  }

  lemma GoneKeptTrans(a: seq<Clause>, b: seq<Clause>, c: seq<Clause>)
    requires GoneKept(a, b) && GoneKept(b, c)
    ensures GoneKept(a, c)
  {
  }

  lemma AddsAfter(a: seq<Clause>, b: seq<Clause>, t: seq<Lit>, c: seq<Lit>, d: seq<Clause>, u: seq<Lit>)
    requires Equivalent(a, t, b, t)
    ensures Adds(b, t, c, d, u) ==> Adds(a, t, c, d, u)
    ensures Excludes(b, t, c) ==> Excludes(a, t, c)
  {
  }

  lemma ForcedAdds(a: seq<Clause>, b: seq<Clause>, t: seq<Lit>, c: seq<Lit>)
    requires Equivalent(a, t, b, t) && Forced(b, t, c)
    ensures Adds(a, t, c, b, t)
  {
  }

  lemma NormalUsable(a: Asg, ps: seq<Lit>, c: seq<Lit>)
    requires Normalising.NormalForm(a, ps, c)
    ensures forall k :: 0 <= k < |c| ==> c[k] in ps
  {
  }

  /** Without a change of the state the clauses added may still grow when they are contradictory. */
  lemma AddsToAll(orig: seq<seq<Lit>>, recs: seq<seq<Lit>>, elim: seq<bool>, elims: seq<nat>, ca: seq<Clause>, trail: seq<Lit>, c: seq<Lit>)
    requires InRange(orig, |elim|) && forall k :: 0 <= k < |c| ==> c[k].v < |elim|
    ensures InRange(orig + [c], |elim|) && (Unsat(orig) ==> Unsat(orig + [c]))
  {
    RangeMore(orig, c, |elim|);
    AddedEntailed(orig, c);
  }

  lemma RangeGrows(orig: seq<seq<Lit>>, n: nat)
    requires InRange(orig, n)
    ensures InRange(orig, n + 1)
  {
  }

  lemma VarKeeps(elim: seq<bool>, ca: seq<Clause>, values: seq<LBool>, trail: seq<Lit>, occurs: seq<seq<CRef>>, dirty: set<Var>)
    requires DbGood(elim, ca) && TrailGood(elim, values, trail) && OccGood(|elim|, ca, occurs, dirty)
    ensures DbGood(elim + [false], ca) && TrailGood(elim + [false], values + [LUndef], trail)
    ensures OccGood(|elim| + 1, ca, occurs + [[]], dirty)
  {
  }

  // ---------- eliminating a variable ----------

  ghost function LitsOf(ca: seq<Clause>, refs: seq<CRef>): seq<seq<Lit>>
    requires forall i :: 0 <= i < |refs| ==> refs[i] < |ca|
  {
    seq(|refs|, i requires 0 <= i < |refs| => ca[refs[i]].lits)
  }

  ghost predicate SatEach(m: Model, cs: seq<seq<Lit>>) {
    forall i :: 0 <= i < |cs| ==> Sat(m, cs[i])
  }

  /** Whether the clauses and the trail hold does not depend on v. */
  ghost predicate Independent(ca: seq<Clause>, trail: seq<Lit>, v: Var) {
    forall m: Model, m': Model :: SameBut(m, m', v) && Now(m, ca, trail) ==> Now(m', ca, trail)
  }

  /** Clauses and trail hold for some value of v. */
  ghost predicate NowForSome(m: Model, ca: seq<Clause>, trail: seq<Lit>, v: Var) {
    exists m': Model :: SameBut(m, m', v) && Now(m', ca, trail)
  }

  /** The new state holds exactly where the old one holds for some value of v. */
  ghost predicate Projects(ca: seq<Clause>, trail: seq<Lit>, ca': seq<Clause>, trail': seq<Lit>, v: Var) {
    forall m: Model :: Now(m, ca', trail') <==> NowForSome(m, ca, trail, v)
  }

  /** From the old clauses, split into those on v and the rest, to the rest and all resolvents. */
  ghost predicate Splits(ca: seq<Clause>, trail: seq<Lit>, rest: seq<Clause>, ss: seq<seq<Lit>>, ts: seq<seq<Lit>>) {
    forall m: Model :: Now(m, ca, trail) <==> Now(m, rest, trail) && SatEach(m, ss) && SatEach(m, ts)
  }

  ghost predicate Resolves(rest: seq<Clause>, trail: seq<Lit>, ss: seq<seq<Lit>>, ts: seq<seq<Lit>>, v: Var,
                           ca': seq<Clause>, trail': seq<Lit>) {
    forall m: Model :: Now(m, ca', trail') <==> Now(m, rest, trail) && SatResolvents(m, ss, ts, v)
  }

  lemma ResolventsHold(m: Model, ss: seq<seq<Lit>>, ts: seq<seq<Lit>>, x: Lit)
    requires OnLit(ss, Neg(x)) && OnLit(ts, x) && SatEach(m, ss) && SatEach(m, ts)
    ensures SatResolvents(m, ss, ts, x.v)
  {
  }

  lemma ResolventsBut(m: Model, m': Model, ss: seq<seq<Lit>>, ts: seq<seq<Lit>>, v: Var)
    requires SameBut(m, m', v) && SatResolvents(m, ss, ts, v)
    ensures SatResolvents(m', ss, ts, v)
  {
  }

  /** Replacing the clauses on v by their resolvents quantifies v away. */
  lemma EliminationProjects(ca: seq<Clause>, trail: seq<Lit>, rest: seq<Clause>, ss: seq<seq<Lit>>, ts: seq<seq<Lit>>,
                            more: seq<seq<Lit>>, x: Lit, ca': seq<Clause>, trail': seq<Lit>)
    requires OnLit(ss, Neg(x)) && OnLit(ts, x)
    requires |more| == |ss| && forall i :: 0 <= i < |ss| ==> RecordOf(more[i], ss[i], Neg(x))
    requires Splits(ca, trail, rest, ss, ts) && Resolves(rest, trail, ss, ts, x.v, ca', trail') && Independent(rest, trail, x.v)
    ensures Projects(ca, trail, ca', trail', x.v)
    ensures forall m: Model :: Now(m, ca, trail) ==> Now(m, ca', trail')
    ensures forall m: Model :: Now(m, ca', trail') ==> Now(Undo(m, more + [[x]]), ca, trail)
  {
    forall m: Model | Now(m, ca, trail) ensures SatResolvents(m, ss, ts, x.v) {
      ResolventsHold(m, ss, ts, x);
    }
    forall m: Model | Now(m, ca', trail')
      ensures SameBut(m, Undo(m, more + [[x]]), x.v) && Now(Undo(m, more + [[x]]), ca, trail)
    {
      EliminationExtends(m, ss, ts, more, x);
    }
    forall m: Model, m': Model | SameBut(m, m', x.v) && Now(m', ca, trail) ensures Now(m, ca', trail') {
      assert SameBut(m', m, x.v);
      ResolventsBut(m', m, ss, ts, x.v);
    }
  }

  /** So the stored records of an elimination keep the relation to all clauses added. */
  lemma EliminationKeeps(orig: seq<seq<Lit>>, recs: seq<seq<Lit>>, ca: seq<Clause>, trail: seq<Lit>,
                         more: seq<seq<Lit>>, ca': seq<Clause>, trail': seq<Lit>)
    requires Reduces(orig, recs, ca, trail)
    requires forall m: Model :: Now(m, ca, trail) ==> Now(m, ca', trail')
    requires forall m: Model :: Now(m, ca', trail') ==> Now(Undo(m, more), ca, trail)
    ensures Reduces(orig, recs + more, ca', trail')
  {
    forall m: Model | Now(m, ca', trail') ensures SatAll(Undo(m, recs + more), orig) {
      UndoAppend(m, recs, more);
    }
  }

  lemma RecordsMore(recs: seq<seq<Lit>>, elim: seq<bool>, elims: seq<nat>, more: seq<seq<Lit>>, x: Lit, elims': seq<nat>)
    requires RecordsGood(recs, elim, elims) && x.v < |elim| && !elim[x.v]
    requires forall i :: 0 <= i < |more| ==> RecordFor(more[i], Neg(x))
    requires forall i, k :: 0 <= i < |more| && 0 <= k < |more[i]| ==> more[i][k].v < |elim| && !elim[more[i][k].v]
    requires elims' == Flat(recs + (more + [[x]]))
    ensures RecordsGood(recs + (more + [[x]]), elim[x.v := true], elims')
  {
    var elim' := elim[x.v := true];
    var all: seq<seq<Lit>> := recs + (more + [[x]]);
    ReadableMore(recs, |elim|, Known(elim), more, x);
    assert Known(elim') == Known(elim) - {x.v};
    forall i | 0 <= i < |all| ensures all[i] != [] && elim'[all[i][0].v] && forall k :: 0 <= k < |all[i]| ==> all[i][k].v < |elim| {
      if i < |recs| {
        assert all[i] == recs[i];
      } else if i < |recs| + |more| {
        assert all[i] == more[i - |recs|];
        assert RecordFor(more[i - |recs|], Neg(x));
      } else {
        assert all[i] == [x];
      }
    }
  }

  lemma RecordsGrow(recs: seq<seq<Lit>>, elim: seq<bool>, elims: seq<nat>)
    requires RecordsGood(recs, elim, elims)
    ensures RecordsGood(recs, elim + [false], elims)
  {
    ReadableGrows(recs, |elim|, Known(elim));
    assert Known(elim + [false]) == Known(elim) + {|elim|};
  }

  // ---------- reconstructing a model ----------

  /** Values for all variables that were not eliminated, which make every clause and the trail true. */
  ghost predicate ModelOfNow(values: seq<LBool>, elim: seq<bool>, ca: seq<Clause>, trail: seq<Lit>) {
    && |values| == |elim| && (forall u :: 0 <= u < |elim| && !elim[u] ==> values[u] != LUndef)
    && (forall r :: 0 <= r < |ca| && !ca[r].deleted ==> TrueIn(values, ca[r].lits))
    && (forall i :: 0 <= i < |trail| ==> TrueIn(values, [trail[i]]))
  }

  lemma ModelSize(values: seq<LBool>, elim: seq<bool>, ca: seq<Clause>, trail: seq<Lit>)
    requires ModelOfNow(values, elim, ca, trail)
    ensures |values| == |elim|
  {
  }

  lemma NowFromValues(values: seq<LBool>, elim: seq<bool>, ca: seq<Clause>, trail: seq<Lit>)
    requires ModelOfNow(values, elim, ca, trail)
    ensures Decides(values, Projection.AsModel(values), Known(elim)) && Now(Projection.AsModel(values), ca, trail)
  {
  }

  /** Reading the records backwards does on values what it does on models. */
  lemma ExtendedValues(orig: seq<seq<Lit>>, recs: seq<seq<Lit>>, elim: seq<bool>, elims: seq<nat>, values: seq<LBool>)
    requires RecordsGood(recs, elim, elims) && InRange(orig, |elim|) && Decides(values, Projection.AsModel(values), Known(elim)) && |values| == |elim|
    requires SatAll(Undo(Projection.AsModel(values), recs), orig)
    ensures forall c :: c in orig ==> TrueIn(UndoValues(values, recs), c)
    ensures forall u :: 0 <= u < |elim| && !elim[u] ==> UndoValues(values, recs)[u] == values[u]
  {
    hide Readable, Decides;
    var m, result := Projection.AsModel(values), UndoValues(values, recs);
    UndoAgrees(values, m, recs, Known(elim));
    forall c | c in orig ensures TrueIn(result, c) {
      assert Sat(Undo(m, recs), c);
      var p :| p in c && Holds(Undo(m, recs), p);
      assert p.v < |elim| && result[p.v] == ValueOf(p.sign);
    }
    forall u | 0 <= u < |elim| && !elim[u] ensures result[u] == values[u] {
      UndoKeepsOthers(values, recs, u);
    }
  }

  /** Reading the records backwards turns a model of the current clauses into a model of all clauses added. */
  lemma ExtendedModel(orig: seq<seq<Lit>>, recs: seq<seq<Lit>>, elim: seq<bool>, elims: seq<nat>,
                      ca: seq<Clause>, trail: seq<Lit>, values: seq<LBool>)
    requires Reduces(orig, recs, ca, trail) && RecordsGood(recs, elim, elims) && InRange(orig, |elim|)
    requires ModelOfNow(values, elim, ca, trail)
    ensures forall c :: c in orig ==> TrueIn(UndoValues(values, recs), c)
    ensures forall u :: 0 <= u < |elim| && !elim[u] ==> UndoValues(values, recs)[u] == values[u]
  {
    hide Now, ModelOfNow, RecordsGood, InRange, TrueIn;
    assert |values| == |elim| by { ModelSize(values, elim, ca, trail); }
    NowFromValues(values, elim, ca, trail);
    ExtendedValues(orig, recs, elim, elims, values);
  }

  // ---------- when simplification is over ----------

  /** As 'Reduces', for a formula in place of clauses and trail. */
  ghost predicate Represents(orig: seq<seq<Lit>>, recs: seq<seq<Lit>>, f: seq<seq<Lit>>) {
    && (forall m: Model :: SatAll(m, orig) ==> SatAll(m, f))
    && (forall m: Model :: SatAll(m, f) ==> SatAll(Undo(m, recs), orig))
  }

  /** Clauses over variables that were not eliminated may still be added. */
  lemma RepresentsMore(orig: seq<seq<Lit>>, recs: seq<seq<Lit>>, elim: seq<bool>, elims: seq<nat>, f: seq<seq<Lit>>, c: seq<Lit>)
    requires Represents(orig, recs, f) && RecordsGood(recs, elim, elims)
    requires forall k :: 0 <= k < |c| ==> c[k].v < |elim| && !elim[c[k].v]
    ensures Represents(orig + [c], recs, f + [c])
  {
    AddedEntailed(orig, c);
    AddedEntailed(f, c);
    forall m: Model | Sat(m, c) ensures Sat(Undo(m, recs), c) {
      UndoKeepsClause(m, recs, elim, elims, c);
    }
  }

  lemma UndoKeepsClause(m: Model, recs: seq<seq<Lit>>, elim: seq<bool>, elims: seq<nat>, c: seq<Lit>)
    requires RecordsGood(recs, elim, elims) && (forall k :: 0 <= k < |c| ==> c[k].v < |elim| && !elim[c[k].v]) && Sat(m, c)
    ensures Sat(Undo(m, recs), c)
  {
    var q :| q in c && Holds(m, q);
    UndoKeepsModel(m, recs, q.v);
    assert Holds(Undo(m, recs), q);
  }

  // ---------- the occurrences of a variable ----------

  ghost predicate RefsLive(ca: seq<Clause>, cs: seq<CRef>) {
    forall i :: 0 <= i < |cs| ==> cs[i] < |ca| && !ca[cs[i]].deleted
  }

  lemma CleanList(n: nat, ca: seq<Clause>, occurs: seq<seq<CRef>>, dirty: set<Var>, v: Var)
    requires OccGood(n, ca, occurs, dirty) && v < n && v !in dirty
    ensures RefsLive(ca, occurs[v]) && NoDup(occurs[v])
    ensures forall i :: 0 <= i < |occurs[v]| ==> Mentioned(ca[occurs[v][i]].lits, v)
    ensures forall r :: 0 <= r < |ca| && !ca[r].deleted && Mentioned(ca[r].lits, v) ==> r in occurs[v]
  {
  }

  lemma ListGood(elim: seq<bool>, ca: seq<Clause>, cs: seq<CRef>)
    requires DbGood(elim, ca) && RefsLive(ca, cs)
    ensures forall i :: 0 <= i < |cs| ==> Good(elim, ca[cs[i]])
  {
  }

  ghost predicate SideUpTo(ca: seq<Clause>, cls: seq<CRef>, i: int, y: Lit, side: seq<CRef>) {
    && 0 <= i <= |cls| && NoDup(side)
    && (forall k :: 0 <= k < |side| ==> side[k] in cls[..i] && side[k] < |ca| && !ca[side[k]].deleted && y in ca[side[k]].lits)
    && (forall k :: 0 <= k < i && cls[k] < |ca| && y in ca[cls[k]].lits ==> cls[k] in side)
  }

  ghost predicate SplitUpTo(ca: seq<Clause>, cls: seq<CRef>, v: Var, i: int, pos: seq<CRef>, neg: seq<CRef>) {
    SideUpTo(ca, cls, i, Lit(v, false), pos) && SideUpTo(ca, cls, i, Lit(v, true), neg) && |pos| + |neg| == i
  }

  /** The clauses on v, by the literal they contain. */
  ghost predicate SplitList(ca: seq<Clause>, cls: seq<CRef>, v: Var, pos: seq<CRef>, neg: seq<CRef>) {
    SplitUpTo(ca, cls, v, |cls|, pos, neg)
  }

  lemma SplitOne(ca: seq<Clause>, cls: seq<CRef>, v: Var, i: nat, pos: seq<CRef>, neg: seq<CRef>)
    requires SplitUpTo(ca, cls, v, i, pos, neg) && NoDup(cls) && i < |cls| && cls[i] < |ca| && !ca[cls[i]].deleted
    requires Distinct(ca[cls[i]].lits) && Mentioned(ca[cls[i]].lits, v)
    ensures if Lit(v, false) in ca[cls[i]].lits then SplitUpTo(ca, cls, v, i + 1, pos + [cls[i]], neg)
            else SplitUpTo(ca, cls, v, i + 1, pos, neg + [cls[i]])
  {
    hide SideUpTo;
    OnOneSide(ca[cls[i]].lits, v);
    SideOne(ca, cls, i, Lit(v, false), pos);
    SideOne(ca, cls, i, Lit(v, true), neg);
  }

  lemma SideOne(ca: seq<Clause>, cls: seq<CRef>, i: nat, y: Lit, side: seq<CRef>)
    requires SideUpTo(ca, cls, i, y, side) && NoDup(cls) && i < |cls| && cls[i] < |ca| && !ca[cls[i]].deleted
    ensures if y in ca[cls[i]].lits then SideUpTo(ca, cls, i + 1, y, side + [cls[i]]) else SideUpTo(ca, cls, i + 1, y, side)
  {
    assert cls[..i + 1] == cls[..i] + [cls[i]];
  }

  /** A clause on v contains exactly one of its literals. */
  lemma OnOneSide(c: seq<Lit>, v: Var)
    requires Distinct(c) && Mentioned(c, v)
    ensures Lit(v, false) in c <==> Lit(v, true) !in c
  {
    var k :| 0 <= k < |c| && c[k].v == v;
    assert c[k] == Lit(v, c[k].sign);
  }

  ghost predicate SideReady(ca: seq<Clause>, side: seq<CRef>, v: Var) {
    forall i :: 0 <= i < |side| ==> side[i] < |ca| && Distinct(ca[side[i]].lits) && exists q :: q in ca[side[i]].lits && q.v == v
  }

  ghost predicate PairsReady(ca: seq<Clause>, pos: seq<CRef>, neg: seq<CRef>, v: Var) {
    SideReady(ca, pos, v) && SideReady(ca, neg, v)
  }

  // ---------- counting resolvents ----------

  /** The pairs of clauses whose resolvent is not a tautology. */
  ghost function OpenPairs(ps: seq<seq<Lit>>, ns: seq<seq<Lit>>, v: Var): set<(nat, nat)> {
    set i: nat, j: nat | i < |ps| && j < |ns| && !Clash(ps[i], ns[j], v) :: (i, j)
  }

  /** Not too many resolvents, and none too long. */
  ghost predicate Fits(ps: seq<seq<Lit>>, ns: seq<seq<Lit>>, v: Var, limit: int, clauseLim: int) {
    && (OpenPairs(ps, ns, v) != {} ==> |OpenPairs(ps, ns, v)| <= limit)
    && forall i: nat, j: nat :: (i, j) in OpenPairs(ps, ns, v) ==> SizeFits(ps[i], ns[j], v, clauseLim)
  }

  ghost predicate SizeFits(p: seq<Lit>, n: seq<Lit>, v: Var, clauseLim: int) {
    clauseLim == -1 || |ResolventSet(p, n, v)| <= clauseLim
  }

  ghost predicate Before(a: nat, b: nat, i: nat, j: nat) {
    a < i || (a == i && b < j)
  }

  /** The pairs visited so far, all of acceptable size. */
  ghost predicate Counted(ps: seq<seq<Lit>>, ns: seq<seq<Lit>>, v: Var, i: nat, j: nat, clauseLim: int, done: set<(nat, nat)>) {
    && (forall a: nat, b: nat :: (a, b) in done <==> (a, b) in OpenPairs(ps, ns, v) && Before(a, b, i, j))
    && (forall a: nat, b: nat :: (a, b) in done ==> SizeFits(ps[a], ns[b], v, clauseLim))
  }

  lemma CountNone(ps: seq<seq<Lit>>, ns: seq<seq<Lit>>, v: Var, clauseLim: int)
    ensures Counted(ps, ns, v, 0, 0, clauseLim, {})
  {
  }

  lemma CountOne(ps: seq<seq<Lit>>, ns: seq<seq<Lit>>, v: Var, i: nat, j: nat, clauseLim: int, done: set<(nat, nat)>)
    requires Counted(ps, ns, v, i, j, clauseLim, done) && i < |ps| && j < |ns| && !Clash(ps[i], ns[j], v)
    ensures (i, j) !in done && (i, j) in OpenPairs(ps, ns, v) && done + {(i, j)} <= OpenPairs(ps, ns, v)
    ensures SizeFits(ps[i], ns[j], v, clauseLim) ==> Counted(ps, ns, v, i, j + 1, clauseLim, done + {(i, j)})
  {
    forall p | p in done ensures p in OpenPairs(ps, ns, v) {
      assert p == (p.0, p.1);
    }
  }

  lemma CountSkip(ps: seq<seq<Lit>>, ns: seq<seq<Lit>>, v: Var, i: nat, j: nat, clauseLim: int, done: set<(nat, nat)>)
    requires Counted(ps, ns, v, i, j, clauseLim, done) && i < |ps| && j < |ns| && Clash(ps[i], ns[j], v)
    ensures Counted(ps, ns, v, i, j + 1, clauseLim, done)
  {
  }

  lemma CountRow(ps: seq<seq<Lit>>, ns: seq<seq<Lit>>, v: Var, i: nat, clauseLim: int, done: set<(nat, nat)>)
    requires Counted(ps, ns, v, i, |ns|, clauseLim, done)
    ensures Counted(ps, ns, v, i + 1, 0, clauseLim, done)
  {
  }

  lemma CountAll(ps: seq<seq<Lit>>, ns: seq<seq<Lit>>, v: Var, limit: int, clauseLim: int, done: set<(nat, nat)>)
    requires Counted(ps, ns, v, |ps|, 0, clauseLim, done) && (|done| <= limit || |done| == 0)
    ensures Fits(ps, ns, v, limit, clauseLim)
  {
    forall p ensures p in done <==> p in OpenPairs(ps, ns, v) {
      assert p == (p.0, p.1);
    }
    assert done == OpenPairs(ps, ns, v);
  }

  lemma TooMuch(ps: seq<seq<Lit>>, ns: seq<seq<Lit>>, v: Var, i: nat, j: nat, limit: int, clauseLim: int, done: set<(nat, nat)>)
    requires (i, j) in done && done <= OpenPairs(ps, ns, v)
    requires |done| > limit || !SizeFits(ps[i], ns[j], v, clauseLim)
    ensures !Fits(ps, ns, v, limit, clauseLim)
  {
    Collections.SubsetSize(done, OpenPairs(ps, ns, v));
  }

  // ---------- replacing the clauses on a variable ----------

  /** The list names exactly the live clauses that contain y, each once. */
  ghost predicate Lists(ca: seq<Clause>, refs: seq<CRef>, y: Lit) {
    && NoDup(refs) && RefsLive(ca, refs)
    && forall r: CRef :: r in refs <==> r < |ca| && !ca[r].deleted && y in ca[r].lits
  }

  /** cls names exactly the clauses of both sides. */
  ghost predicate Both(cls: seq<CRef>, pos: seq<CRef>, neg: seq<CRef>) {
    NoDup(cls) && forall r :: r in cls <==> r in pos || r in neg
  }

  lemma SplitLists(ca: seq<Clause>, cls: seq<CRef>, v: Var, pos: seq<CRef>, neg: seq<CRef>)
    requires SplitList(ca, cls, v, pos, neg)
    requires NoDup(cls) && forall i :: 0 <= i < |cls| ==> cls[i] < |ca| && Mentioned(ca[cls[i]].lits, v)
    requires forall r :: 0 <= r < |ca| && !ca[r].deleted && Mentioned(ca[r].lits, v) ==> r in cls
    ensures Lists(ca, pos, Lit(v, false)) && Lists(ca, neg, Lit(v, true)) && Both(cls, pos, neg) && |pos| + |neg| == |cls|
  {
    forall i | 0 <= i < |cls| ensures cls[i] in pos || cls[i] in neg {
      var k :| 0 <= k < |ca[cls[i]].lits| && ca[cls[i]].lits[k].v == v;
      assert ca[cls[i]].lits[k] == Lit(v, false) || ca[cls[i]].lits[k] == Lit(v, true);
    }
  }

  lemma ListedLive(ca: seq<Clause>, refs: seq<CRef>, y: Lit)
    requires Lists(ca, refs, y)
    ensures NoDup(refs) && RefsLive(ca, refs)
  {
  }

  lemma ListReady(elim: seq<bool>, ca: seq<Clause>, refs: seq<CRef>, y: Lit)
    requires DbGood(elim, ca) && Lists(ca, refs, y)
    ensures SideReady(ca, refs, y.v) && OnLit(LitsOf(ca, refs), y)
    ensures forall i :: 0 <= i < |refs| ==> refs[i] < |ca| && Good(elim, ca[refs[i]]) && y in ca[refs[i]].lits
  {
  }

  /** The clauses listed have been marked as removed, the others are as before. */
  ghost predicate RemovedAll(ca: seq<Clause>, ca': seq<Clause>, cls: seq<CRef>) {
    |ca'| == |ca| && forall r :: 0 <= r < |ca| ==> ca'[r] == if r in cls then ca[r].(deleted := true) else ca[r]
  }

  lemma RemovedOneMore(ca: seq<Clause>, ca': seq<Clause>, cls: seq<CRef>, i: nat)
    requires i < |cls| && RemovedAll(ca, ca', cls[..i]) && NoDup(cls) && RefsLive(ca, cls)
    ensures cls[i] < |ca'| && !ca'[cls[i]].deleted && RemovedAll(ca, Deleted(ca', cls[i]), cls[..i + 1])
  {
  }

  lemma RemovalSplits(ca: seq<Clause>, ca': seq<Clause>, trail: seq<Lit>, cls: seq<CRef>, pos: seq<CRef>, neg: seq<CRef>, v: Var)
    requires Lists(ca, pos, Lit(v, false)) && Lists(ca, neg, Lit(v, true)) && RemovedAll(ca, ca', cls) && Both(cls, pos, neg)
    ensures Splits(ca, trail, ca', LitsOf(ca, pos), LitsOf(ca, neg))
  {
    forall m: Model ensures SatDb(m, ca) <==> SatDb(m, ca') && SatEach(m, LitsOf(ca, pos)) && SatEach(m, LitsOf(ca, neg)) {
      if SatDb(m, ca') && SatEach(m, LitsOf(ca, pos)) && SatEach(m, LitsOf(ca, neg)) {
        forall r | 0 <= r < |ca| && !ca[r].deleted ensures Sat(m, ca[r].lits) {
          if r in pos {
            var k :| 0 <= k < |pos| && pos[k] == r;
            assert LitsOf(ca, pos)[k] == ca[r].lits;
          } else if r in neg {
            var k :| 0 <= k < |neg| && neg[k] == r;
            assert LitsOf(ca, neg)[k] == ca[r].lits;
          } else {
            assert ca'[r] == ca[r];
          }
        }
      }
      if SatDb(m, ca) {
        forall r | 0 <= r < |ca'| && !ca'[r].deleted ensures Sat(m, ca'[r].lits) {
          assert ca'[r] == ca[r];
        }
      }
    }
  }

  lemma NoneLeft(ca: seq<Clause>, ca': seq<Clause>, cls: seq<CRef>, pos: seq<CRef>, neg: seq<CRef>, v: Var)
    requires Lists(ca, pos, Lit(v, false)) && Lists(ca, neg, Lit(v, true)) && RemovedAll(ca, ca', cls) && Both(cls, pos, neg)
    ensures forall r :: 0 <= r < |ca'| && !ca'[r].deleted ==> !Mentioned(ca'[r].lits, v)
  {
  }

  lemma RemovalIndependent(elim: seq<bool>, values: seq<LBool>, ca': seq<Clause>, trail: seq<Lit>, v: Var)
    requires TrailGood(elim, values, trail) && v < |values| && values[v] == LUndef
    requires forall r :: 0 <= r < |ca'| && !ca'[r].deleted ==> !Mentioned(ca'[r].lits, v)
    ensures Independent(ca', trail, v)
  {
  }

  lemma EliminateKeepsShape(elim: seq<bool>, values: seq<LBool>, ca': seq<Clause>, trail: seq<Lit>, v: Var)
    requires DbGood(elim, ca') && TrailGood(elim, values, trail) && v < |values| && values[v] == LUndef
    requires forall r :: 0 <= r < |ca'| && !ca'[r].deleted ==> !Mentioned(ca'[r].lits, v)
    ensures DbGood(elim[v := true], ca') && TrailGood(elim[v := true], values, trail)
  {
  }

  lemma ClearKeeps(elim: seq<bool>, ca: seq<Clause>, occurs: seq<seq<CRef>>, dirty: set<Var>, v: Var)
    requires DbGood(elim, ca) && OccGood(|elim|, ca, occurs, dirty) && v < |elim| && elim[v]
    ensures OccGood(|elim|, ca, occurs[v := []], dirty)
  {
  }

  // ---------- adding the resolvents ----------

  ghost predicate ResolventsUpTo(m: Model, ps: seq<seq<Lit>>, ns: seq<seq<Lit>>, v: Var, i: nat, j: nat) {
    forall a: nat, b: nat :: a < |ps| && b < |ns| && Before(a, b, i, j) ==> SatResolvent(m, ps[a], ns[b], v)
  }

  /** The resolvents of the pairs visited so far have been added. */
  ghost predicate AddedUpTo(rest: seq<Clause>, trail: seq<Lit>, ps: seq<seq<Lit>>, ns: seq<seq<Lit>>, v: Var, i: nat, j: nat,
                            ca: seq<Clause>, trail': seq<Lit>) {
    forall m: Model :: Now(m, ca, trail') <==> Now(m, rest, trail) && ResolventsUpTo(m, ps, ns, v, i, j)
  }

  lemma AddedNone(rest: seq<Clause>, trail: seq<Lit>, ps: seq<seq<Lit>>, ns: seq<seq<Lit>>, v: Var)
    ensures AddedUpTo(rest, trail, ps, ns, v, 0, 0, rest, trail)
  {
  }

  lemma AddedOne(rest: seq<Clause>, trail: seq<Lit>, ps: seq<seq<Lit>>, ns: seq<seq<Lit>>, v: Var, i: nat, j: nat,
                 ca: seq<Clause>, trail': seq<Lit>, out: seq<Lit>, ca': seq<Clause>, trail'': seq<Lit>)
    requires i < |ps| && j < |ns| && AddedUpTo(rest, trail, ps, ns, v, i, j, ca, trail')
    requires !Clash(ps[i], ns[j], v) && IsResolvent(ps[i], ns[j], v, out)
    ensures Adds(ca, trail', out, ca', trail'') ==> AddedUpTo(rest, trail, ps, ns, v, i, j + 1, ca', trail'')
    ensures Excludes(ca, trail', out) ==> forall m: Model :: Now(m, rest, trail) ==> !SatResolvents(m, ps, ns, v)
  {
  }

  lemma AddedSkip(rest: seq<Clause>, trail: seq<Lit>, ps: seq<seq<Lit>>, ns: seq<seq<Lit>>, v: Var, i: nat, j: nat,
                  ca: seq<Clause>, trail': seq<Lit>)
    requires i < |ps| && j < |ns| && AddedUpTo(rest, trail, ps, ns, v, i, j, ca, trail') && Clash(ps[i], ns[j], v)
    ensures AddedUpTo(rest, trail, ps, ns, v, i, j + 1, ca, trail')
  {
  }

  lemma AddedRow(rest: seq<Clause>, trail: seq<Lit>, ps: seq<seq<Lit>>, ns: seq<seq<Lit>>, v: Var, i: nat,
                 ca: seq<Clause>, trail': seq<Lit>)
    requires AddedUpTo(rest, trail, ps, ns, v, i, |ns|, ca, trail')
    ensures AddedUpTo(rest, trail, ps, ns, v, i + 1, 0, ca, trail')
  {
  }

  lemma AddedAll(rest: seq<Clause>, trail: seq<Lit>, ps: seq<seq<Lit>>, ns: seq<seq<Lit>>, v: Var,
                 ca: seq<Clause>, trail': seq<Lit>)
    requires AddedUpTo(rest, trail, ps, ns, v, |ps|, 0, ca, trail')
    ensures Resolves(rest, trail, ps, ns, v, ca, trail')
  {
  }

  lemma SwapSides(ca: seq<Clause>, trail: seq<Lit>, rest: seq<Clause>, ss: seq<seq<Lit>>, ts: seq<seq<Lit>>, v: Var,
                  ca': seq<Clause>, trail': seq<Lit>)
    ensures Splits(ca, trail, rest, ss, ts) ==> Splits(ca, trail, rest, ts, ss)
    ensures Resolves(rest, trail, ss, ts, v, ca', trail') ==> Resolves(rest, trail, ts, ss, v, ca', trail')
  {
  }

  lemma ResolventUsable(elim: seq<bool>, p: seq<Lit>, n: seq<Lit>, v: Var, out: seq<Lit>)
    requires IsResolvent(p, n, v, out) && v < |elim| && elim[v]
    requires forall q :: q in p || q in n ==> q.v < |elim| && (elim[q.v] ==> q.v == v)
    ensures forall k :: 0 <= k < |out| ==> out[k].v < |elim| && !elim[out[k].v]
  {
    forall k | 0 <= k < |out| ensures out[k].v < |elim| && !elim[out[k].v] {
      assert out[k] in ResolventSet(p, n, v);
      assert out[k] in p + n;
    }
  }

  /** The clauses listed have been removed and mention no eliminated variable but v. */
  ghost predicate SideGone(elim: seq<bool>, ca: seq<Clause>, refs: seq<CRef>, v: Var) {
    && (forall i :: 0 <= i < |refs| ==> refs[i] < |ca| && ca[refs[i]].deleted && Distinct(ca[refs[i]].lits))
    && (forall i, q :: 0 <= i < |refs| && q in ca[refs[i]].lits ==> q.v < |elim| && (elim[q.v] ==> q.v == v))
  }

  lemma BothLive(ca: seq<Clause>, cls: seq<CRef>, pos: seq<CRef>, neg: seq<CRef>, v: Var)
    requires Lists(ca, pos, Lit(v, false)) && Lists(ca, neg, Lit(v, true)) && Both(cls, pos, neg)
    ensures NoDup(cls) && RefsLive(ca, cls)
  {
    forall i | 0 <= i < |cls| ensures cls[i] < |ca| && !ca[cls[i]].deleted {
      assert cls[i] in cls;
    }
  }

  // ---------- the whole step ----------

  /** The records of one side, which contains the negation of the default x. */
  ghost predicate RecordsOf(more: seq<seq<Lit>>, side: seq<seq<Lit>>, x: Lit) {
    |more| == |side| && OnLit(side, Neg(x)) && forall i :: 0 <= i < |side| ==> RecordOf(more[i], side[i], Neg(x))
  }

  /** The clauses on v are set apart, and those of one side are recorded. */
  ghost predicate Detached(ca: seq<Clause>, trail: seq<Lit>, rest: seq<Clause>, ps: seq<seq<Lit>>, ns: seq<seq<Lit>>, v: Var,
                           more: seq<seq<Lit>>, x: Lit) {
    && Splits(ca, trail, rest, ps, ns) && Independent(rest, trail, v) && x.v == v
    && OnLit(ps, Lit(v, false)) && OnLit(ns, Lit(v, true))
    && RecordsOf(more, if x.sign then ps else ns, x)
  }

  /** v has been eliminated: it is quantified away, and its records recover a value for it. */
  ghost predicate Eliminates(ca: seq<Clause>, trail: seq<Lit>, ca': seq<Clause>, trail': seq<Lit>, v: Var, more: seq<seq<Lit>>) {
    && Projects(ca, trail, ca', trail', v)
    && (forall m: Model :: Now(m, ca, trail) ==> Now(m, ca', trail'))
    && (forall m: Model :: Now(m, ca', trail') ==> Now(Undo(m, more), ca, trail))
  }

  lemma DetachedResolved(ca: seq<Clause>, trail: seq<Lit>, rest: seq<Clause>, ps: seq<seq<Lit>>, ns: seq<seq<Lit>>, v: Var,
                         more: seq<seq<Lit>>, x: Lit, ca': seq<Clause>, trail': seq<Lit>)
    requires Detached(ca, trail, rest, ps, ns, v, more, x) && Resolves(rest, trail, ps, ns, v, ca', trail')
    ensures Eliminates(ca, trail, ca', trail', v, more + [[x]])
  {
    if x.sign {
      EliminationProjects(ca, trail, rest, ps, ns, more, x, ca', trail');
    } else {
      SwapSides(ca, trail, rest, ps, ns, v, ca', trail');
      EliminationProjects(ca, trail, rest, ns, ps, more, x, ca', trail');
    }
  }

  lemma DetachedFailed(ca: seq<Clause>, trail: seq<Lit>, rest: seq<Clause>, ps: seq<seq<Lit>>, ns: seq<seq<Lit>>, v: Var,
                       more: seq<seq<Lit>>, x: Lit)
    requires Detached(ca, trail, rest, ps, ns, v, more, x)
    requires forall m: Model :: Now(m, rest, trail) ==> !SatResolvents(m, ps, ns, v)
    ensures Contradictory(ca, trail)
  {
    FailedResolvents(ca, trail, rest, ps, ns, Lit(v, true));
  }

  lemma EliminatesThen(ca: seq<Clause>, trail: seq<Lit>, b: seq<Clause>, t: seq<Lit>, v: Var, more: seq<seq<Lit>>,
                       c: seq<Clause>, u: seq<Lit>)
    requires Eliminates(ca, trail, b, t, v, more)
    ensures Equivalent(b, t, c, u) ==> Eliminates(ca, trail, c, u, v, more)
    ensures Contradictory(b, t) ==> Contradictory(ca, trail)
  {
    hide Now, NowForSome;
    if Equivalent(b, t, c, u) {
      forall m: Model ensures Now(m, c, u) <==> NowForSome(m, ca, trail, v) {
        assert Now(m, b, t) <==> Now(m, c, u);
      }
    }
  }

  /** After a failed addition the old clauses are contradictory. */
  lemma FailedResolvents(ca: seq<Clause>, trail: seq<Lit>, rest: seq<Clause>, ss: seq<seq<Lit>>, ts: seq<seq<Lit>>, x: Lit)
    requires Splits(ca, trail, rest, ss, ts) && OnLit(ss, Neg(x)) && OnLit(ts, x)
    requires forall m: Model :: Now(m, rest, trail) ==> !SatResolvents(m, ss, ts, x.v)
    ensures Contradictory(ca, trail)
  {
  }

  lemma RecordsUsable(elim: seq<bool>, ca: seq<Clause>, refs: seq<CRef>, more: seq<seq<Lit>>, y: Lit)
    requires DbGood(elim, ca) && Lists(ca, refs, y) && |more| == |refs|
    requires forall i :: 0 <= i < |refs| ==> RecordOf(more[i], LitsOf(ca, refs)[i], y)
    ensures forall i :: 0 <= i < |more| ==> RecordFor(more[i], y)
    ensures forall i, k :: 0 <= i < |more| && 0 <= k < |more[i]| ==> more[i][k].v < |elim| && !elim[more[i][k].v]
  {
    forall i, k | 0 <= i < |more| && 0 <= k < |more[i]| ensures more[i][k].v < |elim| && !elim[more[i][k].v] {
      assert RecordOf(more[i], LitsOf(ca, refs)[i], y);
      assert refs[i] in refs && Good(elim, ca[refs[i]]);
      assert more[i][k] in ca[refs[i]].lits;
    }
    forall i | 0 <= i < |more| ensures RecordFor(more[i], y) {
      assert RecordOf(more[i], LitsOf(ca, refs)[i], y);
    }
  }

  lemma FlatRecords(recs: seq<seq<Lit>>, elim: seq<bool>, elims: seq<nat>)
    requires RecordsGood(recs, elim, elims)
    ensures elims == Flat(recs)
  {
  }

  lemma BothSidesGone(elim: seq<bool>, ca: seq<Clause>, ca': seq<Clause>, cls: seq<CRef>, pos: seq<CRef>, neg: seq<CRef>, v: Var)
    requires DbGood(elim, ca) && RemovedAll(ca, ca', cls) && v < |elim| && Both(cls, pos, neg)
    requires Lists(ca, pos, Lit(v, false)) && Lists(ca, neg, Lit(v, true))
    ensures |ca'| == |ca| && SideGone(elim[v := true], ca', pos, v) && LitsOf(ca', pos) == LitsOf(ca, pos)
    ensures SideGone(elim[v := true], ca', neg, v) && LitsOf(ca', neg) == LitsOf(ca, neg)
  {
  }

  lemma AfterElimination(orig: seq<seq<Lit>>, recs: seq<seq<Lit>>, ca: seq<Clause>, trail: seq<Lit>, v: Var,
                         recs': seq<seq<Lit>>, ca': seq<Clause>, trail': seq<Lit>)
    requires Reduces(orig, recs, ca, trail)
    ensures (exists more :: recs' == recs + more && Eliminates(ca, trail, ca', trail', v, more)) ==>
              Reduces(orig, recs', ca', trail') && Projects(ca, trail, ca', trail', v)
    ensures Contradictory(ca, trail) ==> Unsat(orig)
  {
    if exists more :: recs' == recs + more && Eliminates(ca, trail, ca', trail', v, more) {
      var more :| recs' == recs + more && Eliminates(ca, trail, ca', trail', v, more);
      EliminationKeeps(orig, recs, ca, trail, more, ca', trail');
    }
  }
}
