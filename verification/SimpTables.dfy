/** What the simplifier keeps beside the solver: occurrence lists, signatures, and the agenda of backward subsumption. */
module SimpTables {
  import opened Literals
  import opened Assignment
  import Meaning
  import Steps
  import Normalising
  import Resolution
  import opened SimpState
  import History

  ghost predicate Tables(elim: seq<bool>, values: seq<LBool>, trail: seq<Lit>, ca: seq<Clause>, occurs: seq<seq<CRef>>,
                         dirty: set<Var>, abs: seq<set<nat>>) {
    DbGood(elim, ca) && TrailGood(elim, values, trail) && OccGood(|elim|, ca, occurs, dirty) && AbsGood(ca, abs)
  }

  /** Longer clauses are neither subsumed nor strengthened. */
  predicate Short(c: Clause, lim: int) {
    lim == -1 || |c.lits| < lim
  }

  /** The first literals of the trail have been used: their variables occur in long clauses only. */
  ghost predicate Used(ca: seq<Clause>, trail: seq<Lit>, used: nat, lim: int) {
    forall i, r :: 0 <= i < used && i < |trail| && 0 <= r < |ca| && !ca[r].deleted && Short(ca[r], lim) ==> !Mentioned(ca[r].lits, trail[i].v)
  }

  /** Only short clauses have been strengthened. */
  ghost predicate LooseShort(ca: seq<Clause>, loose: set<CRef>, lim: int) {
    forall r :: r in loose ==> r < |ca| && Short(ca[r], lim)
  }

  ghost predicate Agenda(queue: seq<CRef>, used: nat, ca: seq<Clause>, trail: seq<Lit>, lim: int, loose: set<CRef>) {
    && (forall i :: 0 <= i < |queue| ==> queue[i] < |ca|) && used <= |trail|
    && Used(ca, trail, used, lim) && LooseShort(ca, loose, lim)
  }

  /** The list of problem clauses names each at most once. */
  ghost predicate ListedOnce(ca: seq<Clause>, refs: seq<CRef>) {
    NoDup(refs) && forall i :: 0 <= i < |refs| ==> refs[i] < |ca|
  }

  lemma TablesParts(elim: seq<bool>, values: seq<LBool>, trail: seq<Lit>, ca: seq<Clause>, occurs: seq<seq<CRef>>,
                    dirty: set<Var>, abs: seq<set<nat>>)
    requires Tables(elim, values, trail, ca, occurs, dirty, abs)
    ensures |elim| == |values| == |occurs| && |abs| == |ca| && Meaning.NoLearnts(ca)
    ensures forall v :: 0 <= v < |occurs| ==> forall i :: 0 <= i < |occurs[v]| ==> occurs[v][i] < |ca|
  {
    forall r | 0 <= r < |ca| && !ca[r].deleted ensures !ca[r].learnt {
      assert Good(elim, ca[r]);
    }
    forall v, i | 0 <= v < |occurs| && 0 <= i < |occurs[v]| ensures occurs[v][i] < |ca| {
      assert OccList(ca, v, occurs[v], v !in dirty);
    }
  }

  // ---------- propagation ----------

  lemma ExplainedTrail(elim: seq<bool>, a: Asg, b: Asg, ca: seq<Clause>, ps: seq<Lit>)
    requires TrailGood(elim, a.assigns, a.trail) && TrailInv(b) && |b.assigns| == |a.assigns| && DbGood(elim, ca)
    requires Steps.Explained(a, b, ca, ps) && forall q :: q in ps && q.v < |elim| ==> !elim[q.v]
    ensures TrailGood(elim, b.assigns, b.trail)
  {
    forall v | IsSet(b, v) ensures !elim[v] && Lit(v, b.assigns[v] == LFalse) in b.trail {
      if !IsSet(a, v) && exists r :: Steps.LiveHead(ca, r, v) {
        var r :| Steps.LiveHead(ca, r, v);
        assert Good(elim, ca[r]);
      }
      assert IsTrue(b, b.trail[b.pos[v]]);
    }
    forall i | 0 <= i < |b.trail| ensures b.trail[i].v < |b.assigns| && b.assigns[b.trail[i].v] == ValueOf(b.trail[i].sign) && b.pos[b.trail[i].v] == i {
      assert IsTrue(b, b.trail[i]);
    }
  }

  /** After propagation, possibly of literals of ps. */
  lemma TablesPropagated(elim: seq<bool>, a: Asg, ca: seq<Clause>, occurs: seq<seq<CRef>>, dirty: set<Var>, abs: seq<set<nat>>,
                         b: Asg, ca': seq<Clause>, ps: seq<Lit>)
    requires Tables(elim, a.assigns, a.trail, ca, occurs, dirty, abs) && Reworked(ca, ca')
    requires TrailInv(b) && |b.assigns| == |a.assigns| && Steps.Explained(a, b, ca', ps) && forall q :: q in ps && q.v < |elim| ==> !elim[q.v]
    ensures Tables(elim, b.assigns, b.trail, ca', occurs, dirty, abs)
  {
    hide DbGood, TrailGood, OccGood, AbsGood, Reworked, TrailInv, Steps.Explained;
    ReworkedKeeps(elim, ca, ca', occurs, dirty);
    ReworkedAbs(ca, ca', abs);
    ExplainedTrail(elim, a, b, ca', ps);
  }

  lemma AgendaPropagated(queue: seq<CRef>, used: nat, ca: seq<Clause>, trail: seq<Lit>, lim: int, loose: set<CRef>, ca': seq<Clause>, trail': seq<Lit>)
    requires Agenda(queue, used, ca, trail, lim, loose) && Reworked(ca, ca') && trail <= trail'
    ensures Agenda(queue, used, ca', trail', lim, loose)
  {
    forall i, r | 0 <= i < used && 0 <= r < |ca'| && !ca'[r].deleted && Short(ca'[r], lim) ensures !Mentioned(ca'[r].lits, trail'[i].v) {
      Normalising.SameMultiset(ca[r].lits, ca'[r].lits);
      SameMentions(ca'[r].lits, ca[r].lits);
      assert !Mentioned(ca[r].lits, trail[i].v);
    }
  }

  // ---------- removing and strengthening ----------

  lemma TablesRemoved(elim: seq<bool>, values: seq<LBool>, trail: seq<Lit>, ca: seq<Clause>, occurs: seq<seq<CRef>>,
                      dirty: set<Var>, abs: seq<set<nat>>, r: CRef)
    requires Tables(elim, values, trail, ca, occurs, dirty, abs) && r < |ca| && !ca[r].deleted
    ensures Tables(elim, values, trail, Deleted(ca, r), occurs, dirty + VarSet(ca[r].lits), abs)
    ensures TotalLits(Deleted(ca, r)) < TotalLits(ca) && Meaning.NoLearnts(Deleted(ca, r))
  {
    hide DbGood, TrailGood, OccGood;
    RemovalKeepsDb(elim, ca, r);
    RemovalKeepsOcc(|elim|, ca, occurs, dirty, r);
    assert Meaning.NoLearnts(Deleted(ca, r)) by { TablesParts(elim, values, trail, ca, occurs, dirty, abs); }
  }

  lemma AgendaRemoved(queue: seq<CRef>, used: nat, ca: seq<Clause>, trail: seq<Lit>, lim: int, loose: set<CRef>, r: CRef)
    requires Agenda(queue, used, ca, trail, lim, loose) && r < |ca|
    ensures Agenda(queue, used, Deleted(ca, r), trail, lim, loose)
  {
  }

  lemma TablesShortened(elim: seq<bool>, values: seq<LBool>, trail: seq<Lit>, ca: seq<Clause>, occurs: seq<seq<CRef>>,
                        dirty: set<Var>, abs: seq<set<nat>>, r: CRef, l: Lit, d: Clause, cs: seq<CRef>)
    requires Tables(elim, values, trail, ca, occurs, dirty, abs) && r < |ca| && !ca[r].deleted && |ca[r].lits| > 2
    requires Shortened(ca[r], l, d) && l.v < |occurs| && Without(occurs[l.v], r, cs) && r < |abs|
    ensures Tables(elim, values, trail, ca[r := d], occurs[l.v := cs], dirty, abs[r := Resolution.Abstraction(d.lits)])
    ensures TotalLits(ca[r := d]) < TotalLits(ca) && Meaning.NoLearnts(ca[r := d])
  {
    hide DbGood, TrailGood, Shortened;
    assert d.deleted == ca[r].deleted && d.learnt == ca[r].learnt by { ShortenedFlags(ca[r], l, d); }
    ShortenedKeeps(elim, ca, occurs, dirty, r, l, d, cs);
    TablesParts(elim, values, trail, ca, occurs, dirty, abs);
  }

  lemma ShortenedFlags(c: Clause, l: Lit, d: Clause)
    requires Shortened(c, l, d)
    ensures d.deleted == c.deleted && d.learnt == c.learnt && |d.lits| == |c.lits| - 1 && forall q :: q in d.lits ==> q in c.lits
  {
  }

  lemma AgendaShortened(queue: seq<CRef>, used: nat, ca: seq<Clause>, trail: seq<Lit>, lim: int, loose: set<CRef>, r: CRef, l: Lit, d: Clause)
    requires Agenda(queue, used, ca, trail, lim, loose) && r < |ca| && !ca[r].deleted && Short(ca[r], lim) && Shortened(ca[r], l, d)
    ensures Agenda(queue, used, ca[r := d], trail, lim, loose + {r})
  {
    hide Shortened;
    ShortenedFlags(ca[r], l, d);
    var ca' := ca[r := d];
    forall i, x | 0 <= i < used && 0 <= x < |ca'| && !ca'[x].deleted && Short(ca'[x], lim) ensures !Mentioned(ca'[x].lits, trail[i].v) {
      assert !Mentioned(ca[x].lits, trail[i].v);
      MentionedBefore(ca[r].lits, d.lits, trail[i].v);
    }
  }

  lemma MentionedBefore(c: seq<Lit>, d: seq<Lit>, v: Var)
    requires Resolution.Included(d, c)
    ensures Mentioned(d, v) ==> Mentioned(c, v)
  {
    forall k | 0 <= k < |d| && d[k].v == v ensures Mentioned(c, v) {
      assert d[k] in d;
      var h :| 0 <= h < |c| && c[h] == d[k];
    }
  }

  /** Once the next literal occurs in no short clause, it counts as used. */
  lemma AgendaUsed(queue: seq<CRef>, used: nat, ca: seq<Clause>, trail: seq<Lit>, lim: int, loose: set<CRef>)
    requires Agenda(queue, used, ca, trail, lim, loose) && used < |trail|
    requires forall r :: 0 <= r < |ca| && !ca[r].deleted && Short(ca[r], lim) ==> !Mentioned(ca[r].lits, trail[used].v)
    ensures Agenda(queue, used + 1, ca, trail, lim, loose)
  {
  }

  /** No short clause has an assigned literal. */
  ghost predicate NoneAssigned(ca: seq<Clause>, values: seq<LBool>, lim: int) {
    forall r, k :: 0 <= r < |ca| && !ca[r].deleted && Short(ca[r], lim) && 0 <= k < |ca[r].lits| && ca[r].lits[k].v < |values| ==>
      values[ca[r].lits[k].v] == LUndef
  }

  /** When the whole trail has been used, no short clause has an assigned literal. */
  lemma AllUsed(elim: seq<bool>, values: seq<LBool>, trail: seq<Lit>, queue: seq<CRef>, ca: seq<Clause>, lim: int, loose: set<CRef>)
    requires TrailGood(elim, values, trail) && Agenda(queue, |trail|, ca, trail, lim, loose)
    ensures NoneAssigned(ca, values, lim)
    ensures forall r, k :: r in loose && r < |ca| && !ca[r].deleted && 0 <= k < |ca[r].lits| ==>
              !(ca[r].lits[k].v < |values| && values[ca[r].lits[k].v] != LUndef)
  {
    forall r, k | 0 <= r < |ca| && !ca[r].deleted && Short(ca[r], lim) && 0 <= k < |ca[r].lits| && ca[r].lits[k].v < |values|
      ensures values[ca[r].lits[k].v] == LUndef
    {
      assert Mentioned(ca[r].lits, ca[r].lits[k].v);
      AssignedOnTrail(elim, values, trail, ca[r].lits[k].v);
    }
  }

  lemma AssignedOnTrail(elim: seq<bool>, values: seq<LBool>, trail: seq<Lit>, v: Var)
    requires TrailGood(elim, values, trail) && v < |values|
    ensures values[v] != LUndef ==> exists i :: 0 <= i < |trail| && trail[i].v == v
  {
    if values[v] != LUndef {
      var i :| 0 <= i < |trail| && trail[i] == Lit(v, values[v] == LFalse);
    }
  }

  lemma AgendaTight(queue: seq<CRef>, used: nat, ca: seq<Clause>, trail: seq<Lit>, lim: int, loose: set<CRef>)
    requires Agenda(queue, used, ca, trail, lim, loose)
    ensures Agenda(queue, used, ca, trail, lim, {})
  {
  }

  // ---------- storing a clause ----------

  lemma TablesStored(elim: seq<bool>, a: Asg, ca: seq<Clause>, occurs: seq<seq<CRef>>, dirty: set<Var>, abs: seq<set<nat>>,
                     ps: seq<Lit>, c: seq<Lit>, occurs': seq<seq<CRef>>)
    requires Tables(elim, a.assigns, a.trail, ca, occurs, dirty, abs) && Normalising.NormalForm(a, ps, c) && |c| > 1
    requires History.Entered(occurs, occurs', c, |c|, |ca|) && forall q :: q in ps ==> q.v < |elim| && !elim[q.v]
    ensures Tables(elim, a.assigns, a.trail, ca + [Clause(c, false, false)], occurs', dirty, abs + [Resolution.Abstraction(c)])
  {
    hide TrailGood, OccGood;
    var d := Clause(c, false, false);
    History.EnteredKeeps(|elim|, ca, occurs, dirty, occurs', d);
    assert Resolution.Distinct(c) && forall k :: 0 <= k < |c| ==> c[k] in ps;
    History.DbMore(elim, ca, d);
  }

  lemma AgendaStored(elim: seq<bool>, queue: seq<CRef>, used: nat, ca: seq<Clause>, a: Asg, lim: int, loose: set<CRef>, ps: seq<Lit>, c: seq<Lit>)
    requires Agenda(queue, used, ca, a.trail, lim, loose) && TrailGood(elim, a.assigns, a.trail) && Normalising.NormalForm(a, ps, c)
    ensures Agenda(queue + [|ca|], used, ca + [Clause(c, false, false)], a.trail, lim, loose)
  {
    forall i | 0 <= i < |a.trail| ensures !Mentioned(c, a.trail[i].v) {
      assert IsSet(a, a.trail[i].v);
    }
  }

  lemma AgendaQueued(queue: seq<CRef>, used: nat, ca: seq<Clause>, trail: seq<Lit>, lim: int, loose: set<CRef>, r: CRef)
    requires Agenda(queue, used, ca, trail, lim, loose) && r < |ca|
    ensures Agenda(queue + [r], used, ca, trail, lim, loose)
  {
  }

  lemma AgendaTaken(queue: seq<CRef>, used: nat, ca: seq<Clause>, trail: seq<Lit>, lim: int, loose: set<CRef>)
    requires Agenda(queue, used, ca, trail, lim, loose) && queue != []
    ensures queue[0] < |ca| && Agenda(queue[1..], used, ca, trail, lim, loose)
  {
  }

  lemma TablesCleaned(elim: seq<bool>, values: seq<LBool>, trail: seq<Lit>, ca: seq<Clause>, occurs: seq<seq<CRef>>,
                      dirty: set<Var>, abs: seq<set<nat>>, v: Var)
    requires Tables(elim, values, trail, ca, occurs, dirty, abs) && v < |occurs|
    ensures forall i :: 0 <= i < |occurs[v]| ==> occurs[v][i] < |ca|
    ensures Tables(elim, values, trail, ca, occurs[v := LiveRefs(ca, occurs[v])], dirty - {v}, abs)
  {
    hide DbGood, TrailGood, OccGood, AbsGood;
    OccSize(|elim|, ca, occurs, dirty);
    CleanKeeps(|elim|, ca, occurs, dirty, v);
  }

  lemma TablesGrown(elim: seq<bool>, values: seq<LBool>, trail: seq<Lit>, ca: seq<Clause>, occurs: seq<seq<CRef>>,
                    dirty: set<Var>, abs: seq<set<nat>>)
    requires Tables(elim, values, trail, ca, occurs, dirty, abs)
    ensures Tables(elim + [false], values + [LUndef], trail, ca, occurs + [[]], dirty, abs)
  {
    History.VarKeeps(elim, ca, values, trail, occurs, dirty);
  }
}
