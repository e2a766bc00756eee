/**
 The assignment part of the solver's state: values, trail, level separators and, per variable,
 the level, the reason and the position on the trail.
 */
module Assignment {
  import opened Literals

  /** A clause reference: an index into the clause database. */
  type CRef = nat

  datatype Clause = Clause(lits: seq<Lit>, learnt: bool, deleted: bool)

  /**
   The loose clauses are those whose watches may be out of order, as after strengthening in place; while probing, one
   level may hold several literals without a reason.
   */
  datatype Asg = Asg(
    assigns: seq<LBool>,
    trail: seq<Lit>,
    lim: seq<nat>,
    level: seq<nat>,
    reason: seq<Option<CRef>>,
    pos: seq<nat>,
    loose: set<CRef>,
    probing: bool)

  /** Only the order of the literals may differ, and only in a live clause. */
  ghost predicate SameClause(c: Clause, d: Clause) {
    && c.deleted == d.deleted && c.learnt == d.learnt && |c.lits| == |d.lits| && multiset(c.lits) == multiset(d.lits)
    && (c.deleted ==> c == d)
  }

  /** Only the order of literals in live clauses has changed. */
  ghost predicate Reworked(ca: seq<Clause>, cb: seq<Clause>) {
    |ca| == |cb| && forall r :: 0 <= r < |ca| ==> SameClause(ca[r], cb[r])
  }

  lemma ReworkedSize(ca: seq<Clause>, cb: seq<Clause>)
    requires Reworked(ca, cb)
    ensures |ca| == |cb|
  {
  }

  lemma ReworkedSelf(ca: seq<Clause>)
    ensures Reworked(ca, ca)
  {
  }

  lemma ReworkedTrans(ca: seq<Clause>, cb: seq<Clause>, cc: seq<Clause>)
    requires Reworked(ca, cb) && Reworked(cb, cc)
    ensures Reworked(ca, cc)
  {
  }

  ghost function Deleted(ca: seq<Clause>, r: CRef): seq<Clause>
    requires r < |ca|
  {
    ca[r := ca[r].(deleted := true)]
  }

  function ValueOf(sign: bool): LBool {
    if sign then LFalse else LTrue
  }

  ghost predicate TrueLit(values: seq<LBool>, p: Lit) {
    p.v < |values| && values[p.v] == ValueOf(p.sign)
  }

  ghost predicate FalseLit(values: seq<LBool>, p: Lit) {
    p.v < |values| && values[p.v] == ValueOf(!p.sign)
  }

  ghost predicate IsTrue(a: Asg, p: Lit) {
    TrueLit(a.assigns, p)
  }

  ghost predicate IsFalse(a: Asg, p: Lit) {
    FalseLit(a.assigns, p)
  }

  ghost predicate IsSet(a: Asg, v: int) {
    0 <= v < |a.assigns| && a.assigns[v] != LUndef
  }

  ghost predicate SameSize(a: Asg) {
    |a.assigns| == |a.level| == |a.reason| == |a.pos|
  }

  ghost predicate LimOk(a: Asg) {
    && (forall i :: 0 <= i < |a.lim| ==> a.lim[i] <= |a.trail|)
    && (forall i, j :: 0 <= i <= j < |a.lim| ==> a.lim[i] <= a.lim[j])
  }

  /** The position where the current decision level begins. */
  ghost function LevelStart(a: Asg): nat {
    if a.lim == [] then 0 else a.lim[|a.lim| - 1]
  }

  /** How much of the trail belongs to level 0. */
  ghost function Top(a: Asg): nat {
    if a.lim == [] then |a.trail| else a.lim[0]
  }

  ghost predicate LevelOk(a: Asg, v: Var)
    requires SameSize(a) && v < |a.assigns|
  {
    && a.level[v] <= |a.lim|
    && (a.level[v] > 0 ==> a.lim[a.level[v] - 1] <= a.pos[v])
    && (a.level[v] < |a.lim| ==> a.pos[v] < a.lim[a.level[v]])
  }

  ghost predicate TrailInv(a: Asg) {
    && SameSize(a)
    && LimOk(a)
    && (forall i :: 0 <= i < |a.trail| ==> IsTrue(a, a.trail[i]) && a.pos[a.trail[i].v] == i)
    && (forall v :: IsSet(a, v) ==> a.pos[v] < |a.trail| && a.trail[a.pos[v]].v == v)
    && (forall v :: IsSet(a, v) ==> LevelOk(a, v))
  }

  /** Clause r, at the time p was enqueued, was unit with p as its first literal. */
  ghost predicate ReasonOk(a: Asg, ca: seq<Clause>, r: CRef, p: Lit)
    requires SameSize(a)
  {
    && r < |ca| && !ca[r].deleted && |ca[r].lits| > 0 && ca[r].lits[0] == p && p.v < |a.pos|
    && forall k :: 1 <= k < |ca[r].lits| ==> IsFalse(a, ca[r].lits[k]) && a.pos[ca[r].lits[k].v] < a.pos[p.v]
  }

  ghost predicate ReasonInv(a: Asg, ca: seq<Clause>)
    requires TrailInv(a)
  {
    forall v :: IsSet(a, v) && a.reason[v].Some? ==> ReasonOk(a, ca, a.reason[v].value, a.trail[a.pos[v]])
  }

  /** A literal without a reason above level 0 opens its level, and is the assumption of that level if there is one. */
  ghost predicate DecisionInv(a: Asg, assumptions: seq<Lit>)
    requires TrailInv(a)
  {
    !a.probing ==> forall v :: IsSet(a, v) && a.reason[v] == None && a.level[v] > 0 ==>
      && a.pos[v] == a.lim[a.level[v] - 1]
      && (a.level[v] - 1 < |assumptions| ==> a.trail[a.pos[v]] == assumptions[a.level[v] - 1])
  }

  // ---------- transitions ----------

  ghost function Enqueue(a: Asg, p: Lit, from: Option<CRef>): Asg
    requires SameSize(a) && p.v < |a.assigns|
  {
    a.(assigns := a.assigns[p.v := ValueOf(p.sign)],
       trail := a.trail + [p],
       level := a.level[p.v := |a.lim|],
       reason := a.reason[p.v := from],
       pos := a.pos[p.v := |a.trail|])
  }

  ghost function OpenLevel(a: Asg): Asg {
    a.(lim := a.lim + [|a.trail|])
  }

  ghost function CancelledValue(a: Asg, level: nat, v: Var): LBool
    requires SameSize(a) && v < |a.assigns| && level < |a.lim|
  {
    if a.pos[v] < a.lim[level] then a.assigns[v] else LUndef
  }

  ghost function Cancel(a: Asg, level: nat): Asg
    requires SameSize(a) && level < |a.lim| && a.lim[level] <= |a.trail|
  {
    a.(assigns := seq(|a.assigns|, v requires 0 <= v < |a.assigns| => CancelledValue(a, level, v)),
       trail := a.trail[..a.lim[level]],
       lim := a.lim[..level])
  }

  // ---------- lemmas ----------

  lemma TrueOnTrail(a: Asg, p: Lit)
    requires TrailInv(a) && IsTrue(a, p)
    ensures a.pos[p.v] < |a.trail| && a.trail[a.pos[p.v]] == p
  {
  }

  lemma FalseOnTrail(a: Asg, p: Lit)
    requires TrailInv(a) && IsFalse(a, p)
    ensures a.pos[p.v] < |a.trail| && a.trail[a.pos[p.v]] == Neg(p)
  {
  }

  /** Levels grow along the trail. */
  lemma LevelMonotone(a: Asg, u: Var, v: Var)
    requires TrailInv(a) && IsSet(a, u) && IsSet(a, v) && a.pos[u] <= a.pos[v]
    ensures a.level[u] <= a.level[v]
  {
  }

  /** A variable is at level 0 exactly when it lies in the top-level part of the trail. */
  lemma LevelZero(a: Asg, v: Var)
    requires TrailInv(a) && IsSet(a, v)
    ensures a.level[v] == 0 <==> a.pos[v] < Top(a)
  {
  }

  /** A variable is at the current level exactly when it lies at or after the start of that level. */
  lemma CurrentLevel(a: Asg, v: Var)
    requires TrailInv(a) && IsSet(a, v)
    ensures a.level[v] >= |a.lim| <==> a.pos[v] >= LevelStart(a)
  {
  }

  lemma EnqueueKeepsTrail(a: Asg, p: Lit, from: Option<CRef>)
    requires TrailInv(a) && p.v < |a.assigns| && !IsSet(a, p.v)
    ensures var b := Enqueue(a, p, from);
            && TrailInv(b) && IsTrue(b, p)
            && (forall q :: IsTrue(a, q) ==> IsTrue(b, q))
            && (forall q :: IsTrue(b, q) && q != p ==> IsTrue(a, q))
  {
    var b := Enqueue(a, p, from);
    forall i | 0 <= i < |b.trail| ensures IsTrue(b, b.trail[i]) && b.pos[b.trail[i].v] == i {
      if i < |a.trail| {
        assert IsTrue(a, a.trail[i]);
      }
    }
    forall v | IsSet(b, v) ensures b.pos[v] < |b.trail| && b.trail[b.pos[v]].v == v && LevelOk(b, v) {
      if v != p.v {
        assert IsSet(a, v);
      }
    }
  }

  /** The assignment has only grown, at the same decision level, by implied literals. */
  ghost predicate Extends(a: Asg, b: Asg) {
    && SameSize(a) && SameSize(b) && |a.assigns| == |b.assigns| && a.lim == b.lim && a.trail <= b.trail
    && a.loose == b.loose && a.probing == b.probing
    && (forall v :: IsSet(b, v) ==> if IsSet(a, v) then b.reason[v] == a.reason[v] else b.reason[v].Some?)
    && forall q: Lit :: IsTrue(a, q) ==> IsTrue(b, q) && b.level[q.v] == a.level[q.v] && b.pos[q.v] == a.pos[q.v]
  }

  lemma EnqueueExtends(a: Asg, p: Lit, from: Option<CRef>)
    requires SameSize(a) && p.v < |a.assigns| && !IsSet(a, p.v) && from.Some?
    ensures Extends(a, Enqueue(a, p, from))
  {
  }

  lemma ExtendsTrans(a: Asg, b: Asg, c: Asg)
    requires Extends(a, b) && Extends(b, c)
    ensures Extends(a, c)
  {
    forall v | IsSet(a, v) ensures IsSet(b, v) {
      assert IsTrue(a, Lit(v, a.assigns[v] == LFalse));
    }
  }

  lemma EnqueueKeepsReasons(a: Asg, ca: seq<Clause>, p: Lit, from: Option<CRef>)
    requires TrailInv(a) && ReasonInv(a, ca) && p.v < |a.assigns| && !IsSet(a, p.v)
    requires from.Some? ==>
      && from.value < |ca| && !ca[from.value].deleted && |ca[from.value].lits| > 0 && ca[from.value].lits[0] == p
      && forall k :: 1 <= k < |ca[from.value].lits| ==> IsFalse(a, ca[from.value].lits[k])
    ensures TrailInv(Enqueue(a, p, from)) && ReasonInv(Enqueue(a, p, from), ca)
  {
    EnqueueKeepsTrail(a, p, from);
    var b := Enqueue(a, p, from);
    forall v | IsSet(b, v) && b.reason[v].Some?
      ensures ReasonOk(b, ca, b.reason[v].value, b.trail[b.pos[v]])
    {
      if v == p.v {
        forall k | 1 <= k < |ca[from.value].lits|
          ensures IsFalse(b, ca[from.value].lits[k]) && b.pos[ca[from.value].lits[k].v] < b.pos[p.v]
        {
          FalseOnTrail(a, ca[from.value].lits[k]);
        }
      } else {
        assert IsSet(a, v);
        assert ReasonOk(a, ca, a.reason[v].value, a.trail[a.pos[v]]);
        assert a.trail[a.pos[v]].v == v;
      }
    }
  }

  lemma EnqueueKeepsDecisions(a: Asg, assumptions: seq<Lit>, p: Lit, from: Option<CRef>)
    requires TrailInv(a) && DecisionInv(a, assumptions) && p.v < |a.assigns| && !IsSet(a, p.v)
    requires from.Some? || a.lim == [] || a.probing ||
             (LevelStart(a) == |a.trail| && (|a.lim| <= |assumptions| ==> p == assumptions[|a.lim| - 1]))
    ensures TrailInv(Enqueue(a, p, from)) && DecisionInv(Enqueue(a, p, from), assumptions)
  {
    EnqueueKeepsTrail(a, p, from);
    var b := Enqueue(a, p, from);
    forall v | !b.probing && IsSet(b, v) && b.reason[v] == None && b.level[v] > 0
      ensures b.pos[v] == b.lim[b.level[v] - 1]
      ensures b.level[v] - 1 < |assumptions| ==> b.trail[b.pos[v]] == assumptions[b.level[v] - 1]
    {
      if v != p.v {
        assert IsSet(a, v);
      }
    }
  }

  lemma OpenLevelKeeps(a: Asg, ca: seq<Clause>, assumptions: seq<Lit>)
    requires TrailInv(a) && ReasonInv(a, ca) && DecisionInv(a, assumptions)
    ensures var b := OpenLevel(a);
            && TrailInv(b) && ReasonInv(b, ca) && DecisionInv(b, assumptions)
            && Top(b) == Top(a) && LevelStart(b) == |b.trail|
            && (forall q :: IsTrue(a, q) <==> IsTrue(b, q))
  {
    var b := OpenLevel(a);
    forall i | 0 <= i < |b.trail| ensures IsTrue(b, b.trail[i]) && b.pos[b.trail[i].v] == i {
      assert IsTrue(a, a.trail[i]);
    }
    forall v | IsSet(b, v) ensures b.pos[v] < |b.trail| && b.trail[b.pos[v]].v == v && LevelOk(b, v) {
      assert IsSet(a, v);
    }
    forall v | IsSet(b, v) && b.reason[v].Some?
      ensures ReasonOk(b, ca, b.reason[v].value, b.trail[b.pos[v]])
    {
      assert IsSet(a, v);
      assert ReasonOk(a, ca, a.reason[v].value, a.trail[a.pos[v]]);
    }
    forall v | !b.probing && IsSet(b, v) && b.reason[v] == None && b.level[v] > 0
      ensures b.pos[v] == b.lim[b.level[v] - 1]
      ensures b.level[v] - 1 < |assumptions| ==> b.trail[b.pos[v]] == assumptions[b.level[v] - 1]
    {
      assert IsSet(a, v);
    }
  }

  /** Backtracking to a level keeps exactly the values of the variables at that level or below. */
  lemma CancelKeepsTrail(a: Asg, level: nat)
    requires TrailInv(a) && level < |a.lim|
    ensures var b := Cancel(a, level);
            && TrailInv(b)
            && (forall v :: IsSet(b, v) <==> IsSet(a, v) && a.level[v] <= level)
            && (forall p :: IsTrue(b, p) <==> IsTrue(a, p) && a.level[p.v] <= level)
            && (forall p :: IsFalse(b, p) <==> IsFalse(a, p) && a.level[p.v] <= level)
  {
    var b := Cancel(a, level);
    forall v | IsSet(a, v) ensures a.pos[v] < a.lim[level] <==> a.level[v] <= level {
      if a.level[v] > level {
        assert a.lim[level] <= a.lim[a.level[v] - 1];
      } else {
        assert a.lim[a.level[v]] <= a.lim[level];
      }
    }
    forall i | 0 <= i < |b.trail| ensures IsTrue(b, b.trail[i]) && b.pos[b.trail[i].v] == i {
      assert IsTrue(a, a.trail[i]);
    }
    forall v | IsSet(b, v) ensures b.pos[v] < |b.trail| && b.trail[b.pos[v]].v == v && LevelOk(b, v) {
      assert IsSet(a, v);
    }
  }

  lemma CancelKeepsReasons(a: Asg, ca: seq<Clause>, assumptions: seq<Lit>, level: nat)
    requires TrailInv(a) && ReasonInv(a, ca) && DecisionInv(a, assumptions) && level < |a.lim|
    ensures var b := Cancel(a, level);
            TrailInv(b) && ReasonInv(b, ca) && DecisionInv(b, assumptions)
  {
    CancelKeepsTrail(a, level);
    var b := Cancel(a, level);
    forall v | IsSet(b, v) && b.reason[v].Some?
      ensures ReasonOk(b, ca, b.reason[v].value, b.trail[b.pos[v]])
    {
      var r := a.reason[v].value;
      assert ReasonOk(a, ca, r, a.trail[a.pos[v]]);
      forall k | 1 <= k < |ca[r].lits| ensures IsFalse(b, ca[r].lits[k]) {
        LevelMonotone(a, ca[r].lits[k].v, v);
      }
    }
  }

  /** Distinct positions hold distinct variables, so the trail is never longer than the number of variables. */
  lemma {:induction false} DistinctBelow(vs: seq<Var>, n: nat)
    requires forall i :: 0 <= i < |vs| ==> vs[i] < n
    requires forall i, j :: 0 <= i < j < |vs| ==> vs[i] != vs[j]
    ensures |vs| <= n
  {
    if |vs| == 0 {
    } else if exists k :: 0 <= k < |vs| && vs[k] == n - 1 {
      var k :| 0 <= k < |vs| && vs[k] == n - 1;
      DistinctBelow(vs[..k] + vs[k + 1..], n - 1);
    } else {
      assert vs[0] < n - 1;
      DistinctBelow(vs, n - 1);
    }
  }

  lemma TrailLength(a: Asg)
    requires TrailInv(a)
    ensures |a.trail| <= |a.assigns|
  {
    DistinctBelow(seq(|a.trail|, i requires 0 <= i < |a.trail| => a.trail[i].v), |a.assigns|);
  }
}
