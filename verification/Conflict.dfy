/**
 Conflict analysis on values: the marks, what has been derived from them, and why dropping a literal
 whose reason is covered by other marks is sound.
 */
module ConflictAnalysis {
  import opened Literals
  import opened Assignment
  import opened Meaning
  import Invariant

  ghost predicate Marked(a: Asg, seen: seq<bool>, k: int) {
    0 <= k < |a.trail| && a.trail[k].v < |seen| && seen[a.trail[k].v]
  }

  ghost predicate MarksBelow(a: Asg, seen: seq<bool>) {
    |seen| == |a.assigns| == |a.level| && forall v :: 0 <= v < |seen| && seen[v] ==> IsSet(a, v) && a.level[v] > 0
  }

  /** Some marked literal of the trail fails in m. */
  ghost predicate Refuted(m: Model, a: Asg, seen: seq<bool>) {
    exists k :: Marked(a, seen, k) && !Holds(m, a.trail[k])
  }

  ghost function CountMarked(a: Asg, seen: seq<bool>, lo: int, hi: int): nat
    decreases hi - lo
  {
    if hi <= lo then 0 else CountMarked(a, seen, lo, hi - 1) + if Marked(a, seen, hi - 1) then 1 else 0
  }

  lemma {:induction false} CountNone(a: Asg, seen: seq<bool>, lo: int, hi: int)
    requires forall k :: lo <= k < hi ==> !Marked(a, seen, k)
    ensures CountMarked(a, seen, lo, hi) == 0
    decreases hi - lo
  {
    if lo < hi {
      CountNone(a, seen, lo, hi - 1);
    }
  }

  lemma {:induction false} CountSome(a: Asg, seen: seq<bool>, lo: int, hi: int, k: int)
    requires lo <= k < hi && Marked(a, seen, k)
    ensures CountMarked(a, seen, lo, hi) > 0
    decreases hi - lo
  {
    if k < hi - 1 {
      CountSome(a, seen, lo, hi - 1, k);
    }
  }

  /** Changing the mark of one variable changes the count by one exactly when its position is counted. */
  lemma {:induction false} CountUpdate(a: Asg, seen: seq<bool>, v: Var, lo: int, hi: int)
    requires TrailInv(a) && |seen| == |a.assigns| && IsSet(a, v) && !seen[v] && hi <= |a.trail| && 0 <= lo
    ensures CountMarked(a, seen[v := true], lo, hi) == CountMarked(a, seen, lo, hi) + if lo <= a.pos[v] < hi then 1 else 0
    decreases hi - lo
  {
    if lo < hi {
      CountUpdate(a, seen, v, lo, hi - 1);
      assert IsTrue(a, a.trail[hi - 1]);
    }
  }

  /** The literals below the current level that are marked, each once. */
  ghost predicate LowOk(a: Asg, seen: seq<bool>, low: seq<Lit>) {
    && |seen| == |a.level|
    && (forall i :: 0 <= i < |low| ==> IsFalse(a, low[i]) && low[i].v < |seen| && seen[low[i].v] && a.level[low[i].v] < |a.lim|)
    && (forall i, j :: 0 <= i < j < |low| ==> low[i].v != low[j].v)
    && (forall v :: 0 <= v < |seen| && seen[v] && a.level[v] < |a.lim| ==> HasVar(low, v))
  }

  ghost predicate HasVar(c: seq<Lit>, v: int) {
    exists i :: 0 <= i < |c| && c[i].v == v
  }

  /** pathC counts the marked literals of the current level; none lies beyond index. */
  ghost predicate CountOk(a: Asg, seen: seq<bool>, pathC: nat, index: int) {
    && index < |a.trail|
    && (forall k :: index < k ==> !Marked(a, seen, k))
    && pathC == CountMarked(a, seen, LevelStart(a), index + 1)
  }

  ghost predicate MarkInv(a: Asg, seen: seq<bool>, low: seq<Lit>, pathC: nat, index: int) {
    MarksBelow(a, seen) && LowOk(a, seen, low) && CountOk(a, seen, pathC, index)
  }

  lemma MarkCount(a: Asg, seen: seq<bool>, pathC: nat, index: int, q: Lit)
    requires TrailInv(a) && |seen| == |a.assigns| && CountOk(a, seen, pathC, index)
    requires IsFalse(a, q) && !seen[q.v] && a.pos[q.v] <= index
    ensures CountOk(a, seen[q.v := true], if a.level[q.v] >= |a.lim| then pathC + 1 else pathC, index)
  {
    var seen' := seen[q.v := true];
    FalseOnTrail(a, q);
    CurrentLevel(a, q.v);
    CountUpdate(a, seen, q.v, LevelStart(a), index + 1);
    forall k | index < k ensures !Marked(a, seen', k) {
      if k < |a.trail| {
        assert !Marked(a, seen, k) && IsTrue(a, a.trail[k]);
      }
    }
  }

  /** Marking one more false literal. */
  lemma MarkOne(a: Asg, seen: seq<bool>, low: seq<Lit>, pathC: nat, index: int, q: Lit)
    requires TrailInv(a) && MarkInv(a, seen, low, pathC, index)
    requires IsFalse(a, q) && !seen[q.v] && a.level[q.v] > 0 && a.pos[q.v] <= index
    ensures var here := a.level[q.v] >= |a.lim|;
            MarkInv(a, seen[q.v := true], if here then low else low + [q], if here then pathC + 1 else pathC, index)
  {
    MarkCount(a, seen, pathC, index, q);
    MarkLow(a, seen, low, q);
  }

  lemma HasVarAppend(c: seq<Lit>, q: Lit)
    ensures forall v :: HasVar(c + [q], v) <==> HasVar(c, v) || v == q.v
  {
    forall v | HasVar(c, v) ensures HasVar(c + [q], v) {
      var i :| 0 <= i < |c| && c[i].v == v;
      assert (c + [q])[i].v == v;
    }
    assert (c + [q])[|c|].v == q.v;
  }

  lemma MarkLow(a: Asg, seen: seq<bool>, low: seq<Lit>, q: Lit)
    requires LowOk(a, seen, low) && IsFalse(a, q) && q.v < |seen| && !seen[q.v]
    ensures LowOk(a, seen[q.v := true], if a.level[q.v] >= |a.lim| then low else low + [q])
  {
    hide HasVar;
    HasVarAppend(low, q);
  }

  lemma UnmarkCount(a: Asg, seen: seq<bool>, pathC: nat, index: int, i: nat)
    requires TrailInv(a) && |seen| == |a.assigns| && CountOk(a, seen, pathC, index)
    requires LevelStart(a) <= i <= index && Marked(a, seen, i) && forall k :: i < k <= index ==> !Marked(a, seen, k)
    ensures pathC > 0 && CountOk(a, seen[a.trail[i].v := false], pathC - 1, i - 1)
  {
    var v := a.trail[i].v;
    assert IsTrue(a, a.trail[i]) && IsSet(a, v);
    var seen' := seen[v := false];
    assert seen'[v := true] == seen;
    CountUpdate(a, seen', v, LevelStart(a), index + 1);
    forall k | i - 1 < k ensures !Marked(a, seen', k) {
      assert k > i ==> !Marked(a, seen, k);
    }
    CountTail(a, seen', LevelStart(a), i, index + 1);
  }

  /** Taking the mark off the literal at the last marked position. */
  lemma Unmark(a: Asg, seen: seq<bool>, low: seq<Lit>, pathC: nat, index: int, i: nat)
    requires TrailInv(a) && MarkInv(a, seen, low, pathC, index)
    requires LevelStart(a) <= i <= index && Marked(a, seen, i) && forall k :: i < k <= index ==> !Marked(a, seen, k)
    ensures pathC > 0 && MarkInv(a, seen[a.trail[i].v := false], low, pathC - 1, i - 1)
    ensures a.level[a.trail[i].v] == |a.lim|
  {
    var v := a.trail[i].v;
    assert IsTrue(a, a.trail[i]) && IsSet(a, v) && LevelOk(a, v);
    CurrentLevel(a, v);
    UnmarkCount(a, seen, pathC, index, i);
  }

  lemma {:induction false} CountTail(a: Asg, seen: seq<bool>, lo: int, mid: int, hi: int)
    requires lo <= mid <= hi && forall k :: mid <= k < hi ==> !Marked(a, seen, k)
    ensures CountMarked(a, seen, lo, hi) == CountMarked(a, seen, lo, mid)
    decreases hi - mid
  {
    if mid < hi {
      CountTail(a, seen, lo, mid, hi - 1);
    }
  }

  // ---------- what has been derived ----------

  /** With p still to be resolved away: a model of the facts fails p or one of the marked literals. */
  ghost predicate Derived(ca: seq<Clause>, a: Asg, seen: seq<bool>, p: Option<Lit>) {
    forall m: Model :: Facts(m, ca, a) ==> p.None? || !Holds(m, p.value) || Refuted(m, a, seen)
  }

  /** The clause to be resolved next: the conflict, or the reason of p. */
  ghost predicate Pending(ca: seq<Clause>, a: Asg, p: Option<Lit>, r: CRef, index: int) {
    && r < |ca| && !ca[r].deleted && |ca[r].lits| >= 1 && SameSize(a)
    && (p.None? ==> IsFalse(a, ca[r].lits[0]) && a.pos[ca[r].lits[0].v] <= index)
    && (p.Some? ==> ca[r].lits[0] == p.value)
    && (forall k :: 1 <= k < |ca[r].lits| ==> IsFalse(a, ca[r].lits[k]) && a.pos[ca[r].lits[k].v] <= index)
  }

  ghost function FirstLit(p: Option<Lit>): nat {
    if p.None? then 0 else 1
  }

  /** Every literal of the clause from index j0 up to j is marked or at level 0. */
  ghost predicate Covered(a: Asg, seen: seq<bool>, lits: seq<Lit>, from: nat, to: int) {
    forall k :: from <= k < to && k < |lits| ==>
      lits[k].v < |seen| && lits[k].v < |a.level| && (seen[lits[k].v] || a.level[lits[k].v] == 0)
  }

  ghost predicate Grown(seen: seq<bool>, seen': seq<bool>) {
    |seen| == |seen'| && forall v :: 0 <= v < |seen| && seen[v] ==> seen'[v]
  }

  ghost predicate AllRefuted(ca: seq<Clause>, a: Asg, seen: seq<bool>) {
    forall m: Model :: Facts(m, ca, a) ==> Refuted(m, a, seen)
  }

  /** One resolution step: once the other literals of the clause are marked, p is no longer needed. */
  lemma Resolve(ca: seq<Clause>, a: Asg, seen: seq<bool>, seen': seq<bool>, p: Option<Lit>, r: CRef, index: int)
    requires TrailInv(a) && |seen| == |a.assigns| && Derived(ca, a, seen, p) && Pending(ca, a, p, r, index)
    requires Grown(seen, seen') && Covered(a, seen', ca[r].lits, FirstLit(p), |ca[r].lits|)
    ensures AllRefuted(ca, a, seen')
  {
    forall m: Model | Facts(m, ca, a) ensures Refuted(m, a, seen') {
      if Refuted(m, a, seen) {
        var k :| Marked(a, seen, k) && !Holds(m, a.trail[k]);
        assert Marked(a, seen', k);
      } else {
        assert Sat(m, ca[r].lits);
        var q :| q in ca[r].lits && Holds(m, q);
        var k :| 0 <= k < |ca[r].lits| && ca[r].lits[k] == q;
        assert k >= FirstLit(p);
        FalseOnTrail(a, q);
        if a.level[q.v] == 0 {
          FalseAtTop(ca, a, m, q);
          assert false;
        } else {
          assert Marked(a, seen', a.pos[q.v]);
        }
      }
    }
  }

  /** Unmarking the literal at position i makes it the one to be resolved. */
  lemma Select(ca: seq<Clause>, a: Asg, seen: seq<bool>, i: nat)
    requires TrailInv(a) && Marked(a, seen, i) && AllRefuted(ca, a, seen)
    ensures Derived(ca, a, seen[a.trail[i].v := false], Some(a.trail[i]))
  {
  }

  /** While another literal of the level is marked, the selected one is not the decision, so it has a reason. */
  lemma NotTheDecision(a: Asg, ca: seq<Clause>, assumptions: seq<Lit>, seen: seq<bool>, i: nat)
    requires TrailInv(a) && ReasonInv(a, ca) && DecisionInv(a, assumptions) && !a.probing && i < |a.trail|
    requires a.level[a.trail[i].v] == |a.lim| > 0 && CountMarked(a, seen, LevelStart(a), i) > 0
    ensures a.reason[a.trail[i].v].Some?
    ensures Pending(ca, a, Some(a.trail[i]), a.reason[a.trail[i].v].value, i - 1)
  {
  }

  lemma CoverOne(a: Asg, seen: seq<bool>, seen': seq<bool>, lits: seq<Lit>, from: nat, k: nat)
    requires Covered(a, seen, lits, from, k) && Grown(seen, seen') && from <= k < |lits|
    requires lits[k].v < |seen| && lits[k].v < |a.level| && (seen'[lits[k].v] || a.level[lits[k].v] == 0)
    ensures Covered(a, seen', lits, from, k + 1)
  {
  }

  /** The invariant of the first phase of conflict analysis. */
  ghost predicate AnalyzeInv(ca: seq<Clause>, a: Asg, seen: seq<bool>, low: seq<Lit>, pathC: nat, index: int,
                             p: Option<Lit>, r: CRef) {
    && MarkInv(a, seen, low, pathC, index) && Derived(ca, a, seen, p) && Pending(ca, a, p, r, index)
    && (p.Some? ==> pathC > 0)
    && (p.None? ==> exists k :: 0 <= k < |ca[r].lits| && AtLevel(a, ca[r].lits[k]))
  }

  ghost predicate AtLevel(a: Asg, q: Lit) {
    q.v < |a.level| && a.level[q.v] == |a.lim|
  }

  /** After marking a clause there is something left to select at the current level. */
  lemma SomethingMarked(ca: seq<Clause>, a: Asg, seen: seq<bool>, low: seq<Lit>, pathC: nat, index: int,
                        p: Option<Lit>, r: CRef)
    requires TrailInv(a) && a.lim != [] && MarkInv(a, seen, low, pathC, index) && Pending(ca, a, p, r, index)
    requires p.None? && Covered(a, seen, ca[r].lits, 0, |ca[r].lits|)
    requires exists k :: 0 <= k < |ca[r].lits| && AtLevel(a, ca[r].lits[k])
    ensures pathC > 0
  {
    var k :| 0 <= k < |ca[r].lits| && AtLevel(a, ca[r].lits[k]);
    var q := ca[r].lits[k];
    FalseOnTrail(a, q);
    CurrentLevel(a, q.v);
    assert Marked(a, seen, a.pos[q.v]);
    CountSome(a, seen, LevelStart(a), index + 1, a.pos[q.v]);
  }

  /** The learnt clause as it leaves the first phase. */
  ghost predicate FirstUip(ca: seq<Clause>, a: Asg, seen: seq<bool>, low: seq<Lit>, p: Lit) {
    && IsTrue(a, p) && AtLevel(a, p)
    && MarksBelow(a, seen) && LowOk(a, seen, low) && Derived(ca, a, seen, Some(p))
    && (forall v :: 0 <= v < |seen| && seen[v] ==> v < |a.level| && a.level[v] < |a.lim|)
  }

  lemma ReachedUip(ca: seq<Clause>, a: Asg, seen: seq<bool>, low: seq<Lit>, index: int, p: Lit)
    requires TrailInv(a) && MarkInv(a, seen, low, 0, index) && Derived(ca, a, seen, Some(p)) && IsTrue(a, p) && AtLevel(a, p)
    ensures FirstUip(ca, a, seen, low, p)
  {
    forall v | 0 <= v < |seen| && seen[v] ensures v < |a.level| && a.level[v] < |a.lim| {
      assert IsSet(a, v);
      if a.level[v] >= |a.lim| {
        CurrentLevel(a, v);
        assert Marked(a, seen, a.pos[v]);
        if a.pos[v] <= index {
          CountSome(a, seen, LevelStart(a), index + 1, a.pos[v]);
        }
        assert false;
      }
    }
  }

  lemma StartAnalysis(ca: seq<Clause>, a: Asg, seen: seq<bool>, r: CRef)
    requires TrailInv(a) && |seen| == |a.assigns| && (forall v :: 0 <= v < |seen| ==> !seen[v]) && Invariant.Conflicting(a, ca, r)
    ensures AnalyzeInv(ca, a, seen, [], 0, |a.trail| - 1, None, r)
  {
    CountNone(a, seen, LevelStart(a), |a.trail|);
    assert AtLevel(a, ca[r].lits[1]);
    forall k | 0 <= k < |ca[r].lits| ensures IsFalse(a, ca[r].lits[k]) && a.pos[ca[r].lits[k].v] <= |a.trail| - 1 {
      FalseOnTrail(a, ca[r].lits[k]);
    }
  }

  lemma SelectKeeps(orig: seq<seq<Lit>>, assumptions: seq<Lit>, ca: seq<Clause>, a: Asg, seen: seq<bool>, low: seq<Lit>,
                    pathC: nat, index: int, i: nat)
    requires Invariant.DbInv(orig, assumptions, a, ca) && !a.probing && a.lim != [] && MarkInv(a, seen, low, pathC, index) && AllRefuted(ca, a, seen)
    requires LevelStart(a) <= i <= index && Marked(a, seen, i) && forall k :: i < k <= index ==> !Marked(a, seen, k)
    ensures pathC > 0 && i < |a.trail| && a.trail[i].v < |a.reason| == |seen|
    ensures pathC > 1 ==> a.reason[a.trail[i].v].Some?
    ensures pathC > 1 ==> AnalyzeInv(ca, a, seen[a.trail[i].v := false], low, pathC - 1, i - 1,
                                     Some(a.trail[i]), a.reason[a.trail[i].v].value)
    ensures pathC == 1 ==> FirstUip(ca, a, seen[a.trail[i].v := false], low, a.trail[i])
  {
    var q := a.trail[i];
    assert IsTrue(a, q);
    Select(ca, a, seen, i);
    Unmark(a, seen, low, pathC, index, i);
    var seen' := seen[q.v := false];
    if pathC > 1 {
      NotTheDecision(a, ca, assumptions, seen', i);
    } else {
      ReachedUip(ca, a, seen', low, i - 1, q);
    }
  }

  // ---------- minimisation ----------

  /** Every literal of the reason of v but the first is marked or at level 0. */
  ghost predicate Closed(ca: seq<Clause>, a: Asg, seen: seq<bool>, v: int) {
    && 0 <= v < |a.reason| && a.reason[v].Some? && a.reason[v].value < |ca|
    && Covered(a, seen, ca[a.reason[v].value].lits, 1, |ca[a.reason[v].value].lits|)
  }

  /** A mark stands for a literal of the clause, for a literal still to be expanded, or is covered by other marks. */
  ghost predicate Justified(ca: seq<Clause>, a: Asg, seen: seq<bool>, base: seq<Lit>, stack: seq<Lit>) {
    forall v :: 0 <= v < |seen| && seen[v] ==> HasVar(base, v) || HasVar(stack, v) || Closed(ca, a, seen, v)
  }

  lemma ClosedGrows(ca: seq<Clause>, a: Asg, seen: seq<bool>, seen': seq<bool>, v: int)
    requires Closed(ca, a, seen, v) && Grown(seen, seen')
    ensures Closed(ca, a, seen', v)
  {
  }

  /** The kept literals stand for the dropped ones: the reasons of the latter are covered by marks. */
  ghost predicate Represented(ca: seq<Clause>, a: Asg, seen: seq<bool>, kept: seq<Lit>) {
    forall v :: 0 <= v < |seen| && seen[v] ==> HasVar(kept, v) || Closed(ca, a, seen, v)
  }

  /**
   A model of the facts that fails every kept literal satisfies every marked literal of the trail, by induction
   along the trail: marks may refer to each other, but a reason only uses earlier literals.
   */
  lemma {:induction false} MarkedHold(ca: seq<Clause>, a: Asg, seen: seq<bool>, kept: seq<Lit>, m: Model, k: nat)
    requires TrailInv(a) && ReasonInv(a, ca) && MarksBelow(a, seen) && Represented(ca, a, seen, kept) && Facts(m, ca, a)
    requires forall i :: 0 <= i < |kept| ==> IsFalse(a, kept[i]) && !Holds(m, kept[i])
    requires Marked(a, seen, k)
    ensures Holds(m, a.trail[k])
    decreases k
  {
    var p := a.trail[k];
    assert IsTrue(a, p) && IsSet(a, p.v);
    if HasVar(kept, p.v) {
      var i :| 0 <= i < |kept| && kept[i].v == p.v;
      assert Neg(kept[i]) == p;
    } else {
      var c := ca[a.reason[p.v].value];
      assert ReasonOk(a, ca, a.reason[p.v].value, p);
      assert Sat(m, c.lits);
      var q :| q in c.lits && Holds(m, q);
      var j :| 0 <= j < |c.lits| && c.lits[j] == q;
      if j > 0 {
        FalseOnTrail(a, q);
        if a.level[q.v] == 0 {
          FalseAtTop(ca, a, m, q);
        } else {
          MarkedHold(ca, a, seen, kept, m, a.pos[q.v]);
        }
        assert false;
      }
    }
  }

  ghost predicate Entailed(ca: seq<Clause>, a: Asg, c: seq<Lit>) {
    forall m: Model :: Facts(m, ca, a) ==> Sat(m, c)
  }

  /** Dropping the represented literals leaves a clause that the facts still entail. */
  lemma MinimiseSound(ca: seq<Clause>, a: Asg, seen0: seq<bool>, seen: seq<bool>, kept: seq<Lit>, p: Lit)
    requires TrailInv(a) && ReasonInv(a, ca) && MarksBelow(a, seen) && Represented(ca, a, seen, kept)
    requires Derived(ca, a, seen0, Some(p)) && Grown(seen0, seen)
    requires forall i :: 0 <= i < |kept| ==> IsFalse(a, kept[i])
    ensures Entailed(ca, a, [Neg(p)] + kept)
  {
    var out := [Neg(p)] + kept;
    forall m: Model | Facts(m, ca, a) ensures Sat(m, out) {
      if !Sat(m, out) {
        forall i | 0 <= i < |kept| ensures !Holds(m, kept[i]) {
          assert out[i + 1] == kept[i];
          assert kept[i] in out;
        }
        assert out[0] == Neg(p) && Neg(p) in out;
        assert Refuted(m, a, seen0);
        var k :| Marked(a, seen0, k) && !Holds(m, a.trail[k]);
        MarkedHold(ca, a, seen, kept, m, k);
        assert false;
      }
    }
  }

  // ---------- the marks set while testing one literal ----------

  /** The marks are the earlier ones plus those on record from index top on, none of which was set before. */
  ghost predicate OnRecord(seen0: seq<bool>, seen: seq<bool>, toClear: seq<Lit>, top: nat) {
    && |seen0| == |seen| && top <= |toClear|
    && (forall v :: 0 <= v < |seen| ==> (seen[v] <==> seen0[v] || HasVar(toClear[top..], v)))
    && (forall j :: top <= j < |toClear| ==> toClear[j].v < |seen0| && !seen0[toClear[j].v])
  }

  /** Every mark is on record. */
  ghost predicate AllCleared(seen: seq<bool>, toClear: seq<Lit>) {
    && (forall v :: 0 <= v < |seen| && seen[v] ==> HasVar(toClear, v))
    && (forall i :: 0 <= i < |toClear| ==> toClear[i].v < |seen|)
  }

  ghost function Unmarked(seen: seq<bool>): nat {
    if seen == [] then 0 else Unmarked(seen[..|seen| - 1]) + if seen[|seen| - 1] then 0 else 1
  }

  lemma {:induction false} UnmarkedUpdate(seen: seq<bool>, v: nat)
    requires v < |seen| && !seen[v]
    ensures Unmarked(seen[v := true]) == Unmarked(seen) - 1
  {
    var last := |seen| - 1;
    if v < last {
      assert seen[v := true][..last] == seen[..last][v := true];
      UnmarkedUpdate(seen[..last], v);
    } else {
      assert seen[v := true][..last] == seen[..last];
    }
  }

  /** Marking one more literal and pushing it on the stack. */
  lemma PushKeeps(ca: seq<Clause>, a: Asg, seen: seq<bool>, base: seq<Lit>, stack: seq<Lit>, q: Lit)
    requires Justified(ca, a, seen, base, stack) && q.v < |seen|
    ensures Justified(ca, a, seen[q.v := true], base, stack + [q])
  {
    var seen' := seen[q.v := true];
    HasVarAppend(stack, q);
    forall v | 0 <= v < |seen'| && seen'[v] ensures HasVar(base, v) || HasVar(stack + [q], v) || Closed(ca, a, seen', v) {
      if v != q.v && Closed(ca, a, seen, v) {
        ClosedGrows(ca, a, seen, seen', v);
      }
    }
  }

  lemma RecordKeeps(seen0: seq<bool>, seen: seq<bool>, toClear: seq<Lit>, top: nat, q: Lit)
    requires OnRecord(seen0, seen, toClear, top) && q.v < |seen| && !seen[q.v]
    ensures OnRecord(seen0, seen[q.v := true], toClear + [q], top)
  {
    assert (toClear + [q])[top..] == toClear[top..] + [q];
    HasVarAppend(toClear[top..], q);
  }

  /** False literals that were propagated, so that their reasons can be expanded. */
  ghost predicate Expandable(a: Asg, c: seq<Lit>) {
    forall i :: 0 <= i < |c| ==> IsFalse(a, c[i]) && c[i].v < |a.reason| && a.reason[c[i].v].Some?
  }

  /** The state of the marks while the reasons on the stack are being expanded. */
  ghost predicate ExpandInv(ca: seq<Clause>, a: Asg, seen0: seq<bool>, seen: seq<bool>, toClear: seq<Lit>, top: nat,
                            base: seq<Lit>, stack: seq<Lit>) {
    && MarksBelow(a, seen) && Justified(ca, a, seen, base, stack) && OnRecord(seen0, seen, toClear, top) && Expandable(a, stack)
  }

  lemma ExpandOne(ca: seq<Clause>, a: Asg, seen0: seq<bool>, seen: seq<bool>, toClear: seq<Lit>, top: nat,
                  base: seq<Lit>, stack: seq<Lit>, q: Lit)
    requires TrailInv(a) && ExpandInv(ca, a, seen0, seen, toClear, top, base, stack) && Expandable(a, [q])
    requires q.v < |a.level| && q.v < |seen| && a.level[q.v] > 0 && !seen[q.v]
    ensures ExpandInv(ca, a, seen0, seen[q.v := true], toClear + [q], top, base, stack + [q])
    ensures Unmarked(seen[q.v := true]) + |stack + [q]| == Unmarked(seen) + |stack|
    ensures Grown(seen, seen[q.v := true])
  {
    assert [q][0] == q;
    PushKeeps(ca, a, seen, base, stack, q);
    RecordKeeps(seen0, seen, toClear, top, q);
    UnmarkedUpdate(seen, q.v);
  }

  lemma GrownTrans(s: seq<bool>, t: seq<bool>, u: seq<bool>)
    requires Grown(s, t) && Grown(t, u)
    ensures Grown(s, u)
  {
  }

  lemma CoveredGrows(a: Asg, seen: seq<bool>, seen': seq<bool>, lits: seq<Lit>, from: nat, to: int)
    requires Covered(a, seen, lits, from, to) && Grown(seen, seen')
    ensures Covered(a, seen', lits, from, to)
  {
  }

  /** The literals of a reason that may have to be expanded in turn. */
  lemma ReasonLiterals(a: Asg, ca: seq<Clause>, x: Lit)
    requires TrailInv(a) && ReasonInv(a, ca) && Expandable(a, [x])
    ensures SameSize(a) && x.v < |a.reason| && a.reason[x.v].Some? && a.reason[x.v].value < |ca|
    ensures var c := ca[a.reason[x.v].value].lits; |c| > 0 && forall k :: 1 <= k < |c| ==> IsFalse(a, c[k])
  {
    assert [x][0] == x;
    FalseOnTrail(a, x);
    assert IsSet(a, x.v);
    assert ReasonOk(a, ca, a.reason[x.v].value, a.trail[a.pos[x.v]]);
  }

  /** The literal at the top of the stack moves into the base while its reason is expanded. */
  lemma TakeTop(ca: seq<Clause>, a: Asg, seen0: seq<bool>, seen: seq<bool>, toClear: seq<Lit>, top: nat,
                base: seq<Lit>, stack: seq<Lit>)
    requires ExpandInv(ca, a, seen0, seen, toClear, top, base, stack) && stack != []
    ensures var x := stack[|stack| - 1];
            ExpandInv(ca, a, seen0, seen, toClear, top, base + [x], stack[..|stack| - 1]) && Expandable(a, [x])
  {
    var x, rest := stack[|stack| - 1], stack[..|stack| - 1];
    assert stack == rest + [x];
    HasVarAppend(rest, x);
    HasVarAppend(base, x);
  }

  lemma TopExpanded(ca: seq<Clause>, a: Asg, seen0: seq<bool>, seen: seq<bool>, toClear: seq<Lit>, top: nat,
                    base: seq<Lit>, stack: seq<Lit>, x: Lit)
    requires ExpandInv(ca, a, seen0, seen, toClear, top, base + [x], stack) && Closed(ca, a, seen, x.v)
    ensures ExpandInv(ca, a, seen0, seen, toClear, top, base, stack)
  {
  }

  lemma StartExpanding(ca: seq<Clause>, a: Asg, seen: seq<bool>, toClear: seq<Lit>, base: seq<Lit>, p: Lit)
    requires MarksBelow(a, seen) && Justified(ca, a, seen, base, []) && Expandable(a, [p])
    ensures ExpandInv(ca, a, seen, seen, toClear, |toClear|, base, [p])
  {
  }

  lemma EndExpanding(ca: seq<Clause>, a: Asg, seen0: seq<bool>, seen: seq<bool>, toClear0: seq<Lit>, toClear: seq<Lit>, base: seq<Lit>)
    requires ExpandInv(ca, a, seen0, seen, toClear, |toClear0|, base, []) && toClear0 <= toClear && AllCleared(seen0, toClear0)
    ensures MarksBelow(a, seen) && Justified(ca, a, seen, base, []) && AllCleared(seen, toClear)
  {
  }

  lemma ExpandFacts(ca: seq<Clause>, a: Asg, seen0: seq<bool>, seen: seq<bool>, toClear: seq<Lit>, top: nat,
                    base: seq<Lit>, stack: seq<Lit>)
    requires ExpandInv(ca, a, seen0, seen, toClear, top, base, stack)
    ensures top <= |toClear| && |seen| == |a.assigns| == |a.level| && OnRecord(seen0, seen, toClear, top)
  {
  }

  // ---------- the clause that is learnt ----------

  /** The literals kept so far are literals of low; every other one is covered by marks. */
  ghost predicate Kept(ca: seq<Clause>, a: Asg, seen: seq<bool>, low: seq<Lit>, i: nat, kept: seq<Lit>) {
    && |kept| <= i <= |low|
    && (forall k :: 0 <= k < |kept| ==> kept[k] in low[..i])
    && (forall k, h :: 0 <= k < h < |kept| ==> kept[k].v != kept[h].v)
    && (forall k :: 0 <= k < i ==> HasVar(kept, low[k].v) || Closed(ca, a, seen, low[k].v))
  }

  lemma KeepLiteral(ca: seq<Clause>, a: Asg, seen: seq<bool>, low: seq<Lit>, i: nat, kept: seq<Lit>)
    requires Kept(ca, a, seen, low, i, kept) && i < |low| && forall h, k :: 0 <= h < k < |low| ==> low[h].v != low[k].v
    ensures Kept(ca, a, seen, low, i + 1, kept + [low[i]])
  {
    HasVarAppend(kept, low[i]);
    var kept' := kept + [low[i]];
    assert low[..i + 1] == low[..i] + [low[i]];
    forall k | 0 <= k < |kept| ensures kept[k].v != low[i].v {
      var h :| 0 <= h < |low[..i]| && low[..i][h] == kept[k];
    }
  }

  lemma DropLiteral(ca: seq<Clause>, a: Asg, seen: seq<bool>, low: seq<Lit>, i: nat, kept: seq<Lit>)
    requires Kept(ca, a, seen, low, i, kept) && i < |low| && Closed(ca, a, seen, low[i].v)
    ensures Kept(ca, a, seen, low, i + 1, kept)
  {
  }

  lemma KeptGrows(ca: seq<Clause>, a: Asg, seen: seq<bool>, seen': seq<bool>, low: seq<Lit>, i: nat, kept: seq<Lit>)
    requires Kept(ca, a, seen, low, i, kept) && Grown(seen, seen')
    ensures Kept(ca, a, seen', low, i, kept)
  {
  }

  /** Every marked variable is a kept literal or covered, once the whole clause has been gone through. */
  lemma KeptRepresents(ca: seq<Clause>, a: Asg, seen: seq<bool>, low: seq<Lit>, kept: seq<Lit>)
    requires Kept(ca, a, seen, low, |low|, kept) && Justified(ca, a, seen, low, [])
    ensures Represented(ca, a, seen, kept)
  {
  }

  /** What conflict analysis hands to the search: an asserting clause and the level to return to. */
  ghost predicate Learnt(ca: seq<Clause>, a: Asg, out: seq<Lit>) {
    && out != [] && Entailed(ca, a, out) && NoDup(out)
    && (forall k :: 0 <= k < |out| ==> IsFalse(a, out[k]) && out[k].v < |a.level|)
    && a.level[out[0].v] == |a.lim|
    && (forall k :: 1 <= k < |out| ==> 0 < a.level[out[k].v] < |a.lim|)
  }

  lemma LearntShape(a: Asg, out: seq<Lit>, kept: seq<Lit>, q: Lit)
    requires IsTrue(a, q) && AtLevel(a, q) && out == [Neg(q)] + kept
    requires forall k :: 0 <= k < |kept| ==> IsFalse(a, kept[k]) && kept[k].v < |a.level| && 0 < a.level[kept[k].v] < |a.lim|
    requires forall k, h :: 0 <= k < h < |kept| ==> kept[k].v != kept[h].v
    ensures out != [] && NoDup(out) && out[0].v < |a.level| && a.level[out[0].v] == |a.lim|
    ensures forall k :: 0 <= k < |out| ==> IsFalse(a, out[k]) && out[k].v < |a.level|
    ensures forall k :: 1 <= k < |out| ==> 0 < a.level[out[k].v] < |a.lim|
  {
  }

  lemma LearntFromKept(ca: seq<Clause>, a: Asg, seen0: seq<bool>, seen: seq<bool>, low: seq<Lit>, kept: seq<Lit>, q: Lit)
    requires TrailInv(a) && ReasonInv(a, ca) && FirstUip(ca, a, seen0, low, q) && Grown(seen0, seen) && MarksBelow(a, seen)
    requires Kept(ca, a, seen, low, |low|, kept) && Justified(ca, a, seen, low, [])
    ensures Learnt(ca, a, [Neg(q)] + kept)
  {
    hide TrailInv, ReasonInv, Justified, Kept, MarksBelow, Grown, LowOk, Derived;
    KeptRepresents(ca, a, seen, low, kept);
    KeptFromLow(ca, a, seen0, seen, low, kept);
    MinimiseSound(ca, a, seen0, seen, kept, q);
    LearntShape(a, [Neg(q)] + kept, kept, q);
  }

  lemma KeptFromLow(ca: seq<Clause>, a: Asg, seen0: seq<bool>, seen: seq<bool>, low: seq<Lit>, kept: seq<Lit>)
    requires LowOk(a, seen0, low) && Grown(seen0, seen) && MarksBelow(a, seen) && Kept(ca, a, seen, low, |low|, kept)
    ensures forall k :: 0 <= k < |kept| ==> IsFalse(a, kept[k]) && kept[k].v < |a.level| && 0 < a.level[kept[k].v] < |a.lim|
    ensures forall k, h :: 0 <= k < h < |kept| ==> kept[k].v != kept[h].v
  {
  }

  /** The learnt clause with a literal of the greatest remaining level at index 1, and that level. */
  ghost predicate Asserting(ca: seq<Clause>, a: Asg, out: seq<Lit>, btlevel: nat) {
    && Learnt(ca, a, out) && btlevel < |a.lim|
    && (|out| == 1 ==> btlevel == 0)
    && (|out| > 1 ==> a.level[out[1].v] == btlevel)
    && (forall k :: 1 <= k < |out| ==> a.level[out[k].v] <= btlevel)
  }

  /** Exchanging two literals behind the first keeps what the clause promises. */
  lemma ExchangeKeepsLearnt(ca: seq<Clause>, a: Asg, out: seq<Lit>, i: nat)
    requires Learnt(ca, a, out) && 1 <= i < |out|
    ensures Learnt(ca, a, out[i := out[1]][1 := out[i]])
  {
    var d := out[i := out[1]][1 := out[i]];
    forall x | x in out ensures x in d {
      var k :| 0 <= k < |out| && out[k] == x;
      assert d[if k == 1 then i else if k == i then 1 else k] == x;
    }
    forall m: Model ensures Sat(m, out) == Sat(m, d) {
      SatSameElements(m, out, d);
    }
    forall k | 0 <= k < |d| ensures d[k] == out[if k == 1 then i else if k == i then 1 else k] {
    }
  }

  lemma ExchangeKeepsRest(out: seq<Lit>, i: nat)
    requires 1 <= i < |out|
    ensures var d := out[i := out[1]][1 := out[i]]; d[0] == out[0] && forall x :: x in d[1..] <==> x in out[1..]
  {
    var d := out[i := out[1]][1 := out[i]];
    assert forall k :: 0 <= k < |d[1..]| ==> d[1..][k] == out[1..][if k == 0 then i - 1 else if k == i - 1 then 0 else k];
    assert forall k :: 0 <= k < |d[1..]| ==> out[1..][k] == d[1..][if k == 0 then i - 1 else if k == i - 1 then 0 else k];
  }

  lemma LowFacts(a: Asg, seen: seq<bool>, low: seq<Lit>)
    requires LowOk(a, seen, low)
    ensures forall i :: 0 <= i < |low| ==> IsFalse(a, low[i]) && low[i].v < |a.level|
    ensures forall h, k :: 0 <= h < k < |low| ==> low[h].v != low[k].v
    ensures Grown(seen, seen)
  {
  }

  lemma NothingKeptYet(ca: seq<Clause>, a: Asg, seen: seq<bool>, low: seq<Lit>)
    ensures low[..0] == [] && Kept(ca, a, seen, low, 0, low[..0])
  {
  }

  lemma WriteLiteral(kept: seq<Lit>, i: nat, j: nat)
    requires j <= i < |kept|
    ensures kept[j := kept[i]][..j + 1] == kept[..j] + [kept[i]] && kept[j := kept[i]][i + 1..] == kept[i..][1..]
  {
  }

  lemma StartMinimising(ca: seq<Clause>, a: Asg, seen: seq<bool>, low: seq<Lit>, q: Lit)
    requires FirstUip(ca, a, seen, low, q)
    ensures MarksBelow(a, seen) && LowOk(a, seen, low) && Justified(ca, a, seen, low, []) && AllCleared(seen, [Neg(q)] + low)
  {
    var all := [Neg(q)] + low;
    forall v | 0 <= v < |seen| && seen[v] ensures HasVar(low, v) && HasVar(all, v) {
      var i :| 0 <= i < |low| && low[i].v == v;
      assert all[i + 1].v == v;
    }
  }

  lemma MarksSize(a: Asg, seen: seq<bool>)
    requires MarksBelow(a, seen)
    ensures |seen| == |a.assigns| == |a.level|
  {
  }

  lemma MarkFacts(a: Asg, seen: seq<bool>, lits: seq<Lit>, from: nat)
    ensures Grown(seen, seen) && Covered(a, seen, lits, from, from)
  {
  }

  lemma GrownOne(seen: seq<bool>, v: nat)
    requires v < |seen|
    ensures Grown(seen, seen) && Grown(seen, seen[v := true])
  {
  }
}
