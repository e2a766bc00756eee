/**
 Which literals of a learnt clause are dropped: exactly those whose reasons lead back to other literals of the clause.
 The test for one literal leaves marks behind for the next ones; they do not change what is dropped.
 */
module Minimising {
  import opened Literals
  import opened Assignment
  import opened ConflictAnalysis
  import opened Implication
  import opened Learning
  import opened Steps

  /** Reasons are followed from v: it was propagated, and a literal of the clause may be of its level. */
  ghost predicate MayExpand(a: Asg, ca: seq<Clause>, levels: set<nat>, v: Var) {
    HasReason(a, ca, v) && v < |a.level| && a.level[v] % 32 in levels
  }

  /** The variables above level 0 in the reason of v that are not among the marks. */
  ghost function Open(a: Asg, ca: seq<Clause>, marks: set<Var>, v: Var): set<Var> {
    ReasonVars(a, ca, v) - marks
  }

  ghost function Inwards(a: Asg, ca: seq<Clause>, marks: set<Var>, levels: set<nat>): Graph {
    v => if MayExpand(a, ca, levels, v) then Open(a, ca, marks, v) else {}
  }

  /** w is led to from the reason of p without passing through a mark. */
  ghost predicate LedTo(a: Asg, ca: seq<Clause>, marks: set<Var>, levels: set<nat>, p: Var, w: Var) {
    exists u: Var :: u in Open(a, ca, marks, p) && Reaches(Inwards(a, ca, marks, levels), u, w)
  }

  /** The reason of p leads to something other than the marks. */
  ghost predicate Escapes(a: Asg, ca: seq<Clause>, marks: set<Var>, levels: set<nat>, p: Var) {
    exists w: Var :: LedTo(a, ca, marks, levels, p, w) && !MayExpand(a, ca, levels, w)
  }

  /** The signatures of the levels of some variables. */
  ghost function Signatures(a: Asg, s: set<Var>): set<nat> {
    set v | v in s && v < |a.level| :: a.level[v] % 32
  }

  /** What minimisation drops: nothing, or what the marks imply in one step, or in any number of steps. */
  ghost predicate Superfluous(a: Asg, ca: seq<Clause>, mode: nat, marks: set<Var>, v: Var) {
    && HasReason(a, ca, v)
    && if mode == 2 then !Escapes(a, ca, marks, Signatures(a, marks), v) else mode == 1 && Open(a, ca, marks, v) == {}
  }

  lemma LedStart(a: Asg, ca: seq<Clause>, marks: set<Var>, levels: set<nat>, p: Var, u: Var)
    requires u in Open(a, ca, marks, p)
    ensures LedTo(a, ca, marks, levels, p, u)
  {
    ReachesSelf(Inwards(a, ca, marks, levels), u);
  }

  lemma LedOn(a: Asg, ca: seq<Clause>, marks: set<Var>, levels: set<nat>, p: Var, v: Var, w: Var)
    requires LedTo(a, ca, marks, levels, p, v) && MayExpand(a, ca, levels, v) && w in Open(a, ca, marks, v)
    ensures LedTo(a, ca, marks, levels, p, w)
  {
    var u: Var :| u in Open(a, ca, marks, p) && Reaches(Inwards(a, ca, marks, levels), u, v);
    ReachesStep(Inwards(a, ca, marks, levels), u, v, w);
  }

  lemma LedInside(a: Asg, ca: seq<Clause>, marks: set<Var>, levels: set<nat>, s: set<Var>, p: Var, w: Var)
    requires LedTo(a, ca, marks, levels, p, w) && Open(a, ca, marks, p) <= s && ClosedUnder(Inwards(a, ca, marks, levels), s)
    ensures w in s
  {
    var u: Var :| u in Open(a, ca, marks, p) && Reaches(Inwards(a, ca, marks, levels), u, w);
    ReachesInside(Inwards(a, ca, marks, levels), s, u, w);
  }

  // ---------- the test of one literal ----------

  ghost predicate NewMark(seen0: seq<bool>, seen: seq<bool>, v: int) {
    0 <= v < |seen| && seen[v] && v < |seen0| && !seen0[v]
  }

  /** Every new mark was led to and may be expanded; it is to be expanded yet, or has been. */
  ghost predicate Tested(a: Asg, ca: seq<Clause>, levels: set<nat>, seen0: seq<bool>, seen: seq<bool>, p: Var, stack: seq<Lit>) {
    && |seen0| == |seen| && (HasVar(stack, p) || Closed(ca, a, seen, p))
    && (forall v :: NewMark(seen0, seen, v) ==>
          && MayExpand(a, ca, levels, v) && LedTo(a, ca, MarkSet(seen0), levels, p, v)
          && (HasVar(stack, v) || Closed(ca, a, seen, v)))
    && (forall k :: 0 <= k < |stack| ==> stack[k].v == p || NewMark(seen0, seen, stack[k].v))
  }

  lemma StartTest(a: Asg, ca: seq<Clause>, levels: set<nat>, seen: seq<bool>, p: Lit)
    ensures Tested(a, ca, levels, seen, seen, p.v, [p])
  {
    assert [p][0].v == p.v;
  }

  lemma TestTop(a: Asg, ca: seq<Clause>, levels: set<nat>, seen0: seq<bool>, seen: seq<bool>, p: Var, stack: seq<Lit>)
    requires Tested(a, ca, levels, seen0, seen, p, stack) && stack != []
    ensures Tested(a, ca, levels, seen0, seen, p, stack[..|stack| - 1] + [stack[|stack| - 1]])
  {
    assert stack[..|stack| - 1] + [stack[|stack| - 1]] == stack;
  }

  /** What is found in the reason of the literal being expanded is led to. */
  lemma TestFinds(a: Asg, ca: seq<Clause>, levels: set<nat>, seen0: seq<bool>, seen: seq<bool>, p: Var, stack: seq<Lit>, x: Lit, k: nat)
    requires Tested(a, ca, levels, seen0, seen, p, stack + [x]) && HasReason(a, ca, x.v) && Grown(seen0, seen)
    requires var lits := ca[a.reason[x.v].value].lits;
             1 <= k < |lits| && lits[k].v < |seen| && !seen[lits[k].v] && lits[k].v < |a.level| && a.level[lits[k].v] > 0
    ensures LedTo(a, ca, MarkSet(seen0), levels, p, ca[a.reason[x.v].value].lits[k].v)
  {
    hide LedTo, Closed, MayExpand;
    var lits := ca[a.reason[x.v].value].lits;
    InOtherVars(a, lits, 1, k);
    assert lits[k].v in Open(a, ca, MarkSet(seen0), x.v);
    assert (stack + [x])[|stack|] == x;
    if x.v == p {
      LedStart(a, ca, MarkSet(seen0), levels, p, lits[k].v);
    } else {
      LedOn(a, ca, MarkSet(seen0), levels, p, x.v, lits[k].v);
    }
  }

  lemma HasVarMiddle(stack: seq<Lit>, q: Lit, x: Lit)
    ensures forall v :: HasVar(stack + [q] + [x], v) <==> HasVar(stack + [x], v) || v == q.v
  {
    HasVarAppend(stack, q);
    HasVarAppend(stack + [q], x);
    HasVarAppend(stack, x);
  }

  /** It is marked, to be expanded in turn. */
  lemma TestMarks(a: Asg, ca: seq<Clause>, levels: set<nat>, seen0: seq<bool>, seen: seq<bool>, p: Var, stack: seq<Lit>, x: Lit, q: Lit)
    requires Tested(a, ca, levels, seen0, seen, p, stack + [x]) && Grown(seen0, seen) && q.v < |seen| && !seen[q.v]
    requires MayExpand(a, ca, levels, q.v) && LedTo(a, ca, MarkSet(seen0), levels, p, q.v)
    ensures Tested(a, ca, levels, seen0, seen[q.v := true], p, stack + [q] + [x])
  {
    hide LedTo, MayExpand, Closed;
    var seen' := seen[q.v := true];
    HasVarMiddle(stack, q, x);
    forall v | Closed(ca, a, seen, v) ensures Closed(ca, a, seen', v) {
      ClosedGrows(ca, a, seen, seen', v);
    }
    var old_, new_ := stack + [x], stack + [q] + [x];
    forall k | 0 <= k < |new_| ensures new_[k].v == p || NewMark(seen0, seen', new_[k].v) {
      if k != |stack| {
        assert new_[k] == old_[if k < |stack| then k else k - 1];
      }
    }
  }

  /** A literal whose reason has been gone through is done with. */
  lemma TestExpanded(a: Asg, ca: seq<Clause>, levels: set<nat>, seen0: seq<bool>, seen: seq<bool>, p: Var, stack: seq<Lit>, x: Lit)
    requires Tested(a, ca, levels, seen0, seen, p, stack + [x]) && Closed(ca, a, seen, x.v)
    ensures Tested(a, ca, levels, seen0, seen, p, stack)
  {
    hide LedTo, MayExpand, Closed;
    HasVarAppend(stack, x);
    forall k | 0 <= k < |stack| ensures stack[k].v == p || NewMark(seen0, seen, stack[k].v) {
      assert stack[k] == (stack + [x])[k];
    }
  }

  lemma ClosedOpen(a: Asg, ca: seq<Clause>, marks: set<Var>, seen: seq<bool>, v: Var)
    requires Closed(ca, a, seen, v)
    ensures HasReason(a, ca, v) && Open(a, ca, MarkSet(seen), v) == {} && Open(a, ca, marks, v) <= MarkSet(seen) - marks
  {
    var lits := ca[a.reason[v].value].lits;
    forall w | w in ReasonVars(a, ca, v) ensures w in MarkSet(seen) {
      var k :| 1 <= k < |lits| && lits[k].v == w;
    }
  }

  /** The new marks are closed, so nothing but marks is led to. */
  lemma TestEnds(a: Asg, ca: seq<Clause>, levels: set<nat>, seen0: seq<bool>, seen: seq<bool>, p: Var)
    requires Tested(a, ca, levels, seen0, seen, p, []) && Grown(seen0, seen)
    ensures !Escapes(a, ca, MarkSet(seen0), levels, p) && MarkedSince(a, ca, levels, seen0, seen) && Closed(ca, a, seen, p)
  {
    hide LedTo, MayExpand, Closed, ReasonVars;
    var marks, new_ := MarkSet(seen0), MarkSet(seen) - MarkSet(seen0);
    assert MarkedSince(a, ca, levels, seen0, seen);
    ClosedOpen(a, ca, marks, seen, p);
    SinceClosed(a, ca, levels, seen0, seen);
    forall w: Var | LedTo(a, ca, marks, levels, p, w) ensures MayExpand(a, ca, levels, w) {
      LedInside(a, ca, marks, levels, new_, p, w);
      assert NewMark(seen0, seen, w);
    }
  }

  // ---------- the marks left by earlier tests ----------

  /** The marks set since are closed, and could be expanded. */
  ghost predicate MarkedSince(a: Asg, ca: seq<Clause>, levels: set<nat>, seen0: seq<bool>, seen: seq<bool>) {
    Grown(seen0, seen) && forall v :: NewMark(seen0, seen, v) ==> MayExpand(a, ca, levels, v) && Closed(ca, a, seen, v)
  }

  lemma SinceClosed(a: Asg, ca: seq<Clause>, levels: set<nat>, seen0: seq<bool>, seen: seq<bool>)
    requires MarkedSince(a, ca, levels, seen0, seen)
    ensures ClosedUnder(Inwards(a, ca, MarkSet(seen0), levels), MarkSet(seen) - MarkSet(seen0))
  {
    hide MayExpand, Closed, ReasonVars;
    forall v | v in MarkSet(seen) - MarkSet(seen0)
      ensures Inwards(a, ca, MarkSet(seen0), levels)(v) <= MarkSet(seen) - MarkSet(seen0)
    {
      assert NewMark(seen0, seen, v);
      ClosedOpen(a, ca, MarkSet(seen0), seen, v);
    }
  }

  lemma SinceTrans(a: Asg, ca: seq<Clause>, levels: set<nat>, seen0: seq<bool>, seen: seq<bool>, seen': seq<bool>)
    requires MarkedSince(a, ca, levels, seen0, seen) && MarkedSince(a, ca, levels, seen, seen')
    ensures MarkedSince(a, ca, levels, seen0, seen')
  {
    hide MayExpand, Closed;
    forall v | NewMark(seen0, seen', v) ensures MayExpand(a, ca, levels, v) && Closed(ca, a, seen', v) {
      if seen[v] {
        ClosedGrows(ca, a, seen, seen', v);
      }
    }
  }

  /** A path that ends outside a closed set never was inside. */
  lemma {:induction false} PathOutside(g: Graph, s: set<Var>, path: seq<Var>, k: nat)
    requires ClosedUnder(g, s) && Path(g, path) && path[|path| - 1] !in s && k < |path|
    ensures path[k] !in s
    decreases |path| - k
  {
    if k < |path| - 1 {
      PathOutside(g, s, path, k + 1);
    }
  }

  /** A closed set may be cut out of a graph as long as one wants to arrive outside. */
  lemma ReachesOutside(g: Graph, h: Graph, s: set<Var>, v: Var, w: Var)
    requires ClosedUnder(g, s) && Reaches(g, v, w) && w !in s && forall u :: g(u) - s <= h(u)
    ensures Reaches(h, v, w) && v !in s
  {
    var path :| Path(g, path) && path[0] == v && path[|path| - 1] == w;
    forall i | 0 <= i < |path| - 1 ensures path[i + 1] in h(path[i]) {
      PathOutside(g, s, path, i + 1);
    }
    PathOutside(g, s, path, 0);
    assert Path(h, path);
  }

  /** The marks left by earlier tests change no answer. */
  lemma EscapesSame(a: Asg, ca: seq<Clause>, levels: set<nat>, seen0: seq<bool>, seen: seq<bool>, p: Var)
    requires MarkedSince(a, ca, levels, seen0, seen)
    ensures Escapes(a, ca, MarkSet(seen), levels, p) <==> Escapes(a, ca, MarkSet(seen0), levels, p)
  {
    hide MayExpand, Closed, ReasonVars;
    var m0, m := MarkSet(seen0), MarkSet(seen);
    var g0, g := Inwards(a, ca, m0, levels), Inwards(a, ca, m, levels);
    assert m0 <= m;
    if Escapes(a, ca, m0, levels, p) {
      var w: Var :| LedTo(a, ca, m0, levels, p, w) && !MayExpand(a, ca, levels, w);
      var u: Var :| u in Open(a, ca, m0, p) && Reaches(g0, u, w);
      assert w !in m - m0 by {
        assert NewMark(seen0, seen, w) ==> MayExpand(a, ca, levels, w);
      }
      SinceClosed(a, ca, levels, seen0, seen);
      ReachesOutside(g0, g, m - m0, u, w);
      assert LedTo(a, ca, m, levels, p, w);
    }
    if Escapes(a, ca, m, levels, p) {
      var w: Var :| LedTo(a, ca, m, levels, p, w) && !MayExpand(a, ca, levels, w);
      var u: Var :| u in Open(a, ca, m, p) && Reaches(g, u, w);
      ReachesWider(g, g0, u, w);
      assert LedTo(a, ca, m0, levels, p, w);
    }
  }

  // ---------- the whole clause ----------

  lemma GrownSelf(seen: seq<bool>)
    ensures Grown(seen, seen)
  {
  }

  lemma SinceSelf(a: Asg, ca: seq<Clause>, levels: set<nat>, seen: seq<bool>)
    ensures MarkedSince(a, ca, levels, seen, seen)
  {
  }

  lemma SinceGrown(a: Asg, ca: seq<Clause>, levels: set<nat>, seen0: seq<bool>, seen: seq<bool>)
    requires MarkedSince(a, ca, levels, seen0, seen)
    ensures Grown(seen0, seen)
  {
  }

  /** An unmarked literal of a reason. */
  lemma InOpen(a: Asg, ca: seq<Clause>, seen: seq<bool>, v: Var, k: nat)
    requires HasReason(a, ca, v)
    requires var lits := ca[a.reason[v].value].lits;
             1 <= k < |lits| && lits[k].v < |seen| && !seen[lits[k].v] && lits[k].v < |a.level| && a.level[lits[k].v] > 0
    ensures ca[a.reason[v].value].lits[k].v in Open(a, ca, MarkSet(seen), v)
  {
    InOtherVars(a, ca[a.reason[v].value].lits, 1, k);
  }

  /** What earlier tests may have done to the marks: only the deep test sets any. */
  ghost predicate SinceStart(a: Asg, ca: seq<Clause>, mode: nat, seen0: seq<bool>, seen: seq<bool>) {
    if mode == 2 then MarkedSince(a, ca, Signatures(a, MarkSet(seen0)), seen0, seen) else seen == seen0
  }

  lemma StartsHere(a: Asg, ca: seq<Clause>, mode: nat, seen: seq<bool>)
    ensures SinceStart(a, ca, mode, seen, seen) && Grown(seen, seen)
  {
  }

  ghost function LevelsOf(a: Asg, low: seq<Lit>, i: nat): set<nat> {
    set k | 0 <= k < i && k < |low| && low[k].v < |a.level| :: a.level[low[k].v] % 32
  }

  lemma AllLevels(a: Asg, seen: seq<bool>, low: seq<Lit>)
    requires forall v :: v in MarkSet(seen) <==> HasVar(low, v)
    ensures LevelsOf(a, low, |low|) == Signatures(a, MarkSet(seen))
  {
    forall n | n in Signatures(a, MarkSet(seen)) ensures n in LevelsOf(a, low, |low|) {
      var v :| v in MarkSet(seen) && v < |a.level| && a.level[v] % 32 == n;
      var k :| 0 <= k < |low| && low[k].v == v;
    }
    forall n | n in LevelsOf(a, low, |low|) ensures n in Signatures(a, MarkSet(seen)) {
      var k :| 0 <= k < |low| && low[k].v < |a.level| && a.level[low[k].v] % 32 == n;
      assert HasVar(low, low[k].v);
    }
  }

  /** The variables of lower levels that took part in the conflict through variables set after position j. */
  ghost function LowerVars(a: Asg, ca: seq<Clause>, r: CRef, j: int): set<Var> {
    set v | 0 <= v < |a.level| && Lower(a, ca, r, j, v)
  }

  /** The learnt clause: the negation of the latest implication point, and the lower literals that are not superfluous. */
  ghost predicate LearntExactly(a: Asg, ca: seq<Clause>, r: CRef, mode: nat, out: seq<Lit>) {
    && out != [] && IsFalse(a, out[0]) && out[0].v < |a.pos| && LatestUip(a, ca, r, out[0].v)
    && var lower := LowerVars(a, ca, r, a.pos[out[0].v]);
       forall q :: q in out[1..] <==> IsFalse(a, q) && q.v in lower && !Superfluous(a, ca, mode, lower, q.v)
  }

  lemma TrailSizes(a: Asg)
    requires TrailInv(a)
    ensures SameSize(a)
  {
  }

  lemma MarksAreLow(ca: seq<Clause>, a: Asg, seen: seq<bool>, low: seq<Lit>, q: Lit)
    requires FirstUip(ca, a, seen, low, q)
    ensures forall v :: v in MarkSet(seen) <==> HasVar(low, v)
    ensures forall x :: x in low <==> IsFalse(a, x) && x.v in MarkSet(seen)
  {
    forall x | IsFalse(a, x) && x.v in MarkSet(seen) ensures x in low {
      var k :| 0 <= k < |low| && low[k].v == x.v;
      assert low[k] == x;
    }
  }

  lemma PhaseOneMarks(a: Asg, ca: seq<Clause>, r: CRef, seen: seq<bool>, q: Var)
    requires PhaseOne(a, ca, r, seen, q) && SameSize(a)
    ensures q < |a.pos| && LatestUip(a, ca, r, q) && MarkSet(seen) == LowerVars(a, ca, r, a.pos[q])
  {
  }

  /** What is left of the marked literals is the clause to be learnt. */
  lemma LearntIsExact(a: Asg, ca: seq<Clause>, r: CRef, mode: nat, seen: seq<bool>, low: seq<Lit>, kept: seq<Lit>, q: Lit)
    requires TrailInv(a) && PhaseOne(a, ca, r, seen, q.v) && FirstUip(ca, a, seen, low, q)
    requires forall x :: x in kept <==> x in low && !Superfluous(a, ca, mode, MarkSet(seen), x.v)
    ensures LearntExactly(a, ca, r, mode, [Neg(q)] + kept)
  {
    hide PhaseOne, Superfluous, LatestUip, LowerVars;
    TrailSizes(a);
    PhaseOneMarks(a, ca, r, seen, q.v);
    MarksAreLow(ca, a, seen, low, q);
    assert ([Neg(q)] + kept)[1..] == kept;
  }

  /** The order of the literals behind the first does not matter. */
  lemma LearntReordered(a: Asg, ca: seq<Clause>, r: CRef, mode: nat, out: seq<Lit>, out': seq<Lit>)
    requires LearntExactly(a, ca, r, mode, out) && out' != [] && out'[0] == out[0] && forall q :: q in out'[1..] <==> q in out[1..]
    ensures LearntExactly(a, ca, r, mode, out')
  {
  }

  // ---------- what a conflict leads to ----------

  /** The clause is learnt: its first literal follows the trail of the level returned to, with the new clause as reason. */
  ghost predicate Taught(a: Asg, ca: seq<Clause>, r: CRef, mode: nat, out: seq<Lit>, level: nat, b: Asg, ca': seq<Clause>) {
    && LearntExactly(a, ca, r, mode, out) && Asserting(ca, a, out, level)
    && ca' == (if |out| == 1 then ca else ca + [Clause(out, true, false)])
    && exists free :: Cancelled(a, free, level) && SameSize(free) && out[0].v < |free.assigns|
                      && b == Enqueue(free, out[0], if |out| == 1 then None else Some(|ca|))
  }

  lemma TaughtBy(a: Asg, ca: seq<Clause>, r: CRef, mode: nat, out: seq<Lit>, level: nat, free: Asg, b: Asg, ca': seq<Clause>)
    requires LearntExactly(a, ca, r, mode, out) && Asserting(ca, a, out, level) && Cancelled(a, free, level)
    requires ca' == (if |out| == 1 then ca else ca + [Clause(out, true, false)]) && out != [] && SameSize(free) && out[0].v < |free.assigns|
    requires b == Enqueue(free, out[0], if |out| == 1 then None else Some(|ca|))
    ensures Taught(a, ca, r, mode, out, level, b, ca')
  {
  }
}
