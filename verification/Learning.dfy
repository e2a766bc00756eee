/** Which clause a conflict teaches: the latest implication point, the lower variables that led to the conflict, and which of them go. */
module Learning {
  import opened Literals
  import opened Assignment
  import opened ConflictAnalysis
  import opened Implication
  import Invariant

  ghost function MarkSet(seen: seq<bool>): set<Var> {
    set v | 0 <= v < |seen| && seen[v]
  }

  // ---------- unique implication points ----------

  ghost predicate AtTop(a: Asg, v: Var) {
    v < |a.level| && a.level[v] == |a.lim| && IsSet(a, v)
  }

  ghost function ConflictVars(a: Asg, ca: seq<Clause>, r: CRef): set<Var> {
    if r < |ca| then OtherVars(a, ca[r].lits, 0) else {}
  }

  /** Going back from the variables of the current level that were set after position j. */
  ghost function LaterReasons(a: Asg, ca: seq<Clause>, j: int): Graph {
    (v: Var) => if AtTop(a, v) && v < |a.pos| && a.pos[v] > j then ReasonVars(a, ca, v) else {}
  }

  /** v took part in the conflict, through variables set after position j. */
  ghost predicate Involved(a: Asg, ca: seq<Clause>, r: CRef, j: int, v: Var) {
    exists s :: s in ConflictVars(a, ca, r) && Reaches(LaterReasons(a, ca, j), s, v)
  }

  /** All that took part at the current level did so through v. */
  ghost predicate Uip(a: Asg, ca: seq<Clause>, r: CRef, v: Var) {
    && AtTop(a, v) && v < |a.pos| && Involved(a, ca, r, a.pos[v], v)
    && forall w: Var :: Involved(a, ca, r, a.pos[v], w) && AtTop(a, w) && w < |a.pos| ==> a.pos[w] >= a.pos[v]
  }

  ghost predicate LatestUip(a: Asg, ca: seq<Clause>, r: CRef, v: Var) {
    Uip(a, ca, r, v) && forall w: Var :: w < |a.pos| && a.pos[w] > a.pos[v] ==> !Uip(a, ca, r, w)
  }

  /** The variables of lower levels that took part. */
  ghost predicate Lower(a: Asg, ca: seq<Clause>, r: CRef, j: int, v: Var) {
    Involved(a, ca, r, j, v) && !AtTop(a, v)
  }

  lemma {:induction false} PathWider(g: Graph, h: Graph, path: seq<Var>)
    requires Path(g, path) && forall v :: g(v) <= h(v)
    ensures Path(h, path)
  {
  }

  lemma ReachesWider(g: Graph, h: Graph, v: Var, w: Var)
    requires Reaches(g, v, w) && forall u :: g(u) <= h(u)
    ensures Reaches(h, v, w)
  {
    var path :| Path(g, path) && path[0] == v && path[|path| - 1] == w;
    PathWider(g, h, path);
  }

  lemma InvolvedEarlier(a: Asg, ca: seq<Clause>, r: CRef, j: int, j': int, v: Var)
    requires Involved(a, ca, r, j, v) && j' <= j
    ensures Involved(a, ca, r, j', v)
  {
    var s :| s in ConflictVars(a, ca, r) && Reaches(LaterReasons(a, ca, j), s, v);
    ReachesWider(LaterReasons(a, ca, j), LaterReasons(a, ca, j'), s, v);
  }

  lemma InvolvedStep(a: Asg, ca: seq<Clause>, r: CRef, j: int, v: Var, w: Var)
    requires Involved(a, ca, r, j, v) && AtTop(a, v) && v < |a.pos| && a.pos[v] > j && w in ReasonVars(a, ca, v)
    ensures Involved(a, ca, r, j, w)
  {
    var s :| s in ConflictVars(a, ca, r) && Reaches(LaterReasons(a, ca, j), s, v);
    ReachesStep(LaterReasons(a, ca, j), s, v, w);
  }

  lemma InvolvedStart(a: Asg, ca: seq<Clause>, r: CRef, j: int, v: Var)
    requires v in ConflictVars(a, ca, r)
    ensures Involved(a, ca, r, j, v)
  {
    ReachesSelf(LaterReasons(a, ca, j), v);
  }

  lemma InvolvedInside(a: Asg, ca: seq<Clause>, r: CRef, j: int, all: set<Var>, v: Var)
    requires Involved(a, ca, r, j, v) && ConflictVars(a, ca, r) <= all
    requires forall u, w :: u in all && AtTop(a, u) && u < |a.pos| && a.pos[u] > j && w in ReasonVars(a, ca, u) ==> w in all
    ensures v in all
  {
    assert ClosedUnder(LaterReasons(a, ca, j), all);
    var s :| s in ConflictVars(a, ca, r) && Reaches(LaterReasons(a, ca, j), s, v);
    ReachesInside(LaterReasons(a, ca, j), all, s, v);
  }

  // ---------- tracing the conflict back ----------

  ghost predicate SeenOr(seen: seq<bool>, done: set<Var>, v: Var) {
    v in done || (v < |seen| && seen[v])
  }

  /** Another variable of the level, set earlier, took part and not only through v. */
  ghost predicate Bypassed(a: Asg, ca: seq<Clause>, r: CRef, v: Var) {
    v < |a.pos| && exists w: Var :: w < |a.pos| && Involved(a, ca, r, a.pos[v], w) && AtTop(a, w) && a.pos[w] < a.pos[v]
  }

  lemma BypassedNoUip(a: Asg, ca: seq<Clause>, r: CRef, v: Var)
    requires Bypassed(a, ca, r, v)
    ensures !Uip(a, ca, r, v)
  {
  }

  ghost predicate DoneOk(a: Asg, ca: seq<Clause>, r: CRef, done: set<Var>, index: int) {
    forall v :: v in done ==> v < |a.pos| && AtTop(a, v) && a.pos[v] > index && Bypassed(a, ca, r, v)
  }

  ghost predicate AllInvolved(a: Asg, ca: seq<Clause>, r: CRef, seen: seq<bool>, done: set<Var>, index: int) {
    forall v :: SeenOr(seen, done, v) ==> Involved(a, ca, r, index, v)
  }

  /** The antecedents of all but one of the variables resolved away have been gone through. */
  ghost predicate TraceClosed(a: Asg, ca: seq<Clause>, r: CRef, seen: seq<bool>, done: set<Var>, p: Option<Lit>) {
    && (forall v :: v in ConflictVars(a, ca, r) ==> SeenOr(seen, done, v))
    && (forall v, w :: v in done && (p.None? || v != p.value.v) && w in ReasonVars(a, ca, v) ==> SeenOr(seen, done, w))
  }

  /** What has been resolved away, and what is marked, took part; none of the former was an implication point. */
  ghost predicate Traced(a: Asg, ca: seq<Clause>, r: CRef, seen: seq<bool>, done: set<Var>, index: int, p: Option<Lit>) {
    |seen| == |a.assigns| && DoneOk(a, ca, r, done, index) && AllInvolved(a, ca, r, seen, done, index) && TraceClosed(a, ca, r, seen, done, p)
  }

  /** Before the antecedent of p, at first the conflict, is gone through. */
  ghost predicate Tracing(a: Asg, ca: seq<Clause>, r: CRef, seen: seq<bool>, done: set<Var>, index: int, p: Option<Lit>, cr: CRef) {
    match p
    case None => cr == r && done == {} && |seen| == |a.assigns| && forall v :: 0 <= v < |seen| ==> !seen[v]
    case Some(q) => Traced(a, ca, r, seen, done, index, p) && q.v in done && HasReason(a, ca, q.v) && cr == a.reason[q.v].value
  }

  lemma StartTrace(a: Asg, ca: seq<Clause>, r: CRef, seen: seq<bool>)
    requires |seen| == |a.assigns| && forall v :: 0 <= v < |seen| ==> !seen[v]
    ensures Tracing(a, ca, r, seen, {}, |a.trail| - 1, None, r)
  {
  }

  /** An antecedent has been gone through. */
  lemma TraceMarked(a: Asg, ca: seq<Clause>, r: CRef, seen: seq<bool>, seen': seq<bool>, done: set<Var>, index: int, p: Option<Lit>, cr: CRef)
    requires SameSize(a) && Tracing(a, ca, r, seen, done, index, p, cr) && cr < |ca| && |seen'| == |seen|
    requires forall v :: 0 <= v < |seen| ==> (seen'[v] <==> seen[v] || v in OtherVars(a, ca[cr].lits, FirstLit(p)))
    ensures Traced(a, ca, r, seen', done, index, None)
  {
    hide Involved, Bypassed, AtTop, OtherVars;
    var more := OtherVars(a, ca[cr].lits, FirstLit(p));
    VarsInRange(a, ca[cr].lits, FirstLit(p));
    forall v | SeenOr(seen', done, v) ensures Involved(a, ca, r, index, v) {
      if p.None? {
        InvolvedStart(a, ca, r, index, v);
      } else if !SeenOr(seen, done, v) {
        assert SeenOr(seen, done, p.value.v);
        InvolvedStep(a, ca, r, index, p.value.v, v);
      }
    }
    assert forall v :: v in more ==> SeenOr(seen', done, v);
    assert forall v :: SeenOr(seen, done, v) ==> SeenOr(seen', done, v);
  }

  lemma VarsInRange(a: Asg, lits: seq<Lit>, from: nat)
    ensures forall v :: v in OtherVars(a, lits, from) ==> v < |a.level|
  {
  }

  /** The next literal is selected; another one of the level is marked, so it is no implication point. */
  lemma TraceSelected(a: Asg, ca: seq<Clause>, r: CRef, seen: seq<bool>, done: set<Var>, index: int, i: nat, k: nat)
    requires TrailInv(a) && Traced(a, ca, r, seen, done, index, None)
    requires i <= index < |a.trail| && Marked(a, seen, i) && AtTop(a, a.trail[i].v)
    requires k < i && Marked(a, seen, k) && AtTop(a, a.trail[k].v) && HasReason(a, ca, a.trail[i].v)
    ensures var q := a.trail[i];
            Tracing(a, ca, r, seen[q.v := false], done + {q.v}, i - 1, Some(q), a.reason[q.v].value)
  {
    hide Involved, AtTop, ConflictVars, ReasonVars;
    var q, w := a.trail[i], a.trail[k].v;
    var seen', done' := seen[q.v := false], done + {q.v};
    assert IsTrue(a, q) && IsTrue(a, a.trail[k]);
    forall v | SeenOr(seen', done', v) ensures Involved(a, ca, r, i - 1, v) {
      assert SeenOr(seen, done, v);
      InvolvedEarlier(a, ca, r, index, i - 1, v);
    }
    assert SeenOr(seen, done, w);
    InvolvedEarlier(a, ca, r, index, i, w);
    assert forall v :: SeenOr(seen, done, v) ==> SeenOr(seen', done', v);
  }

  /** The last marked literal of the level is the latest implication point, and the other marks are the lower variables. */
  lemma TraceEnds(a: Asg, ca: seq<Clause>, r: CRef, seen: seq<bool>, done: set<Var>, index: int, i: nat)
    requires TrailInv(a) && Traced(a, ca, r, seen, done, index, None)
    requires i <= index < |a.trail| && Marked(a, seen, i) && AtTop(a, a.trail[i].v)
    requires forall v :: 0 <= v < |seen| && seen[v] && AtTop(a, v) ==> v == a.trail[i].v
    ensures var q := a.trail[i].v; LatestUip(a, ca, r, q) && forall v :: v in MarkSet(seen[q := false]) <==> Lower(a, ca, r, i, v)
  {
    hide Involved, AtTop, ConflictVars, ReasonVars, Bypassed;
    var q := a.trail[i].v;
    assert IsTrue(a, a.trail[i]) && IsSet(a, q) && a.pos[q] == i;
    TraceReaches(a, ca, r, seen, done, index, i);
    forall v | v in MarkSet(seen[q := false]) ensures SeenOr(seen, done, v) && !AtTop(a, v) {
    }
    forall w: Var | w < |a.pos| && a.pos[w] > i ensures !Uip(a, ca, r, w) {
      if Uip(a, ca, r, w) {
        InvolvedEarlier(a, ca, r, a.pos[w], i, w);
        assert SeenOr(seen, done, w);
        BypassedNoUip(a, ca, r, w);
      }
    }
  }

  lemma TraceReaches(a: Asg, ca: seq<Clause>, r: CRef, seen: seq<bool>, done: set<Var>, index: int, i: nat)
    requires TrailInv(a) && Traced(a, ca, r, seen, done, index, None)
    requires i <= index < |a.trail| && forall v :: 0 <= v < |seen| && seen[v] && AtTop(a, v) ==> a.pos[v] <= i
    ensures forall v :: Involved(a, ca, r, i, v) <==> SeenOr(seen, done, v)
  {
    hide Involved, ConflictVars, ReasonVars, Bypassed;
    var all := done + MarkSet(seen);
    assert forall v :: v in all <==> SeenOr(seen, done, v);
    forall v ensures Involved(a, ca, r, i, v) <==> v in all {
      if v in all {
        InvolvedEarlier(a, ca, r, index, i, v);
      }
      if Involved(a, ca, r, i, v) {
        InvolvedInside(a, ca, r, i, all, v);
      }
    }
  }

  // ---------- the first phase of conflict analysis ----------

  /** Exactly the given variables have been marked in addition. */
  ghost predicate MarkedAlso(seen: seq<bool>, seen': seq<bool>, more: set<Var>) {
    |seen'| == |seen| && forall v :: 0 <= v < |seen| ==> (seen'[v] <==> seen[v] || v in more)
  }

  lemma MarkedAll(a: Asg, seen: seq<bool>, seen': seq<bool>, lits: seq<Lit>, from: nat)
    requires Grown(seen, seen') && Covered(a, seen', lits, from, |lits|)
    requires forall v :: 0 <= v < |seen| && seen'[v] && !seen[v] ==> v in OtherVars(a, lits, from)
    ensures MarkedAlso(seen, seen', OtherVars(a, lits, from))
  {
  }

  lemma InOtherVars(a: Asg, lits: seq<Lit>, from: nat, k: nat)
    requires from <= k < |lits| && lits[k].v < |a.level| && a.level[lits[k].v] > 0
    ensures lits[k].v in OtherVars(a, lits, from)
  {
  }

  lemma {:induction false} SomeCounted(a: Asg, seen: seq<bool>, lo: int, hi: int) returns (k: int)
    requires CountMarked(a, seen, lo, hi) > 0
    ensures lo <= k < hi && Marked(a, seen, k)
    decreases hi - lo
  {
    if Marked(a, seen, hi - 1) {
      k := hi - 1;
    } else {
      k := SomeCounted(a, seen, lo, hi - 1);
    }
  }

  /** With more than one literal of the level marked there is another one before the last. */
  lemma OtherMarked(a: Asg, seen: seq<bool>, pathC: nat, index: int, i: nat) returns (k: nat)
    requires TrailInv(a) && |seen| == |a.assigns| && CountOk(a, seen, pathC, index) && pathC > 1
    requires LevelStart(a) <= i <= index && Marked(a, seen, i) && forall k :: i < k <= index ==> !Marked(a, seen, k)
    ensures k < i && Marked(a, seen, k) && AtTop(a, a.trail[k].v)
  {
    var v := a.trail[i].v;
    UnmarkCount(a, seen, pathC, index, i);
    k := SomeCounted(a, seen[v := false], LevelStart(a), i);
    assert IsTrue(a, a.trail[k]) && IsSet(a, a.trail[k].v) && LevelOk(a, a.trail[k].v);
    CurrentLevel(a, a.trail[k].v);
  }

  lemma NoneOtherMarked(a: Asg, seen: seq<bool>, index: int, i: nat, v: Var)
    requires TrailInv(a) && |seen| == |a.assigns| && CountOk(a, seen, 1, index)
    requires LevelStart(a) <= i <= index && Marked(a, seen, i) && forall k :: i < k <= index ==> !Marked(a, seen, k)
    requires v < |seen| && seen[v] && AtTop(a, v)
    ensures v == a.trail[i].v
  {
    var q := a.trail[i].v;
    UnmarkCount(a, seen, 1, index, i);
    CurrentLevel(a, v);
    assert Marked(a, seen, a.pos[v]);
    if v != q {
      CountSome(a, seen[q := false], LevelStart(a), i, a.pos[v]);
    }
  }

  /** What the first phase arrives at. */
  ghost predicate PhaseOne(a: Asg, ca: seq<Clause>, r: CRef, seen: seq<bool>, q: Var) {
    && q < |a.pos| && |seen| == |a.assigns| && LatestUip(a, ca, r, q)
    && forall v :: v in MarkSet(seen) <==> Lower(a, ca, r, a.pos[q], v)
  }

  /** Selecting the next literal. */
  lemma SelectTrace(a: Asg, ca: seq<Clause>, r: CRef, seen: seq<bool>, done: set<Var>, pathC: nat, index: int, i: nat)
    requires TrailInv(a) && Traced(a, ca, r, seen, done, index, None) && CountOk(a, seen, pathC, index) && pathC > 0
    requires LevelStart(a) <= i <= index && Marked(a, seen, i) && forall k :: i < k <= index ==> !Marked(a, seen, k)
    requires pathC > 1 ==> HasReason(a, ca, a.trail[i].v)
    ensures var q := a.trail[i];
            && (pathC > 1 ==> Tracing(a, ca, r, seen[q.v := false], done + {q.v}, i - 1, Some(q), a.reason[q.v].value))
            && (pathC == 1 ==> PhaseOne(a, ca, r, seen[q.v := false], q.v))
  {
    hide Traced, LatestUip, Lower;
    assert |seen| == |a.assigns| by { TracedSize(a, ca, r, seen, done, index); }
    var q := a.trail[i];
    assert IsTrue(a, q) && IsSet(a, q.v) && LevelOk(a, q.v) && a.pos[q.v] == i;
    CurrentLevel(a, q.v);
    if pathC > 1 {
      var k := OtherMarked(a, seen, pathC, index, i);
      TraceSelected(a, ca, r, seen, done, index, i, k);
    } else {
      forall v | 0 <= v < |seen| && seen[v] && AtTop(a, v) ensures v == q.v {
        NoneOtherMarked(a, seen, index, i, v);
      }
      TraceEnds(a, ca, r, seen, done, index, i);
    }
  }

  lemma TracedSize(a: Asg, ca: seq<Clause>, r: CRef, seen: seq<bool>, done: set<Var>, index: int)
    requires Traced(a, ca, r, seen, done, index, None)
    ensures |seen| == |a.assigns|
  {
  }
}
