/** Backtracking, learning, deciding and deleting, as steps on the solver's state. */
module Steps {
  import opened Literals
  import opened Assignment
  import opened Watching
  import opened Meaning
  import opened Invariant
  import opened Progress
  import opened ConflictAnalysis
  import opened Normalising

  /** Every unassigned decision variable is in the order heap. */
  ghost predicate HeapInv(a: Asg, decision: seq<bool>, heap: set<Var>) {
    && |decision| == |a.assigns|
    && (forall v :: 0 <= v < |decision| && decision[v] && !IsSet(a, v) ==> v in heap)
    && (forall v :: v in heap ==> v < |decision|)
  }

  /** The lists of problem and learnt clauses refer to live clauses of their kind. */
  ghost predicate RefsOk(ca: seq<Clause>, refs: seq<CRef>, learnt: bool) {
    && (forall i :: 0 <= i < |refs| ==> refs[i] < |ca| && !ca[refs[i]].deleted && ca[refs[i]].learnt == learnt)
    && NoDup(refs)
  }

  ghost predicate NoMarks(a: Asg, seen: seq<bool>) {
    |seen| == |a.assigns| && forall v :: 0 <= v < |seen| ==> !seen[v]
  }

  /** Everything but the progress of propagation. */
  ghost predicate Base(orig: seq<seq<Lit>>, assumptions: seq<Lit>, a: Asg, ca: seq<Clause>, w: Watches,
                       dirty: set<Lit>, dirties: seq<Lit>) {
    && DbInv(orig, assumptions, a, ca) && WatchShape(|a.assigns|, ca, w) && DirtyOk(ca, w, dirty, dirties)
  }

  // ---------- backtracking ----------

  lemma CancelTop(a: Asg, level: nat)
    requires TrailInv(a) && level < |a.lim|
    ensures Top(Cancel(a, level)) == Top(a) <= |Cancel(a, level).trail|
  {
  }

  lemma CancelKeepsBase(orig: seq<seq<Lit>>, assumptions: seq<Lit>, a: Asg, ca: seq<Clause>, w: Watches,
                        dirty: set<Lit>, dirties: seq<Lit>, level: nat)
    requires Base(orig, assumptions, a, ca, w, dirty, dirties) && level < |a.lim|
    requires WatchSem(a, ca, w, LevelStart(a))
    ensures a.lim[level] <= |a.trail|
    ensures Base(orig, assumptions, Cancel(a, level), ca, w, dirty, dirties)
    ensures WatchSem(Cancel(a, level), ca, w, |Cancel(a, level).trail|)
  {
    hide WatchShape, DirtyOk, WatchSem, ReasonInv, DecisionInv, Sound;
    CancelKeepsTrail(a, level);
    CancelKeepsReasons(a, ca, assumptions, level);
    CancelKeepsWatches(a, ca, w, LevelStart(a), level);
    CancelTop(a, level);
    SameTopSameMeaning(orig, ca, a, Cancel(a, level));
  }

  /** The values after the literals from position 'from' on have been unassigned. */
  ghost predicate Unassigned(a: Asg, values: seq<LBool>, from: nat) {
    && |values| == |a.assigns| == |a.pos|
    && forall v :: 0 <= v < |values| ==> values[v] == if a.pos[v] < from then a.assigns[v] else LUndef
  }

  /** The order heap after their decision variables have been put back. */
  ghost predicate Reinserted(a: Asg, decision: seq<bool>, heap: set<Var>, heap': set<Var>, from: nat) {
    && heap <= heap' && (forall v :: v in heap' ==> v in heap || v < |decision|)
    && (forall k :: from <= k < |a.trail| && a.trail[k].v < |decision| && decision[a.trail[k].v] ==> a.trail[k].v in heap')
  }

  lemma CancelKeepsHeap(a: Asg, decision: seq<bool>, heap: set<Var>, heap': set<Var>, level: nat)
    requires TrailInv(a) && level < |a.lim| && HeapInv(a, decision, heap) && Reinserted(a, decision, heap, heap', a.lim[level])
    ensures HeapInv(Cancel(a, level), decision, heap')
  {
  }

  /** Backtracking as a relation between states. */
  ghost predicate Cancelled(a: Asg, b: Asg, level: nat) {
    SameSize(a) && level < |a.lim| && a.lim[level] <= |a.trail| && b == Cancel(a, level)
  }

  lemma CancelledBy(a: Asg, b: Asg, level: nat)
    requires TrailInv(a) && level < |a.lim| && Unassigned(a, b.assigns, a.lim[level])
    requires b == a.(assigns := b.assigns, trail := a.trail[..a.lim[level]], lim := a.lim[..level])
    ensures Cancelled(a, b, level) && b == Cancel(a, level)
  {
  }

  lemma PositionsBound(a: Asg)
    requires TrailInv(a)
    ensures forall v :: 0 <= v < |a.assigns| && a.pos[v] >= |a.trail| ==> a.assigns[v] == LUndef
  {
  }

  lemma BaseTrail(orig: seq<seq<Lit>>, assumptions: seq<Lit>, a: Asg, ca: seq<Clause>, w: Watches,
                  dirty: set<Lit>, dirties: seq<Lit>)
    requires Base(orig, assumptions, a, ca, w, dirty, dirties)
    ensures TrailInv(a) && |a.trail| <= |a.assigns| && SameSize(a) && LimOk(a)
  {
    TrailLength(a);
  }

  lemma HeapSize(a: Asg, decision: seq<bool>, heap: set<Var>)
    requires HeapInv(a, decision, heap)
    ensures |decision| == |a.assigns| && forall v :: v in heap ==> v < |decision|
  {
  }

  lemma CancelKeepsMarks(a: Asg, seen: seq<bool>, level: nat)
    requires TrailInv(a) && level < |a.lim| && NoMarks(a, seen)
    ensures NoMarks(Cancel(a, level), seen)
  {
  }

  // ---------- learning ----------

  /** The learnt clause after backtracking: its first literal is free and all others are false. */
  lemma AssertingAfterCancel(ca: seq<Clause>, a: Asg, out: seq<Lit>, level: nat)
    requires TrailInv(a) && Asserting(ca, a, out, level)
    ensures var b := Cancel(a, level);
            && TrailInv(b) && Entailed(ca, b, out) && NoDup(out) && out != []
            && (forall k :: 0 <= k < |out| ==> out[k].v < |b.assigns|)
            && !IsSet(b, out[0].v)
            && (forall k :: 1 <= k < |out| ==> IsFalse(b, out[k]))
            && (|out| > 1 ==> b.level[out[1].v] == |b.lim|) && (|out| == 1 ==> b.lim == [])
  {
    CancelKeepsTrail(a, level);
    CancelTop(a, level);
    var b := Cancel(a, level);
    forall m: Model | Facts(m, ca, b) ensures Facts(m, ca, a) {
      forall i | 0 <= i < Top(a) && i < |a.trail| ensures Holds(m, a.trail[i]) {
        assert b.trail[i] == a.trail[i];
      }
    }
  }

  lemma LearnUnit(orig: seq<seq<Lit>>, assumptions: seq<Lit>, a: Asg, ca: seq<Clause>, w: Watches,
                  dirty: set<Lit>, dirties: seq<Lit>, p: Lit)
    requires Base(orig, assumptions, a, ca, w, dirty, dirties) && WatchSem(a, ca, w, |a.trail|)
    requires a.lim == [] && p.v < |a.assigns| && !IsSet(a, p.v) && forall m: Model :: SatAll(m, orig) ==> Holds(m, p)
    ensures var b := Enqueue(a, p, None);
            Base(orig, assumptions, b, ca, w, dirty, dirties) && WatchSem(b, ca, w, |a.trail|)
  {
    hide WatchShape, DirtyOk, WatchSem, ReasonInv, DecisionInv, Sound;
    EnqueueKeepsTrail(a, p, None);
    EnqueueKeepsReasons(a, ca, p, None);
    EnqueueKeepsDecisions(a, assumptions, p, None);
    EnqueueKeepsMeaning(orig, ca, a, p, None);
    EnqueueKeepsWatches(a, ca, w, |a.trail|, p, None);
  }

  lemma EntailedUnit(orig: seq<seq<Lit>>, ca: seq<Clause>, a: Asg, p: Lit)
    requires Sound(orig, ca, a) && Entailed(ca, a, [p])
    ensures forall m: Model :: SatAll(m, orig) ==> Holds(m, p)
  {
  }

  lemma AttachKeepsDirty(ca: seq<Clause>, w: Watches, dirty: set<Lit>, dirties: seq<Lit>, c: Clause)
    requires DirtyOk(ca, w, dirty, dirties) && !c.deleted
    requires |c.lits| >= 2 && Neg(c.lits[0]) in w && Neg(c.lits[1]) in w
    ensures DirtyOk(ca + [c], AttachedWatches(w, |ca|, c.lits), dirty, dirties)
  {
  }

  lemma NewClauseKeepsReasons(a: Asg, ca: seq<Clause>, c: Clause)
    requires TrailInv(a) && ReasonInv(a, ca)
    ensures ReasonInv(a, ca + [c])
  {
  }

  /** Adding a clause to the database and to the lists of its first two literals. */
  lemma AttachKeepsBase(orig: seq<seq<Lit>>, orig': seq<seq<Lit>>, assumptions: seq<Lit>, a: Asg, ca: seq<Clause>, w: Watches,
                        dirty: set<Lit>, dirties: seq<Lit>, c: Clause)
    requires Base(orig, assumptions, a, ca, w, dirty, dirties) && ClauseOk(|a.assigns|, c) && !c.deleted
    requires Sound(orig', ca + [c], a)
    ensures Neg(c.lits[0]) in w && Neg(c.lits[1]) in w
    ensures Base(orig', assumptions, a, ca + [c], AttachedWatches(w, |ca|, c.lits), dirty, dirties)
  {
    hide ReasonInv, DecisionInv, Sound, DirtyOk;
    AttachKeepsShape(|a.assigns|, ca, w, c);
    AttachKeepsDirty(ca, w, dirty, dirties, c);
    NewClauseKeepsReasons(a, ca, c);
  }

  lemma LearnClause(orig: seq<seq<Lit>>, assumptions: seq<Lit>, a: Asg, ca: seq<Clause>, w: Watches,
                    dirty: set<Lit>, dirties: seq<Lit>, c: Clause)
    requires Base(orig, assumptions, a, ca, w, dirty, dirties) && WatchSem(a, ca, w, |a.trail|)
    requires ClauseOk(|a.assigns|, c) && c.learnt && !c.deleted && Entailed(ca, a, c.lits)
    requires !IsSet(a, c.lits[0].v) && forall k :: 1 <= k < |c.lits| ==> IsFalse(a, c.lits[k])
    requires a.level[c.lits[1].v] == |a.lim|
    ensures Neg(c.lits[0]) in w && Neg(c.lits[1]) in w
    ensures var w', b := AttachedWatches(w, |ca|, c.lits), Enqueue(a, c.lits[0], Some(|ca|));
            Base(orig, assumptions, b, ca + [c], w', dirty, dirties) && WatchSem(b, ca + [c], w', |a.trail|)
  {
    AddLearntKeepsMeaning(orig, ca, a, c);
    AttachKeepsBase(orig, orig, assumptions, a, ca, w, dirty, dirties, c);
    LearnClauseEnqueue(orig, assumptions, a, ca, AttachedWatches(w, |ca|, c.lits), dirty, dirties, c);
    LearnClauseSem(a, ca, w, c);
  }

  lemma LearnClauseEnqueue(orig: seq<seq<Lit>>, assumptions: seq<Lit>, a: Asg, ca: seq<Clause>, w: Watches,
                           dirty: set<Lit>, dirties: seq<Lit>, c: Clause)
    requires Base(orig, assumptions, a, ca + [c], w, dirty, dirties) && |c.lits| >= 2 && !c.deleted && c.lits[0].v < |a.assigns|
    requires !IsSet(a, c.lits[0].v) && forall k :: 1 <= k < |c.lits| ==> IsFalse(a, c.lits[k])
    ensures Base(orig, assumptions, Enqueue(a, c.lits[0], Some(|ca|)), ca + [c], w, dirty, dirties)
  {
    hide WatchShape, DirtyOk, ReasonInv, DecisionInv, Sound;
    var ca' := ca + [c];
    assert ca'[|ca|] == c;
    EnqueueKeepsTrail(a, c.lits[0], Some(|ca|));
    EnqueueKeepsReasons(a, ca', c.lits[0], Some(|ca|));
    EnqueueKeepsDecisions(a, assumptions, c.lits[0], Some(|ca|));
    if a.lim == [] {
      UnitAtTop(orig, ca', a, |ca|);
    }
    EnqueueKeepsMeaning(orig, ca', a, c.lits[0], Some(|ca|));
  }

  lemma LearnClauseSem(a: Asg, ca: seq<Clause>, w: Watches, c: Clause)
    requires TrailInv(a) && WatchShape(|a.assigns|, ca, w) && WatchSem(a, ca, w, |a.trail|) && ClauseOk(|a.assigns|, c)
    requires !IsSet(a, c.lits[0].v) && IsFalse(a, c.lits[1]) && a.level[c.lits[1].v] == |a.lim|
    ensures Neg(c.lits[0]) in w && Neg(c.lits[1]) in w
    ensures WatchSem(Enqueue(a, c.lits[0], Some(|ca|)), ca + [c], AttachedWatches(w, |ca|, c.lits), |a.trail|)
  {
    var p := c.lits[0];
    var b := Enqueue(a, p, Some(|ca|));
    EnqueueKeepsTrail(a, p, Some(|ca|));
    EnqueueKeepsWatches(a, ca, w, |a.trail|, p, Some(|ca|));
    AttachKeepsSem(b, |a.assigns|, ca, w, |a.trail|, c);
  }

  // ---------- deciding ----------

  lemma OpenLevelKeepsBase(orig: seq<seq<Lit>>, assumptions: seq<Lit>, a: Asg, ca: seq<Clause>, w: Watches,
                           dirty: set<Lit>, dirties: seq<Lit>, bound: int)
    requires Base(orig, assumptions, a, ca, w, dirty, dirties) && WatchSem(a, ca, w, bound)
    ensures var b := OpenLevel(a);
            Base(orig, assumptions, b, ca, w, dirty, dirties) && WatchSem(b, ca, w, bound) && LevelStart(b) == |b.trail| == |a.trail|
  {
    hide WatchShape, DirtyOk, ReasonInv, DecisionInv, Sound;
    OpenLevelKeeps(a, ca, assumptions);
    SameTopSameMeaning(orig, ca, a, OpenLevel(a));
    var b := OpenLevel(a);
    forall p: Lit | Processed(b, p, bound) && p in w ensures ListSat(b, ca, p, w[p]) {
      assert Processed(a, p, bound) && ListSat(a, ca, p, w[p]);
      forall i | 0 <= i < |w[p]| ensures EntryOk(b, ca, p, w[p][i]) {
        assert EntryOk(a, ca, p, w[p][i]);
      }
    }
  }

  /** The literal that opens a new level: an assumption while there are any, any free literal afterwards. */
  lemma DecideKeepsBase(orig: seq<seq<Lit>>, assumptions: seq<Lit>, a: Asg, ca: seq<Clause>, w: Watches,
                        dirty: set<Lit>, dirties: seq<Lit>, bound: int, p: Lit)
    requires Base(orig, assumptions, a, ca, w, dirty, dirties) && WatchSem(a, ca, w, bound) && bound <= |a.trail|
    requires a.lim != [] && LevelStart(a) == |a.trail| && p.v < |a.assigns| && !IsSet(a, p.v)
    requires |a.lim| <= |assumptions| ==> p == assumptions[|a.lim| - 1]
    ensures var b := Enqueue(a, p, None);
            Base(orig, assumptions, b, ca, w, dirty, dirties) && WatchSem(b, ca, w, bound)
  {
    hide WatchShape, DirtyOk, WatchSem, ReasonInv, DecisionInv, Sound;
    EnqueueKeepsTrail(a, p, None);
    EnqueueKeepsReasons(a, ca, p, None);
    EnqueueKeepsDecisions(a, assumptions, p, None);
    EnqueueKeepsMeaning(orig, ca, a, p, None);
    EnqueueKeepsWatches(a, ca, w, bound, p, None);
  }

  // ---------- deleting ----------

  ghost predicate Locked(a: Asg, ca: seq<Clause>, r: CRef) {
    && r < |ca| && ca[r].lits != [] && IsTrue(a, ca[r].lits[0]) && ca[r].lits[0].v < |a.reason|
    && a.reason[ca[r].lits[0].v] == Some(r)
  }

  lemma DeleteKeepsReasons(a: Asg, ca: seq<Clause>, r: CRef)
    requires TrailInv(a) && ReasonInv(a, ca) && r < |ca| && !Locked(a, ca, r)
    ensures ReasonInv(a, Deleted(ca, r))
  {
  }

  /** Smudging the lists of both watches keeps the record of dirty lists complete. */
  lemma DeleteKeepsDirty(n: nat, ca: seq<Clause>, w: Watches, dirty: set<Lit>, dirties: seq<Lit>,
                         dirty': set<Lit>, dirties': seq<Lit>, r: CRef)
    requires ListsOk(n, ca, w) && DirtyOk(ca, w, dirty, dirties) && r < |ca| && ClauseOk(n, ca[r])
    requires dirty <= dirty' && Neg(ca[r].lits[0]) in dirty' && Neg(ca[r].lits[1]) in dirty'
    requires forall p :: p in dirty' ==> p in dirties' && p in w
    ensures DirtyOk(Deleted(ca, r), w, dirty', dirties')
  {
  }

  lemma DeleteKeepsRefs(ca: seq<Clause>, refs: seq<CRef>, learnt: bool, r: CRef)
    requires RefsOk(ca, refs, learnt) && r < |ca| && r !in refs
    ensures RefsOk(Deleted(ca, r), refs, learnt)
  {
  }

  /** Forgetting the reason of a variable that is set at level 0. */
  lemma ForgetReason(a: Asg, ca: seq<Clause>, assumptions: seq<Lit>, v: Var)
    requires TrailInv(a) && ReasonInv(a, ca) && DecisionInv(a, assumptions) && v < |a.reason| && a.lim == []
    ensures var b := a.(reason := a.reason[v := None]);
            TrailInv(b) && ReasonInv(b, ca) && DecisionInv(b, assumptions)
  {
    var b := a.(reason := a.reason[v := None]);
    assert forall q: Lit :: IsTrue(a, q) <==> IsTrue(b, q);
    forall u | IsSet(b, u) ensures LevelOk(b, u) {
      assert IsSet(a, u);
    }
    forall u | IsSet(b, u) && b.reason[u].Some?
      ensures ReasonOk(b, ca, b.reason[u].value, b.trail[b.pos[u]])
    {
      assert IsSet(a, u);
      assert ReasonOk(a, ca, a.reason[u].value, a.trail[a.pos[u]]);
    }
    forall u | IsSet(b, u) ensures b.level[u] == 0 {
      assert IsSet(a, u) && LevelOk(a, u);
    }
  }

  // ---------- the final conflict ----------

  /** While the trail is walked down: the clause so far, or a marked literal below i, is satisfied or refuted. */
  ghost predicate FinalInv(ca: seq<Clause>, a: Asg, assumptions: seq<Lit>, seen: seq<bool>, out: seq<Lit>, p: Lit, i: int) {
    && |seen| == |a.assigns| == |a.level| == |a.pos| && -1 <= i < |a.trail| && p in out
    && (forall v :: 0 <= v < |seen| && seen[v] && v != p.v ==> IsSet(a, v) && a.level[v] > 0)
    && (forall v :: 0 <= v < |seen| && seen[v] && v != p.v ==> a.pos[v] <= i)
    && (forall q :: q in out ==> Neg(q) in assumptions)
    && (forall m: Model :: Facts(m, ca, a) ==> Sat(m, out) || exists k :: 0 <= k <= i && Marked(a, seen, k) && !Holds(m, a.trail[k]))
  }

  lemma StartFinal(ca: seq<Clause>, a: Asg, assumptions: seq<Lit>, seen: seq<bool>, p: Lit)
    requires TrailInv(a) && NoMarks(a, seen) && IsTrue(a, p) && Neg(p) in assumptions
    ensures FinalInv(ca, a, assumptions, seen[p.v := true], [p], p, |a.trail| - 1)
  {
    TrueOnTrail(a, p);
    var k := a.pos[p.v];
    assert Marked(a, seen[p.v := true], k);
    forall m: Model | Facts(m, ca, a) && !Sat(m, [p])
      ensures exists k :: 0 <= k <= |a.trail| - 1 && Marked(a, seen[p.v := true], k) && !Holds(m, a.trail[k])
    {
      assert p in [p];
      assert !Holds(m, a.trail[k]);
    }
  }

  /** Above level 0 a literal without a reason is an assumption, as long as no other decision has been made. */
  lemma DecisionAssumed(a: Asg, assumptions: seq<Lit>, i: nat)
    requires TrailInv(a) && DecisionInv(a, assumptions) && !a.probing && Top(a) <= i < |a.trail| && 0 < |a.lim| <= |assumptions|
    requires a.trail[i].v < |a.reason| && a.reason[a.trail[i].v] == None
    ensures IsTrue(a, a.trail[i]) && a.trail[i] in assumptions
  {
    var t := a.trail[i];
    assert IsTrue(a, t) && IsSet(a, t.v) && LevelOk(a, t.v);
    LevelZero(a, t.v);
    assert t == assumptions[a.level[t.v] - 1];
  }

  /** A marked decision joins the final conflict. */
  lemma FinalDecision(ca: seq<Clause>, a: Asg, assumptions: seq<Lit>, seen: seq<bool>, out: seq<Lit>, p: Lit, i: nat)
    requires TrailInv(a) && DecisionInv(a, assumptions) && !a.probing && FinalInv(ca, a, assumptions, seen, out, p, i)
    requires Top(a) <= i && 0 < |a.lim| <= |assumptions| && Marked(a, seen, i) && a.reason[a.trail[i].v] == None
    ensures FinalInv(ca, a, assumptions, seen[a.trail[i].v := false], out + [Neg(a.trail[i])], p, i - 1)
  {
    hide DecisionInv, LevelOk;
    var t := a.trail[i];
    DecisionAssumed(a, assumptions, i);
    var seen', out' := seen[t.v := false], out + [Neg(t)];
    assert out'[|out|] == Neg(t) && Neg(Neg(t)) == t;
    FinalPositions(ca, a, assumptions, seen, out, p, i);
    forall m: Model | Facts(m, ca, a) && !Sat(m, out')
      ensures exists k :: 0 <= k <= i - 1 && Marked(a, seen', k) && !Holds(m, a.trail[k])
    {
      assert forall q :: q in out ==> q in out';
      assert Neg(t) in out';
      var k :| 0 <= k <= i && Marked(a, seen, k) && !Holds(m, a.trail[k]);
      assert IsTrue(a, a.trail[k]);
      assert Marked(a, seen', k);
    }
  }

  /** After position i has been dealt with, marks other than p's lie below it. */
  lemma FinalPositions(ca: seq<Clause>, a: Asg, assumptions: seq<Lit>, seen: seq<bool>, out: seq<Lit>, p: Lit, i: nat)
    requires TrailInv(a) && FinalInv(ca, a, assumptions, seen, out, p, i)
    ensures forall v :: 0 <= v < |seen| && seen[v] && v != a.trail[i].v && v != p.v ==> a.pos[v] <= i - 1
  {
  }

  /** A position without a mark is passed over. */
  lemma FinalSkip(ca: seq<Clause>, a: Asg, assumptions: seq<Lit>, seen: seq<bool>, out: seq<Lit>, p: Lit, i: nat)
    requires TrailInv(a) && FinalInv(ca, a, assumptions, seen, out, p, i) && !Marked(a, seen, i)
    ensures FinalInv(ca, a, assumptions, seen, out, p, i - 1)
  {
  }

  /** The marks after the reason of a marked literal has been gone through. */
  ghost predicate MarkedReason(a: Asg, seen: seq<bool>, seen': seq<bool>, lits: seq<Lit>) {
    && Grown(seen, seen') && Covered(a, seen', lits, 1, |lits|)
    && (forall v :: 0 <= v < |seen| && seen'[v] && !seen[v] ==>
          exists k :: 1 <= k < |lits| && lits[k].v == v && v < |a.level| && a.level[v] > 0)
  }

  /** A marked implied literal is resolved with its reason. */
  lemma FinalImplied(ca: seq<Clause>, a: Asg, assumptions: seq<Lit>, seen: seq<bool>, seen1: seq<bool>, out: seq<Lit>, p: Lit, i: nat)
    requires TrailInv(a) && ReasonInv(a, ca) && FinalInv(ca, a, assumptions, seen, out, p, i)
    requires Marked(a, seen, i) && a.trail[i].v < |a.reason| && a.reason[a.trail[i].v].Some?
    requires a.reason[a.trail[i].v].value < |ca| && MarkedReason(a, seen, seen1, ca[a.reason[a.trail[i].v].value].lits)
    ensures FinalInv(ca, a, assumptions, seen1[a.trail[i].v := false], out, p, i - 1)
  {
    var t := a.trail[i];
    assert IsTrue(a, t) && IsSet(a, t.v);
    var r := a.reason[t.v].value;
    assert ReasonOk(a, ca, r, t);
    var seen' := seen1[t.v := false];
    FinalPositions(ca, a, assumptions, seen, out, p, i);
    forall v | 0 <= v < |seen'| && seen'[v] && v != p.v ensures IsSet(a, v) && a.level[v] > 0 && a.pos[v] <= i - 1 {
      if !seen[v] {
        var k :| 1 <= k < |ca[r].lits| && ca[r].lits[k].v == v && v < |a.level| && a.level[v] > 0;
        assert IsFalse(a, ca[r].lits[k]);
      }
    }
    forall m: Model | Facts(m, ca, a) && !Sat(m, out)
      ensures exists k :: 0 <= k <= i - 1 && Marked(a, seen', k) && !Holds(m, a.trail[k])
    {
      var k :| 0 <= k <= i && Marked(a, seen, k) && !Holds(m, a.trail[k]);
      assert IsTrue(a, a.trail[k]);
      if k < i {
        assert Marked(a, seen', k);
      } else {
        FinalResolve(ca, a, seen', r, t, m, i);
      }
    }
  }

  /** A model of the facts that fails an implied literal fails a marked literal before it. */
  lemma FinalResolve(ca: seq<Clause>, a: Asg, seen: seq<bool>, r: CRef, t: Lit, m: Model, i: nat)
    requires TrailInv(a) && |seen| == |a.assigns| && ReasonOk(a, ca, r, t) && a.pos[t.v] == i && i < |a.trail|
    requires Facts(m, ca, a) && !Holds(m, t)
    requires forall k :: 1 <= k < |ca[r].lits| && ca[r].lits[k].v != t.v ==>
               ca[r].lits[k].v < |seen| && (seen[ca[r].lits[k].v] || a.level[ca[r].lits[k].v] == 0)
    ensures exists k :: 0 <= k <= i - 1 && Marked(a, seen, k) && !Holds(m, a.trail[k])
  {
    assert Sat(m, ca[r].lits);
    var q :| q in ca[r].lits && Holds(m, q);
    var j :| 0 <= j < |ca[r].lits| && ca[r].lits[j] == q;
    assert j >= 1;
    FalseOnTrail(a, q);
    if a.level[q.v] == 0 {
      FalseAtTop(ca, a, m, q);
      assert false;
    } else {
      assert Marked(a, seen, a.pos[q.v]);
    }
  }

  /** Once the top-level part of the trail is reached, only p may still be marked, and the clause is entailed. */
  lemma EndFinal(ca: seq<Clause>, a: Asg, assumptions: seq<Lit>, seen: seq<bool>, out: seq<Lit>, p: Lit)
    requires TrailInv(a) && a.lim != [] && FinalInv(ca, a, assumptions, seen, out, p, Top(a) - 1) && p.v < |seen|
    ensures Entailed(ca, a, out) && NoMarks(a, seen[p.v := false])
  {
  }

  lemma FinalFacts(ca: seq<Clause>, a: Asg, assumptions: seq<Lit>, seen: seq<bool>, out: seq<Lit>, p: Lit, i: int)
    requires TrailInv(a) && FinalInv(ca, a, assumptions, seen, out, p, i)
    ensures |seen| == |a.assigns| == |a.level| == |a.reason| && -1 <= i < |a.trail| && p in out
    ensures forall q :: q in out ==> Neg(q) in assumptions
    ensures forall k :: 0 <= k < |a.trail| ==> a.trail[k].v < |seen|
  {
  }

  lemma ReasonAt(a: Asg, ca: seq<Clause>, i: nat)
    requires TrailInv(a) && ReasonInv(a, ca) && i < |a.trail| && a.trail[i].v < |a.reason| && a.reason[a.trail[i].v].Some?
    ensures var r := a.reason[a.trail[i].v].value;
            r < |ca| && |ca[r].lits| > 0 && forall k :: 1 <= k < |ca[r].lits| ==> ca[r].lits[k].v < |a.assigns|
  {
  }

  lemma TrueAtTop(ca: seq<Clause>, a: Asg, p: Lit)
    requires TrailInv(a) && a.lim == [] && IsTrue(a, p)
    ensures Entailed(ca, a, [p])
  {
    TrueOnTrail(a, p);
    forall m: Model | Facts(m, ca, a) ensures Sat(m, [p]) {
      assert Holds(m, a.trail[a.pos[p.v]]);
      assert p in [p];
    }
  }

  lemma MarksLength(a: Asg, seen: seq<bool>)
    requires NoMarks(a, seen)
    ensures |seen| == |a.assigns|
  {
  }

  lemma TopBound(a: Asg)
    requires TrailInv(a) && a.lim != []
    ensures a.lim[0] <= |a.trail| && Top(a) == a.lim[0]
  {
  }

  // ---------- learning, in the form the solver uses ----------

  /** An asserting clause after backtracking. */
  ghost predicate LearntReady(ca: seq<Clause>, a: Asg, out: seq<Lit>) {
    && Entailed(ca, a, out) && NoDup(out) && out != [] && SameSize(a)
    && (forall k :: 0 <= k < |out| ==> out[k].v < |a.assigns|)
    && a.assigns[out[0].v] == LUndef
    && (forall k :: 1 <= k < |out| ==> IsFalse(a, out[k]))
    && (|out| > 1 ==> a.level[out[1].v] == |a.lim|) && (|out| == 1 ==> a.lim == [])
  }

  lemma LearntUnitFacts(ca: seq<Clause>, a: Asg, out: seq<Lit>)
    requires LearntReady(ca, a, out) && |out| == 1
    ensures out == [out[0]] && Entailed(ca, a, [out[0]])
  {
  }

  lemma LearnUnitStep(orig: seq<seq<Lit>>, assumptions: seq<Lit>, a: Asg, ca: seq<Clause>, w: Watches,
                      dirty: set<Lit>, dirties: seq<Lit>, out: seq<Lit>)
    requires Base(orig, assumptions, a, ca, w, dirty, dirties) && WatchSem(a, ca, w, |a.trail|)
    requires LearntReady(ca, a, out) && |out| == 1
    ensures SameSize(a) && out[0].v < |a.assigns| && a.assigns[out[0].v] == LUndef
    ensures Base(orig, assumptions, Enqueue(a, out[0], None), ca, w, dirty, dirties)
    ensures WatchSem(Enqueue(a, out[0], None), ca, w, |a.trail|)
  {
    hide DbInv, WatchShape, WatchSem, DirtyOk;
    LearntUnitFacts(ca, a, out);
    DbParts(orig, assumptions, a, ca);
    EntailedUnit(orig, ca, a, out[0]);
    LearnUnit(orig, assumptions, a, ca, w, dirty, dirties, out[0]);
  }

  lemma LearnClauseStep(orig: seq<seq<Lit>>, assumptions: seq<Lit>, a: Asg, ca: seq<Clause>, w: Watches,
                        dirty: set<Lit>, dirties: seq<Lit>, out: seq<Lit>)
    requires Base(orig, assumptions, a, ca, w, dirty, dirties) && WatchSem(a, ca, w, |a.trail|)
    requires LearntReady(ca, a, out) && |out| > 1
    ensures SameSize(a) && out[0].v < |a.assigns| && a.assigns[out[0].v] == LUndef
    ensures Neg(out[0]) in w && Neg(out[1]) in w
    ensures var w', b, cb := AttachedWatches(w, |ca|, out), Enqueue(a, out[0], Some(|ca|)), ca + [Clause(out, true, false)];
            Base(orig, assumptions, b, cb, w', dirty, dirties) && WatchSem(b, cb, w', |a.trail|)
  {
    hide DbInv, WatchShape, WatchSem, DirtyOk, Entailed;
    LearnClause(orig, assumptions, a, ca, w, dirty, dirties, Clause(out, true, false));
  }

  lemma EnqueueKeepsBooks(a: Asg, decision: seq<bool>, heap: set<Var>, seen: seq<bool>, p: Lit, from: Option<CRef>)
    requires SameSize(a) && p.v < |a.assigns| && HeapInv(a, decision, heap) && NoMarks(a, seen)
    ensures HeapInv(Enqueue(a, p, from), decision, heap) && NoMarks(Enqueue(a, p, from), seen)
    ensures |Enqueue(a, p, from).assigns| == |a.assigns| && |Enqueue(a, p, from).trail| == |a.trail| + 1
    ensures Enqueue(a, p, from).lim == a.lim
  {
  }

  lemma EnqueueShape(a: Asg, p: Lit, from: Option<CRef>)
    requires SameSize(a) && p.v < |a.assigns|
    ensures Enqueue(a, p, from).lim == a.lim && |Enqueue(a, p, from).assigns| == |a.assigns|
    ensures Enqueue(a, p, from).trail == a.trail + [p]
  {
  }

  lemma NewRef(ca: seq<Clause>, refs: seq<CRef>, learnt: bool, c: Clause)
    requires RefsOk(ca, refs, learnt) && !c.deleted
    ensures RefsOk(ca + [c], refs, learnt)
    ensures c.learnt == learnt ==> RefsOk(ca + [c], refs + [|ca|], learnt)
  {
  }

  // ---------- removal, in the form the solver uses ----------

  lemma BaseParts(orig: seq<seq<Lit>>, assumptions: seq<Lit>, a: Asg, ca: seq<Clause>, w: Watches,
                  dirty: set<Lit>, dirties: seq<Lit>, r: CRef)
    requires Base(orig, assumptions, a, ca, w, dirty, dirties) && r < |ca|
    ensures SameSize(a) && |ca[r].lits| >= 2 && ca[r].lits[0].v < |a.assigns| && ca[r].lits[1].v < |a.assigns|
    ensures Neg(ca[r].lits[0]) in w && Neg(ca[r].lits[1]) in w && DirtyOk(ca, w, dirty, dirties)
  {
  }

  /** What two smudges leave behind. */
  ghost predicate Smudged(w: Watches, dirty: set<Lit>, dirty': set<Lit>, dirties': seq<Lit>, p: Lit, q: Lit) {
    dirty' == dirty + {p, q} && forall x :: x in dirty' ==> x in dirties' && x in w
  }

  lemma SmudgedDirty(ca: seq<Clause>, w: Watches, dirty: set<Lit>, dirties: seq<Lit>, dirty': set<Lit>, dirties': seq<Lit>,
                     p: Lit, q: Lit)
    requires DirtyOk(ca, w, dirty, dirties) && p in w && q in w && dirty' == dirty + {p} + {q}
    requires (forall x :: x in dirties ==> x in dirties') && (p !in dirty ==> p in dirties') && (q !in dirty + {p} ==> q in dirties')
    ensures Smudged(w, dirty, dirty', dirties', p, q)
  {
  }

  ghost function Forgotten(a: Asg, ca: seq<Clause>, r: CRef): Asg
    requires r < |ca| && |ca[r].lits| > 0
  {
    if Locked(a, ca, r) then a.(reason := a.reason[ca[r].lits[0].v := None]) else a
  }

  lemma RemoveKeepsBase(orig: seq<seq<Lit>>, f: seq<seq<Lit>>, assumptions: seq<Lit>, a: Asg, ca: seq<Clause>, w: Watches,
                        dirty: set<Lit>, dirties: seq<Lit>, dirty': set<Lit>, dirties': seq<Lit>, r: CRef, bound: int)
    requires Base(orig, assumptions, a, ca, w, dirty, dirties) && WatchSem(a, ca, w, bound) && r < |ca| && |ca[r].lits| >= 2
    requires Smudged(w, dirty, dirty', dirties', Neg(ca[r].lits[0]), Neg(ca[r].lits[1]))
    requires Sound(f, Deleted(ca, r), a) && (Locked(a, ca, r) ==> a.lim == [])
    ensures Base(f, assumptions, Forgotten(a, ca, r), Deleted(ca, r), w, dirty', dirties')
    ensures WatchSem(Forgotten(a, ca, r), Deleted(ca, r), w, bound)
  {
    hide Sound;
    assert ClauseOk(|a.assigns|, ca[r]);
    DeleteKeepsDirty(|a.assigns|, ca, w, dirty, dirties, dirty', dirties', r);
    DeleteKeepsLists(a, |a.assigns|, ca, w, bound, r);
    RemoveKeepsDb(orig, f, assumptions, a, ca, r);
    ForgetKeepsSem(a, Deleted(ca, r), w, bound, Forgotten(a, ca, r));
  }

  lemma RemoveKeepsDb(orig: seq<seq<Lit>>, f: seq<seq<Lit>>, assumptions: seq<Lit>, a: Asg, ca: seq<Clause>, r: CRef)
    requires DbInv(orig, assumptions, a, ca) && r < |ca| && |ca[r].lits| >= 2
    requires Sound(f, Deleted(ca, r), a) && (Locked(a, ca, r) ==> a.lim == [])
    ensures DbInv(f, assumptions, Forgotten(a, ca, r), Deleted(ca, r))
  {
    hide Sound;
    var b := Forgotten(a, ca, r);
    assert ClauseOk(|a.assigns|, ca[r]);
    forall x | 0 <= x < |Deleted(ca, r)| ensures ClauseOk(|b.assigns|, Deleted(ca, r)[x]) {
      assert ClauseOk(|a.assigns|, ca[x]);
    }
    if Locked(a, ca, r) {
      ForgetReason(a, ca, assumptions, ca[r].lits[0].v);
    }
    DeleteKeepsReasons(b, ca, r);
    SameTopSameMeaning(f, Deleted(ca, r), a, b);
  }

  lemma ForgetKeepsSem(a: Asg, ca: seq<Clause>, w: Watches, bound: int, b: Asg)
    requires WatchSem(a, ca, w, bound) && b == a.(reason := b.reason)
    ensures WatchSem(b, ca, w, bound)
  {
  }

  lemma EndOfRefs(refs: seq<CRef>, j: nat)
    requires j <= |refs|
    ensures refs[..j] + refs[|refs|..] == refs[..j]
  {
  }

  /** The next reference of a list under compaction, and the list without it. */
  lemma NextRef(ca: seq<Clause>, refs: seq<CRef>, i: nat, j: nat, learnt: bool, other: seq<CRef>)
    requires j <= i < |refs| && RefsOk(ca, refs[..j] + refs[i..], learnt) && RefsOk(ca, other, !learnt)
    ensures var r := refs[i];
            && r < |ca| && !ca[r].deleted && ca[r].learnt == learnt
            && RefsOk(Deleted(ca, r), refs[..j] + refs[i + 1..], learnt) && RefsOk(Deleted(ca, r), other, !learnt)
  {
    var all, rest, r := refs[..j] + refs[i..], refs[..j] + refs[i + 1..], refs[i];
    assert all[j] == r;
    forall k | 0 <= k < |rest| ensures rest[k] == all[if k < j then k else k + 1] {
    }
    DeleteKeepsRefs(ca, other, !learnt, r);
  }

  lemma KeepRef(refs: seq<CRef>, i: nat, j: nat)
    requires j <= i < |refs|
    ensures refs[j := refs[i]][..j + 1] + refs[j := refs[i]][i + 1..] == refs[..j] + refs[i..]
  {
  }

  ghost predicate TrueClause(a: Asg, c: Clause) {
    exists k :: 0 <= k < |c.lits| && IsTrue(a, c.lits[k])
  }

  /** Compaction after i of the references: those in 'gone' have been deleted, the others kept in order in front. */
  ghost predicate Compacted(ca0: seq<Clause>, ca: seq<Clause>, refs: seq<CRef>, kept: seq<CRef>, i: nat, j: nat, gone: set<CRef>) {
    && j <= i <= |refs| == |kept| && kept[i..] == refs[i..] && |ca| == |ca0|
    && (forall r :: 0 <= r < |ca| ==> ca[r] == if r in gone then ca0[r].(deleted := true) else ca0[r])
    && (forall r :: r in gone ==> r in refs[..i])
    && (forall r :: r in kept[..j] <==> r in refs[..i] && r !in gone)
  }

  /** Exactly the clauses in 'gone' have been deleted, and 'kept' lists the others. */
  ghost predicate DeletedFrom(ca0: seq<Clause>, ca: seq<Clause>, refs: seq<CRef>, kept: seq<CRef>, gone: set<CRef>) {
    && |ca| == |ca0| && (forall r :: r in gone ==> r in refs)
    && (forall r :: 0 <= r < |ca| ==> ca[r] == if r in gone then ca0[r].(deleted := true) else ca0[r])
    && (forall r :: r in kept <==> r in refs && r !in gone)
  }

  /** No clause of the list has a true literal. */
  ghost predicate NoneTrue(values: seq<LBool>, ca: seq<Clause>, refs: seq<CRef>) {
    forall r :: r in refs ==> r < |ca| && !exists k :: 0 <= k < |ca[r].lits| && TrueLit(values, ca[r].lits[k])
  }

  lemma KeptNotTrue(a: Asg, ca0: seq<Clause>, ca: seq<Clause>, refs: seq<CRef>, kept: seq<CRef>, gone: set<CRef>)
    requires DeletedFrom(ca0, ca, refs, kept, gone)
    requires forall r :: r in refs ==> r < |ca0| && (r in gone <==> TrueClause(a, ca0[r]))
    ensures NoneTrue(a.assigns, ca, kept)
  {
    forall r | r in kept ensures r < |ca| && !exists k :: 0 <= k < |ca[r].lits| && TrueLit(a.assigns, ca[r].lits[k]) {
      assert !TrueClause(a, ca0[r]) && ca[r] == ca0[r];
      assert forall k :: 0 <= k < |ca[r].lits| ==> !IsTrue(a, ca[r].lits[k]);
    }
  }

  lemma NoneTrueStays(values: seq<LBool>, others: seq<CRef>, ca0: seq<Clause>, ca: seq<Clause>, refs: seq<CRef>, kept: seq<CRef>, gone: set<CRef>)
    requires DeletedFrom(ca0, ca, refs, kept, gone) && NoneTrue(values, ca0, others)
    ensures NoneTrue(values, ca, others)
  {
    assert forall r :: 0 <= r < |ca| ==> ca[r].lits == ca0[r].lits;
  }

  lemma CompactNext(ca0: seq<Clause>, ca: seq<Clause>, refs: seq<CRef>, kept: seq<CRef>, i: nat, j: nat, gone: set<CRef>)
    requires Compacted(ca0, ca, refs, kept, i, j, gone) && i < |refs| && NoDup(refs)
    ensures |ca| == |ca0| && kept[i] == refs[i] && refs[i] !in gone && (refs[i] < |ca| ==> ca[refs[i]] == ca0[refs[i]])
    ensures refs[i] < |ca| ==> Compacted(ca0, Deleted(ca, refs[i]), refs, kept, i + 1, j, gone + {refs[i]})
    ensures Compacted(ca0, ca, refs, kept[j := refs[i]], i + 1, j + 1, gone)
  {
    assert kept[i..][0] == refs[i..][0];
    assert refs[..i + 1] == refs[..i] + [refs[i]] && refs[i] !in refs[..i];
    assert kept[i + 1..] == kept[i..][1..];
    var kept' := kept[j := refs[i]];
    assert kept'[..j + 1] == kept[..j] + [refs[i]];
    assert kept'[i + 1..] == kept[i + 1..];
  }

  /** The list under compaction, together with the other list of references. */
  ghost predicate Compacting(ca0: seq<Clause>, ca: seq<Clause>, refs: seq<CRef>, kept: seq<CRef>, i: nat, j: nat,
                             gone: set<CRef>, learnt: bool, other: seq<CRef>) {
    && NoDup(refs) && Compacted(ca0, ca, refs, kept, i, j, gone)
    && RefsOk(ca, kept[..j] + kept[i..], learnt) && RefsOk(ca, other, !learnt)
  }

  lemma CompactStart(ca: seq<Clause>, refs: seq<CRef>, learnt: bool, other: seq<CRef>)
    requires RefsOk(ca, refs, learnt) && RefsOk(ca, other, !learnt)
    ensures Compacting(ca, ca, refs, refs, 0, 0, {}, learnt, other)
  {
  }

  lemma CompactedBounds(ca0: seq<Clause>, ca: seq<Clause>, refs: seq<CRef>, kept: seq<CRef>, i: nat, j: nat, gone: set<CRef>)
    requires Compacted(ca0, ca, refs, kept, i, j, gone)
    ensures j <= i <= |refs| == |kept|
  {
  }

  lemma CompactStep(ca0: seq<Clause>, ca: seq<Clause>, refs: seq<CRef>, kept: seq<CRef>, i: nat, j: nat,
                    gone: set<CRef>, learnt: bool, other: seq<CRef>)
    requires Compacting(ca0, ca, refs, kept, i, j, gone, learnt, other) && i < |refs|
    ensures |kept| == |refs| && j <= i && |ca| == |ca0| && kept[i] == refs[i] && refs[i] !in gone
    ensures var r := refs[i];
            && r < |ca| && ca[r] == ca0[r] && !ca[r].deleted && ca[r].learnt == learnt
            && Compacting(ca0, Deleted(ca, r), refs, kept, i + 1, j, gone + {r}, learnt, other)
            && Compacting(ca0, ca, refs, kept[j := r], i + 1, j + 1, gone, learnt, other)
  {
    hide Compacted, RefsOk;
    CompactedBounds(ca0, ca, refs, kept, i, j, gone);
    CompactNext(ca0, ca, refs, kept, i, j, gone);
    NextRef(ca, kept, i, j, learnt, other);
    KeepRef(kept, i, j);
  }

  lemma DistinctRefs(ca0: seq<Clause>, ca: seq<Clause>, refs: seq<CRef>, kept: seq<CRef>, i: nat, j: nat,
                     gone: set<CRef>, learnt: bool, other: seq<CRef>)
    requires Compacting(ca0, ca, refs, kept, i, j, gone, learnt, other)
    ensures NoDup(refs)
  {
  }

  lemma CompactEnd(ca0: seq<Clause>, ca: seq<Clause>, refs: seq<CRef>, kept: seq<CRef>, j: nat,
                   gone: set<CRef>, learnt: bool, other: seq<CRef>)
    requires Compacting(ca0, ca, refs, kept, |refs|, j, gone, learnt, other)
    ensures j <= |kept| && DeletedFrom(ca0, ca, refs, kept[..j], gone)
    ensures RefsOk(ca, kept[..j], learnt) && RefsOk(ca, other, !learnt)
  {
    assert refs[..|refs|] == refs;
    EndOfRefs(kept, j);
  }

  lemma FoundTrue(a: Asg, c: Clause, k: nat)
    requires k <= |c.lits| && (k < |c.lits| ==> IsTrue(a, c.lits[k])) && (k == |c.lits| ==> forall i :: 0 <= i < |c.lits| ==> !IsTrue(a, c.lits[i]))
    ensures TrueClause(a, c) <==> k < |c.lits|
  {
  }

  lemma SameTruth(a: Asg, b: Asg)
    requires a.assigns == b.assigns
    ensures forall c: Clause :: TrueClause(a, c) == TrueClause(b, c)
  {
  }

  lemma LockedAlike(a: Asg, ca0: seq<Clause>, ca: seq<Clause>, r: CRef)
    requires r < |ca| == |ca0| && ca[r] == ca0[r]
    ensures Locked(a, ca0, r) == Locked(a, ca, r)
  {
  }

  lemma LiteralsInRange(orig: seq<seq<Lit>>, assumptions: seq<Lit>, a: Asg, ca: seq<Clause>, w: Watches,
                        dirty: set<Lit>, dirties: seq<Lit>, r: CRef)
    requires Base(orig, assumptions, a, ca, w, dirty, dirties) && r < |ca|
    ensures forall i :: 0 <= i < |ca[r].lits| ==> ca[r].lits[i].v < |a.assigns|
  {
  }

  lemma SatisfiedMayGo(orig: seq<seq<Lit>>, assumptions: seq<Lit>, a: Asg, ca: seq<Clause>, w: Watches,
                       dirty: set<Lit>, dirties: seq<Lit>, r: CRef, q: Lit)
    requires Base(orig, assumptions, a, ca, w, dirty, dirties) && a.lim == []
    requires r < |ca| && q in ca[r].lits && IsTrue(a, q)
    ensures Sound(orig, Deleted(ca, r), a)
  {
    DeleteSatisfiedKeepsMeaning(orig, ca, a, r, q);
  }

  lemma LearntMayGo(orig: seq<seq<Lit>>, assumptions: seq<Lit>, a: Asg, ca: seq<Clause>, w: Watches,
                    dirty: set<Lit>, dirties: seq<Lit>, r: CRef)
    requires Base(orig, assumptions, a, ca, w, dirty, dirties) && r < |ca| && ca[r].learnt
    ensures Sound(orig, Deleted(ca, r), a)
  {
    DeleteLearntKeepsMeaning(orig, ca, a, r);
  }

  // ---------- glue for the search ----------

  lemma ExtendsKeepsBooks(a: Asg, b: Asg, decision: seq<bool>, heap: set<Var>, seen: seq<bool>)
    requires Extends(a, b) && HeapInv(a, decision, heap) && NoMarks(a, seen)
    ensures HeapInv(b, decision, heap) && NoMarks(b, seen)
  {
    forall v | 0 <= v < |decision| && decision[v] && !IsSet(b, v) ensures v in heap {
      if IsSet(a, v) {
        var p := Lit(v, a.assigns[v] == LFalse);
        assert IsTrue(a, p);
      }
    }
  }

  lemma FlagsKeepRefs(ca: seq<Clause>, cb: seq<Clause>, refs: seq<CRef>, learnt: bool)
    requires Reworked(ca, cb)
    ensures RefsOk(ca, refs, learnt) ==> RefsOk(cb, refs, learnt)
  {
  }

  lemma CleanIsDirtyOk(a: Asg, ca: seq<Clause>, w: Watches, bound: int)
    requires WatchInv(a, ca, w, bound)
    ensures WatchShape(|a.assigns|, ca, w) && DirtyOk(ca, w, {}, []) && WatchSem(a, ca, w, bound)
  {
  }

  lemma StartBelowEnd(a: Asg)
    requires TrailInv(a)
    ensures LevelStart(a) <= |a.trail|
  {
  }

  lemma ExtendsPrefix(a: Asg, b: Asg)
    requires Extends(a, b)
    ensures a.trail <= b.trail && a.lim == b.lim && |a.assigns| == |b.assigns|
  {
  }

  /** A conflict at level 0 refutes the clauses added. */
  lemma ConflictRefutes(orig: seq<seq<Lit>>, assumptions: seq<Lit>, a: Asg, ca: seq<Clause>, w: Watches,
                        dirty: set<Lit>, dirties: seq<Lit>, r: CRef)
    requires Base(orig, assumptions, a, ca, w, dirty, dirties) && Conflicting(a, ca, r) && a.lim == []
    ensures Unsat(orig)
  {
    forall q | q in ca[r].lits ensures IsFalse(a, q) {
      var k :| 0 <= k < |ca[r].lits| && ca[r].lits[k] == q;
    }
    ConflictAtTop(orig, ca, a, r);
  }

  lemma MarksAreNone(a: Asg, seen: seq<bool>)
    requires NoMarks(a, seen)
    ensures |seen| == |a.assigns| && forall v :: 0 <= v < |seen| ==> !seen[v]
  {
  }

  lemma MarksDependOnSize(a: Asg, seen: seq<bool>)
    requires |seen| == |a.assigns| && forall v :: 0 <= v < |seen| ==> !seen[v]
    ensures NoMarks(a, seen)
  {
  }

  lemma LevelStartAtTop(a: Asg)
    requires a.lim == []
    ensures LevelStart(a) == 0
  {
  }

  // ---------- assumptions and branching ----------

  /** Every assumption whose level has been opened is true, at that level or below; the levels above hold a literal each. */
  ghost predicate AssumeInv(a: Asg, assumptions: seq<Lit>) {
    SameSize(a) && LevelsFilled(a, |assumptions|) && forall i :: 0 <= i < |a.lim| && i < |assumptions| ==> TrueBy(a, assumptions[i], i + 1)
  }

  /** Every unassigned decision variable but v is in the order heap. */
  ghost predicate HeapBut(a: Asg, decision: seq<bool>, heap: set<Var>, v: Var) {
    && |decision| == |a.assigns|
    && (forall u :: 0 <= u < |decision| && u != v && decision[u] && !IsSet(a, u) ==> u in heap)
    && (forall u :: u in heap ==> u < |decision|)
  }

  lemma OpenLevelKeepsBooks(a: Asg, decision: seq<bool>, heap: set<Var>, seen: seq<bool>)
    requires HeapInv(a, decision, heap) && NoMarks(a, seen)
    ensures HeapInv(OpenLevel(a), decision, heap) && NoMarks(OpenLevel(a), seen)
  {
  }

  lemma DummyLevel(a: Asg, assumptions: seq<Lit>)
    requires TrailInv(a) && AssumeInv(a, assumptions) && |a.lim| < |assumptions| && IsTrue(a, assumptions[|a.lim|])
    ensures AssumeInv(OpenLevel(a), assumptions)
  {
    FilledOpened(a, OpenLevel(a), |assumptions|);
    assert IsSet(a, assumptions[|a.lim|].v) && LevelOk(a, assumptions[|a.lim|].v);
    forall i | 0 <= i < |OpenLevel(a).lim| && i < |assumptions| ensures TrueBy(OpenLevel(a), assumptions[i], i + 1) {
      assert i < |a.lim| ==> TrueBy(a, assumptions[i], i + 1);
    }
  }

  lemma BaseDb(orig: seq<seq<Lit>>, assumptions: seq<Lit>, a: Asg, ca: seq<Clause>, w: Watches,
               dirty: set<Lit>, dirties: seq<Lit>)
    requires Base(orig, assumptions, a, ca, w, dirty, dirties)
    ensures DbInv(orig, assumptions, a, ca)
  {
  }

  lemma DecideKeepsBooks(a: Asg, decision: seq<bool>, heap: set<Var>, seen: seq<bool>, p: Lit)
    requires SameSize(a) && p.v < |a.assigns| && HeapBut(a, decision, heap, p.v) && NoMarks(a, seen)
    ensures var b := Enqueue(OpenLevel(a), p, None);
            HeapInv(b, decision, heap) && NoMarks(b, seen)
  {
  }

  lemma DecideAssumed(a: Asg, assumptions: seq<Lit>, p: Lit)
    requires TrailInv(a) && AssumeInv(a, assumptions) && p.v < |a.assigns| && !IsSet(a, p.v)
    requires |a.lim| < |assumptions| ==> p == assumptions[|a.lim|]
    ensures AssumeInv(Enqueue(OpenLevel(a), p, None), assumptions)
  {
    FilledOpened(a, Enqueue(OpenLevel(a), p, None), |assumptions|);
  }

  lemma DecideStep(orig: seq<seq<Lit>>, assumptions: seq<Lit>, a: Asg, ca: seq<Clause>, w: Watches,
                   dirty: set<Lit>, dirties: seq<Lit>, decision: seq<bool>, heap: set<Var>, seen: seq<bool>, bound: int, p: Lit)
    requires Base(orig, assumptions, a, ca, w, dirty, dirties) && WatchSem(a, ca, w, bound) && bound == |a.trail|
    requires HeapBut(a, decision, heap, p.v) && NoMarks(a, seen) && SameSize(a) && p.v < |a.assigns| && a.assigns[p.v] == LUndef
    requires |a.lim| < |assumptions| ==> p == assumptions[|a.lim|]
    ensures var b := Enqueue(OpenLevel(a), p, None);
            && Base(orig, assumptions, b, ca, w, dirty, dirties) && WatchSem(b, ca, w, bound)
            && HeapInv(b, decision, heap) && NoMarks(b, seen) && LevelStart(b) == bound
            && (AssumeInv(a, assumptions) ==> AssumeInv(b, assumptions))
  {
    hide Base, WatchSem, HeapInv, HeapBut, NoMarks, AssumeInv;
    BaseTrail(orig, assumptions, a, ca, w, dirty, dirties);
    OpenLevelKeepsBase(orig, assumptions, a, ca, w, dirty, dirties, bound);
    DecideKeepsBase(orig, assumptions, OpenLevel(a), ca, w, dirty, dirties, bound, p);
    DecideKeepsBooks(a, decision, heap, seen, p);
    if AssumeInv(a, assumptions) {
      DecideAssumed(a, assumptions, p);
    }
  }

  lemma ExtendsKeepsAssumed(a: Asg, b: Asg, assumptions: seq<Lit>)
    requires Extends(a, b) && AssumeInv(a, assumptions)
    ensures AssumeInv(b, assumptions)
  {
    FilledGrows(a, b, |assumptions|);
  }

  lemma CancelKeepsAssumed(a: Asg, assumptions: seq<Lit>, level: nat)
    requires TrailInv(a) && AssumeInv(a, assumptions) && level < |a.lim|
    ensures AssumeInv(Cancel(a, level), assumptions)
  {
    CancelKeepsTrail(a, level);
    var b := Cancel(a, level);
    FilledCut(a, b, |assumptions|, level);
    forall i | 0 <= i < |b.lim| && i < |assumptions| ensures TrueBy(b, assumptions[i], i + 1) {
      assert TrueBy(a, assumptions[i], i + 1);
    }
  }

  lemma EnqueueKeepsAssumed(a: Asg, assumptions: seq<Lit>, p: Lit, from: Option<CRef>)
    requires SameSize(a) && AssumeInv(a, assumptions) && p.v < |a.assigns| && a.assigns[p.v] == LUndef
    ensures AssumeInv(Enqueue(a, p, from), assumptions)
  {
    FilledGrows(a, Enqueue(a, p, from), |assumptions|);
  }

  lemma AssertingLevel(ca: seq<Clause>, a: Asg, out: seq<Lit>, level: nat)
    requires Asserting(ca, a, out, level)
    ensures level < |a.lim|
  {
  }

  /** After the backjump the learnt clause is ready to be stored. */
  lemma BackjumpReady(orig: seq<seq<Lit>>, assumptions: seq<Lit>, a: Asg, ca: seq<Clause>, w: Watches,
                      dirty: set<Lit>, dirties: seq<Lit>, out: seq<Lit>, level: nat, b: Asg)
    requires Base(orig, assumptions, a, ca, w, dirty, dirties) && Asserting(ca, a, out, level) && Cancelled(a, b, level)
    requires AssumeInv(a, assumptions)
    ensures LearntReady(ca, b, out) && AssumeInv(b, assumptions) && |b.lim| == level && LevelStart(b) <= |b.trail|
    ensures |b.assigns| == |a.assigns|
  {
    hide Entailed, Asserting, AssumeInv, NoDup, Cancel;
    BaseTrail(orig, assumptions, a, ca, w, dirty, dirties);
    AssertingLevel(ca, a, out, level);
    AssertingAfterCancel(ca, a, out, level);
    CancelKeepsAssumed(a, assumptions, level);
    CancelKeepsTrail(a, level);
    StartBelowEnd(b);
    CancelSize(a, level);
  }

  lemma CancelSize(a: Asg, level: nat)
    requires SameSize(a) && level < |a.lim| && a.lim[level] <= |a.trail|
    ensures |Cancel(a, level).assigns| == |a.assigns| && |Cancel(a, level).lim| == level
  {
  }

  lemma CancelEnds(a: Asg, b: Asg, level: nat)
    requires Cancelled(a, b, level)
    ensures level < |a.lim| && a.lim[level] <= |a.trail| && b.lim == a.lim[..level] && |b.trail| == a.lim[level] && |b.assigns| == |a.assigns|
  {
  }

  lemma LevelsAreFilled(a: Asg, assumptions: seq<Lit>)
    requires AssumeInv(a, assumptions)
    ensures LevelsFilled(a, |assumptions|)
  {
  }

  lemma AllAssumed(a: Asg, assumptions: seq<Lit>)
    requires AssumeInv(a, assumptions) && |a.lim| >= |assumptions|
    ensures forall i :: 0 <= i < |assumptions| ==> IsTrue(a, assumptions[i])
  {
  }

  lemma HeapSuffices(a: Asg, decision: seq<bool>, heap: set<Var>, v: Var)
    requires HeapInv(a, decision, heap)
    ensures HeapBut(a, decision, heap, v)
  {
  }

  lemma LearntFree(ca: seq<Clause>, a: Asg, out: seq<Lit>)
    requires LearntReady(ca, a, out)
    ensures |out| > 0 && SameSize(a) && out[0].v < |a.assigns| && a.assigns[out[0].v] == LUndef
  {
  }

  lemma SameLevelStart(a: Asg, b: Asg)
    requires a.lim == b.lim
    ensures LevelStart(b) == LevelStart(a)
  {
  }

  lemma AssumeAtTop(a: Asg, assumptions: seq<Lit>)
    requires SameSize(a) && a.lim == []
    ensures AssumeInv(a, assumptions)
  {
  }

  lemma ReasonsDoNotMatter(a: Asg, b: Asg, assumptions: seq<Lit>, decision: seq<bool>, heap: set<Var>, seen: seq<bool>)
    requires b == a.(reason := b.reason) && |b.reason| == |a.reason|
    requires HeapInv(a, decision, heap) && NoMarks(a, seen) && AssumeInv(a, assumptions)
    ensures HeapInv(b, decision, heap) && NoMarks(b, seen) && AssumeInv(b, assumptions) && LevelStart(b) == LevelStart(a)
  {
    FilledGrows(a, b, |assumptions|);
  }

  lemma OnlyReasons(a: Asg, b: Asg, decision: seq<bool>, heap: set<Var>, seen: seq<bool>)
    requires b == a.(reason := b.reason, loose := b.loose) && HeapInv(a, decision, heap) && NoMarks(a, seen)
    ensures HeapInv(b, decision, heap) && NoMarks(b, seen) && LevelStart(b) == LevelStart(a)
  {
  }

  lemma StartSem(a: Asg, ca: seq<Clause>, w: Watches, bound: int)
    requires WatchSem(a, ca, w, bound) && LevelStart(a) <= bound
    ensures WatchSem(a, ca, w, LevelStart(a))
  {
  }

  lemma NothingProcessed(a: Asg, ca: seq<Clause>, w: Watches)
    ensures WatchSem(a, ca, w, 0)
  {
  }

  // ---------- results ----------

  /** A total assignment that extends the values of a model. */
  ghost predicate Agrees(m: Model, values: seq<LBool>) {
    forall v :: 0 <= v < |values| && values[v] != LUndef ==> (v in m <==> values[v] == LTrue)
  }

  lemma AgreesHolds(m: Model, a: Asg, p: Lit)
    requires Agrees(m, a.assigns) && IsTrue(a, p)
    ensures Holds(m, p)
  {
  }

  /** At rest, with every variable of the clauses assigned, every extension of the assignment satisfies them all. */
  lemma ModelSatisfies(orig: seq<seq<Lit>>, assumptions: seq<Lit>, a: Asg, ca: seq<Clause>, w: Watches,
                       dirty: set<Lit>, dirties: seq<Lit>)
    requires Base(orig, assumptions, a, ca, w, dirty, dirties) && WatchSem(a, ca, w, |a.trail|) && a.loose == {}
    requires forall p: Lit :: Mentions(orig, p) ==> IsSet(a, p.v)
    ensures forall m: Model :: Agrees(m, a.assigns) ==> SatAll(m, orig)
  {
    forall m: Model | Agrees(m, a.assigns) ensures SatAll(m, orig) {
      forall r | 0 <= r < |ca| && !ca[r].deleted && !ca[r].learnt ensures Sat(m, ca[r].lits) {
        ClauseSatisfied(orig, assumptions, a, ca, w, dirty, dirties, r, m);
      }
      forall i | 0 <= i < Top(a) && i < |a.trail| ensures Holds(m, a.trail[i]) {
        AgreesHolds(m, a, a.trail[i]);
      }
      assert SatProblem(m, ca) && TopTrue(m, a);
    }
  }

  lemma ClauseSatisfied(orig: seq<seq<Lit>>, assumptions: seq<Lit>, a: Asg, ca: seq<Clause>, w: Watches,
                        dirty: set<Lit>, dirties: seq<Lit>, r: CRef, m: Model)
    requires Base(orig, assumptions, a, ca, w, dirty, dirties) && WatchSem(a, ca, w, |a.trail|)
    requires forall p: Lit :: Mentions(orig, p) ==> IsSet(a, p.v)
    requires r < |ca| && !ca[r].deleted && r !in a.loose && !ca[r].learnt && Agrees(m, a.assigns)
    ensures Sat(m, ca[r].lits)
  {
    hide WatchSem, DirtyOk, WatchShape, ReasonInv, DecisionInv, Implied, Preserved;
    assert ClauseOk(|a.assigns|, ca[r]);
    QuietClauseShape(a, ca, w, r);
    assert Mentions(orig, ca[r].lits[0]);
    var q :| q in ca[r].lits && IsTrue(a, q);
    AgreesHolds(m, a, q);
  }

  lemma QuietClauseShape(a: Asg, ca: seq<Clause>, w: Watches, r: CRef)
    requires TrailInv(a) && ClausesOk(|a.assigns|, ca) && WatchShape(|a.assigns|, ca, w) && WatchSem(a, ca, w, |a.trail|)
    requires r < |ca| && !ca[r].deleted && r !in a.loose && |ca[r].lits| >= 2 && IsSet(a, ca[r].lits[0].v)
    ensures exists q :: q in ca[r].lits && IsTrue(a, q)
  {
  }

  lemma UnsatEntails(orig: seq<seq<Lit>>)
    requires Unsat(orig)
    ensures Entails(orig, [])
  {
  }

  lemma EntailedByAdded(orig: seq<seq<Lit>>, assumptions: seq<Lit>, a: Asg, ca: seq<Clause>, w: Watches,
                        dirty: set<Lit>, dirties: seq<Lit>, c: seq<Lit>)
    requires Base(orig, assumptions, a, ca, w, dirty, dirties) && Entailed(ca, a, c)
    ensures Entails(orig, c)
  {
  }

  /** At level 0 the assumptions may be exchanged. */
  lemma StartSolving(orig: seq<seq<Lit>>, before: seq<Lit>, assumptions: seq<Lit>, a: Asg, ca: seq<Clause>, w: Watches,
                     dirty: set<Lit>, dirties: seq<Lit>)
    requires Base(orig, before, a, ca, w, dirty, dirties) && a.lim == []
    ensures Base(orig, assumptions, a, ca, w, dirty, dirties) && AssumeInv(a, assumptions)
  {
  }

  // ---------- adding a clause ----------

  lemma AddTrivialStep(orig: seq<seq<Lit>>, assumptions: seq<Lit>, a: Asg, ca: seq<Clause>, w: Watches,
                       dirty: set<Lit>, dirties: seq<Lit>, ps: seq<Lit>)
    requires Base(orig, assumptions, a, ca, w, dirty, dirties) && a.lim == []
    requires exists k :: 0 <= k < |ps| && (IsTrue(a, ps[k]) || Neg(ps[k]) in ps)
    ensures Base(orig + [ps], assumptions, a, ca, w, dirty, dirties)
  {
    hide WatchShape, DirtyOk, ReasonInv, DecisionInv, ClausesOk;
    var k :| 0 <= k < |ps| && (IsTrue(a, ps[k]) || Neg(ps[k]) in ps);
    forall m: Model | TopTrue(m, a) ensures Sat(m, ps) {
      if IsTrue(a, ps[k]) {
        TrueOnTrail(a, ps[k]);
        assert Holds(m, a.trail[a.pos[ps[k].v]]) && ps[k] in ps;
      } else {
        assert Holds(m, if Holds(m, ps[k]) then ps[k] else Neg(ps[k]));
      }
    }
    AddTrivialKeepsMeaning(orig, ca, a, ps);
  }

  lemma AddFalseStep(orig: seq<seq<Lit>>, assumptions: seq<Lit>, a: Asg, ca: seq<Clause>, w: Watches,
                     dirty: set<Lit>, dirties: seq<Lit>, ps: seq<Lit>)
    requires Base(orig, assumptions, a, ca, w, dirty, dirties) && a.lim == [] && NormalForm(a, ps, [])
    ensures Unsat(orig + [ps])
  {
    AddedEntailed(orig, ps);
    forall m: Model ensures !SatAll(m, orig + [ps]) {
      assert !Sat(m, []);
      if SatAll(m, orig + [ps]) {
        assert Facts(m, ca, a);
        NormalEquivalent(ca, a, ps, [], m);
      }
    }
  }

  /** A new clause with one free literal: that literal follows, and stands for the clause. */
  lemma AddUnitMeaning(orig: seq<seq<Lit>>, ca: seq<Clause>, a: Asg, ps: seq<Lit>, c: seq<Lit>)
    requires Sound(orig, ca, a) && TrailInv(a) && a.lim == [] && NormalForm(a, ps, c) && |c| == 1
    ensures c[0].v < |a.assigns| && Sound(orig + [ps], ca, Enqueue(a, c[0], None))
  {
    var b := Enqueue(a, c[0], None);
    AddedEntailed(orig, ps);
    MentionsGrow(orig, ps);
    assert c == [c[0]];
    assert forall i :: 0 <= i < |a.trail| ==> b.trail[i] == a.trail[i];
    forall m: Model | SatAll(m, orig + [ps]) ensures Facts(m, ca, b) {
      assert Facts(m, ca, a);
      NormalEquivalent(ca, a, ps, c, m);
    }
    forall m: Model | SatProblem(m, ca) && TopTrue(m, b) ensures SatAll(m, orig + [ps]) {
      assert b.trail[|a.trail|] == c[0];
      forall i | 0 <= i < Top(a) && i < |a.trail| ensures Holds(m, a.trail[i]) {
        assert b.trail[i] == a.trail[i];
      }
      assert TopTrue(m, a);
      assert c[0] in ps && Holds(m, c[0]);
    }
  }

  lemma AddUnitStep(orig: seq<seq<Lit>>, assumptions: seq<Lit>, a: Asg, ca: seq<Clause>, w: Watches,
                    dirty: set<Lit>, dirties: seq<Lit>, bound: int, ps: seq<Lit>, c: seq<Lit>)
    requires Base(orig, assumptions, a, ca, w, dirty, dirties) && WatchSem(a, ca, w, bound) && bound <= |a.trail|
    requires a.lim == [] && NormalForm(a, ps, c) && |c| == 1
    ensures SameSize(a) && c[0].v < |a.assigns| && a.assigns[c[0].v] == LUndef
    ensures Base(orig + [ps], assumptions, Enqueue(a, c[0], None), ca, w, dirty, dirties)
    ensures WatchSem(Enqueue(a, c[0], None), ca, w, bound)
  {
    hide WatchShape, DirtyOk, WatchSem, ReasonInv, DecisionInv, Sound, NormalOf;
    EnqueueKeepsTrail(a, c[0], None);
    EnqueueKeepsReasons(a, ca, c[0], None);
    EnqueueKeepsDecisions(a, assumptions, c[0], None);
    EnqueueKeepsWatches(a, ca, w, bound, c[0], None);
    AddUnitMeaning(orig, ca, a, ps, c);
  }

  lemma AddLongStep(orig: seq<seq<Lit>>, assumptions: seq<Lit>, a: Asg, ca: seq<Clause>, w: Watches,
                    dirty: set<Lit>, dirties: seq<Lit>, bound: int, ps: seq<Lit>, c: seq<Lit>)
    requires Base(orig, assumptions, a, ca, w, dirty, dirties) && WatchSem(a, ca, w, bound)
    requires a.lim == [] && NormalForm(a, ps, c) && |c| > 1
    ensures Neg(c[0]) in w && Neg(c[1]) in w
    ensures Base(orig + [ps], assumptions, a, ca + [Clause(c, false, false)], AttachedWatches(w, |ca|, c), dirty, dirties)
    ensures WatchSem(a, ca + [Clause(c, false, false)], AttachedWatches(w, |ca|, c), bound)
  {
    hide DirtyOk, WatchSem, ReasonInv, DecisionInv, Sound, NormalOf;
    var d := Clause(c, false, false);
    assert ClauseOk(|a.assigns|, d);
    AddProblemKeepsMeaning(orig, ca, a, ps, d);
    AttachKeepsBase(orig, orig + [ps], assumptions, a, ca, w, dirty, dirties, d);
    assert !IsTrue(a, Neg(c[0])) && !IsTrue(a, Neg(c[1]));
    AttachKeepsSem(a, |a.assigns|, ca, w, bound, d);
  }

  /** The trail has only grown, by literals of ps and implied ones. */
  ghost predicate GrownBy(a: Asg, b: Asg, ps: seq<Lit>) {
    && SameSize(b) && |b.assigns| == |a.assigns| && a.trail <= b.trail && a.lim == b.lim && a.loose == b.loose && a.probing == b.probing
    && forall v :: IsSet(b, v) ==> IsSet(a, v) || b.reason[v].Some? || exists q :: q in ps && q.v == v
  }

  lemma GrownBySelf(a: Asg, ps: seq<Lit>)
    requires SameSize(a)
    ensures GrownBy(a, a, ps)
  {
  }

  lemma GrownByUnit(a: Asg, ps: seq<Lit>, c: seq<Lit>, b: Asg, d: Asg)
    requires NormalForm(a, ps, c) && |c| == 1 && SameSize(a) && c[0].v < |a.assigns| && b == Enqueue(a, c[0], None) && Extends(b, d)
    ensures GrownBy(a, d, ps)
  {
  }

  /** What adding a clause does to the database: its normal form is stored, or only the trail and the order of literals change. */
  ghost predicate Stored(a: Asg, ca: seq<Clause>, refs: seq<CRef>, ps: seq<Lit>, b: Asg, cb: seq<Clause>, refs': seq<CRef>) {
    || (b == a && refs' == refs + [|ca|] && exists c :: NormalForm(a, ps, c) && |c| > 1 && cb == ca + [Clause(c, false, false)])
    || (Reworked(ca, cb) && refs' == refs && GrownBy(a, b, ps))
  }

  lemma StoredLong(a: Asg, ca: seq<Clause>, refs: seq<CRef>, ps: seq<Lit>, c: seq<Lit>)
    requires NormalForm(a, ps, c) && |c| > 1
    ensures Stored(a, ca, refs, ps, a, ca + [Clause(c, false, false)], refs + [|ca|])
  {
  }

  lemma StoredShort(a: Asg, ca: seq<Clause>, refs: seq<CRef>, ps: seq<Lit>, b: Asg, cb: seq<Clause>)
    requires Reworked(ca, cb) && GrownBy(a, b, ps)
    ensures Stored(a, ca, refs, ps, b, cb, refs)
  {
  }

  lemma UnitClause(a: Asg, p: Lit)
    requires p.v < |a.assigns|
    ensures !IsSet(a, p.v) ==> NormalForm(a, [p], [p])
    ensures IsFalse(a, p) ==> NormalForm(a, [p], [])
    ensures IsTrue(a, p) ==> [p][0] == p
  {
  }

  /** Clause r is live and its first literal is on variable v. */
  ghost predicate LiveHead(ca: seq<Clause>, r: int, v: int) {
    0 <= r < |ca| && !ca[r].deleted && |ca[r].lits| > 0 && ca[r].lits[0].v == v
  }

  /** Newly assigned variables head a live clause or occur in ps. */
  ghost predicate Explained(a: Asg, b: Asg, ca: seq<Clause>, ps: seq<Lit>) {
    forall v :: IsSet(b, v) && !IsSet(a, v) ==> (exists r :: LiveHead(ca, r, v)) || exists q :: q in ps && q.v == v
  }

  lemma GrownExplained(a: Asg, b: Asg, ca: seq<Clause>, ps: seq<Lit>)
    requires TrailInv(b) && ReasonInv(b, ca) && GrownBy(a, b, ps)
    ensures Explained(a, b, ca, ps)
  {
    forall v | IsSet(b, v) && !IsSet(a, v) && b.reason[v].Some? ensures LiveHead(ca, b.reason[v].value, v) {
      assert ReasonOk(b, ca, b.reason[v].value, b.trail[b.pos[v]]);
    }
  }

  lemma ExtendsGrown(a: Asg, b: Asg)
    requires Extends(a, b)
    ensures GrownBy(a, b, [])
  {
  }

  // ---------- new variables ----------

  /** One more variable, unassigned. */
  ghost function WithVar(a: Asg): Asg {
    a.(assigns := a.assigns + [LUndef], level := a.level + [0], reason := a.reason + [None], pos := a.pos + [0])
  }

  function GrownWatches(w: Watches, v: Var): Watches {
    w[Lit(v, false) := []][Lit(v, true) := []]
  }

  lemma GrowKeepsTrail(a: Asg)
    requires TrailInv(a)
    ensures TrailInv(WithVar(a))
    ensures forall v: int :: IsSet(WithVar(a), v) <==> IsSet(a, v)
    ensures forall q: Lit :: IsTrue(WithVar(a), q) <==> IsTrue(a, q)
  {
    var b := WithVar(a);
    forall v: int ensures IsSet(b, v) <==> IsSet(a, v) {
    }
    forall v | IsSet(b, v) ensures LevelOk(b, v) {
      assert LevelOk(a, v);
    }
  }

  lemma GrowKeepsReasons(a: Asg, ca: seq<Clause>, assumptions: seq<Lit>)
    requires TrailInv(a) && ReasonInv(a, ca) && DecisionInv(a, assumptions)
    ensures TrailInv(WithVar(a)) && ReasonInv(WithVar(a), ca) && DecisionInv(WithVar(a), assumptions)
  {
    GrowKeepsTrail(a);
    var b := WithVar(a);
    forall v | IsSet(b, v) && b.reason[v].Some? ensures ReasonOk(b, ca, b.reason[v].value, b.trail[b.pos[v]]) {
      assert ReasonOk(a, ca, a.reason[v].value, a.trail[a.pos[v]]);
    }
  }

  lemma GrowKeepsShape(n: nat, ca: seq<Clause>, w: Watches, dirty: set<Lit>, dirties: seq<Lit>)
    requires ClausesOk(n, ca) && WatchShape(n, ca, w) && DirtyOk(ca, w, dirty, dirties)
    ensures ClausesOk(n + 1, ca) && WatchShape(n + 1, ca, GrownWatches(w, n)) && DirtyOk(ca, GrownWatches(w, n), dirty, dirties)
  {
    var w' := GrownWatches(w, n);
    assert forall p: Lit :: p in w ==> p.v < n && w'[p] == w[p];
    forall p: Lit | p.v < n + 1 ensures p in w' && ListOk(ca, p, w'[p]) {
      if p.v == n {
        assert p == Lit(n, false) || p == Lit(n, true);
      }
    }
    forall r | 0 <= r < |ca| ensures ClauseOk(n + 1, ca[r]) {
      assert ClauseOk(n, ca[r]);
    }
    forall p: Lit, r: int | AttachedIn(w, p, r) ensures AttachedIn(w', p, r) {
    }
  }

  lemma GrowKeepsSem(a: Asg, ca: seq<Clause>, w: Watches, bound: int)
    requires SameSize(a) && ClausesOk(|a.assigns|, ca) && ListsOk(|a.assigns|, ca, w) && WatchSem(a, ca, w, bound)
    ensures WatchSem(WithVar(a), ca, GrownWatches(w, |a.assigns|), bound)
  {
  }

  lemma GrowKeepsBase(orig: seq<seq<Lit>>, assumptions: seq<Lit>, a: Asg, ca: seq<Clause>, w: Watches,
                      dirty: set<Lit>, dirties: seq<Lit>, bound: int)
    requires Base(orig, assumptions, a, ca, w, dirty, dirties) && WatchSem(a, ca, w, bound)
    ensures Base(orig, assumptions, WithVar(a), ca, GrownWatches(w, |a.assigns|), dirty, dirties)
    ensures WatchSem(WithVar(a), ca, GrownWatches(w, |a.assigns|), bound)
  {
    hide TrailInv, ReasonInv, DecisionInv, Sound, ClausesOk, DirtyOk, WatchSem, ListsOk, Attached;
    GrowKeepsReasons(a, ca, assumptions);
    GrowKeepsShape(|a.assigns|, ca, w, dirty, dirties);
    BaseTrail(orig, assumptions, a, ca, w, dirty, dirties);
    GrowKeepsSem(a, ca, w, bound);
    SameTopSameMeaning(orig, ca, a, WithVar(a));
  }

  lemma GrowKeepsBooks(a: Asg, decision: seq<bool>, heap: set<Var>, seen: seq<bool>, decide: bool)
    requires SameSize(a) && HeapInv(a, decision, heap) && NoMarks(a, seen)
    ensures HeapInv(WithVar(a), decision + [decide], heap + if decide then {|a.assigns|} else {})
    ensures NoMarks(WithVar(a), seen + [false]) && |seen| == |decision| == |a.assigns|
  {
  }

  /** With no clause and no variable everything holds. */
  lemma EmptyBase()
    ensures Base([], [], Asg([], [], [], [], [], [], {}, false), [], map[], {}, [])
    ensures WatchSem(Asg([], [], [], [], [], [], {}, false), [], map[], 0)
  {
  }
}
