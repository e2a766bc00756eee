/** Testing whether a clause follows: its negation is assumed on a level of its own, propagated, and taken back. */
module Probing {
  import opened Literals
  import opened Assignment
  import opened Watching
  import Meaning
  import opened Invariant
  import opened Steps

  /** What is assumed above level 0 is the negation of a literal of the clause. */
  ghost predicate ProbeInv(a: Asg, c: seq<Lit>)
    requires TrailInv(a)
  {
    forall v :: IsSet(a, v) && a.level[v] > 0 && a.reason[v].None? ==> Neg(a.trail[a.pos[v]]) in c
  }

  /** The literals assigned before are as they were, below everything assumed. */
  ghost predicate Above(a: Asg, b: Asg) {
    && SameSize(a) && |b.assigns| == |a.assigns| && b.lim == [|a.trail|] && a.trail <= b.trail
    && a.loose == b.loose
    && (forall v :: IsSet(a, v) ==> IsSet(b, v) && b.assigns[v] == a.assigns[v])
  }

  ghost function Probed(a: Asg): Asg {
    OpenLevel(a).(probing := true)
  }

  lemma FlagKeepsDb(orig: seq<seq<Lit>>, assumptions: seq<Lit>, a: Asg, ca: seq<Clause>, b: Asg)
    requires DbInv(orig, assumptions, a, ca) && b == a.(probing := b.probing) && (b.probing || a.lim == [])
    ensures DbInv(orig, assumptions, b, ca)
  {
    assert forall v: int :: IsSet(b, v) <==> IsSet(a, v);
    assert forall q: Lit :: IsTrue(b, q) <==> IsTrue(a, q);
    forall v | IsSet(b, v) ensures LevelOk(b, v) {
      assert LevelOk(a, v);
    }
    forall v | IsSet(b, v) && b.reason[v].Some? ensures ReasonOk(b, ca, b.reason[v].value, b.trail[b.pos[v]]) {
      assert ReasonOk(a, ca, a.reason[v].value, a.trail[a.pos[v]]);
    }
    Meaning.SameTopSameMeaning(orig, ca, a, b);
  }

  lemma FlagKeepsSem(a: Asg, ca: seq<Clause>, w: Watches, bound: int, b: Asg)
    requires WatchSem(a, ca, w, bound) && b == a.(probing := b.probing)
    ensures WatchSem(b, ca, w, bound)
  {
  }

  lemma StartProbe(orig: seq<seq<Lit>>, assumptions: seq<Lit>, a: Asg, ca: seq<Clause>, w: Watches,
                   dirty: set<Lit>, dirties: seq<Lit>, c: seq<Lit>)
    requires Base(orig, assumptions, a, ca, w, dirty, dirties) && WatchSem(a, ca, w, |a.trail|) && a.lim == []
    ensures Base(orig, assumptions, Probed(a), ca, w, dirty, dirties) && WatchSem(Probed(a), ca, w, |a.trail|)
    ensures TrailInv(Probed(a)) && ProbeInv(Probed(a), c) && Above(a, Probed(a)) && LevelStart(Probed(a)) == |a.trail|
  {
    OpenLevelKeepsBase(orig, assumptions, a, ca, w, dirty, dirties, |a.trail|);
    FlagKeepsDb(orig, assumptions, OpenLevel(a), ca, Probed(a));
    FlagKeepsSem(OpenLevel(a), ca, w, |a.trail|, Probed(a));
    forall v | IsSet(a, v) ensures a.level[v] == 0 {
      assert LevelOk(a, v);
    }
  }

  lemma ProbeOne(orig: seq<seq<Lit>>, assumptions: seq<Lit>, a: Asg, ca: seq<Clause>, w: Watches,
                 dirty: set<Lit>, dirties: seq<Lit>, bound: int, c: seq<Lit>, p: Lit, a0: Asg)
    requires Base(orig, assumptions, a, ca, w, dirty, dirties) && WatchSem(a, ca, w, bound) && bound <= |a.trail|
    requires a.probing && TrailInv(a) && ProbeInv(a, c) && Above(a0, a) && p.v < |a.assigns| && !IsSet(a, p.v) && Neg(p) in c
    ensures var b := Enqueue(a, p, None);
            && Base(orig, assumptions, b, ca, w, dirty, dirties) && WatchSem(b, ca, w, bound)
            && TrailInv(b) && ProbeInv(b, c) && Above(a0, b)
  {
    hide WatchShape, DirtyOk, WatchSem, ReasonInv, Meaning.Sound;
    EnqueueKeepsTrail(a, p, None);
    EnqueueKeepsReasons(a, ca, p, None);
    EnqueueKeepsDecisions(a, assumptions, p, None);
    Meaning.EnqueueKeepsMeaning(orig, ca, a, p, None);
    EnqueueKeepsWatches(a, ca, w, bound, p, None);
  }

  lemma ProbePropagated(a: Asg, b: Asg, c: seq<Lit>, a0: Asg)
    requires TrailInv(a) && TrailInv(b) && Extends(a, b) && ProbeInv(a, c) && Above(a0, a)
    ensures ProbeInv(b, c) && Above(a0, b)
  {
    forall v | IsSet(a, v) ensures IsSet(b, v) && b.assigns[v] == a.assigns[v] && b.level[v] == a.level[v] && b.pos[v] == a.pos[v] {
      var q := Lit(v, a.assigns[v] == LFalse);
      assert IsTrue(a, q) && IsTrue(b, q);
    }
  }

  /** A model of the facts in which the clause is false makes everything on the trail true, by induction on the trail. */
  lemma {:induction false} TrailHolds(ca: seq<Clause>, a: Asg, c: seq<Lit>, m: Model, i: nat)
    requires TrailInv(a) && ReasonInv(a, ca) && ProbeInv(a, c) && Meaning.Facts(m, ca, a) && !Sat(m, c) && i < |a.trail|
    ensures Holds(m, a.trail[i])
    decreases i
  {
    var p := a.trail[i];
    assert IsTrue(a, p) && IsSet(a, p.v);
    LevelZero(a, p.v);
    if a.level[p.v] > 0 {
      if a.reason[p.v].None? {
        assert Neg(p) in c;
      } else {
        var r := a.reason[p.v].value;
        assert ReasonOk(a, ca, r, p) && Sat(m, ca[r].lits);
        var q :| q in ca[r].lits && Holds(m, q);
        if q != p {
          FalseOnTrail(a, q);
          TrailHolds(ca, a, c, m, a.pos[q.v]);
          assert false;
        }
      }
    }
  }

  /** If assuming the negation of the clause leads to a conflict, the clause follows. */
  lemma ConflictForces(orig: seq<seq<Lit>>, assumptions: seq<Lit>, ca: seq<Clause>, a: Asg, c: seq<Lit>, r: CRef)
    requires DbInv(orig, assumptions, a, ca) && ProbeInv(a, c) && Conflicting(a, ca, r)
    ensures Entails(orig, c)
  {
    forall m: Model | SatAll(m, orig) ensures Sat(m, c) {
      assert Meaning.Facts(m, ca, a) && Sat(m, ca[r].lits);
      var q :| q in ca[r].lits && Holds(m, q);
      FalseOnTrail(a, q);
      if !Sat(m, c) {
        TrailHolds(ca, a, c, m, a.pos[q.v]);
        assert false;
      }
    }
  }

  /** Taking the level back restores the assignment. */
  lemma ProbeUndone(a0: Asg, a: Asg, b: Asg)
    requires TrailInv(a0) && TrailInv(a) && Above(a0, a) && a0.lim == [] && Cancelled(a, b, 0)
    ensures b.assigns == a0.assigns && b.trail == a0.trail && b.lim == [] && b.loose == a0.loose
  {
    forall v | 0 <= v < |a0.assigns| ensures b.assigns[v] == a0.assigns[v] {
      if IsSet(a0, v) {
        assert a0.trail[a0.pos[v]].v == v;
        assert a.trail[a0.pos[v]] == a0.trail[a0.pos[v]];
        assert IsTrue(a, a.trail[a0.pos[v]]);
      }
    }
  }

  lemma ProbedBooks(a: Asg, decision: seq<bool>, heap: set<Var>, seen: seq<bool>)
    requires HeapInv(a, decision, heap) && NoMarks(a, seen)
    ensures HeapInv(Probed(a), decision, heap) && NoMarks(Probed(a), seen)
  {
  }

  /** Back at level 0 the exception for probing is no longer needed. */
  lemma EndProbe(orig: seq<seq<Lit>>, assumptions: seq<Lit>, a: Asg, ca: seq<Clause>, w: Watches, dirty: set<Lit>, dirties: seq<Lit>,
                 decision: seq<bool>, heap: set<Var>, seen: seq<bool>, b: Asg)
    requires Base(orig, assumptions, a, ca, w, dirty, dirties) && WatchSem(a, ca, w, |a.trail|) && a.lim == []
    requires HeapInv(a, decision, heap) && NoMarks(a, seen) && b == a.(probing := false)
    ensures Base(orig, assumptions, b, ca, w, dirty, dirties) && WatchSem(b, ca, w, |b.trail|) && LevelStart(b) == 0
    ensures HeapInv(b, decision, heap) && NoMarks(b, seen)
  {
    FlagKeepsDb(orig, assumptions, a, ca, b);
    FlagKeepsSem(a, ca, w, |a.trail|, b);
  }

  // ---------- when the test fails ----------

  /** A literal of the clause is true already, or the clause holds a literal and its negation. */
  ghost predicate Trivial(a: Asg, c: seq<Lit>) {
    exists k :: 0 <= k < |c| && (IsTrue(a, c[k]) || Neg(c[k]) in c)
  }

  /** The first i literals of the clause are false, and nothing but their negations has become true. */
  ghost predicate Assumed(a0: Asg, a: Asg, c: seq<Lit>, i: nat) {
    && (forall k :: 0 <= k < i && k < |c| ==> IsFalse(a, c[k]))
    && (forall q: Lit :: IsTrue(a, q) ==> IsTrue(a0, q) || Neg(q) in c)
    && (forall q: Lit :: IsTrue(a0, q) ==> IsTrue(a, q))
  }

  lemma AssumedNone(a0: Asg, c: seq<Lit>)
    requires SameSize(a0)
    ensures Assumed(a0, Probed(a0), c, 0)
  {
    assert forall q: Lit :: IsTrue(Probed(a0), q) <==> IsTrue(a0, q);
  }

  lemma AssumedMore(a0: Asg, a: Asg, c: seq<Lit>, i: nat)
    requires Assumed(a0, a, c, i) && SameSize(a) && i < |c| && c[i].v < |a.assigns| && !IsSet(a, c[i].v)
    ensures Assumed(a0, Enqueue(a, Neg(c[i]), None), c, i + 1)
  {
    var p := Neg(c[i]);
    var b := Enqueue(a, p, None);
    assert Neg(p) == c[i];
    forall q: Lit | IsTrue(b, q) ensures IsTrue(a, q) || q == p {
    }
    forall q: Lit | IsTrue(a, q) ensures IsTrue(b, q) {
    }
    forall k | 0 <= k < i + 1 ensures IsFalse(b, c[k]) {
      assert k < i ==> IsFalse(a, c[k]);
    }
  }

  lemma AssumedTrue(a0: Asg, a: Asg, c: seq<Lit>, i: nat)
    requires Assumed(a0, a, c, i) && i < |c| && IsTrue(a, c[i])
    ensures Trivial(a0, c)
  {
  }

  lemma AssumedFalse(a0: Asg, a: Asg, c: seq<Lit>, i: nat)
    requires Assumed(a0, a, c, i) && i < |c| && IsFalse(a, c[i])
    ensures Assumed(a0, a, c, i + 1)
  {
  }

  lemma AssumedAll(a0: Asg, a: Asg, c: seq<Lit>)
    requires Assumed(a0, a, c, |c|)
    ensures !Trivial(a0, c)
  {
    assert forall q :: q in c ==> IsFalse(a, q);
  }

  /** No clause is false or has only one literal left. */
  ghost predicate Quiet(a: Asg, ca: seq<Clause>) {
    forall r: CRef :: r < |ca| && !ca[r].deleted ==>
      (exists q :: q in ca[r].lits && IsTrue(a, q)) || (|ca[r].lits| >= 2 && !IsFalse(a, ca[r].lits[0]) && !IsFalse(a, ca[r].lits[1]))
  }

  /** Propagation comes to rest with the clause false, and everything assigned was so before, assumed, or propagated. */
  ghost predicate Resting(a0: Asg, ca: seq<Clause>, c: seq<Lit>, a: Asg) {
    && TrailInv(a) && ReasonInv(a, ca) && ProbeInv(a, c) && Above(a0, a) && Quiet(a, ca)
    && forall k :: 0 <= k < |c| ==> IsFalse(a, c[k])
  }

  /** Neither trivial nor refuted by propagation. */
  ghost predicate Unsettled(a0: Asg, ca: seq<Clause>, c: seq<Lit>) {
    exists a :: Resting(a0, ca, c, a)
  }

  lemma ComesToRest(orig: seq<seq<Lit>>, assumptions: seq<Lit>, a0: Asg, a: Asg, b: Asg, ca: seq<Clause>, w: Watches,
                    dirty: set<Lit>, dirties: seq<Lit>, c: seq<Lit>)
    requires Base(orig, assumptions, b, ca, w, dirty, dirties) && WatchSem(b, ca, w, |b.trail|) && b.loose == {}
    requires TrailInv(b) && ProbeInv(b, c) && Above(a0, b) && Extends(a, b) && Assumed(a0, a, c, |c|)
    ensures Unsettled(a0, ca, c)
  {
    forall r: CRef | r < |ca| && !ca[r].deleted
      ensures (exists q :: q in ca[r].lits && IsTrue(b, q)) || (|ca[r].lits| >= 2 && !IsFalse(b, ca[r].lits[0]) && !IsFalse(b, ca[r].lits[1]))
    {
      QuietClause(b, |b.assigns|, ca, w, r);
    }
    forall k | 0 <= k < |c| ensures IsFalse(b, c[k]) {
      assert IsFalse(a, c[k]);
      assert IsTrue(a, Neg(c[k]));
    }
    assert Resting(a0, ca, c, b);
  }
}
