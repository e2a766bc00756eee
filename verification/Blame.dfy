/** Which assumptions a final conflict names: exactly the decisions that led to it. */
module Blame {
  import opened Literals
  import opened Assignment
  import opened ConflictAnalysis
  import opened Implication
  import opened Invariant
  import opened Steps

  /** The negation of q is a decision, and it led to p. */
  ghost predicate Blamed(a: Asg, ca: seq<Clause>, p: Lit, q: Lit) {
    && IsTrue(a, Neg(q)) && q.v < |a.level| && a.level[q.v] > 0 && q.v < |a.reason| && a.reason[q.v] == None
    && Reaches(Implications(a, ca), p.v, q.v)
  }

  /** The clause holds p, and behind it the negations of the decisions that led to p, each once. */
  ghost predicate BlamesExactly(a: Asg, ca: seq<Clause>, p: Lit, out: seq<Lit>) {
    && out != [] && out[0] == p && NoDup(out)
    && (forall q :: q in out[1..] <==> Blamed(a, ca, p, q))
  }

  /** The marks that are left stand for what led to p. */
  ghost predicate MarksLead(a: Asg, ca: seq<Clause>, seen: seq<bool>, p: Lit, i: int)
    requires SameSize(a)
  {
    |seen| == |a.assigns| && forall v :: 0 <= v < |seen| && seen[v] ==>
      IsSet(a, v) && Reaches(Implications(a, ca), p.v, v) && (if v == p.v && a.level[v] == 0 then true else a.level[v] > 0 && a.pos[v] <= i)
  }

  /** What has been gone through led to p, and what led to it in turn has been gone through or is marked. */
  ghost predicate DoneLead(a: Asg, ca: seq<Clause>, seen: seq<bool>, p: Lit, i: int, done: set<Var>)
    requires SameSize(a)
  {
    && p.v < |seen| && (p.v in done || seen[p.v])
    && forall v :: v in done ==> IsSet(a, v) && a.level[v] > 0 && a.pos[v] > i && Reaches(Implications(a, ca), p.v, v)
                                 && forall w :: w in ReasonVars(a, ca, v) ==> w in done || (w < |seen| && seen[w])
  }

  /** The decisions among what has been gone through, the latest first. */
  ghost predicate OutDone(a: Asg, out: seq<Lit>, p: Lit, done: set<Var>)
    requires SameSize(a)
  {
    && out != [] && out[0] == p && (forall v :: v in done ==> v < |a.assigns|)
    && (forall k :: 1 <= k < |out| ==> out[k].v in done && IsTrue(a, Neg(out[k])) && a.reason[out[k].v] == None)
    && (forall v :: v in done && a.reason[v] == None ==> exists k :: 1 <= k < |out| && out[k].v == v)
    && (forall h, k :: 1 <= h < k < |out| ==> a.pos[out[h].v] > a.pos[out[k].v])
  }

  ghost predicate Walked(a: Asg, ca: seq<Clause>, seen: seq<bool>, out: seq<Lit>, p: Lit, i: int, done: set<Var>)
    requires TrailInv(a)
  {
    MarksLead(a, ca, seen, p, i) && DoneLead(a, ca, seen, p, i, done) && OutDone(a, out, p, done)
  }

  lemma StartWalk(a: Asg, ca: seq<Clause>, seen: seq<bool>, p: Lit)
    requires TrailInv(a) && NoMarks(a, seen) && IsTrue(a, p)
    ensures Walked(a, ca, seen[p.v := true], [p], p, |a.trail| - 1, {})
  {
    ReachesSelf(Implications(a, ca), p.v);
    TrueOnTrail(a, p);
  }

  /** A position without a mark is passed over. */
  lemma WalkPast(a: Asg, ca: seq<Clause>, seen: seq<bool>, out: seq<Lit>, p: Lit, i: nat, done: set<Var>)
    requires TrailInv(a) && i < |a.trail| && Walked(a, ca, seen, out, p, i, done) && !Marked(a, seen, i)
    ensures Walked(a, ca, seen, out, p, i - 1, done)
  {
    forall v | 0 <= v < |seen| && seen[v] && !(v == p.v && a.level[v] == 0) ensures a.pos[v] <= i - 1 {
      assert a.trail[a.pos[v]].v == v;
    }
  }

  /** Going through the reason marks exactly what led to the variable. */
  lemma MarkedExactly(a: Asg, ca: seq<Clause>, seen: seq<bool>, seen1: seq<bool>, v: Var)
    requires HasReason(a, ca, v) && |seen| == |a.level| && MarkedReason(a, seen, seen1, ca[a.reason[v].value].lits)
    ensures |seen1| == |seen| && forall w :: 0 <= w < |seen| ==> (seen1[w] <==> seen[w] || w in ReasonVars(a, ca, v))
  {
  }

  lemma NoReasonVars(a: Asg, ca: seq<Clause>, v: Var)
    requires v < |a.reason| && a.reason[v] == None
    ensures ReasonVars(a, ca, v) == {}
  {
  }

  lemma WalkMarks(a: Asg, ca: seq<Clause>, seen: seq<bool>, seen1: seq<bool>, p: Lit, i: nat)
    requires TrailInv(a) && ReasonInv(a, ca) && i < |a.trail| && MarksLead(a, ca, seen, p, i) && Marked(a, seen, i) && |seen1| == |seen|
    requires forall w :: 0 <= w < |seen| ==> (seen1[w] <==> seen[w] || w in ReasonVars(a, ca, a.trail[i].v))
    ensures MarksLead(a, ca, seen1[a.trail[i].v := false], p, i - 1)
  {
    var x := a.trail[i].v;
    assert IsTrue(a, a.trail[i]) && IsSet(a, x);
    var seen' := seen1[x := false];
    forall v | 0 <= v < |seen'| && seen'[v]
      ensures IsSet(a, v) && Reaches(Implications(a, ca), p.v, v)
      ensures !(v == p.v && a.level[v] == 0) ==> a.level[v] > 0 && a.pos[v] <= i - 1
    {
      assert v != x;
      if seen[v] {
        assert a.trail[a.pos[v]].v == v;
      } else {
        ReasonBefore(a, ca, x, v);
        ReachesStep(Implications(a, ca), p.v, x, v);
      }
    }
  }

  lemma WalkDone(a: Asg, ca: seq<Clause>, seen: seq<bool>, seen1: seq<bool>, p: Lit, i: nat, done: set<Var>)
    requires TrailInv(a) && i < |a.trail| && MarksLead(a, ca, seen, p, i) && DoneLead(a, ca, seen, p, i, done) && Marked(a, seen, i)
    requires |seen1| == |seen| && a.level[a.trail[i].v] > 0 && ReasonInv(a, ca)
    requires forall w :: 0 <= w < |seen| ==> (seen1[w] <==> seen[w] || w in ReasonVars(a, ca, a.trail[i].v))
    ensures DoneLead(a, ca, seen1[a.trail[i].v := false], p, i - 1, done + {a.trail[i].v})
  {
    hide Reaches, ReasonVars, ReasonInv;
    var x := a.trail[i].v;
    assert IsTrue(a, a.trail[i]) && IsSet(a, x) && a.pos[x] == i;
    var seen', done' := seen1[x := false], done + {x};
    forall v, w | v in done' && w in ReasonVars(a, ca, v) ensures w in done' || (w < |seen'| && seen'[w]) {
      if v == x {
        ReasonBefore(a, ca, x, w);
      }
    }
  }

  lemma WalkOut(a: Asg, out: seq<Lit>, p: Lit, i: nat, done: set<Var>)
    requires TrailInv(a) && i < |a.trail| && OutDone(a, out, p, done) && forall v :: v in done ==> a.pos[v] > i
    ensures var t := a.trail[i]; t.v < |a.reason| && OutDone(a, if a.reason[t.v] == None then out + [Neg(t)] else out, p, done + {t.v})
  {
    var t := a.trail[i];
    assert IsTrue(a, t) && a.pos[t.v] == i;
    if a.reason[t.v] == None {
      var out', done' := out + [Neg(t)], done + {t.v};
      assert Neg(Neg(t)) == t;
      forall v | v in done' && a.reason[v] == None ensures exists k :: 1 <= k < |out'| && out'[k].v == v {
        if v != t.v {
          var k :| 1 <= k < |out| && out[k].v == v;
          assert out'[k].v == v;
        } else {
          assert out'[|out|].v == v;
        }
      }
    }
  }

  /** A marked position is gone through. */
  lemma WalkOn(a: Asg, ca: seq<Clause>, seen: seq<bool>, seen1: seq<bool>, out: seq<Lit>, p: Lit, i: nat, done: set<Var>)
    requires TrailInv(a) && ReasonInv(a, ca) && Top(a) <= i < |a.trail| && Walked(a, ca, seen, out, p, i, done) && Marked(a, seen, i)
    requires |seen1| == |seen| && forall w :: 0 <= w < |seen| ==> (seen1[w] <==> seen[w] || w in ReasonVars(a, ca, a.trail[i].v))
    ensures var t := a.trail[i];
            t.v < |a.reason| && Walked(a, ca, seen1[t.v := false], if a.reason[t.v] == None then out + [Neg(t)] else out, p, i - 1, done + {t.v})
  {
    hide OutDone, MarksLead;
    assert IsTrue(a, a.trail[i]) && IsSet(a, a.trail[i].v);
    LevelZero(a, a.trail[i].v);
    WalkMarks(a, ca, seen, seen1, p, i);
    WalkDone(a, ca, seen, seen1, p, i, done);
    WalkOut(a, out, p, i, done);
  }

  lemma WalkCloses(a: Asg, ca: seq<Clause>, seen: seq<bool>, out: seq<Lit>, p: Lit, done: set<Var>)
    requires TrailInv(a) && ReasonInv(a, ca) && a.lim != [] && IsTrue(a, p) && Walked(a, ca, seen, out, p, Top(a) - 1, done)
    ensures ClosedUnder(Implications(a, ca), done + {p.v})
  {
    hide Reaches, ReasonVars, ReasonInv, OutDone;
    var all := done + {p.v};
    forall v, w | v in all && w in ReasonVars(a, ca, v) ensures w in all {
      if v in done {
        if w !in done {
          assert seen[w];
          LevelZero(a, w);
        }
      } else {
        LevelZero(a, v);
        ReasonBefore(a, ca, v, w);
      }
    }
  }

  /** At the end everything that led to p has been gone through. */
  lemma WalkEnds(a: Asg, ca: seq<Clause>, seen: seq<bool>, out: seq<Lit>, p: Lit, done: set<Var>)
    requires TrailInv(a) && ReasonInv(a, ca) && a.lim != [] && IsTrue(a, p) && Walked(a, ca, seen, out, p, Top(a) - 1, done)
    ensures BlamesExactly(a, ca, p, out)
  {
    hide ReasonVars, ReasonInv;
    var g, all := Implications(a, ca), done + {p.v};
    WalkCloses(a, ca, seen, out, p, done);
    forall q | Blamed(a, ca, p, q) ensures q in out[1..] {
      ReachesInside(g, all, p.v, q.v);
      LevelZero(a, p.v);
      var k :| 1 <= k < |out| && out[k].v == q.v;
      assert out[1..][k - 1] == q;
    }
    forall q | q in out[1..] ensures Blamed(a, ca, p, q) {
      var k :| 0 <= k < |out[1..]| && out[1..][k] == q;
      assert out[k + 1] == q;
    }
    WalkDistinct(a, out, p, done);
  }

  lemma WalkDistinct(a: Asg, out: seq<Lit>, p: Lit, done: set<Var>)
    requires SameSize(a) && OutDone(a, out, p, done) && IsTrue(a, p)
    ensures NoDup(out)
  {
    forall h, k | 0 <= h < k < |out| ensures out[h] != out[k] {
      if h > 0 {
        assert a.pos[out[h].v] > a.pos[out[k].v];
      }
    }
  }

  lemma BlamesAtTop(a: Asg, ca: seq<Clause>, p: Lit)
    requires TrailInv(a) && a.lim == []
    ensures BlamesExactly(a, ca, p, [p])
  {
    forall q ensures !Blamed(a, ca, p, q) {
      if IsSet(a, q.v) {
        assert LevelOk(a, q.v);
      }
    }
  }

  // ---------- the final conflict of a search ----------

  /** A state in which the next assumption is false, and the clause that names the assumptions to blame for it. */
  ghost predicate FinalState(orig: seq<seq<Lit>>, assumptions: seq<Lit>, a: Asg, ca: seq<Clause>, conflict: seq<Lit>) {
    && DbInv(orig, assumptions, a, ca) && |a.lim| < |assumptions| && IsFalse(a, assumptions[|a.lim|])
    && BlamesExactly(a, ca, Neg(assumptions[|a.lim|]), conflict)
  }

  ghost predicate Accounted(orig: seq<seq<Lit>>, assumptions: seq<Lit>, conflict: seq<Lit>) {
    exists a: Asg, ca: seq<Clause> :: FinalState(orig, assumptions, a, ca, conflict)
  }
}
