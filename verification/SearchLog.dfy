/** The conflicts of one search: what each of them taught, and why there are only so many. */
module SearchLog {
  import opened Literals
  import opened Assignment
  import opened Invariant
  import opened Progress
  import opened Minimising

  /** A state in which a clause was wholly false, and, above level 0, what was learnt from it and the state after that. */
  datatype Hit = Hit(a: Asg, ca: seq<Clause>, r: CRef, learnt: seq<Lit>, level: nat, b: Asg, ca': seq<Clause>)

  ghost predicate HitOk(orig: seq<seq<Lit>>, assumptions: seq<Lit>, n: nat, mode: nat, h: Hit) {
    && DbInv(orig, assumptions, h.a, h.ca) && |h.a.assigns| == n && Conflicting(h.a, h.ca, h.r)
    && (h.a.lim != [] ==> Taught(h.a, h.ca, h.r, mode, h.learnt, h.level, h.b, h.ca'))
  }

  /** No decision is made any more once the limit has been reached; a negative limit means none. */
  ghost predicate Reached(limit: int, conflicts: nat) {
    0 <= limit <= conflicts
  }

  /** The conflicts of one search, in order: the rank grows, and beyond the limit the decision level falls. */
  ghost predicate LogOk(orig: seq<seq<Lit>>, assumptions: seq<Lit>, n: nat, mode: nat, log: seq<Hit>, limit: int) {
    && (forall i :: 0 <= i < |log| ==> HitOk(orig, assumptions, n, mode, log[i]))
    && (forall i :: 0 < i < |log| ==> Rank(log[i - 1].a, |assumptions|) < Rank(log[i].a, |assumptions|))
    && (forall i :: 0 < i < |log| && Reached(limit, i) ==> |log[i].a.lim| < |log[i - 1].a.lim|)
    && (log != [] && Reached(limit, 0) ==> log[0].a.lim == [])
  }

  /** Where the search stands after these conflicts. */
  ghost predicate LogUpTo(log: seq<Hit>, limit: int, rank: nat, level: nat, k: nat) {
    && (log != [] ==> Rank(log[|log| - 1].a, k) < rank)
    && (Reached(limit, |log|) ==> if log == [] then level == 0 else level < |log[|log| - 1].a.lim|)
  }

  lemma LogMore(orig: seq<seq<Lit>>, assumptions: seq<Lit>, n: nat, mode: nat, log: seq<Hit>, limit: int, rank: nat, level: nat, h: Hit)
    requires LogOk(orig, assumptions, n, mode, log, limit) && LogUpTo(log, limit, rank, level, |assumptions|)
    requires HitOk(orig, assumptions, n, mode, h) && rank <= Rank(h.a, |assumptions|) && |h.a.lim| == level
    ensures LogOk(orig, assumptions, n, mode, log + [h], limit)
  {
    hide HitOk, Rank;
  }

  /** One round of the search, with or without a conflict. */
  lemma LogRound(orig: seq<seq<Lit>>, assumptions: seq<Lit>, n: nat, mode: nat, log: seq<Hit>, limit: int, rank: nat, level: nat,
                 hit: Option<Hit>, rank': nat, level': nat)
    requires LogOk(orig, assumptions, n, mode, log, limit) && LogUpTo(log, limit, rank, level, |assumptions|)
    requires hit.Some? ==> HitOk(orig, assumptions, n, mode, hit.value) && |hit.value.a.lim| == level && rank <= Rank(hit.value.a, |assumptions|)
    ensures var log' := log + if hit.Some? then [hit.value] else [];
            && LogOk(orig, assumptions, n, mode, log', limit)
            && ((if hit.Some? then Rank(hit.value.a, |assumptions|) < rank' && level' < level else rank < rank' && !Reached(limit, |log|)) ==>
                  LogUpTo(log', limit, rank', level', |assumptions|))
  {
    hide HitOk, Rank;
    if hit.Some? {
      LogMore(orig, assumptions, n, mode, log, limit, rank, level, hit.value);
    } else {
      assert log + [] == log;
    }
  }

  lemma {:induction false} LogRank(orig: seq<seq<Lit>>, assumptions: seq<Lit>, n: nat, mode: nat, log: seq<Hit>, limit: int, i: nat)
    requires LogOk(orig, assumptions, n, mode, log, limit) && i < |log|
    ensures Rank(log[i].a, |assumptions|) >= i
  {
    hide HitOk, Rank;
    if i > 0 {
      LogRank(orig, assumptions, n, mode, log, limit, i - 1);
    }
  }

  /** One search has fewer conflicts than there are ranks. */
  lemma LogBound(orig: seq<seq<Lit>>, assumptions: seq<Lit>, n: nat, mode: nat, log: seq<Hit>, limit: int)
    requires LogOk(orig, assumptions, n, mode, log, limit)
    ensures |log| <= RankBound(n, |assumptions|)
  {
    hide Rank, RankBound, Taught, Conflicting;
    if log != [] {
      var h := log[|log| - 1];
      assert HitOk(orig, assumptions, n, mode, h);
      LogRank(orig, assumptions, n, mode, log, limit, |log| - 1);
      RankBelow(h.a, |assumptions|);
    }
  }

  /** Counting what comes after the last conflict, one more rank is used up. */
  lemma LogBelow(orig: seq<seq<Lit>>, assumptions: seq<Lit>, a: Asg, mode: nat, log: seq<Hit>, limit: int, level: nat)
    requires TrailInv(a) && LogOk(orig, assumptions, |a.assigns|, mode, log, limit) && LogUpTo(log, limit, Rank(a, |assumptions|), level, |assumptions|)
    ensures |log| < RankBound(|a.assigns|, |assumptions|)
  {
    hide HitOk, Rank, RankBound, TrailInv;
    RankBelow(a, |assumptions|);
    if log != [] {
      LogRank(orig, assumptions, |a.assigns|, mode, log, limit, |log| - 1);
    }
  }
}
