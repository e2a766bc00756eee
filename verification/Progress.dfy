/** Why a search ends: every conflict and every decision makes the trail larger in a lexicographic order of its levels. */
module Progress {
  import opened Literals
  import opened Assignment
  import opened Invariant

  ghost function Power(b: nat, k: nat): nat {
    if k == 0 then 1 else Power(b, k - 1) * b
  }

  /** Where level i ends on the trail; nothing yet for levels that have not been opened. */
  ghost function LevelEnd(a: Asg, i: nat): nat {
    if i < |a.lim| then a.lim[i] else if i == |a.lim| then |a.trail| else 0
  }

  /** The ends of the first k levels as digits of one number, the lowest level first. */
  ghost function Digits(a: Asg, base: nat, k: nat): nat {
    if k == 0 then 0 else Digits(a, base, k - 1) * base + LevelEnd(a, k - 1)
  }

  /** With n variables and k assumptions there are at most n + k levels above level 0, and none ends beyond n. */
  ghost function Rank(a: Asg, k: nat): nat {
    Digits(a, |a.assigns| + 1, |a.assigns| + k + 1)
  }

  ghost function RankBound(n: nat, k: nat): nat {
    Power(n + 1, n + k + 1)
  }

  ghost predicate EndsBelow(a: Asg, base: nat) {
    |a.trail| < base && forall i :: 0 <= i < |a.lim| ==> a.lim[i] < base
  }

  lemma TrailEnds(a: Asg)
    requires TrailInv(a)
    ensures EndsBelow(a, |a.assigns| + 1)
  {
    TrailLength(a);
  }

  lemma {:induction false} DigitsBelow(a: Asg, base: nat, k: nat)
    requires EndsBelow(a, base)
    ensures Digits(a, base, k) < Power(base, k)
  {
    if k > 0 {
      DigitsBelow(a, base, k - 1);
      ScaledBelow(Digits(a, base, k - 1), Power(base, k - 1), base, LevelEnd(a, k - 1));
    }
  }

  lemma Scaled(x: nat, y: nat, base: nat)
    requires x <= y
    ensures x * base <= y * base
  {
  }

  lemma ScaledBelow(x: nat, y: nat, base: nat, d: nat)
    requires x < y && d < base
    ensures x * base + d < y * base
  {
    Scaled(x + 1, y, base);
  }

  lemma {:induction false} DigitsAtMost(a: Asg, b: Asg, base: nat, k: nat)
    requires forall i :: 0 <= i < k ==> LevelEnd(a, i) <= LevelEnd(b, i)
    ensures Digits(a, base, k) <= Digits(b, base, k)
  {
    hide LevelEnd;
    if k > 0 {
      DigitsAtMost(a, b, base, k - 1);
      Scaled(Digits(a, base, k - 1), Digits(b, base, k - 1), base);
    }
  }

  /** A larger end at level i counts more than anything above. */
  lemma {:induction false} DigitsLess(a: Asg, b: Asg, base: nat, k: nat, i: nat)
    requires i < k && EndsBelow(a, base) && LevelEnd(a, i) < LevelEnd(b, i)
    requires forall j :: 0 <= j < i ==> LevelEnd(a, j) <= LevelEnd(b, j)
    ensures Digits(a, base, k) < Digits(b, base, k)
  {
    assert LevelEnd(a, k - 1) < base;
    hide LevelEnd, EndsBelow;
    if i == k - 1 {
      DigitsAtMost(a, b, base, i);
      Scaled(Digits(a, base, i), Digits(b, base, i), base);
    } else {
      DigitsLess(a, b, base, k - 1, i);
      ScaledBelow(Digits(a, base, k - 1), Digits(b, base, k - 1), base, LevelEnd(a, k - 1));
    }
  }

  // ---------- the steps of a search ----------

  /** Every level beyond those of the assumptions holds a literal. */
  ghost predicate LevelsFilled(a: Asg, k: nat) {
    forall i :: k < i <= |a.lim| ==> a.lim[i - 1] < LevelEnd(a, i)
  }

  lemma FilledGrows(a: Asg, b: Asg, k: nat)
    requires LevelsFilled(a, k) && b.lim == a.lim && |a.trail| <= |b.trail|
    ensures LevelsFilled(b, k)
  {
    forall i | k < i <= |b.lim| ensures b.lim[i - 1] < LevelEnd(b, i) {
      assert a.lim[i - 1] < LevelEnd(a, i);
    }
  }

  lemma FilledCut(a: Asg, b: Asg, k: nat, level: nat)
    requires LevelsFilled(a, k) && level < |a.lim| && b.lim == a.lim[..level] && |b.trail| == a.lim[level]
    ensures LevelsFilled(b, k)
  {
    forall i | k < i <= |b.lim| ensures b.lim[i - 1] < LevelEnd(b, i) {
      assert a.lim[i - 1] < LevelEnd(a, i);
    }
  }

  lemma FilledOpened(a: Asg, b: Asg, k: nat)
    requires LevelsFilled(a, k) && b.lim == a.lim + [|a.trail|] && |a.trail| <= |b.trail|
    requires |a.lim| >= k ==> |a.trail| < |b.trail|
    ensures LevelsFilled(b, k)
  {
    forall i | k < i <= |b.lim| ensures b.lim[i - 1] < LevelEnd(b, i) {
      if i <= |a.lim| {
        assert a.lim[i - 1] < LevelEnd(a, i);
      }
    }
  }

  lemma {:induction false} FilledEnd(a: Asg, k: nat, i: nat)
    requires LevelsFilled(a, k) && i <= |a.lim|
    ensures i <= k + LevelEnd(a, i)
  {
    if i > k {
      FilledEnd(a, k, i - 1);
      assert LevelEnd(a, i - 1) == a.lim[i - 1] < LevelEnd(a, i);
    }
  }

  /** So the levels are bounded in number. */
  lemma LevelBound(a: Asg, k: nat)
    requires TrailInv(a) && LevelsFilled(a, k)
    ensures |a.lim| <= |a.assigns| + k
  {
    FilledEnd(a, k, |a.lim|);
    TrailLength(a);
  }

  lemma RankBelow(a: Asg, k: nat)
    requires TrailInv(a)
    ensures Rank(a, k) < RankBound(|a.assigns|, k)
  {
    TrailEnds(a);
    DigitsBelow(a, |a.assigns| + 1, |a.assigns| + k + 1);
  }

  /** Propagation. */
  lemma RankExtended(a: Asg, b: Asg, k: nat)
    requires |a.assigns| == |b.assigns| && a.lim == b.lim && |a.trail| <= |b.trail|
    ensures Rank(a, k) <= Rank(b, k)
  {
    DigitsAtMost(a, b, |a.assigns| + 1, |a.assigns| + k + 1);
  }

  /** A decision, perhaps above dummy levels. */
  lemma RankDecided(a: Asg, b: Asg, k: nat)
    requires TrailInv(a) && TrailInv(b) && |a.assigns| == |b.assigns| && LevelsFilled(b, k)
    requires |a.lim| < |b.lim| && a.lim <= b.lim && (forall i :: |a.lim| <= i < |b.lim| ==> b.lim[i] == |a.trail|) && |b.trail| == |a.trail| + 1
    ensures Rank(a, k) < Rank(b, k)
  {
    TrailEnds(a);
    LevelBound(b, k);
    DigitsLess(a, b, |a.assigns| + 1, |a.assigns| + k + 1, |b.lim|);
  }

  /** A conflict: the level returned to gets one literal more. */
  lemma RankLearnt(a: Asg, b: Asg, k: nat, level: nat)
    requires TrailInv(a) && |a.assigns| == |b.assigns| && LevelsFilled(a, k)
    requires level < |a.lim| && b.lim == a.lim[..level] && |b.trail| == a.lim[level] + 1
    ensures Rank(a, k) < Rank(b, k)
  {
    TrailEnds(a);
    LevelBound(a, k);
    DigitsLess(a, b, |a.assigns| + 1, |a.assigns| + k + 1, level);
  }
}
