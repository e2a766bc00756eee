/** The bounds on the entropy of a partly counted histogram, for any discretely convex cost of a bucket. */
module Entropy {
  import opened Projection

  /** The cost of one bucket; the original uses v * log2(v), which is zero for sizes 0 and 1. */
  type Cost = nat -> real

  ghost predicate Convex(f: Cost) {
    forall n: nat :: f(n + 1) - f(n) <= f(n + 2) - f(n + 1)
  }

  ghost predicate NonDecreasing(f: Cost) {
    forall n: nat :: f(n) <= f(n + 1)
  }

  function Sum(s: seq<nat>): nat {
    if s == [] then 0 else Sum(s[..|s| - 1]) + s[|s| - 1]
  }

  function Total(f: Cost, s: seq<nat>): real {
    if s == [] then 0.0 else Total(f, s[..|s| - 1]) + f(s[|s| - 1])
  }

  ghost predicate AtMost(s: seq<nat>, t: seq<nat>) {
    |s| == |t| && forall i :: 0 <= i < |s| ==> s[i] <= t[i]
  }

  // ---------- sums ----------

  lemma {:induction false} SumUpdate(s: seq<nat>, i: nat, x: nat)
    requires i < |s|
    ensures Sum(s[i := x]) == Sum(s) - s[i] + x
  {
    if i == |s| - 1 {
      assert s[i := x][..i] == s[..i];
    } else {
      assert s[i := x][..|s| - 1] == s[..|s| - 1][i := x];
      SumUpdate(s[..|s| - 1], i, x);
    }
  }

  lemma {:induction false} TotalUpdate(f: Cost, s: seq<nat>, i: nat, x: nat)
    requires i < |s|
    ensures Total(f, s[i := x]) == Total(f, s) - f(s[i]) + f(x)
  {
    if i == |s| - 1 {
      assert s[i := x][..i] == s[..i];
    } else {
      assert s[i := x][..|s| - 1] == s[..|s| - 1][i := x];
      TotalUpdate(f, s[..|s| - 1], i, x);
    }
  }

  lemma {:induction false} TotalAppend(f: Cost, s: seq<nat>, t: seq<nat>)
    ensures Total(f, s + t) == Total(f, s) + Total(f, t)
  {
    if t == [] {
      assert s + t == s;
    } else {
      assert (s + t)[..|s + t| - 1] == s + t[..|t| - 1];
      TotalAppend(f, s, t[..|t| - 1]);
    }
  }

  // ---------- convexity ----------

  lemma ConvexAt(f: Cost, n: nat)
    requires Convex(f)
    ensures f(n + 1) - f(n) <= f(n + 2) - f(n + 1)
  {
  }

  lemma NonDecreasingAt(f: Cost, n: nat)
    requires NonDecreasing(f)
    ensures f(n) <= f(n + 1)
  {
  }

  /** The slope to the right of n. */
  ghost function Slope(f: Cost, n: nat): real {
    f(n + 1) - f(n)
  }

  /** Slopes grow. */
  lemma {:induction false} SlopesGrow(f: Cost, x: nat, y: nat)
    requires Convex(f) && x <= y
    ensures Slope(f, x) <= Slope(f, y)
    decreases y - x
  {
    hide Convex;
    if x < y {
      SlopesGrow(f, x, y - 1);
      ConvexAt(f, y - 1);
    }
  }

  /** The cost above the line with the slope at n: it falls up to n and grows from n on. */
  ghost function Above(f: Cost, n: nat, x: nat): real {
    f(x) - Slope(f, n) * (x as real)
  }

  lemma AboveStep(f: Cost, n: nat, x: nat)
    ensures Above(f, n, x + 1) == Above(f, n, x) + Slope(f, x) - Slope(f, n)
  {
  }

  lemma {:induction false} AboveGrows(f: Cost, n: nat, x: nat, y: nat)
    requires Convex(f) && n <= x <= y
    ensures Above(f, n, x) <= Above(f, n, y)
    decreases y - x
  {
    hide Convex, Above, Slope;
    if x < y {
      AboveGrows(f, n, x, y - 1);
      SlopesGrow(f, n, y - 1);
      AboveStep(f, n, y - 1);
    }
  }

  lemma {:induction false} AboveFalls(f: Cost, n: nat, x: nat)
    requires Convex(f) && x <= n
    ensures Above(f, n, n) <= Above(f, n, x)
    decreases n - x
  {
    hide Convex, Above, Slope;
    if x < n {
      AboveFalls(f, n, x + 1);
      SlopesGrow(f, x, n);
      AboveStep(f, n, x);
    }
  }

  // ---------- levelling ----------

  /** Whatever has been raised is at most one above everything else. */
  ghost predicate Levelled(q: seq<nat>, rest: seq<nat>) {
    AtMost(rest, q) && forall i, j :: 0 <= i < |q| && 0 <= j < |q| && q[i] > rest[i] ==> q[i] <= q[j] + 1
  }

  /** The position of a smallest element. */
  method SmallestAt(q: seq<nat>) returns (i: nat)
    requires q != []
    ensures i < |q| && forall j :: 0 <= j < |q| ==> q[i] <= q[j]
  {
    i := 0;
    var k := 1;
    while k < |q|
      invariant 1 <= k <= |q| && i < k && forall j :: 0 <= j < k ==> q[i] <= q[j]
    {
      if q[k] < q[i] {
        i := k;
      }
      k := k + 1;
    }
  }

  lemma NothingRaised(rest: seq<nat>)
    ensures Levelled(rest, rest)
  {
  }

  lemma RaiseLevels(q: seq<nat>, rest: seq<nat>, i: nat, min2: nat, x: nat)
    requires Levelled(q, rest) && i < |q| && q[i] <= x <= min2 + 1
    requires forall j :: 0 <= j < |q| && j != i ==> min2 <= q[j]
    ensures Levelled(q[i := x], rest)
  {
  }

  /**
   Raise the smallest bucket to one above the next, again and again, until the residue is used up. The queue is kept
   as a sequence in the order of the buckets.
   */
  method Level(rest: seq<nat>, residue: nat) returns (q: seq<nat>)
    requires |rest| >= 2 || residue == 0
    ensures Levelled(q, rest) && Sum(q) == Sum(rest) + residue
  {
    hide Levelled, Sum;
    q := rest;
    var residum := residue;
    assert Levelled(q, rest) by { NothingRaised(rest); }
    while residum > 0
      invariant |q| == |rest| && 0 <= residum <= residue && Levelled(q, rest) && Sum(q) + residum == Sum(rest) + residue
    {
      var i := SmallestAt(q);
      var min1 := q[i];
      var popped := q[..i] + q[i + 1..];
      var k := SmallestAt(popped);
      var min2 := popped[k];
      PoppedBound(q, i, min2);
      var add := if residum < min2 - min1 + 1 then residum else min2 - min1 + 1;
      SumUpdate(q, i, min1 + add);
      RaiseLevels(q, rest, i, min2, min1 + add);
      q := q[i := min1 + add];
      residum := residum - add;
    }
  }

  lemma PoppedBound(q: seq<nat>, i: nat, min2: nat)
    requires i < |q|
    requires var popped := q[..i] + q[i + 1..]; min2 in popped && forall j :: 0 <= j < |popped| ==> min2 <= popped[j]
    ensures min2 in q && forall j :: 0 <= j < |q| && j != i ==> min2 <= q[j]
  {
    var popped := q[..i] + q[i + 1..];
    forall j | 0 <= j < |q| && j != i ensures min2 <= q[j] {
      assert popped[if j < i then j else j - 1] == q[j];
    }
  }

  /** The lowest element of a levelled queue decides the slope at which every element is at its best. */
  lemma BestAtLevel(f: Cost, q: seq<nat>, rest: seq<nat>, low: nat, i: nat, x: nat)
    requires Convex(f) && Levelled(q, rest) && low < |q| && (forall j :: 0 <= j < |q| ==> q[low] <= q[j])
    requires i < |q| && x >= rest[i]
    ensures Above(f, q[low], q[i]) <= Above(f, q[low], x)
  {
    hide Convex, Above, Slope;
    var n := q[low];
    if q[i] == rest[i] {
      AboveGrows(f, n, q[i], x);
    } else {
      assert q[i] == n || q[i] == n + 1;
      AboveStep(f, n, n);
      if x <= n {
        AboveFalls(f, n, x);
      } else {
        AboveGrows(f, n, n, x);
      }
    }
  }

  /** The total cost above a line. */
  ghost function TotalAbove(f: Cost, n: nat, s: seq<nat>): real {
    if s == [] then 0.0 else TotalAbove(f, n, s[..|s| - 1]) + Above(f, n, s[|s| - 1])
  }

  lemma LineSum(k: real, x: nat, y: nat)
    ensures k * ((x + y) as real) == k * (x as real) + k * (y as real)
  {
  }

  lemma {:induction false} TotalAboveIs(f: Cost, n: nat, s: seq<nat>)
    ensures TotalAbove(f, n, s) == Total(f, s) - Slope(f, n) * (Sum(s) as real)
  {
    hide Slope;
    if s != [] {
      var init, last := s[..|s| - 1], s[|s| - 1];
      TotalAboveIs(f, n, init);
      LineSum(Slope(f, n), Sum(init), last);
    }
  }

  lemma {:induction false} TotalAboveBelow(f: Cost, n: nat, s: seq<nat>, t: seq<nat>)
    requires |s| == |t| && forall i :: 0 <= i < |s| ==> Above(f, n, s[i]) <= Above(f, n, t[i])
    ensures TotalAbove(f, n, s) <= TotalAbove(f, n, t)
  {
    if s != [] {
      TotalAboveBelow(f, n, s[..|s| - 1], t[..|t| - 1]);
    }
  }

  lemma {:induction false} LowestExists(q: seq<nat>) returns (low: nat)
    requires q != []
    ensures low < |q| && forall j :: 0 <= j < |q| ==> q[low] <= q[j]
  {
    low := 0;
    if |q| > 1 {
      var init := q[..|q| - 1];
      low := LowestExists(init);
      assert forall j :: 0 <= j < |init| ==> init[j] == q[j];
      if q[|q| - 1] < q[low] {
        low := |q| - 1;
      }
    }
  }

  lemma LevelledSize(q: seq<nat>, rest: seq<nat>)
    requires Levelled(q, rest)
    ensures |q| == |rest|
  {
  }

  /** No way of distributing the residue over the open buckets costs less than the levelled queue. */
  lemma LevelledOptimal(f: Cost, rest: seq<nat>, q: seq<nat>, p: seq<nat>)
    requires Convex(f) && Levelled(q, rest) && AtMost(rest, p) && Sum(p) == Sum(q)
    ensures Total(f, q) <= Total(f, p)
  {
    hide Convex, Above, Slope, TotalAbove, Sum, Levelled;
    assert |rest| == |q| && (forall i :: 0 <= i < |q| ==> rest[i] <= p[i]) by { LevelledSize(q, rest); }
    if q == [] {
      assert p == [];
    } else {
      var low := LowestExists(q);
      forall i | 0 <= i < |q| ensures Above(f, q[low], q[i]) <= Above(f, q[low], p[i]) {
        BestAtLevel(f, q, rest, low, i, p[i]);
      }
      TotalAboveBelow(f, q[low], q, p);
      var line := Slope(f, q[low]) * (Sum(q) as real);
      TotalAboveIs(f, q[low], q);
      TotalAboveIs(f, q[low], p);
      assert TotalAbove(f, q[low], q) == Total(f, q) - line && TotalAbove(f, q[low], p) == Total(f, p) - line;
    }
  }

  // ---------- the bounds ----------

  ghost function Sizes(b: seq<Bucket>, closed: bool): seq<nat> {
    if b == [] then [] else Sizes(b[..|b| - 1], closed) + if b[|b| - 1].closed == closed then [b[|b| - 1].size] else []
  }

  ghost function AllSizes(b: seq<Bucket>): seq<nat> {
    seq(|b|, i requires 0 <= i < |b| => b[i].size)
  }

  /** The entropy sum skips empty and singleton buckets. */
  method EntropySum(f: Cost, c: seq<nat>) returns (sum: real)
    requires f(0) == 0.0 && f(1) == 0.0
    ensures sum == Total(f, c)
  {
    sum := 0.0;
    var i := 0;
    while i < |c|
      invariant i <= |c| && sum == Total(f, c[..i])
    {
      assert c[..i + 1][..i] == c[..i];
      if c[i] != 0 && c[i] != 1 {
        sum := sum + f(c[i]);
      }
      i := i + 1;
    }
    assert c[..|c|] == c;
  }

  /** Put the whole residue on the first largest bucket. */
  method UpperBound(f: Cost, buckets: seq<Bucket>, all: nat, counted: nat) returns (cost: real, maxId: nat)
    requires f(0) == 0.0 && f(1) == 0.0 && counted <= all && exists i :: 0 <= i < |buckets| && buckets[i].size > 0
    ensures maxId < |buckets| && (forall j :: 0 <= j < |buckets| ==> buckets[j].size <= buckets[maxId].size)
    ensures forall j :: 0 <= j < maxId ==> buckets[j].size < buckets[maxId].size
    ensures cost == Total(f, AllSizes(buckets)[maxId := buckets[maxId].size + (all - counted)])
  {
    var cpy: seq<nat> := [];
    var max, maxVal := -1, 0;
    var i := 0;
    while i < |buckets|
      invariant i <= |buckets| && cpy == AllSizes(buckets)[..i]
      invariant forall j :: 0 <= j < i ==> buckets[j].size <= maxVal
      invariant if max == -1 then maxVal == 0 else 0 <= max < i && buckets[max].size == maxVal > 0
      invariant forall j :: 0 <= j < max ==> buckets[j].size < maxVal
    {
      if buckets[i].size > maxVal {
        max, maxVal := i, buckets[i].size;
      }
      cpy := cpy + [buckets[i].size];
      i := i + 1;
    }
    maxId := max;
    cpy := cpy[max := cpy[max] + (all - counted)];
    assert cpy == AllSizes(buckets)[maxId := buckets[maxId].size + (all - counted)];
    cost := EntropySum(f, cpy);
  }

  /** With a single open bucket and a residue the loop would read the top of an empty queue. */
  ghost predicate LowerBoundReady(f: Cost, buckets: seq<Bucket>, all: nat, counted: nat) {
    f(0) == 0.0 && f(1) == 0.0 && counted <= all && (|Sizes(buckets, false)| != 1 || counted == all)
  }

  /** Level the open buckets; but the value returned is that of the buckets as they were, not of the levelled queue. */
  method LowerBound(f: Cost, buckets: seq<Bucket>, all: nat, counted: nat) returns (cost: real, queue: seq<nat>)
    requires LowerBoundReady(f, buckets, all, counted)
    ensures |Sizes(buckets, false)| > 0 ==> Levelled(queue, Sizes(buckets, false)) && Sum(queue) == Sum(Sizes(buckets, false)) + (all - counted)
    ensures cost == Total(f, Sizes(buckets, true)) + Total(f, Sizes(buckets, false))
    ensures Sizes(buckets, false) != [] && IncreasingFromOne(f) ==>
              (cost == Total(f, Sizes(buckets, true)) + Total(f, queue) <==> all - counted <= Zeros(Sizes(buckets, false)))
  {
    var fix: seq<nat>, rest: seq<nat> := [], [];
    var i := 0;
    while i < |buckets|
      invariant i <= |buckets| && fix == Sizes(buckets[..i], true) && rest == Sizes(buckets[..i], false)
    {
      assert buckets[..i + 1][..i] == buckets[..i];
      if buckets[i].closed {
        fix := fix + [buckets[i].size];
      } else {
        rest := rest + [buckets[i].size];
      }
      i := i + 1;
    }
    assert buckets[..|buckets|] == buckets;
    queue := [];
    if |rest| > 0 {
      queue := Level(rest, all - counted);
    }
    TotalAppend(f, fix, rest);
    cost := EntropySum(f, fix + rest);
    if rest != [] && IncreasingFromOne(f) {
      TightExactly(f, rest, queue);
    }
  }

  // ---------- the bracket ----------

  lemma {:induction false} TotalMonotone(f: Cost, s: seq<nat>, t: seq<nat>)
    requires NonDecreasing(f) && AtMost(s, t)
    ensures Total(f, s) <= Total(f, t)
  {
    hide NonDecreasing;
    if s != [] {
      TotalMonotone(f, s[..|s| - 1], t[..|t| - 1]);
      Monotone(f, s[|s| - 1], t[|t| - 1]);
    }
  }

  lemma {:induction false} Monotone(f: Cost, x: nat, y: nat)
    requires NonDecreasing(f) && x <= y
    ensures f(x) <= f(y)
    decreases y - x
  {
    hide NonDecreasing;
    if x < y {
      Monotone(f, x, y - 1);
      NonDecreasingAt(f, y - 1);
    }
  }

  /** Raising a larger bucket by the same amount costs more. */
  lemma {:induction false} RaiseLarger(f: Cost, x: nat, y: nat, d: nat)
    requires Convex(f) && x <= y
    ensures f(x + d) - f(x) <= f(y + d) - f(y)
  {
    hide Convex;
    if d > 0 {
      RaiseLarger(f, x, y, d - 1);
      SlopesGrow(f, x + d - 1, y + d - 1);
    }
  }

  /** However the residue is spread, it costs no more than putting it all on a bucket at least as large. */
  lemma {:induction false} SpreadBelow(f: Cost, s: seq<nat>, t: seq<nat>, top: nat)
    requires Convex(f) && AtMost(s, t) && forall i :: 0 <= i < |s| ==> s[i] <= top
    ensures Sum(t) >= Sum(s) && Total(f, t) - Total(f, s) <= f(top + (Sum(t) - Sum(s))) - f(top)
  {
    hide Convex;
    if s != [] {
      var s0, t0 := s[..|s| - 1], t[..|t| - 1];
      SpreadBelow(f, s0, t0, top);
      var d := t[|t| - 1] - s[|s| - 1];
      RaiseLarger(f, s[|s| - 1], top + (Sum(t0) - Sum(s0)), d);
    }
  }

  lemma TotalNone(f: Cost)
    ensures Total(f, []) == 0.0
  {
  }

  lemma TotalLast(f: Cost, s: seq<nat>, x: nat)
    ensures Total(f, s + [x]) == Total(f, s) + f(x)
  {
  }

  lemma {:induction false} SplitTotal(f: Cost, b: seq<Bucket>)
    ensures Total(f, AllSizes(b)) == Total(f, Sizes(b, true)) + Total(f, Sizes(b, false))
  {
    hide Total;
    if b == [] {
      assert AllSizes(b) == [] && Sizes(b, true) == [];
      TotalNone(f);
    } else {
      var init, last := b[..|b| - 1], b[|b| - 1];
      SplitTotal(f, init);
      assert AllSizes(b) == AllSizes(init) + [last.size];
      assert Sizes(b, !last.closed) == Sizes(init, !last.closed);
      TotalLast(f, AllSizes(init), last.size);
      TotalLast(f, Sizes(init, last.closed), last.size);
    }
  }

  lemma {:induction false} OpenBound(b: seq<Bucket>, top: nat)
    requires forall i :: 0 <= i < |b| ==> b[i].size <= top
    ensures forall i :: 0 <= i < |Sizes(b, false)| ==> Sizes(b, false)[i] <= top
  {
    if b != [] {
      OpenBound(b[..|b| - 1], top);
    }
  }

  /**
   The bracket: for every distribution of the uncounted inputs over the open buckets the true cost lies between
   that of the buckets as they are and that of the largest bucket raised by the whole residue.
   */
  lemma Bracket(f: Cost, b: seq<Bucket>, residue: nat, maxId: nat, open: seq<nat>)
    requires Convex(f) && NonDecreasing(f) && maxId < |b| && forall j :: 0 <= j < |b| ==> b[j].size <= b[maxId].size
    requires AtMost(Sizes(b, false), open) && Sum(open) == Sum(Sizes(b, false)) + residue
    ensures Total(f, Sizes(b, true)) + Total(f, Sizes(b, false)) <= Total(f, Sizes(b, true)) + Total(f, open)
    ensures Total(f, Sizes(b, true)) + Total(f, open) <= Total(f, AllSizes(b)[maxId := b[maxId].size + residue])
  {
    hide Convex, NonDecreasing, Total, Sizes, Sum;
    TotalMonotone(f, Sizes(b, false), open);
    OpenBound(b, b[maxId].size);
    SpreadBelow(f, Sizes(b, false), open, b[maxId].size);
    TotalUpdate(f, AllSizes(b), maxId, b[maxId].size + residue);
    SplitTotal(f, b);
  }

  /** The levelled queue would give a tighter bound than the value returned, which ignores it. */
  lemma TighterBound(f: Cost, rest: seq<nat>, queue: seq<nat>, open: seq<nat>)
    requires Convex(f) && NonDecreasing(f) && Levelled(queue, rest) && AtMost(rest, open) && Sum(open) == Sum(queue)
    ensures Total(f, rest) <= Total(f, queue) <= Total(f, open)
  {
    TotalMonotone(f, rest, queue);
    LevelledOptimal(f, rest, queue, open);
  }

  // ---------- when the value returned is as good as the levelled queue ----------

  ghost predicate IncreasingFromOne(f: Cost) {
    forall n: nat :: n >= 1 ==> f(n) < f(n + 1)
  }

  ghost function Zeros(s: seq<nat>): nat {
    if s == [] then 0 else Zeros(s[..|s| - 1]) + if s[|s| - 1] == 0 then 1 else 0
  }

  /** Unless it lifts an empty bucket to one, raising a bucket costs something. */
  lemma {:induction false} RaisingCosts(f: Cost, x: nat, y: nat)
    requires f(0) == f(1) && IncreasingFromOne(f) && x < y
    ensures f(x) <= f(y) && (f(x) == f(y) <==> x == 0 && y == 1)
    decreases y
  {
    if y > x + 1 {
      RaisingCosts(f, x, y - 1);
      assert f(y - 1) < f(y - 1 + 1);
    }
  }

  /** Two distributions, one above the other, cost the same only if no bucket has become dearer. */
  lemma {:induction false} SameTotal(f: Cost, s: seq<nat>, t: seq<nat>)
    requires f(0) == f(1) && IncreasingFromOne(f) && AtMost(s, t)
    ensures Total(f, s) <= Total(f, t)
    ensures Total(f, s) == Total(f, t) <==> forall i :: 0 <= i < |s| ==> s[i] == t[i] || (s[i] == 0 && t[i] == 1)
  {
    if s != [] {
      var k := |s| - 1;
      SameTotal(f, s[..k], t[..k]);
      if s[k] < t[k] {
        RaisingCosts(f, s[k], t[k]);
      }
    }
  }

  /** Lifting empty buckets to one uses no more than there are of them. */
  lemma {:induction false} LiftedZeros(s: seq<nat>, t: seq<nat>)
    requires |s| == |t| && forall i :: 0 <= i < |s| ==> s[i] == t[i] || (s[i] == 0 && t[i] == 1)
    ensures Sum(t) - Sum(s) <= Zeros(s)
  {
    if s != [] {
      LiftedZeros(s[..|s| - 1], t[..|t| - 1]);
    }
  }

  /** When no bucket is left empty, every empty one has been lifted. */
  lemma {:induction false} NoneEmpty(s: seq<nat>, t: seq<nat>)
    requires AtMost(s, t) && forall i :: 0 <= i < |t| ==> t[i] >= 1
    ensures Sum(t) - Sum(s) >= Zeros(s)
  {
    if s != [] {
      NoneEmpty(s[..|s| - 1], t[..|t| - 1]);
    }
  }

  /** The value returned equals that of the levelled queue exactly if the residue is no larger than the number of empty open buckets. */
  lemma TightExactly(f: Cost, rest: seq<nat>, queue: seq<nat>)
    requires f(0) == f(1) && IncreasingFromOne(f) && Levelled(queue, rest)
    ensures Total(f, rest) == Total(f, queue) <==> Sum(queue) - Sum(rest) <= Zeros(rest)
    ensures Total(f, rest) < Total(f, queue) <==> Sum(queue) - Sum(rest) > Zeros(rest)
  {
    hide IncreasingFromOne, Total, Zeros, Sum;
    SameTotal(f, rest, queue);
    if forall i :: 0 <= i < |rest| ==> rest[i] == queue[i] || (rest[i] == 0 && queue[i] == 1) {
      LiftedZeros(rest, queue);
    } else {
      var i :| 0 <= i < |rest| && rest[i] != queue[i] && !(rest[i] == 0 && queue[i] == 1);
      SumUpdate(queue, i, queue[i] - 1);
      NoneEmpty(rest, queue[i := queue[i] - 1]);
    }
  }

  /** A cost as the original's: nothing for sizes 0 and 1, convex, and growing from 1 on. */
  ghost function Pairs(n: nat): real {
    (n * (n - 1)) as real
  }

  lemma PairsCost()
    ensures Pairs(0) == 0.0 && Pairs(1) == 0.0
    ensures Convex(Pairs) && NonDecreasing(Pairs) && IncreasingFromOne(Pairs)
  {
    forall n: nat ensures Pairs(n + 1) - Pairs(n) == (2 * n) as real {
      assert (n + 1) * (n + 1 - 1) == n * (n - 1) + 2 * n;
    }
  }

  lemma TwoOpen()
    ensures Sizes([Bucket(1, false), Bucket(1, false)], false) == [1, 1] && Zeros([1, 1]) == 0
  {
    var b := [Bucket(1, false), Bucket(1, false)];
    assert b[..1] == [Bucket(1, false)] && b[..1][..0] == [];
    assert [1, 1][..1] == [1] && [1][..0] == [];
  }

  /** Two open buckets of size 1 with two inputs not yet counted: whatever the queue, the value returned is strictly below its cost. */
  lemma ReturnedBoundIsLoose(queue: seq<nat>)
    requires Levelled(queue, [1, 1]) && Sum(queue) == Sum([1, 1]) + 2
    ensures Convex(Pairs) && NonDecreasing(Pairs)
    ensures var b := [Bucket(1, false), Bucket(1, false)];
            && LowerBoundReady(Pairs, b, 4, 2) && Sizes(b, false) == [1, 1]
            && Total(Pairs, Sizes(b, true)) + Total(Pairs, [1, 1]) < Total(Pairs, Sizes(b, true)) + Total(Pairs, queue)
  {
    hide Pairs, Convex, NonDecreasing, IncreasingFromOne, Levelled, Sizes, Total, Sum, Zeros;
    PairsCost();
    TwoOpen();
    TightExactly(Pairs, [1, 1], queue);
  }
}
