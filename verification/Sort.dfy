/** The hybrid quicksort: Hoare partition above a selection sort on at most fifteen elements. */
module Sorting {
  import opened Literals

  ghost predicate StrictWeak<T(!new)>(lt: (T, T) -> bool) {
    && (forall x :: !lt(x, x))
    && (forall x, y :: lt(x, y) ==> !lt(y, x))
    && (forall x, y, z :: lt(x, z) ==> lt(x, y) || lt(y, z))
  }

  /** No element is below an earlier one. */
  ghost predicate SortedBetween<T>(s: seq<T>, lo: int, hi: int, lt: (T, T) -> bool) {
    0 <= lo <= hi <= |s| && forall i, j :: lo <= i < j < hi ==> !lt(s[j], s[i])
  }

  /** t is s with the elements between lo and hi permuted. */
  ghost predicate Permuted<T>(s: seq<T>, t: seq<T>, lo: int, hi: int) {
    && 0 <= lo <= hi <= |s| == |t|
    && (forall k :: 0 <= k < lo ==> s[k] == t[k]) && (forall k :: hi <= k < |s| ==> s[k] == t[k])
    && multiset(s) == multiset(t)
  }

  lemma PermutedTrans<T>(s: seq<T>, t: seq<T>, u: seq<T>, lo: int, hi: int, lo': int, hi': int)
    requires Permuted(s, t, lo, hi) && Permuted(t, u, lo', hi') && lo <= lo' && hi' <= hi
    ensures Permuted(s, u, lo, hi)
  {
  }

  lemma Pieces<T>(s: seq<T>, lo: int, hi: int)
    requires 0 <= lo <= hi <= |s|
    ensures multiset(s) == multiset(s[..lo]) + multiset(s[lo..hi]) + multiset(s[hi..])
  {
    assert s == s[..lo] + s[lo..hi] + s[hi..];
  }

  lemma PermutedPart<T>(s: seq<T>, t: seq<T>, lo: int, hi: int)
    requires Permuted(s, t, lo, hi)
    ensures multiset(s[lo..hi]) == multiset(t[lo..hi])
  {
    assert s[..lo] == t[..lo] && s[hi..] == t[hi..];
    Pieces(s, lo, hi);
    Pieces(t, lo, hi);
    CancelCommon(multiset(s[..lo]), multiset(s[hi..]), multiset(s[lo..hi]), multiset(t[lo..hi]));
  }

  lemma CancelCommon<T>(x: multiset<T>, y: multiset<T>, m: multiset<T>, n: multiset<T>)
    requires x + m + y == x + n + y
    ensures m == n
  {
    forall e ensures m[e] == n[e] {
      assert (x + m + y)[e] == (x + n + y)[e];
    }
  }

  /** Whatever held of all elements between lo and hi still holds of them after they have been permuted. */
  lemma PermutedKeeps<T>(s: seq<T>, t: seq<T>, lo: int, hi: int, p: T -> bool)
    requires Permuted(s, t, lo, hi) && forall k :: lo <= k < hi ==> p(s[k])
    ensures forall k :: lo <= k < hi ==> p(t[k])
  {
    PermutedPart(s, t, lo, hi);
    forall k | lo <= k < hi ensures p(t[k]) {
      assert t[lo..hi][k - lo] == t[k];
      assert t[k] in multiset(t[lo..hi]);
      assert t[k] in s[lo..hi];
    }
  }

  lemma SwapPermutes<T>(s: seq<T>, i: nat, j: nat, lo: int, hi: int)
    requires 0 <= lo <= i < hi <= |s| && lo <= j < hi
    ensures Permuted(s, s[i := s[j]][j := s[i]], lo, hi)
  {
  }

  method Swap<T>(a: array<T>, i: nat, j: nat, ghost lo: int, ghost hi: int)
    requires 0 <= lo <= i < hi <= a.Length && lo <= j < hi
    modifies a
    ensures a[..] == old(a[..])[i := old(a[j])][j := old(a[i])] && Permuted(old(a[..]), a[..], lo, hi)
  {
    SwapPermutes(a[..], i, j, lo, hi);
    a[i], a[j] := a[j], a[i];
    assert a[..] == old(a[..])[i := old(a[j])][j := old(a[i])];
  }

  /** The index of an element that no later one is below. */
  method SelectBest<T(!new)>(a: array<T>, i: nat, hi: nat, lt: (T, T) -> bool) returns (best: nat)
    requires StrictWeak(lt) && i < hi <= a.Length
    ensures i <= best < hi && forall k :: i <= k < hi ==> !lt(a[k], a[best])
  {
    best := i;
    var j := i + 1;
    while j < hi
      invariant i <= best < j <= hi && forall k :: i <= k < j ==> !lt(a[k], a[best])
    {
      if lt(a[j], a[best]) {
        best := j;
      }
      j := j + 1;
    }
  }

  /** No element from i on is below one before i. */
  ghost predicate Ahead<T>(s: seq<T>, lo: int, i: int, hi: int, lt: (T, T) -> bool) {
    0 <= lo <= i <= hi <= |s| && forall j, k :: lo <= j < i <= k < hi ==> !lt(s[k], s[j])
  }

  /** One round: the best of the remaining elements goes to index i. */
  lemma SelectStep<T(!new)>(s: seq<T>, lo: nat, i: nat, best: nat, hi: nat, lt: (T, T) -> bool)
    requires lo <= i <= best < hi <= |s| && SortedBetween(s, lo, i, lt) && !lt(s[i], s[i])
    requires Ahead(s, lo, i, hi, lt) && forall k :: i <= k < hi ==> !lt(s[k], s[best])
    ensures var t := s[i := s[best]][best := s[i]]; SortedBetween(t, lo, i + 1, lt) && Ahead(t, lo, i + 1, hi, lt)
  {
  }

  method SelectionSort<T(!new)>(a: array<T>, lo: nat, hi: nat, lt: (T, T) -> bool)
    requires StrictWeak(lt) && lo <= hi <= a.Length
    modifies a
    ensures Permuted(old(a[..]), a[..], lo, hi) && SortedBetween(a[..], lo, hi, lt)
  {
    var i := lo;
    while i < hi - 1
      invariant lo <= i <= hi && Permuted(old(a[..]), a[..], lo, hi) && SortedBetween(a[..], lo, i, lt)
      invariant Ahead(a[..], lo, i, hi, lt)
    {
      hide Permuted, SortedBetween, StrictWeak;
      var best := SelectBest(a, i, hi, lt);
      ghost var s := a[..];
      SelectStep(s, lo, i, best, hi, lt);
      Swap(a, i, best, lo, hi);
      PermutedTrans(old(a[..]), s, a[..], lo, hi, lo, hi);
      i := i + 1;
    }
  }

  /** Advance to the next element that is not below the pivot; one exists at 'stop'. */
  method ScanUp<T(!new)>(a: array<T>, from: int, ghost stop: int, lt: (T, T) -> bool, p: T) returns (i: int)
    requires StrictWeak(lt) && 0 <= from <= stop < a.Length && !lt(a[stop], p)
    ensures from <= i <= stop && !lt(a[i], p) && forall k :: from <= k < i ==> !lt(p, a[k])
  {
    i := from;
    while lt(a[i], p)
      invariant from <= i <= stop && forall k :: from <= k < i ==> !lt(p, a[k])
      decreases stop - i
    {
      i := i + 1;
    }
  }

  /** Go back to the next element that is not above the pivot; one exists at 'stop'. */
  method ScanDown<T(!new)>(a: array<T>, from: int, ghost stop: int, lt: (T, T) -> bool, p: T) returns (j: int)
    requires StrictWeak(lt) && 0 <= stop <= from < a.Length && !lt(p, a[stop])
    ensures stop <= j <= from && !lt(p, a[j]) && forall k :: j < k <= from ==> !lt(a[k], p)
  {
    j := from;
    while lt(p, a[j])
      invariant stop <= j <= from && forall k :: j < k <= from ==> !lt(a[k], p)
      decreases j
    {
      j := j - 1;
    }
  }

  /** Both scans have stopped: everything before i is not above the pivot, everything behind j not below it. */
  ghost predicate Scanned<T>(s: seq<T>, lo: int, hi: int, i: int, j: int, lt: (T, T) -> bool, p: T) {
    && 0 <= lo <= i < hi <= |s| && lo <= j < hi && (i >= j ==> i > lo) && !lt(s[i], p) && !lt(p, s[j])
    && (forall k :: lo <= k < i ==> !lt(p, s[k])) && (forall k :: j < k < hi ==> !lt(s[k], p))
  }

  lemma ScanAgain<T(!new)>(s: seq<T>, t: seq<T>, lo: int, hi: int, i: int, j: int, lt: (T, T) -> bool, p: T, i': int, j': int)
    requires Scanned(s, lo, hi, i, j, lt, p) && i < j && t == s[i := s[j]][j := s[i]]
    requires i < i' <= j && !lt(t[i'], p) && forall k :: i < k < i' ==> !lt(p, t[k])
    requires i <= j' < j && !lt(p, t[j']) && forall k :: j' < k < j ==> !lt(t[k], p)
    ensures Scanned(t, lo, hi, i', j', lt, p)
  {
  }

  /** Split into a part with nothing above the pivot and a part with nothing below it; both are proper. */
  method Partition<T(!new)>(a: array<T>, lo: nat, hi: nat, lt: (T, T) -> bool) returns (m: nat, ghost pivot: T)
    requires StrictWeak(lt) && lo <= hi <= a.Length && hi - lo > 15
    modifies a
    ensures lo < m < hi && Permuted(old(a[..]), a[..], lo, hi)
    ensures forall k :: lo <= k < m ==> !lt(pivot, a[k])
    ensures forall k :: m <= k < hi ==> !lt(a[k], pivot)
  {
    hide Permuted, Scanned;
    var mid := lo + (hi - lo) / 2;
    var p := a[mid];
    pivot := p;
    PermutedSelf(a[..], lo, hi);
    var i: int := ScanUp(a, lo, mid, lt, p);
    var j: int := ScanDown(a, hi - 1, mid, lt, p);
    assert Scanned(a[..], lo, hi, i, j, lt, p) by { ScannedFirst(a[..], lo, hi, i, j, lt, p); }
    while i < j
      invariant Scanned(a[..], lo, hi, i, j, lt, p) && Permuted(old(a[..]), a[..], lo, hi)
      decreases j - i
    {
      ScannedFacts(a[..], lo, hi, i, j, lt, p);
      ghost var s := a[..];
      Swap(a, i, j, lo, hi);
      PermutedTrans(old(a[..]), s, a[..], lo, hi, lo, hi);
      var i' := ScanUp(a, i + 1, j, lt, p);
      var j' := ScanDown(a, j - 1, i, lt, p);
      ScanAgain(s, a[..], lo, hi, i, j, lt, p, i', j');
      i, j := i', j';
    }
    ScannedFacts(a[..], lo, hi, i, j, lt, p);
    m := i;
  }

  lemma ScannedFirst<T>(s: seq<T>, lo: int, hi: int, i: int, j: int, lt: (T, T) -> bool, p: T)
    requires 0 <= lo <= i < hi <= |s| && lo <= j < hi && (i >= j ==> i > lo) && !lt(s[i], p) && !lt(p, s[j])
    requires (forall k :: lo <= k < i ==> !lt(p, s[k])) && (forall k :: j < k < hi ==> !lt(s[k], p))
    ensures Scanned(s, lo, hi, i, j, lt, p)
  {
  }

  lemma ScannedFacts<T>(s: seq<T>, lo: int, hi: int, i: int, j: int, lt: (T, T) -> bool, p: T)
    requires Scanned(s, lo, hi, i, j, lt, p)
    ensures 0 <= lo <= i < hi <= |s| && lo <= j < hi && (i >= j ==> i > lo) && !lt(s[i], p) && !lt(p, s[j])
    ensures i >= j ==> (forall k :: lo <= k < i ==> !lt(p, s[k])) && (forall k :: i <= k < hi ==> !lt(s[k], p))
  {
  }

  lemma PermutedSelf<T>(s: seq<T>, lo: int, hi: int)
    requires 0 <= lo <= hi <= |s|
    ensures Permuted(s, s, lo, hi)
  {
  }

  method Sort<T(!new)>(a: array<T>, lo: nat, hi: nat, lt: (T, T) -> bool)
    requires StrictWeak(lt) && lo <= hi <= a.Length
    modifies a
    ensures Permuted(old(a[..]), a[..], lo, hi) && SortedBetween(a[..], lo, hi, lt)
    decreases hi - lo
  {
    if hi - lo <= 15 {
      SelectionSort(a, lo, hi, lt);
    } else {
      var m, pivot := Partition(a, lo, hi, lt);
      ghost var s := a[..];
      Sort(a, lo, m, lt);
      ghost var t := a[..];
      PermutedKeeps(s, t, lo, m, x => !lt(pivot, x));
      Sort(a, m, hi, lt);
      ghost var u := a[..];
      PermutedKeeps(t, u, m, hi, x => !lt(x, pivot));
      PermutedTrans(old(a[..]), s, t, lo, hi, lo, m);
      PermutedTrans(old(a[..]), t, u, lo, hi, m, hi);
      JoinSorted(t, u, lo, m, hi, lt, pivot);
    }
  }

  lemma JoinSorted<T(!new)>(t: seq<T>, u: seq<T>, lo: int, m: int, hi: int, lt: (T, T) -> bool, pivot: T)
    requires StrictWeak(lt) && lo <= m <= hi && Permuted(t, u, m, hi) && SortedBetween(t, lo, m, lt) && SortedBetween(u, m, hi, lt)
    requires forall k :: lo <= k < m ==> !lt(pivot, t[k])
    requires forall k :: m <= k < hi ==> !lt(u[k], pivot)
    ensures SortedBetween(u, lo, hi, lt)
  {
  }

  // ---------- literals ----------

  ghost predicate SortedLits(s: seq<Lit>) {
    forall i, j :: 0 <= i < j < |s| ==> Code(s[i]) <= Code(s[j])
  }

  /** Sort a clause by the codes of its literals. */
  method SortLits(ps: seq<Lit>) returns (qs: seq<Lit>)
    ensures SortedLits(qs) && multiset(qs) == multiset(ps)
  {
    var a := new Lit[|ps|](i requires 0 <= i < |ps| => ps[i]);
    assert a[..] == ps;
    Sort(a, 0, a.Length, Below);
    qs := a[..];
    assert forall i, j :: 0 <= i < j < |qs| ==> !Below(qs[j], qs[i]);
  }
}
