/** The indexed binary heap that orders the variables; elements know their position in it. */
module IndexedHeap {
  import Collections
  import opened Literals
  import opened Sorting

  function Left(i: nat): nat {
    2 * i + 1
  }

  function Right(i: nat): nat {
    (i + 1) * 2
  }

  function Parent(i: nat): nat {
    if i == 0 then 0 else (i - 1) / 2
  }

  lemma Family(i: nat, c: nat)
    ensures c > 0 && Parent(c) == i <==> c == Left(i) || c == Right(i)
    ensures c > 0 ==> Parent(c) < c
  {
  }

  type Order = (nat, nat) -> bool

  /** The positions recorded are exactly the inverse of the heap. */
  ghost predicate Inverse(h: seq<nat>, indices: seq<int>) {
    && (forall k :: 0 <= k < |h| ==> h[k] < |indices| && indices[h[k]] == k)
    && (forall n :: 0 <= n < |indices| && indices[n] >= 0 ==> indices[n] < |h| && h[indices[n]] == n)
  }

  /** Position j is not below its parent. */
  ghost predicate OkAt(lt: Order, h: seq<nat>, j: int) {
    0 < j < |h| ==> !lt(h[j], h[Parent(j)])
  }

  ghost predicate OrderedFrom(lt: Order, h: seq<nat>, lo: nat) {
    forall j :: 0 < j < |h| && Parent(j) >= lo ==> OkAt(lt, h, j)
  }

  ghost predicate Ordered(lt: Order, h: seq<nat>) {
    OrderedFrom(lt, h, 0)
  }

  /** The children of i are not below the parent of i. */
  ghost predicate Bridged(lt: Order, h: seq<nat>, lo: nat, i: nat) {
    i > 0 && Parent(i) >= lo && Parent(i) < |h| ==>
      forall c :: 0 < c < |h| && Parent(c) == i ==> !lt(h[c], h[Parent(i)])
  }

  /** Only the element at i may be too small for its place. */
  ghost predicate UpOk(lt: Order, h: seq<nat>, i: nat) {
    Bridged(lt, h, 0, i) && forall j :: 0 < j < |h| && j != i ==> OkAt(lt, h, j)
  }

  /** Only the element at i may be too large for its place, among positions with parents from lo on. */
  ghost predicate DownOk(lt: Order, h: seq<nat>, lo: nat, i: nat) {
    Bridged(lt, h, lo, i) && forall j :: 0 < j < |h| && Parent(j) >= lo && Parent(j) != i ==> OkAt(lt, h, j)
  }

  /** The element at i may be too small or too large. */
  ghost predicate BothOk(lt: Order, h: seq<nat>, i: nat) {
    Bridged(lt, h, 0, i) && forall j :: 0 < j < |h| && j != i && Parent(j) != i ==> OkAt(lt, h, j)
  }

  ghost function Swapped(h: seq<nat>, i: nat, j: nat): seq<nat>
    requires i < |h| && j < |h|
  {
    h[i := h[j]][j := h[i]]
  }

  /** The elements as a set, the way the solver's order of decision variables sees them. */
  ghost function Elements(h: seq<nat>): set<nat> {
    set x | x in h
  }

  lemma ElementsChange(h: seq<nat>, g: seq<nat>, x: nat)
    ensures multiset(g) == multiset(h) ==> Elements(g) == Elements(h)
    ensures multiset(g) == multiset(h) + multiset{x} ==> Elements(g) == Elements(h) + {x}
    ensures NoDup(h) && multiset(h) == multiset(g) + multiset{x} ==> Elements(g) == Elements(h) - {x}
  {
    assert forall y :: (y in g <==> y in multiset(g)) && (y in h <==> y in multiset(h));
    if NoDup(h) && multiset(h) == multiset(g) + multiset{x} {
      assert x in multiset(h);
      Collections.OnceInMultiset(h, x);
      assert multiset(h)[x] == multiset(g)[x] + 1;
    }
  }

  lemma SwapUp(lt: Order, h: seq<nat>, i: nat)
    requires StrictWeak(lt) && 0 < i < |h| && BothOk(lt, h, i) && lt(h[i], h[Parent(i)])
    ensures UpOk(lt, Swapped(h, i, Parent(i)), Parent(i))
  {
  }

  /** The smaller child rises. */
  lemma SwapDown(lt: Order, h: seq<nat>, lo: nat, i: nat, c: nat)
    requires StrictWeak(lt) && lo <= i && DownOk(lt, h, lo, i) && c < |h| && (c == Left(i) || c == Right(i)) && lt(h[c], h[i])
    requires forall b :: 0 < b < |h| && Parent(b) == i ==> !lt(h[b], h[c])
    ensures DownOk(lt, Swapped(h, i, c), lo, c)
  {
    Family(i, c);
    var g := Swapped(h, i, c);
    forall j | 0 < j < |g| && Parent(j) >= lo && Parent(j) != c ensures OkAt(lt, g, j) {
      if j != i && Parent(j) != i {
        assert OkAt(lt, h, j);
      }
    }
    forall b | 0 < b < |g| && Parent(b) == c ensures !lt(g[b], g[Parent(c)]) {
      assert OkAt(lt, h, b);
    }
  }

  /** Swapping two elements and their recorded positions keeps the inverse. */
  lemma SwapInverse(h: seq<nat>, indices: seq<int>, i: nat, j: nat)
    requires Inverse(h, indices) && i < |h| && j < |h|
    ensures h[i] < |indices| && h[j] < |indices|
    ensures Inverse(Swapped(h, i, j), indices[h[j] := i][h[i] := j])
    ensures multiset(Swapped(h, i, j)) == multiset(h)
  {
  }

  /** The root is a minimum. */
  lemma {:induction false} RootMinimal(lt: Order, h: seq<nat>, k: nat)
    requires StrictWeak(lt) && Ordered(lt, h) && k < |h|
    ensures !lt(h[k], h[0])
  {
    if k > 0 {
      RootMinimal(lt, h, Parent(k));
      assert OkAt(lt, h, k);
    }
  }

  lemma UpIsBoth(lt: Order, h: seq<nat>, i: nat)
    ensures UpOk(lt, h, i) ==> BothOk(lt, h, i)
  {
  }

  /** The element stops rising: it is at the root or not below its parent. */
  lemma Risen(lt: Order, h: seq<nat>, i: nat)
    requires i < |h| && OkAt(lt, h, i)
    ensures UpOk(lt, h, i) ==> Ordered(lt, h)
    ensures BothOk(lt, h, i) ==> DownOk(lt, h, 0, i)
    ensures UpOk(lt, h, i) ==> DownOk(lt, h, 0, i)
  {
  }

  /** The element stops sinking: it has no child below it. */
  lemma Sunk(lt: Order, h: seq<nat>, lo: nat, i: nat)
    requires DownOk(lt, h, lo, i) && forall c :: 0 < c < |h| && Parent(c) == i ==> !lt(h[c], h[i])
    ensures OrderedFrom(lt, h, lo)
  {
  }

  lemma NoChildren(h: seq<nat>, i: nat)
    ensures Left(i) >= |h| ==> forall c :: 0 < c < |h| ==> Parent(c) != i
  {
  }

  /** The heap as it is once x has been written into the hole at i. */
  ghost predicate Filled(h: seq<nat>, indices: seq<int>, i: nat, x: nat, g: seq<nat>, gi: seq<int>) {
    i < |h| && x < |indices| && g == h[i := x] && gi == indices[x := i]
  }

  lemma MoveHole(h: seq<nat>, indices: seq<int>, i: nat, x: nat, j: nat, g: seq<nat>, gi: seq<int>)
    requires Filled(h, indices, i, x, g, gi) && Inverse(g, gi) && j < |h| && j != i
    ensures h[j] < |indices|
    ensures var h', indices' := h[i := h[j]], indices[h[j] := i];
            Filled(h', indices', j, x, Swapped(g, i, j), indices'[x := j]) && Inverse(Swapped(g, i, j), indices'[x := j])
    ensures multiset(Swapped(g, i, j)) == multiset(g)
  {
    SwapInverse(g, gi, i, j);
    var h', indices' := h[i := h[j]], indices[h[j] := i];
    assert g[j] == h[j] && h[j] != x;
    assert Swapped(g, i, j) == h'[j := x];
    assert indices'[x := j] == gi[h[j] := i][x := j];
  }

  lemma PositionOf(h: seq<nat>, indices: seq<int>, i: nat)
    requires Inverse(h, indices) && i < |h|
    ensures h[i] < |indices| && indices[h[i]] == i
  {
  }

  lemma FilledSelf(h: seq<nat>, indices: seq<int>, i: nat)
    requires Inverse(h, indices) && i < |h|
    ensures Filled(h, indices, i, h[i], h, indices)
  {
  }

  lemma FilledAt(h: seq<nat>, indices: seq<int>, i: nat, x: nat, g: seq<nat>, gi: seq<int>)
    requires Filled(h, indices, i, x, g, gi)
    ensures i < |h| == |g| && x < |indices| && g == h[i := x] && gi == indices[x := i] && g[i] == x
    ensures forall j :: 0 <= j < |h| && j != i ==> g[j] == h[j]
  {
  }

  lemma SmallerChild(lt: Order, g: seq<nat>, i: nat, child: nat)
    requires StrictWeak(lt) && Left(i) < |g|
    requires child == if Right(i) < |g| && lt(g[Right(i)], g[Left(i)]) then Right(i) else Left(i)
    ensures i < child < |g| && forall b :: 0 < b < |g| && Parent(b) == i ==> !lt(g[b], g[child])
  {
  }

  lemma ChildrenAbove(lt: Order, g: seq<nat>, i: nat, child: nat)
    requires StrictWeak(lt) && i < |g| && child < |g| && !lt(g[child], g[i])
    requires forall b :: 0 < b < |g| && Parent(b) == i ==> !lt(g[b], g[child])
    ensures forall c :: 0 < c < |g| && Parent(c) == i ==> !lt(g[c], g[i])
  {
  }

  class Heap {
    var heap: seq<nat>
    var indices: seq<int>

    ghost predicate Valid()
      reads this
    {
      Inverse(heap, indices)
    }

    predicate InHeap(n: nat)
      reads this
    {
      n < |indices| && indices[n] >= 0
    }

    constructor ()
      ensures Valid() && heap == [] && indices == []
    {
      heap, indices := [], [];
    }

    /** Let the element at i rise to its place. */
    method PercolateUp(lt: Order, i0: nat)
      requires StrictWeak(lt) && Valid() && i0 < |heap| && BothOk(lt, heap, i0)
      modifies this
      ensures Valid() && multiset(heap) == multiset(old(heap)) && |heap| == |old(heap)| && |indices| == |old(indices)|
      ensures InHeap(old(heap)[i0]) && DownOk(lt, heap, 0, indices[old(heap)[i0]])
      ensures UpOk(lt, old(heap), i0) ==> Ordered(lt, heap)
    {
      hide StrictWeak, BothOk, UpOk, DownOk, Inverse, Filled, Ordered;
      var i := i0;
      var x := heap[i];
      PositionOf(heap, indices, i);
      ghost var g, gi := heap, indices;
      FilledSelf(heap, indices, i);
      UpIsBoth(lt, g, i);
      while i != 0 && lt(x, heap[Parent(i)])
        invariant i < |heap| == |g| == |old(heap)| && x < |indices| == |old(indices)| && g[i] == x
        invariant Filled(heap, indices, i, x, g, gi) && Inverse(g, gi) && multiset(g) == multiset(old(heap))
        invariant BothOk(lt, g, i) && (UpOk(lt, old(heap), i0) ==> UpOk(lt, g, i))
        invariant i != 0 ==> heap[Parent(i)] == g[Parent(i)]
        decreases i
      {
        var p := Parent(i);
        MoveHole(heap, indices, i, x, p, g, gi);
        SwapUp(lt, g, i);
        g, gi := Swapped(g, i, p), indices[heap[p] := i][x := p];
        UpIsBoth(lt, g, p);
        heap, indices := heap[i := heap[p]], indices[heap[p] := i];
        i := p;
        FilledAt(heap, indices, i, x, g, gi);
      }
      Risen(lt, g, i);
      FilledAt(heap, indices, i, x, g, gi);
      heap := heap[i := x];
      indices := indices[x := i];
      PositionOf(heap, indices, i);
    }

    /** Let the element at i sink to its place, below positions whose parent is lo or later. */
    method PercolateDown(lt: Order, i0: nat, ghost lo: nat)
      requires StrictWeak(lt) && Valid() && lo <= i0 < |heap| && DownOk(lt, heap, lo, i0)
      modifies this
      ensures Valid() && multiset(heap) == multiset(old(heap)) && |heap| == |old(heap)| && |indices| == |old(indices)|
      ensures OrderedFrom(lt, heap, lo)
    {
      hide StrictWeak, DownOk, Inverse, Filled, OrderedFrom;
      var i := i0;
      var x := heap[i];
      PositionOf(heap, indices, i);
      ghost var g, gi := heap, indices;
      FilledSelf(heap, indices, i);
      NoChildren(g, i);
      while Left(i) < |heap|
        invariant lo <= i < |heap| == |g| == |old(heap)| && x < |indices| == |old(indices)| && g[i] == x
        invariant Filled(heap, indices, i, x, g, gi) && Inverse(g, gi) && multiset(g) == multiset(old(heap))
        invariant DownOk(lt, g, lo, i) && forall j :: 0 <= j < |g| && j != i ==> heap[j] == g[j]
        decreases |heap| - i
      {
        var child := if Right(i) < |heap| && lt(heap[Right(i)], heap[Left(i)]) then Right(i) else Left(i);
        SmallerChild(lt, g, i, child);
        if !lt(heap[child], x) {
          ChildrenAbove(lt, g, i, child);
          break;
        }
        MoveHole(heap, indices, i, x, child, g, gi);
        SwapDown(lt, g, lo, i, child);
        g, gi := Swapped(g, i, child), indices[heap[child] := i][x := child];
        heap := heap[i := heap[child]];
        indices := indices[heap[i] := i];
        i := child;
        FilledAt(heap, indices, i, x, g, gi);
        NoChildren(g, i);
      }
      Sunk(lt, g, lo, i);
      FilledAt(heap, indices, i, x, g, gi);
      heap := heap[i := x];
      indices := indices[x := i];
    }

    /** The keys of n has become smaller. */
    method Decrease(lt: Order, n: nat)
      requires StrictWeak(lt) && Valid() && InHeap(n) && indices[n] < |heap| && UpOk(lt, heap, indices[n])
      modifies this
      ensures Valid() && Ordered(lt, heap) && multiset(heap) == multiset(old(heap))
    {
      hide StrictWeak, UpOk, BothOk, DownOk, Ordered, Inverse;
      UpIsBoth(lt, heap, indices[n]);
      PercolateUp(lt, indices[n]);
    }

    /** The key of n has become larger. */
    method Increase(lt: Order, n: nat)
      requires StrictWeak(lt) && Valid() && InHeap(n) && indices[n] < |heap| && DownOk(lt, heap, 0, indices[n])
      modifies this
      ensures Valid() && Ordered(lt, heap) && multiset(heap) == multiset(old(heap))
    {
      hide StrictWeak, DownOk, OrderedFrom, Inverse;
      PercolateDown(lt, indices[n], 0);
    }

    /** Add a new element. */
    method Insert(lt: Order, n: nat)
      requires StrictWeak(lt) && Valid() && Ordered(lt, heap) && !InHeap(n)
      modifies this
      ensures Valid() && Ordered(lt, heap) && multiset(heap) == multiset(old(heap)) + multiset{n}
      ensures Elements(heap) == Elements(old(heap)) + {n}
    {
      hide StrictWeak, DownOk, Ordered, BothOk, UpOk, Elements;
      indices := indices + seq(if n < |indices| then 0 else n + 1 - |indices|, _ => -1);
      LeafUpOk(lt, heap, n);
      indices := indices[n := |heap|];
      heap := heap + [n];
      UpIsBoth(lt, heap, |heap| - 1);
      PercolateUp(lt, indices[n]);
      ElementsChange(old(heap), heap, n);
    }

    /** The key of n may have changed either way, or n may be new. */
    method Update(lt: Order, n: nat)
      requires StrictWeak(lt) && Valid()
      requires if InHeap(n) then indices[n] < |heap| && BothOk(lt, heap, indices[n]) else Ordered(lt, heap)
      modifies this
      ensures Valid() && Ordered(lt, heap)
      ensures multiset(heap) == multiset(old(heap)) + if old(InHeap(n)) then multiset{} else multiset{n}
    {
      hide StrictWeak, DownOk, OrderedFrom, BothOk, UpOk;
      if !InHeap(n) {
        Insert(lt, n);
      } else {
        PercolateUp(lt, indices[n]);
        PercolateDown(lt, indices[n], 0);
      }
    }

    /** Take out the root, which is a minimum. */
    method RemoveMin(lt: Order) returns (x: nat)
      requires StrictWeak(lt) && Valid() && Ordered(lt, heap) && heap != []
      modifies this
      ensures Valid() && Ordered(lt, heap) && multiset(old(heap)) == multiset(heap) + multiset{x}
      ensures !InHeap(x) && forall k :: 0 <= k < |old(heap)| ==> !lt(old(heap)[k], x)
      ensures Elements(heap) == Elements(old(heap)) - {x}
    {
      hide StrictWeak, DownOk, OrderedFrom, Inverse, LastFirst, Elements;
      RootBelowAll(lt, heap);
      x := heap[0];
      LastToRoot(lt, heap);
      RootTakenOut(heap, indices);
      ghost var before := heap;
      heap := heap[0 := heap[|heap| - 1]];
      indices := indices[heap[0] := 0];
      indices := indices[x := -1];
      heap := heap[..|heap| - 1];
      assert heap == LastFirst(before) by { LastFirstIs(before); }
      if |heap| > 1 {
        PercolateDown(lt, 0, 0);
      }
      GoneFromHeap(before, heap, indices, x);
      ElementsChange(before, heap, x);
    }

    /** Rebuild the heap from the elements of ns, each once. */
    method Build(lt: Order, ns: seq<nat>)
      requires StrictWeak(lt) && Valid() && NoDup(ns) && forall k :: 0 <= k < |ns| ==> ns[k] < |indices|
      modifies this
      ensures Valid() && Ordered(lt, heap) && multiset(heap) == multiset(ns)
    {
      hide StrictWeak, DownOk, OrderedFrom;
      Clear();
      var i := 0;
      while i < |ns|
        invariant i <= |ns| && heap == ns[..i] && |indices| == |old(indices)| && Inverse(heap, indices)
      {
        indices := indices[ns[i] := i];
        heap := heap + [ns[i]];
        i := i + 1;
      }
      assert ns[..|ns|] == ns;
      var j := |heap| / 2 - 1;
      LeavesOrdered(lt, heap);
      while j >= 0
        invariant -1 <= j < |heap| && Valid() && OrderedFrom(lt, heap, j + 1) && multiset(heap) == multiset(ns)
      {
        StartSinking(lt, heap, j);
        PercolateDown(lt, j, j);
        j := j - 1;
      }
    }

    /** Forget all positions and all elements. */
    method Clear()
      requires Valid()
      modifies this
      ensures Valid() && heap == [] && |indices| == |old(indices)|
    {
      var i := 0;
      while i < |heap|
        invariant i <= |heap| && heap == old(heap) && |indices| == |old(indices)|
        invariant forall k :: 0 <= k < i ==> indices[heap[k]] < 0
        invariant forall n :: 0 <= n < |indices| ==> indices[n] == old(indices)[n] || indices[n] < 0
      {
        indices := indices[heap[i] := -1];
        i := i + 1;
      }
      heap := [];
    }
  }

  lemma LeafUpOk(lt: Order, h: seq<nat>, n: nat)
    requires Ordered(lt, h)
    ensures UpOk(lt, h + [n], |h|)
  {
  }

  lemma RootBelowAll(lt: Order, h: seq<nat>)
    requires StrictWeak(lt) && Ordered(lt, h)
    ensures forall k :: 0 <= k < |h| ==> !lt(h[k], h[0])
  {
    forall k | 0 <= k < |h| ensures !lt(h[k], h[0]) {
      RootMinimal(lt, h, k);
    }
  }

  /** The last element takes the place of the root. */
  ghost function LastFirst(h: seq<nat>): seq<nat>
    requires h != []
  {
    h[0 := h[|h| - 1]][..|h| - 1]
  }

  lemma LastFirstIs(h: seq<nat>)
    requires h != []
    ensures LastFirst(h) == h[0 := h[|h| - 1]][..|h| - 1] && |LastFirst(h)| == |h| - 1
  {
  }

  lemma LastToRoot(lt: Order, h: seq<nat>)
    requires h != [] && Ordered(lt, h)
    ensures DownOk(lt, LastFirst(h), 0, 0) && (|LastFirst(h)| <= 1 ==> Ordered(lt, LastFirst(h)))
    ensures multiset(h) == multiset(LastFirst(h)) + multiset{h[0]}
  {
    var last := h[|h| - 1];
    var g := LastFirst(h);
    forall j | 0 < j < |g| && Parent(j) != 0 ensures OkAt(lt, g, j) {
      assert OkAt(lt, h, j);
      Family(Parent(j), j);
    }
    if |h| > 1 {
      assert h == [h[0]] + h[1..|h| - 1] + [last];
      assert g == [last] + h[1..|h| - 1];
    } else {
      assert h == [h[0]] && g == [];
    }
  }

  /** Positions after the root has been taken out; an element alone in the heap is its own successor. */
  lemma RootTakenOut(h: seq<nat>, indices: seq<int>)
    requires h != [] && Inverse(h, indices)
    ensures h[0] < |indices| && h[|h| - 1] < |indices| && NoDup(h)
    ensures Inverse(LastFirst(h), indices[h[|h| - 1] := 0][h[0] := -1])
  {
  }

  lemma GoneFromHeap(h: seq<nat>, g: seq<nat>, indices: seq<int>, x: nat)
    requires Inverse(g, indices) && NoDup(h) && multiset(h) == multiset(g) + multiset{x}
    ensures x !in g && !(x < |indices| && indices[x] >= 0)
  {
    Collections.OnceInMultiset(h, x);
    assert multiset(h)[x] == multiset(g)[x] + 1;
    assert x in g <==> x in multiset(g);
  }

  lemma LeavesOrdered(lt: Order, h: seq<nat>)
    ensures OrderedFrom(lt, h, |h| / 2)
  {
  }

  lemma StartSinking(lt: Order, h: seq<nat>, i: nat)
    requires OrderedFrom(lt, h, i + 1)
    ensures DownOk(lt, h, i, i)
  {
  }

  // ---------- changed keys ----------

  /** The orders agree on all pairs without n. */
  ghost predicate AgreeBut(lt0: Order, lt: Order, n: nat) {
    forall x: nat, y: nat :: x != n && y != n ==> lt0(x, y) == lt(x, y)
  }

  /** A smaller key for n leaves the heap in the state that 'Decrease' starts from. */
  lemma KeyDecreased(lt0: Order, lt: Order, h: seq<nat>, i: nat)
    requires StrictWeak(lt0) && Ordered(lt0, h) && NoDup(h) && i < |h| && AgreeBut(lt0, lt, h[i])
    requires forall y: nat :: lt(y, h[i]) ==> lt0(y, h[i])
    ensures UpOk(lt, h, i)
  {
  }

  /** A larger key for n leaves the heap in the state that 'Increase' starts from. */
  lemma KeyIncreased(lt0: Order, lt: Order, h: seq<nat>, i: nat)
    requires StrictWeak(lt0) && Ordered(lt0, h) && NoDup(h) && i < |h| && AgreeBut(lt0, lt, h[i])
    requires forall y: nat :: lt(h[i], y) ==> lt0(h[i], y)
    ensures DownOk(lt, h, 0, i)
  {
  }

  /** Any other key for n leaves the heap in the state that 'Update' starts from. */
  lemma KeyChanged(lt0: Order, lt: Order, h: seq<nat>, i: nat)
    requires StrictWeak(lt0) && Ordered(lt0, h) && NoDup(h) && i < |h| && AgreeBut(lt0, lt, h[i])
    ensures BothOk(lt, h, i)
  {
    forall c | 0 < c < |h| && Parent(c) == i && i > 0 ensures !lt(h[c], h[Parent(i)]) {
      assert OkAt(lt0, h, i) && OkAt(lt0, h, c);
      Family(i, c);
      Family(Parent(i), i);
    }
    forall j | 0 < j < |h| && j != i && Parent(j) != i ensures OkAt(lt, h, j) {
      assert OkAt(lt0, h, j);
    }
  }
}
