/** Valuations of variable lists, the clauses that block them, and histograms over them. */
module Projection {
  import Collections
  import opened Literals

  type Bits = seq<bool>

  datatype Bucket = Bucket(size: nat, closed: bool)

  // ---------- valuations ----------

  /** The total assignment in which exactly the variables with value true are true. */
  ghost function AsModel(values: seq<LBool>): Model {
    iset v: Var | v < |values| && values[v] == LTrue
  }

  ghost function Value(m: Model, vs: seq<Var>): (x: Bits)
    ensures |x| == |vs|
  {
    seq(|vs|, i requires 0 <= i < |vs| => vs[i] in m)
  }

  /** The cube that fixes a valuation. */
  function Fixing(vs: seq<Var>, x: Bits): seq<Lit>
    requires |vs| == |x|
  {
    seq(|vs|, i requires 0 <= i < |vs| => Lit(vs[i], !x[i]))
  }

  /** The clause that blocks a valuation. */
  function Blocking(vs: seq<Var>, x: Bits): seq<Lit>
    requires |vs| == |x|
  {
    seq(|vs|, i requires 0 <= i < |vs| => Lit(vs[i], x[i]))
  }

  ghost predicate HoldAll(m: Model, ps: seq<Lit>) {
    forall i :: 0 <= i < |ps| ==> Holds(m, ps[i])
  }

  lemma FixingMeaning(m: Model, vs: seq<Var>, x: Bits)
    requires |vs| == |x|
    ensures HoldAll(m, Fixing(vs, x)) <==> Value(m, vs) == x
  {
    assert forall i :: 0 <= i < |vs| ==> (Holds(m, Fixing(vs, x)[i]) <==> Value(m, vs)[i] == x[i]);
  }

  lemma BlockingMeaning(m: Model, vs: seq<Var>, x: Bits)
    requires |vs| == |x|
    ensures Sat(m, Blocking(vs, x)) <==> Value(m, vs) != x
  {
    var c := Blocking(vs, x);
    assert forall i :: 0 <= i < |vs| ==> (Holds(m, c[i]) <==> Value(m, vs)[i] != x[i]);
    if Value(m, vs) != x {
      var i :| 0 <= i < |vs| && Value(m, vs)[i] != x[i];
      assert c[i] in c;
    }
  }

  /** The number a valuation stands for, lowest bit first. */
  function Index(x: Bits): nat {
    if x == [] then 0 else (if x[0] then 1 else 0) + 2 * Index(x[1..])
  }

  function Pow2(n: nat): (p: nat)
    ensures p >= 1
  {
    if n == 0 then 1 else 2 * Pow2(n - 1)
  }

  /** The number of valuations of n variables; zero for none. */
  function SpaceSize(n: nat): nat {
    if n == 0 then 0 else Pow2(n)
  }

  lemma {:induction false} IndexBound(x: Bits)
    ensures Index(x) < Pow2(|x|)
  {
    if x != [] {
      IndexBound(x[1..]);
    }
  }

  /** Bit i of a number, bit 0 being the lowest. */
  function BitAt(value: nat, i: nat): bool {
    (value / Pow2(i)) % 2 == 1
  }

  lemma HalfOfQuotient(b: nat, n: nat, p: nat)
    requires b < 2 && p >= 1
    ensures (b + 2 * n) / (2 * p) == n / p
  {
    var q, r := n / p, n % p;
    assert n == p * q + r;
    assert b + 2 * n == (2 * p) * q + (b + 2 * r) && b + 2 * r < 2 * p;
    QuotientIs(b + 2 * n, 2 * p, q, b + 2 * r);
  }

  lemma TimesGrows(d: nat, q: int, q': int)
    requires q < q'
    ensures d * q + d <= d * q'
  {
    var k := q' - q - 1;
    assert d * q' == d * q + d + d * k by { assert q' == q + 1 + k; }
  }

  lemma QuotientIs(x: nat, d: nat, q: nat, r: nat)
    requires x == d * q + r && r < d
    ensures x / d == q
  {
    var q0 := x / d;
    assert x == d * q0 + x % d;
    if q < q0 {
      TimesGrows(d, q, q0);
    } else if q0 < q {
      TimesGrows(d, q0, q);
    }
  }

  /** Variable i of the valuation is bit i of its number. */
  lemma {:induction false} IndexBits(x: Bits, i: nat)
    requires i < |x|
    ensures BitAt(Index(x), i) <==> x[i]
  {
    if i > 0 {
      IndexBits(x[1..], i - 1);
      HalfOfQuotient(if x[0] then 1 else 0, Index(x[1..]), Pow2(i - 1));
    }
  }

  /** Different valuations have different numbers, so they fall into different buckets. */
  lemma {:induction false} IndexInjective(x: Bits, y: Bits)
    requires |x| == |y| && Index(x) == Index(y)
    ensures x == y
  {
    if x != [] {
      IndexInjective(x[1..], y[1..]);
      assert x == [x[0]] + x[1..] && y == [y[0]] + y[1..];
    }
  }

  ghost function WithFirst(b: bool, s: set<Bits>): set<Bits> {
    set x | x in s :: [b] + x
  }

  lemma WithFirstMember(b: bool, s: set<Bits>, y: Bits)
    ensures y in WithFirst(b, s) <==> y != [] && y[0] == b && y[1..] in s
  {
    if y != [] && y[0] == b && y[1..] in s {
      assert y == [b] + y[1..];
    }
    if y in WithFirst(b, s) {
      var x :| x in s && y == [b] + x;
      assert y[1..] == x;
    }
  }

  lemma {:induction false} WithFirstSize(b: bool, s: set<Bits>)
    ensures |WithFirst(b, s)| == |s|
    decreases |s|
  {
    if s == {} {
      assert WithFirst(b, s) == {};
    } else {
      var y :| y in s;
      var rest := WithFirst(b, s - {y});
      WithFirstSize(b, s - {y});
      WithFirstMember(b, s - {y}, [b] + y);
      assert ([b] + y)[1..] == y;
      assert WithFirst(b, s) == rest + {[b] + y};
    }
  }

  ghost function AllBits(n: nat): set<Bits> {
    if n == 0 then {[]} else WithFirst(false, AllBits(n - 1)) + WithFirst(true, AllBits(n - 1))
  }

  lemma {:induction false} AllBitsMember(n: nat, x: Bits)
    ensures x in AllBits(n) <==> |x| == n
  {
    if n > 0 {
      WithFirstMember(false, AllBits(n - 1), x);
      WithFirstMember(true, AllBits(n - 1), x);
      if x != [] {
        AllBitsMember(n - 1, x[1..]);
      }
    }
  }

  lemma {:induction false} AllBitsSize(n: nat)
    ensures |AllBits(n)| == Pow2(n)
  {
    if n > 0 {
      var prev := AllBits(n - 1);
      AllBitsSize(n - 1);
      WithFirstSize(false, prev);
      WithFirstSize(true, prev);
      forall x | x in WithFirst(false, prev) ensures x !in WithFirst(true, prev) {
        WithFirstMember(false, prev, x);
        WithFirstMember(true, prev, x);
      }
      assert WithFirst(false, prev) !! WithFirst(true, prev);
    }
  }

  // ---------- what a formula relates ----------

  /** Some model of the formula has these inputs and outputs. */
  ghost predicate Relates(f: seq<seq<Lit>>, ins: seq<Var>, outs: seq<Var>, x: Bits, o: Bits) {
    exists m: Model :: SatAll(m, f) && Value(m, ins) == x && Value(m, outs) == o
  }

  /** The inputs determine the output. */
  ghost predicate Functional(f: seq<seq<Lit>>, ins: seq<Var>, outs: seq<Var>) {
    forall x: Bits, o: Bits, p: Bits :: Relates(f, ins, outs, x, o) && Relates(f, ins, outs, x, p) ==> o == p
  }

  ghost predicate Extendable(f: seq<seq<Lit>>, ins: seq<Var>, x: Bits) {
    exists m: Model :: SatAll(m, f) && Value(m, ins) == x
  }

  ghost function Preimages(f: seq<seq<Lit>>, ins: seq<Var>, outs: seq<Var>, o: Bits): set<Bits> {
    set x | x in AllBits(|ins|) && Relates(f, ins, outs, x, o)
  }

  // ---------- counted inputs ----------

  /** The inputs counted so far, each with the output it was counted under. */
  type Tally = map<Bits, Bits>

  ghost function CountedUnder(t: Tally, o: Bits): set<Bits> {
    set x | x in t && t[x] == o
  }

  ghost function CountOf(t: Tally, o: Bits): nat {
    |CountedUnder(t, o)|
  }

  lemma CountMore(t: Tally, x: Bits, o: Bits, p: Bits)
    requires x !in t
    ensures CountOf(t[x := o], p) == CountOf(t, p) + if p == o then 1 else 0
  {
    if p == o {
      assert CountedUnder(t[x := o], p) == CountedUnder(t, p) + {x};
    } else {
      assert CountedUnder(t[x := o], p) == CountedUnder(t, p);
    }
  }

  /** Every counted input and its output belong to a model. */
  ghost predicate Genuine(f: seq<seq<Lit>>, ins: seq<Var>, outs: seq<Var>, t: Tally) {
    forall x :: x in t ==> Relates(f, ins, outs, x, t[x])
  }

  /** Every input of a model has been counted. */
  ghost predicate Exhausted(f: seq<seq<Lit>>, ins: seq<Var>, t: Tally) {
    forall m: Model :: SatAll(m, f) ==> Value(m, ins) in t
  }

  /** On exhaustion each input that extends to a model has been counted exactly once, and no other. */
  lemma ExhaustedInputs(f: seq<seq<Lit>>, ins: seq<Var>, outs: seq<Var>, t: Tally)
    requires Genuine(f, ins, outs, t) && Exhausted(f, ins, t)
    ensures forall x: Bits :: x in t <==> Extendable(f, ins, x)
  {
  }

  /** If moreover the inputs determine the output, each output has exactly its number of pre-images. */
  lemma ExhaustedCounts(f: seq<seq<Lit>>, ins: seq<Var>, outs: seq<Var>, t: Tally, o: Bits)
    requires Genuine(f, ins, outs, t) && Exhausted(f, ins, t) && Functional(f, ins, outs)
    ensures CountOf(t, o) == |Preimages(f, ins, outs, o)|
  {
    var s := CountedUnder(t, o);
    forall x: Bits ensures x in s <==> x in Preimages(f, ins, outs, o) {
      if x in s {
        assert Relates(f, ins, outs, x, t[x]);
        var m: Model :| SatAll(m, f) && Value(m, ins) == x && Value(m, outs) == t[x];
      }
      if x in Preimages(f, ins, outs, o) {
        var m: Model :| SatAll(m, f) && Value(m, ins) == x && Value(m, outs) == o;
        assert x in t && Relates(f, ins, outs, x, t[x]);
      }
      AllBitsMember(|ins|, x);
    }
    assert s == Preimages(f, ins, outs, o);
  }

  /** There are never more counted inputs than valuations of the input variables. */
  lemma TallyBound(f: seq<seq<Lit>>, ins: seq<Var>, outs: seq<Var>, t: Tally)
    requires Genuine(f, ins, outs, t)
    ensures |t| <= Pow2(|ins|)
  {
    AllBitsSize(|ins|);
    forall x | x in t.Keys ensures x in AllBits(|ins|) {
      AllBitsMember(|ins|, x);
      assert Relates(f, ins, outs, x, t[x]);
      var m: Model :| SatAll(m, f) && Value(m, ins) == x && Value(m, outs) == t[x];
    }
    Collections.SubsetSize(t.Keys, AllBits(|ins|));
  }

  // ---------- buckets indexed by output ----------

  ghost function SumSizes(b: seq<Bucket>): nat {
    if b == [] then 0 else SumSizes(b[..|b| - 1]) + b[|b| - 1].size
  }

  lemma {:induction false} SumUpdate(b: seq<Bucket>, i: nat, c: Bucket)
    requires i < |b|
    ensures SumSizes(b[i := c]) == SumSizes(b) - b[i].size + c.size
  {
    if i == |b| - 1 {
      assert b[i := c][..i] == b[..i];
    } else {
      assert b[i := c][..|b| - 1] == b[..|b| - 1][i := c];
      SumUpdate(b[..|b| - 1], i, c);
    }
  }

  lemma {:induction false} SumZero(b: seq<Bucket>)
    requires forall i :: 0 <= i < |b| ==> b[i].size == 0
    ensures SumSizes(b) == 0
  {
    if b != [] {
      SumZero(b[..|b| - 1]);
    }
  }

  /** The bucket of each output holds the number of inputs counted under it, and the sizes add up. */
  ghost predicate Booked(b: seq<Bucket>, k: nat, t: Tally) {
    && |b| == Pow2(k) && SumSizes(b) == |t|
    && (forall o: Bits :: |o| == k ==> Index(o) < |b| && b[Index(o)].size == CountOf(t, o))
  }

  lemma BookNone(b: seq<Bucket>, k: nat)
    requires |b| == Pow2(k) && forall i :: 0 <= i < |b| ==> b[i].size == 0
    ensures Booked(b, k, map[])
  {
    SumZero(b);
    forall o: Bits | |o| == k ensures Index(o) < |b| && CountOf(map[], o) == 0 {
      IndexBound(o);
      assert CountedUnder(map[], o) == {};
    }
  }

  lemma BookedRange(b: seq<Bucket>, k: nat, t: Tally, o: Bits)
    requires Booked(b, k, t) && |o| == k
    ensures Index(o) < |b|
  {
  }

  lemma BookOne(b: seq<Bucket>, k: nat, t: Tally, x: Bits, o: Bits, c: Bucket)
    requires Booked(b, k, t) && x !in t && |o| == k && Index(o) < |b| && c.size == b[Index(o)].size + 1
    ensures Booked(b[Index(o) := c], k, t[x := o])
  {
    SumUpdate(b, Index(o), c);
    var b' := b[Index(o) := c];
    assert t[x := o].Keys == t.Keys + {x};
    forall p: Bits | |p| == k ensures Index(p) < |b'| && b'[Index(p)].size == CountOf(t[x := o], p) {
      CountMore(t, x, o, p);
      if Index(p) == Index(o) {
        IndexInjective(p, o);
      }
    }
  }
}
