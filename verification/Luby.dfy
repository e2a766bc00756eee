/** The limits of successive searches: the Luby sequence, or plain powers. */
module LubySequence {

  /** The exponents of the finite subsequence number k: twice the one before, then k. */
  ghost function Finite(k: nat): (s: seq<nat>)
    ensures |s| >= 1 && s[|s| - 1] == k
  {
    if k == 0 then [0] else Finite(k - 1) + Finite(k - 1) + [k]
  }

  lemma FiniteSize(k: nat)
    ensures |Finite(k + 1)| == 2 * |Finite(k)| + 1
  {
  }

  lemma FiniteStart()
    ensures Finite(0) == [0]
  {
  }

  /** Each finite subsequence is a prefix of all later ones, so the sequence is well defined. */
  lemma {:induction false} FinitePrefix(j: nat, k: nat, x: nat)
    requires j <= k && x < |Finite(j)|
    ensures x < |Finite(k)| && Finite(k)[x] == Finite(j)[x]
    decreases k - j
  {
    if j < k {
      FinitePrefix(j, k - 1, x);
    }
  }

  lemma SameEverywhere(j: nat, x: nat)
    requires x < |Finite(j)|
    ensures forall k :: 0 <= k && x < |Finite(k)| ==> Finite(k)[x] == Finite(j)[x]
  {
    forall k | 0 <= k && x < |Finite(k)| ensures Finite(k)[x] == Finite(j)[x] {
      if k <= j {
        FinitePrefix(k, j, x);
      } else {
        FinitePrefix(j, k, x);
      }
    }
  }

  lemma Doubled(f: seq<nat>, k: nat, x: nat)
    requires x < 2 * |f|
    ensures (f + f + [k])[x] == f[x % |f|]
  {
  }

  /** Within a finite subsequence that does not end at x, x repeats an element of the one before. */
  lemma Repeats(k: nat, x: nat)
    requires k > 0 && x < |Finite(k)| - 1
    ensures Finite(k)[x] == Finite(k - 1)[x % |Finite(k - 1)|]
  {
    Doubled(Finite(k - 1), k, x);
  }

  /** The exponent at index x: find a subsequence that contains x, then descend to the one that ends there. */
  method LubyExponent(x0: nat) returns (exponent: nat)
    ensures forall k :: 0 <= k && x0 < |Finite(k)| ==> exponent == Finite(k)[x0]
  {
    hide Finite;
    var size: nat, n: nat := 1, 0;
    FiniteStart();
    while size < x0 + 1
      invariant size == |Finite(n)| >= n + 1
      decreases x0 + 1 - size
    {
      FiniteSize(n);
      n := n + 1;
      size := 2 * size + 1;
    }
    var x: nat := x0;
    ghost var top: nat := n;
    while size - 1 != x
      invariant x < size == |Finite(n)| && x0 < |Finite(top)| && Finite(n)[x] == Finite(top)[x0]
      decreases n
    {
      FiniteStart();
      FiniteSize(n - 1);
      Repeats(n, x);
      size := (size - 1) / 2;
      n := n - 1;
      x := x % size;
    }
    exponent := n;
    SameEverywhere(top, x0);
  }

  // ---------- limits ----------

  function RealPower(y: real, k: nat): real {
    if k == 0 then 1.0 else RealPower(y, k - 1) * y
  }

  lemma {:induction false} Bernoulli(y: real, k: nat)
    requires y > 1.0
    ensures RealPower(y, k) >= 1.0 + k as real * (y - 1.0)
  {
    if k > 0 {
      Bernoulli(y, k - 1);
      var p, d := RealPower(y, k - 1), y - 1.0;
      assert RealPower(y, k) == p + p * d;
      OneAtLeast(p, d);
      assert (k - 1) as real * d + d == k as real * d;
    }
  }

  lemma OneAtLeast(p: real, d: real)
    requires d > 0.0 && p >= 1.0
    ensures p * d >= d
  {
  }

  /** Powers outgrow every bound. */
  lemma PowersGrow(y: real, first: int, bound: nat) returns (k: nat)
    requires y > 1.0 && first >= 1
    ensures (RealPower(y, k) * first as real).Floor >= bound
  {
    var d := y - 1.0;
    k := (bound as real / d).Floor + 1;
    assert k as real >= bound as real / d;
    QuotientBelow(k as real, bound as real, d);
    Bernoulli(y, k);
    var p := RealPower(y, k);
    assert p >= bound as real;
    ProductAtLeast(p, first as real);
  }

  lemma QuotientBelow(k: real, b: real, d: real)
    requires d > 0.0 && k >= b / d
    ensures k * d >= b
  {
    assert b / d * d == b;
  }

  lemma ProductAtLeast(p: real, f: real)
    requires p >= 0.0 && f >= 1.0
    ensures p * f >= p
  {
  }

  lemma {:induction false} FiniteLong(k: nat)
    ensures |Finite(k)| > k
  {
    if k > 0 {
      FiniteLong(k - 1);
    }
  }

  /** The exponent at an index, which any long enough finite subsequence shows. */
  ghost function Exponent(luby: bool, x: nat): nat {
    FiniteLong(x);
    if luby then Finite(x)[x] else x
  }

  /** The number of conflicts allowed before restart number x. */
  ghost function LimitAt(luby: bool, y: real, first: int, x: nat): int {
    (RealPower(y, Exponent(luby, x)) * first as real).Floor
  }

  /** Some restart allows as many conflicts as wanted. */
  lemma LimitsGrow(luby: bool, y: real, first: int, bound: nat) returns (x: nat)
    requires y > 1.0 && first >= 1
    ensures LimitAt(luby, y, first, x) >= bound
  {
    var k := PowersGrow(y, first, bound);
    if luby {
      x := |Finite(k)| - 1;
      FiniteLong(x);
      SameEverywhere(k, x);
    } else {
      x := k;
    }
  }

  method Luby(y: real, x: nat) returns (r: real)
    ensures r == RealPower(y, Exponent(true, x))
  {
    var exponent := LubyExponent(x);
    FiniteLong(x);
    r := RealPower(y, exponent);
  }
}
