/** Sorting and normalising the literals of a new clause. */
module Normalising {
  import opened Literals
  import opened Assignment
  import Meaning
  import opened Sorting

  /** Neither a true literal nor a complementary pair. */
  ghost predicate Nontrivial(a: Asg, ps: seq<Lit>, i: int) {
    0 <= i <= |ps| && forall k :: 0 <= k < i ==> !IsTrue(a, ps[k]) && Neg(ps[k]) !in ps[..i]
  }

  /** The kept literals of a prefix: its free literals, each once, in the order of their codes. */
  ghost predicate NormalUpTo(a: Asg, ps: seq<Lit>, i: int, c: seq<Lit>) {
    && Nontrivial(a, ps, i)
    && (forall k :: 0 <= k < |c| ==> c[k] in ps[..i] && !IsSet(a, c[k].v))
    && (forall k :: 0 <= k < i ==> ps[k] in c || IsFalse(a, ps[k]))
    && (forall h, k :: 0 <= h < k < |c| ==> Code(c[h]) < Code(c[k]))
  }

  /** What is stored: duplicate-free, over free variables, and equal to the clause up to literals false at level 0. */
  ghost predicate NormalForm(a: Asg, ps: seq<Lit>, c: seq<Lit>) {
    && NoDup(c) && Meaning.NormalOf(ps, c, a)
    && (forall k :: 0 <= k < |c| ==> !IsSet(a, c[k].v) && c[k].v < |a.assigns|)
    && (forall k :: 0 <= k < |c| ==> Neg(c[k]) !in c)
  }

  lemma NormalStart(a: Asg, ps: seq<Lit>)
    ensures NormalUpTo(a, ps, 0, [])
  {
  }

  lemma NormalStop(a: Asg, ps: seq<Lit>, i: nat, c: seq<Lit>)
    requires i < |ps| && NormalUpTo(a, ps, i, c) && (IsTrue(a, ps[i]) || (c != [] && ps[i] == Neg(c[|c| - 1])))
    ensures exists k :: 0 <= k < |ps| && (IsTrue(a, ps[k]) || Neg(ps[k]) in ps)
  {
  }

  lemma KeptInOrder(a: Asg, ps: seq<Lit>, i: nat, c: seq<Lit>)
    requires SortedLits(ps) && i < |ps| && NormalUpTo(a, ps, i, c) && !IsSet(a, ps[i].v)
    requires c != [] ==> ps[i] != c[|c| - 1] && ps[i] != Neg(c[|c| - 1])
    ensures ps[i] !in ps[..i] && Neg(ps[i]) !in ps[..i]
    ensures forall h, k :: 0 <= h < k < |c + [ps[i]]| ==> Code((c + [ps[i]])[h]) < Code((c + [ps[i]])[k])
  {
    if c != [] {
      var last := c[|c| - 1];
      assert last in ps[..i] && Code(last) <= Code(ps[i]);
      if k :| 0 <= k < i && ps[k] == Neg(ps[i]) {
        assert ps[k] in c && Code(ps[k]) <= Code(last);
        NegationAdjacent(ps[i], last);
      }
    }
  }

  lemma NormalKeep(a: Asg, ps: seq<Lit>, i: nat, c: seq<Lit>)
    requires SortedLits(ps) && i < |ps| && NormalUpTo(a, ps, i, c) && !IsTrue(a, ps[i]) && !IsFalse(a, ps[i])
    requires ps[i].v < |a.assigns| && (c != [] ==> ps[i] != c[|c| - 1] && ps[i] != Neg(c[|c| - 1]))
    ensures NormalUpTo(a, ps, i + 1, c + [ps[i]])
  {
    var q, c' := ps[i], c + [ps[i]];
    KeptInOrder(a, ps, i, c);
    assert ps[..i + 1] == ps[..i] + [q];
    forall k | 0 <= k <= i ensures !IsTrue(a, ps[k]) && Neg(ps[k]) !in ps[..i + 1] && (ps[k] in c' || IsFalse(a, ps[k])) {
      assert k < i ==> ps[k] in ps[..i];
    }
  }

  lemma NormalSkip(a: Asg, ps: seq<Lit>, i: nat, c: seq<Lit>)
    requires SortedLits(ps) && i < |ps| && NormalUpTo(a, ps, i, c) && !IsTrue(a, ps[i]) && ps[i].v < |a.assigns|
    requires IsFalse(a, ps[i]) || (c != [] && ps[i] == c[|c| - 1])
    ensures NormalUpTo(a, ps, i + 1, c)
  {
    var q := ps[i];
    assert ps[..i + 1] == ps[..i] + [q];
    forall k | 0 <= k <= i ensures !IsTrue(a, ps[k]) && Neg(ps[k]) !in ps[..i + 1] {
      assert k < i ==> ps[k] in ps[..i];
    }
  }

  lemma NormalEnd(a: Asg, ps: seq<Lit>, c: seq<Lit>)
    requires NormalUpTo(a, ps, |ps|, c) && forall k :: 0 <= k < |ps| ==> ps[k].v < |a.assigns|
    ensures NormalForm(a, ps, c) && !exists k :: 0 <= k < |ps| && (IsTrue(a, ps[k]) || Neg(ps[k]) in ps)
  {
  }

  lemma SameMultiset(ps: seq<Lit>, qs: seq<Lit>)
    requires multiset(ps) == multiset(qs)
    ensures SameElements(ps, qs)
  {
    assert forall x :: x in ps <==> x in multiset(ps);
    assert forall x :: x in qs <==> x in multiset(qs);
  }

  /** What normalisation finds out about the sorted clause holds of the clause as given. */
  lemma SortedSameNormal(a: Asg, ps: seq<Lit>, qs: seq<Lit>, trivial: bool, c: seq<Lit>)
    requires SameElements(ps, qs)
    requires !trivial ==> NormalForm(a, qs, c)
    ensures (exists k :: 0 <= k < |ps| && (IsTrue(a, ps[k]) || Neg(ps[k]) in ps)) <==>
            exists k :: 0 <= k < |qs| && (IsTrue(a, qs[k]) || Neg(qs[k]) in qs)
    ensures !trivial ==> NormalForm(a, ps, c)
  {
    forall x | x in ps && (IsTrue(a, x) || Neg(x) in ps) ensures exists k :: 0 <= k < |qs| && (IsTrue(a, qs[k]) || Neg(qs[k]) in qs) {
      var k :| 0 <= k < |qs| && qs[k] == x;
      assert IsTrue(a, qs[k]) || Neg(qs[k]) in qs;
    }
    forall x | x in qs && (IsTrue(a, x) || Neg(x) in qs) ensures exists k :: 0 <= k < |ps| && (IsTrue(a, ps[k]) || Neg(ps[k]) in ps) {
      var k :| 0 <= k < |ps| && ps[k] == x;
      assert IsTrue(a, ps[k]) || Neg(ps[k]) in ps;
    }
  }

  function LitValue(values: seq<LBool>, p: Lit): LBool
    requires p.v < |values|
  {
    match values[p.v]
    case LUndef => LUndef
    case LTrue => if p.sign then LFalse else LTrue
    case LFalse => if p.sign then LTrue else LFalse
  }

  lemma LitValueMeaning(values: seq<LBool>, a: Asg, p: Lit)
    requires a.assigns == values && p.v < |values|
    ensures LitValue(values, p) == LTrue <==> IsTrue(a, p)
    ensures LitValue(values, p) == LFalse <==> IsFalse(a, p)
  {
  }

  /** One pass over the sorted literals: stop at a true or complementary one, drop false and repeated ones. */
  method Normalise(values: seq<LBool>, ghost a: Asg, ps: seq<Lit>) returns (trivial: bool, c: seq<Lit>)
    requires a.assigns == values && SortedLits(ps) && forall k :: 0 <= k < |ps| ==> ps[k].v < |values|
    ensures trivial <==> exists k :: 0 <= k < |ps| && (IsTrue(a, ps[k]) || Neg(ps[k]) in ps)
    ensures !trivial ==> NormalForm(a, ps, c)
  {
    hide SortedLits, NormalUpTo, LitValue;
    c := [];
    var i := 0;
    assert NormalUpTo(a, ps, 0, []) by { NormalStart(a, ps); }
    while i < |ps|
      invariant 0 <= i <= |ps| && NormalUpTo(a, ps, i, c)
    {
      var q := ps[i];
      LitValueMeaning(values, a, q);
      if LitValue(values, q) == LTrue || (c != [] && q == Neg(c[|c| - 1])) {
        NormalStop(a, ps, i, c);
        return true, c;
      }
      if LitValue(values, q) != LFalse && !(c != [] && q == c[|c| - 1]) {
        NormalKeep(a, ps, i, c);
        c := c + [q];
      } else {
        NormalSkip(a, ps, i, c);
      }
      i := i + 1;
    }
    NormalEnd(a, ps, c);
    trivial := false;
  }

  /** A new clause is trivial exactly when it holds a true or two complementary literals; otherwise its normal form is kept. */
  method SortAndNormalise(values: seq<LBool>, ghost a: Asg, ps: seq<Lit>) returns (trivial: bool, c: seq<Lit>)
    requires a.assigns == values && forall k :: 0 <= k < |ps| ==> ps[k].v < |values|
    ensures trivial <==> exists k :: 0 <= k < |ps| && (IsTrue(a, ps[k]) || Neg(ps[k]) in ps)
    ensures !trivial ==> NormalForm(a, ps, c)
  {
    var qs := SortLits(ps);
    SameMultiset(ps, qs);
    assert forall k :: 0 <= k < |qs| ==> qs[k] in ps;
    trivial, c := Normalise(values, a, qs);
    SortedSameNormal(a, ps, qs, trivial, c);
  }
}
