/** Resolution and subsumption of clauses: the loops of the simplifier and what they decide. */
module Resolution {
  import Collections
  import opened Literals

  /** No variable occurs twice: neither a duplicate nor a complementary pair. */
  ghost predicate Distinct(c: seq<Lit>) {
    forall i, j :: 0 <= i < j < |c| ==> c[i].v != c[j].v
  }

  lemma DistinctLits(c: seq<Lit>)
    requires Distinct(c)
    ensures NoDup(c) && forall p, q :: p in c && q in c && p.v == q.v ==> p == q
  {
  }

  // ---------- resolvents ----------

  /** Two clauses have complementary literals on another variable than v. */
  ghost predicate Clash(ps: seq<Lit>, qs: seq<Lit>, v: Var) {
    exists q :: q in qs && q.v != v && Neg(q) in ps
  }

  ghost function ResolventSet(ps: seq<Lit>, qs: seq<Lit>, v: Var): set<Lit> {
    set q | q in ps + qs && q.v != v
  }

  /** out is the resolvent on v, each literal once. */
  ghost predicate IsResolvent(ps: seq<Lit>, qs: seq<Lit>, v: Var, out: seq<Lit>) {
    Distinct(out) && forall q :: q in out <==> q in ResolventSet(ps, qs, v)
  }

  /** The first position of a literal on u, or the length of the clause. */
  method Partner(ps: seq<Lit>, u: Var) returns (j: nat)
    ensures j <= |ps| && (forall i :: 0 <= i < j ==> ps[i].v != u) && (j < |ps| ==> ps[j].v == u)
  {
    j := 0;
    while j < |ps|
      invariant j <= |ps| && forall i :: 0 <= i < j ==> ps[i].v != u
    {
      if ps[j].v == u {
        return;
      }
      j := j + 1;
    }
  }

  lemma ClashSymmetric(ps: seq<Lit>, qs: seq<Lit>, v: Var)
    ensures Clash(ps, qs, v) == Clash(qs, ps, v)
    ensures ResolventSet(ps, qs, v) == ResolventSet(qs, ps, v)
  {
  }

  lemma ResolventSymmetric(ps: seq<Lit>, qs: seq<Lit>, v: Var, out: seq<Lit>)
    ensures IsResolvent(ps, qs, v, out) == IsResolvent(qs, ps, v, out)
  {
  }

  /** What the first loop has collected: literals of a prefix of qs whose variable is not in ps. */
  ghost predicate Collected(ps: seq<Lit>, qs: seq<Lit>, v: Var, i: int, out: seq<Lit>) {
    && 0 <= i <= |qs| && Distinct(out)
    && (forall k :: 0 <= k < i && qs[k].v != v ==> Neg(qs[k]) !in ps && (qs[k] in ps || qs[k] in out))
    && (forall q :: q in out ==> q in qs[..i] && q.v != v && forall k :: 0 <= k < |ps| ==> ps[k].v != q.v)
  }

  lemma CollectStart(ps: seq<Lit>, qs: seq<Lit>, v: Var)
    ensures Collected(ps, qs, v, 0, [])
  {
  }

  lemma CollectSkip(ps: seq<Lit>, qs: seq<Lit>, v: Var, i: nat, out: seq<Lit>)
    requires Collected(ps, qs, v, i, out) && i < |qs| && qs[i].v == v
    ensures Collected(ps, qs, v, i + 1, out)
  {
  }

  lemma CollectMore(ps: seq<Lit>, qs: seq<Lit>, v: Var, i: nat, out: seq<Lit>, j: nat)
    requires Distinct(ps) && Distinct(qs) && Collected(ps, qs, v, i, out) && i < |qs| && qs[i].v != v
    requires j <= |ps| && (forall k :: 0 <= k < j ==> ps[k].v != qs[i].v) && (j < |ps| ==> ps[j].v == qs[i].v)
    ensures j == |ps| ==> Collected(ps, qs, v, i + 1, out + [qs[i]])
    ensures j < |ps| && ps[j] == Neg(qs[i]) ==> Clash(ps, qs, v)
    ensures j < |ps| && ps[j] != Neg(qs[i]) ==> Collected(ps, qs, v, i + 1, out)
  {
  }

  /** The second loop appends the literals of ps other than the one on v. */
  ghost function Others(ps: seq<Lit>, v: Var): seq<Lit> {
    if ps == [] then [] else Others(ps[..|ps| - 1], v) + if ps[|ps| - 1].v == v then [] else [ps[|ps| - 1]]
  }

  lemma SplitLast(ps: seq<Lit>)
    requires ps != []
    ensures forall q :: q in ps <==> q in ps[..|ps| - 1] || q == ps[|ps| - 1]
    ensures Distinct(ps) ==> Distinct(ps[..|ps| - 1]) && forall q :: q in ps[..|ps| - 1] ==> q.v != ps[|ps| - 1].v
  {
  }

  lemma {:induction false} OthersFacts(ps: seq<Lit>, v: Var)
    requires Distinct(ps)
    ensures Distinct(Others(ps, v)) && forall q :: q in Others(ps, v) <==> q in ps && q.v != v
  {
    if ps != [] {
      SplitLast(ps);
      OthersFacts(ps[..|ps| - 1], v);
    }
  }

  lemma {:induction false} OthersLength(ps: seq<Lit>, v: Var)
    requires Distinct(ps)
    ensures |Others(ps, v)| == if exists q :: q in ps && q.v == v then |ps| - 1 else |ps|
  {
    if ps != [] {
      SplitLast(ps);
      OthersLength(ps[..|ps| - 1], v);
    }
  }

  lemma CollectedResolvent(ps: seq<Lit>, qs: seq<Lit>, v: Var, out: seq<Lit>)
    requires Distinct(ps) && Distinct(qs) && Collected(ps, qs, v, |qs|, out)
    ensures !Clash(ps, qs, v) && IsResolvent(ps, qs, v, out + Others(ps, v))
  {
    OthersFacts(ps, v);
    var r := out + Others(ps, v);
    assert qs[..|qs|] == qs;
    forall q | q in qs && q.v != v ensures Neg(q) !in ps && q in r {
      var k :| 0 <= k < |qs| && qs[k] == q;
    }
    forall i, j | 0 <= i < j < |r| ensures r[i].v != r[j].v {
      assert i < |out| ==> r[i] in out;
      assert j >= |out| ==> r[j] in Others(ps, v) && r[j] in ps;
    }
  }

  /** The larger clause first, as both loops arrange it. */
  function ByLength(ps: seq<Lit>, qs: seq<Lit>): (seq<Lit>, seq<Lit>) {
    if |ps| < |qs| then (qs, ps) else (ps, qs)
  }

  /** Build the resolvent; false when it is a tautology. */
  method Merge(ps0: seq<Lit>, qs0: seq<Lit>, v: Var) returns (ok: bool, out: seq<Lit>)
    requires Distinct(ps0) && Distinct(qs0)
    ensures ok <==> !Clash(ps0, qs0, v)
    ensures ok ==> IsResolvent(ps0, qs0, v, out)
  {
    hide Distinct, Collected, Clash, IsResolvent, ResolventSet;
    ClashSymmetric(ps0, qs0, v);
    var (ps, qs) := ByLength(ps0, qs0);
    CollectStart(ps, qs, v);
    out := [];
    var i := 0;
    while i < |qs|
      invariant i <= |qs| && Collected(ps, qs, v, i, out)
    {
      if qs[i].v != v {
        var j := Partner(ps, qs[i].v);
        CollectMore(ps, qs, v, i, out, j);
        if j == |ps| {
          out := out + [qs[i]];
        } else if ps[j] == Neg(qs[i]) {
          return false, out;
        }
      } else {
        CollectSkip(ps, qs, v, i, out);
      }
      i := i + 1;
    }
    CollectedResolvent(ps, qs, v, out);
    ResolventSymmetric(ps, qs, v, out + Others(ps, v));
    ghost var first := out;
    i := 0;
    while i < |ps|
      invariant i <= |ps| && out == first + Others(ps[..i], v)
    {
      assert ps[..i + 1][..i] == ps[..i];
      if ps[i].v != v {
        out := out + [ps[i]];
      }
      i := i + 1;
    }
    assert ps[..|ps|] == ps;
    ok := true;
  }

  /** The size of the resolvent, without building it; false when it is a tautology. */
  method MergeSize(ps0: seq<Lit>, qs0: seq<Lit>, v: Var) returns (ok: bool, size: int)
    requires Distinct(ps0) && Distinct(qs0)
    requires (exists p :: p in ps0 && p.v == v) && (exists q :: q in qs0 && q.v == v)
    ensures ok <==> !Clash(ps0, qs0, v)
    ensures ok ==> size == |ResolventSet(ps0, qs0, v)|
  {
    hide Distinct, Collected, Clash, IsResolvent, ResolventSet;
    ClashSymmetric(ps0, qs0, v);
    var (ps, qs) := ByLength(ps0, qs0);
    CollectStart(ps, qs, v);
    size := |ps| - 1;
    ghost var out := [];
    var i := 0;
    while i < |qs|
      invariant i <= |qs| && Collected(ps, qs, v, i, out) && size == |ps| - 1 + |out|
    {
      if qs[i].v != v {
        var j := Partner(ps, qs[i].v);
        CollectMore(ps, qs, v, i, out, j);
        if j < |ps| {
          if ps[j] == Neg(qs[i]) {
            return false, size;
          }
        } else {
          size := size + 1;
          out := out + [qs[i]];
        }
      } else {
        CollectSkip(ps, qs, v, i, out);
      }
      i := i + 1;
    }
    CollectedResolvent(ps, qs, v, out);
    OthersLength(ps, v);
    ResolventLength(ps, qs, v, out + Others(ps, v));
    ok := true;
  }

  lemma {:induction false} LengthOfSet<T>(s: seq<T>, t: set<T>)
    requires NoDup(s) && forall x :: x in s <==> x in t
    ensures |s| == |t|
  {
    if s == [] {
      assert t == {};
    } else {
      var last := s[|s| - 1];
      assert s == s[..|s| - 1] + [last];
      LengthOfSet(s[..|s| - 1], t - {last});
    }
  }

  /** Both merges agree: every listing of the resolvent has the size computed. */
  lemma ResolventLength(ps: seq<Lit>, qs: seq<Lit>, v: Var, out: seq<Lit>)
    requires IsResolvent(ps, qs, v, out)
    ensures |out| == |ResolventSet(ps, qs, v)|
  {
    DistinctLits(out);
    LengthOfSet(out, ResolventSet(ps, qs, v));
  }

  // ---------- subsumption ----------

  /** The number of the signature bit of a variable: its lowest five bits. A 32-bit mask is the set of its bits. */
  function Bit(v: Var): nat {
    v % 32
  }

  ghost function Abstraction(c: seq<Lit>): set<nat> {
    set k | 0 <= k < |c| :: Bit(c[k].v)
  }

  method CalcAbstraction(c: seq<Lit>) returns (abs: set<nat>)
    ensures abs == Abstraction(c)
  {
    abs := {};
    var i := 0;
    while i < |c|
      invariant i <= |c| && abs == Abstraction(c[..i])
    {
      assert c[..i + 1] == c[..i] + [c[i]];
      abs := abs + {Bit(c[i].v)};
      i := i + 1;
    }
    assert c[..|c|] == c;
  }

  ghost predicate VarsWithin(c: seq<Lit>, d: seq<Lit>) {
    forall q :: q in c ==> q in d || Neg(q) in d
  }

  /** The signature filter never rejects a clause whose variables all occur in the other. */
  lemma AbstractionFilter(c: seq<Lit>, d: seq<Lit>)
    requires VarsWithin(c, d)
    ensures Abstraction(c) - Abstraction(d) == {}
  {
    forall k | 0 <= k < |c| ensures Bit(c[k].v) in Abstraction(d) {
      var q := if c[k] in d then c[k] else Neg(c[k]);
      assert c[k] in c;
      var h :| 0 <= h < |d| && d[h] == q;
      assert Bit(d[h].v) == Bit(c[k].v);
    }
  }

  /** Nor does the length filter. */
  lemma LengthFilter(c: seq<Lit>, d: seq<Lit>)
    requires Distinct(c) && VarsWithin(c, d)
    ensures |c| <= |d|
  {
    var us, ws := set i | 0 <= i < |c| :: c[i].v, set i | 0 <= i < |d| :: d[i].v;
    forall u | u in us ensures u in ws {
      var i :| 0 <= i < |c| && c[i].v == u;
      var q := if c[i] in d then c[i] else Neg(c[i]);
      var k :| 0 <= k < |d| && d[k] == q;
    }
    VarCount(c);
    VarBound(d);
    Collections.SubsetSize(us, ws);
  }

  lemma {:induction false} VarCount(c: seq<Lit>)
    requires Distinct(c)
    ensures |set i | 0 <= i < |c| :: c[i].v| == |c|
  {
    if c != [] {
      var init := c[..|c| - 1];
      VarCount(init);
      assert (set i | 0 <= i < |c| :: c[i].v) == (set i | 0 <= i < |init| :: init[i].v) + {c[|c| - 1].v};
    }
  }

  lemma {:induction false} VarBound(c: seq<Lit>)
    ensures |set i | 0 <= i < |c| :: c[i].v| <= |c|
  {
    if c != [] {
      var init := c[..|c| - 1];
      VarBound(init);
      assert (set i | 0 <= i < |c| :: c[i].v) == (set i | 0 <= i < |init| :: init[i].v) + {c[|c| - 1].v};
    }
  }

  datatype Subsumption = Unrelated | Subsumed | Strengthens(p: Lit)

  ghost predicate Included(c: seq<Lit>, d: seq<Lit>) {
    forall q :: q in c ==> q in d
  }

  /** c is included in d up to the sign of p. */
  ghost predicate IncludedBut(c: seq<Lit>, d: seq<Lit>, p: Lit) {
    p in c && Neg(p) in d && forall q :: q in c && q != p ==> q in d
  }

  /** The literals of c up to i are in d, except for the one flipped. */
  ghost predicate MatchedUpTo(c: seq<Lit>, d: seq<Lit>, i: int, r: Subsumption) {
    && 0 <= i <= |c| && r != Unrelated
    && (r == Subsumed ==> forall k :: 0 <= k < i ==> c[k] in d)
    && (r.Strengthens? ==> r.p in c[..i] && Neg(r.p) in d && forall k :: 0 <= k < i && c[k] != r.p ==> c[k] in d)
  }

  /** Does c subsume d, or does it allow a literal of d to be removed? */
  method Subsumes(c: seq<Lit>, cAbs: set<nat>, d: seq<Lit>, dAbs: set<nat>) returns (r: Subsumption)
    requires Distinct(c) && Distinct(d) && cAbs == Abstraction(c) && dAbs == Abstraction(d)
    ensures r == Subsumed <==> Included(c, d)
    ensures forall p :: r == Strengthens(p) <==> IncludedBut(c, d, p)
  {
    DistinctLits(c);
    DistinctLits(d);
    if |d| < |c| || cAbs - dAbs != {} {
      if VarsWithin(c, d) {
        LengthFilter(c, d);
        AbstractionFilter(c, d);
      }
      assert !VarsWithin(c, d);
      NotWithin(c, d);
      return Unrelated;
    }
    r := Subsumed;
    var i := 0;
    while i < |c|
      invariant MatchedUpTo(c, d, i, r)
    {
      var s := FindLit(c[i], d, r);
      if s == Unrelated {
        NoMatch(c, d, i, r);
        return Unrelated;
      }
      MatchOne(c, d, i, r, s);
      r := s;
      i := i + 1;
    }
    assert c[..|c|] == c;
    MatchedAll(c, d, r);
  }

  /** Search d for q, or, if no literal has been flipped yet, for its negation. */
  method FindLit(q: Lit, d: seq<Lit>, r: Subsumption) returns (s: Subsumption)
    requires Distinct(d) && r != Unrelated
    ensures s == if q in d then r else if r == Subsumed && Neg(q) in d then Strengthens(q) else Unrelated
  {
    DistinctLits(d);
    var j := 0;
    while j < |d|
      invariant j <= |d| && q !in d[..j] && (r == Subsumed ==> Neg(q) !in d[..j])
    {
      if q == d[j] {
        return r;
      } else if r == Subsumed && q == Neg(d[j]) {
        assert Neg(q) == d[j];
        return Strengthens(q);
      }
      assert d[..j + 1] == d[..j] + [d[j]];
      j := j + 1;
    }
    assert d[..|d|] == d;
    return Unrelated;
  }

  lemma NotWithin(c: seq<Lit>, d: seq<Lit>)
    requires !VarsWithin(c, d)
    ensures !Included(c, d) && forall p :: !IncludedBut(c, d, p)
  {
  }

  lemma MatchOne(c: seq<Lit>, d: seq<Lit>, i: nat, r: Subsumption, s: Subsumption)
    requires MatchedUpTo(c, d, i, r) && i < |c| && s != Unrelated
    requires s == if c[i] in d then r else if r == Subsumed && Neg(c[i]) in d then Strengthens(c[i]) else Unrelated
    ensures MatchedUpTo(c, d, i + 1, s)
  {
  }

  lemma NoMatch(c: seq<Lit>, d: seq<Lit>, i: nat, r: Subsumption)
    requires Distinct(c) && Distinct(d) && MatchedUpTo(c, d, i, r) && i < |c|
    requires c[i] !in d && !(r == Subsumed && Neg(c[i]) in d)
    ensures !Included(c, d) && forall p :: !IncludedBut(c, d, p)
  {
    DistinctLits(c);
    DistinctLits(d);
    assert c[i] in c;
    if r.Strengthens? {
      var k :| 0 <= k < i && c[k] == r.p;
      assert c[k] != c[i] && c[k] !in d;
    }
  }

  lemma MatchedAll(c: seq<Lit>, d: seq<Lit>, r: Subsumption)
    requires Distinct(c) && Distinct(d) && MatchedUpTo(c, d, |c|, r)
    ensures r == Subsumed <==> Included(c, d)
    ensures forall p :: r == Strengthens(p) <==> IncludedBut(c, d, p)
  {
    assert c[..|c|] == c;
    DistinctLits(c);
    DistinctLits(d);
    assert forall q :: q in d ==> Neg(q) !in d;
    if r == Subsumed {
      assert Included(c, d);
    } else {
      assert IncludedBut(c, d, r.p);
      assert r.p !in d;
    }
  }
}
