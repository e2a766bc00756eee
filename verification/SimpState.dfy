/** The simplifier's state at level 0, what it means, and what each change of it keeps. */
module SimpState {
  import Collections
  import opened Literals
  import opened Assignment
  import Normalising
  import opened Resolution

  import opened Meaning
  import Projection

  ghost predicate Good(elim: seq<bool>, c: Clause) {
    && |c.lits| >= 2 && Distinct(c.lits) && !c.learnt
    && forall k :: 0 <= k < |c.lits| ==> c.lits[k].v < |elim| && !elim[c.lits[k].v]
  }

  /** Live clauses are well formed and mention no eliminated variable. */
  ghost predicate DbGood(elim: seq<bool>, ca: seq<Clause>) {
    forall r :: 0 <= r < |ca| && !ca[r].deleted ==> Good(elim, ca[r])
  }

  /** The trail lists the assigned literals, each variable once; eliminated variables are not assigned. */
  ghost predicate TrailGood(elim: seq<bool>, values: seq<LBool>, trail: seq<Lit>) {
    && |elim| == |values|
    && (forall i :: 0 <= i < |trail| ==> trail[i].v < |values| && values[trail[i].v] == ValueOf(trail[i].sign))
    && (forall i, j :: 0 <= i < j < |trail| ==> trail[i].v != trail[j].v)
    && (forall v :: 0 <= v < |values| && values[v] != LUndef ==> !elim[v] && Lit(v, values[v] == LFalse) in trail)
  }

  /** The signatures kept with the live clauses. */
  ghost predicate AbsGood(ca: seq<Clause>, abs: seq<set<nat>>) {
    |abs| == |ca| && forall r :: 0 <= r < |ca| && !ca[r].deleted ==> abs[r] == Abstraction(ca[r].lits)
  }

  ghost predicate Mentioned(c: seq<Lit>, v: Var) {
    exists k :: 0 <= k < |c| && c[k].v == v
  }

  ghost predicate OccList(ca: seq<Clause>, v: Var, cs: seq<CRef>, clean: bool) {
    && NoDup(cs)
    && forall i :: 0 <= i < |cs| ==> cs[i] < |ca| && if ca[cs[i]].deleted then !clean else Mentioned(ca[cs[i]].lits, v)
  }

  /** The list of a variable holds the live clauses that mention it, and gone ones only if it is dirty. */
  ghost predicate OccGood(n: nat, ca: seq<Clause>, occurs: seq<seq<CRef>>, dirty: set<Var>) {
    && |occurs| == n
    && (forall v :: 0 <= v < n ==> OccList(ca, v, occurs[v], v !in dirty))
    && (forall r, k :: 0 <= r < |ca| && !ca[r].deleted && 0 <= k < |ca[r].lits| && ca[r].lits[k].v < n ==> r in occurs[ca[r].lits[k].v])
  }

  // ---------- meaning ----------

  /** The models of the clauses and the top-level trail. */
  ghost predicate Now(m: Model, ca: seq<Clause>, trail: seq<Lit>) {
    SatDb(m, ca) && Projection.HoldAll(m, trail)
  }

  ghost predicate Equivalent(ca: seq<Clause>, trail: seq<Lit>, ca': seq<Clause>, trail': seq<Lit>) {
    forall m: Model :: Now(m, ca, trail) <==> Now(m, ca', trail')
  }

  ghost predicate Contradictory(ca: seq<Clause>, trail: seq<Lit>) {
    forall m: Model :: !Now(m, ca, trail)
  }

  /** The clauses and the trail together force c. */
  ghost predicate Forced(ca: seq<Clause>, trail: seq<Lit>, c: seq<Lit>) {
    forall m: Model :: Now(m, ca, trail) ==> Sat(m, c)
  }

  lemma HoldMore(m: Model, trail: seq<Lit>, q: Lit)
    ensures Projection.HoldAll(m, trail + [q]) <==> Projection.HoldAll(m, trail) && Holds(m, q)
  {
    assert (trail + [q])[|trail|] == q;
    assert forall i :: 0 <= i < |trail| ==> (trail + [q])[i] == trail[i];
  }

  // ---------- propagation ----------

  lemma SameAbstraction(c: seq<Lit>, d: seq<Lit>)
    requires SameElements(c, d)
    ensures Abstraction(c) == Abstraction(d)
  {
    AbstractionFilter(c, d);
    AbstractionFilter(d, c);
  }

  lemma SameMeans(c: Clause, d: Clause, elim: seq<bool>)
    requires SameClause(c, d)
    ensures SameElements(c.lits, d.lits) && (Good(elim, c) ==> Good(elim, d))
    ensures forall m: Model :: Sat(m, c.lits) == Sat(m, d.lits)
    ensures forall v: Var :: Mentioned(c.lits, v) == Mentioned(d.lits, v)
  {
    Normalising.SameMultiset(c.lits, d.lits);
    forall m: Model ensures Sat(m, c.lits) == Sat(m, d.lits) {
      SatSameElements(m, c.lits, d.lits);
    }
    SameMentions(c.lits, d.lits);
    SameMentions(d.lits, c.lits);
    if Good(elim, c) {
      PermutedDistinct(c.lits, d.lits);
      forall k | 0 <= k < |d.lits| ensures d.lits[k].v < |elim| && !elim[d.lits[k].v] {
        assert d.lits[k] in c.lits;
      }
    }
  }

  lemma SameMentions(c: seq<Lit>, d: seq<Lit>)
    requires SameElements(c, d)
    ensures forall v: Var :: Mentioned(c, v) ==> Mentioned(d, v)
  {
    forall v: Var | Mentioned(c, v) ensures Mentioned(d, v) {
      var k :| 0 <= k < |c| && c[k].v == v;
      assert c[k] in d;
    }
  }

  lemma PermutedDistinct(c: seq<Lit>, d: seq<Lit>)
    requires Distinct(c) && multiset(c) == multiset(d)
    ensures Distinct(d)
  {
    forall i, j | 0 <= i < j < |d| ensures d[i].v != d[j].v {
      if d[i].v == d[j].v {
        assert d[i] in multiset(c) && d[j] in multiset(c);
        DistinctLits(c);
        assert d[i] == d[j];
        TwiceInMultiset(d, i, j);
        Collections.OnceInMultiset(c, d[i]);
      }
    }
  }

  lemma TwiceInMultiset<T>(s: seq<T>, i: nat, j: nat)
    requires i < j < |s| && s[i] == s[j]
    ensures multiset(s)[s[i]] >= 2
  {
    assert s == s[..j] + [s[j]] + s[j + 1..];
    assert s[..j][i] == s[i];
  }

  lemma ReworkedAbs(ca: seq<Clause>, ca': seq<Clause>, abs: seq<set<nat>>)
    requires Reworked(ca, ca') && AbsGood(ca, abs)
    ensures AbsGood(ca', abs)
  {
    forall r | 0 <= r < |ca'| && !ca'[r].deleted ensures abs[r] == Abstraction(ca'[r].lits) {
      Normalising.SameMultiset(ca[r].lits, ca'[r].lits);
      SameAbstraction(ca[r].lits, ca'[r].lits);
    }
  }

  lemma ReworkedKeeps(elim: seq<bool>, ca: seq<Clause>, ca': seq<Clause>, occurs: seq<seq<CRef>>, dirty: set<Var>)
    requires Reworked(ca, ca')
    ensures DbGood(elim, ca) ==> DbGood(elim, ca')
    ensures OccGood(|elim|, ca, occurs, dirty) ==> OccGood(|elim|, ca', occurs, dirty)
    ensures forall m: Model :: SatDb(m, ca) <==> SatDb(m, ca')
  {
    forall r | 0 <= r < |ca|
      ensures SameElements(ca[r].lits, ca'[r].lits) && (Good(elim, ca[r]) ==> Good(elim, ca'[r]))
      ensures ca[r].deleted == ca'[r].deleted
      ensures forall m: Model :: Sat(m, ca[r].lits) == Sat(m, ca'[r].lits)
      ensures forall v: Var :: Mentioned(ca[r].lits, v) == Mentioned(ca'[r].lits, v)
    {
      SameMeans(ca[r], ca'[r], elim);
    }
    if OccGood(|elim|, ca, occurs, dirty) {
      ReworkedOcc(|elim|, ca, ca', occurs, dirty);
    }
  }

  lemma ReworkedOcc(n: nat, ca: seq<Clause>, ca': seq<Clause>, occurs: seq<seq<CRef>>, dirty: set<Var>)
    requires OccGood(n, ca, occurs, dirty) && |ca| == |ca'|
    requires forall r :: 0 <= r < |ca| ==> ca[r].deleted == ca'[r].deleted && SameElements(ca[r].lits, ca'[r].lits)
    requires forall r, v: Var :: 0 <= r < |ca| ==> Mentioned(ca[r].lits, v) == Mentioned(ca'[r].lits, v)
    ensures OccGood(n, ca', occurs, dirty)
  {
    forall v | 0 <= v < n ensures OccList(ca', v, occurs[v], v !in dirty) {
      assert OccList(ca, v, occurs[v], v !in dirty);
    }
    forall r, k | 0 <= r < |ca'| && !ca'[r].deleted && 0 <= k < |ca'[r].lits| && ca'[r].lits[k].v < n
      ensures r in occurs[ca'[r].lits[k].v]
    {
      assert ca'[r].lits[k] in ca[r].lits;
    }
  }

  // ---------- measuring ----------

  ghost function Weight(c: Clause): nat {
    if c.deleted then 0 else |c.lits|
  }

  ghost function TotalLits(ca: seq<Clause>): nat {
    if ca == [] then 0 else TotalLits(ca[..|ca| - 1]) + Weight(ca[|ca| - 1])
  }

  lemma {:induction false} TotalUpdate(ca: seq<Clause>, r: nat, c: Clause)
    requires r < |ca|
    ensures TotalLits(ca[r := c]) == TotalLits(ca) - Weight(ca[r]) + Weight(c)
  {
    if r == |ca| - 1 {
      assert ca[r := c][..r] == ca[..r];
    } else {
      var init := ca[..|ca| - 1];
      assert ca[r := c][..|ca| - 1] == init[r := c];
      TotalUpdate(init, r, c);
    }
  }

  lemma {:induction false} TotalReworked(ca: seq<Clause>, ca': seq<Clause>)
    requires Reworked(ca, ca')
    ensures TotalLits(ca) == TotalLits(ca')
  {
    if ca != [] {
      TotalReworked(ca[..|ca| - 1], ca'[..|ca| - 1]);
      assert SameClause(ca[|ca| - 1], ca'[|ca| - 1]);
    }
  }

  // ---------- removing and strengthening ----------

  ghost function VarSet(c: seq<Lit>): set<Var> {
    set k | 0 <= k < |c| :: c[k].v
  }

  lemma RemovalKeepsOcc(n: nat, ca: seq<Clause>, occurs: seq<seq<CRef>>, dirty: set<Var>, r: CRef)
    requires OccGood(n, ca, occurs, dirty) && r < |ca| && !ca[r].deleted
    ensures OccGood(n, Deleted(ca, r), occurs, dirty + VarSet(ca[r].lits))
  {
  }

  lemma RemovalKeepsDb(elim: seq<bool>, ca: seq<Clause>, r: CRef)
    requires DbGood(elim, ca) && r < |ca| && !ca[r].deleted
    ensures DbGood(elim, Deleted(ca, r)) && TotalLits(Deleted(ca, r)) < TotalLits(ca)
  {
    assert Good(elim, ca[r]);
    TotalUpdate(ca, r, ca[r].(deleted := true));
  }

  lemma RemovedMeaning(m: Model, ca: seq<Clause>, r: CRef)
    requires r < |ca| && !ca[r].deleted
    ensures SatDb(m, ca) <==> SatDb(m, Deleted(ca, r)) && Sat(m, ca[r].lits)
  {
    var ca' := Deleted(ca, r);
    if SatDb(m, ca') && Sat(m, ca[r].lits) {
      forall x | 0 <= x < |ca| && !ca[x].deleted ensures Sat(m, ca[x].lits) {
        assert x != r ==> ca'[x] == ca[x];
      }
    }
  }

  /** A subsumed clause may be removed. */
  lemma RemoveSubsumed(ca: seq<Clause>, trail: seq<Lit>, r: CRef, c: seq<Lit>)
    requires r < |ca| && !ca[r].deleted && Included(c, ca[r].lits) && Forced(Deleted(ca, r), trail, c)
    ensures Equivalent(ca, trail, Deleted(ca, r), trail)
  {
    forall m: Model ensures Now(m, ca, trail) <==> Now(m, Deleted(ca, r), trail) {
      RemovedMeaning(m, ca, r);
      if Now(m, Deleted(ca, r), trail) {
        assert Sat(m, c);
      }
    }
  }

  /** The clause without one of its literals. */
  ghost predicate Without<T>(s: seq<T>, x: T, t: seq<T>) {
    exists j :: 0 <= j < |s| && CutAt(s, j, x, t)
  }

  ghost predicate CutAt<T>(s: seq<T>, j: int, x: T, t: seq<T>) {
    0 <= j < |s| && s[j] == x && t == s[..j] + s[j + 1..]
  }

  lemma WithoutFacts<T>(s: seq<T>, x: T, t: seq<T>)
    requires NoDup(s) && Without(s, x, t)
    ensures |t| == |s| - 1 && NoDup(t) && forall y :: y in t <==> y in s && y != x
  {
  }

  /** The literal l of clause r is superfluous: without it the clause still follows. */
  ghost predicate Superfluous(ca: seq<Clause>, trail: seq<Lit>, r: CRef, l: Lit)
    requires r < |ca|
  {
    forall m: Model :: Now(m, ca, trail) ==> exists q :: q in ca[r].lits && q != l && Holds(m, q)
  }

  /** Subsumption resolution: c is included in the clause but for the negation of l. */
  lemma StrengthenSound(ca: seq<Clause>, trail: seq<Lit>, r: CRef, c: seq<Lit>, p: Lit)
    requires r < |ca| && !ca[r].deleted && Distinct(ca[r].lits) && Distinct(c) && IncludedBut(c, ca[r].lits, p)
    requires Forced(ca, trail, c)
    ensures Superfluous(ca, trail, r, Neg(p))
  {
  }

  ghost predicate Shortened(c: Clause, l: Lit, d: Clause) {
    d.deleted == c.deleted && d.learnt == c.learnt && Without(c.lits, l, d.lits)
  }

  lemma ShortenedMeaning(ca: seq<Clause>, trail: seq<Lit>, r: CRef, l: Lit, d: Clause)
    requires r < |ca| && !ca[r].deleted && Distinct(ca[r].lits) && Shortened(ca[r], l, d) && Superfluous(ca, trail, r, l)
    ensures Equivalent(ca, trail, ca[r := d], trail)
  {
    DistinctLits(ca[r].lits);
    WithoutFacts(ca[r].lits, l, d.lits);
    var ca' := ca[r := d];
    forall m: Model ensures Now(m, ca, trail) <==> Now(m, ca', trail) {
      if Now(m, ca', trail) {
        forall x | 0 <= x < |ca| && !ca[x].deleted ensures Sat(m, ca[x].lits) {
          assert Sat(m, ca'[x].lits);
        }
      }
      if Now(m, ca, trail) {
        var q :| q in ca[r].lits && q != l && Holds(m, q);
        assert Sat(m, d.lits);
      }
    }
  }

  lemma ShortenedKeeps(elim: seq<bool>, ca: seq<Clause>, occurs: seq<seq<CRef>>, dirty: set<Var>, r: CRef, l: Lit,
                       d: Clause, cs: seq<CRef>)
    requires DbGood(elim, ca) && OccGood(|elim|, ca, occurs, dirty) && r < |ca| && !ca[r].deleted && |ca[r].lits| > 2
    requires Shortened(ca[r], l, d) && l.v < |elim| && Without(occurs[l.v], r, cs)
    ensures DbGood(elim, ca[r := d]) && OccGood(|elim|, ca[r := d], occurs[l.v := cs], dirty)
    ensures TotalLits(ca[r := d]) < TotalLits(ca)
  {
    assert Good(elim, ca[r]) && OccList(ca, l.v, occurs[l.v], l.v !in dirty);
    DistinctLits(ca[r].lits);
    WithoutFacts(ca[r].lits, l, d.lits);
    WithoutFacts(occurs[l.v], r, cs);
    ShortDistinct(ca[r].lits, l, d.lits);
    assert Good(elim, d) by {
      forall k | 0 <= k < |d.lits| ensures d.lits[k].v < |elim| && !elim[d.lits[k].v] {
        assert d.lits[k] in ca[r].lits;
      }
    }
    TotalUpdate(ca, r, d);
    ShortenedOcc(|elim|, ca, occurs, dirty, r, l, d, cs);
  }

  lemma ShortDistinct(c: seq<Lit>, l: Lit, d: seq<Lit>)
    requires Distinct(c) && Without(c, l, d)
    ensures Distinct(d)
  {
  }

  /** The list of the variable that loses its literal. */
  lemma OwnList(ca: seq<Clause>, v: Var, cs: seq<CRef>, clean: bool, r: CRef, d: Clause, cs': seq<CRef>)
    requires OccList(ca, v, cs, clean) && r < |ca| && NoDup(cs') && forall y :: y in cs' <==> y in cs && y != r
    ensures OccList(ca[r := d], v, cs', clean)
  {
    forall i | 0 <= i < |cs'| ensures cs'[i] < |ca| && cs'[i] != r && if ca[cs'[i]].deleted then !clean else Mentioned(ca[cs'[i]].lits, v) {
      assert cs'[i] in cs';
      var h :| 0 <= h < |cs| && cs[h] == cs'[i];
    }
  }

  /** The list of any other variable. */
  lemma OtherList(ca: seq<Clause>, v: Var, cs: seq<CRef>, clean: bool, r: CRef, l: Lit, d: Clause)
    requires OccList(ca, v, cs, clean) && r < |ca| && !ca[r].deleted && v != l.v
    requires !d.deleted && forall q :: q in d.lits <==> q in ca[r].lits && q != l
    ensures OccList(ca[r := d], v, cs, clean)
  {
    if Mentioned(ca[r].lits, v) {
      var k :| 0 <= k < |ca[r].lits| && ca[r].lits[k].v == v;
      assert ca[r].lits[k] in d.lits;
    }
  }

  lemma ShortenedOcc(n: nat, ca: seq<Clause>, occurs: seq<seq<CRef>>, dirty: set<Var>, r: CRef, l: Lit,
                     d: Clause, cs: seq<CRef>)
    requires OccGood(n, ca, occurs, dirty) && r < |ca| && !ca[r].deleted && l.v < n && Distinct(ca[r].lits) && l in ca[r].lits
    requires d.deleted == ca[r].deleted && (forall q :: q in d.lits <==> q in ca[r].lits && q != l)
    requires NoDup(cs) && (forall y :: y in cs <==> y in occurs[l.v] && y != r)
    ensures OccGood(n, ca[r := d], occurs[l.v := cs], dirty)
  {
    hide OccList, Distinct, NoDup;
    var ca', occurs' := ca[r := d], occurs[l.v := cs];
    DistinctLits(ca[r].lits);
    forall v | 0 <= v < n ensures OccList(ca', v, occurs'[v], v !in dirty) {
      if v == l.v {
        OwnList(ca, v, occurs[v], v !in dirty, r, d, cs);
      } else {
        OtherList(ca, v, occurs[v], v !in dirty, r, l, d);
      }
    }
    forall x, k | 0 <= x < |ca'| && !ca'[x].deleted && 0 <= k < |ca'[x].lits| && ca'[x].lits[k].v < n
      ensures x in occurs'[ca'[x].lits[k].v]
    {
      if x == r {
        assert d.lits[k] in d.lits;
        var h :| 0 <= h < |ca[r].lits| && ca[r].lits[h] == d.lits[k];
      }
    }
  }

  /** A binary clause that loses a literal leaves a unit, which takes the place of the clause. */
  lemma BinaryToUnit(ca: seq<Clause>, trail: seq<Lit>, r: CRef, l: Lit, q: Lit)
    requires r < |ca| && !ca[r].deleted && Distinct(ca[r].lits) && |ca[r].lits| == 2 && Superfluous(ca, trail, r, l)
    requires Without(ca[r].lits, l, [q])
    ensures Forced(ca, trail, [q])
    ensures Equivalent(ca, trail, Deleted(ca, r), trail + [q])
    ensures q in trail ==> Equivalent(ca, trail, Deleted(ca, r), trail)
  {
    DistinctLits(ca[r].lits);
    WithoutFacts(ca[r].lits, l, [q]);
    assert q in [q];
    forall m: Model ensures Now(m, ca, trail) ==> Holds(m, q)
      ensures Now(m, ca, trail) <==> Now(m, Deleted(ca, r), trail + [q])
      ensures Now(m, ca, trail) ==> Sat(m, [q])
      ensures q in trail ==> (Now(m, ca, trail) <==> Now(m, Deleted(ca, r), trail))
    {
      if Now(m, ca, trail) {
        var x :| x in ca[r].lits && x != l && Holds(m, x);
        assert x in [q];
      }
      RemovedMeaning(m, ca, r);
      HoldMore(m, trail, q);
      if q in trail && Projection.HoldAll(m, trail) {
        var i :| 0 <= i < |trail| && trail[i] == q;
        assert Holds(m, trail[i]);
      }
    }
  }

  lemma EquivalentTrans(a: seq<Clause>, s: seq<Lit>, b: seq<Clause>, t: seq<Lit>, c: seq<Clause>, u: seq<Lit>)
    requires Equivalent(a, s, b, t)
    ensures Equivalent(b, t, c, u) ==> Equivalent(a, s, c, u)
    ensures Contradictory(b, t) ==> Contradictory(a, s)
    ensures Equivalent(b, t, c, u) && Contradictory(c, u) ==> Contradictory(a, s)
  {
  }

  // ---------- facts for the methods ----------

  lemma KnownValue(elim: seq<bool>, values: seq<LBool>, ca: seq<Clause>, trail: seq<Lit>, q: Lit)
    requires TrailGood(elim, values, trail) && q.v < |values|
    ensures values[q.v] == ValueOf(q.sign) ==> q in trail
    ensures FalseLit(values, q) && Forced(ca, trail, [q]) ==> Contradictory(ca, trail)
  {
  }

  lemma GoodLits(elim: seq<bool>, c: Clause)
    requires Good(elim, c)
    ensures Distinct(c.lits) && |c.lits| >= 2
    ensures forall k :: 0 <= k < |c.lits| ==> c.lits[k].v < |elim| && !elim[c.lits[k].v]
  {
  }

  lemma ListedAt(n: nat, ca: seq<Clause>, occurs: seq<seq<CRef>>, dirty: set<Var>, r: CRef, l: Lit)
    requires OccGood(n, ca, occurs, dirty) && r < |ca| && !ca[r].deleted && l in ca[r].lits && l.v < n
    ensures |occurs| == n && r in occurs[l.v]
  {
  }

  lemma WithoutOne(elim: seq<bool>, c: Clause, l: Lit, d: seq<Lit>)
    requires Good(elim, c) && |c.lits| == 2 && Without(c.lits, l, d)
    ensures |d| == 1 && d == [d[0]] && d[0] in c.lits && d[0].v < |elim| && !elim[d[0].v]
  {
  }

  lemma EquivalentSelf(ca: seq<Clause>, trail: seq<Lit>)
    ensures Equivalent(ca, trail, ca, trail)
  {
  }

  // ---------- cleaning ----------

  function LiveRefs(ca: seq<Clause>, cs: seq<CRef>): seq<CRef>
    requires forall i :: 0 <= i < |cs| ==> cs[i] < |ca|
  {
    if cs == [] then [] else
    LiveRefs(ca, cs[..|cs| - 1]) + if ca[cs[|cs| - 1]].deleted then [] else [cs[|cs| - 1]]
  }

  lemma {:induction false} LiveRefsFacts(ca: seq<Clause>, cs: seq<CRef>)
    requires NoDup(cs) && forall i :: 0 <= i < |cs| ==> cs[i] < |ca|
    ensures NoDup(LiveRefs(ca, cs)) && forall r :: r in LiveRefs(ca, cs) <==> r in cs && !ca[r].deleted
  {
    if cs != [] {
      var init, last := cs[..|cs| - 1], cs[|cs| - 1];
      LiveRefsFacts(ca, init);
      assert cs == init + [last];
      assert last !in init;
    }
  }

  lemma CleanKeeps(n: nat, ca: seq<Clause>, occurs: seq<seq<CRef>>, dirty: set<Var>, v: Var)
    requires OccGood(n, ca, occurs, dirty) && v < n
    ensures v < |occurs| && forall i :: 0 <= i < |occurs[v]| ==> occurs[v][i] < |ca|
    ensures OccGood(n, ca, occurs[v := LiveRefs(ca, occurs[v])], dirty - {v})
  {
    assert OccList(ca, v, occurs[v], v !in dirty);
    LiveRefsFacts(ca, occurs[v]);
    var cs := LiveRefs(ca, occurs[v]);
    var occurs' := occurs[v := cs];
    forall u | 0 <= u < n ensures OccList(ca, u, occurs'[u], u !in dirty - {v}) {
      assert OccList(ca, u, occurs[u], u !in dirty);
      if u == v {
        forall i | 0 <= i < |cs| ensures cs[i] < |ca| && Mentioned(ca[cs[i]].lits, v) && !ca[cs[i]].deleted {
          assert cs[i] in occurs[v];
          var h :| 0 <= h < |occurs[v]| && occurs[v][h] == cs[i];
        }
      }
    }
  }

  lemma OccSize(n: nat, ca: seq<Clause>, occurs: seq<seq<CRef>>, dirty: set<Var>)
    requires OccGood(n, ca, occurs, dirty)
    ensures |occurs| == n
  {
  }

  lemma LiveGoodAll(elim: seq<bool>, ca: seq<Clause>, r: CRef)
    requires DbGood(elim, ca) && r < |ca| && !ca[r].deleted
    ensures Good(elim, ca[r])
  {
  }

  lemma NegIncluded(c: seq<Lit>, d: seq<Lit>, p: Lit)
    requires IncludedBut(c, d, p)
    ensures Neg(p) in d
  {
  }
}
