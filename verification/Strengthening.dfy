/** Strengthening a clause in place: its watches are detached, one literal goes, and the first two left are watched. */
module Strengthening {
  import opened Literals
  import opened Assignment
  import opened Watching
  import opened Meaning
  import opened Invariant
  import opened Steps

  /** The list without its entry for clause r. */
  ghost predicate WithoutRef(ws: seq<Watcher>, r: CRef, vs: seq<Watcher>) {
    exists j :: 0 <= j < |ws| && ws[j].cref == r && vs == ws[..j] + ws[j + 1..]
  }

  ghost predicate NoRef(w: Watches, r: CRef) {
    forall p :: p in w ==> !HasRef(w[p], r)
  }

  /** Every live clause other than r is in the lists of its two watches. */
  ghost predicate AttachedBut(ca: seq<Clause>, w: Watches, r: CRef) {
    forall x :: 0 <= x < |ca| && x != r && !ca[x].deleted && |ca[x].lits| >= 2 ==>
      AttachedIn(w, Neg(ca[x].lits[0]), x) && AttachedIn(w, Neg(ca[x].lits[1]), x)
  }

  /** Every list holds only entries that it held before. */
  ghost predicate Shrunk(w: Watches, w': Watches) {
    (forall p :: p in w' <==> p in w) && forall p :: p in w ==> forall e :: e in w'[p] ==> e in w[p]
  }

  lemma WithoutRefIndex(ws: seq<Watcher>, j: nat, i: nat)
    requires j < |ws|
    ensures i < |ws| - 1 ==> (ws[..j] + ws[j + 1..])[i] == ws[if i < j then i else i + 1]
    ensures i < |ws| && i != j ==> (ws[..j] + ws[j + 1..])[if i < j then i else i - 1] == ws[i]
  {
  }

  lemma WithoutRefFacts(ca: seq<Clause>, p: Lit, ws: seq<Watcher>, r: CRef, vs: seq<Watcher>)
    requires ListOk(ca, p, ws) && WithoutRef(ws, r, vs)
    ensures ListOk(ca, p, vs) && !HasRef(vs, r) && (forall e :: e in vs ==> e in ws)
    ensures forall x :: x != r && HasRef(ws, x) ==> HasRef(vs, x)
  {
    var j :| 0 <= j < |ws| && ws[j].cref == r && vs == ws[..j] + ws[j + 1..];
    forall i | 0 <= i < |vs| ensures vs[i] == ws[if i < j then i else i + 1] {
      WithoutRefIndex(ws, j, i);
    }
    forall x | x != r && HasRef(ws, x) ensures HasRef(vs, x) {
      var i :| 0 <= i < |ws| && ws[i].cref == x;
      WithoutRefIndex(ws, j, i);
      assert vs[if i < j then i else i - 1].cref == x;
    }
  }

  /** The lists after the entries of clause r have been taken out of those of its two watches. */
  ghost function DetachedWatches(w: Watches, c: seq<Lit>, vs0: seq<Watcher>, vs1: seq<Watcher>): Watches
    requires |c| >= 2
  {
    w[Neg(c[0]) := vs0][Neg(c[1]) := vs1]
  }

  /** Only the lists of its first two literals refer to a clause. */
  lemma NotWatched(n: nat, ca: seq<Clause>, w: Watches, r: CRef, z: Lit)
    requires r < |ca| && ClauseOk(n, ca[r]) && ListsOk(n, ca, w) && z in w && z != Neg(ca[r].lits[0]) && z != Neg(ca[r].lits[1])
    ensures !HasRef(w[z], r)
  {
    forall i | 0 <= i < |w[z]| ensures w[z][i].cref != r {
      assert EntryShape(ca, z, w[z][i]);
    }
  }

  lemma DetachKeepsLists(n: nat, ca: seq<Clause>, w: Watches, r: CRef, vs0: seq<Watcher>, vs1: seq<Watcher>)
    requires r < |ca| && ClauseOk(n, ca[r]) && ListsOk(n, ca, w) && Attached(ca, w)
    requires Neg(ca[r].lits[0]) in w && WithoutRef(w[Neg(ca[r].lits[0])], r, vs0)
    requires Neg(ca[r].lits[1]) in w && WithoutRef(w[Neg(ca[r].lits[1])], r, vs1)
    ensures var w' := DetachedWatches(w, ca[r].lits, vs0, vs1);
            ListsOk(n, ca, w') && NoRef(w', r) && AttachedBut(ca, w', r) && Shrunk(w, w')
  {
    hide EntryShape;
    var p, q := Neg(ca[r].lits[0]), Neg(ca[r].lits[1]);
    assert ca[r].lits[0] != ca[r].lits[1];
    var w' := DetachedWatches(w, ca[r].lits, vs0, vs1);
    WithoutRefFacts(ca, p, w[p], r, vs0);
    WithoutRefFacts(ca, q, w[q], r, vs1);
    forall z | z in w' ensures !HasRef(w'[z], r) {
      if z != p && z != q {
        NotWatched(n, ca, w, r, z);
      }
    }
    forall x, z | x != r && AttachedIn(w, z, x) ensures AttachedIn(w', z, x) {
    }
  }

  lemma ShrunkKeepsSem(a: Asg, ca: seq<Clause>, w: Watches, w': Watches, bound: int)
    requires Shrunk(w, w') && WatchSem(a, ca, w, bound)
    ensures WatchSem(a, ca, w', bound)
  {
    forall p: Lit | Processed(a, p, bound) && p in w' ensures ListSat(a, ca, p, w'[p]) {
      assert ListSat(a, ca, p, w[p]);
      forall i | 0 <= i < |w'[p]| ensures EntryOk(a, ca, p, w'[p][i]) {
        assert w'[p][i] in w[p];
      }
    }
  }

  /** Without entries for clause r the lists do not depend on it. */
  lemma ReplaceUnwatched(a: Asg, n: nat, ca: seq<Clause>, w: Watches, bound: int, r: CRef, d: Clause)
    requires r < |ca| && NoRef(w, r) && ListsOk(n, ca, w) && AttachedBut(ca, w, r) && WatchSem(a, ca, w, bound)
    ensures ListsOk(n, ca[r := d], w) && AttachedBut(ca[r := d], w, r) && WatchSem(a, ca[r := d], w, bound)
  {
    forall p, i | p in w && 0 <= i < |w[p]| ensures w[p][i].cref != r {
      assert !HasRef(w[p], r);
    }
    forall p: Lit | Processed(a, p, bound) && p in w ensures ListSat(a, ca[r := d], p, w[p]) {
      assert ListSat(a, ca, p, w[p]);
      forall i | 0 <= i < |w[p]| ensures EntryOk(a, ca[r := d], p, w[p][i]) {
        assert EntryOk(a, ca, p, w[p][i]);
      }
    }
    forall p: Lit | p.v < n ensures p in w && ListOk(ca[r := d], p, w[p]) {
      assert ListOk(ca, p, w[p]);
      forall i | 0 <= i < |w[p]| ensures EntryShape(ca[r := d], p, w[p][i]) {
        assert EntryShape(ca, p, w[p][i]);
      }
    }
  }

  ghost function WatchedAgain(w: Watches, r: CRef, c: seq<Lit>): Watches
    requires |c| >= 2 && Neg(c[0]) in w && Neg(c[1]) in w
  {
    AppendTo(AppendTo(w, Neg(c[0]), Watcher(r, c[1])), Neg(c[1]), Watcher(r, c[0]))
  }

  lemma AppendKeepsList(ca: seq<Clause>, p: Lit, ws: seq<Watcher>, e: Watcher)
    requires ListOk(ca, p, ws) && EntryShape(ca, p, e) && !HasRef(ws, e.cref)
    ensures ListOk(ca, p, ws + [e])
  {
  }

  lemma AttachAgainLists(n: nat, ca: seq<Clause>, w: Watches, r: CRef)
    requires r < |ca| && ClauseOk(n, ca[r]) && NoRef(w, r) && ListsOk(n, ca, w) && AttachedBut(ca, w, r)
    ensures Neg(ca[r].lits[0]) in w && Neg(ca[r].lits[1]) in w
    ensures ListsOk(n, ca, WatchedAgain(w, r, ca[r].lits)) && Attached(ca, WatchedAgain(w, r, ca[r].lits))
  {
    var c := ca[r].lits;
    var p, q := Neg(c[0]), Neg(c[1]);
    assert c[0] != c[1];
    var w1 := AppendTo(w, p, Watcher(r, c[1]));
    var w': Watches := AppendTo(w1, q, Watcher(r, c[0]));
    AppendKeepsList(ca, p, w[p], Watcher(r, c[1]));
    AppendKeepsList(ca, q, w[q], Watcher(r, c[0]));
    AppendKeepsRefs(w, p, Watcher(r, c[1]));
    AppendKeepsRefs(w1, q, Watcher(r, c[0]));
    assert w'[p][|w[p]|].cref == r && w'[q][|w[q]|].cref == r;
  }

  /** What the two new watches need: if one is false and processed, the other is true, at no higher level. */
  ghost predicate WatchesInOrder(a: Asg, c: seq<Lit>, bound: int)
    requires |c| >= 2
  {
    && (Processed(a, Neg(c[0]), bound) && c[0].v < |a.level| ==> TrueBy(a, c[1], a.level[c[0].v]))
    && (Processed(a, Neg(c[1]), bound) && c[1].v < |a.level| ==> TrueBy(a, c[0], a.level[c[1].v]))
  }

  lemma AppendSem(a: Asg, ca: seq<Clause>, w: Watches, bound: int, p: Lit, e: Watcher)
    requires p in w
    ensures WatchSem(a, ca, AppendTo(w, p, e), bound) <==> WatchSem(a, ca, w, bound) && (Processed(a, p, bound) ==> EntryOk(a, ca, p, e))
  {
    var w': Watches := AppendTo(w, p, e);
    assert w'[p][|w[p]|] == e;
    if WatchSem(a, ca, w', bound) {
      forall z: Lit | Processed(a, z, bound) && z in w ensures ListSat(a, ca, z, w[z]) {
        assert ListSat(a, ca, z, w'[z]);
        assert forall i :: 0 <= i < |w[z]| ==> w'[z][i] == w[z][i];
      }
      assert Processed(a, p, bound) ==> ListSat(a, ca, p, w'[p]);
    }
  }

  lemma LooserSem(a: Asg, ca: seq<Clause>, w: Watches, bound: int, r: CRef)
    requires WatchSem(a, ca, w, bound)
    ensures WatchSem(a.(loose := a.loose + {r}), ca, w, bound)
  {
  }

  /** The watch invariant after attaching: always with the clause made loose, otherwise exactly if its watches are in order. */
  lemma AttachAgainSem(a: Asg, n: nat, ca: seq<Clause>, w: Watches, bound: int, r: CRef)
    requires r < |ca| && ClauseOk(n, ca[r]) && !ca[r].deleted && WatchSem(a, ca, w, bound)
    requires Neg(ca[r].lits[0]) in w && Neg(ca[r].lits[1]) in w
    ensures WatchSem(a.(loose := a.loose + {r}), ca, WatchedAgain(w, r, ca[r].lits), bound)
    ensures r !in a.loose ==> (WatchSem(a, ca, WatchedAgain(w, r, ca[r].lits), bound) <==> WatchesInOrder(a, ca[r].lits, bound))
  {
    var c, b := ca[r].lits, a.(loose := a.loose + {r});
    assert c[0] != c[1];
    var w1 := AppendTo(w, Neg(c[0]), Watcher(r, c[1]));
    LooserSem(a, ca, w, bound, r);
    AppendSem(b, ca, w, bound, Neg(c[0]), Watcher(r, c[1]));
    AppendSem(b, ca, w1, bound, Neg(c[1]), Watcher(r, c[0]));
    AppendSem(a, ca, w, bound, Neg(c[0]), Watcher(r, c[1]));
    AppendSem(a, ca, w1, bound, Neg(c[1]), Watcher(r, c[0]));
  }

  // ---------- the whole step ----------

  /** The clause without its literal at index k. */
  ghost function Cut(c: Clause, k: nat): (d: Clause)
    requires k < |c.lits|
    ensures |d.lits| == |c.lits| - 1 && d.deleted == c.deleted && d.learnt == c.learnt
  {
    c.(lits := c.lits[..k] + c.lits[k + 1..])
  }

  lemma CutReplaces(c: Clause, k: nat, lits: seq<Lit>)
    requires k < |c.lits| && lits == Cut(c, k).lits
    ensures c.(lits := lits) == Cut(c, k)
  {
  }

  lemma CutFacts(n: nat, c: Clause, k: nat)
    requires ClauseOk(n, c) && k < |c.lits| && |c.lits| > 2
    ensures ClauseOk(n, Cut(c, k)) && forall q :: q in Cut(c, k).lits <==> q in c.lits && q != c.lits[k]
  {
    var d := Cut(c, k);
    forall i | 0 <= i < |d.lits| ensures d.lits[i] == c.lits[if i < k then i else i + 1] {
    }
    forall q | q in c.lits && q != c.lits[k] ensures q in d.lits {
      var i :| 0 <= i < |c.lits| && c.lits[i] == q;
      assert d.lits[if i < k then i else i - 1] == q;
    }
  }

  /** Detach clause r, cut its literal k, and watch the first two literals left: the lists stay well formed. */
  lemma StrengthenKeepsLists(a: Asg, n: nat, ca: seq<Clause>, w: Watches, bound: int, r: CRef, k: nat,
                             vs0: seq<Watcher>, vs1: seq<Watcher>)
    requires r < |ca| && !ca[r].deleted && ClausesOk(n, ca) && WatchShape(n, ca, w) && WatchSem(a, ca, w, bound)
    requires |ca[r].lits| > 2 && k < |ca[r].lits|
    requires Neg(ca[r].lits[0]) in w && WithoutRef(w[Neg(ca[r].lits[0])], r, vs0)
    requires Neg(ca[r].lits[1]) in w && WithoutRef(w[Neg(ca[r].lits[1])], r, vs1)
    ensures var w1, d := DetachedWatches(w, ca[r].lits, vs0, vs1), Cut(ca[r], k);
            && Shrunk(w, w1) && Neg(d.lits[0]) in w1 && Neg(d.lits[1]) in w1
            && ClausesOk(n, ca[r := d]) && WatchShape(n, ca[r := d], WatchedAgain(w1, r, d.lits))
            && WatchSem(a.(loose := a.loose + {r}), ca[r := d], WatchedAgain(w1, r, d.lits), bound)
            && (r !in a.loose ==>
                  (WatchSem(a, ca[r := d], WatchedAgain(w1, r, d.lits), bound) <==> WatchesInOrder(a, d.lits, bound)))
  {
    hide ListsOk, Attached, AttachedBut, NoRef, Shrunk, WatchSem, WatchesInOrder, DetachedWatches, WatchedAgain, WithoutRef;
    var w1, d := DetachedWatches(w, ca[r].lits, vs0, vs1), Cut(ca[r], k);
    assert ClauseOk(n, ca[r]);
    DetachKeepsLists(n, ca, w, r, vs0, vs1);
    ShrunkKeepsSem(a, ca, w, w1, bound);
    ReplaceUnwatched(a, n, ca, w1, bound, r, d);
    CutFacts(n, ca[r], k);
    AttachAgainLists(n, ca[r := d], w1, r);
    AttachAgainSem(a, n, ca[r := d], w1, bound, r);
  }

  /**
   At level 0 with an empty queue: the watch invariant survives strengthening in place exactly if neither of the first
   two literals left is false while the other is not true.
   */
  lemma StrengthenedWatches(a: Asg, ca: seq<Clause>, w: Watches, r: CRef, k: nat, vs0: seq<Watcher>, vs1: seq<Watcher>)
    requires TrailInv(a) && a.lim == [] && r < |ca| && r !in a.loose && !ca[r].deleted
    requires ClausesOk(|a.assigns|, ca) && WatchShape(|a.assigns|, ca, w) && WatchSem(a, ca, w, |a.trail|)
    requires |ca[r].lits| > 2 && k < |ca[r].lits|
    requires Neg(ca[r].lits[0]) in w && WithoutRef(w[Neg(ca[r].lits[0])], r, vs0)
    requires Neg(ca[r].lits[1]) in w && WithoutRef(w[Neg(ca[r].lits[1])], r, vs1)
    ensures var w1, d := DetachedWatches(w, ca[r].lits, vs0, vs1), Cut(ca[r], k);
            && Neg(d.lits[0]) in w1 && Neg(d.lits[1]) in w1
            && (WatchSem(a, ca[r := d], WatchedAgain(w1, r, d.lits), |a.trail|) <==>
                  (IsFalse(a, d.lits[0]) ==> IsTrue(a, d.lits[1])) && (IsFalse(a, d.lits[1]) ==> IsTrue(a, d.lits[0])))
  {
    var d := Cut(ca[r], k);
    hide WatchSem, WatchShape, Attached, ListsOk, Cut, DetachedWatches, WatchedAgain, WithoutRef;
    StrengthenKeepsLists(a, |a.assigns|, ca, w, |a.trail|, r, k, vs0, vs1);
    OrderAtTop(a, d.lits);
  }

  lemma OrderAtTop(a: Asg, c: seq<Lit>)
    requires TrailInv(a) && a.lim == [] && |c| >= 2
    ensures WatchesInOrder(a, c, |a.trail|) <==> (IsFalse(a, c[0]) ==> IsTrue(a, c[1])) && (IsFalse(a, c[1]) ==> IsTrue(a, c[0]))
  {
    forall v | IsSet(a, v) ensures a.level[v] == 0 && a.pos[v] < |a.trail| {
      assert LevelOk(a, v);
    }
    assert IsFalse(a, c[0]) ==> IsSet(a, c[0].v);
    assert IsFalse(a, c[1]) ==> IsSet(a, c[1].v);
    assert IsTrue(a, c[0]) ==> IsSet(a, c[0].v);
    assert IsTrue(a, c[1]) ==> IsSet(a, c[1].v);
  }

  ghost function Loosened(a: Asg, r: CRef): Asg {
    a.(loose := a.loose + {r})
  }

  lemma LoosenKeepsDb(orig: seq<seq<Lit>>, assumptions: seq<Lit>, a: Asg, ca: seq<Clause>, r: CRef)
    requires DbInv(orig, assumptions, a, ca)
    ensures DbInv(orig, assumptions, Loosened(a, r), ca)
  {
    var b := Loosened(a, r);
    assert forall v: int :: IsSet(b, v) <==> IsSet(a, v);
    assert forall q: Lit :: IsTrue(b, q) <==> IsTrue(a, q);
    forall v | IsSet(b, v) ensures LevelOk(b, v) {
      assert LevelOk(a, v);
    }
    forall v | IsSet(b, v) && b.reason[v].Some? ensures ReasonOk(b, ca, b.reason[v].value, b.trail[b.pos[v]]) {
      assert ReasonOk(a, ca, a.reason[v].value, a.trail[a.pos[v]]);
    }
    SameTopSameMeaning(orig, ca, a, b);
  }

  /** A clause that is a reason may lose any literal but the one it implied. */
  lemma CutKeepsReasons(a: Asg, ca: seq<Clause>, r: CRef, k: nat)
    requires TrailInv(a) && ReasonInv(a, ca) && r < |ca| && k < |ca[r].lits| && (k == 0 ==> !Locked(a, ca, r))
    ensures ReasonInv(a, ca[r := Cut(ca[r], k)])
  {
    var d := Cut(ca[r], k);
    forall v | IsSet(a, v) && a.reason[v].Some?
      ensures ReasonOk(a, ca[r := d], a.reason[v].value, a.trail[a.pos[v]])
    {
      assert ReasonOk(a, ca, a.reason[v].value, a.trail[a.pos[v]]);
      if a.reason[v].value == r {
        assert forall i :: 0 <= i < |d.lits| ==> d.lits[i] == ca[r].lits[if i < k then i else i + 1];
      }
    }
  }

  lemma StrengthenKeepsDirty(ca: seq<Clause>, w: Watches, dirty: set<Lit>, dirties: seq<Lit>, r: CRef, d: Clause, w1: Watches)
    requires DirtyOk(ca, w, dirty, dirties) && Shrunk(w, w1) && r < |ca| && !d.deleted
    requires |d.lits| >= 2 && Neg(d.lits[0]) in w1 && Neg(d.lits[1]) in w1
    ensures DirtyOk(ca[r := d], WatchedAgain(w1, r, d.lits), dirty, dirties)
  {
    forall p: Lit | p in w1 && p !in dirty ensures NoDead(ca[r := d], WatchedAgain(w1, r, d.lits)[p]) {
      assert NoDead(ca, w[p]);
      forall i | 0 <= i < |w1[p]| ensures w1[p][i].cref < |ca| && !ca[r := d][w1[p][i].cref].deleted {
        assert w1[p][i] in w[p];
      }
    }
  }

  /** The reason is forgotten if the literal that goes is the one the clause implied. */
  ghost function AfterCut(a: Asg, ca: seq<Clause>, r: CRef, k: nat): Asg
    requires r < |ca| && |ca[r].lits| > 0
  {
    Loosened(if k == 0 then Forgotten(a, ca, r) else a, r)
  }

  lemma CutKeepsDb(orig: seq<seq<Lit>>, f: seq<seq<Lit>>, assumptions: seq<Lit>, a: Asg, ca: seq<Clause>, r: CRef, k: nat)
    requires DbInv(orig, assumptions, a, ca) && a.lim == [] && r < |ca| && k < |ca[r].lits| && |ca[r].lits| > 2
    requires Sound(f, ca[r := Cut(ca[r], k)], a)
    ensures DbInv(f, assumptions, AfterCut(a, ca, r, k), ca[r := Cut(ca[r], k)])
  {
    hide Sound, Cut;
    var d, n := Cut(ca[r], k), |a.assigns|;
    assert ClauseOk(n, ca[r]);
    CutFacts(n, ca[r], k);
    var b := if k == 0 then Forgotten(a, ca, r) else a;
    if k == 0 && Locked(a, ca, r) {
      ForgetReason(a, ca, assumptions, ca[r].lits[0].v);
    }
    CutKeepsReasons(b, ca, r, k);
    SameTopSameMeaning(f, ca[r := d], a, b);
    assert ClausesOk(n, ca[r := d]);
    LoosenKeepsDb(f, assumptions, b, ca[r := d], r);
  }

  lemma StrengthenKeepsBase(orig: seq<seq<Lit>>, f: seq<seq<Lit>>, assumptions: seq<Lit>, a: Asg, ca: seq<Clause>, w: Watches,
                            dirty: set<Lit>, dirties: seq<Lit>, bound: int, r: CRef, k: nat, vs0: seq<Watcher>, vs1: seq<Watcher>)
    requires Base(orig, assumptions, a, ca, w, dirty, dirties) && WatchSem(a, ca, w, bound) && a.lim == []
    requires r < |ca| && !ca[r].deleted && |ca[r].lits| > 2 && k < |ca[r].lits|
    requires Neg(ca[r].lits[0]) in w && WithoutRef(w[Neg(ca[r].lits[0])], r, vs0)
    requires Neg(ca[r].lits[1]) in w && WithoutRef(w[Neg(ca[r].lits[1])], r, vs1)
    requires Sound(f, ca[r := Cut(ca[r], k)], a)
    ensures var b, w1, d := AfterCut(a, ca, r, k), DetachedWatches(w, ca[r].lits, vs0, vs1), Cut(ca[r], k);
            && Neg(d.lits[0]) in w1 && Neg(d.lits[1]) in w1
            && Base(f, assumptions, b, ca[r := d], WatchedAgain(w1, r, d.lits), dirty, dirties)
            && WatchSem(b, ca[r := d], WatchedAgain(w1, r, d.lits), bound)
  {
    hide Sound, WatchShape, WatchSem, DirtyOk, Cut, DetachedWatches, WatchedAgain, WithoutRef, Shrunk, WatchesInOrder, TrailInv, ReasonInv, DecisionInv;
    var w1, d := DetachedWatches(w, ca[r].lits, vs0, vs1), Cut(ca[r], k);
    CutKeepsDb(orig, f, assumptions, a, ca, r, k);
    StrengthenKeepsLists(a, |a.assigns|, ca, w, bound, r, k, vs0, vs1);
    StrengthenKeepsDirty(ca, w, dirty, dirties, r, d, w1);
    ForgetKeepsSem(Loosened(a, r), ca[r := d], WatchedAgain(w1, r, d.lits), bound, AfterCut(a, ca, r, k));
  }

  /** A live clause is found in the lists of its two watches. */
  lemma WatchedTwice(orig: seq<seq<Lit>>, assumptions: seq<Lit>, a: Asg, ca: seq<Clause>, w: Watches,
                     dirty: set<Lit>, dirties: seq<Lit>, r: CRef)
    requires Base(orig, assumptions, a, ca, w, dirty, dirties) && r < |ca| && !ca[r].deleted
    ensures SameSize(a) && |ca[r].lits| >= 2 && ca[r].lits[0].v < |a.assigns| && ca[r].lits[0] != ca[r].lits[1]
    ensures AttachedIn(w, Neg(ca[r].lits[0]), r) && AttachedIn(w, Neg(ca[r].lits[1]), r)
  {
    assert ClauseOk(|a.assigns|, ca[r]);
  }

  // ---------- watches in order again ----------

  /** A loose clause without assigned literals has its watches in order. */
  lemma TightenSem(a: Asg, n: nat, ca: seq<Clause>, w: Watches, bound: int)
    requires WatchSem(a, ca, w, bound) && n == |a.assigns| && ListsOk(n, ca, w)
    requires forall r, k :: r in a.loose && r < |ca| && !ca[r].deleted && 0 <= k < |ca[r].lits| ==> !IsSet(a, ca[r].lits[k].v)
    ensures WatchSem(a.(loose := {}), ca, w, bound)
  {
    var b := a.(loose := {});
    forall p: Lit | Processed(b, p, bound) && p in w ensures ListSat(b, ca, p, w[p]) {
      assert Processed(a, p, bound) && ListSat(a, ca, p, w[p]) && ListOk(ca, p, w[p]);
      forall i | 0 <= i < |w[p]| ensures EntryOk(b, ca, p, w[p][i]) {
        assert EntryOk(a, ca, p, w[p][i]) && EntryShape(ca, p, w[p][i]);
      }
    }
  }

  lemma TightenDb(orig: seq<seq<Lit>>, assumptions: seq<Lit>, a: Asg, ca: seq<Clause>)
    requires DbInv(orig, assumptions, a, ca)
    ensures DbInv(orig, assumptions, a.(loose := {}), ca)
  {
    var b := a.(loose := {});
    assert forall v: int :: IsSet(b, v) <==> IsSet(a, v);
    assert forall q: Lit :: IsTrue(b, q) <==> IsTrue(a, q);
    forall v | IsSet(b, v) ensures LevelOk(b, v) {
      assert LevelOk(a, v);
    }
    forall v | IsSet(b, v) && b.reason[v].Some? ensures ReasonOk(b, ca, b.reason[v].value, b.trail[b.pos[v]]) {
      assert ReasonOk(a, ca, a.reason[v].value, a.trail[a.pos[v]]);
    }
    SameTopSameMeaning(orig, ca, a, b);
  }

  lemma TightenBase(orig: seq<seq<Lit>>, assumptions: seq<Lit>, a: Asg, ca: seq<Clause>, w: Watches,
                    dirty: set<Lit>, dirties: seq<Lit>, bound: int)
    requires Base(orig, assumptions, a, ca, w, dirty, dirties) && WatchSem(a, ca, w, bound)
    requires forall r, k :: r in a.loose && r < |ca| && !ca[r].deleted && 0 <= k < |ca[r].lits| ==> !IsSet(a, ca[r].lits[k].v)
    ensures Base(orig, assumptions, a.(loose := {}), ca, w, dirty, dirties) && WatchSem(a.(loose := {}), ca, w, bound)
  {
    hide DbInv, Attached, DirtyOk, WatchSem, ListsOk;
    TightenDb(orig, assumptions, a, ca);
    TightenSem(a, |a.assigns|, ca, w, bound);
  }

  // ---------- an example ----------

  /** Two clauses, "0 or 1 or 2" and "not 0, or 1", and their watch lists. */
  function ExampleClauses(): seq<Clause> {
    [Clause([Lit(0, false), Lit(1, false), Lit(2, false)], false, false), Clause([Lit(0, true), Lit(1, false)], false, false)]
  }

  function ExampleWatches(): Watches {
    map[Lit(0, false) := [Watcher(1, Lit(1, false))], Lit(0, true) := [Watcher(0, Lit(1, false))], Lit(1, false) := [],
        Lit(1, true) := [Watcher(0, Lit(0, false)), Watcher(1, Lit(0, true))], Lit(2, false) := [], Lit(2, true) := []]
  }

  /** The unit "not 2" at level 0. */
  ghost function ExampleTrail(): Asg {
    Asg([LUndef, LUndef, LFalse], [Lit(2, true)], [], [0, 0, 0], [None, None, None], [0, 0, 0], {}, false)
  }

  lemma ExampleTrailOk()
    ensures TrailInv(ExampleTrail()) && forall p: Lit :: Processed(ExampleTrail(), p, 1) ==> p == Lit(2, true)
  {
  }

  lemma ExampleClausesOk()
    ensures ClausesOk(3, ExampleClauses())
  {
  }

  lemma ExampleList(p: Lit)
    requires p.v < 3
    ensures p in ExampleWatches() && ListOk(ExampleClauses(), p, ExampleWatches()[p])
  {
    var ca, w := ExampleClauses(), ExampleWatches();
    assert p == Lit(0, false) || p == Lit(0, true) || p == Lit(1, false) || p == Lit(1, true) || p == Lit(2, false) || p == Lit(2, true);
    var c, d := ca[0].lits, ca[1].lits;
    assert c[0] in c && c[1] in c && d[0] in d && d[1] in d;
    forall i | 0 <= i < |w[p]| ensures EntryShape(ca, p, w[p][i]) {
    }
  }

  lemma ExampleAttached()
    ensures Attached(ExampleClauses(), ExampleWatches())
  {
    var w: Watches := ExampleWatches();
    assert w[Lit(0, true)][0].cref == 0 && w[Lit(1, true)][0].cref == 0 && w[Lit(0, false)][0].cref == 1 && w[Lit(1, true)][1].cref == 1;
  }

  lemma ExampleReady()
    ensures var a, ca, w := ExampleTrail(), ExampleClauses(), ExampleWatches();
            TrailInv(a) && ClausesOk(3, ca) && WatchShape(3, ca, w) && WatchSem(a, ca, w, 1)
  {
    hide TrailInv, ClausesOk, Attached, ListOk, Processed;
    var a, ca, w := ExampleTrail(), ExampleClauses(), ExampleWatches();
    ExampleTrailOk();
    ExampleClausesOk();
    forall p: Lit | p.v < 3 ensures p in w && ListOk(ca, p, w[p]) {
      ExampleList(p);
    }
    ExampleAttached();
    assert w[Lit(2, true)] == [];
  }

  lemma ExampleDetached()
    ensures WithoutRef(ExampleWatches()[Lit(0, true)], 0, []) && WithoutRef(ExampleWatches()[Lit(1, true)], 0, [Watcher(1, Lit(0, true))])
    ensures Cut(ExampleClauses()[0], 0).lits == [Lit(1, false), Lit(2, false)]
  {
    var w: Watches := ExampleWatches();
    var p, q := w[Lit(0, true)], w[Lit(1, true)];
    assert p[..0] + p[1..] == [] && p[0].cref == 0;
    assert q[..0] + q[1..] == [Watcher(1, Lit(0, true))] && q[0].cref == 0;
  }

  /**
   The second clause strengthens the first to "1 or 2", which then watches the false literal 2 although 1 is open: the
   watch invariant holds before and fails after, and so does what it is for, since propagation at rest misses the unit 1.
   */
  lemma FalseWatch()
    ensures var a, ca, w := ExampleTrail(), ExampleClauses(), ExampleWatches();
            && TrailInv(a) && ClausesOk(3, ca) && WatchShape(3, ca, w) && WatchSem(a, ca, w, |a.trail|)
            && WithoutRef(w[Lit(0, true)], 0, []) && WithoutRef(w[Lit(1, true)], 0, [Watcher(1, Lit(0, true))])
            && var d, w1 := Cut(ca[0], 0), DetachedWatches(w, ca[0].lits, [], [Watcher(1, Lit(0, true))]);
               && d.lits == [Lit(1, false), Lit(2, false)] && Neg(d.lits[0]) in w1 && Neg(d.lits[1]) in w1
               && !WatchSem(a, ca[0 := d], WatchedAgain(w1, 0, d.lits), |a.trail|)
               && IsFalse(a, d.lits[1]) && !IsSet(a, d.lits[0].v)
  {
    hide TrailInv, ClausesOk, WatchShape, WatchSem, WithoutRef, DetachedWatches, WatchedAgain, Cut;
    ExampleReady();
    ExampleDetached();
    StrengthenedWatches(ExampleTrail(), ExampleClauses(), ExampleWatches(), 0, 0, [], [Watcher(1, Lit(0, true))]);
  }
}
