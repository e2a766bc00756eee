/** Watch lists with blocking literals: their shape, their meaning, and what each solver step does to them. */
module Watching {
  import opened Literals
  import opened Assignment

  datatype Watcher = Watcher(cref: CRef, blocker: Lit)

  type Watches = map<Lit, seq<Watcher>>

  /** The list of p holds the clauses that watch the negation of p. */
  ghost predicate Watched(c: Clause, p: Lit) {
    |c.lits| >= 2 && (c.lits[0] == Neg(p) || c.lits[1] == Neg(p))
  }

  ghost function Other(c: Clause, p: Lit): Lit
    requires |c.lits| >= 2
  {
    if c.lits[0] == Neg(p) then c.lits[1] else c.lits[0]
  }

  ghost predicate ClauseOk(n: nat, c: Clause) {
    |c.lits| >= 2 && NoDup(c.lits) && forall k :: 0 <= k < |c.lits| ==> c.lits[k].v < n
  }

  ghost predicate ClausesOk(n: nat, ca: seq<Clause>) {
    forall r :: 0 <= r < |ca| ==> ClauseOk(n, ca[r])
  }

  ghost predicate EntryShape(ca: seq<Clause>, p: Lit, e: Watcher) {
    e.cref < |ca| && Watched(ca[e.cref], p) && e.blocker in ca[e.cref].lits
  }

  ghost predicate ListOk(ca: seq<Clause>, p: Lit, ws: seq<Watcher>) {
    && (forall i :: 0 <= i < |ws| ==> EntryShape(ca, p, ws[i]))
    && (forall i, j :: 0 <= i < j < |ws| ==> ws[i].cref != ws[j].cref)
  }

  ghost predicate ListsOk(n: nat, ca: seq<Clause>, w: Watches) {
    && (forall p: Lit :: p.v < n ==> p in w && ListOk(ca, p, w[p]))
    && (forall p: Lit :: p in w ==> p.v < n)
  }

  ghost predicate HasRef(ws: seq<Watcher>, r: int) {
    exists i :: 0 <= i < |ws| && ws[i].cref == r
  }

  ghost predicate AttachedIn(w: Watches, p: Lit, r: int) {
    p in w && HasRef(w[p], r)
  }

  /** Every live clause is in the lists of its two watches. */
  ghost predicate Attached(ca: seq<Clause>, w: Watches) {
    forall r :: 0 <= r < |ca| && !ca[r].deleted && |ca[r].lits| >= 2 ==>
      AttachedIn(w, Neg(ca[r].lits[0]), r) && AttachedIn(w, Neg(ca[r].lits[1]), r)
  }

  ghost predicate TrueBy(a: Asg, q: Lit, level: nat) {
    IsTrue(a, q) && q.v < |a.level| && a.level[q.v] <= level
  }

  /** The other watch or the blocker is true, at no higher level than the false watch, unless the clause is loose. */
  ghost predicate EntryOk(a: Asg, ca: seq<Clause>, p: Lit, e: Watcher) {
    e.cref < |ca| && e.cref !in a.loose && !ca[e.cref].deleted && |ca[e.cref].lits| >= 2 && p.v < |a.level| ==>
      TrueBy(a, e.blocker, a.level[p.v]) || TrueBy(a, Other(ca[e.cref], p), a.level[p.v])
  }

  ghost predicate ListSat(a: Asg, ca: seq<Clause>, p: Lit, ws: seq<Watcher>) {
    forall i :: 0 <= i < |ws| ==> EntryOk(a, ca, p, ws[i])
  }

  ghost predicate Processed(a: Asg, p: Lit, bound: int) {
    IsTrue(a, p) && p.v < |a.pos| && a.pos[p.v] < bound
  }

  /** The watch invariant for the part of the trail that has been propagated. */
  ghost predicate WatchSem(a: Asg, ca: seq<Clause>, w: Watches, bound: int) {
    forall p: Lit :: Processed(a, p, bound) && p in w ==> ListSat(a, ca, p, w[p])
  }

  /** No list refers to a deleted clause. */
  ghost predicate NoDead(ca: seq<Clause>, ws: seq<Watcher>) {
    forall i :: 0 <= i < |ws| ==> ws[i].cref < |ca| && !ca[ws[i].cref].deleted
  }

  ghost predicate Clean(ca: seq<Clause>, w: Watches) {
    forall p: Lit :: p in w ==> NoDead(ca, w[p])
  }

  // ---------- assignment steps ----------

  lemma EnqueueKeepsWatches(a: Asg, ca: seq<Clause>, w: Watches, bound: int, p: Lit, from: Option<CRef>)
    requires TrailInv(a) && p.v < |a.assigns| && !IsSet(a, p.v)
    requires WatchSem(a, ca, w, bound) && bound <= |a.trail|
    ensures WatchSem(Enqueue(a, p, from), ca, w, bound)
  {
  }

  /** Backtracking keeps the watch invariant although no watch list is touched. */
  lemma CancelKeepsWatches(a: Asg, ca: seq<Clause>, w: Watches, bound: int, level: nat)
    requires TrailInv(a) && level < |a.lim|
    requires WatchSem(a, ca, w, bound) && a.lim[level] <= bound
    ensures TrailInv(Cancel(a, level)) && WatchSem(Cancel(a, level), ca, w, |Cancel(a, level).trail|)
  {
    CancelKeepsTrail(a, level);
    var b := Cancel(a, level);
    forall q: Lit | Processed(b, q, |b.trail|) && q in w ensures ListSat(b, ca, q, w[q]) {
      assert Processed(a, q, bound);
      assert ListSat(a, ca, q, w[q]);
      assert IsTrue(b, q);
    }
  }

  /** At rest every live clause has a true literal or two watches that are not false. */
  lemma QuietClause(a: Asg, n: nat, ca: seq<Clause>, w: Watches, r: CRef)
    requires TrailInv(a) && n == |a.assigns| && ClausesOk(n, ca) && ListsOk(n, ca, w) && Attached(ca, w)
    requires WatchSem(a, ca, w, |a.trail|) && r < |ca| && !ca[r].deleted && r !in a.loose
    ensures (exists q :: q in ca[r].lits && IsTrue(a, q)) || (!IsFalse(a, ca[r].lits[0]) && !IsFalse(a, ca[r].lits[1]))
  {
  }

  // ---------- steps on the lists ----------

  function AppendTo(w: Watches, p: Lit, e: Watcher): Watches
    requires p in w
  {
    w[p := w[p] + [e]]
  }

  lemma NewClauseKeepsList(ca: seq<Clause>, c: Clause, p: Lit, ws: seq<Watcher>)
    requires ListOk(ca, p, ws)
    ensures ListOk(ca + [c], p, ws)
    ensures forall i :: 0 <= i < |ws| ==> ws[i].cref < |ca|
  {
  }

  /** The lists after both watchers of a clause have been appended. */
  ghost function AttachedWatches(w: Watches, r: CRef, c: seq<Lit>): Watches
    requires |c| >= 2 && Neg(c[0]) in w && Neg(c[1]) in w
  {
    AppendTo(AppendTo(w, Neg(c[0]), Watcher(r, c[1])), Neg(c[1]), Watcher(r, c[0]))
  }

  lemma AttachKeepsLists(n: nat, ca: seq<Clause>, w: Watches, c: Clause)
    requires ListsOk(n, ca, w) && ClauseOk(n, c)
    ensures Neg(c.lits[0]) in w && Neg(c.lits[1]) in w && ListsOk(n, ca + [c], AttachedWatches(w, |ca|, c.lits))
  {
    var w' := AttachedWatches(w, |ca|, c.lits);
    assert c.lits[0] != c.lits[1];
    forall r: Lit | r.v < n ensures r in w' && ListOk(ca + [c], r, w'[r]) {
      NewClauseKeepsList(ca, c, r, w[r]);
    }
  }

  lemma AttachKeepsRefs(ca: seq<Clause>, w: Watches, c: Clause)
    requires Attached(ca, w) && |c.lits| >= 2 && Neg(c.lits[0]) in w && Neg(c.lits[1]) in w
    ensures Attached(ca + [c], AttachedWatches(w, |ca|, c.lits))
  {
    var p, q := Neg(c.lits[0]), Neg(c.lits[1]);
    var u := AppendTo(w, p, Watcher(|ca|, c.lits[1]));
    AppendKeepsRefs(w, p, Watcher(|ca|, c.lits[1]));
    AppendKeepsRefs(u, q, Watcher(|ca|, c.lits[0]));
    assert u[p][|w[p]|].cref == |ca|;
    assert AttachedIn(u, p, |ca|);
    assert AppendTo(u, q, Watcher(|ca|, c.lits[0]))[q][|u[q]|].cref == |ca|;
  }

  lemma AttachKeepsShape(n: nat, ca: seq<Clause>, w: Watches, c: Clause)
    requires ClausesOk(n, ca) && ListsOk(n, ca, w) && Attached(ca, w) && ClauseOk(n, c)
    ensures Neg(c.lits[0]) in w && Neg(c.lits[1]) in w
    ensures var w' := AttachedWatches(w, |ca|, c.lits); ClausesOk(n, ca + [c]) && ListsOk(n, ca + [c], w') && Attached(ca + [c], w')
  {
    hide ListsOk, Attached, AttachedWatches;
    AttachKeepsLists(n, ca, w, c);
    AttachKeepsRefs(ca, w, c);
  }

  lemma AppendKeepsRefs(w: Watches, p: Lit, e: Watcher)
    requires p in w
    ensures forall q, r :: AttachedIn(w, q, r) ==> AttachedIn(AppendTo(w, p, e), q, r)
  {
    forall q, r | AttachedIn(w, q, r) ensures AttachedIn(AppendTo(w, p, e), q, r) {
      var i :| 0 <= i < |w[q]| && w[q][i].cref == r;
      assert AppendTo(w, p, e)[q][i].cref == r;
    }
  }

  lemma AttachKeepsSem(a: Asg, n: nat, ca: seq<Clause>, w: Watches, bound: int, c: Clause)
    requires n == |a.assigns| && ListsOk(n, ca, w) && WatchSem(a, ca, w, bound) && ClauseOk(n, c)
    requires Processed(a, Neg(c.lits[0]), bound) ==> EntryOk(a, ca + [c], Neg(c.lits[0]), Watcher(|ca|, c.lits[1]))
    requires Processed(a, Neg(c.lits[1]), bound) ==> EntryOk(a, ca + [c], Neg(c.lits[1]), Watcher(|ca|, c.lits[0]))
    ensures Neg(c.lits[0]) in w && Neg(c.lits[1]) in w
    ensures WatchSem(a, ca + [c],
                     AppendTo(AppendTo(w, Neg(c.lits[0]), Watcher(|ca|, c.lits[1])), Neg(c.lits[1]), Watcher(|ca|, c.lits[0])), bound)
  {
  }

  /** Two versions of a clause with the same literals, the same flags and the same pair of watches. */
  ghost predicate SamePair(c: Clause, d: Clause) {
    && |c.lits| == |d.lits| >= 2 && SameElements(c.lits, d.lits) && multiset(c.lits) == multiset(d.lits) && c.deleted == d.deleted && c.learnt == d.learnt
    && ((c.lits[0] == d.lits[0] && c.lits[1] == d.lits[1]) || (c.lits[0] == d.lits[1] && c.lits[1] == d.lits[0]))
  }

  lemma SwapKeepsLists(a: Asg, n: nat, ca: seq<Clause>, w: Watches, bound: int, r: CRef, d: Clause)
    requires n == |a.assigns| && r < |ca| && SamePair(ca[r], d) && ca[r].lits[0] != ca[r].lits[1]
    requires ListsOk(n, ca, w) && Attached(ca, w) && WatchSem(a, ca, w, bound)
    ensures ListsOk(n, ca[r := d], w) && Attached(ca[r := d], w) && WatchSem(a, ca[r := d], w, bound)
  {
  }

  // ---------- one watcher of the list being propagated ----------

  /** Replacing the blocker of one entry of the list under propagation. */
  lemma KeepWatcher(a: Asg, n: nat, ca: seq<Clause>, w: Watches, bound: int, p: Lit,
                    kept: seq<Watcher>, e: Watcher, rest: seq<Watcher>, f: Watcher)
    requires p in w && w[p] == kept + [e] + rest && p.v < n
    requires ListsOk(n, ca, w) && Attached(ca, w) && WatchSem(a, ca, w, bound) && !Processed(a, p, bound)
    requires f.cref == e.cref && e.cref < |ca| && f.blocker in ca[e.cref].lits
    ensures var w' := w[p := kept + [f] + rest];
            ListsOk(n, ca, w') && Attached(ca, w') && WatchSem(a, ca, w', bound)
  {
    var w': Watches := w[p := kept + [f] + rest];
    assert forall i :: 0 <= i < |w[p]| ==> w'[p][i].cref == w[p][i].cref;
    forall z: Lit | z.v < n ensures z in w' && ListOk(ca, z, w'[z]) {
      assert ListOk(ca, z, w[z]);
      if z == p {
        assert w[p][|kept|] == e;
        forall i | 0 <= i < |w'[p]| ensures EntryShape(ca, p, w'[p][i]) {
          assert EntryShape(ca, p, w[p][i]);
        }
      }
    }
    forall x, z: Lit | AttachedIn(w, z, x) ensures AttachedIn(w', z, x) {
      var i :| 0 <= i < |w[z]| && w[z][i].cref == x;
      assert w'[z][i].cref == x;
    }
    forall z: Lit | Processed(a, z, bound) && z in w' ensures ListSat(a, ca, z, w'[z]) {
      assert ListSat(a, ca, z, w[z]);
    }
  }

  /** The clause after its second watch has been exchanged for literal k. */
  function Moved(c: Clause, k: nat): Clause
    requires 2 <= k < |c.lits|
  {
    c.(lits := c.lits[1 := c.lits[k]][k := c.lits[1]])
  }

  ghost function MovedWatches(w: Watches, p: Lit, kept: seq<Watcher>, rest: seq<Watcher>, q: Lit, f: Watcher): Watches
    requires q in w
  {
    AppendTo(w[p := kept + rest], q, f)
  }

  lemma MovedClauseOk(n: nat, c: Clause, k: nat)
    requires ClauseOk(n, c) && 2 <= k < |c.lits|
    ensures ClauseOk(n, Moved(c, k)) && SameElements(c.lits, Moved(c, k).lits) && multiset(c.lits) == multiset(Moved(c, k).lits)
  {
    var d := Moved(c, k);
    forall x | x in c.lits ensures x in d.lits {
      var i :| 0 <= i < |c.lits| && c.lits[i] == x;
      assert d.lits[if i == 1 then k else if i == k then 1 else i] == x;
    }
  }

  lemma MoveKeepsShape(n: nat, ca: seq<Clause>, w: Watches, p: Lit,
                       kept: seq<Watcher>, e: Watcher, rest: seq<Watcher>, k: nat)
    requires p in w && w[p] == kept + [e] + rest && p.v < n
    requires ClausesOk(n, ca) && ListsOk(n, ca, w)
    requires e.cref < |ca| && 2 <= k < |ca[e.cref].lits| && ca[e.cref].lits[1] == Neg(p)
    ensures Neg(ca[e.cref].lits[k]) in w && Neg(ca[e.cref].lits[k]) != p
    ensures ListsOk(n, ca[e.cref := Moved(ca[e.cref], k)],
                    MovedWatches(w, p, kept, rest, Neg(ca[e.cref].lits[k]), Watcher(e.cref, ca[e.cref].lits[0])))
  {
    var r, c := e.cref, ca[e.cref];
    assert ClauseOk(n, c);
    MovedClauseOk(n, c, k);
    var d, q, ca' := Moved(c, k), Neg(c.lits[k]), ca[r := Moved(c, k)];
    assert c.lits[k] != c.lits[1];
    assert ListOk(ca, p, w[p]) && w[p][|kept|] == e;
    var w' := MovedWatches(w, p, kept, rest, q, Watcher(r, c.lits[0]));
    forall z: Lit | z.v < n ensures z in w' && ListOk(ca', z, w'[z]) {
      assert ListOk(ca, z, w[z]);
      MovedList(ca, z, w[z], r, k);
      if z == p {
        forall i | 0 <= i < |w'[p]| ensures w'[p][i] == w[p][if i < |kept| then i else i + 1] && w'[p][i].cref != r {
          assert w[p][if i < |kept| then i else i + 1].cref != w[p][|kept|].cref;
        }
      }
    }
  }

  /** A list that does not hold clause r, or whose watch is the first literal of r, stays well formed. */
  lemma MovedList(ca: seq<Clause>, z: Lit, ws: seq<Watcher>, r: CRef, k: nat)
    requires ListOk(ca, z, ws) && r < |ca| && 2 <= k < |ca[r].lits| && NoDup(ca[r].lits)
    ensures forall i :: 0 <= i < |ws| && (ws[i].cref != r || z != Neg(ca[r].lits[1])) ==>
              EntryShape(ca[r := Moved(ca[r], k)], z, ws[i])
    ensures z == Neg(ca[r].lits[k]) ==> !HasRef(ws, r)
  {
    var c, d := ca[r], Moved(ca[r], k);
    assert c.lits[0] != c.lits[k] && c.lits[1] != c.lits[k];
    forall i | 0 <= i < |ws| && (ws[i].cref != r || z != Neg(c.lits[1]))
      ensures EntryShape(ca[r := d], z, ws[i])
    {
      assert EntryShape(ca, z, ws[i]);
      if ws[i].cref == r {
        var m :| 0 <= m < |c.lits| && c.lits[m] == ws[i].blocker;
        assert d.lits[if m == 1 then k else if m == k then 1 else m] == ws[i].blocker;
      }
    }
    forall i | 0 <= i < |ws| && z == Neg(c.lits[k]) ensures ws[i].cref != r {
      assert EntryShape(ca, z, ws[i]);
    }
  }

  lemma MoveKeepsRefs(w: Watches, p: Lit, kept: seq<Watcher>, e: Watcher, rest: seq<Watcher>, q: Lit, f: Watcher)
    requires p in w && w[p] == kept + [e] + rest && q in w && q != p
    ensures forall z, x :: AttachedIn(w, z, x) && (x != e.cref || z != p) ==>
              AttachedIn(MovedWatches(w, p, kept, rest, q, f), z, x)
    ensures AttachedIn(MovedWatches(w, p, kept, rest, q, f), q, f.cref)
  {
    var w' := MovedWatches(w, p, kept, rest, q, f);
    forall x, z: Lit | AttachedIn(w, z, x) && (x != e.cref || z != p) ensures AttachedIn(w', z, x) {
      var i :| 0 <= i < |w[z]| && w[z][i].cref == x;
      if z == p {
        assert w[p][|kept|] == e;
        assert w'[p][if i < |kept| then i else i - 1] == w[p][i];
      } else {
        assert w'[z][i] == w[z][i];
      }
    }
    assert w'[q][|w[q]|] == f;
  }

  lemma MoveKeepsAttached(n: nat, ca: seq<Clause>, w: Watches, p: Lit,
                          kept: seq<Watcher>, e: Watcher, rest: seq<Watcher>, k: nat)
    requires p in w && w[p] == kept + [e] + rest && p.v < n
    requires ClausesOk(n, ca) && ListsOk(n, ca, w) && Attached(ca, w)
    requires e.cref < |ca| && 2 <= k < |ca[e.cref].lits| && ca[e.cref].lits[1] == Neg(p)
    ensures Neg(ca[e.cref].lits[k]) in w
    ensures Attached(ca[e.cref := Moved(ca[e.cref], k)],
                     MovedWatches(w, p, kept, rest, Neg(ca[e.cref].lits[k]), Watcher(e.cref, ca[e.cref].lits[0])))
  {
    var r, c := e.cref, ca[e.cref];
    assert ClauseOk(n, c) && c.lits[k] != c.lits[1] && c.lits[0] != c.lits[1];
    var q, ca' := Neg(c.lits[k]), ca[r := Moved(c, k)];
    assert ListOk(ca, q, w[q]);
    MoveKeepsRefs(w, p, kept, e, rest, q, Watcher(r, c.lits[0]));
    var w' := MovedWatches(w, p, kept, rest, q, Watcher(r, c.lits[0]));
    forall x | 0 <= x < |ca'| && !ca'[x].deleted && |ca'[x].lits| >= 2
      ensures AttachedIn(w', Neg(ca'[x].lits[0]), x) && AttachedIn(w', Neg(ca'[x].lits[1]), x)
    {
      assert AttachedIn(w, Neg(ca[x].lits[0]), x) && AttachedIn(w, Neg(ca[x].lits[1]), x);
    }
  }

  lemma MoveKeepsSem(a: Asg, n: nat, ca: seq<Clause>, w: Watches, bound: int, p: Lit,
                     kept: seq<Watcher>, e: Watcher, rest: seq<Watcher>, k: nat)
    requires n == |a.assigns| && p in w && w[p] == kept + [e] + rest && p.v < n
    requires ClausesOk(n, ca) && ListsOk(n, ca, w)
    requires e.cref < |ca| && 2 <= k < |ca[e.cref].lits| && ca[e.cref].lits[1] == Neg(p)
    requires WatchSem(a, ca, w, bound) && !Processed(a, p, bound) && IsTrue(a, p) && !IsFalse(a, ca[e.cref].lits[k])
    ensures Neg(ca[e.cref].lits[k]) in w
    ensures WatchSem(a, ca[e.cref := Moved(ca[e.cref], k)],
                     MovedWatches(w, p, kept, rest, Neg(ca[e.cref].lits[k]), Watcher(e.cref, ca[e.cref].lits[0])), bound)
  {
    var r, c := e.cref, ca[e.cref];
    assert ClauseOk(n, c);
    var q, ca' := Neg(c.lits[k]), ca[r := Moved(c, k)];
    var w' := MovedWatches(w, p, kept, rest, q, Watcher(r, c.lits[0]));
    forall z: Lit | Processed(a, z, bound) && z in w' ensures ListSat(a, ca', z, w'[z]) {
      assert z != p && z != q;
      assert ListSat(a, ca, z, w[z]) && ListOk(ca, z, w[z]);
      forall i | 0 <= i < |w[z]| ensures EntryOk(a, ca', z, w[z][i]) {
        assert EntryOk(a, ca, z, w[z][i]) && EntryShape(ca, z, w[z][i]);
      }
    }
  }

  // ---------- lazy deletion ----------

  lemma DeleteKeepsLists(a: Asg, n: nat, ca: seq<Clause>, w: Watches, bound: int, r: CRef)
    requires n == |a.assigns| && r < |ca|
    requires ClausesOk(n, ca) && ListsOk(n, ca, w) && Attached(ca, w) && WatchSem(a, ca, w, bound)
    ensures var ca' := ca[r := ca[r].(deleted := true)];
            ClausesOk(n, ca') && ListsOk(n, ca', w) && Attached(ca', w) && WatchSem(a, ca', w, bound)
  {
    var ca' := ca[r := ca[r].(deleted := true)];
    forall x | 0 <= x < |ca'| ensures ClauseOk(n, ca'[x]) {
      assert ClauseOk(n, ca[x]);
    }
    forall z: Lit | z.v < n ensures z in w && ListOk(ca', z, w[z]) {
      assert ListOk(ca, z, w[z]);
      forall i | 0 <= i < |w[z]| ensures EntryShape(ca', z, w[z][i]) {
        assert EntryShape(ca, z, w[z][i]);
      }
    }
    forall z: Lit | Processed(a, z, bound) && z in w ensures ListSat(a, ca', z, w[z]) {
      assert ListSat(a, ca, z, w[z]);
      forall i | 0 <= i < |w[z]| ensures EntryOk(a, ca', z, w[z][i]) {
        assert EntryOk(a, ca, z, w[z][i]);
      }
    }
  }

  predicate Dead(ca: seq<Clause>, e: Watcher) {
    e.cref >= |ca| || ca[e.cref].deleted
  }

  /** The entries of a list that refer to live clauses, in their order. */
  function LiveEntries(ca: seq<Clause>, ws: seq<Watcher>): seq<Watcher> {
    if ws == [] then []
    else LiveEntries(ca, ws[..|ws| - 1]) + if Dead(ca, ws[|ws| - 1]) then [] else [ws[|ws| - 1]]
  }

  lemma LiveNone(ca: seq<Clause>, ws: seq<Watcher>)
    ensures ws[..0] == [] == LiveEntries(ca, ws[..0])
  {
  }

  /** One step of compacting a list in place: the entry at index i is copied down to j, or skipped. */
  lemma LiveStep(ca: seq<Clause>, was: seq<Watcher>, ws: seq<Watcher>, i: nat, j: nat)
    requires j <= i < |was| == |ws| && ws[..j] == LiveEntries(ca, was[..i]) && ws[i..] == was[i..]
    ensures Dead(ca, ws[i]) ==> ws[..j] == LiveEntries(ca, was[..i + 1]) && ws[i + 1..] == was[i + 1..]
    ensures !Dead(ca, ws[i]) ==> ws[j := ws[i]][..j + 1] == LiveEntries(ca, was[..i + 1]) && ws[j := ws[i]][i + 1..] == was[i + 1..]
  {
    var shorter := was[..i + 1];
    assert shorter[..|shorter| - 1] == was[..i] && shorter[|shorter| - 1] == was[i];
    assert ws[i] == ws[i..][0] == was[i..][0] == was[i];
    assert ws[i + 1..] == ws[i..][1..] && was[i + 1..] == was[i..][1..];
    if !Dead(ca, ws[i]) {
      assert ws[j := ws[i]][..j + 1] == ws[..j] + [was[i]];
      assert ws[j := ws[i]][i + 1..] == ws[i + 1..];
    }
  }

  lemma {:induction false} LiveEntriesExact(ca: seq<Clause>, ws: seq<Watcher>)
    ensures forall e :: e in LiveEntries(ca, ws) <==> e in ws && !Dead(ca, e)
  {
    if ws != [] {
      var front, last := ws[..|ws| - 1], ws[|ws| - 1];
      assert ws == front + [last];
      LiveEntriesExact(ca, front);
    }
  }

  lemma {:induction false} LiveEntriesDistinct(ca: seq<Clause>, ws: seq<Watcher>)
    requires forall i, j :: 0 <= i < j < |ws| ==> ws[i].cref != ws[j].cref
    ensures forall i, j :: 0 <= i < j < |LiveEntries(ca, ws)| ==> LiveEntries(ca, ws)[i].cref != LiveEntries(ca, ws)[j].cref
  {
    if ws != [] {
      var front, last := ws[..|ws| - 1], ws[|ws| - 1];
      LiveEntriesDistinct(ca, front);
      LiveEntriesExact(ca, front);
      forall i | 0 <= i < |LiveEntries(ca, front)| ensures LiveEntries(ca, front)[i].cref != last.cref {
        assert LiveEntries(ca, front)[i] in front;
      }
    }
  }

  lemma CleanListShape(n: nat, ca: seq<Clause>, w: Watches, p: Lit)
    requires p in w && ListsOk(n, ca, w)
    ensures ListsOk(n, ca, w[p := LiveEntries(ca, w[p])])
  {
    var ws, vs := w[p], LiveEntries(ca, w[p]);
    LiveEntriesExact(ca, ws);
    assert ListOk(ca, p, ws);
    LiveEntriesDistinct(ca, ws);
    forall i | 0 <= i < |vs| ensures EntryShape(ca, p, vs[i]) {
      assert vs[i] in vs;
    }
  }

  lemma CleanListRefs(ca: seq<Clause>, w: Watches, p: Lit)
    requires p in w && Attached(ca, w)
    ensures Attached(ca, w[p := LiveEntries(ca, w[p])])
  {
    var w': Watches := w[p := LiveEntries(ca, w[p])];
    LiveEntriesExact(ca, w[p]);
    forall z, x | AttachedIn(w, z, x) && 0 <= x < |ca| && !ca[x].deleted ensures AttachedIn(w', z, x) {
      var i :| 0 <= i < |w[z]| && w[z][i].cref == x;
      assert w[z][i] in w'[z];
    }
  }

  lemma CleanListKeeps(a: Asg, n: nat, ca: seq<Clause>, w: Watches, bound: int, p: Lit)
    requires p in w && ListsOk(n, ca, w) && Attached(ca, w) && WatchSem(a, ca, w, bound)
    ensures var w': Watches := w[p := LiveEntries(ca, w[p])];
            ListsOk(n, ca, w') && Attached(ca, w') && WatchSem(a, ca, w', bound) && NoDead(ca, w'[p])
  {
    hide ListsOk, Attached, EntryOk, IsTrue;
    var vs := LiveEntries(ca, w[p]);
    CleanListShape(n, ca, w, p);
    CleanListRefs(ca, w, p);
    LiveEntriesExact(ca, w[p]);
    forall i | 0 <= i < |vs| ensures vs[i] in w[p] && !Dead(ca, vs[i]) {
      assert vs[i] in vs;
    }
  }

  /** All lists without the entries of deleted clauses. */
  ghost function CleanedWatches(ca: seq<Clause>, w: Watches): Watches {
    map p | p in w :: LiveEntries(ca, w[p])
  }

  lemma {:induction false} LiveEntriesIdle(ca: seq<Clause>, ws: seq<Watcher>)
    requires NoDead(ca, ws)
    ensures LiveEntries(ca, ws) == ws
  {
    if ws != [] {
      var front, last := ws[..|ws| - 1], ws[|ws| - 1];
      assert ws == front + [last];
      assert !Dead(ca, last);
      LiveEntriesIdle(ca, front);
    }
  }

  lemma {:induction false} LiveEntriesNoDead(ca: seq<Clause>, ws: seq<Watcher>)
    ensures NoDead(ca, LiveEntries(ca, ws))
  {
    LiveEntriesExact(ca, ws);
    var vs := LiveEntries(ca, ws);
    forall i | 0 <= i < |vs| ensures vs[i].cref < |ca| && !ca[vs[i].cref].deleted {
      assert vs[i] in vs;
    }
  }

  /** Cleaning one list early makes no difference in the end. */
  lemma CleanedOne(ca: seq<Clause>, w: Watches, p: Lit)
    requires p in w
    ensures CleanedWatches(ca, w[p := LiveEntries(ca, w[p])]) == CleanedWatches(ca, w)
  {
    LiveEntriesNoDead(ca, w[p]);
    LiveEntriesIdle(ca, LiveEntries(ca, w[p]));
  }

  lemma NothingToClean(ca: seq<Clause>, w: Watches)
    requires Clean(ca, w)
    ensures CleanedWatches(ca, w) == w
  {
    forall p | p in w ensures LiveEntries(ca, w[p]) == w[p] {
      LiveEntriesIdle(ca, w[p]);
    }
  }
}
