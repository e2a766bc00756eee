/** The shared invariant of the solver, and that each elementary step of propagation keeps it. */
module Invariant {
  import opened Literals
  import opened Assignment
  import opened Watching
  import opened Meaning

  /** Trail, reasons, decisions, clause database and meaning. */
  ghost predicate DbInv(orig: seq<seq<Lit>>, assumptions: seq<Lit>, a: Asg, ca: seq<Clause>) {
    && TrailInv(a) && ReasonInv(a, ca) && DecisionInv(a, assumptions)
    && ClausesOk(|a.assigns|, ca) && Sound(orig, ca, a)
  }

  ghost predicate WatchShape(n: nat, ca: seq<Clause>, w: Watches) {
    ListsOk(n, ca, w) && Attached(ca, w)
  }

  ghost predicate WatchInv(a: Asg, ca: seq<Clause>, w: Watches, bound: int) {
    WatchShape(|a.assigns|, ca, w) && WatchSem(a, ca, w, bound) && Clean(ca, w)
  }

  /** The state while the list of p is being visited; 'list' is what remains of it, kept part first. */
  ghost predicate Propagating(orig: seq<seq<Lit>>, assumptions: seq<Lit>, a: Asg, ca: seq<Clause>, w: Watches,
                              p: Lit, list: seq<Watcher>) {
    && p in w
    && DbInv(orig, assumptions, a, ca)
    && IsTrue(a, p) && a.level[p.v] == |a.lim|
    && WatchInv(a, ca, w[p := list], a.pos[p.v])
  }

  lemma LockedClauseIsTrue(a: Asg, ca: seq<Clause>, r: CRef, d: Clause)
    requires TrailInv(a) && ReasonInv(a, ca) && r < |ca| && |ca[r].lits| > 0 && !IsTrue(a, ca[r].lits[0])
    ensures ReasonInv(a, ca[r := d])
  {
  }

  lemma KeepClean(ca: seq<Clause>, w: Watches, p: Lit, kept: seq<Watcher>, e: Watcher, rest: seq<Watcher>, f: Watcher)
    requires p in w && w[p] == kept + [e] + rest && f.cref == e.cref && Clean(ca, w)
    ensures Clean(ca, w[p := kept + [f] + rest])
  {
    var w2: Watches := w[p := kept + [f] + rest];
    assert forall i :: 0 <= i < |w2[p]| ==> w2[p][i].cref == w[p][i].cref;
    forall z: Lit | z in w2 ensures NoDead(ca, w2[z]) {
      assert NoDead(ca, w[z]);
    }
  }

  lemma NotYetProcessed(a: Asg, p: Lit)
    requires SameSize(a) && IsSet(a, p.v)
    ensures !Processed(a, p, a.pos[p.v])
  {
  }

  lemma KeepInv(a: Asg, ca: seq<Clause>, w: Watches, p: Lit, kept: seq<Watcher>, e: Watcher, rest: seq<Watcher>, f: Watcher)
    requires p in w && w[p] == kept + [e] + rest && IsSet(a, p.v) && SameSize(a)
    requires WatchInv(a, ca, w, a.pos[p.v])
    requires f.cref == e.cref && e.cref < |ca| && f.blocker in ca[e.cref].lits
    ensures WatchInv(a, ca, w[p := kept + [f] + rest], a.pos[p.v])
  {
    hide ListsOk, Attached, WatchSem, Clean, Processed;
    NotYetProcessed(a, p);
    KeepWatcher(a, |a.assigns|, ca, w, a.pos[p.v], p, kept, e, rest, f);
    KeepClean(ca, w, p, kept, e, rest, f);
  }

  ghost predicate AllFalse(a: Asg, ca: seq<Clause>, r: CRef) {
    r < |ca| && !ca[r].deleted && forall i :: 0 <= i < |ca[r].lits| ==> IsFalse(a, ca[r].lits[i])
  }

  /** A live clause with all literals false, the negation of p among them. */
  ghost predicate ConflictAt(a: Asg, ca: seq<Clause>, r: CRef, p: Lit) {
    AllFalse(a, ca, r) && |ca[r].lits| >= 2 && ca[r].lits[1] == Neg(p)
  }

  /** Only clause r has changed, and only in the order of its literals. */
  ghost predicate Reordered(ca: seq<Clause>, cb: seq<Clause>, r: CRef) {
    r < |ca| && |cb| == |ca| && cb == ca[r := cb[r]] && SameClause(ca[r], cb[r])
  }

  lemma Overwrite(w: Watches, p: Lit, x: seq<Watcher>, y: seq<Watcher>)
    ensures w[p := x][p := y] == w[p := y]
  {
  }

  lemma OverwriteAppend(w: Watches, p: Lit, x: seq<Watcher>, y: seq<Watcher>, q: Lit, f: Watcher)
    requires q in w && q != p
    ensures AppendTo(w, q, f)[p := y] == AppendTo(w[p := x][p := y], q, f)
  {
  }

  lemma StepKeep(orig: seq<seq<Lit>>, assumptions: seq<Lit>, a: Asg, ca: seq<Clause>, w: Watches, p: Lit,
                 kept: seq<Watcher>, e: Watcher, rest: seq<Watcher>, f: Watcher)
    requires Propagating(orig, assumptions, a, ca, w, p, kept + [e] + rest)
    requires f.cref == e.cref && e.cref < |ca| && f.blocker in ca[e.cref].lits
    ensures Propagating(orig, assumptions, a, ca, w, p, kept + [f] + rest)
  {
    var w1: Watches := w[p := kept + [e] + rest];
    KeepInv(a, ca, w1, p, kept, e, rest, f);
    Overwrite(w, p, kept + [e] + rest, kept + [f] + rest);
  }

  lemma UpdateKeepsClean(ca: seq<Clause>, w: Watches, r: CRef, d: Clause)
    requires Clean(ca, w) && r < |ca| && ca[r].deleted == d.deleted
    ensures Clean(ca[r := d], w)
  {
  }

  /** The first two literals exchanged. */
  function FirstTwoSwapped(c: Clause): Clause
    requires |c.lits| >= 2
  {
    c.(lits := c.lits[0 := c.lits[1]][1 := c.lits[0]])
  }

  lemma SwappedSame(n: nat, c: Clause)
    requires ClauseOk(n, c)
    ensures ClauseOk(n, FirstTwoSwapped(c)) && SamePair(c, FirstTwoSwapped(c))
  {
    var d := FirstTwoSwapped(c);
    forall x | x in c.lits ensures x in d.lits {
      var i :| 0 <= i < |c.lits| && c.lits[i] == x;
      assert d.lits[if i == 0 then 1 else if i == 1 then 0 else i] == x;
    }
  }

  lemma StepSwap(orig: seq<seq<Lit>>, assumptions: seq<Lit>, a: Asg, ca: seq<Clause>, w: Watches, p: Lit,
                 list: seq<Watcher>, r: CRef)
    requires Propagating(orig, assumptions, a, ca, w, p, list)
    requires r < |ca| && |ca[r].lits| >= 2 && ca[r].lits[0] == Neg(p)
    ensures Propagating(orig, assumptions, a, ca[r := FirstTwoSwapped(ca[r])], w, p, list)
  {
    var n, d := |a.assigns|, FirstTwoSwapped(ca[r]);
    assert ClauseOk(n, ca[r]);
    SwappedSame(n, ca[r]);
    LockedClauseIsTrue(a, ca, r, d);
    ReorderKeepsMeaning(orig, ca, a, r, d);
    SwapKeepsLists(a, n, ca, w[p := list], a.pos[p.v], r, d);
    UpdateKeepsClean(ca, w[p := list], r, d);
  }

  lemma MoveDb(orig: seq<seq<Lit>>, assumptions: seq<Lit>, a: Asg, ca: seq<Clause>, r: CRef, k: nat)
    requires DbInv(orig, assumptions, a, ca) && r < |ca| && 2 <= k < |ca[r].lits| && !IsTrue(a, ca[r].lits[0])
    ensures DbInv(orig, assumptions, a, ca[r := Moved(ca[r], k)])
  {
    assert ClauseOk(|a.assigns|, ca[r]);
    MovedClauseOk(|a.assigns|, ca[r], k);
    LockedClauseIsTrue(a, ca, r, Moved(ca[r], k));
    ReorderKeepsMeaning(orig, ca, a, r, Moved(ca[r], k));
  }

  lemma MoveInv(a: Asg, ca: seq<Clause>, w: Watches, p: Lit, kept: seq<Watcher>, e: Watcher, rest: seq<Watcher>, k: nat)
    requires p in w && w[p] == kept + [e] + rest && IsTrue(a, p) && SameSize(a)
    requires ClausesOk(|a.assigns|, ca) && WatchInv(a, ca, w, a.pos[p.v])
    requires e.cref < |ca| && 2 <= k < |ca[e.cref].lits| && ca[e.cref].lits[1] == Neg(p) && !IsFalse(a, ca[e.cref].lits[k])
    ensures Neg(ca[e.cref].lits[k]) in w && Neg(ca[e.cref].lits[k]) != p
    ensures WatchInv(a, ca[e.cref := Moved(ca[e.cref], k)],
                     MovedWatches(w, p, kept, rest, Neg(ca[e.cref].lits[k]), Watcher(e.cref, ca[e.cref].lits[0])), a.pos[p.v])
  {
    var n := |a.assigns|;
    MoveKeepsShape(n, ca, w, p, kept, e, rest, k);
    MoveKeepsAttached(n, ca, w, p, kept, e, rest, k);
    MoveKeepsSem(a, n, ca, w, a.pos[p.v], p, kept, e, rest, k);
    MoveKeepsClean(ca, w, p, kept, e, rest, Neg(ca[e.cref].lits[k]), Watcher(e.cref, ca[e.cref].lits[0]), Moved(ca[e.cref], k));
  }

  lemma StepMove(orig: seq<seq<Lit>>, assumptions: seq<Lit>, a: Asg, ca: seq<Clause>, w: Watches, p: Lit,
                 kept: seq<Watcher>, e: Watcher, rest: seq<Watcher>, k: nat)
    requires Propagating(orig, assumptions, a, ca, w, p, kept + [e] + rest)
    requires e.cref < |ca| && 2 <= k < |ca[e.cref].lits| && ca[e.cref].lits[1] == Neg(p)
    requires !IsTrue(a, ca[e.cref].lits[0]) && !IsFalse(a, ca[e.cref].lits[k])
    ensures Neg(ca[e.cref].lits[k]) in w && Neg(ca[e.cref].lits[k]) != p
    ensures Propagating(orig, assumptions, a, ca[e.cref := Moved(ca[e.cref], k)],
                        AppendTo(w, Neg(ca[e.cref].lits[k]), Watcher(e.cref, ca[e.cref].lits[0])), p, kept + rest)
  {
    var q, f := Neg(ca[e.cref].lits[k]), Watcher(e.cref, ca[e.cref].lits[0]);
    var w1: Watches := w[p := kept + [e] + rest];
    MoveDb(orig, assumptions, a, ca, e.cref, k);
    MoveInv(a, ca, w1, p, kept, e, rest, k);
    OverwriteAppend(w, p, kept + [e] + rest, kept + rest, q, f);
  }

  lemma MoveKeepsClean(ca: seq<Clause>, w: Watches, p: Lit, kept: seq<Watcher>, e: Watcher, rest: seq<Watcher>,
                       q: Lit, f: Watcher, d: Clause)
    requires p in w && q in w && q != p && w[p] == kept + [e] + rest && Clean(ca, w)
    requires e.cref < |ca| && f.cref == e.cref && d.deleted == ca[e.cref].deleted
    ensures Clean(ca[e.cref := d], MovedWatches(w, p, kept, rest, q, f))
  {
    var w' := MovedWatches(w, p, kept, rest, q, f);
    UpdateKeepsClean(ca, w, e.cref, d);
    var ca' := ca[e.cref := d];
    assert NoDead(ca', w[p]) && w[p][|kept|] == e;
    forall z: Lit | z in w' ensures NoDead(ca', w'[z]) {
      assert NoDead(ca', w[z]);
      if z == p {
        assert forall i :: 0 <= i < |w'[p]| ==> w'[p][i] == w[p][if i < |kept| then i else i + 1];
      }
    }
  }

  lemma StepUnit(orig: seq<seq<Lit>>, assumptions: seq<Lit>, a: Asg, ca: seq<Clause>, w: Watches, p: Lit,
                 list: seq<Watcher>, r: CRef)
    requires Propagating(orig, assumptions, a, ca, w, p, list)
    requires r < |ca| && !ca[r].deleted && |ca[r].lits| >= 2
    requires !IsSet(a, ca[r].lits[0].v)
    requires forall k :: 1 <= k < |ca[r].lits| ==> IsFalse(a, ca[r].lits[k])
    ensures ca[r].lits[0].v < |a.assigns|
    ensures Propagating(orig, assumptions, Enqueue(a, ca[r].lits[0], Some(r)), ca, w, p, list)
  {
    var first := ca[r].lits[0];
    var b := Enqueue(a, first, Some(r));
    assert ClauseOk(|a.assigns|, ca[r]);
    TrueOnTrail(a, p);
    EnqueueKeepsTrail(a, first, Some(r));
    EnqueueKeepsReasons(a, ca, first, Some(r));
    EnqueueKeepsDecisions(a, assumptions, first, Some(r));
    EnqueueKeepsWatches(a, ca, w[p := list], a.pos[p.v], first, Some(r));
    if a.lim == [] {
      UnitAtTop(orig, ca, a, r);
    }
    EnqueueKeepsMeaning(orig, ca, a, first, Some(r));
  }

  /** While p is at the current level, a true literal anywhere is at no higher level. */
  lemma TrueSuffices(a: Asg, ca: seq<Clause>, p: Lit, e: Watcher)
    requires TrailInv(a) && IsSet(a, p.v) && a.level[p.v] == |a.lim| && e.cref < |ca| && |ca[e.cref].lits| >= 2
    requires IsTrue(a, e.blocker) || IsTrue(a, Other(ca[e.cref], p))
    ensures EntryOk(a, ca, p, e)
  {
    var q := if IsTrue(a, e.blocker) then e.blocker else Other(ca[e.cref], p);
    assert IsSet(a, q.v) && LevelOk(a, q.v);
  }

  /** When the whole list of p has been kept as satisfied, p counts as processed. */
  lemma ListDone(a: Asg, ca: seq<Clause>, w: Watches, p: Lit)
    requires TrailInv(a) && IsTrue(a, p) && p in w && WatchSem(a, ca, w, a.pos[p.v]) && ListSat(a, ca, p, w[p])
    ensures WatchSem(a, ca, w, a.pos[p.v] + 1)
  {
  }

  // ---------- one watcher, as a function of the state ----------

  datatype Visited = Visited(a: Asg, ca: seq<Clause>, w: Watches, keep: Option<Watcher>, confl: bool)

  ghost predicate VisitReady(a: Asg, ca: seq<Clause>, w: Watches, p: Lit, e: Watcher) {
    && SameSize(a) && e.cref < |ca| && |ca[e.cref].lits| >= 2 && e.blocker.v < |a.assigns|
    && (forall i :: 0 <= i < |ca[e.cref].lits| ==> ca[e.cref].lits[i].v < |a.assigns| && Neg(ca[e.cref].lits[i]) in w)
    && (ca[e.cref].lits[0] == Neg(p) || ca[e.cref].lits[1] == Neg(p))
  }

  ghost function NextWatch(a: Asg, lits: seq<Lit>, k: nat): nat
    requires k <= |lits|
    ensures k <= NextWatch(a, lits, k) <= |lits|
    ensures forall i :: k <= i < NextWatch(a, lits, k) ==> IsFalse(a, lits[i])
    ensures NextWatch(a, lits, k) < |lits| ==> !IsFalse(a, lits[NextWatch(a, lits, k)])
    decreases |lits| - k
  {
    if k == |lits| || !IsFalse(a, lits[k]) then k else NextWatch(a, lits, k + 1)
  }

  /** The clause with its false watch in second place. */
  function FalseSecond(c: Clause, p: Lit): Clause
    requires |c.lits| >= 2
  {
    if c.lits[0] == Neg(p) then FirstTwoSwapped(c) else c
  }

  ghost function Visit(a: Asg, ca: seq<Clause>, w: Watches, p: Lit, e: Watcher): Visited
    requires VisitReady(a, ca, w, p, e)
  {
    if IsTrue(a, e.blocker) then Visited(a, ca, w, Some(e), false)
    else
      var c := FalseSecond(ca[e.cref], p);
      VisitClause(a, ca[e.cref := c], w, e.cref, c, c.lits[0] != e.blocker && IsTrue(a, c.lits[0]))
  }

  ghost function VisitClause(a: Asg, ca: seq<Clause>, w: Watches, r: CRef, c: Clause, satisfied: bool): Visited
    requires SameSize(a) && r < |ca| && |c.lits| >= 2
    requires forall i :: 0 <= i < |c.lits| ==> c.lits[i].v < |a.assigns| && Neg(c.lits[i]) in w
  {
    var f := Watcher(r, c.lits[0]);
    var k := NextWatch(a, c.lits, 2);
    if satisfied then Visited(a, ca, w, Some(f), false)
    else if k < |c.lits| then Visited(a, ca[r := Moved(c, k)], AppendTo(w, Neg(c.lits[k]), f), None, false)
    else if IsFalse(a, c.lits[0]) then Visited(a, ca, w, Some(f), true)
    else Visited(Enqueue(a, c.lits[0], Some(r)), ca, w, Some(f), false)
  }

  function AsSeq<T>(o: Option<T>): seq<T> {
    if o.Some? then [o.value] else []
  }

  /** What one visit promises. */
  ghost predicate VisitPost(orig: seq<seq<Lit>>, assumptions: seq<Lit>, a: Asg, ca: seq<Clause>, s: Visited, p: Lit,
                            kept: seq<Watcher>, r: CRef, rest: seq<Watcher>) {
    && Propagating(orig, assumptions, s.a, s.ca, s.w, p, kept + AsSeq(s.keep) + rest)
    && Extends(a, s.a) && Reordered(ca, s.ca, r)
    && (s.keep.Some? ==> s.keep.value.cref == r)
    && (s.keep.Some? && !s.confl ==> EntryOk(s.a, s.ca, p, s.keep.value))
    && (s.confl ==> s.keep.Some? && ConflictAt(s.a, s.ca, r, p))
  }

  lemma EntryOfList(ca: seq<Clause>, p: Lit, kept: seq<Watcher>, e: Watcher, rest: seq<Watcher>)
    requires ListOk(ca, p, kept + [e] + rest) && NoDead(ca, kept + [e] + rest)
    ensures EntryShape(ca, p, e) && !ca[e.cref].deleted && !HasRef(kept, e.cref) && !HasRef(rest, e.cref)
  {
    var list := kept + [e] + rest;
    assert list[|kept|] == e;
    forall i | 0 <= i < |kept| ensures kept[i].cref != e.cref {
      assert list[i].cref != list[|kept|].cref;
    }
    forall i | 0 <= i < |rest| ensures rest[i].cref != e.cref {
      assert list[|kept|].cref != list[|kept| + 1 + i].cref;
    }
  }

  lemma ShapeOfList(n: nat, ca: seq<Clause>, w: Watches, p: Lit, list: seq<Watcher>)
    requires p.v < n && ListsOk(n, ca, w[p := list]) && p in w
    ensures ListOk(ca, p, list) && forall q: Lit :: q.v < n ==> q in w
  {
  }

  lemma ReadyToVisit(orig: seq<seq<Lit>>, assumptions: seq<Lit>, a: Asg, ca: seq<Clause>, w: Watches, p: Lit,
                     kept: seq<Watcher>, e: Watcher, rest: seq<Watcher>)
    requires Propagating(orig, assumptions, a, ca, w, p, kept + [e] + rest)
    ensures VisitReady(a, ca, w, p, e) && !ca[e.cref].deleted && e.blocker in ca[e.cref].lits
    ensures !HasRef(kept, e.cref) && !HasRef(rest, e.cref)
  {
    var list := kept + [e] + rest;
    ShapeOfList(|a.assigns|, ca, w, p, list);
    assert NoDead(ca, w[p := list][p]);
    EntryOfList(ca, p, kept, e, rest);
    assert ClauseOk(|a.assigns|, ca[e.cref]);
  }

  ghost predicate ClauseReady(orig: seq<seq<Lit>>, assumptions: seq<Lit>, a: Asg, ca: seq<Clause>, w: Watches, p: Lit,
                              kept: seq<Watcher>, rest: seq<Watcher>, r: CRef) {
    && r < |ca| && !ca[r].deleted && |ca[r].lits| >= 2 && ca[r].lits[1] == Neg(p) && SameSize(a)
    && (forall i :: 0 <= i < |ca[r].lits| ==> ca[r].lits[i].v < |a.assigns| && Neg(ca[r].lits[i]) in w)
    && Propagating(orig, assumptions, a, ca, w, p, kept + [Watcher(r, ca[r].lits[0])] + rest)
  }

  lemma PutFalseSecond(orig: seq<seq<Lit>>, assumptions: seq<Lit>, a: Asg, ca: seq<Clause>, w: Watches, p: Lit,
                       kept: seq<Watcher>, e: Watcher, rest: seq<Watcher>)
    requires Propagating(orig, assumptions, a, ca, w, p, kept + [e] + rest) && VisitReady(a, ca, w, p, e)
    ensures var c := FalseSecond(ca[e.cref], p);
            && Propagating(orig, assumptions, a, ca[e.cref := c], w, p, kept + [e] + rest)
            && SamePair(ca[e.cref], c)
  {
    var r, c := e.cref, FalseSecond(ca[e.cref], p);
    assert ClauseOk(|a.assigns|, ca[r]);
    if ca[r].lits[0] == Neg(p) {
      SwappedSame(|a.assigns|, ca[r]);
      StepSwap(orig, assumptions, a, ca, w, p, kept + [e] + rest, r);
    } else {
      assert ca[r := c] == ca;
    }
  }

  lemma MakeClauseReady(orig: seq<seq<Lit>>, assumptions: seq<Lit>, a: Asg, ca: seq<Clause>, w: Watches, p: Lit,
                        kept: seq<Watcher>, e: Watcher, rest: seq<Watcher>)
    requires Propagating(orig, assumptions, a, ca, w, p, kept + [e] + rest)
    requires e.cref < |ca| && |ca[e.cref].lits| >= 2 && ca[e.cref].lits[1] == Neg(p)
    ensures ClauseReady(orig, assumptions, a, ca, w, p, kept, rest, e.cref)
  {
    ReadyToVisit(orig, assumptions, a, ca, w, p, kept, e, rest);
    StepKeep(orig, assumptions, a, ca, w, p, kept, e, rest, Watcher(e.cref, ca[e.cref].lits[0]));
  }

  lemma PrepareClause(orig: seq<seq<Lit>>, assumptions: seq<Lit>, a: Asg, ca: seq<Clause>, w: Watches, p: Lit,
                      kept: seq<Watcher>, e: Watcher, rest: seq<Watcher>)
    requires Propagating(orig, assumptions, a, ca, w, p, kept + [e] + rest) && VisitReady(a, ca, w, p, e)
    ensures var c := FalseSecond(ca[e.cref], p);
            ClauseReady(orig, assumptions, a, ca[e.cref := c], w, p, kept, rest, e.cref) && SamePair(ca[e.cref], c)
  {
    PutFalseSecond(orig, assumptions, a, ca, w, p, kept, e, rest);
    MakeClauseReady(orig, assumptions, a, ca[e.cref := FalseSecond(ca[e.cref], p)], w, p, kept, e, rest);
  }

  lemma VisitSatisfied(orig: seq<seq<Lit>>, assumptions: seq<Lit>, a: Asg, ca: seq<Clause>, w: Watches, p: Lit,
                       kept: seq<Watcher>, rest: seq<Watcher>, r: CRef)
    requires ClauseReady(orig, assumptions, a, ca, w, p, kept, rest, r) && IsTrue(a, ca[r].lits[0])
    ensures VisitPost(orig, assumptions, a, ca, Visited(a, ca, w, Some(Watcher(r, ca[r].lits[0])), false), p, kept, r, rest)
  {
    TrueSuffices(a, ca, p, Watcher(r, ca[r].lits[0]));
  }

  lemma VisitMoves(orig: seq<seq<Lit>>, assumptions: seq<Lit>, a: Asg, ca: seq<Clause>, w: Watches, p: Lit,
                   kept: seq<Watcher>, rest: seq<Watcher>, r: CRef, k: nat)
    requires ClauseReady(orig, assumptions, a, ca, w, p, kept, rest, r) && !IsTrue(a, ca[r].lits[0])
    requires 2 <= k < |ca[r].lits| && !IsFalse(a, ca[r].lits[k])
    ensures VisitPost(orig, assumptions, a, ca,
              Visited(a, ca[r := Moved(ca[r], k)], AppendTo(w, Neg(ca[r].lits[k]), Watcher(r, ca[r].lits[0])), None, false),
              p, kept, r, rest)
  {
    hide DbInv, WatchInv;
    StepMove(orig, assumptions, a, ca, w, p, kept, Watcher(r, ca[r].lits[0]), rest, k);
    NothingKept(kept, rest);
  }

  lemma NothingKept(kept: seq<Watcher>, rest: seq<Watcher>)
    ensures kept + AsSeq(None) + rest == kept + rest
  {
  }

  lemma VisitUnit(orig: seq<seq<Lit>>, assumptions: seq<Lit>, a: Asg, ca: seq<Clause>, w: Watches, p: Lit,
                  kept: seq<Watcher>, rest: seq<Watcher>, r: CRef)
    requires ClauseReady(orig, assumptions, a, ca, w, p, kept, rest, r)
    requires !IsSet(a, ca[r].lits[0].v) && forall i :: 1 <= i < |ca[r].lits| ==> IsFalse(a, ca[r].lits[i])
    ensures VisitPost(orig, assumptions, a, ca,
              Visited(Enqueue(a, ca[r].lits[0], Some(r)), ca, w, Some(Watcher(r, ca[r].lits[0])), false), p, kept, r, rest)
  {
    var f := Watcher(r, ca[r].lits[0]);
    StepUnit(orig, assumptions, a, ca, w, p, kept + [f] + rest, r);
    EnqueueKeepsTrail(a, f.blocker, Some(r));
    EnqueueExtends(a, f.blocker, Some(r));
    TrueSuffices(Enqueue(a, f.blocker, Some(r)), ca, p, f);
  }

  lemma VisitConflict(orig: seq<seq<Lit>>, assumptions: seq<Lit>, a: Asg, ca: seq<Clause>, w: Watches, p: Lit,
                      kept: seq<Watcher>, rest: seq<Watcher>, r: CRef)
    requires ClauseReady(orig, assumptions, a, ca, w, p, kept, rest, r)
    requires forall i :: 0 <= i < |ca[r].lits| ==> IsFalse(a, ca[r].lits[i])
    ensures VisitPost(orig, assumptions, a, ca, Visited(a, ca, w, Some(Watcher(r, ca[r].lits[0])), true), p, kept, r, rest)
  {
  }

  lemma ReadyFacts(orig: seq<seq<Lit>>, assumptions: seq<Lit>, a: Asg, ca: seq<Clause>, w: Watches, p: Lit,
                   kept: seq<Watcher>, rest: seq<Watcher>, r: CRef)
    requires ClauseReady(orig, assumptions, a, ca, w, p, kept, rest, r)
    ensures IsFalse(a, ca[r].lits[1])
  {
  }

  lemma VisitClauseKeeps(orig: seq<seq<Lit>>, assumptions: seq<Lit>, a: Asg, ca: seq<Clause>, w: Watches, p: Lit,
                         kept: seq<Watcher>, rest: seq<Watcher>, r: CRef, satisfied: bool)
    requires ClauseReady(orig, assumptions, a, ca, w, p, kept, rest, r) && satisfied == IsTrue(a, ca[r].lits[0])
    ensures VisitPost(orig, assumptions, a, ca, VisitClause(a, ca, w, r, ca[r], satisfied), p, kept, r, rest)
  {
    hide Propagating, VisitPost;
    ReadyFacts(orig, assumptions, a, ca, w, p, kept, rest, r);
    var k := NextWatch(a, ca[r].lits, 2);
    if satisfied {
      VisitSatisfied(orig, assumptions, a, ca, w, p, kept, rest, r);
    } else if k < |ca[r].lits| {
      VisitMoves(orig, assumptions, a, ca, w, p, kept, rest, r, k);
    } else if IsFalse(a, ca[r].lits[0]) {
      VisitConflict(orig, assumptions, a, ca, w, p, kept, rest, r);
    } else {
      VisitUnit(orig, assumptions, a, ca, w, p, kept, rest, r);
    }
  }

  lemma ReorderTwice(ca: seq<Clause>, cb: seq<Clause>, r: CRef, c: Clause)
    requires r < |ca| && !ca[r].deleted && SamePair(ca[r], c) && Reordered(ca[r := c], cb, r)
    ensures Reordered(ca, cb, r)
  {
  }

  lemma PostThroughSwap(orig: seq<seq<Lit>>, assumptions: seq<Lit>, a: Asg, ca: seq<Clause>, s: Visited, p: Lit,
                        kept: seq<Watcher>, r: CRef, rest: seq<Watcher>, c: Clause)
    requires r < |ca| && !ca[r].deleted && SamePair(ca[r], c) && VisitPost(orig, assumptions, a, ca[r := c], s, p, kept, r, rest)
    ensures VisitPost(orig, assumptions, a, ca, s, p, kept, r, rest)
  {
    hide Propagating, Extends, EntryOk, ConflictAt;
    ReorderTwice(ca, s.ca, r, c);
  }

  lemma VisitTrueBlocker(orig: seq<seq<Lit>>, assumptions: seq<Lit>, a: Asg, ca: seq<Clause>, w: Watches, p: Lit,
                         kept: seq<Watcher>, e: Watcher, rest: seq<Watcher>)
    requires Propagating(orig, assumptions, a, ca, w, p, kept + [e] + rest) && VisitReady(a, ca, w, p, e) && IsTrue(a, e.blocker)
    ensures VisitPost(orig, assumptions, a, ca, Visited(a, ca, w, Some(e), false), p, kept, e.cref, rest)
  {
    TrueSuffices(a, ca, p, e);
  }

  lemma VisitKeeps(orig: seq<seq<Lit>>, assumptions: seq<Lit>, a: Asg, ca: seq<Clause>, w: Watches, p: Lit,
                   kept: seq<Watcher>, e: Watcher, rest: seq<Watcher>)
    requires Propagating(orig, assumptions, a, ca, w, p, kept + [e] + rest) && VisitReady(a, ca, w, p, e)
    ensures VisitPost(orig, assumptions, a, ca, Visit(a, ca, w, p, e), p, kept, e.cref, rest)
  {
    hide Propagating, VisitPost;
    if IsTrue(a, e.blocker) {
      VisitTrueBlocker(orig, assumptions, a, ca, w, p, kept, e, rest);
    } else {
      var r, c := e.cref, FalseSecond(ca[e.cref], p);
      PrepareClause(orig, assumptions, a, ca, w, p, kept, e, rest);
      var satisfied := c.lits[0] != e.blocker && IsTrue(a, c.lits[0]);
      VisitClauseKeeps(orig, assumptions, a, ca[r := c], w, p, kept, rest, r, satisfied);
      PostThroughSwap(orig, assumptions, a, ca, VisitClause(a, ca[r := c], w, r, c, satisfied), p, kept, r, rest, c);
    }
  }

  // ---------- the whole list ----------

  lemma WholeList(ws: seq<Watcher>)
    ensures ws[..0] + ws[0..] == ws
  {
  }

  lemma EndOfList(ws: seq<Watcher>, j: nat)
    requires j <= |ws|
    ensures ws[..j] + ws[|ws|..] == ws[..j]
  {
  }

  lemma NextEntry(ws: seq<Watcher>, i: nat, j: nat)
    requires j <= i < |ws|
    ensures ws[..j] + ws[i..] == ws[..j] + [ws[i]] + ws[i + 1..]
  {
  }

  lemma ReworkedStep(ca: seq<Clause>, cb: seq<Clause>, cc: seq<Clause>, r: CRef)
    requires Reworked(ca, cb) && Reordered(cb, cc, r)
    ensures Reworked(ca, cc)
  {
  }

  lemma VisitKeepsList(orig: seq<seq<Lit>>, assumptions: seq<Lit>, a: Asg, ca: seq<Clause>, w: Watches, p: Lit,
                       kept: seq<Watcher>, e: Watcher, rest: seq<Watcher>)
    requires Propagating(orig, assumptions, a, ca, w, p, kept + [e] + rest) && ListSat(a, ca, p, kept)
    ensures VisitReady(a, ca, w, p, e)
    ensures var s := Visit(a, ca, w, p, e);
            && VisitPost(orig, assumptions, a, ca, s, p, kept, e.cref, rest)
            && (!s.confl ==> ListSat(s.a, s.ca, p, kept + AsSeq(s.keep)))
  {
    hide Propagating, ListSat, Extends;
    assert IsTrue(a, p) by { ListFacts(orig, assumptions, a, ca, w, p, kept + [e] + rest); }
    ReadyToVisit(orig, assumptions, a, ca, w, p, kept, e, rest);
    VisitKeeps(orig, assumptions, a, ca, w, p, kept, e, rest);
    var s := Visit(a, ca, w, p, e);
    KeptStayVisit(a, ca, p, kept, e, s);
  }

  lemma KeptStayVisit(a: Asg, ca: seq<Clause>, p: Lit, kept: seq<Watcher>, e: Watcher, s: Visited)
    requires ListSat(a, ca, p, kept) && Extends(a, s.a) && Reordered(ca, s.ca, e.cref) && IsTrue(a, p) && !HasRef(kept, e.cref)
    requires s.keep.Some? && !s.confl ==> EntryOk(s.a, s.ca, p, s.keep.value)
    ensures !s.confl ==> ListSat(s.a, s.ca, p, kept + AsSeq(s.keep))
  {
  }

  // ---------- lazily cleaned lists ----------

  /** Only lists on record as dirty may still refer to deleted clauses. */
  ghost predicate DirtyOk(ca: seq<Clause>, w: Watches, dirty: set<Lit>, dirties: seq<Lit>) {
    && (forall p: Lit :: p in w && p !in dirty ==> NoDead(ca, w[p]))
    && (forall p: Lit :: p in dirty ==> p in dirties && p in w)
  }

  lemma SemMonotone(a: Asg, ca: seq<Clause>, w: Watches, low: int, high: int)
    requires WatchSem(a, ca, w, high) && low <= high
    ensures WatchSem(a, ca, w, low)
  {
  }

  lemma CleanOne(a: Asg, ca: seq<Clause>, w: Watches, bound: int, p: Lit, dirty: set<Lit>, dirties: seq<Lit>)
    requires WatchShape(|a.assigns|, ca, w) && WatchSem(a, ca, w, bound) && p in w
    requires dirties != [] && dirties[0] == p && DirtyOk(ca, w, dirty, dirties)
    ensures var w': Watches := w[p := LiveEntries(ca, w[p])];
            WatchShape(|a.assigns|, ca, w') && WatchSem(a, ca, w', bound) && DirtyOk(ca, w', dirty - {p}, dirties[1..])
  {
    CleanListKeeps(a, |a.assigns|, ca, w, bound, p);
    var w': Watches := w[p := LiveEntries(ca, w[p])];
    forall q: Lit | q in w' && q !in dirty - {p} ensures NoDead(ca, w'[q]) {
      assert q != p ==> NoDead(ca, w[q]);
    }
  }

  lemma NextDirty(ca: seq<Clause>, w: Watches, dirty: set<Lit>, dirties: seq<Lit>, i: nat)
    requires i < |dirties| && DirtyOk(ca, w, dirty, dirties[i..])
    ensures dirties[i..][0] == dirties[i] && dirties[i..][1..] == dirties[i + 1..]
    ensures dirties[i] in dirty ==> dirties[i] in w
    ensures dirties[i] !in dirty ==> DirtyOk(ca, w, dirty, dirties[i + 1..])
  {
  }

  lemma CleanAtLast(ca: seq<Clause>, w: Watches, dirty: set<Lit>)
    requires DirtyOk(ca, w, dirty, [])
    ensures Clean(ca, w) && dirty == {}
  {
  }

  /** Before the list of the next queued literal is visited. */
  lemma StartList(orig: seq<seq<Lit>>, assumptions: seq<Lit>, a: Asg, ca: seq<Clause>, w: Watches, q: nat)
    requires DbInv(orig, assumptions, a, ca) && WatchInv(a, ca, w, q) && LevelStart(a) <= q < |a.trail|
    ensures a.trail[q] in w && Propagating(orig, assumptions, a, ca, w, a.trail[q], w[a.trail[q]])
    ensures a.trail[q].v < |a.pos| && a.pos[a.trail[q].v] == q
  {
    var p := a.trail[q];
    assert IsTrue(a, p) && IsSet(a, p.v) && a.pos[p.v] == q;
    assert LevelOk(a, p.v);
    CurrentLevel(a, p.v);
    assert p in w;
    assert w[p := w[p]] == w;
  }

  lemma FinishList(orig: seq<seq<Lit>>, assumptions: seq<Lit>, a: Asg, ca: seq<Clause>, w: Watches, p: Lit)
    requires p in w && Propagating(orig, assumptions, a, ca, w, p, w[p])
    ensures DbInv(orig, assumptions, a, ca) && WatchInv(a, ca, w, a.pos[p.v]) && p.v < |a.pos|
    ensures ListSat(a, ca, p, w[p]) ==> WatchInv(a, ca, w, a.pos[p.v] + 1)
  {
    assert w[p := w[p]] == w;
    if ListSat(a, ca, p, w[p]) {
      ListDone(a, ca, w, p);
    }
  }

  /** What a conflict found by propagation looks like. */
  ghost predicate Conflicting(a: Asg, ca: seq<Clause>, r: CRef) {
    && AllFalse(a, ca, r) && |ca[r].lits| >= 2
    && ca[r].lits[1].v < |a.level| && a.level[ca[r].lits[1].v] == |a.lim|
  }

  lemma ListConflict(orig: seq<seq<Lit>>, assumptions: seq<Lit>, a: Asg, ca: seq<Clause>, w: Watches, p: Lit, r: CRef)
    requires p in w && Propagating(orig, assumptions, a, ca, w, p, w[p]) && ConflictAt(a, ca, r, p)
    requires LevelStart(a) <= a.pos[p.v]
    ensures Conflicting(a, ca, r) && WatchInv(a, ca, w, LevelStart(a))
  {
    assert w[p := w[p]] == w;
    SemMonotone(a, ca, w, LevelStart(a), a.pos[p.v]);
  }

  // ---------- glue for proofs that hide the definitions ----------

  lemma ExtendsFacts(a: Asg, b: Asg)
    requires Extends(a, b)
    ensures |a.trail| <= |b.trail| && a.lim == b.lim && LevelStart(a) == LevelStart(b)
    ensures |a.assigns| == |b.assigns| == |b.level| == |b.reason| == |b.pos|
    ensures forall p: Lit :: IsTrue(a, p) && p.v < |a.pos| ==> IsTrue(b, p) && b.pos[p.v] == a.pos[p.v]
  {
  }

  lemma DbFacts(orig: seq<seq<Lit>>, assumptions: seq<Lit>, a: Asg, ca: seq<Clause>)
    requires DbInv(orig, assumptions, a, ca)
    ensures TrailInv(a) && Extends(a, a) && Reworked(ca, ca) && |a.trail| <= |a.assigns|
  {
    TrailLength(a);
  }

  lemma ListFacts(orig: seq<seq<Lit>>, assumptions: seq<Lit>, a: Asg, ca: seq<Clause>, w: Watches, p: Lit, list: seq<Watcher>)
    requires Propagating(orig, assumptions, a, ca, w, p, list)
    ensures p in w && IsTrue(a, p) && Extends(a, a) && Reworked(ca, ca) && ListSat(a, ca, p, [])
  {
  }

  lemma VisitFacts(orig: seq<seq<Lit>>, assumptions: seq<Lit>, a: Asg, ca: seq<Clause>, s: Visited, p: Lit,
                   kept: seq<Watcher>, r: CRef, rest: seq<Watcher>)
    requires VisitPost(orig, assumptions, a, ca, s, p, kept, r, rest)
    ensures Propagating(orig, assumptions, s.a, s.ca, s.w, p, kept + AsSeq(s.keep) + rest) && p in s.w
    ensures Extends(a, s.a) && Reordered(ca, s.ca, r)
    ensures s.confl ==> ConflictAt(s.a, s.ca, r, p)
  {
  }

  lemma InvFromParts(a: Asg, ca: seq<Clause>, w: Watches, bound: int)
    requires WatchShape(|a.assigns|, ca, w) && WatchSem(a, ca, w, bound) && Clean(ca, w)
    ensures WatchInv(a, ca, w, bound)
  {
  }

  lemma StoreList(orig: seq<seq<Lit>>, assumptions: seq<Lit>, a: Asg, ca: seq<Clause>, w: Watches, p: Lit, list: seq<Watcher>)
    requires Propagating(orig, assumptions, a, ca, w, p, list)
    ensures Propagating(orig, assumptions, a, ca, w[p := list], p, w[p := list][p])
  {
    Overwrite(w, p, list, list);
  }

  lemma DbParts(orig: seq<seq<Lit>>, assumptions: seq<Lit>, a: Asg, ca: seq<Clause>)
    requires DbInv(orig, assumptions, a, ca)
    ensures TrailInv(a) && ReasonInv(a, ca) && DecisionInv(a, assumptions) && ClausesOk(|a.assigns|, ca) && Sound(orig, ca, a)
    ensures |a.assigns| == |a.level|
  {
  }
}
