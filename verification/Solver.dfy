/** The solver: a class whose methods change trail, watch lists, clauses and marks in place. */
module SatSolver {
  import opened Literals
  import opened Assignment
  import opened Watching
  import opened Meaning
  import opened Invariant
  import opened ConflictAnalysis
  import opened Steps
  import opened Normalising
  import opened Relocation
  import opened Strengthening
  import opened Probing
  import opened Progress
  import opened Implication
  import opened Blame
  import opened Learning
  import opened Minimising
  import opened SearchLog
  import LubySequence

  /** What the options allow. */
  type Interval = n: int | n >= 1 witness 1

  type Growth = y: real | y > 1.0 witness 2.0

  class Solver {
    var ok: bool
    var ca: seq<Clause>
    var clauses: seq<CRef>
    var learnts: seq<CRef>
    var watches: Watches
    var dirty: set<Lit>
    var dirties: seq<Lit>
    var assigns: seq<LBool>
    var trail: seq<Lit>
    var trailLim: seq<nat>
    var level: seq<nat>
    var reason: seq<Option<CRef>>
    var qhead: nat
    var assumptions: seq<Lit>
    var seen: seq<bool>
    var toClear: seq<Lit>
    var ccminMode: nat
    var decision: seq<bool>
    var orderHeap: set<Var>
    var removeSat: bool
    var simpDbAssigns: int
    var lubyRestart: bool
    var restartFirst: Interval
    var restartInc: Growth
    var model: seq<LBool>
    var conflict: seq<Lit>
    ghost var pos: seq<nat>
    ghost var loose: set<CRef>
    ghost var probing: bool
    ghost var orig: seq<seq<Lit>>

    ghost function A(): Asg
      reads `assigns, `trail, `trailLim, `level, `reason, `pos, `loose, `probing
    {
      Asg(assigns, trail, trailLim, level, reason, pos, loose, probing)
    }

    function Value(p: Lit): LBool
      requires p.v < |assigns|
      reads this`assigns
      ensures Value(p) == LTrue <==> IsTrue(A(), p)
      ensures Value(p) == LFalse <==> IsFalse(A(), p)
    {
      LitValue(assigns, p)
    }

    method UncheckedEnqueue(p: Lit, from: Option<CRef>)
      requires SameSize(A()) && p.v < |assigns| && assigns[p.v] == LUndef
      modifies `assigns, `trail, `level, `reason, `pos
      ensures A() == Enqueue(old(A()), p, from) && trail == old(trail) + [p]
    {
      assigns := assigns[p.v := if p.sign then LFalse else LTrue];
      level := level[p.v := |trailLim|];
      reason := reason[p.v := from];
      pos := pos[p.v := |trail|];
      trail := trail + [p];
    }

    // ---------- variables ----------

    /** A solver without variables and clauses. */
    constructor ()
      ensures ok && orig == [] && assigns == [] && Consistent()
      ensures ca == [] && trail == [] && qhead == 0 && clauses == [] && learnts == [] && decision == []
    {
      ok, ca, clauses, learnts, watches, dirty, dirties := true, [], [], [], map[], {}, [];
      assigns, trail, trailLim, level, reason, pos, qhead := [], [], [], [], [], [], 0;
      assumptions, seen, toClear, ccminMode, decision, orderHeap := [], [], [], 2, [], {};
      removeSat, simpDbAssigns, model, conflict, orig, loose, probing := true, -1, [], [], [], {}, false;
      lubyRestart, restartFirst, restartInc := true, 100, 2.0;
      new;
      EmptyBase();
    }

    /** A solver in the same state: the same clauses, watch lists, trail and reasons. */
    constructor Copy(s: Solver)
      requires s.Consistent()
      ensures Consistent() && ok == s.ok && orig == s.orig && ca == s.ca && watches == s.watches && A() == s.A()
      ensures decision == s.decision && qhead == s.qhead && clauses == s.clauses && learnts == s.learnts
    {
      ok, ca, clauses, learnts, watches, dirty, dirties := s.ok, s.ca, s.clauses, s.learnts, s.watches, s.dirty, s.dirties;
      assigns, trail, trailLim, level, reason, pos, qhead := s.assigns, s.trail, s.trailLim, s.level, s.reason, s.pos, s.qhead;
      assumptions, seen, toClear, ccminMode, decision, orderHeap := s.assumptions, s.seen, s.toClear, s.ccminMode, s.decision, s.orderHeap;
      removeSat, simpDbAssigns, model, conflict, orig, loose, probing := s.removeSat, s.simpDbAssigns, s.model, s.conflict, s.orig, s.loose, s.probing;
      lubyRestart, restartFirst, restartInc := s.lubyRestart, s.restartFirst, s.restartInc;
      new;
      hide Base, WatchSem, HeapInv, NoMarks, RefsOk, Unsat, LevelStart;
    }

    /** Extend the arrays indexed by variables. */
    method AppendVar(dvar: bool)
      requires Sized()
      modifies `assigns, `level, `reason, `pos, `seen, `decision
      ensures A() == WithVar(old(A())) && Sized() && |assigns| == |old(assigns)| + 1 && LevelStart(A()) == LevelStart(old(A()))
      ensures decision == old(decision) + [dvar] && seen == old(seen) + [false]
    {
      assigns, level, reason, pos := assigns + [LUndef], level + [0], reason + [None], pos + [0];
      decision, seen := decision + [dvar], seen + [false];
    }

    /** One more variable; its value matters to 'Solve' if it is a decision variable. */
    method NewVar(dvar: bool) returns (v: Var)
      requires Settled()
      modifies `watches, `assigns, `level, `reason, `pos, `seen, `decision, `orderHeap
      ensures Settled() && v == |old(assigns)| && A() == WithVar(old(A())) && decision == old(decision) + [dvar]
      ensures old(Consistent()) ==> Consistent()
    {
      hide Base, WatchSem, HeapInv, NoMarks, Listed, LevelStart, Unsat, GrownWatches, WithVar, SameSize;
      ghost var a := A();
      if ok {
        GrowKeepsBase(orig, assumptions, a, ca, watches, dirty, dirties, qhead);
        GrowKeepsBooks(a, decision, orderHeap, seen, dvar);
      }
      v := |assigns|;
      AppendVar(dvar);
      watches := GrownWatches(watches, v);
      InsertVarOrder(v);
    }

    // ---------- propagation ----------

    /** The first literal from index 2 on that is not false, or the length of the clause. */
    method FindWatch(lits: seq<Lit>) returns (k: nat)
      requires |lits| >= 2 && forall i :: 0 <= i < |lits| ==> lits[i].v < |assigns|
      ensures k == NextWatch(A(), lits, 2)
    {
      k := 2;
      while k < |lits|
        invariant 2 <= k <= |lits|
        invariant NextWatch(A(), lits, 2) == NextWatch(A(), lits, k)
      {
        if Value(lits[k]) != LFalse {
          return;
        }
        k := k + 1;
      }
    }

    ghost predicate LitsReady(lits: seq<Lit>)
      reads this
    {
      |lits| >= 2 && forall i :: 0 <= i < |lits| ==> lits[i].v < |assigns| && Neg(lits[i]) in watches
    }

    /** Look for another watch; otherwise the clause is unit or in conflict. */
    method Rewatch(cr: CRef) returns (keep: Option<Watcher>, confl: bool)
      requires SameSize(A()) && cr < |ca| && LitsReady(ca[cr].lits) && !IsTrue(A(), ca[cr].lits[0])
      modifies `assigns, `trail, `level, `reason, `pos, `ca, `watches
      ensures Visited(A(), ca, watches, keep, confl) == VisitClause(old(A()), old(ca), old(watches), cr, old(ca)[cr], false)
    {
      var first := ca[cr].lits[0];
      var w := Watcher(cr, first);
      var k := FindWatch(ca[cr].lits);
      if k < |ca[cr].lits| {
        watches := AppendTo(watches, Neg(ca[cr].lits[k]), w);
        ca := ca[cr := Moved(ca[cr], k)];
        return None, false;
      } else if Value(first) == LFalse {
        return Some(w), true;
      } else {
        UncheckedEnqueue(first, Some(cr));
        return Some(w), false;
      }
    }

    /** One iteration over the list of p: keep the watcher, move it, enqueue a unit, or report a conflict. */
    method VisitWatcher(p: Lit, e: Watcher) returns (keep: Option<Watcher>, confl: bool)
      requires VisitReady(A(), ca, watches, p, e)
      modifies `assigns, `trail, `level, `reason, `pos, `ca, `watches
      ensures Visited(A(), ca, watches, keep, confl) == Visit(old(A()), old(ca), old(watches), p, e)
    {
      if Value(e.blocker) == LTrue {
        return Some(e), false;
      }
      if ca[e.cref].lits[0] == Neg(p) {
        ca := ca[e.cref := FirstTwoSwapped(ca[e.cref])];
      }
      var first := ca[e.cref].lits[0];
      if first != e.blocker && Value(first) == LTrue {
        return Some(Watcher(e.cref, first)), false;
      }
      keep, confl := Rewatch(e.cref);
    }

    /** Move the entries from i on down to j. */
    static method CopyRemaining(ws: seq<Watcher>, i: nat, j: nat) returns (vs: seq<Watcher>, k: nat)
      requires j <= i <= |ws|
      ensures k <= |vs| && vs[..k] == ws[..j] + ws[i..]
    {
      vs, k := ws, j;
      var m := i;
      while m < |ws|
        invariant i <= m <= |ws| == |vs| && k == j + (m - i)
        invariant vs[..k] == ws[..j] + ws[i..m] && vs[m..] == ws[m..]
      {
        assert ws[..j] + ws[i..m + 1] == (ws[..j] + ws[i..m]) + [ws[m]];
        assert vs[k := vs[m]][m + 1..] == vs[m..][1..] && vs[m..][0] == ws[m];
        vs := vs[k := vs[m]];
        k, m := k + 1, m + 1;
      }
    }

    method ListStep(p: Lit, e: Watcher, ghost kept: seq<Watcher>, ghost rest: seq<Watcher>) returns (keep: Option<Watcher>, confl: bool)
      requires Propagating(orig, assumptions, A(), ca, watches, p, kept + [e] + rest) && ListSat(A(), ca, p, kept)
      modifies `assigns, `trail, `level, `reason, `pos, `ca, `watches
      ensures VisitPost(orig, assumptions, old(A()), old(ca), Visited(A(), ca, watches, keep, confl), p, kept, e.cref, rest)
      ensures !confl ==> ListSat(A(), ca, p, kept + AsSeq(keep))
    {
      hide Propagating, VisitPost, ListSat;
      VisitKeepsList(orig, assumptions, A(), ca, watches, p, kept, e, rest);
      keep, confl := VisitWatcher(p, e);
    }

    /** Store what is kept of entry i at the write index j. */
    static method WriteBack(ws: seq<Watcher>, i: nat, j: nat, keep: Option<Watcher>) returns (vs: seq<Watcher>, k: nat)
      requires j <= i < |ws|
      ensures |vs| == |ws| && k <= i + 1
      ensures vs[..k] + vs[i + 1..] == ws[..j] + AsSeq(keep) + ws[i + 1..] && vs[..k] == ws[..j] + AsSeq(keep)
    {
      vs, k := ws, j;
      if keep.Some? {
        vs, k := ws[j := keep.value], j + 1;
      }
    }

    /** Visit the list of p with a read index i and a write index j. */
    method PropagateList(p: Lit) returns (confl: Option<CRef>)
      requires p in watches && Propagating(orig, assumptions, A(), ca, watches, p, watches[p])
      modifies `assigns, `trail, `level, `reason, `pos, `ca, `watches
      ensures p in watches && Propagating(orig, assumptions, A(), ca, watches, p, watches[p])
      ensures Extends(old(A()), A()) && Reworked(old(ca), ca)
      ensures confl.None? ==> ListSat(A(), ca, p, watches[p])
      ensures confl.Some? ==> ConflictAt(A(), ca, confl.value, p)
    {
      hide Propagating, VisitPost, Extends, Reworked, ListSat, ConflictAt;
      ListFacts(orig, assumptions, A(), ca, watches, p, watches[p]);
      var ws := watches[p];
      var i, j := 0, 0;
      confl := None;
      WholeList(ws);
      while i < |ws|
        invariant 0 <= j <= i <= |ws|
        invariant p in watches && Propagating(orig, assumptions, A(), ca, watches, p, ws[..j] + ws[i..])
        invariant Extends(old(A()), A()) && Reworked(old(ca), ca)
        invariant confl.None? ==> ListSat(A(), ca, p, ws[..j])
        invariant confl.Some? ==> ConflictAt(A(), ca, confl.value, p) && i == |ws|
      {
        NextEntry(ws, i, j);
        ghost var a, cb := A(), ca;
        var r := ws[i].cref;
        ghost var kept, rest := ws[..j], ws[i + 1..];
        var keep, failed := ListStep(p, ws[i], kept, rest);
        VisitFacts(orig, assumptions, a, cb, Visited(A(), ca, watches, keep, failed), p, kept, r, rest);
        ExtendsTrans(old(A()), a, A());
        ReworkedStep(old(ca), cb, ca, r);
        ws, j := WriteBack(ws, i, j, keep);
        i := i + 1;
        if failed {
          confl := Some(r);
          ws, j := CopyRemaining(ws, i, j);
          i := |ws|;
          EndOfList(ws, j);
        }
      }
      EndOfList(ws, j);
      StoreList(orig, assumptions, A(), ca, watches, p, ws[..j]);
      watches := watches[p := ws[..j]];
    }

    /** Drop the entries of deleted clauses from one list. */
    method CleanList(p: Lit)
      requires p in watches
      modifies `watches, `dirty
      ensures watches == old(watches)[p := LiveEntries(ca, old(watches)[p])] && dirty == old(dirty) - {p}
    {
      hide LiveEntries, Dead;
      var ws := watches[p];
      ghost var was := ws;
      var i, j := 0, 0;
      LiveNone(ca, ws);
      while i < |ws|
        invariant 0 <= j <= i <= |ws| == |was| && watches == old(watches) && dirty == old(dirty)
        invariant ws[..j] == LiveEntries(ca, was[..i]) && ws[i..] == was[i..]
      {
        LiveStep(ca, was, ws, i, j);
        if !Dead(ca, ws[i]) {
          ws := ws[j := ws[i]];
          j := j + 1;
        }
        i := i + 1;
      }
      assert was[..i] == was;
      watches := watches[p := ws[..j]];
      dirty := dirty - {p};
    }

    method CleanAll()
      requires WatchShape(|assigns|, ca, watches) && WatchSem(A(), ca, watches, qhead)
      requires DirtyOk(ca, watches, dirty, dirties)
      modifies `watches, `dirty, `dirties
      ensures WatchInv(A(), ca, watches, qhead) && dirty == {} && dirties == []
      ensures watches == CleanedWatches(ca, old(watches))
    {
      hide WatchShape, WatchSem, DirtyOk, WatchInv, Clean, CleanedWatches;
      var i := 0;
      assert dirties[0..] == dirties;
      while i < |dirties|
        invariant 0 <= i <= |dirties| && dirties == old(dirties)
        invariant WatchShape(|assigns|, ca, watches) && WatchSem(A(), ca, watches, qhead)
        invariant DirtyOk(ca, watches, dirty, dirties[i..])
        invariant CleanedWatches(ca, watches) == CleanedWatches(ca, old(watches))
      {
        NextDirty(ca, watches, dirty, dirties, i);
        if dirties[i] in dirty {
          CleanOne(A(), ca, watches, qhead, dirties[i], dirty, dirties[i..]);
          CleanedOne(ca, watches, dirties[i]);
          CleanList(dirties[i]);
        }
        i := i + 1;
      }
      assert dirties[i..] == [];
      CleanAtLast(ca, watches, dirty);
      NothingToClean(ca, watches);
      assert WatchInv(A(), ca, watches, qhead) by { InvFromParts(A(), ca, watches, qhead); }
      dirties := [];
    }

    /** Take one fact from the queue. */
    method PropagateNext() returns (confl: Option<CRef>)
      requires DbInv(orig, assumptions, A(), ca) && WatchInv(A(), ca, watches, qhead) && LevelStart(A()) <= qhead < |trail|
      modifies `assigns, `trail, `level, `reason, `pos, `ca, `watches, `qhead
      ensures DbInv(orig, assumptions, A(), ca) && old(qhead) < qhead <= |trail|
      ensures Extends(old(A()), A()) && Reworked(old(ca), ca)
      ensures confl.None? ==> WatchInv(A(), ca, watches, qhead)
      ensures confl.Some? ==> WatchInv(A(), ca, watches, LevelStart(A())) && Conflicting(A(), ca, confl.value)
      ensures confl.Some? ==> qhead == |trail|
    {
      hide DbInv, WatchInv, Propagating, Extends, Reworked, ListSat, ConflictAt, Conflicting;
      ghost var a := A();
      StartList(orig, assumptions, A(), ca, watches, qhead);
      var p := trail[qhead];
      qhead := qhead + 1;
      confl := PropagateList(p);
      ExtendsFacts(a, A());
      assert IsTrue(a, p);
      FinishList(orig, assumptions, A(), ca, watches, p);
      if confl.Some? {
        ListConflict(orig, assumptions, A(), ca, watches, p, confl.value);
        qhead := |trail|;
      }
    }

    /** Propagate all enqueued facts; the queue is empty afterwards, even after a conflict. */
    method Propagate() returns (confl: Option<CRef>)
      requires DbInv(orig, assumptions, A(), ca) && WatchShape(|assigns|, ca, watches) && WatchSem(A(), ca, watches, qhead)
      requires DirtyOk(ca, watches, dirty, dirties) && LevelStart(A()) <= qhead <= |trail|
      modifies `assigns, `trail, `level, `reason, `pos, `ca, `watches, `qhead, `dirty, `dirties
      ensures DbInv(orig, assumptions, A(), ca) && qhead == |trail| && dirty == {} && dirties == []
      ensures Extends(old(A()), A()) && Reworked(old(ca), ca)
      ensures confl.None? ==> WatchInv(A(), ca, watches, |trail|)
      ensures confl.Some? ==> WatchInv(A(), ca, watches, LevelStart(A())) && Conflicting(A(), ca, confl.value)
    {
      hide DbInv, WatchInv, WatchShape, WatchSem, DirtyOk, Extends, Reworked, Conflicting;
      DbFacts(orig, assumptions, A(), ca);
      confl := None;
      CleanAll();
      while qhead < |trail|
        invariant DbInv(orig, assumptions, A(), ca) && LevelStart(A()) <= qhead <= |trail|
        invariant dirty == {} && dirties == [] && |trail| <= |assigns| == |old(assigns)|
        invariant Extends(old(A()), A()) && Reworked(old(ca), ca)
        invariant confl.None? ==> WatchInv(A(), ca, watches, qhead)
        invariant confl.Some? ==> WatchInv(A(), ca, watches, LevelStart(A())) && Conflicting(A(), ca, confl.value)
        invariant confl.Some? ==> qhead == |trail|
        decreases |old(assigns)| - qhead
      {
        ghost var a, cb := A(), ca;
        confl := PropagateNext();
        ExtendsTrans(old(A()), a, A());
        ExtendsFacts(old(A()), A());
        ReworkedTrans(old(ca), cb, ca);
        DbFacts(orig, assumptions, A(), ca);
      }
    }

    // ---------- conflict analysis ----------

    /** Mark the literals of one antecedent from index 'from' on; those below the current level join the learnt clause. */
    method MarkClause(cr: CRef, from: nat, low: seq<Lit>, pathC: nat, ghost index: int) returns (low': seq<Lit>, pathC': nat)
      requires TrailInv(A()) && MarkInv(A(), seen, low, pathC, index) && cr < |ca| && from <= |ca[cr].lits|
      requires forall k :: from <= k < |ca[cr].lits| ==> IsFalse(A(), ca[cr].lits[k]) && pos[ca[cr].lits[k].v] <= index
      modifies `seen
      ensures MarkInv(A(), seen, low', pathC', index) && pathC <= pathC'
      ensures Grown(old(seen), seen) && Covered(A(), seen, ca[cr].lits, from, |ca[cr].lits|)
      ensures MarkedAlso(old(seen), seen, OtherVars(A(), ca[cr].lits, from))
    {
      hide LowOk, CountOk, TrailInv, Grown, Covered, OtherVars, MarkedAlso;
      MarkFacts(A(), seen, ca[cr].lits, from);
      low', pathC' := low, pathC;
      var j := from;
      while j < |ca[cr].lits|
        invariant from <= j <= |ca[cr].lits| && pathC <= pathC'
        invariant MarkInv(A(), seen, low', pathC', index)
        invariant Grown(old(seen), seen) && Covered(A(), seen, ca[cr].lits, from, j) && |seen| == |old(seen)|
        invariant forall v :: 0 <= v < |seen| && seen[v] && !old(seen)[v] ==> v in OtherVars(A(), ca[cr].lits, from)
      {
        var q := ca[cr].lits[j];
        ghost var before := seen;
        if !seen[q.v] && level[q.v] > 0 {
          MarkOne(A(), seen, low', pathC', index, q);
          InOtherVars(A(), ca[cr].lits, from, j);
          GrownOne(seen, q.v);
          GrownTrans(old(seen), seen, seen[q.v := true]);
          seen := seen[q.v := true];
          if level[q.v] >= |trailLim| {
            pathC' := pathC' + 1;
          } else {
            low' := low' + [q];
          }
        }
        GrownOne(before, q.v);
        CoverOne(A(), before, seen, ca[cr].lits, from, j);
        j := j + 1;
      }
      MarkedAll(A(), old(seen), seen, ca[cr].lits, from);
    }

    /** Walk back over the trail to the next marked literal. */
    method NextMarked(ghost low: seq<Lit>, ghost pathC: nat, index: int) returns (i: nat)
      requires TrailInv(A()) && MarkInv(A(), seen, low, pathC, index) && pathC > 0
      ensures LevelStart(A()) <= i <= index && Marked(A(), seen, i) && forall k :: i < k <= index ==> !Marked(A(), seen, k)
    {
      var k := index;
      while k >= 0 && !seen[trail[k].v]
        invariant -1 <= k <= index && CountMarked(A(), seen, LevelStart(A()), k + 1) == pathC
        invariant k >= 0 ==> IsTrue(A(), trail[k])
        invariant forall h :: k < h <= index ==> !Marked(A(), seen, h)
      {
        k := k - 1;
      }
      i := k;
    }

    /** Resolve with one clause: afterwards the marks alone are refuted. */
    method MarkAntecedent(cr: CRef, p: Option<Lit>, low: seq<Lit>, pathC: nat, ghost index: int, ghost r: CRef, ghost done: set<Var>)
      returns (low': seq<Lit>, pathC': nat)
      requires TrailInv(A()) && trailLim != []
      requires AnalyzeInv(ca, A(), seen, low, pathC, index, p, cr) && Tracing(A(), ca, r, seen, done, index, p, cr)
      modifies `seen
      ensures pathC' > 0 && MarkInv(A(), seen, low', pathC', index)
      ensures AllRefuted(ca, A(), seen) && Traced(A(), ca, r, seen, done, index, None)
    {
      hide Tracing, Traced, OtherVars;
      low', pathC' := MarkClause(cr, if p.None? then 0 else 1, low, pathC, index);
      Resolve(ca, A(), old(seen), seen, p, cr, index);
      TraceMarked(A(), ca, r, old(seen), seen, done, index, p, cr);
      if p.None? {
        SomethingMarked(ca, A(), seen, low', pathC', index, p, cr);
      }
    }

    /** Select the next marked literal of the current level. */
    method SelectNext(ghost low: seq<Lit>, pathC: nat, index: int, ghost r: CRef, ghost done: set<Var>) returns (q: Lit, index': int)
      requires DbInv(orig, assumptions, A(), ca) && !probing && trailLim != [] && pathC > 0
      requires MarkInv(A(), seen, low, pathC, index) && AllRefuted(ca, A(), seen) && Traced(A(), ca, r, seen, done, index, None)
      modifies `seen
      ensures -1 <= index' < index && q.v < |reason|
      ensures pathC > 1 ==> reason[q.v].Some? && AnalyzeInv(ca, A(), seen, low, pathC - 1, index', Some(q), reason[q.v].value)
      ensures pathC > 1 ==> Tracing(A(), ca, r, seen, done + {q.v}, index', Some(q), reason[q.v].value)
      ensures pathC == 1 ==> FirstUip(ca, A(), seen, low, q) && PhaseOne(A(), ca, r, seen, q.v)
    {
      hide Traced, Tracing, PhaseOne;
      var i: int := NextMarked(low, pathC, index);
      q := trail[i];
      index' := i - 1;
      SelectKeeps(orig, assumptions, ca, A(), seen, low, pathC, index, i);
      SelectTrace(A(), ca, r, seen, done, pathC, index, i);
      seen := seen[q.v := false];
    }

    /** One round of the first phase: mark an antecedent, select the next literal, and look up its reason. */
    method ResolveStep(cr: CRef, p: Option<Lit>, low: seq<Lit>, pathC: nat, index: int, ghost r: CRef, ghost done: set<Var>)
      returns (q: Lit, low': seq<Lit>, pathC': nat, index': int, cr': CRef, ghost done': set<Var>)
      requires DbInv(orig, assumptions, A(), ca) && !probing && trailLim != []
      requires AnalyzeInv(ca, A(), seen, low, pathC, index, p, cr) && Tracing(A(), ca, r, seen, done, index, p, cr)
      modifies `seen
      ensures -1 <= index' < index
      ensures pathC' > 0 ==> AnalyzeInv(ca, A(), seen, low', pathC', index', Some(q), cr') && Tracing(A(), ca, r, seen, done', index', Some(q), cr')
      ensures pathC' == 0 ==> FirstUip(ca, A(), seen, low', q) && PhaseOne(A(), ca, r, seen, q.v)
    {
      hide Tracing, Traced, PhaseOne;
      low', pathC' := MarkAntecedent(cr, p, low, pathC, index, r, done);
      hide MarkInv, AllRefuted, AnalyzeInv, FirstUip;
      q, index' := SelectNext(low', pathC', index, r, done);
      pathC' := pathC' - 1;
      cr' := if pathC' > 0 then reason[q.v].value else cr;
      done' := done + {q.v};
    }

    /** Resolve back to the first unique implication point q; low holds the other literals of the learnt clause. */
    method FirstPhase(confl: CRef) returns (q: Lit, low: seq<Lit>)
      requires DbInv(orig, assumptions, A(), ca) && !probing && trailLim != []
      requires AnalyzeInv(ca, A(), seen, [], 0, |trail| - 1, None, confl) && Tracing(A(), ca, confl, seen, {}, |trail| - 1, None, confl)
      modifies `seen
      ensures FirstUip(ca, A(), seen, low, q) && PhaseOne(A(), ca, confl, seen, q.v)
    {
      hide DbInv, AnalyzeInv, FirstUip, Tracing, PhaseOne;
      var pathC, index, cr := 0, |trail| - 1, confl;
      ghost var done: set<Var> := {};
      q, low, pathC, index, cr, done := ResolveStep(cr, None, [], pathC, index, confl, done);
      while pathC > 0
        invariant -1 <= index
        invariant pathC > 0 ==> AnalyzeInv(ca, A(), seen, low, pathC, index, Some(q), cr) && Tracing(A(), ca, confl, seen, done, index, Some(q), cr)
        invariant pathC == 0 ==> FirstUip(ca, A(), seen, low, q) && PhaseOne(A(), ca, confl, seen, q.v)
        decreases index
      {
        q, low, pathC, index, cr, done := ResolveStep(cr, Some(q), low, pathC, index, confl, done);
      }
    }

    /** The signature of a level among 32. */
    function AbstractLevel(v: Var): nat
      requires v < |level|
      reads this`level
    {
      level[v] % 32
    }

    /**
     Expand the reason of x: literals that are neither marked nor at level 0 are marked and pushed if they were
     propagated and their level occurs in the clause; otherwise the test fails, since p leads to this literal.
     */
    method ExpandReason(x: Lit, abstractLevels: set<nat>, stack: seq<Lit>, ghost p: Var,
                        ghost seen0: seq<bool>, ghost top: nat, ghost base: seq<Lit>) returns (ok: bool, stack': seq<Lit>)
      requires TrailInv(A()) && ReasonInv(A(), ca) && Expandable(A(), [x])
      requires ExpandInv(ca, A(), seen0, seen, toClear, top, base, stack)
      requires Tested(A(), ca, abstractLevels, seen0, seen, p, stack + [x]) && Grown(seen0, seen)
      modifies `seen, `toClear
      ensures ExpandInv(ca, A(), seen0, seen, toClear, top, base, stack')
      ensures Unmarked(seen) + |stack'| == Unmarked(old(seen)) + |stack| && Grown(old(seen), seen)
      ensures toClear[..top] == old(toClear)[..top]
      ensures ok ==> Closed(ca, A(), seen, x.v) && Tested(A(), ca, abstractLevels, seen0, seen, p, stack' + [x])
      ensures !ok ==> Escapes(A(), ca, MarkSet(seen0), abstractLevels, p)
    {
      hide ExpandInv, Unmarked, Tested, LedTo, TrailInv, ReasonInv, Grown;
      ReasonLiterals(A(), ca, x);
      ghost var a := A();
      assert top <= |toClear| && |seen| == |assigns| == |a.level| by { ExpandFacts(ca, a, seen0, seen, toClear, top, base, stack); }
      GrownSelf(seen);
      var lits := ca[reason[x.v].value].lits;
      stack' := stack;
      var i := 1;
      while i < |lits|
        invariant 1 <= i <= |lits|
        invariant ExpandInv(ca, a, seen0, seen, toClear, top, base, stack')
        invariant Tested(a, ca, abstractLevels, seen0, seen, p, stack' + [x]) && Grown(seen0, seen)
        invariant Unmarked(seen) + |stack'| == Unmarked(old(seen)) + |stack| && Grown(old(seen), seen)
        invariant top <= |toClear| && toClear[..top] == old(toClear)[..top] && |seen| == |assigns|
        invariant Covered(a, seen, lits, 1, i)
      {
        var q := lits[i];
        if !seen[q.v] && level[q.v] > 0 {
          TestFinds(a, ca, abstractLevels, seen0, seen, p, stack', x, i);
          if reason[q.v].None? || AbstractLevel(q.v) !in abstractLevels {
            return false, stack';
          }
          ExpandOne(ca, a, seen0, seen, toClear, top, base, stack', q);
          ReasonLiterals(a, ca, q);
          TestMarks(a, ca, abstractLevels, seen0, seen, p, stack', x, q);
          GrownTrans(old(seen), seen, seen[q.v := true]);
          GrownTrans(seen0, seen, seen[q.v := true]);
          CoveredGrows(a, seen, seen[q.v := true], lits, 1, i);
          seen := seen[q.v := true];
          stack' := stack' + [q];
          toClear := toClear + [q];
        }
        i := i + 1;
      }
      ok := true;
    }

    /** Clear the marks recorded from index top on, and forget them. */
    method Rollback(top: nat, ghost seen0: seq<bool>)
      requires OnRecord(seen0, seen, toClear, top)
      modifies `seen, `toClear
      ensures seen == seen0 && toClear == old(toClear)[..top]
    {
      var j := top;
      while j < |toClear|
        invariant top <= j <= |toClear| && toClear == old(toClear) && |seen| == |seen0|
        invariant forall v :: 0 <= v < |seen| && seen0[v] ==> seen[v]
        invariant forall v :: 0 <= v < |seen| && seen[v] && !seen0[v] ==> exists k :: j <= k < |toClear| && toClear[k].v == v
      {
        seen := seen[toClear[j].v := false];
        j := j + 1;
      }
      toClear := toClear[..top];
    }

    /**
     Test whether p follows from other marked literals, which is so exactly if its reason leads to nothing else; on
     failure all marks set by the test are taken back, and otherwise they stand for literals that follow as well.
     */
    method LitRedundant(p: Lit, abstractLevels: set<nat>, ghost base: seq<Lit>) returns (redundant: bool)
      requires TrailInv(A()) && ReasonInv(A(), ca) && Expandable(A(), [p])
      requires MarksBelow(A(), seen) && Justified(ca, A(), seen, base, []) && AllCleared(seen, toClear)
      modifies `seen, `toClear
      ensures MarksBelow(A(), seen) && Justified(ca, A(), seen, base, []) && AllCleared(seen, toClear)
      ensures redundant <==> !Escapes(A(), ca, MarkSet(old(seen)), abstractLevels, p.v)
      ensures MarkedSince(A(), ca, abstractLevels, old(seen), seen)
      ensures redundant ==> Closed(ca, A(), seen, p.v)
      ensures !redundant ==> seen == old(seen) && toClear == old(toClear)
    {
      hide ExpandInv, Unmarked, Justified, Closed, OnRecord, TrailInv, ReasonInv, AllCleared, Tested, MarkedSince, Escapes, Grown;
      ghost var a := A();
      ghost var seen0 := seen;
      var top := |toClear|;
      var stack := [p];
      StartExpanding(ca, a, seen, toClear, base, p);
      StartTest(a, ca, abstractLevels, seen, p);
      GrownSelf(seen);
      assert toClear[..top] == old(toClear);
      while |stack| > 0
        invariant ExpandInv(ca, a, seen0, seen, toClear, top, base, stack) && Grown(seen0, seen)
        invariant Tested(a, ca, abstractLevels, seen0, seen, p.v, stack)
        invariant top <= |toClear| && toClear[..top] == old(toClear)
        decreases Unmarked(seen) + |stack|
      {
        TakeTop(ca, a, seen0, seen, toClear, top, base, stack);
        TestTop(a, ca, abstractLevels, seen0, seen, p.v, stack);
        var x := stack[|stack| - 1];
        ghost var before := seen;
        var ok;
        ok, stack := ExpandReason(x, abstractLevels, stack[..|stack| - 1], p.v, seen0, top, base + [x]);
        ExpandFacts(ca, a, seen0, seen, toClear, top, base + [x], stack);
        if !ok {
          Rollback(top, seen0);
          SinceSelf(a, ca, abstractLevels, seen0);
          return false;
        }
        TopExpanded(ca, a, seen0, seen, toClear, top, base, stack, x);
        TestExpanded(a, ca, abstractLevels, seen0, seen, p.v, stack, x);
        GrownTrans(seen0, before, seen);
      }
      assert stack == [];
      EndExpanding(ca, a, seen0, seen, old(toClear), toClear, base);
      TestEnds(a, ca, abstractLevels, seen0, seen, p.v);
      redundant := true;
    }

    /** The basic test: every other literal of the reason of p is marked or at level 0. */
    method ReasonCovered(p: Lit) returns (covered: bool)
      requires TrailInv(A()) && ReasonInv(A(), ca) && Expandable(A(), [p]) && |seen| == |assigns|
      ensures covered ==> Closed(ca, A(), seen, p.v)
      ensures covered <==> Open(A(), ca, MarkSet(seen), p.v) == {}
    {
      hide TrailInv, ReasonInv, Open;
      ReasonLiterals(A(), ca, p);
      var lits := ca[reason[p.v].value].lits;
      var k := 1;
      while k < |lits|
        invariant 1 <= k <= |lits| && Covered(A(), seen, lits, 1, k)
      {
        if !seen[lits[k].v] && level[lits[k].v] > 0 {
          InOpen(A(), ca, seen, p.v, k);
          return false;
        }
        k := k + 1;
      }
      ClosedOpen(A(), ca, {}, seen, p.v);
      return true;
    }

    /** Decide for one literal of the learnt clause whether it may be dropped. */
    method MayDrop(p: Lit, abstractLevels: set<nat>, ghost base: seq<Lit>, ghost seen0: seq<bool>) returns (drop: bool)
      requires TrailInv(A()) && ReasonInv(A(), ca) && IsFalse(A(), p)
      requires MarksBelow(A(), seen) && Justified(ca, A(), seen, base, []) && AllCleared(seen, toClear)
      requires abstractLevels == Signatures(A(), MarkSet(seen0)) && SinceStart(A(), ca, ccminMode, seen0, seen)
      modifies `seen, `toClear
      ensures MarksBelow(A(), seen) && Justified(ca, A(), seen, base, []) && AllCleared(seen, toClear)
      ensures SinceStart(A(), ca, ccminMode, seen0, seen) && Grown(old(seen), seen)
      ensures drop ==> Closed(ca, A(), seen, p.v)
      ensures drop <==> Superfluous(A(), ca, ccminMode, MarkSet(seen0), p.v)
    {
      hide Justified, Closed, ReasonInv, AllCleared, Escapes, Open, MarkedSince, Signatures, TrailInv;
      ghost var a := A();
      GrownSelf(seen);
      assert SameSize(a) by { TrailSizes(a); }
      if reason[p.v].None? {
        return false;
      }
      ReasonLiterals(a, ca, p) by { assert [p][0] == p; }
      if ccminMode == 2 {
        EscapesSame(a, ca, abstractLevels, seen0, seen, p.v);
        ghost var before := seen;
        drop := LitRedundant(p, abstractLevels, base);
        SinceTrans(a, ca, abstractLevels, seen0, before, seen);
        SinceGrown(a, ca, abstractLevels, before, seen);
      } else if ccminMode == 1 {
        drop := ReasonCovered(p);
      } else {
        drop := false;
      }
    }

    /** Compact the learnt clause in place, dropping exactly the literals that the marks make superfluous. */
    method Minimise(low: seq<Lit>) returns (kept: seq<Lit>)
      requires TrailInv(A()) && ReasonInv(A(), ca) && LowOk(A(), seen, low)
      requires MarksBelow(A(), seen) && Justified(ca, A(), seen, low, []) && AllCleared(seen, toClear)
      requires forall v :: v in MarkSet(seen) <==> HasVar(low, v)
      modifies `seen, `toClear
      ensures MarksBelow(A(), seen) && Justified(ca, A(), seen, low, []) && AllCleared(seen, toClear)
      ensures Grown(old(seen), seen) && Kept(ca, A(), seen, low, |low|, kept)
      ensures forall q :: q in kept <==> q in low && !Superfluous(A(), ca, ccminMode, MarkSet(old(seen)), q.v)
    {
      hide Justified, TrailInv, ReasonInv, AllCleared, Kept, Grown, MarksBelow, HasVar, Superfluous, SinceStart;
      ghost var a := A();
      ghost var seen0 := seen;
      LowFacts(a, seen, low);
      var abstractLevels: set<nat> := {};
      var i := 0;
      while i < |low|
        invariant 0 <= i <= |low| && abstractLevels == LevelsOf(a, low, i)
      {
        abstractLevels := abstractLevels + {AbstractLevel(low[i].v)};
        i := i + 1;
      }
      AllLevels(a, seen, low);
      kept, i := low, 0;
      var j := 0;
      NothingKeptYet(ca, a, seen, low);
      StartsHere(a, ca, ccminMode, seen);
      while i < |low|
        invariant 0 <= j <= i <= |low| == |kept| && kept[i..] == low[i..]
        invariant MarksBelow(a, seen) && Justified(ca, a, seen, low, []) && AllCleared(seen, toClear)
        invariant Grown(seen0, seen) && Kept(ca, a, seen, low, i, kept[..j]) && SinceStart(a, ca, ccminMode, seen0, seen)
        invariant forall q :: q in kept[..j] <==> q in low[..i] && !Superfluous(a, ca, ccminMode, MarkSet(seen0), q.v)
      {
        ghost var before := seen;
        assert kept[i] == low[i] && low[..i + 1] == low[..i] + [low[i]];
        var drop := MayDrop(kept[i], abstractLevels, low, seen0);
        GrownTrans(seen0, before, seen);
        KeptGrows(ca, a, before, seen, low, i, kept[..j]);
        if drop {
          DropLiteral(ca, a, seen, low, i, kept[..j]);
        } else {
          KeepLiteral(ca, a, seen, low, i, kept[..j]);
          WriteLiteral(kept, i, j);
          kept := kept[j := kept[i]];
          j := j + 1;
        }
        i := i + 1;
      }
      kept := kept[..j];
      assert low[..|low|] == low;
    }

    /** Swap a literal of the greatest level behind the first to index 1, and return that level. */
    method BacktrackLevel(out: seq<Lit>) returns (out': seq<Lit>, btlevel: nat)
      requires Learnt(ca, A(), out) && trailLim != []
      ensures Asserting(ca, A(), out', btlevel)
      ensures out' != [] && out'[0] == out[0] && forall q :: q in out'[1..] <==> q in out[1..]
    {
      out' := out;
      if |out| == 1 {
        return out, 0;
      }
      var max, i := 1, 2;
      while i < |out|
        invariant 1 <= max < i <= |out|
        invariant forall k :: 1 <= k < i ==> level[out[k].v] <= level[out[max].v]
      {
        if level[out[i].v] > level[out[max].v] {
          max := i;
        }
        i := i + 1;
      }
      ExchangeKeepsLearnt(ca, A(), out, max);
      ExchangeKeepsRest(out, max);
      out' := out[max := out[1]][1 := out[max]];
      btlevel := level[out'[1].v];
    }

    /** Clear all marks on record. */
    method ClearMarks()
      requires AllCleared(seen, toClear)
      modifies `seen
      ensures |seen| == |old(seen)| && forall v :: 0 <= v < |seen| ==> !seen[v]
    {
      var j := 0;
      while j < |toClear|
        invariant 0 <= j <= |toClear| && |seen| == |old(seen)|
        invariant forall v :: 0 <= v < |seen| && seen[v] ==> exists k :: j <= k < |toClear| && toClear[k].v == v
      {
        seen := seen[toClear[j].v := false];
        j := j + 1;
      }
    }

    /**
     Analyse a conflict: an asserting clause that the facts entail, and the level to backtrack to. It consists of the
     negation of the latest implication point and of the lower literals that took part and are not superfluous.
     */
    method Analyze(confl: CRef) returns (out: seq<Lit>, btlevel: nat)
      requires DbInv(orig, assumptions, A(), ca) && !probing && trailLim != [] && Conflicting(A(), ca, confl)
      requires |seen| == |assigns| && forall v :: 0 <= v < |seen| ==> !seen[v]
      modifies `seen, `toClear
      ensures Asserting(ca, A(), out, btlevel) && LearntExactly(A(), ca, confl, ccminMode, out)
      ensures |seen| == |assigns| && forall v :: 0 <= v < |seen| ==> !seen[v]
    {
      hide DbInv, TrailInv, ReasonInv, Conflicting, AnalyzeInv, FirstUip, MarksBelow, LowOk, Justified, AllCleared, Grown, Kept, Learnt, Asserting, PhaseOne,
           Superfluous, HasVar, Tracing, LearntExactly;
      ghost var a := A();
      DbParts(orig, assumptions, a, ca);
      StartAnalysis(ca, a, seen, confl);
      StartTrace(a, ca, confl, seen);
      var q, low := FirstPhase(confl);
      ghost var seen0 := seen;
      toClear := [Neg(q)] + low;
      StartMinimising(ca, a, seen, low, q);
      MarksAreLow(ca, a, seen, low, q);
      var kept := Minimise(low);
      LearntFromKept(ca, a, seen0, seen, low, kept, q);
      LearntIsExact(a, ca, confl, ccminMode, seen0, low, kept, q);
      MarksSize(a, seen);
      out, btlevel := BacktrackLevel([Neg(q)] + kept);
      LearntReordered(a, ca, confl, ccminMode, [Neg(q)] + kept, out);
      ClearMarks();
    }

    // ---------- the invariant between calls ----------

    ghost predicate Core()
      reads `assigns, `trail, `trailLim, `level, `reason, `pos, `loose, `probing, `orig, `assumptions, `ca, `watches, `dirty, `dirties
    {
      Base(orig, assumptions, A(), ca, watches, dirty, dirties)
    }

    ghost predicate Books()
      reads `assigns, `trail, `trailLim, `level, `reason, `pos, `loose, `probing, `decision, `orderHeap, `seen
    {
      HeapInv(A(), decision, orderHeap) && NoMarks(A(), seen)
    }

    /** The lists of problem and learnt clauses are up to date. */
    ghost predicate Listed()
      reads `ca, `clauses, `learnts
    {
      RefsOk(ca, clauses, false) && RefsOk(ca, learnts, true)
    }

    /** The queue holds literals of the current level only, and everything before it is watched properly. */
    ghost predicate Running()
      reads `assigns, `trail, `trailLim, `level, `reason, `pos, `loose, `probing, `orig, `assumptions, `ca, `watches, `dirty, `dirties,
            `decision, `orderHeap, `seen, `qhead
    {
      Core() && Books() && WatchSem(A(), ca, watches, qhead) && LevelStart(A()) <= qhead <= |trail|
    }

    /** The same without exceptions: every clause is watched properly, and every level has one decision. */
    ghost predicate Valid()
      reads `assigns, `trail, `trailLim, `level, `reason, `pos, `loose, `probing, `orig, `assumptions, `ca, `watches, `dirty, `dirties,
            `decision, `orderHeap, `seen, `qhead, `clauses, `learnts
    {
      Running() && Listed() && loose == {} && !probing
    }

    // ---------- backtracking ----------

    method InsertVarOrder(x: Var)
      requires x < |decision|
      modifies `orderHeap
      ensures orderHeap == old(orderHeap) + if decision[x] then {x} else {}
    {
      if x !in orderHeap && decision[x] {
        orderHeap := orderHeap + {x};
      }
    }

    /** Unassign the literals from position 'from' on, last first, and put their variables back into the order. */
    method UnassignFrom(from: nat)
      requires TrailInv(A()) && from <= |trail| && |decision| == |assigns|
      modifies `assigns, `orderHeap
      ensures Unassigned(old(A()), assigns, from) && Reinserted(old(A()), decision, old(orderHeap), orderHeap, from)
    {
      ghost var a := A();
      var c := |trail|;
      while c > from
        invariant from <= c <= |trail| && Unassigned(a, assigns, c)
        invariant Reinserted(a, decision, old(orderHeap), orderHeap, c)
      {
        c := c - 1;
        assert IsTrue(a, a.trail[c]);
        var x := trail[c].v;
        assert forall v :: IsSet(a, v) && a.pos[v] == c ==> v == x;
        assigns := assigns[x := LUndef];
        InsertVarOrder(x);
      }
      PositionsBound(a);
    }

    lemma BacktrackReady(lvl: nat)
      requires Core() && Books() && WatchSem(A(), ca, watches, LevelStart(A())) && |trailLim| > lvl
      ensures TrailInv(A()) && SameSize(A()) && trailLim[lvl] <= |trail| && |decision| == |assigns|
      ensures Base(orig, assumptions, Cancel(A(), lvl), ca, watches, dirty, dirties) && NoMarks(Cancel(A(), lvl), seen)
      ensures WatchSem(Cancel(A(), lvl), ca, watches, |Cancel(A(), lvl).trail|)
    {
      hide HeapInv, NoMarks, WatchSem, Base, TrailInv, Cancel, LevelStart;
      BaseTrail(orig, assumptions, A(), ca, watches, dirty, dirties);
      HeapSize(A(), decision, orderHeap);
      CancelKeepsBase(orig, assumptions, A(), ca, watches, dirty, dirties, lvl);
      CancelKeepsMarks(A(), seen, lvl);
    }

    /** Unassign everything above the given level and shorten trail and queue. */
    method Backtrack(lvl: nat)
      requires Core() && Books() && WatchSem(A(), ca, watches, LevelStart(A())) && |trailLim| > lvl
      modifies `assigns, `trail, `trailLim, `qhead, `orderHeap
      ensures Core() && Books() && Cancelled(old(A()), A(), lvl) && qhead == |trail| && WatchSem(A(), ca, watches, qhead)
    {
      hide HeapInv, NoMarks, WatchSem, Base, TrailInv, Cancel, Cancelled, LevelStart, Unassigned, Reinserted;
      ghost var a, heap0 := A(), orderHeap;
      BacktrackReady(lvl);
      UnassignFrom(trailLim[lvl]);
      CancelKeepsHeap(a, decision, heap0, orderHeap, lvl);
      qhead, trail, trailLim := trailLim[lvl], trail[..trailLim[lvl]], trailLim[..lvl];
      CancelledBy(a, A(), lvl);
    }

    /** Undo all levels above the given one; the watch lists are not touched. */
    method CancelUntil(lvl: nat)
      requires Core() && Books() && WatchSem(A(), ca, watches, LevelStart(A()))
      modifies `assigns, `trail, `trailLim, `qhead, `orderHeap
      ensures Core() && Books()
      ensures |old(trailLim)| <= lvl ==> A() == old(A()) && qhead == old(qhead)
      ensures |old(trailLim)| > lvl ==> Cancelled(old(A()), A(), lvl) && qhead == |trail| && WatchSem(A(), ca, watches, qhead)
    {
      hide Core, Books, WatchSem, Cancelled, LevelStart;
      if |trailLim| > lvl {
        Backtrack(lvl);
      }
    }

    // ---------- the final conflict ----------

    /** Mark the literals above level 0 of a reason, all but the first. */
    method MarkReason(lits: seq<Lit>)
      requires |lits| > 0 && |level| == |seen| && forall k :: 1 <= k < |lits| ==> lits[k].v < |seen|
      modifies `seen
      ensures MarkedReason(A(), old(seen), seen, lits) && |seen| == |old(seen)|
    {
      var j := 1;
      while j < |lits|
        invariant 1 <= j <= |lits| && Grown(old(seen), seen) && Covered(A(), seen, lits, 1, j)
        invariant forall v :: 0 <= v < |seen| && seen[v] && !old(seen)[v] ==>
                    exists k :: 1 <= k < |lits| && lits[k].v == v && v < |level| && level[v] > 0
      {
        if level[lits[j].v] > 0 {
          seen := seen[lits[j].v := true];
        }
        j := j + 1;
      }
    }

    /** One position of the trail, from the top down; what has been gone through is noted. */
    method FinalStep(p: Lit, out: seq<Lit>, i: nat, ghost done: set<Var>) returns (out': seq<Lit>, ghost done': set<Var>)
      requires DbInv(orig, assumptions, A(), ca) && !probing && FinalInv(ca, A(), assumptions, seen, out, p, i)
      requires 0 < |trailLim| <= |assumptions| && trailLim[0] <= i && SameSize(A()) && Walked(A(), ca, seen, out, p, i, done)
      modifies `seen
      ensures FinalInv(ca, A(), assumptions, seen, out', p, i - 1) && Walked(A(), ca, seen, out', p, i - 1, done')
    {
      hide DbInv, TrailInv, ReasonInv, DecisionInv, FinalInv, MarkedReason, Walked, ReasonVars;
      DbParts(orig, assumptions, A(), ca);
      FinalFacts(ca, A(), assumptions, seen, out, p, i);
      out', done' := out, done;
      var x := trail[i].v;
      if seen[x] {
        ghost var before := seen;
        if reason[x].None? {
          FinalDecision(ca, A(), assumptions, seen, out, p, i);
          NoReasonVars(A(), ca, x);
          out' := out + [Neg(trail[i])];
        } else {
          ReasonAt(A(), ca, i);
          MarkReason(ca[reason[x].value].lits);
          FinalImplied(ca, A(), assumptions, before, seen, out, p, i);
          MarkedExactly(A(), ca, before, seen, x);
        }
        WalkOn(A(), ca, before, seen, out, p, i, done);
        done' := done + {x};
        seen := seen[x := false];
      } else {
        FinalSkip(ca, A(), assumptions, seen, out, p, i);
        WalkPast(A(), ca, seen, out, p, i, done);
      }
    }

    /**
     Express the truth of p, the negation of an assumption, as a clause over negated assumptions: those, each once, that
     led to p.
     */
    method AnalyzeFinal(p: Lit) returns (out: seq<Lit>)
      requires DbInv(orig, assumptions, A(), ca) && !probing && NoMarks(A(), seen) && IsTrue(A(), p) && Neg(p) in assumptions
      requires |trailLim| <= |assumptions|
      modifies `seen
      ensures Entailed(ca, A(), out) && NoMarks(A(), seen) && p in out
      ensures forall q :: q in out ==> Neg(q) in assumptions
      ensures BlamesExactly(A(), ca, p, out)
    {
      hide DbInv, TrailInv, ReasonInv, DecisionInv, FinalInv, Entailed, NoMarks, Walked, BlamesExactly;
      DbParts(orig, assumptions, A(), ca);
      out := [p];
      if |trailLim| == 0 {
        TrueAtTop(ca, A(), p);
        BlamesAtTop(A(), ca, p);
        return;
      }
      StartFinal(ca, A(), assumptions, seen, p);
      StartWalk(A(), ca, seen, p);
      MarksLength(A(), seen);
      seen := seen[p.v := true];
      TopBound(A());
      var i := |trail| - 1;
      ghost var done: set<Var> := {};
      while i >= trailLim[0]
        invariant trailLim[0] - 1 <= i && FinalInv(ca, A(), assumptions, seen, out, p, i) && Walked(A(), ca, seen, out, p, i, done)
      {
        out, done := FinalStep(p, out, i, done);
        i := i - 1;
      }
      FinalFacts(ca, A(), assumptions, seen, out, p, i);
      EndFinal(ca, A(), assumptions, seen, out, p);
      WalkEnds(A(), ca, seen, out, p, done);
      seen := seen[p.v := false];
    }

    // ---------- learning and deciding ----------

    /** Put a clause into the database and into the lists of its first two literals. */
    method AttachNew(c: Clause) returns (cr: CRef)
      requires |c.lits| >= 2 && Neg(c.lits[0]) in watches && Neg(c.lits[1]) in watches
      modifies `ca, `watches
      ensures cr == |old(ca)| && ca == old(ca) + [c] && watches == AttachedWatches(old(watches), cr, c.lits)
    {
      cr := |ca|;
      ca := ca + [c];
      watches := AppendTo(watches, Neg(c.lits[0]), Watcher(cr, c.lits[1]));
      watches := AppendTo(watches, Neg(c.lits[1]), Watcher(cr, c.lits[0]));
    }

    /** Enqueue a learnt unit at level 0. */
    method LearnUnit(out: seq<Lit>)
      requires Running() && qhead == |trail| && LearntReady(ca, A(), out) && |out| == 1
      modifies `assigns, `trail, `level, `reason, `pos
      ensures SameSize(old(A())) && out[0].v < |old(assigns)| && Running() && A() == Enqueue(old(A()), out[0], None)
    {
      hide HeapInv, NoMarks, WatchSem, Base, Enqueue, LevelStart;
      LearnUnitStep(orig, assumptions, A(), ca, watches, dirty, dirties, out);
      EnqueueKeepsBooks(A(), decision, orderHeap, seen, out[0], None);
      SameLevelStart(A(), Enqueue(A(), out[0], None));
      UncheckedEnqueue(out[0], None);
    }

    /** Store a learnt clause and enqueue its first literal with it as reason. */
    method LearnLong(out: seq<Lit>)
      requires Running() && qhead == |trail| && LearntReady(ca, A(), out) && |out| > 1
      modifies `assigns, `trail, `level, `reason, `pos, `ca, `watches, `learnts
      ensures SameSize(old(A())) && out[0].v < |old(assigns)| && Running() && A() == Enqueue(old(A()), out[0], Some(|old(ca)|))
      ensures ca == old(ca) + [Clause(out, true, false)] && learnts == old(learnts) + [|old(ca)|]
    {
      hide HeapInv, NoMarks, WatchSem, Base, Enqueue, LearntReady, AttachedWatches, LevelStart;
      LearnClauseStep(orig, assumptions, A(), ca, watches, dirty, dirties, out);
      EnqueueKeepsBooks(A(), decision, orderHeap, seen, out[0], Some(|ca|));
      SameLevelStart(A(), Enqueue(A(), out[0], Some(|ca|)));
      var cr := AttachNew(Clause(out, true, false));
      learnts := learnts + [cr];
      UncheckedEnqueue(out[0], Some(cr));
    }

    /** Learn an asserting clause after the backjump. */
    method Learn(out: seq<Lit>)
      requires Running() && qhead == |trail| && LearntReady(ca, A(), out) && Listed() && AssumeInv(A(), assumptions)
      modifies `assigns, `trail, `level, `reason, `pos, `ca, `watches, `learnts
      ensures Running() && Listed() && AssumeInv(A(), assumptions) && |assigns| == |old(assigns)|
      ensures out != [] && SameSize(old(A())) && out[0].v < |old(assigns)|
      ensures A() == Enqueue(old(A()), out[0], if |out| == 1 then None else Some(|old(ca)|))
      ensures ca == (if |out| == 1 then old(ca) else old(ca) + [Clause(out, true, false)])
      ensures learnts == (if |out| == 1 then old(learnts) else old(learnts) + [|old(ca)|])
    {
      hide Core, Books, Running, LearntReady, AssumeInv, RefsOk, Enqueue;
      LearntFree(ca, A(), out);
      EnqueueKeepsAssumed(A(), assumptions, out[0], if |out| == 1 then None else Some(|ca|));
      EnqueueShape(A(), out[0], if |out| == 1 then None else Some(|ca|));
      if |out| == 1 {
        LearnUnit(out);
      } else {
        NewRef(ca, clauses, false, Clause(out, true, false));
        NewRef(ca, learnts, true, Clause(out, true, false));
        LearnLong(out);
      }
    }

    // ---------- removing clauses ----------

    method Smudge(p: Lit)
      modifies `dirty, `dirties
      ensures dirty == old(dirty) + {p} && (forall q :: q in old(dirties) ==> q in dirties)
      ensures p !in old(dirty) ==> p in dirties
    {
      if p !in dirty {
        dirty := dirty + {p};
        dirties := dirties + [p];
      }
    }

    function IsLocked(cr: CRef): bool
      requires cr < |ca| && |ca[cr].lits| > 0 && ca[cr].lits[0].v < |assigns| == |reason|
      reads this
      ensures IsLocked(cr) <==> Locked(A(), ca, cr)
    {
      Value(ca[cr].lits[0]) == LTrue && reason[ca[cr].lits[0].v] == Some(cr)
    }

    /**
     Detach lazily, forget the clause as a reason, and mark it deleted; f is a formula the rest of the database stands
     for, such as that of all clauses added when the clause is redundant.
     */
    method RemoveClause(cr: CRef, ghost f: seq<seq<Lit>>)
      requires Core() && WatchSem(A(), ca, watches, qhead) && cr < |ca|
      requires Sound(f, Deleted(ca, cr), A()) && (Locked(A(), ca, cr) ==> trailLim == [])
      modifies `ca, `dirty, `dirties, `reason
      ensures Base(f, assumptions, A(), ca, watches, dirty, dirties) && WatchSem(A(), ca, watches, qhead) && ca == Deleted(old(ca), cr)
      ensures |reason| == |old(reason)| && (!Locked(old(A()), old(ca), cr) ==> reason == old(reason))
    {
      hide Base, WatchSem, Sound, DirtyOk, TrailInv;
      ghost var dirty0, dirties0 := dirty, dirties;
      BaseParts(orig, assumptions, A(), ca, watches, dirty, dirties, cr);
      Smudge(Neg(ca[cr].lits[0]));
      Smudge(Neg(ca[cr].lits[1]));
      SmudgedDirty(ca, watches, dirty0, dirties0, dirty, dirties, Neg(ca[cr].lits[0]), Neg(ca[cr].lits[1]));
      RemoveKeepsBase(orig, f, assumptions, A(), ca, watches, dirty0, dirties0, dirty, dirties, cr, qhead);
      if IsLocked(cr) {
        reason := reason[ca[cr].lits[0].v := None];
      }
      ca := ca[cr := ca[cr].(deleted := true)];
    }

    // ---------- strengthening in place ----------

    /** Take the entry of a clause out of a list, moving the later ones down. */
    static method RemoveWatcher(ws: seq<Watcher>, cr: CRef) returns (vs: seq<Watcher>)
      requires HasRef(ws, cr)
      ensures WithoutRef(ws, cr, vs)
    {
      var j := 0;
      while ws[j].cref != cr
        invariant 0 <= j < |ws| && exists i :: j <= i < |ws| && ws[i].cref == cr
        decreases |ws| - j
      {
        j := j + 1;
      }
      ghost var first := j;
      vs := ws;
      while j < |ws| - 1
        invariant first <= j < |ws| == |vs|
        invariant forall k :: 0 <= k < first ==> vs[k] == ws[k]
        invariant forall k :: first <= k < j ==> vs[k] == ws[k + 1]
        invariant forall k :: j <= k < |ws| ==> vs[k] == ws[k]
      {
        vs := vs[j := vs[j + 1]];
        j := j + 1;
      }
      vs := vs[..|vs| - 1];
      assert vs == ws[..first] + ws[first + 1..];
    }

    /** Enter a clause into the lists of its first two literals. */
    method AttachClause(cr: CRef)
      requires cr < |ca| && |ca[cr].lits| >= 2 && Neg(ca[cr].lits[0]) in watches && Neg(ca[cr].lits[1]) in watches
      modifies `watches
      ensures watches == WatchedAgain(old(watches), cr, ca[cr].lits)
    {
      var c := ca[cr].lits;
      watches := AppendTo(watches, Neg(c[0]), Watcher(cr, c[1]));
      watches := AppendTo(watches, Neg(c[1]), Watcher(cr, c[0]));
    }

    /** Take a clause out of the lists of its first two literals at once. */
    method DetachStrictly(cr: CRef) returns (ghost vs0: seq<Watcher>, ghost vs1: seq<Watcher>)
      requires cr < |ca| && |ca[cr].lits| >= 2 && ca[cr].lits[0] != ca[cr].lits[1]
      requires AttachedIn(watches, Neg(ca[cr].lits[0]), cr) && AttachedIn(watches, Neg(ca[cr].lits[1]), cr)
      modifies `watches
      ensures WithoutRef(old(watches)[Neg(ca[cr].lits[0])], cr, vs0) && WithoutRef(old(watches)[Neg(ca[cr].lits[1])], cr, vs1)
      ensures watches == DetachedWatches(old(watches), ca[cr].lits, vs0, vs1)
    {
      hide WithoutRef;
      var c := ca[cr].lits;
      var ws := RemoveWatcher(watches[Neg(c[0])], cr);
      watches := watches[Neg(c[0]) := ws];
      vs0 := ws;
      ws := RemoveWatcher(watches[Neg(c[1])], cr);
      watches := watches[Neg(c[1]) := ws];
      vs1 := ws;
    }

    /**
     Drop literal k of a clause of three or more: the clause is detached, shortened, and attached again at its first two
     literals. These may be false, so the clause counts as loose from now on.
     */
    method Strengthen(cr: CRef, k: nat, lits: seq<Lit>, ghost f: seq<seq<Lit>>)
      requires Core() && WatchSem(A(), ca, watches, qhead) && trailLim == [] && cr < |ca| && !ca[cr].deleted
      requires |ca[cr].lits| > 2 && k < |ca[cr].lits| && lits == Cut(ca[cr], k).lits && Sound(f, ca[cr := Cut(ca[cr], k)], A())
      modifies `ca, `watches, `reason, `loose
      ensures Base(f, assumptions, A(), ca, watches, dirty, dirties) && WatchSem(A(), ca, watches, qhead)
      ensures ca == old(ca)[cr := Cut(old(ca)[cr], k)] && loose == old(loose) + {cr} && |reason| == |old(reason)|
    {
      hide Base, WatchSem, Sound, WithoutRef, DetachedWatches, WatchedAgain, Locked, Cut;
      CutReplaces(ca[cr], k, lits);
      ghost var a, ca0, w0 := A(), ca, watches;
      WatchedTwice(orig, assumptions, a, ca, watches, dirty, dirties, cr);
      if k == 0 && IsLocked(cr) {
        reason := reason[ca[cr].lits[0].v := None];
      }
      ghost var vs0, vs1 := DetachStrictly(cr);
      StrengthenKeepsBase(orig, f, assumptions, a, ca0, w0, dirty, dirties, qhead, cr, k, vs0, vs1);
      ca := ca[cr := ca[cr].(lits := lits)];
      AttachClause(cr);
      loose := loose + {cr};
    }

    /** The index of a true literal, if there is one. */
    method TrueLiteral(lits: seq<Lit>) returns (k: nat)
      requires forall i :: 0 <= i < |lits| ==> lits[i].v < |assigns|
      ensures k <= |lits| && (k < |lits| ==> IsTrue(A(), lits[k]))
      ensures k == |lits| ==> forall i :: 0 <= i < |lits| ==> !IsTrue(A(), lits[i])
    {
      k := 0;
      while k < |lits| && Value(lits[k]) != LTrue
        invariant k <= |lits| && forall i :: 0 <= i < k ==> !IsTrue(A(), lits[i])
      {
        k := k + 1;
      }
    }

    /** Remove a clause if it has a true literal. */
    method DropIfTrue(cr: CRef) returns (dropped: bool)
      requires Core() && WatchSem(A(), ca, watches, qhead) && trailLim == [] && cr < |ca| && |assigns| == |reason|
      modifies `ca, `dirty, `dirties, `reason
      ensures Core() && WatchSem(A(), ca, watches, qhead) && |reason| == |old(reason)|
      ensures dropped <==> TrueClause(old(A()), old(ca)[cr])
      ensures ca == if dropped then Deleted(old(ca), cr) else old(ca)
    {
      hide Base, WatchSem, Sound, Locked, TrueClause;
      BaseParts(orig, assumptions, A(), ca, watches, dirty, dirties, cr);
      LiteralsInRange(orig, assumptions, A(), ca, watches, dirty, dirties, cr);
      var k := TrueLiteral(ca[cr].lits);
      FoundTrue(A(), ca[cr], k);
      dropped := k < |ca[cr].lits|;
      if dropped {
        SatisfiedMayGo(orig, assumptions, A(), ca, watches, dirty, dirties, cr, ca[cr].lits[k]);
        RemoveClause(cr, orig);
      }
    }

    /** Remove exactly the clauses of a list that are satisfied at level 0, compacting the list in place. */
    method RemoveSatisfied(refs: seq<CRef>, ghost other: seq<CRef>, ghost learnt: bool) returns (kept: seq<CRef>, ghost gone: set<CRef>)
      requires Core() && WatchSem(A(), ca, watches, qhead) && trailLim == []
      requires RefsOk(ca, refs, learnt) && RefsOk(ca, other, !learnt) && |assigns| == |reason|
      modifies `ca, `dirty, `dirties, `reason
      ensures Core() && WatchSem(A(), ca, watches, qhead)
      ensures RefsOk(ca, kept, learnt) && RefsOk(ca, other, !learnt) && |assigns| == |reason|
      ensures DeletedFrom(old(ca), ca, refs, kept, gone)
      ensures forall r :: r in refs ==> r < |old(ca)| && (r in gone <==> TrueClause(A(), old(ca)[r]))
    {
      hide Base, WatchSem, RefsOk, Compacting, TrueClause, DeletedFrom, Deleted;
      kept, gone := refs, {};
      var i, j := 0, 0;
      CompactStart(ca, refs, learnt, other);
      while i < |refs|
        invariant 0 <= i <= |refs| && 0 <= j && |assigns| == |reason|
        invariant Core() && WatchSem(A(), ca, watches, qhead)
        invariant Compacting(old(ca), ca, refs, kept, i, j, gone, learnt, other)
        invariant forall k :: 0 <= k < i ==> refs[k] < |old(ca)| && (refs[k] in gone <==> TrueClause(A(), old(ca)[refs[k]]))
        invariant forall k :: i <= k < |refs| ==> refs[k] !in gone
      {
        CompactStep(old(ca), ca, refs, kept, i, j, gone, learnt, other);
        DistinctRefs(old(ca), ca, refs, kept, i, j, gone, learnt, other);
        var cr := kept[i];
        ghost var a := A();
        var dropped := DropIfTrue(cr);
        SameTruth(a, A());
        if dropped {
          gone := gone + {cr};
        } else {
          kept := kept[j := cr];
          j := j + 1;
        }
        i := i + 1;
      }
      CompactEnd(old(ca), ca, refs, kept, j, gone, learnt, other);
      kept := kept[..j];
    }

    /** Remove a learnt clause of more than two literals that is no reason, if its activity is low. */
    method DropInactive(cr: CRef) returns (dropped: bool)
      requires Core() && WatchSem(A(), ca, watches, qhead) && |assigns| == |reason| && cr < |ca| && ca[cr].learnt
      modifies `ca, `dirty, `dirties, `reason
      ensures Core() && WatchSem(A(), ca, watches, qhead) && reason == old(reason)
      ensures dropped ==> ca == Deleted(old(ca), cr) && |old(ca)[cr].lits| > 2 && !Locked(A(), old(ca), cr)
      ensures !dropped ==> ca == old(ca)
    {
      hide Base, WatchSem, Sound, Locked;
      BaseParts(orig, assumptions, A(), ca, watches, dirty, dirties, cr);
      var inactive: bool := *;
      dropped := |ca[cr].lits| > 2 && !IsLocked(cr) && inactive;
      if dropped {
        LearntMayGo(orig, assumptions, A(), ca, watches, dirty, dirties, cr);
        RemoveClause(cr, orig);
      }
    }

    /** Delete some of the learnt clauses; binary clauses and reasons stay. Which others go is up to their activities. */
    method ReduceDB() returns (ghost gone: set<CRef>)
      requires Core() && WatchSem(A(), ca, watches, qhead) && |assigns| == |reason|
      requires RefsOk(ca, clauses, false) && RefsOk(ca, learnts, true)
      modifies `ca, `dirty, `dirties, `reason, `learnts
      ensures Core() && WatchSem(A(), ca, watches, qhead) && |assigns| == |reason|
      ensures RefsOk(ca, clauses, false) && RefsOk(ca, learnts, true)
      ensures DeletedFrom(old(ca), ca, old(learnts), learnts, gone) && reason == old(reason)
      ensures forall r :: r in gone ==> r < |old(ca)| && |old(ca)[r].lits| > 2 && !Locked(A(), old(ca), r)
    {
      hide Base, WatchSem, RefsOk, Locked, Compacting, DeletedFrom, Deleted;
      var kept := learnts;
      gone := {};
      var i, j := 0, 0;
      CompactStart(ca, learnts, true, clauses);
      while i < |learnts|
        invariant 0 <= i <= |learnts| && 0 <= j && |assigns| == |reason| && learnts == old(learnts) && reason == old(reason)
        invariant Core() && WatchSem(A(), ca, watches, qhead)
        invariant Compacting(old(ca), ca, learnts, kept, i, j, gone, true, clauses)
        invariant forall r :: r in gone ==> r < |old(ca)| && |old(ca)[r].lits| > 2 && !Locked(A(), old(ca), r)
      {
        CompactStep(old(ca), ca, learnts, kept, i, j, gone, true, clauses);
        var cr := kept[i];
        LockedAlike(A(), old(ca), ca, cr);
        var dropped := DropInactive(cr);
        if dropped {
          gone := gone + {cr};
        } else {
          kept := kept[j := cr];
          j := j + 1;
        }
        i := i + 1;
      }
      CompactEnd(old(ca), ca, learnts, kept, j, gone, true, clauses);
      learnts := kept[..j];
    }

    /** Reduction of the learnt clauses with the rest of the solver's state. */
    method ReduceLearnts()
      requires Valid() && AssumeInv(A(), assumptions)
      modifies `ca, `watches, `dirty, `dirties, `reason, `learnts, `clauses
      ensures Valid() && AssumeInv(A(), assumptions)
    {
      hide Base, WatchSem, HeapInv, NoMarks, RefsOk, LevelStart, AssumeInv;
      ghost var a := A();
      BaseTrail(orig, assumptions, a, ca, watches, dirty, dirties);
      ghost var gone := ReduceDB();
      CheckGarbage();
      ReasonsDoNotMatter(a, A(), assumptions, decision, orderHeap, seen);
    }

    // ---------- search ----------

    /** Propagation together with the rest of the solver's state. */
    method PropagateAll() returns (confl: Option<CRef>)
      requires Running()
      modifies `assigns, `trail, `level, `reason, `pos, `ca, `watches, `qhead, `dirty, `dirties
      ensures Reworked(old(ca), ca) && Extends(old(A()), A()) && (old(Listed()) ==> Listed())
      ensures Core() && Books() && qhead == |trail| && trailLim == old(trailLim) && old(trail) <= trail && |assigns| == |old(assigns)|
      ensures AssumeInv(old(A()), assumptions) ==> AssumeInv(A(), assumptions)
      ensures confl.None? ==> Running()
      ensures confl.Some? ==> Conflicting(A(), ca, confl.value) && WatchSem(A(), ca, watches, LevelStart(A()))
    {
      hide DbInv, WatchInv, WatchShape, WatchSem, DirtyOk, Extends, Reworked, Conflicting, HeapInv, NoMarks, RefsOk, AssumeInv;
      ghost var a, cb := A(), ca;
      confl := Propagate();
      ExtendsFacts(a, A());
      ExtendsPrefix(a, A());
      if AssumeInv(a, assumptions) {
        ExtendsKeepsAssumed(a, A(), assumptions);
      }
      ExtendsKeepsBooks(a, A(), decision, orderHeap, seen);
      FlagsKeepRefs(cb, ca, clauses, false);
      FlagsKeepRefs(cb, ca, learnts, true);
      DbFacts(orig, assumptions, A(), ca);
      if confl.None? {
        CleanIsDirtyOk(A(), ca, watches, |trail|);
        StartBelowEnd(A());
      } else {
        CleanIsDirtyOk(A(), ca, watches, LevelStart(A()));
      }
    }

    method RebuildOrderHeap()
      requires |decision| == |assigns|
      modifies `orderHeap
      ensures HeapInv(A(), decision, orderHeap)
    {
      var v := 0;
      orderHeap := {};
      while v < |assigns|
        invariant 0 <= v <= |assigns|
        invariant forall u :: 0 <= u < v && decision[u] && !IsSet(A(), u) ==> u in orderHeap
        invariant forall u :: u in orderHeap ==> u < v
      {
        if decision[v] && assigns[v] == LUndef {
          orderHeap := orderHeap + {v};
        }
        v := v + 1;
      }
    }

    /** Move the clauses met in watch lists, reasons and both lists of references, and rename these references. */
    method RelocAll() returns (s: Space, w: Watches, rs: seq<Option<CRef>>, ls: seq<CRef>, cs: seq<CRef>, ghost from: seq<CRef>)
      requires DbInv(orig, assumptions, A(), ca) && WatchInv(A(), ca, watches, qhead) && Listed()
      ensures Moving(ca, s.to, s.fwd, from) && WatchesMoved(watches, w, s.fwd) && MovedReasons(A(), rs, s.fwd)
      ensures MovedRefs(learnts, ls, s.fwd) && MovedRefs(clauses, cs, s.fwd)
    {
      hide DbInv, WatchInv, RefsOk, Moving, WatchesMoved, MovedReasons, MovedRefs, LiveRef, ListsOk, Clean;
      ghost var a := A();
      WatchParts(a, ca, watches, qhead);
      w, s, from := RelocWatches(ca, watches, |assigns|);
      AllMoved(orig, assumptions, a, ca, watches, qhead, w, s.fwd);
      ghost var f1 := s.fwd;
      rs, s, from := RelocReasons(ca, s, trail, reason, a, orig, assumptions, from);
      RefsLive(ca, learnts, true);
      RefsLive(ca, clauses, false);
      ghost var f2 := s.fwd;
      ls, s, from := RelocRefs(ca, s, learnts, from);
      ghost var f3 := s.fwd;
      cs, s, from := RelocRefs(ca, s, clauses, from);
      LaterMoves(a, watches, w, rs, learnts, ls, f1, f2, f3, s.fwd);
    }

    /**
     Copy all live clauses to a new database and rename every reference: equal references stay equal, different ones
     stay different, and each denotes the same clause as before.
     */
    method GarbageCollect() returns (ghost fwd: map<CRef, CRef>, ghost from: seq<CRef>)
      requires Core() && WatchSem(A(), ca, watches, qhead) && Listed() && loose == {}
      modifies `ca, `watches, `dirty, `dirties, `reason, `learnts, `clauses
      ensures Core() && WatchSem(A(), ca, watches, qhead) && Listed()
      ensures Complete(old(ca), ca, fwd, from) && MovedReasons(old(A()), reason, fwd)
      ensures WatchesMoved(CleanedWatches(old(ca), old(watches)), watches, fwd)
      ensures MovedRefs(old(clauses), clauses, fwd) && MovedRefs(old(learnts), learnts, fwd)
      ensures A() == old(A()).(reason := reason) && |reason| == |old(reason)|
    {
      hide DbInv, WatchShape, WatchInv, WatchSem, DirtyOk, RefsOk, Moving, WatchesMoved, MovedReasons, MovedRefs, Complete, CleanedWatches;
      ghost var a := A();
      CleanAll();
      var s, w, rs, ls, cs;
      s, w, rs, ls, cs, from := RelocAll();
      GarbageCollected(orig, assumptions, a, ca, watches, qhead, s.to, w, s.fwd, from, rs);
      MovedRefsOk(ca, s.to, s.fwd, from, learnts, ls, true);
      MovedRefsOk(ca, s.to, s.fwd, from, clauses, cs, false);
      fwd := s.fwd;
      MovedSize(a, rs, fwd);
      ca, watches, dirty, dirties, reason, learnts, clauses := s.to, w, {}, [], rs, ls, cs;
    }

    /** Collect garbage when enough space is wasted. */
    method CheckGarbage()
      requires Core() && WatchSem(A(), ca, watches, qhead) && Listed() && loose == {}
      modifies `ca, `watches, `dirty, `dirties, `reason, `learnts, `clauses
      ensures Core() && WatchSem(A(), ca, watches, qhead) && Listed()
      ensures A() == old(A()).(reason := reason) && |reason| == |old(reason)|
      ensures NoneTrue(assigns, old(ca), old(learnts)) ==> NoneTrue(assigns, ca, learnts)
      ensures NoneTrue(assigns, old(ca), old(clauses)) ==> NoneTrue(assigns, ca, clauses)
    {
      hide Base, WatchSem, RefsOk, Complete, MovedReasons, MovedRefs, NoneTrue, CleanedWatches, WatchesMoved;
      var wasteful: bool := *;
      if wasteful {
        ghost var ca0, learnts0, clauses0 := ca, learnts, clauses;
        ghost var fwd, from := GarbageCollect();
        if NoneTrue(assigns, ca0, learnts0) {
          NoneTrueMoved(assigns, ca0, ca, fwd, from, learnts0, learnts);
        }
        if NoneTrue(assigns, ca0, clauses0) {
          NoneTrueMoved(assigns, ca0, ca, fwd, from, clauses0, clauses);
        }
      }
    }

    /** Remove the satisfied clauses of both lists. */
    method RemoveAllSatisfied()
      requires Valid() && trailLim == [] && qhead == |trail|
      modifies `ca, `dirty, `dirties, `reason, `learnts, `clauses
      ensures Core() && WatchSem(A(), ca, watches, qhead) && Listed()
      ensures |reason| == |old(reason)| && NoneTrue(assigns, ca, learnts) && (removeSat ==> NoneTrue(assigns, ca, clauses))
    {
      hide Base, WatchSem, HeapInv, NoMarks, RefsOk, LevelStart, DeletedFrom, NoneTrue, TrueClause;
      BaseTrail(orig, assumptions, A(), ca, watches, dirty, dirties);
      ghost var gone, ca0, refs := {}, ca, learnts;
      learnts, gone := RemoveSatisfied(learnts, clauses, true);
      KeptNotTrue(A(), ca0, ca, refs, learnts, gone);
      if removeSat {
        ca0, refs := ca, clauses;
        clauses, gone := RemoveSatisfied(clauses, learnts, false);
        NoneTrueStays(assigns, learnts, ca0, ca, refs, clauses, gone);
        KeptNotTrue(A(), ca0, ca, refs, clauses, gone);
      }
    }

    /** Drop satisfied clauses and rebuild the order heap. */
    method DropSatisfied()
      requires Valid() && trailLim == [] && qhead == |trail|
      modifies `ca, `watches, `dirty, `dirties, `reason, `learnts, `clauses, `orderHeap
      ensures Valid() && qhead == |trail| && NoneTrue(assigns, ca, learnts) && (removeSat ==> NoneTrue(assigns, ca, clauses))
    {
      hide Base, WatchSem, HeapInv, NoMarks, RefsOk, LevelStart, NoneTrue;
      HeapSize(A(), decision, orderHeap);
      MarksAreNone(A(), seen);
      RemoveAllSatisfied();
      CheckGarbage();
      RebuildOrderHeap();
      MarksDependOnSize(A(), seen);
      LevelStartAtTop(A());
    }

    lemma ConflictHere(confl: CRef)
      requires Core() && Conflicting(A(), ca, confl) && trailLim == []
      ensures Unsat(orig)
    {
      ConflictRefutes(orig, assumptions, A(), ca, watches, dirty, dirties, confl);
    }

    /** Propagate at level 0 and drop satisfied clauses; false means the clauses added are unsatisfiable. */
    method Simplify() returns (r: bool)
      requires ok && Valid() && trailLim == []
      modifies `ok, `assigns, `trail, `level, `reason, `pos, `ca, `watches, `qhead, `dirty, `dirties,
               `learnts, `clauses, `orderHeap, `simpDbAssigns
      ensures ok == r && trailLim == [] && |assigns| == |old(assigns)|
      ensures r ==> Valid() && qhead == |trail| && old(trail) <= trail
      ensures !r ==> Core() && Books() && Unsat(orig)
      ensures r && (learnts != old(learnts) || clauses != old(clauses)) ==>
                simpDbAssigns == |trail| && NoneTrue(assigns, ca, learnts) && (removeSat ==> NoneTrue(assigns, ca, clauses))
    {
      hide Core, Books, Running, Listed, Conflicting, AssumeInv, WatchSem, LevelStart, Extends, Reworked, Unsat, NoneTrue;
      var confl := PropagateAll();
      if confl.Some? {
        ConflictHere(confl.value);
        ok := false;
        return false;
      }
      r := true;
      var recent: bool := *;
      if |trail| != simpDbAssigns && !recent {
        DropSatisfied();
        simpDbAssigns := |trail|;
      }
    }

    method NewDecisionLevel()
      requires Running() && qhead == |trail|
      modifies `trailLim
      ensures Running() && A() == OpenLevel(old(A()))
    {
      hide Base, WatchSem, HeapInv, NoMarks, RefsOk, LevelStart;
      OpenLevelKeepsBase(orig, assumptions, A(), ca, watches, dirty, dirties, qhead);
      OpenLevelKeepsBooks(A(), decision, orderHeap, seen);
      trailLim := trailLim + [|trail|];
    }

    /** Open the level of an assumption or of a branching literal. */
    method Decide(p: Lit)
      requires Core() && NoMarks(A(), seen) && Listed() && loose == {} && !probing
      requires WatchSem(A(), ca, watches, qhead) && qhead == |trail| && p.v < |assigns| && assigns[p.v] == LUndef
      requires HeapBut(A(), decision, orderHeap, p.v)
      requires |trailLim| < |assumptions| ==> p == assumptions[|trailLim|]
      modifies `trailLim, `assigns, `trail, `level, `reason, `pos
      ensures Valid() && trailLim == old(trailLim) + [|old(trail)|] && trail == old(trail) + [p] && |assigns| == |old(assigns)|
      ensures AssumeInv(old(A()), assumptions) ==> AssumeInv(A(), assumptions)
    {
      hide Base, WatchSem, HeapInv, HeapBut, NoMarks, RefsOk, LevelStart, AssumeInv;
      BaseTrail(orig, assumptions, A(), ca, watches, dirty, dirties);
      DecideStep(orig, assumptions, A(), ca, watches, dirty, dirties, decision, orderHeap, seen, qhead, p);
      trailLim := trailLim + [|trail|];
      UncheckedEnqueue(p, None);
    }

    /** The next branching literal, or none when every decision variable is assigned. */
    method PickBranchLit() returns (next: Option<Lit>)
      requires HeapInv(A(), decision, orderHeap)
      modifies `orderHeap
      ensures next.Some? ==> next.value.v < |assigns| && assigns[next.value.v] == LUndef && HeapBut(A(), decision, orderHeap, next.value.v)
      ensures next.Some? ==> next.value.v < |decision| && decision[next.value.v]
      ensures next.None? ==> HeapInv(A(), decision, orderHeap) && forall v :: 0 <= v < |assigns| && decision[v] ==> assigns[v] != LUndef
    {
      var sign: bool := *;
      var random: bool := *;
      if random && orderHeap != {} {
        var v :| v in orderHeap;
        if assigns[v] == LUndef && decision[v] {
          return Some(Lit(v, sign));
        }
      }
      while orderHeap != {}
        invariant HeapInv(A(), decision, orderHeap)
        decreases orderHeap
      {
        var v :| v in orderHeap;
        orderHeap := orderHeap - {v};
        if assigns[v] == LUndef && decision[v] {
          return Some(Lit(v, sign));
        }
      }
      return None;
    }

    lemma RunningFacts()
      requires Running()
      ensures TrailInv(A())
    {
    }

    /** The next assumption is false: a final conflict explains why. */
    method FailAssumption(p: Lit)
      requires Running() && !probing && |trailLim| < |assumptions| && p == assumptions[|trailLim|] && IsFalse(A(), p)
      modifies `seen, `conflict
      ensures Running() && conflict != [] && FinalConflict()
    {
      hide Base, HeapInv, NoMarks, WatchSem, LevelStart, Entailed, DbInv, BlamesExactly;
      BaseDb(orig, assumptions, A(), ca, watches, dirty, dirties);
      assert Neg(Neg(p)) == p;
      conflict := AnalyzeFinal(Neg(p));
    }

    /** Levels have been opened that hold nothing. */
    ghost predicate Dummies(lim: seq<nat>, lim': seq<nat>, end: nat) {
      lim <= lim' && forall i :: |lim| <= i < |lim'| ==> lim'[i] == end
    }

    /** Open dummy levels for assumptions that hold; find the next one to decide, or the final conflict. */
    method NextAssumption() returns (next: Option<Lit>, failed: bool)
      requires Valid() && qhead == |trail| && AssumeInv(A(), assumptions)
      requires forall i :: 0 <= i < |assumptions| ==> assumptions[i].v < |assigns|
      modifies `trailLim, `seen, `conflict
      ensures Valid() && qhead == |trail| && AssumeInv(A(), assumptions) && Dummies(old(trailLim), trailLim, |trail|)
      ensures failed ==> conflict != [] && FinalConflict()
      ensures !failed ==> conflict == old(conflict)
      ensures next.Some? && !failed ==> |trailLim| < |assumptions| && next.value == assumptions[|trailLim|] && assigns[next.value.v] == LUndef
      ensures next.None? && !failed ==> |trailLim| >= |assumptions|
    {
      hide Core, Books, Running, Listed, AssumeInv, Entailed, TrailInv, FinalConflict;
      while |trailLim| < |assumptions|
        invariant Valid() && qhead == |trail| && AssumeInv(A(), assumptions) && Dummies(old(trailLim), trailLim, |trail|)
        invariant conflict == old(conflict)
      {
        var p := assumptions[|trailLim|];
        if Value(p) == LTrue {
          RunningFacts();
          DummyLevel(A(), assumptions);
          NewDecisionLevel();
        } else if Value(p) == LFalse {
          FailAssumption(p);
          return None, true;
        } else {
          return Some(p), false;
        }
      }
      return None, false;
    }

    /** Learn from a conflict above level 0: return to the level of the learnt clause, store it, and enqueue its first literal. */
    method HandleConflict(confl: CRef) returns (ghost out: seq<Lit>, ghost btlevel: nat)
      requires Core() && Books() && WatchSem(A(), ca, watches, LevelStart(A())) && Conflicting(A(), ca, confl)
      requires trailLim != [] && AssumeInv(A(), assumptions) && Listed() && loose == {} && !probing
      modifies `seen, `toClear, `assigns, `trail, `trailLim, `qhead, `orderHeap, `level, `reason, `pos, `ca, `watches, `learnts
      ensures Valid() && AssumeInv(A(), assumptions) && |assigns| == |old(assigns)|
      ensures Taught(old(A()), old(ca), confl, ccminMode, out, btlevel, A(), ca)
      ensures btlevel < |old(trailLim)| && trailLim == old(trailLim)[..btlevel] && |trail| == old(trailLim)[btlevel] + 1
      ensures learnts == (if |out| == 1 then old(learnts) else old(learnts) + [|old(ca)|])
    {
      hide Base, WatchSem, Conflicting, HeapInv, NoMarks, Listed, AssumeInv, Asserting, LearntReady, Cancelled, LearntExactly, Enqueue, Taught;
      ghost var a, cb := A(), ca;
      BaseDb(orig, assumptions, a, ca, watches, dirty, dirties);
      MarksAreNone(a, seen);
      var learnt, level := Analyze(confl);
      out, btlevel := learnt, level;
      MarksDependOnSize(a, seen);
      AssertingLevel(ca, a, out, btlevel);
      CancelUntil(level);
      CancelEnds(a, A(), btlevel);
      BackjumpReady(orig, assumptions, a, ca, watches, dirty, dirties, out, btlevel, A());
      ghost var free := A();
      Learn(learnt);
      EnqueueShape(free, out[0], if |out| == 1 then None else Some(|cb|));
      TaughtBy(a, cb, confl, ccminMode, out, btlevel, free, A(), ca);
    }

    ghost predicate AssumptionsInRange()
      reads `assumptions, `assigns
    {
      forall i :: 0 <= i < |assumptions| ==> assumptions[i].v < |assigns|
    }

    /** Every decision variable is assigned and every assumption holds. */
    ghost predicate Decided()
      reads this
    {
      && (forall v :: 0 <= v < |assigns| && v < |decision| && decision[v] ==> assigns[v] != LUndef)
      && (forall i :: 0 <= i < |assumptions| ==> IsTrue(A(), assumptions[i]))
    }

    /** The final conflict: a consequence made of the negated assumptions that led to the failure of the next one. */
    ghost predicate FinalConflict()
      reads `assigns, `trail, `trailLim, `level, `reason, `pos, `loose, `probing, `orig, `assumptions, `ca, `conflict
    {
      && Entailed(ca, A(), conflict) && (forall q :: q in conflict ==> Neg(q) in assumptions)
      && FinalState(orig, assumptions, A(), ca, conflict)
    }

    /** Take the next assumption or branching literal; l_True when there is none left. */
    method Branch() returns (status: LBool)
      requires Valid() && qhead == |trail| && AssumeInv(A(), assumptions) && AssumptionsInRange() && conflict == []
      modifies `trailLim, `assigns, `trail, `level, `reason, `pos, `seen, `conflict, `orderHeap
      ensures Core() && Books() && |assigns| == |old(assigns)|
      ensures status == LUndef ==> Valid() && AssumeInv(A(), assumptions) && conflict == [] && |trail| == |old(trail)| + 1
      ensures status == LUndef ==> |old(trailLim)| < |trailLim| && Dummies(old(trailLim), trailLim, |old(trail)|)
      ensures status == LTrue ==> Valid() && qhead == |trail| && Decided()
      ensures status == LFalse ==> Valid() && FinalConflict() && conflict != []
    {
      hide Base, WatchSem, HeapInv, HeapBut, NoMarks, Listed, AssumeInv, FinalConflict, LevelStart;
      BaseTrail(orig, assumptions, A(), ca, watches, dirty, dirties);
      var next, failed := NextAssumption();
      if failed {
        return LFalse;
      }
      if next.None? {
        next := PickBranchLit();
        if next.None? {
          AllAssumed(A(), assumptions);
          return LTrue;
        }
      } else {
        HeapSuffices(A(), decision, orderHeap, next.value.v);
      }
      Decide(next.value);
      return LUndef;
    }

    /** What a search that is still running keeps. */
    ghost predicate Searching()
      reads this
    {
      ok && Valid() && AssumeInv(A(), assumptions) && AssumptionsInRange() && conflict == []
    }

    /** Branching gets the search further. */
    method Advance() returns (status: LBool)
      requires Searching() && qhead == |trail|
      modifies `trailLim, `assigns, `trail, `level, `reason, `pos, `seen, `conflict, `orderHeap
      ensures Core() && Books() && |assigns| == |old(assigns)|
      ensures status == LUndef ==> Searching() && RankHere() > old(RankHere())
      ensures status == LTrue ==> ok && Valid() && qhead == |trail| && Decided()
      ensures status == LFalse ==> ok && Valid() && FinalConflict() && conflict != []
    {
      hide Core, Books, Running, Listed, AssumeInv, FinalConflict, Decided, Rank, LevelsFilled, TrailInv;
      ghost var a := A();
      RunningFacts();
      status := Branch();
      if status == LUndef {
        RunningFacts();
        LevelsAreFilled(A(), assumptions);
        RankDecided(a, A(), |assumptions|);
      }
    }

    /** Propagation found no conflict: simplify at level 0, perhaps reduce the learnt clauses, then branch. */
    method QuietStep() returns (status: LBool)
      requires Searching() && qhead == |trail|
      modifies `ok, `assigns, `trail, `trailLim, `level, `reason, `pos, `ca, `watches, `qhead, `dirty, `dirties,
               `learnts, `clauses, `orderHeap, `simpDbAssigns, `seen, `conflict
      ensures Core() && Books() && |assigns| == |old(assigns)|
      ensures status == LUndef ==> Searching() && RankHere() > old(RankHere())
      ensures status == LTrue ==> ok && Valid() && qhead == |trail| && Decided()
      ensures status == LFalse ==> if conflict == [] then Unsat(orig) && trailLim == [] else ok && Valid() && FinalConflict()
    {
      hide Core, Books, Running, Listed, AssumeInv, FinalConflict, Decided, Unsat, Rank, LevelsFilled;
      ghost var a := A();
      if |trailLim| == 0 {
        var fine := Simplify();
        if !fine {
          return LFalse;
        }
        RunningSized();
        AssumeAtTop(A(), assumptions);
      }
      var crowded: bool := *;
      if crowded {
        ReduceLearnts();
      }
      RankExtended(a, A(), |assumptions|);
      status := Advance();
    }

    /** How far the search has come. */
    ghost function RankHere(): nat
      reads `assigns, `trail, `trailLim, `level, `reason, `pos, `loose, `probing, `assumptions
    {
      Rank(A(), |assumptions|)
    }

    /** The three ways a search may end. */
    ghost predicate SearchResult(status: LBool)
      reads this
    {
      match status
      case LUndef => Searching() && trailLim == []
      case LTrue => ok && Valid() && qhead == |trail| && Decided()
      case LFalse => if conflict == [] then Unsat(orig) && trailLim == [] else ok && Valid() && FinalConflict()
    }

    /** A conflict: at level 0 the clauses are unsatisfiable, otherwise a clause is learnt. */
    method OnConflict(confl: CRef) returns (done: bool, ghost hit: Hit)
      requires Core() && Books() && WatchSem(A(), ca, watches, LevelStart(A())) && Conflicting(A(), ca, confl)
      requires ok && AssumeInv(A(), assumptions) && AssumptionsInRange() && conflict == [] && Listed() && loose == {} && !probing
      modifies `seen, `toClear, `assigns, `trail, `trailLim, `qhead, `orderHeap, `level, `reason, `pos, `ca, `watches, `learnts
      ensures Core() && Books() && |assigns| == |old(assigns)|
      ensures if done then trailLim == old(trailLim) == [] && Unsat(orig) else Searching() && hit.b == A() && hit.ca' == ca
      ensures !done ==> |trailLim| < |old(trailLim)| && RankHere() > old(RankHere())
      ensures hit.a == old(A()) && hit.ca == old(ca) && hit.r == confl && HitOk(orig, assumptions, |assigns|, ccminMode, hit)
    {
      hide Core, Books, Listed, WatchSem, Conflicting, AssumeInv, LevelStart, DbInv, Taught, Unsat, Rank, LevelsFilled;
      done := |trailLim| == 0;
      ghost var a, cb := A(), ca;
      CoreTrail();
      if done {
        ConflictHere(confl);
        hit := Hit(a, cb, confl, [], 0, a, cb);
      } else {
        LevelsAreFilled(a, assumptions);
        ghost var learnt, level := HandleConflict(confl);
        RankLearnt(a, A(), |assumptions|, level);
        hit := Hit(a, cb, confl, learnt, level, A(), ca);
      }
    }

    lemma CoreTrail()
      requires Core()
      ensures TrailInv(A()) && DbInv(orig, assumptions, A(), ca)
    {
      BaseDb(orig, assumptions, A(), ca, watches, dirty, dirties);
    }

    /** One round: propagate, then learn from a conflict, give up, or branch. A conflict is noted. */
    method SearchRound(conflictC: nat, nofConflicts: int) returns (done: bool, status: LBool, conflictC': nat, ghost hit: Option<Hit>)
      requires Searching()
      modifies `ok, `assigns, `trail, `trailLim, `level, `reason, `pos, `ca, `watches, `qhead, `dirty, `dirties,
               `learnts, `clauses, `orderHeap, `simpDbAssigns, `seen, `toClear, `conflict
      ensures Core() && Books() && |assigns| == |old(assigns)|
      ensures if done then SearchResult(status) else Searching() && RankHere() > old(RankHere())
      ensures conflictC' == conflictC + if hit.Some? then 1 else 0
      ensures hit.Some? ==> HitOk(orig, assumptions, |assigns|, ccminMode, hit.value) && |hit.value.a.lim| == |old(trailLim)|
      ensures hit.Some? ==> old(RankHere()) <= Rank(hit.value.a, |assumptions|)
      ensures hit.Some? ==> if done then status == LFalse else Rank(hit.value.a, |assumptions|) < RankHere() && |trailLim| < |old(trailLim)|
      ensures hit.None? && (done ==> status == LTrue) ==> !Reached(nofConflicts, conflictC)
      ensures done && status == LUndef ==> Reached(nofConflicts, conflictC) && qhead == |trail|
    {
      hide Core, Books, Listed, Running, WatchSem, Conflicting, AssumeInv, LevelStart, Extends, Reworked, Unsat, FinalConflict, Decided, Rank;
      done, status, conflictC', hit := true, LUndef, conflictC, None;
      ghost var a := A();
      var confl := PropagateAll();
      ExtendsFacts(a, A());
      RankExtended(a, A(), |assumptions|);
      if confl.Some? {
        ghost var h;
        done, h := OnConflict(confl.value);
        hit := Some(h);
        status := if done then LFalse else LUndef;
        conflictC' := conflictC + 1;
      } else if nofConflicts >= 0 && conflictC >= nofConflicts {
        Restart();
      } else {
        status := QuietStep();
        done := status != LUndef;
      }
    }

    /**
     Search until a result is found or the limit on conflicts is reached; a negative limit means none. It terminates,
     whatever learnt clauses are removed on the way: every conflict and every decision makes the rank of the trail larger.
     The conflicts met are noted. The search gives up only after that many conflicts, with propagation at rest, and a
     limit that the conflicts of one search cannot reach makes it find a result.
     */
    method Search(nofConflicts: int) returns (status: LBool, ghost log: seq<Hit>)
      requires SearchResult(LUndef)
      modifies `ok, `assigns, `trail, `trailLim, `level, `reason, `pos, `ca, `watches, `qhead, `dirty, `dirties,
               `learnts, `clauses, `orderHeap, `simpDbAssigns, `seen, `toClear, `conflict
      ensures Core() && Books() && SearchResult(status) && |assigns| == |old(assigns)|
      ensures LogOk(orig, assumptions, |assigns|, ccminMode, log, nofConflicts)
      ensures status == LUndef ==> Reached(nofConflicts, |log|) && qhead == |trail|
      ensures status == LTrue ==> !Reached(nofConflicts, |log|)
      ensures nofConflicts < 0 || nofConflicts >= RankBound(|assigns|, |assumptions|) ==> status != LUndef
    {
      hide Core, Books, Searching, SearchResult, HitOk, LogOk, LogUpTo, Rank, RankBound, TrailInv;
      status, log := LUndef, [];
      SearchStarts(nofConflicts);
      var conflictC, done := 0, false;
      while !done
        invariant |assigns| == |old(assigns)| && Core() && Books() && conflictC == |log| && LogOk(orig, assumptions, |assigns|, ccminMode, log, nofConflicts)
        invariant done ==> SearchResult(status) && (status == LTrue ==> !Reached(nofConflicts, |log|))
        invariant done && status == LUndef ==> Reached(nofConflicts, |log|) && qhead == |trail| && |log| < RankBound(|assigns|, |assumptions|)
        invariant !done ==> Searching() && LogUpTo(log, nofConflicts, RankHere(), |trailLim|, |assumptions|)
        decreases !done, RankBound(|assigns|, |assumptions|) - RankHere()
      {
        ghost var rank, level, hit := RankHere(), |trailLim|, None;
        RankHereBelow(log, nofConflicts);
        done, status, conflictC, hit := SearchRound(conflictC, nofConflicts);
        if !done {
          SearchingTrail();
          RankBelow(A(), |assumptions|);
        }
        LogRound(orig, assumptions, |assigns|, ccminMode, log, nofConflicts, rank, level, hit, RankHere(), |trailLim|);
        log := log + if hit.Some? then [hit.value] else [];
      }
    }

    lemma SearchStarts(nofConflicts: int)
      requires SearchResult(LUndef)
      ensures Core() && Books() && Searching() && LogOk(orig, assumptions, |assigns|, ccminMode, [], nofConflicts)
      ensures LogUpTo([], nofConflicts, RankHere(), |trailLim|, |assumptions|)
    {
    }

    lemma RankHereBelow(log: seq<Hit>, nofConflicts: int)
      requires Searching() && LogOk(orig, assumptions, |assigns|, ccminMode, log, nofConflicts)
      requires LogUpTo(log, nofConflicts, RankHere(), |trailLim|, |assumptions|)
      ensures |log| < RankBound(|assigns|, |assumptions|)
    {
      SearchingTrail();
      LogBelow(orig, assumptions, A(), ccminMode, log, nofConflicts, |trailLim|);
    }

    lemma SearchingTrail()
      requires Searching()
      ensures TrailInv(A())
    {
      BaseTrail(orig, assumptions, A(), ca, watches, dirty, dirties);
    }

    /** Give up the current branch and return to level 0. */
    method Restart()
      requires Searching()
      modifies `assigns, `trail, `trailLim, `qhead, `orderHeap
      ensures Searching() && Core() && Books() && trailLim == [] && |assigns| == |old(assigns)|
      ensures old(qhead) == |old(trail)| ==> qhead == |trail|
    {
      hide Base, WatchSem, HeapInv, NoMarks, RefsOk, AssumeInv, LevelStart;
      ghost var a := A();
      StartSem(a, ca, watches, qhead);
      CancelUntil(0);
      BaseTrail(orig, assumptions, A(), ca, watches, dirty, dirties);
      if |a.lim| > 0 {
        CancelSize(a, 0);
      }
      LevelStartAtTop(A());
      AssumeAtTop(A(), assumptions);
    }

    // ---------- the interface ----------

    ghost predicate Sized()
      reads `assigns, `trail, `trailLim, `level, `reason, `pos, `loose, `probing, `decision, `seen
    {
      SameSize(A()) && |decision| == |seen| == |assigns|
    }

    /** At level 0 with all invariants, except perhaps that the lists of clauses name removed ones; or known to be contradictory. */
    ghost predicate Settled()
      reads `ok, `assigns, `trail, `trailLim, `level, `reason, `pos, `loose, `probing, `orig, `assumptions, `ca, `watches, `dirty, `dirties,
            `decision, `orderHeap, `seen, `qhead
    {
      Sized() && trailLim == [] && if ok then Running() && loose == {} && !probing else Unsat(orig)
    }

    /** Between calls: at level 0 with all invariants, or known to be contradictory. */
    ghost predicate Consistent()
      reads `ok, `assigns, `trail, `trailLim, `level, `reason, `pos, `loose, `probing, `orig, `assumptions, `ca, `watches, `dirty, `dirties,
            `decision, `orderHeap, `seen, `qhead, `clauses, `learnts
    {
      Settled() && (ok ==> Listed())
    }

    lemma ConsistentSettled()
      requires Consistent()
      ensures Settled()
    {
    }

    lemma ConsistentSizes()
      requires Consistent()
      ensures |decision| == |assigns| && (!ok ==> Unsat(orig))
    {
    }

    lemma BooksSized()
      requires Core() && Books()
      ensures Sized() && |trail| <= |assigns|
    {
      BaseTrail(orig, assumptions, A(), ca, watches, dirty, dirties);
    }

    /** A variable whose value the search must fix. */
    ghost predicate Fixed(v: Var)
      reads this
    {
      v < |decision| && (decision[v] || exists i :: 0 <= i < |assumptions| && assumptions[i].v == v)
    }

    /** The model found: it meets the assumptions, and if every variable of the clauses is fixed it meets all of them. */
    ghost predicate ModelFound()
      reads this
    {
      && |model| == |assigns|
      && (forall v :: 0 <= v < |model| && v < |decision| && decision[v] ==> model[v] != LUndef)
      && (forall i :: 0 <= i < |assumptions| ==> assumptions[i].v < |model| && model[assumptions[i].v] == ValueOf(assumptions[i].sign))
      && ((forall p: Lit :: Mentions(orig, p) ==> Fixed(p.v)) ==>
            forall m: Model :: Agrees(m, model) ==> SatAll(m, orig))
    }

    /** Copy the assignment into the model. */
    method StoreModel()
      requires Valid() && qhead == |trail| && Decided()
      modifies `model
      ensures ModelFound()
    {
      model := assigns;
      if forall p: Lit :: Mentions(orig, p) ==> Fixed(p.v) {
        hide Base, WatchSem, HeapInv, NoMarks, RefsOk;
        HeapSize(A(), decision, orderHeap);
        forall p: Lit | Mentions(orig, p) ensures IsSet(A(), p.v) {
          assert Fixed(p.v);
          if !decision[p.v] {
            var i :| 0 <= i < |assumptions| && assumptions[i].v == p.v;
            assert IsTrue(A(), assumptions[i]);
          }
        }
        ModelSatisfies(orig, assumptions, A(), ca, watches, dirty, dirties);
      }
    }

    /** The number of conflicts allowed before the next restart. */
    method RestartLimit(currRestarts: nat) returns (limit: int)
      ensures limit == LubySequence.LimitAt(lubyRestart, restartInc, restartFirst, currRestarts)
    {
      var restBase: real;
      if lubyRestart {
        restBase := LubySequence.Luby(restartInc, currRestarts);
      } else {
        restBase := LubySequence.RealPower(restartInc, currRestarts);
      }
      limit := (restBase * restartFirst as real).Floor;
    }

    /**
     Solve under assumptions. It terminates, since the limits of the searches outgrow the number of conflicts that one
     search can have. l_True comes with a model, l_False with a clause of negated assumptions that follows from the
     clauses added and names those that led to the failure of one of them; if it is empty they are unsatisfiable.
     */
    method Solve(assumps: seq<Lit>) returns (status: LBool)
      requires Consistent() && forall i :: 0 <= i < |assumps| ==> assumps[i].v < |assigns|
      modifies `ok, `assigns, `trail, `trailLim, `level, `reason, `pos, `ca, `watches, `qhead, `dirty, `dirties,
               `learnts, `clauses, `orderHeap, `simpDbAssigns, `seen, `toClear, `conflict, `model, `assumptions
      ensures orig == old(orig) && assumptions == assumps && decision == old(decision) && |assigns| == |old(assigns)|
      ensures Consistent() && status != LUndef
      ensures status == LTrue ==> ok && ModelFound()
      ensures status == LFalse ==> Entails(orig, conflict) && forall q :: q in conflict ==> Neg(q) in assumps
      ensures status == LFalse && conflict == [] ==> !ok
      ensures status == LFalse && conflict != [] ==> Accounted(orig, assumps, conflict)
    {
      hide Core, Books, SearchResult, ModelFound, Consistent, Entails, LogOk, Accounted, RankBound;
      NotOk();
      if !ok {
        model, conflict, assumptions := [], [], assumps;
        StaysContradictory();
        return LFalse;
      }
      StartSolve(assumps);
      status := SearchAll();
      Finish(status);
    }

    /** Search with growing limits until there is a result. */
    method SearchAll() returns (status: LBool)
      requires Core() && Books() && SearchResult(LUndef)
      modifies `ok, `assigns, `trail, `trailLim, `level, `reason, `pos, `ca, `watches, `qhead, `dirty, `dirties,
               `learnts, `clauses, `orderHeap, `simpDbAssigns, `seen, `toClear, `conflict
      ensures Core() && Books() && SearchResult(status) && status != LUndef && |assigns| == |old(assigns)|
    {
      hide Core, Books, SearchResult, LogOk, RankBound, LubySequence.LimitAt, Reached;
      status := LUndef;
      ghost var bound := RankBound(|assigns|, |assumptions|);
      ghost var last := LubySequence.LimitsGrow(lubyRestart, restartInc, restartFirst, bound);
      var currRestarts := 0;
      while status == LUndef
        invariant |assigns| == |old(assigns)| && Core() && Books() && SearchResult(status)
        invariant if status == LUndef then currRestarts <= last else currRestarts <= last + 1
        decreases last + 1 - currRestarts
      {
        var limit := RestartLimit(currRestarts);
        ghost var log;
        status, log := Search(limit);
        currRestarts := currRestarts + 1;
      }
    }

    lemma NotOk()
      requires Consistent()
      ensures Sized() && trailLim == [] && (!ok ==> Unsat(orig) && Entails(orig, []))
    {
    }

    lemma StaysContradictory()
      requires !ok && Sized() && trailLim == [] && Unsat(orig)
      ensures Consistent()
    {
    }

    method StartSolve(assumps: seq<Lit>)
      requires Consistent() && ok && forall i :: 0 <= i < |assumps| ==> assumps[i].v < |assigns|
      modifies `model, `conflict, `assumptions
      ensures assumptions == assumps && Core() && Books() && SearchResult(LUndef)
    {
      hide Base, WatchSem, HeapInv, NoMarks, RefsOk, AssumeInv, LevelStart;
      StartSolving(orig, assumptions, assumps, A(), ca, watches, dirty, dirties);
      model, conflict, assumptions := [], [], assumps;
    }

    /** Store the model and return to level 0. */
    method FinishModel()
      requires ok && Valid() && Core() && Books() && qhead == |trail| && Decided()
      modifies `model, `assigns, `trail, `trailLim, `qhead, `orderHeap
      ensures Core() && Books() && Sized() && trailLim == [] && |assigns| == |old(assigns)| && Valid() && ModelFound()
    {
      hide Core, Books, Valid, Decided, Sized;
      StoreModel();
      BackToTop();
    }

    /** Store the model or note the contradiction, and return to level 0. */
    method Finish(status: LBool)
      requires Core() && Books() && SearchResult(status)
      modifies `ok, `model, `assigns, `trail, `trailLim, `qhead, `orderHeap
      ensures Consistent() && |assigns| == |old(assigns)|
      ensures status == LTrue ==> ok && ModelFound()
      ensures status == LFalse ==> Entails(orig, conflict) && forall q :: q in conflict ==> Neg(q) in assumptions
      ensures status == LFalse && conflict == [] ==> !ok
      ensures status == LFalse && conflict != [] ==> Accounted(orig, assumptions, conflict)
    {
      hide Base, Books, WatchSem, Listed, AssumeInv, Entailed, LevelStart, Unsat, Entails, ModelFound, Sized, FinalState;
      if status == LTrue {
        FinishModel();
        return;
      }
      if status == LFalse && conflict == [] {
        UnsatEntails(orig);
        ok := false;
      } else if status == LFalse {
        EntailedByAdded(orig, assumptions, A(), ca, watches, dirty, dirties, conflict);
      }
      BackToTop();
    }

    /** Return to level 0; without effect when already there. */
    method BackToTop()
      requires Core() && Books() && (Valid() || trailLim == [])
      modifies `assigns, `trail, `trailLim, `qhead, `orderHeap
      ensures Core() && Books() && Sized() && trailLim == [] && |assigns| == |old(assigns)|
      ensures old(Valid()) ==> Valid()
    {
      hide Base, WatchSem, HeapInv, NoMarks, RefsOk, LevelStart;
      ghost var a := A();
      BaseTrail(orig, assumptions, a, ca, watches, dirty, dirties);
      if trailLim == [] {
        LevelStartAtTop(a);
        NothingProcessed(a, ca, watches);
      } else {
        StartSem(a, ca, watches, qhead);
      }
      CancelUntil(0);
      if |a.lim| > 0 {
        CancelSize(a, 0);
      }
      BooksSized();
      LevelStartAtTop(A());
    }

    // ---------- adding clauses ----------

    /** Enqueue the only free literal of a new clause. */
    method EnqueueUnit(ps: seq<Lit>, c: seq<Lit>)
      requires Running() && trailLim == [] && NormalForm(A(), ps, c) && |c| == 1
      modifies `orig, `assigns, `trail, `level, `reason, `pos
      ensures Running() && orig == old(orig) + [ps]
      ensures SameSize(old(A())) && c[0].v < |old(assigns)| && A() == Enqueue(old(A()), c[0], None)
    {
      hide Base, WatchSem, HeapInv, NoMarks, NormalForm, Enqueue, LevelStart;
      AddUnitStep(orig, assumptions, A(), ca, watches, dirty, dirties, qhead, ps, c);
      EnqueueKeepsBooks(A(), decision, orderHeap, seen, c[0], None);
      LevelStartAtTop(Enqueue(A(), c[0], None));
      orig := orig + [ps];
      UncheckedEnqueue(c[0], None);
    }

    /** Enqueue the only free literal of a new clause and propagate it. */
    method AddUnit(ps: seq<Lit>, c: seq<Lit>)
      requires ok && Running() && trailLim == [] && NormalForm(A(), ps, c) && |c| == 1
      modifies `ok, `orig, `assigns, `trail, `level, `reason, `pos, `ca, `watches, `qhead, `dirty, `dirties
      ensures Sized() && trailLim == [] && orig == old(orig) + [ps] && qhead == |trail| && if ok then Running() else Unsat(orig)
      ensures Reworked(old(ca), ca) && GrownBy(old(A()), A(), ps) && (old(Listed()) ==> Listed())
    {
      hide Core, Running, Books, Listed, NormalForm, Enqueue, Conflicting, AssumeInv, Extends, Reworked, GrownBy, Unsat, LevelStart, WatchSem;
      ghost var a := A();
      EnqueueUnit(ps, c);
      ghost var b := A();
      EnqueueShape(a, c[0], None);
      var confl := PropagateAll();
      BooksSized();
      GrownByUnit(a, ps, c, b, A());
      if confl.Some? {
        ConflictHere(confl.value);
        ok := false;
      }
    }

    /** Watch a new clause with at least two free literals. */
    method AttachLong(ps: seq<Lit>, c: seq<Lit>) returns (cr: CRef)
      requires Running() && trailLim == [] && NormalForm(A(), ps, c) && |c| > 1
      modifies `orig, `ca, `watches
      ensures Running() && orig == old(orig) + [ps] && cr == |old(ca)| && ca == old(ca) + [Clause(c, false, false)]
    {
      hide Base, WatchSem, Books, NormalForm, AttachedWatches, LevelStart;
      AddLongStep(orig, assumptions, A(), ca, watches, dirty, dirties, qhead, ps, c);
      orig := orig + [ps];
      cr := AttachNew(Clause(c, false, false));
    }

    lemma ListedMore(d: Clause)
      requires Listed() && !d.deleted && !d.learnt
      ensures RefsOk(ca + [d], clauses + [|ca|], false) && RefsOk(ca + [d], learnts, true)
    {
      NewRef(ca, clauses, false, d);
      NewRef(ca, learnts, true, d);
    }

    /** Store a new clause with at least two free literals. */
    method AddLong(ps: seq<Lit>, c: seq<Lit>)
      requires Running() && trailLim == [] && NormalForm(A(), ps, c) && |c| > 1
      modifies `orig, `ca, `watches, `clauses
      ensures Running() && orig == old(orig) + [ps] && (old(Listed()) ==> Listed())
      ensures ca == old(ca) + [Clause(c, false, false)] && clauses == old(clauses) + [|old(ca)|]
    {
      hide Running, RefsOk, NormalForm;
      if Listed() {
        ListedMore(Clause(c, false, false));
      }
      var cr := AttachLong(ps, c);
      clauses := clauses + [cr];
    }

    /** Record a clause that adds nothing. */
    method AddTrivial(ps: seq<Lit>)
      requires Running() && trailLim == [] && exists k :: 0 <= k < |ps| && (IsTrue(A(), ps[k]) || Neg(ps[k]) in ps)
      modifies `orig
      ensures Running() && orig == old(orig) + [ps]
    {
      hide Base, WatchSem, HeapInv, NoMarks, RefsOk, LevelStart;
      AddTrivialStep(orig, assumptions, A(), ca, watches, dirty, dirties, ps);
      orig := orig + [ps];
    }

    /** Record a clause that contradicts the top level. */
    method AddFalse(ps: seq<Lit>)
      requires Settled() && (ok ==> NormalForm(A(), ps, []))
      modifies `orig, `ok
      ensures Settled() && !ok && orig == old(orig) + [ps]
    {
      AddedEntailed(orig, ps);
      if ok {
        AddFalseStep(orig, assumptions, A(), ca, watches, dirty, dirties, ps);
      }
      orig := orig + [ps];
      ok := false;
    }

    /**
     Add a clause at level 0, after sorting and normalising it; false if the clauses are now known to be unsatisfiable.
     Either its normal form is stored as a new clause, or the clauses stay and at most the trail grows.
     */
    method AddClause(ps: seq<Lit>) returns (r: bool)
      requires Settled() && forall k :: 0 <= k < |ps| ==> ps[k].v < |assigns|
      modifies `ok, `orig, `assigns, `trail, `level, `reason, `pos, `ca, `watches, `qhead, `dirty, `dirties, `clauses
      ensures Settled() && r == ok && orig == old(orig) + [ps] && |assigns| == |old(assigns)|
      ensures old(Consistent()) ==> Consistent()
      ensures r && old(qhead) == |old(trail)| ==> qhead == |trail|
      ensures r ==> old(ok) && Stored(old(A()), old(ca), old(clauses), ps, A(), ca, clauses)
    {
      hide Running, Listed, NormalForm, Stored, Reworked, GrownBy, Unsat;
      if !ok {
        AddFalse(ps);
        return false;
      }
      ghost var a, ca0, refs := A(), ca, clauses;
      RunningSized();
      var trivial, c := SortAndNormalise(assigns, A(), ps);
      if trivial {
        AddTrivial(ps);
        ReworkedSelf(ca);
        GrownBySelf(a, ps);
        StoredShort(a, ca0, refs, ps, A(), ca);
      } else if |c| == 0 {
        assert c == [];
        AddFalse(ps);
      } else if |c| == 1 {
        AddUnit(ps, c);
        StoredShort(a, ca0, refs, ps, A(), ca);
      } else {
        AddLong(ps, c);
        StoredLong(a, ca0, refs, ps, c);
      }
      r := ok;
    }

    lemma RunningSized()
      requires Running()
      ensures SameSize(A()) && Sized()
    {
      BaseTrail(orig, assumptions, A(), ca, watches, dirty, dirties);
    }

    // ---------- for the simplifier ----------

    /** Enqueue a unit clause at level 0; false if its literal is known to be false. */
    method EnqueueTop(p: Lit) returns (r: bool)
      requires Running() && trailLim == [] && p.v < |assigns|
      modifies `orig, `assigns, `trail, `level, `reason, `pos
      ensures orig == old(orig) + [[p]] && trailLim == [] && (if r then Running() else Unsat(orig))
      ensures SameSize(old(A())) && A() == if old(assigns)[p.v] == LUndef then Enqueue(old(A()), p, None) else old(A())
      ensures r == (old(assigns)[p.v] != ValueOf(!p.sign))
    {
      hide Running, NormalForm, Unsat, Enqueue;
      RunningSized();
      UnitClause(A(), p);
      if Value(p) == LUndef {
        EnqueueUnit([p], [p]);
        r := true;
      } else if Value(p) == LTrue {
        AddTrivial([p]);
        r := true;
      } else {
        FalseUnit(p);
        orig := orig + [[p]];
        r := false;
      }
    }

    lemma FalseUnit(p: Lit)
      requires Running() && trailLim == [] && NormalForm(A(), [p], [])
      ensures Unsat(orig + [[p]])
    {
      AddFalseStep(orig, assumptions, A(), ca, watches, dirty, dirties, [p]);
    }

    /** Make a variable a decision variable or not. */
    method SetDecisionVar(v: Var, b: bool)
      requires Books() && v < |decision|
      modifies `decision, `orderHeap
      ensures Books() && decision == old(decision)[v := b]
    {
      decision := decision[v := b];
      InsertVarOrder(v);
    }

    /** Assume the negation of one more literal of the clause, which has no value yet. */
    method AssumeOne(c: seq<Lit>, i: nat, ghost a0: Asg)
      requires Running() && probing && qhead == |a0.trail| && i < |c| && c[i].v < |assigns| && Value(c[i]) == LUndef
      requires TrailInv(A()) && ProbeInv(A(), c) && Above(a0, A()) && Assumed(a0, A(), c, i)
      modifies `assigns, `trail, `level, `reason, `pos
      ensures Running() && |assigns| == |old(assigns)|
      ensures TrailInv(A()) && ProbeInv(A(), c) && Above(a0, A()) && Assumed(a0, A(), c, i + 1)
    {
      hide Base, WatchSem, HeapInv, NoMarks, TrailInv, ProbeInv, Above, Enqueue, Assumed;
      ghost var p := Neg(c[i]);
      assert Neg(p) == c[i];
      RunningSized();
      AssumedMore(a0, A(), c, i);
      ProbeOne(orig, assumptions, A(), ca, watches, dirty, dirties, qhead, c, p, a0);
      EnqueueKeepsBooks(A(), decision, orderHeap, seen, p, None);
      SameLevelStart(A(), Enqueue(A(), p, None));
      UncheckedEnqueue(Neg(c[i]), None);
    }

    /** The negation of the clause on a level of its own, as far as it is not known; false if a literal is true. */
    method AssumeNegation(c: seq<Lit>, ghost a0: Asg) returns (fine: bool)
      requires Running() && probing && qhead == |a0.trail| && forall k :: 0 <= k < |c| ==> c[k].v < |assigns|
      requires TrailInv(A()) && ProbeInv(A(), c) && Above(a0, A()) && Assumed(a0, A(), c, 0)
      modifies `assigns, `trail, `level, `reason, `pos
      ensures Running() && TrailInv(A()) && ProbeInv(A(), c) && Above(a0, A())
      ensures if fine then Assumed(a0, A(), c, |c|) else Trivial(a0, c)
    {
      hide Running, TrailInv, ProbeInv, Above, Assumed, Trivial;
      var i := 0;
      while i < |c|
        invariant i <= |c| && Running() && |assigns| == |old(assigns)|
        invariant TrailInv(A()) && ProbeInv(A(), c) && Above(a0, A()) && Assumed(a0, A(), c, i)
      {
        if Value(c[i]) == LTrue {
          AssumedTrue(a0, A(), c, i);
          return false;
        } else if Value(c[i]) != LFalse {
          AssumeOne(c, i, a0);
        } else {
          AssumedFalse(a0, A(), c, i);
        }
        i := i + 1;
      }
      fine := true;
    }

    /** Open a level to assume the negation of a clause on. */
    method OpenProbe(ghost c: seq<Lit>)
      requires Running() && trailLim == [] && qhead == |trail|
      modifies `trailLim, `probing
      ensures Running() && probing && trailLim == [|trail|] && TrailInv(old(A())) && TrailInv(A()) && ProbeInv(A(), c) && Above(old(A()), A())
      ensures Assumed(old(A()), A(), c, 0)
    {
      hide Base, WatchSem, HeapInv, NoMarks, TrailInv, ProbeInv, Above, LevelStart;
      BaseTrail(orig, assumptions, A(), ca, watches, dirty, dirties);
      StartProbe(orig, assumptions, A(), ca, watches, dirty, dirties, c);
      ProbedBooks(A(), decision, orderHeap, seen);
      AssumedNone(A(), c);
      trailLim := trailLim + [|trail|];
      probing := true;
    }

    /** Take the level back. */
    method CloseProbe(ghost a0: Asg)
      requires Core() && Books() && WatchSem(A(), ca, watches, LevelStart(A())) && Above(a0, A()) && TrailInv(a0) && a0.lim == []
      modifies `assigns, `trail, `trailLim, `qhead, `orderHeap, `probing
      ensures Running() && trailLim == [] && qhead == |trail| && !probing && assigns == a0.assigns && trail == a0.trail
    {
      hide Base, WatchSem, HeapInv, NoMarks, TrailInv, Cancelled, LevelStart;
      BaseTrail(orig, assumptions, A(), ca, watches, dirty, dirties);
      ghost var a := A();
      CancelUntil(0);
      ProbeUndone(a0, a, A());
      ghost var b := A();
      probing := false;
      EndProbe(orig, assumptions, b, ca, watches, dirty, dirties, decision, orderHeap, seen, A());
    }

    lemma CoreDb()
      requires Core()
      ensures DbInv(orig, assumptions, A(), ca) && TrailInv(A())
    {
    }

    lemma StartHere()
      requires Running()
      ensures WatchSem(A(), ca, watches, LevelStart(A())) && Core() && Books()
    {
      StartSem(A(), ca, watches, qhead);
    }

    /**
     Assume the negation of the clause and propagate, then take everything back. True only if the clause follows and is
     not trivial; otherwise it is trivial, or propagation comes to rest without a conflict.
     */
    method Implied(c: seq<Lit>) returns (r: bool)
      requires Running() && trailLim == [] && qhead == |trail| && loose == {} && !probing
      requires forall k :: 0 <= k < |c| ==> c[k].v < |assigns|
      modifies `assigns, `trail, `trailLim, `level, `reason, `pos, `ca, `watches, `qhead, `dirty, `dirties, `orderHeap, `probing
      ensures Running() && trailLim == [] && qhead == |trail| && !probing && assigns == old(assigns) && trail == old(trail)
      ensures Reworked(old(ca), ca) && |ca| == |old(ca)| && (old(Listed()) ==> Listed())
      ensures r ==> Entails(orig, c) && !Trivial(old(A()), c)
      ensures !r ==> Trivial(old(A()), c) || Unsettled(old(A()), ca, c)
    {
      hide Core, Base, Books, Running, WatchSem, TrailInv, ProbeInv, Above, Extends, Reworked, Listed, Conflicting, Entails, LevelStart, Assumed, Trivial, Unsettled;
      ghost var a0 := A();
      OpenProbe(c);
      ReworkedSelf(ca);
      var fine := AssumeNegation(c, a0);
      r := false;
      if fine {
        AssumedAll(a0, A(), c);
        r := ProbeConflict(c, a0);
      } else {
        StartHere();
      }
      ReworkedSize(old(ca), ca);
      CloseProbe(a0);
    }

    /** Propagate what has been assumed. */
    method ProbeConflict(ghost c: seq<Lit>, ghost a0: Asg) returns (r: bool)
      requires Running() && TrailInv(A()) && ProbeInv(A(), c) && Above(a0, A()) && Assumed(a0, A(), c, |c|) && loose == {}
      modifies `assigns, `trail, `level, `reason, `pos, `ca, `watches, `qhead, `dirty, `dirties
      ensures Core() && Books() && WatchSem(A(), ca, watches, LevelStart(A())) && Above(a0, A())
      ensures Reworked(old(ca), ca) && (old(Listed()) ==> Listed())
      ensures if r then Entails(orig, c) else Unsettled(a0, ca, c)
    {
      hide Core, Base, Books, Running, WatchSem, TrailInv, ProbeInv, Above, Extends, Reworked, Listed, Conflicting, Entails, LevelStart, Assumed, Trivial, Unsettled;
      ghost var a := A();
      var confl := PropagateAll();
      CoreDb();
      ProbePropagated(a, A(), c, a0);
      r := confl.Some?;
      if r {
        ConflictForces(orig, assumptions, ca, A(), c, confl.value);
      } else {
        RestsHere(a0, a, c);
        StartHere();
      }
    }

    lemma RestsHere(a0: Asg, a: Asg, c: seq<Lit>)
      requires Running() && qhead == |trail| && loose == {} && TrailInv(A()) && ProbeInv(A(), c)
      requires Above(a0, A()) && Extends(a, A()) && Assumed(a0, a, c, |c|)
      ensures Unsettled(a0, ca, c)
    {
      ComesToRest(orig, assumptions, a0, a, A(), ca, watches, dirty, dirties, c);
    }

    /** The formula the solver stands for has the models of its clauses and trail. */
    lemma Means(m: Model)
      requires Running() && trailLim == []
      ensures SatAll(m, orig) <==> SatDb(m, ca) && forall i :: 0 <= i < |trail| ==> Holds(m, trail[i])
    {
      SoundExactly(orig, ca, A(), m);
    }

    lemma RunningParts()
      requires Running()
      ensures TrailInv(A()) && ReasonInv(A(), ca) && Sized() && |trail| <= |assigns|
    {
      BaseTrail(orig, assumptions, A(), ca, watches, dirty, dirties);
    }

    /** Propagation at level 0. */
    method PropagateTop() returns (conflict: bool)
      requires Running() && trailLim == []
      modifies `assigns, `trail, `level, `reason, `pos, `ca, `watches, `qhead, `dirty, `dirties
      ensures Sized() && trailLim == [] && qhead == |trail| && |assigns| == |old(assigns)| && old(trail) <= trail
      ensures Reworked(old(ca), ca) && |ca| == |old(ca)|
      ensures if conflict then Unsat(orig) else Running() && Explained(old(A()), A(), ca, [])
    {
      hide Core, Books, Running, WatchSem, Conflicting, Reworked, Extends, Unsat, LevelStart, Explained, GrownBy, TrailInv, ReasonInv, Sized;
      ghost var a := A();
      var confl := PropagateAll();
      BooksSized();
      conflict := confl.Some?;
      if conflict {
        ConflictHere(confl.value);
      } else {
        RunningParts();
        ExtendsGrown(a, A());
        GrownExplained(a, A(), ca, []);
      }
      ReworkedSize(old(ca), ca);
    }

    /** Remove a clause at level 0; from then on the solver stands for f. */
    method RemoveTop(cr: CRef, ghost f: seq<seq<Lit>>)
      requires Running() && trailLim == [] && cr < |ca| && Sound(f, Deleted(ca, cr), A())
      modifies `ca, `dirty, `dirties, `reason, `orig
      ensures Running() && orig == f && ca == Deleted(old(ca), cr)
    {
      hide Base, WatchSem, HeapInv, NoMarks, Sound, LevelStart, Deleted, Locked;
      ghost var a := A();
      RunningParts();
      RemoveClause(cr, f);
      orig := f;
      OnlyReasons(a, A(), decision, orderHeap, seen);
    }

    /** Strengthen a clause in place at level 0; from then on the solver stands for f. */
    method StrengthenTop(cr: CRef, k: nat, lits: seq<Lit>, ghost f: seq<seq<Lit>>)
      requires Running() && trailLim == [] && cr < |ca| && !ca[cr].deleted
      requires |ca[cr].lits| > 2 && k < |ca[cr].lits| && lits == Cut(ca[cr], k).lits && Sound(f, ca[cr := Cut(ca[cr], k)], A())
      modifies `ca, `watches, `reason, `loose, `orig
      ensures Running() && orig == f && ca == old(ca)[cr := Cut(old(ca)[cr], k)] && loose == old(loose) + {cr}
    {
      hide Base, WatchSem, HeapInv, NoMarks, Sound, LevelStart, Cut;
      ghost var a := A();
      Strengthen(cr, k, lits, f);
      orig := f;
      OnlyReasons(a, A(), decision, orderHeap, seen);
    }

    /** Once no loose clause has an assigned literal, none is loose any more. */
    ghost method Tighten()
      requires Running()
      requires forall r, k :: r in loose && r < |ca| && !ca[r].deleted && 0 <= k < |ca[r].lits| ==> !IsSet(A(), ca[r].lits[k].v)
      modifies `loose
      ensures Running() && loose == {}
    {
      hide Base, WatchSem, HeapInv, NoMarks, LevelStart;
      ghost var a := A();
      TightenBase(orig, assumptions, A(), ca, watches, dirty, dirties, qhead);
      loose := {};
      OnlyReasons(a, A(), decision, orderHeap, seen);
    }

    /** Rebuild the order of decision variables. */
    method RestoreOrder()
      requires Running()
      modifies `orderHeap
      ensures Running()
    {
      hide Base, WatchSem, HeapInv, NoMarks, LevelStart;
      RunningSized();
      RebuildOrderHeap();
    }

    /** Collect garbage and rebuild the order of decision variables. */
    method CleanUp()
      requires ok && Consistent()
      modifies `ca, `watches, `dirty, `dirties, `reason, `learnts, `clauses, `orderHeap
      ensures ok && Consistent()
    {
      hide Base, WatchSem, HeapInv, NoMarks, RefsOk, LevelStart, Complete, WatchesMoved, MovedReasons, MovedRefs, CleanedWatches;
      HeapSize(A(), decision, orderHeap);
      MarksAreNone(A(), seen);
      ghost var fwd, from := GarbageCollect();
      RebuildOrderHeap();
      MarksDependOnSize(A(), seen);
      LevelStartAtTop(A());
    }

    /** The same state, described by another formula it stands for. */
    ghost method Restate(f: seq<seq<Lit>>)
      requires Running() && Sound(f, ca, A())
      modifies `orig
      ensures Running() && orig == f
    {
      hide TrailInv, ReasonInv, DecisionInv, ClausesOk, WatchShape, DirtyOk, WatchSem, HeapInv, NoMarks, LevelStart, Sound;
      orig := f;
    }
  }
}
