/** Copying garbage collection of the clause database: what moving the clauses and renaming all references keeps. */
module Relocation {
  import opened Literals
  import opened Assignment
  import opened Watching
  import opened Meaning
  import opened Invariant
  import Steps

  /** Clauses moved so far: fwd is the forwarding reference left in each, from the way back. */
  ghost predicate Moving(ca: seq<Clause>, to: seq<Clause>, fwd: map<CRef, CRef>, from: seq<CRef>) {
    && |from| == |to|
    && (forall r :: r in fwd ==> r < |ca| && !ca[r].deleted && fwd[r] < |to| && to[fwd[r]] == ca[r] && from[fwd[r]] == r)
    && (forall k :: 0 <= k < |to| ==> from[k] in fwd && fwd[from[k]] == k)
  }

  ghost predicate Grows(fwd: map<CRef, CRef>, fwd': map<CRef, CRef>) {
    forall r :: r in fwd ==> r in fwd' && fwd'[r] == fwd[r]
  }

  lemma GrowsTrans(f: map<CRef, CRef>, g: map<CRef, CRef>, h: map<CRef, CRef>)
    requires Grows(f, g) && Grows(g, h)
    ensures Grows(f, h)
  {
  }

  lemma MoveOne(ca: seq<Clause>, to: seq<Clause>, fwd: map<CRef, CRef>, from: seq<CRef>, r: CRef)
    requires Moving(ca, to, fwd, from) && r < |ca| && !ca[r].deleted && r !in fwd
    ensures Moving(ca, to + [ca[r]], fwd[r := |to|], from + [r]) && Grows(fwd, fwd[r := |to|])
  {
  }

  /** Different clauses get different places. */
  lemma MovingInjective(ca: seq<Clause>, to: seq<Clause>, fwd: map<CRef, CRef>, from: seq<CRef>, r: CRef, s: CRef)
    requires Moving(ca, to, fwd, from) && r in fwd && s in fwd
    ensures fwd[r] == fwd[s] <==> r == s
  {
  }

  ghost predicate LiveRef(ca: seq<Clause>, r: CRef) {
    r < |ca| && !ca[r].deleted
  }

  ghost predicate MovedList(ws: seq<Watcher>, ws': seq<Watcher>, fwd: map<CRef, CRef>) {
    |ws'| == |ws| && forall i :: 0 <= i < |ws| ==> ws[i].cref in fwd && ws'[i] == Watcher(fwd[ws[i].cref], ws[i].blocker)
  }

  ghost predicate MovedRefs(refs: seq<CRef>, refs': seq<CRef>, fwd: map<CRef, CRef>) {
    |refs'| == |refs| && forall i :: 0 <= i < |refs| ==> refs[i] in fwd && refs'[i] == fwd[refs[i]]
  }

  ghost predicate WatchesMoved(w: Watches, w': Watches, fwd: map<CRef, CRef>) {
    (forall p :: p in w' <==> p in w) && forall p :: p in w ==> MovedList(w[p], w'[p], fwd)
  }

  ghost predicate MovedReason(reason: Option<CRef>, reason': Option<CRef>, fwd: map<CRef, CRef>) {
    match reason
    case None => reason' == None
    case Some(r) => r in fwd && reason' == Some(fwd[r])
  }

  ghost predicate MovedReasons(a: Asg, reason': seq<Option<CRef>>, fwd: map<CRef, CRef>) {
    |reason'| == |a.reason| && forall v :: IsSet(a, v) && v < |a.reason| ==> MovedReason(a.reason[v], reason'[v], fwd)
  }

  lemma MovedListGrows(ws: seq<Watcher>, ws': seq<Watcher>, fwd: map<CRef, CRef>, fwd': map<CRef, CRef>)
    requires Grows(fwd, fwd') && MovedList(ws, ws', fwd)
    ensures MovedList(ws, ws', fwd')
  {
  }

  // ---------- what is kept ----------

  /** Every live clause is watched, so it has been moved. */
  lemma LiveMoved(n: nat, ca: seq<Clause>, w: Watches, w': Watches, fwd: map<CRef, CRef>, r: CRef)
    requires ClausesOk(n, ca) && Attached(ca, w) && WatchesMoved(w, w', fwd) && LiveRef(ca, r)
    ensures r in fwd
  {
  }

  /** All live clauses have a place in the new database, and it holds nothing else. */
  ghost predicate Complete(ca: seq<Clause>, to: seq<Clause>, fwd: map<CRef, CRef>, from: seq<CRef>) {
    Moving(ca, to, fwd, from) && forall r: CRef :: LiveRef(ca, r) ==> r in fwd
  }

  lemma NoneTrueMoved(values: seq<LBool>, ca: seq<Clause>, to: seq<Clause>, fwd: map<CRef, CRef>, from: seq<CRef>, refs: seq<CRef>, refs': seq<CRef>)
    requires Complete(ca, to, fwd, from) && MovedRefs(refs, refs', fwd) && Steps.NoneTrue(values, ca, refs)
    ensures Steps.NoneTrue(values, to, refs')
  {
    forall r | r in refs' ensures r < |to| && !exists k :: 0 <= k < |to[r].lits| && TrueLit(values, to[r].lits[k]) {
      var i :| 0 <= i < |refs'| && refs'[i] == r;
      assert refs[i] in refs && to[r] == ca[refs[i]];
    }
  }

  lemma MovedMeaning(orig: seq<seq<Lit>>, ca: seq<Clause>, to: seq<Clause>, fwd: map<CRef, CRef>, from: seq<CRef>, a: Asg)
    requires Complete(ca, to, fwd, from) && Sound(orig, ca, a)
    ensures Sound(orig, to, a)
  {
    forall m: Model ensures SatDb(m, ca) <==> SatDb(m, to) ensures SatProblem(m, ca) <==> SatProblem(m, to) {
      assert forall k :: 0 <= k < |to| ==> to[k] == ca[from[k]] && LiveRef(ca, from[k]);
      assert forall r: CRef :: LiveRef(ca, r) ==> r in fwd && to[fwd[r]] == ca[r];
    }
    forall k, i | 0 <= k < |to| && !to[k].learnt && 0 <= i < |to[k].lits| ensures Mentions(orig, to[k].lits[i]) {
      assert to[k] == ca[from[k]] && LiveRef(ca, from[k]);
    }
  }

  lemma MovedReasonsOk(a: Asg, ca: seq<Clause>, to: seq<Clause>, fwd: map<CRef, CRef>, from: seq<CRef>,
                       reason': seq<Option<CRef>>, assumptions: seq<Lit>)
    requires TrailInv(a) && ReasonInv(a, ca) && DecisionInv(a, assumptions)
    requires Moving(ca, to, fwd, from) && MovedReasons(a, reason', fwd)
    ensures var b := a.(reason := reason'); TrailInv(b) && ReasonInv(b, to) && DecisionInv(b, assumptions)
  {
    var b := a.(reason := reason');
    assert forall v: int :: IsSet(b, v) <==> IsSet(a, v);
    assert forall q: Lit :: IsTrue(b, q) <==> IsTrue(a, q);
    forall v | IsSet(b, v) ensures LevelOk(b, v) && MovedReason(a.reason[v], b.reason[v], fwd) {
      assert LevelOk(a, v);
    }
    forall v | IsSet(b, v) && b.reason[v].Some? ensures ReasonOk(b, to, b.reason[v].value, b.trail[b.pos[v]]) {
      assert MovedReason(a.reason[v], b.reason[v], fwd);
      assert ReasonOk(a, ca, a.reason[v].value, a.trail[a.pos[v]]);
    }
  }

  lemma MovedClauses(n: nat, ca: seq<Clause>, to: seq<Clause>, fwd: map<CRef, CRef>, from: seq<CRef>)
    requires ClausesOk(n, ca) && Moving(ca, to, fwd, from)
    ensures ClausesOk(n, to)
  {
    forall k | 0 <= k < |to| ensures ClauseOk(n, to[k]) {
      assert ClauseOk(n, ca[from[k]]);
    }
  }

  lemma MovedShape(n: nat, ca: seq<Clause>, w: Watches, to: seq<Clause>, w': Watches, fwd: map<CRef, CRef>, from: seq<CRef>)
    requires Moving(ca, to, fwd, from) && WatchesMoved(w, w', fwd) && ListsOk(n, ca, w)
    ensures ListsOk(n, to, w')
  {
  }

  lemma MovedAttached(n: nat, ca: seq<Clause>, w: Watches, to: seq<Clause>, w': Watches, fwd: map<CRef, CRef>, from: seq<CRef>)
    requires Moving(ca, to, fwd, from) && WatchesMoved(w, w', fwd) && Attached(ca, w)
    ensures Attached(to, w')
  {
    forall p: Lit, r: CRef | r in fwd && AttachedIn(w, p, r) ensures AttachedIn(w', p, fwd[r]) {
      var i :| 0 <= i < |w[p]| && w[p][i].cref == r;
      assert MovedList(w[p], w'[p], fwd);
      assert w'[p][i].cref == fwd[r];
    }
    forall k | 0 <= k < |to| && |to[k].lits| >= 2
      ensures AttachedIn(w', Neg(to[k].lits[0]), k) && AttachedIn(w', Neg(to[k].lits[1]), k)
    {
      assert fwd[from[k]] == k && to[k] == ca[from[k]];
    }
  }

  lemma MovedSem(a: Asg, ca: seq<Clause>, w: Watches, bound: int, to: seq<Clause>, w': Watches, fwd: map<CRef, CRef>, from: seq<CRef>,
                 reason': seq<Option<CRef>>)
    requires Moving(ca, to, fwd, from) && WatchesMoved(w, w', fwd) && WatchSem(a, ca, w, bound) && a.loose == {}
    ensures WatchSem(a.(reason := reason'), to, w', bound) && Clean(to, w')
  {
  }

  lemma MovedRefsOk(ca: seq<Clause>, to: seq<Clause>, fwd: map<CRef, CRef>, from: seq<CRef>, refs: seq<CRef>, refs': seq<CRef>, learnt: bool)
    requires Moving(ca, to, fwd, from) && MovedRefs(refs, refs', fwd) && Steps.RefsOk(ca, refs, learnt)
    ensures Steps.RefsOk(to, refs', learnt)
  {
  }

  /** The whole invariant survives when all clauses have been moved and all references renamed. */
  lemma GarbageCollected(orig: seq<seq<Lit>>, assumptions: seq<Lit>, a: Asg, ca: seq<Clause>, w: Watches, bound: int,
                         to: seq<Clause>, w': Watches, fwd: map<CRef, CRef>, from: seq<CRef>, reason': seq<Option<CRef>>)
    requires DbInv(orig, assumptions, a, ca) && WatchInv(a, ca, w, bound) && a.loose == {}
    requires Moving(ca, to, fwd, from) && WatchesMoved(w, w', fwd) && MovedReasons(a, reason', fwd)
    ensures Steps.Base(orig, assumptions, a.(reason := reason'), to, w', {}, [])
    ensures WatchSem(a.(reason := reason'), to, w', bound)
    ensures Complete(ca, to, fwd, from)
  {
    hide TrailInv, ReasonInv, DecisionInv, Sound, ListsOk, Attached, WatchSem, Clean, Moving, WatchesMoved, MovedReasons, ClausesOk, LiveRef;
    var b := a.(reason := reason');
    forall r: CRef | LiveRef(ca, r) ensures r in fwd {
      LiveMoved(|a.assigns|, ca, w, w', fwd, r);
    }
    MovedMeaning(orig, ca, to, fwd, from, a);
    MovedReasonsOk(a, ca, to, fwd, from, reason', assumptions);
    MovedClauses(|a.assigns|, ca, to, fwd, from);
    MovedShape(|a.assigns|, ca, w, to, w', fwd, from);
    MovedAttached(|a.assigns|, ca, w, to, w', fwd, from);
    MovedSem(a, ca, w, bound, to, w', fwd, from, reason');
    SameTopForReasons(orig, to, a, b);
    CleanIsBase(to, w');
  }

  lemma SameTopForReasons(orig: seq<seq<Lit>>, to: seq<Clause>, a: Asg, b: Asg)
    requires Sound(orig, to, a) && b == a.(reason := b.reason) && TrailInv(b)
    ensures Sound(orig, to, b)
  {
  }

  lemma CleanIsBase(to: seq<Clause>, w: Watches)
    requires Clean(to, w)
    ensures DirtyOk(to, w, {}, [])
  {
  }

  lemma ReasonLive(orig: seq<seq<Lit>>, assumptions: seq<Lit>, a: Asg, ca: seq<Clause>, i: nat)
    requires DbInv(orig, assumptions, a, ca) && i < |a.trail|
    ensures a.trail[i].v < |a.reason|
    ensures a.reason[a.trail[i].v].Some? ==> LiveRef(ca, a.reason[a.trail[i].v].value)
  {
  }

  lemma RefsLive(ca: seq<Clause>, refs: seq<CRef>, learnt: bool)
    requires Steps.RefsOk(ca, refs, learnt)
    ensures forall i :: 0 <= i < |refs| ==> LiveRef(ca, refs[i])
  {
  }

  /** The reasons of the first i literals of the trail have been renamed. */
  ghost predicate ReasonsUpTo(a: Asg, reason': seq<Option<CRef>>, fwd: map<CRef, CRef>, i: int) {
    && 0 <= i <= |a.trail| && |reason'| == |a.reason|
    && (forall v :: 0 <= v < |a.reason| ==> if IsSet(a, v) && v < |a.pos| && a.pos[v] < i then MovedReason(a.reason[v], reason'[v], fwd)
                                            else reason'[v] == a.reason[v])
  }

  lemma ReasonsAll(a: Asg, reason': seq<Option<CRef>>, fwd: map<CRef, CRef>)
    requires TrailInv(a) && ReasonsUpTo(a, reason', fwd, |a.trail|)
    ensures MovedReasons(a, reason', fwd)
  {
  }

  lemma NextReason(a: Asg, reason': seq<Option<CRef>>, fwd: map<CRef, CRef>, i: nat, fwd': map<CRef, CRef>, r: Option<CRef>)
    requires TrailInv(a) && i < |a.trail| && ReasonsUpTo(a, reason', fwd, i) && Grows(fwd, fwd')
    requires var v := a.trail[i].v; v < |a.reason| && MovedReason(a.reason[v], r, fwd')
    ensures ReasonsUpTo(a, reason'[a.trail[i].v := r], fwd', i + 1)
  {
  }

  // ---------- copying ----------

  datatype Space = Space(to: seq<Clause>, fwd: map<CRef, CRef>)

  /** Rename one reference; the clause is copied when it is met for the first time. */
  method Reloc(ca: seq<Clause>, s: Space, cr: CRef, ghost from: seq<CRef>) returns (cr': CRef, s': Space, ghost from': seq<CRef>)
    requires Moving(ca, s.to, s.fwd, from) && LiveRef(ca, cr)
    ensures Moving(ca, s'.to, s'.fwd, from') && Grows(s.fwd, s'.fwd) && cr in s'.fwd && cr' == s'.fwd[cr]
  {
    from' := from;
    if cr in s.fwd {
      return s.fwd[cr], s, from;
    }
    MoveOne(ca, s.to, s.fwd, from, cr);
    cr' := |s.to|;
    s' := Space(s.to + [ca[cr]], s.fwd[cr := cr']);
    from' := from + [cr];
  }

  method RelocList(ca: seq<Clause>, s: Space, ws: seq<Watcher>, ghost from: seq<CRef>)
    returns (ws': seq<Watcher>, s': Space, ghost from': seq<CRef>)
    requires Moving(ca, s.to, s.fwd, from) && forall i :: 0 <= i < |ws| ==> LiveRef(ca, ws[i].cref)
    ensures Moving(ca, s'.to, s'.fwd, from') && Grows(s.fwd, s'.fwd) && MovedList(ws, ws', s'.fwd)
  {
    hide Moving;
    ws', s', from' := [], s, from;
    var j := 0;
    while j < |ws|
      invariant j <= |ws| && Moving(ca, s'.to, s'.fwd, from') && Grows(s.fwd, s'.fwd) && MovedList(ws[..j], ws', s'.fwd)
    {
      ghost var before := s'.fwd;
      var cr;
      cr, s', from' := Reloc(ca, s', ws[j].cref, from');
      MovedListGrows(ws[..j], ws', before, s'.fwd);
      GrowsTrans(s.fwd, before, s'.fwd);
      ws' := ws' + [Watcher(cr, ws[j].blocker)];
      j := j + 1;
    }
    assert ws[..|ws|] == ws;
  }

  method RelocRefs(ca: seq<Clause>, s: Space, refs: seq<CRef>, ghost from: seq<CRef>)
    returns (refs': seq<CRef>, s': Space, ghost from': seq<CRef>)
    requires Moving(ca, s.to, s.fwd, from) && forall i :: 0 <= i < |refs| ==> LiveRef(ca, refs[i])
    ensures Moving(ca, s'.to, s'.fwd, from') && Grows(s.fwd, s'.fwd) && MovedRefs(refs, refs', s'.fwd)
  {
    hide Moving;
    refs', s', from' := [], s, from;
    var j := 0;
    while j < |refs|
      invariant j <= |refs| && Moving(ca, s'.to, s'.fwd, from') && Grows(s.fwd, s'.fwd) && MovedRefs(refs[..j], refs', s'.fwd)
    {
      ghost var before := s'.fwd;
      var cr;
      cr, s', from' := Reloc(ca, s', refs[j], from');
      GrowsTrans(s.fwd, before, s'.fwd);
      refs' := refs' + [cr];
      j := j + 1;
    }
    assert refs[..|refs|] == refs;
  }

  /** Lists of the literals of variables below v have been renamed, the others not yet. */
  ghost predicate ListsUpTo(n: nat, w: Watches, w': Watches, fwd: map<CRef, CRef>, v: int, positive: bool) {
    && (forall p :: p in w' <==> p in w)
    && (forall p :: p in w && p.v < n ==>
          if p.v < v || (p.v == v && positive && !p.sign) then MovedList(w[p], w'[p], fwd) else w'[p] == w[p])
  }

  lemma NextList(n: nat, w: Watches, w': Watches, fwd: map<CRef, CRef>, fwd': map<CRef, CRef>, p: Lit, ws: seq<Watcher>)
    requires ListsUpTo(n, w, w', fwd, p.v, p.sign) && p in w && Grows(fwd, fwd') && MovedList(w[p], ws, fwd')
    ensures if p.sign then ListsUpTo(n, w, w'[p := ws], fwd', p.v + 1, false) else ListsUpTo(n, w, w'[p := ws], fwd', p.v, true)
  {
  }

  lemma AllLists(n: nat, ca: seq<Clause>, w: Watches, w': Watches, fwd: map<CRef, CRef>)
    requires ListsUpTo(n, w, w', fwd, n, false) && ListsOk(n, ca, w)
    ensures WatchesMoved(w, w', fwd)
  {
  }

  /** Rename the references in all watch lists, variable by variable. */
  method RelocWatches(ca: seq<Clause>, w: Watches, n: nat) returns (w': Watches, s: Space, ghost from: seq<CRef>)
    requires ListsOk(n, ca, w) && Clean(ca, w)
    ensures Moving(ca, s.to, s.fwd, from) && WatchesMoved(w, w', s.fwd)
  {
    hide Moving, ListsUpTo, MovedList, Grows, WatchesMoved;
    w', s, from := w, Space([], map[]), [];
    assert Moving(ca, [], map[], []) && ListsUpTo(n, w, w, map[], 0, false) by { StartMoving(n, ca, w); }
    var v := 0;
    while v < n
      invariant 0 <= v <= n && Moving(ca, s.to, s.fwd, from) && ListsUpTo(n, w, w', s.fwd, v, false)
    {
      w', s, from := RelocLit(ca, w, w', s, from, n, Lit(v, false));
      w', s, from := RelocLit(ca, w, w', s, from, n, Lit(v, true));
      v := v + 1;
    }
    AllLists(n, ca, w, w', s.fwd);
  }

  lemma StartMoving(n: nat, ca: seq<Clause>, w: Watches)
    ensures Moving(ca, [], map[], []) && ListsUpTo(n, w, w, map[], 0, false)
  {
  }

  lemma ListToMove(n: nat, ca: seq<Clause>, w: Watches, w': Watches, fwd: map<CRef, CRef>, p: Lit)
    requires ListsOk(n, ca, w) && Clean(ca, w) && p.v < n && ListsUpTo(n, w, w', fwd, p.v, p.sign)
    ensures p in w && p in w' && w'[p] == w[p] && forall i :: 0 <= i < |w[p]| ==> LiveRef(ca, w[p][i].cref)
  {
  }

  method RelocLit(ca: seq<Clause>, ghost w: Watches, w0: Watches, s0: Space, ghost from0: seq<CRef>, ghost n: nat, p: Lit)
    returns (w': Watches, s: Space, ghost from: seq<CRef>)
    requires ListsOk(n, ca, w) && Clean(ca, w) && p.v < n
    requires Moving(ca, s0.to, s0.fwd, from0) && ListsUpTo(n, w, w0, s0.fwd, p.v, p.sign)
    ensures Moving(ca, s.to, s.fwd, from)
    ensures if p.sign then ListsUpTo(n, w, w', s.fwd, p.v + 1, false) else ListsUpTo(n, w, w', s.fwd, p.v, true)
  {
    hide Moving, ListsUpTo, MovedList, Grows;
    ListToMove(n, ca, w, w0, s0.fwd, p);
    var ws;
    ws, s, from := RelocList(ca, s0, w0[p], from0);
    NextList(n, w, w0, s0.fwd, s.fwd, p, ws);
    w' := w0[p := ws];
  }

  /** Rename the reasons of the assigned variables. */
  method RelocReasons(ca: seq<Clause>, s0: Space, trail: seq<Lit>, reason: seq<Option<CRef>>, ghost a: Asg,
                      ghost orig: seq<seq<Lit>>, ghost assumptions: seq<Lit>, ghost from0: seq<CRef>)
    returns (reason': seq<Option<CRef>>, s: Space, ghost from: seq<CRef>)
    requires DbInv(orig, assumptions, a, ca) && a.trail == trail && a.reason == reason && Moving(ca, s0.to, s0.fwd, from0)
    requires forall r: CRef :: LiveRef(ca, r) ==> r in s0.fwd
    ensures Moving(ca, s.to, s.fwd, from) && Grows(s0.fwd, s.fwd) && MovedReasons(a, reason', s.fwd)
  {
    hide Moving, ReasonsUpTo, DbInv, TrailInv, LiveRef;
    reason', s, from := reason, s0, from0;
    assert ReasonsUpTo(a, reason, s.fwd, 0) && TrailInv(a) by { StartReasons(orig, assumptions, a, ca, s.fwd); }
    var i := 0;
    while i < |trail|
      invariant 0 <= i <= |trail| && |reason'| == |reason| && Moving(ca, s.to, s.fwd, from) && Grows(s0.fwd, s.fwd)
      invariant ReasonsUpTo(a, reason', s.fwd, i)
    {
      ReasonLive(orig, assumptions, a, ca, i);
      ReasonNotYet(a, reason', s.fwd, i);
      var v := trail[i].v;
      ghost var before := s.fwd;
      var r := reason'[v];
      // Every live clause is watched and so has been moved already; no other case arises.
      if r.Some? && r.value in s.fwd {
        var cr;
        cr, s, from := Reloc(ca, s, r.value, from);
        r := Some(cr);
      }
      NextReason(a, reason', before, i, s.fwd, r);
      reason' := reason'[v := r];
      i := i + 1;
    }
    ReasonsAll(a, reason', s.fwd);
  }

  lemma StartReasons(orig: seq<seq<Lit>>, assumptions: seq<Lit>, a: Asg, ca: seq<Clause>, fwd: map<CRef, CRef>)
    requires DbInv(orig, assumptions, a, ca)
    ensures ReasonsUpTo(a, a.reason, fwd, 0) && TrailInv(a)
  {
  }

  lemma ReasonNotYet(a: Asg, reason': seq<Option<CRef>>, fwd: map<CRef, CRef>, i: nat)
    requires TrailInv(a) && i < |a.trail| && ReasonsUpTo(a, reason', fwd, i)
    ensures a.trail[i].v < |reason'| && reason'[a.trail[i].v] == a.reason[a.trail[i].v]
  {
  }

  // ---------- facts for the solver ----------

  lemma WatchParts(a: Asg, ca: seq<Clause>, w: Watches, bound: int)
    requires WatchInv(a, ca, w, bound)
    ensures ListsOk(|a.assigns|, ca, w) && Clean(ca, w)
  {
  }

  lemma AllMoved(orig: seq<seq<Lit>>, assumptions: seq<Lit>, a: Asg, ca: seq<Clause>, w: Watches, bound: int, w': Watches,
                 fwd: map<CRef, CRef>)
    requires DbInv(orig, assumptions, a, ca) && WatchInv(a, ca, w, bound) && WatchesMoved(w, w', fwd)
    ensures forall r: CRef :: LiveRef(ca, r) ==> r in fwd
  {
  }

  /** References renamed early keep their new names while more clauses are moved. */
  lemma LaterMoves(a: Asg, w: Watches, w': Watches, rs: seq<Option<CRef>>, refs: seq<CRef>, refs': seq<CRef>,
                   f1: map<CRef, CRef>, f2: map<CRef, CRef>, f3: map<CRef, CRef>, f4: map<CRef, CRef>)
    requires WatchesMoved(w, w', f1) && Grows(f1, f2) && MovedReasons(a, rs, f2) && Grows(f2, f3)
    requires MovedRefs(refs, refs', f3) && Grows(f3, f4)
    ensures WatchesMoved(w, w', f4) && MovedReasons(a, rs, f4) && MovedRefs(refs, refs', f4)
  {
  }

  lemma MovedSize(a: Asg, rs: seq<Option<CRef>>, fwd: map<CRef, CRef>)
    requires MovedReasons(a, rs, fwd)
    ensures |rs| == |a.reason|
  {
  }
}
