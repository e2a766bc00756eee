/** Backward subsumption: what a clause of the queue, or a literal of the trail, leaves to be done on the other clauses. */
module Subsuming {
  import opened Literals
  import opened Assignment
  import opened Resolution
  import opened SimpState
  import opened SimpTables

  datatype Item = Ref(r: CRef) | Unit(l: Lit)

  function ItemLits(x: Item, ca: seq<Clause>): seq<Lit>
    requires x.Ref? ==> x.r < |ca|
  {
    match x case Ref(r) => ca[r].lits case Unit(l) => [l]
  }

  ghost predicate LiveIn(x: Item, ca: seq<Clause>, trail: seq<Lit>) {
    match x
    case Ref(r) => r < |ca| && !ca[r].deleted
    case Unit(l) => l in trail
  }

  /** The clause of a live item follows, also from a database that differs in another clause only. */
  lemma ItemForced(x: Item, ca': seq<Clause>, trail: seq<Lit>, ca: seq<Clause>, cr: CRef)
    requires LiveIn(x, ca, trail) && x != Ref(cr) && |ca'| == |ca|
    requires forall y :: 0 <= y < |ca| && y != cr ==> ca'[y] == ca[y]
    ensures Forced(ca', trail, ItemLits(x, ca))
  {
  }

  lemma ItemStays(x: Item, ca: seq<Clause>, ca': seq<Clause>, cr: CRef)
    requires x.Ref? ==> x.r < |ca| && !ca[x.r].deleted && x.r != cr
    requires |ca'| == |ca| && forall y :: 0 <= y < |ca| && y != cr ==> SameClause(ca[y], ca'[y])
    ensures x.Ref? ==> !ca'[x.r].deleted
  {
  }

  /** A live clause on the variable of l either contains l or its negation. */
  lemma UnitMatches(l: Lit, d: seq<Lit>)
    requires Mentioned(d, l.v) && Distinct(d)
    ensures Included([l], d) || IncludedBut([l], d, l)
  {
    var k :| 0 <= k < |d| && d[k].v == l.v;
    assert l in [l] && forall q :: q in [l] ==> q == l;
    assert d[k] == l || d[k] == Neg(l);
  }

  /** c neither subsumes d nor allows a literal of d to be removed. */
  ghost predicate Apart(c: seq<Lit>, d: seq<Lit>) {
    !Included(c, d) && forall p :: !IncludedBut(c, d, p)
  }

  /** Nothing is left for the item to do on clause r. */
  ghost predicate Spared(x: Item, ca: seq<Clause>, r: CRef, lim: int) {
    r < |ca| && (x.Ref? ==> x.r < |ca|) &&
    (ca[r].deleted || x == Ref(r) || !Short(ca[r], lim) || Apart(ItemLits(x, ca), ca[r].lits))
  }

  /** The item subsumes no other clause below the length limit and allows none to be strengthened. */
  ghost predicate Alone(x: Item, ca: seq<Clause>, lim: int) {
    forall r: CRef :: r < |ca| ==> Spared(x, ca, r, lim)
  }

  /** Nothing is left to do on the first j clauses of the list. */
  ghost predicate Handled(x: Item, ca: seq<Clause>, cs: seq<CRef>, j: int, lim: int) {
    forall i :: 0 <= i < j && i < |cs| ==> Spared(x, ca, cs[i], lim)
  }

  lemma SameMembers(c: Clause, d: Clause)
    requires SameClause(c, d)
    ensures forall q :: q in c.lits <==> q in d.lits
  {
    forall q ensures q in c.lits <==> q in d.lits {
      assert q in c.lits <==> q in multiset(c.lits);
      assert q in d.lits <==> q in multiset(d.lits);
    }
  }

  lemma ApartSame(c: seq<Lit>, d: seq<Lit>, c': seq<Lit>, d': seq<Lit>)
    requires Apart(c, d) && (forall q :: q in c <==> q in c') && forall q :: q in d' ==> q in d
    ensures Apart(c', d')
  {
    if Included(c', d') {
      assert Included(c, d);
    }
    forall p ensures !IncludedBut(c', d', p) {
      if IncludedBut(c', d', p) {
        assert IncludedBut(c, d, p);
      }
    }
  }

  lemma SparedSame(x: Item, ca: seq<Clause>, ca': seq<Clause>, r: CRef, lim: int)
    requires Spared(x, ca, r, lim) && |ca'| == |ca| && SameClause(ca[r], ca'[r]) && (x.Ref? ==> SameClause(ca[x.r], ca'[x.r]))
    ensures Spared(x, ca', r, lim)
  {
    if x.Ref? {
      SameMembers(ca[x.r], ca'[x.r]);
    }
    SameMembers(ca[r], ca'[r]);
    if Apart(ItemLits(x, ca), ca[r].lits) {
      ApartSame(ItemLits(x, ca), ca[r].lits, ItemLits(x, ca'), ca'[r].lits);
    }
  }

  lemma HandledStays(x: Item, ca: seq<Clause>, ca': seq<Clause>, cs: seq<CRef>, j: nat, lim: int)
    requires Handled(x, ca, cs, j, lim) && j < |cs| && NoDup(cs) && |ca'| == |ca| && x != Ref(cs[j])
    requires forall y :: 0 <= y < |ca| && y != cs[j] ==> SameClause(ca[y], ca'[y])
    ensures Handled(x, ca', cs, j, lim)
  {
    hide SameClause, Spared;
    forall i | 0 <= i < j ensures Spared(x, ca', cs[i], lim) {
      assert Spared(x, ca, cs[i], lim);
      SparedParts(x, ca, cs[i], lim);
      SparedSame(x, ca, ca', cs[i], lim);
    }
  }

  lemma SparedParts(x: Item, ca: seq<Clause>, r: CRef, lim: int)
    requires Spared(x, ca, r, lim)
    ensures r < |ca| && (x.Ref? ==> x.r < |ca|)
  {
  }

  lemma HandledCut(x: Item, ca: seq<Clause>, cs: seq<CRef>, j: nat, lim: int, cs': seq<CRef>)
    requires Handled(x, ca, cs, j, lim) && j < |cs| && NoDup(cs) && Without(cs, cs[j], cs')
    ensures Handled(x, ca, cs', j, lim) && |cs'| == |cs| - 1
  {
    hide Spared;
    var i :| 0 <= i < |cs| && CutAt(cs, i, cs[j], cs');
    assert i == j;
  }

  /** A clause that lacks a variable of the item is left alone by it. */
  lemma ApartWithout(c: seq<Lit>, d: seq<Lit>, v: Var)
    requires Mentioned(c, v) && !Mentioned(d, v)
    ensures Apart(c, d)
  {
    var k :| 0 <= k < |c| && c[k].v == v;
    assert c[k] in c;
    assert forall q :: q in d ==> q.v != v;
  }

  lemma HandledAll(x: Item, n: nat, ca: seq<Clause>, occurs: seq<seq<CRef>>, dirty: set<Var>, v: Var, lim: int)
    requires OccGood(n, ca, occurs, dirty) && v < n && Handled(x, ca, occurs[v], |occurs[v]|, lim)
    requires (x.Ref? ==> x.r < |ca|) && Mentioned(ItemLits(x, ca), v)
    ensures Alone(x, ca, lim)
  {
    hide Included, IncludedBut, Apart;
    forall r: CRef | r < |ca| ensures Spared(x, ca, r, lim) {
      if !ca[r].deleted {
        if Mentioned(ca[r].lits, v) {
          var k :| 0 <= k < |ca[r].lits| && ca[r].lits[k].v == v;
          assert r in occurs[v];
          var i :| 0 <= i < |occurs[v]| && occurs[v][i] == r;
          assert Spared(x, ca, occurs[v][i], lim);
        } else {
          ApartWithout(ItemLits(x, ca), ca[r].lits, v);
        }
      }
    }
  }

  /** What a unit leaves alone does not have its variable. */
  lemma AloneUnit(l: Lit, ca: seq<Clause>, lim: int, r: CRef)
    requires Alone(Unit(l), ca, lim) && r < |ca| && !ca[r].deleted && Short(ca[r], lim) && Distinct(ca[r].lits)
    ensures !Mentioned(ca[r].lits, l.v)
  {
    assert Spared(Unit(l), ca, r, lim);
    if Mentioned(ca[r].lits, l.v) {
      UnitMatches(l, ca[r].lits);
    }
  }

  /** A strengthened clause is left alone by the clause that strengthened it. */
  lemma ApartShortened(c: seq<Lit>, d: Clause, p: Lit, d': Clause)
    requires IncludedBut(c, d.lits, p) && Distinct(d.lits) && Shortened(d, Neg(p), d')
    ensures Apart(c, d'.lits)
  {
    DistinctLits(d.lits);
    WithoutFacts(d.lits, Neg(p), d'.lits);
    var k :| 0 <= k < |d.lits| && d.lits[k] == Neg(p);
    assert p !in d.lits && Neg(p) !in d'.lits;
  }

  // ---------- what subsumption does to the database ----------

  /** Clauses have been removed, or shortened and put on the queue. */
  ghost predicate Thinned(ca: seq<Clause>, ca': seq<Clause>, queue: seq<CRef>, lim: int) {
    |ca'| == |ca| && forall y: CRef :: y < |ca| ==> ThinnedAt(ca[y], ca'[y], y in queue, lim)
  }

  ghost predicate ThinnedAt(c: Clause, d: Clause, queued: bool, lim: int) {
    d.deleted || (!c.deleted && (Short(d, lim) ==> Short(c, lim)) && (forall q :: q in d.lits ==> q in c.lits) && (queued || SameClause(c, d)))
  }

  lemma ThinnedSelf(ca: seq<Clause>, queue: seq<CRef>, lim: int)
    ensures Thinned(ca, ca, queue, lim)
  {
  }

  lemma ThinnedTrans(ca: seq<Clause>, ca1: seq<Clause>, q1: seq<CRef>, ca2: seq<Clause>, q2: seq<CRef>, lim: int)
    requires Thinned(ca, ca1, q1, lim) && Thinned(ca1, ca2, q2, lim) && q1 <= q2
    ensures Thinned(ca, ca2, q2, lim)
  {
    forall y: CRef | y < |ca| ensures ThinnedAt(ca[y], ca2[y], y in q2, lim) {
      assert ThinnedAt(ca[y], ca1[y], y in q1, lim) && ThinnedAt(ca1[y], ca2[y], y in q2, lim);
      if y in q1 {
        var k :| 0 <= k < |q1| && q1[k] == y;
        assert q2[k] == y;
      }
    }
  }

  /** One clause was removed, or shortened and queued; the literals of the others may have been reordered. */
  lemma ThinnedOne(ca: seq<Clause>, cr: CRef, ca': seq<Clause>, queue: seq<CRef>, lim: int)
    requires cr < |ca| == |ca'| && !ca[cr].deleted && forall y :: 0 <= y < |ca| && y != cr ==> SameClause(ca[y], ca'[y])
    requires ca'[cr].deleted || (cr in queue && Short(ca[cr], lim) && exists l :: Shortened(ca[cr], l, ca'[cr]))
    ensures Thinned(ca, ca', queue, lim)
  {
    forall y: CRef | y < |ca| ensures ThinnedAt(ca[y], ca'[y], y in queue, lim) {
      if y != cr {
        SameMembers(ca[y], ca'[y]);
      } else if !ca'[cr].deleted {
        var l :| Shortened(ca[cr], l, ca'[cr]);
        var j :| 0 <= j < |ca[cr].lits| && CutAt(ca[cr].lits, j, l, ca'[cr].lits);
      }
    }
  }

  /** A clause that is not queued is still left alone by the others and leaves them alone. */
  lemma AloneKept(r: CRef, ca: seq<Clause>, ca': seq<Clause>, queue: seq<CRef>, lim: int)
    requires Thinned(ca, ca', queue, lim) && Alone(Ref(r), ca, lim) && r < |ca| && !ca'[r].deleted && r !in queue
    ensures Alone(Ref(r), ca', lim)
  {
    hide SameClause, Apart;
    assert ThinnedAt(ca[r], ca'[r], false, lim);
    SameMembers(ca[r], ca'[r]);
    forall y: CRef | y < |ca'| ensures Spared(Ref(r), ca', y, lim) {
      assert Spared(Ref(r), ca, y, lim) && ThinnedAt(ca[y], ca'[y], y in queue, lim);
      if !ca'[y].deleted && y != r && Short(ca'[y], lim) {
        ApartSame(ca[r].lits, ca[y].lits, ca'[r].lits, ca'[y].lits);
      }
    }
  }

  /** Every clause that was queued or has been shortened is on the queue or leaves all others alone. */
  ghost predicate Progressed(ca0: seq<Clause>, queue0: seq<CRef>, ca: seq<Clause>, queue: seq<CRef>, lim: int) {
    |ca| == |ca0| && forall r: CRef :: r < |ca| && !ca[r].deleted && r !in queue ==>
      Alone(Ref(r), ca, lim) || (r !in queue0 && SameClause(ca0[r], ca[r]))
  }

  ghost predicate TakenFrom(x: Item, queue: seq<CRef>, queue': seq<CRef>) {
    if x.Ref? then queue != [] && queue[0] == x.r && queue[1..] <= queue' else queue <= queue'
  }

  /** The item was taken from the queue, if it is a clause, and, unless removed, leaves all clauses alone now. */
  ghost predicate Advanced(x: Item, ca: seq<Clause>, queue: seq<CRef>, ca': seq<Clause>, queue': seq<CRef>, lim: int) {
    && TakenFrom(x, queue, queue') && Thinned(ca, ca', queue', lim)
    && (x.Ref? ==> x.r < |ca'| && !ca'[x.r].deleted ==> Alone(x, ca', lim)) && (x.Unit? ==> Alone(x, ca', lim))
  }

  lemma ProgressedSelf(ca: seq<Clause>, queue: seq<CRef>, lim: int)
    ensures Progressed(ca, queue, ca, queue, lim)
  {
  }

  /** An item has been taken from the queue and used. */
  lemma ProgressedOn(ca0: seq<Clause>, queue0: seq<CRef>, ca: seq<Clause>, queue: seq<CRef>, x: Item, ca': seq<Clause>, queue': seq<CRef>, lim: int)
    requires Progressed(ca0, queue0, ca, queue, lim) && Advanced(x, ca, queue, ca', queue', lim)
    ensures Progressed(ca0, queue0, ca', queue', lim)
  {
    hide Alone, SameClause;
    forall r: CRef | r < |ca'| && !ca'[r].deleted && r !in queue'
      ensures Alone(Ref(r), ca', lim) || (r !in queue0 && SameClause(ca0[r], ca'[r]))
    {
      assert ThinnedAt(ca[r], ca'[r], false, lim);
      if x != Ref(r) {
        if r in queue {
          QueueKeeps(queue, x, queue', r);
        }
        if Alone(Ref(r), ca, lim) {
          AloneKept(r, ca, ca', queue', lim);
        } else {
          SameTrans(ca0[r], ca[r], ca'[r]);
        }
      }
    }
  }

  /** The clauses on the given variables leave all others alone. */
  ghost predicate TouchedAlone(touched: set<Var>, ca: seq<Clause>, lim: int) {
    forall v, y: CRef :: v in touched && y < |ca| && !ca[y].deleted && Mentioned(ca[y].lits, v) ==> Alone(Ref(y), ca, lim)
  }

  lemma TouchedProgressed(touched: set<Var>, ca: seq<Clause>, queue: seq<CRef>, ca': seq<Clause>, lim: int)
    requires Progressed(ca, queue, ca', [], lim)
    requires forall v, r :: v in touched && 0 <= r < |ca| && !ca[r].deleted && Mentioned(ca[r].lits, v) ==> r in queue
    ensures TouchedAlone(touched, ca', lim)
  {
    hide Alone;
    forall v, y: CRef | v in touched && y < |ca'| && !ca'[y].deleted && Mentioned(ca'[y].lits, v) ensures Alone(Ref(y), ca', lim) {
      if SameClause(ca[y], ca'[y]) {
        SameMembers(ca[y], ca'[y]);
        var k :| 0 <= k < |ca'[y].lits| && ca'[y].lits[k].v == v;
        assert ca'[y].lits[k] in ca[y].lits;
      }
    }
  }

  lemma QueueKeeps(queue: seq<CRef>, x: Item, queue': seq<CRef>, r: CRef)
    requires TakenFrom(x, queue, queue') && x != Ref(r) && r in queue
    ensures r in queue'
  {
    var k :| 0 <= k < |queue| && queue[k] == r;
    if x.Ref? {
      assert queue[1..][k - 1] == r && queue'[k - 1] == r;
    } else {
      assert queue'[k] == r;
    }
  }

  lemma SameTrans(c: Clause, d: Clause, e: Clause)
    requires SameClause(c, d) && SameClause(d, e)
    ensures SameClause(c, e)
  {
  }

  // ---------- going through the candidates ----------

  lemma NothingToDo(x: Item, ca: seq<Clause>, r: CRef, lim: int)
    requires r < |ca| && (x.Ref? ==> x.r < |ca|) && (ca[r].deleted || x == Ref(r) || !Short(ca[r], lim))
    ensures Spared(x, ca, r, lim)
  {
  }

  lemma StillMentions(x: Item, ca: seq<Clause>, cr: CRef, ca': seq<Clause>, v: Var)
    requires (x.Ref? ==> x.r < |ca|) && Mentioned(ItemLits(x, ca), v) && x != Ref(cr) && |ca'| == |ca|
    requires forall y :: 0 <= y < |ca| && y != cr ==> SameClause(ca[y], ca'[y])
    ensures Mentioned(ItemLits(x, ca'), v)
  {
    if x.Ref? {
      SameMembers(ca[x.r], ca'[x.r]);
      var k :| 0 <= k < |ca[x.r].lits| && ca[x.r].lits[k].v == v;
      assert ca[x.r].lits[k] in ca'[x.r].lits;
    }
  }

  lemma NothingHandled(x: Item, ca: seq<Clause>, cs: seq<CRef>, lim: int)
    ensures Handled(x, ca, cs, 0, lim)
  {
  }

  lemma HandledNext(x: Item, ca: seq<Clause>, cs: seq<CRef>, j: nat, lim: int)
    requires j < |cs| && Handled(x, ca, cs, j, lim) && Spared(x, ca, cs[j], lim)
    ensures Handled(x, ca, cs, j + 1, lim)
  {
  }

  /** After an item has been used on the candidate at index j, the candidates before the next index are handled. */
  lemma CandidateDone(x: Item, ca: seq<Clause>, cr: CRef, l: Option<Lit>, cs: seq<CRef>, j: nat, ca': seq<Clause>, cs': seq<CRef>, best: Var, lim: int)
    requires j < |cs| && cs[j] == cr && NoDup(cs) && cr < |ca| == |ca'| && !ca[cr].deleted && Distinct(ca[cr].lits)
    requires x != Ref(cr) && (x.Ref? ==> x.r < |ca|) && Handled(x, ca, cs, j, lim)
    requires Included(ItemLits(x, ca), ca[cr].lits) ==> ca'[cr].deleted && cs' == cs
    requires forall p :: l == Some(p) <==> IncludedBut(ItemLits(x, ca), ca[cr].lits, p)
    requires forall p :: l == Some(p) && |ca[cr].lits| > 2 ==> Shortened(ca[cr], Neg(p), ca'[cr]) && (p.v == best ==> Without(cs, cr, cs'))
    requires l.Some? && |ca[cr].lits| <= 2 ==> ca'[cr].deleted && cs' == cs
    requires l.None? || l.value.v != best ==> cs' == cs
    requires l.None? && !Included(ItemLits(x, ca), ca[cr].lits) ==> ca'[cr] == ca[cr]
    requires forall y :: 0 <= y < |ca'| && y != cr ==> SameClause(ca[y], ca'[y])
    ensures var j' := if l.Some? && l.value.v == best then j else j + 1; j' <= |cs'| && Handled(x, ca', cs', j', lim)
    ensures l.Some? && l.value.v == best ==> |ca[cr].lits| <= 2 || |cs'| < |cs|
  {
    hide Without, Included, IncludedBut, SameClause, Shortened, Spared, Distinct;
    HandledStays(x, ca, ca', cs, j, lim);
    if l.Some? && l.value.v == best {
      if |ca[cr].lits| > 2 {
        HandledCut(x, ca', cs, j, lim, cs');
      }
    } else {
      CandidateSpared(x, ca, cr, l, ca', lim);
      HandledNext(x, ca', cs, j, lim);
    }
  }

  lemma CandidateSpared(x: Item, ca: seq<Clause>, cr: CRef, l: Option<Lit>, ca': seq<Clause>, lim: int)
    requires cr < |ca| == |ca'| && Distinct(ca[cr].lits) && x != Ref(cr) && (x.Ref? ==> x.r < |ca|)
    requires Included(ItemLits(x, ca), ca[cr].lits) ==> ca'[cr].deleted
    requires forall p :: l == Some(p) <==> IncludedBut(ItemLits(x, ca), ca[cr].lits, p)
    requires l.Some? ==> if |ca[cr].lits| > 2 then Shortened(ca[cr], Neg(l.value), ca'[cr]) else ca'[cr].deleted
    requires l.None? && !Included(ItemLits(x, ca), ca[cr].lits) ==> ca'[cr] == ca[cr]
    requires forall y :: 0 <= y < |ca'| && y != cr ==> SameClause(ca[y], ca'[y])
    ensures Spared(x, ca', cr, lim)
  {
    hide Included, IncludedBut, SameClause, Shortened, Distinct;
    var c := ItemLits(x, ca);
    if x.Ref? {
      SameMembers(ca[x.r], ca'[x.r]);
    }
    if !ca'[cr].deleted {
      if l.Some? {
        ApartShortened(c, ca[cr], l.value, ca'[cr]);
      }
      assert Apart(c, ca'[cr].lits);
      ApartSame(c, ca'[cr].lits, ItemLits(x, ca'), ca'[cr].lits);
    }
  }

  lemma OccEntryLive(n: nat, ca: seq<Clause>, occurs: seq<seq<CRef>>, dirty: set<Var>, v: Var, i: nat)
    requires OccGood(n, ca, occurs, dirty) && v < n && i < |occurs[v]|
    ensures |occurs| == n && NoDup(occurs[v]) && occurs[v][i] < |ca|
    ensures !ca[occurs[v][i]].deleted ==> Mentioned(ca[occurs[v][i]].lits, v)
  {
    assert OccList(ca, v, occurs[v], v !in dirty);
  }

  // ---------- clauses that are added ----------

  /** A clause that was stored has been queued, and its variables are touched; otherwise nothing has changed. */
  ghost predicate Scheduled(refs: seq<CRef>, refs': seq<CRef>, ca: seq<Clause>, queue: seq<CRef>, queue': seq<CRef>, touched: set<Var>, touched': set<Var>) {
    if refs' == refs then queue' == queue && touched' == touched
    else
      && |refs'| == |refs| + 1 && refs <= refs' && refs'[|refs|] < |ca| && ca[refs'[|refs|]].lits != []
      && queue' == queue + [refs'[|refs|]] && touched' == touched + VarSet(ca[refs'[|refs|]].lits)
  }

  lemma NothingScheduled(refs: seq<CRef>, ca: seq<Clause>, queue: seq<CRef>, touched: set<Var>)
    ensures Scheduled(refs, refs, ca, queue, queue, touched, touched)
  {
  }

  lemma ScheduledTouches(refs: seq<CRef>, refs': seq<CRef>, ca: seq<Clause>, queue: seq<CRef>, queue': seq<CRef>, touched: set<Var>, touched': set<Var>)
    requires Scheduled(refs, refs', ca, queue, queue', touched, touched')
    ensures (queue' == queue && touched' == touched) || touched' != {}
  {
    if refs' != refs {
      assert ca[refs'[|refs|]].lits[0].v in VarSet(ca[refs'[|refs|]].lits);
    }
  }
}
