/** The region that clauses live in, word by word, and the copying of clauses to a new region. */
module ClauseRegion {
  import opened Literals
  import opened Assignment
  import Resolution
  import Relocation

  /** One word of the region: a clause header, a literal, the extra word behind the literals, or a forwarding reference. */
  datatype Word =
    | Header(mark: nat, learnt: bool, extra: bool, reloced: bool, size: nat)
    | Data(l: Lit)
    | Activity(act: real)
    | Signature(abs: set<nat>)
    | Forward(ref: nat)

  /** What a clause reference denotes. */
  datatype View = View(lits: seq<Lit>, mark: nat, learnt: bool, activity: Option<real>)

  ghost function Extent(h: Word): nat
    requires h.Header?
  {
    1 + h.size + if h.extra then 1 else 0
  }

  ghost predicate ClauseAt(mem: seq<Word>, r: nat) {
    && r < |mem| && mem[r].Header? && !mem[r].reloced && mem[r].size > 0 && r + Extent(mem[r]) <= |mem|
    && (forall j :: r < j <= r + mem[r].size ==> mem[j].Data?)
    && (mem[r].learnt ==> mem[r].extra && mem[r + 1 + mem[r].size].Activity?)
    && (mem[r].extra && !mem[r].learnt ==> mem[r + 1 + mem[r].size] == Signature(Resolution.Abstraction(LitsAt(mem, r))))
  }

  ghost function LitsAt(mem: seq<Word>, r: nat): seq<Lit>
    requires r < |mem| && mem[r].Header? && r + mem[r].size < |mem| && forall j :: r < j <= r + mem[r].size ==> mem[j].Data?
  {
    seq(mem[r].size, k requires 0 <= k < mem[r].size => mem[r + 1 + k].l)
  }

  ghost function ViewAt(mem: seq<Word>, r: nat): View
    requires ClauseAt(mem, r)
  {
    View(LitsAt(mem, r), mem[r].mark, mem[r].learnt,
         if mem[r].learnt then Some(mem[r + 1 + mem[r].size].act) else None)
  }

  ghost predicate Apart(mem: seq<Word>, r: nat, s: nat)
    requires ClauseAt(mem, r) && ClauseAt(mem, s)
  {
    r + Extent(mem[r]) <= s || s + Extent(mem[s]) <= r
  }

  /** The live references denote clauses that do not overlap. */
  ghost predicate LiveOk(mem: seq<Word>, live: set<nat>) {
    && (forall r :: r in live ==> ClauseAt(mem, r))
    && (forall r, s :: r in live && s in live && r != s ==> Apart(mem, r, s))
  }

  ghost predicate SameAt(mem0: seq<Word>, mem: seq<Word>, r: nat)
    requires ClauseAt(mem0, r)
  {
    |mem| == |mem0| && forall j :: r <= j < r + Extent(mem0[r]) ==> mem[j] == mem0[j]
  }

  /** Clauses keep their view when the region only grows. */
  lemma GrownView(mem: seq<Word>, mem': seq<Word>, r: nat)
    requires ClauseAt(mem, r) && mem <= mem'
    ensures ClauseAt(mem', r) && ViewAt(mem', r) == ViewAt(mem, r) && Extent(mem'[r]) == Extent(mem[r])
  {
    assert LitsAt(mem', r) == LitsAt(mem, r);
  }

  ghost predicate Forwards(mem: seq<Word>, r: nat, target: nat) {
    r + 1 < |mem| && mem[r].Header? && mem[r].reloced && mem[r + 1] == Forward(target)
  }

  lemma SameView(mem0: seq<Word>, mem: seq<Word>, r: nat)
    requires ClauseAt(mem0, r) && SameAt(mem0, mem, r)
    ensures ClauseAt(mem, r) && ViewAt(mem, r) == ViewAt(mem0, r)
  {
    assert LitsAt(mem, r) == LitsAt(mem0, r);
  }

  /** The old region: copied clauses forward to their copies, the others are untouched. */
  ghost predicate Emptying(mem0: seq<Word>, live: set<nat>, mem: seq<Word>, fwd: map<nat, nat>) {
    && LiveOk(mem0, live) && (forall r :: r in fwd ==> r in live)
    && (forall r :: r in live && r !in fwd ==> SameAt(mem0, mem, r))
    && (forall r :: r in fwd ==> Forwards(mem, r, fwd[r]))
  }

  /** The new region: copies denote what the clauses denoted, and do not overlap. */
  ghost predicate Collected(mem0: seq<Word>, to: seq<Word>, fwd: map<nat, nat>) {
    && (forall r :: r in fwd ==> ClauseAt(mem0, r) && ClauseAt(to, fwd[r]) && ViewAt(to, fwd[r]) == ViewAt(mem0, r))
    && (forall r, s :: r in fwd && s in fwd && r != s ==> Apart(to, fwd[r], fwd[s]))
  }

  ghost predicate Relocating(mem0: seq<Word>, live: set<nat>, mem: seq<Word>, to: seq<Word>, fwd: map<nat, nat>) {
    Emptying(mem0, live, mem, fwd) && Collected(mem0, to, fwd)
  }

  /** References that were equal stay equal, and different clauses get different, disjoint places. */
  lemma CopiesDistinct(mem0: seq<Word>, to: seq<Word>, fwd: map<nat, nat>, r: nat, s: nat)
    requires Collected(mem0, to, fwd) && r in fwd && s in fwd
    ensures fwd[r] == fwd[s] <==> r == s
    ensures ClauseAt(to, fwd[r]) && ClauseAt(to, fwd[s]) && (r != s ==> Apart(to, fwd[r], fwd[s]))
  {
  }

  ghost function Copies(fwd: map<nat, nat>): set<nat> {
    set r | r in fwd :: fwd[r]
  }

  /** The copies are the live clauses of the new region. */
  lemma CopiesLive(mem0: seq<Word>, to: seq<Word>, fwd: map<nat, nat>)
    requires Collected(mem0, to, fwd)
    ensures LiveOk(to, Copies(fwd))
  {
  }

  // ---------- the region as a clause database ----------

  ghost predicate Placed(mem: seq<Word>, x: nat, c: Clause) {
    ClauseAt(mem, x) && LitsAt(mem, x) == c.lits && mem[x].learnt == c.learnt
  }

  ghost predicate Disjoint(mem: seq<Word>, x: nat, y: nat) {
    ClauseAt(mem, x) && ClauseAt(mem, y) && Apart(mem, x, y)
  }

  /** The region holds the live clauses of the database, each at its own place. */
  ghost predicate Implements(mem: seq<Word>, at: map<CRef, nat>, ca: seq<Clause>) {
    && (forall r: CRef :: Relocation.LiveRef(ca, r) ==> r in at && Placed(mem, at[r], ca[r]))
    && (forall r: CRef, s: CRef :: Relocation.LiveRef(ca, r) && Relocation.LiveRef(ca, s) && r != s ==> Disjoint(mem, at[r], at[s]))
  }

  lemma CopyPlaced(mem: seq<Word>, to: seq<Word>, fwd: map<nat, nat>, x: nat, c: Clause)
    requires Collected(mem, to, fwd) && x in fwd && Placed(mem, x, c)
    ensures Placed(to, fwd[x], c)
  {
    assert ViewAt(to, fwd[x]) == ViewAt(mem, x);
  }

  lemma CopiesDisjoint(mem: seq<Word>, to: seq<Word>, fwd: map<nat, nat>, x: nat, y: nat)
    requires Collected(mem, to, fwd) && x in fwd && y in fwd && Disjoint(mem, x, y)
    ensures Disjoint(to, fwd[x], fwd[y])
  {
    assert x != y;
  }

  /** Where the clauses of the collected database lie in the new region. */
  ghost predicate Follows(at': map<CRef, nat>, at: map<CRef, nat>, fwd: map<nat, nat>, from: seq<CRef>) {
    forall k: CRef :: k < |from| ==> k in at' && from[k] in at && at[from[k]] in fwd && at'[k] == fwd[at[from[k]]]
  }

  /** Copying word by word does what copying the clauses of the database does. */
  lemma CollectorsAgree(mem: seq<Word>, at: map<CRef, nat>, ca: seq<Clause>, to: seq<Word>, fwd: map<nat, nat>,
                        ca': seq<Clause>, moved: map<CRef, CRef>, from: seq<CRef>, at': map<CRef, nat>)
    requires Implements(mem, at, ca) && Relocation.Complete(ca, ca', moved, from) && Collected(mem, to, fwd) && Follows(at', at, fwd, from)
    ensures Implements(to, at', ca')
  {
    hide Placed, Disjoint, Collected;
    forall k: CRef | k < |ca'| ensures Relocation.LiveRef(ca, from[k]) && k in at' && Placed(to, at'[k], ca'[k]) {
      assert from[k] in moved && ca'[k] == ca[from[k]];
      CopyPlaced(mem, to, fwd, at[from[k]], ca'[k]);
    }
    forall k: CRef, l: CRef | k < |ca'| && l < |ca'| && k != l ensures Disjoint(to, at'[k], at'[l]) {
      assert from[k] in moved && moved[from[k]] == k && from[l] in moved && moved[from[l]] == l;
      CopiesDisjoint(mem, to, fwd, at[from[k]], at[from[l]]);
    }
  }

  // ---------- steps ----------

  /** A forwarding reference disturbs no other clause. */
  lemma ForwardOne(mem0: seq<Word>, live: set<nat>, mem: seq<Word>, fwd: map<nat, nat>, r: nat, target: nat, mem': seq<Word>)
    requires Emptying(mem0, live, mem, fwd) && r in live && r !in fwd && r + 1 < |mem| && mem[r].Header?
    requires mem' == mem[r := mem[r].(reloced := true)][r + 1 := Forward(target)]
    ensures Emptying(mem0, live, mem', fwd[r := target])
  {
  }

  /** A copy at the end of the new region disturbs no other copy. */
  lemma CollectOne(mem0: seq<Word>, to: seq<Word>, fwd: map<nat, nat>, r: nat, to': seq<Word>)
    requires Collected(mem0, to, fwd) && r !in fwd && to <= to'
    requires ClauseAt(mem0, r) && ClauseAt(to', |to|) && ViewAt(to', |to|) == ViewAt(mem0, r)
    ensures Collected(mem0, to', fwd[r := |to|])
  {
    forall s | s in fwd
      ensures ClauseAt(to', fwd[s]) && ViewAt(to', fwd[s]) == ViewAt(mem0, s)
      ensures Extent(to'[fwd[s]]) == Extent(to[fwd[s]]) && fwd[s] + Extent(to[fwd[s]]) <= |to|
    {
      GrownView(to, to', fwd[s]);
    }
    forall s, t | s in fwd && t in fwd && s != t ensures Apart(to', fwd[s], fwd[t]) {
      assert Apart(to, fwd[s], fwd[t]);
    }
  }

  /** Where the words of a new clause lie. */
  lemma NewClause(mem: seq<Word>, ps: seq<Lit>, body: seq<Word>, h: Word, tail: seq<Word>)
    requires h.Header? && !h.reloced && h.size == |ps| > 0 && |body| == |ps| && forall k :: 0 <= k < |ps| ==> body[k] == Data(ps[k])
    requires if h.extra then |tail| == 1 else tail == []
    requires if h.learnt then h.extra && tail[0].Activity? else h.extra ==> tail[0] == Signature(Resolution.Abstraction(ps))
    ensures var mem' := mem + [h] + body + tail;
            mem <= mem' && ClauseAt(mem', |mem|)
            && ViewAt(mem', |mem|) == View(ps, h.mark, h.learnt, if h.learnt then Some(tail[0].act) else None)
  {
    var mem' := mem + [h] + body + tail;
    assert mem'[|mem|] == h;
    assert LitsAt(mem', |mem|) == ps;
  }

  /** It joins the live clauses. */
  lemma NewLive(mem: seq<Word>, live: set<nat>, mem': seq<Word>)
    requires LiveOk(mem, live) && mem <= mem' && ClauseAt(mem', |mem|)
    ensures LiveOk(mem', live + {|mem|})
  {
    forall r | r in live ensures ClauseAt(mem', r) && Extent(mem'[r]) == Extent(mem[r]) && r + Extent(mem[r]) <= |mem| {
      GrownView(mem, mem', r);
    }
    forall r, s | r in live && s in live && r != s ensures Apart(mem', r, s) {
      assert Apart(mem, r, s);
    }
  }

  class ClauseAllocator {
    var memory: seq<Word>
    var wasted: nat
    var extraClauseField: bool

    constructor (extraClauseField: bool)
      ensures memory == [] && wasted == 0 && this.extraClauseField == extraClauseField
    {
      memory, wasted, this.extraClauseField := [], 0, extraClauseField;
    }

    /** Append a clause; its reference is the old size of the region. */
    method Alloc(ps: seq<Lit>, learnt: bool, mark: nat, activity: real) returns (cid: nat)
      requires ps != []
      modifies `memory
      ensures cid == |old(memory)| && old(memory) <= memory && ClauseAt(memory, cid)
      ensures ViewAt(memory, cid) == View(ps, mark, learnt, if learnt then Some(activity) else None)
      ensures memory[cid].extra == (learnt || extraClauseField)
      ensures forall live: set<nat> :: LiveOk(old(memory), live) ==> LiveOk(memory, live + {cid})
    {
      var useExtra := learnt || extraClauseField;
      cid := |memory|;
      var body: seq<Word> := [];
      var abs := Resolution.CalcAbstraction(ps);
      var i := 0;
      while i < |ps|
        invariant i <= |ps| && |body| == i && memory == old(memory) && extraClauseField == old(extraClauseField)
        invariant forall k :: 0 <= k < i ==> body[k] == Data(ps[k])
      {
        body := body + [Data(ps[i])];
        i := i + 1;
      }
      var h := Header(mark, learnt, useExtra, false, |ps|);
      var tail: seq<Word> := if !useExtra then [] else if learnt then [Activity(activity)] else [Signature(abs)];
      NewClause(memory, ps, body, h, tail);
      ghost var mem' := memory + [h] + body + tail;
      forall live: set<nat> | LiveOk(memory, live) ensures LiveOk(mem', live + {cid}) {
        NewLive(memory, live, mem');
      }
      memory := memory + [h] + body + tail;
    }

    /** Note that a clause is no longer used. */
    method Free(cid: nat)
      requires ClauseAt(memory, cid)
      modifies `wasted
      ensures wasted == old(wasted) + Extent(memory[cid])
    {
      wasted := wasted + 1 + memory[cid].size + if memory[cid].extra then 1 else 0;
    }

    /** The literals stored behind a header. */
    method Lits(r: nat) returns (ps: seq<Lit>)
      requires ClauseAt(memory, r)
      ensures ps == ViewAt(memory, r).lits
    {
      ps := [];
      var i := 0;
      while i < memory[r].size
        invariant i <= memory[r].size && |ps| == i && forall k :: 0 <= k < i ==> ps[k] == memory[r + 1 + k].l
      {
        ps := ps + [memory[r + 1 + i].l];
        i := i + 1;
      }
    }

    /** Copy a clause to the new region, unless it has been copied before, and return its new reference. */
    method Reloc(cr: nat, to: ClauseAllocator, ghost mem0: seq<Word>, ghost live: set<nat>, ghost fwd: map<nat, nat>)
      returns (cr': nat, ghost fwd': map<nat, nat>)
      requires to != this && Relocating(mem0, live, memory, to.memory, fwd) && cr in live
      modifies `memory, to`memory
      ensures Relocating(mem0, live, memory, to.memory, fwd') && cr in fwd' && cr' == fwd'[cr]
      ensures forall r :: r in fwd ==> r in fwd' && fwd'[r] == fwd[r]
    {
      hide Emptying, Collected;
      fwd' := fwd;
      Untouched(mem0, live, memory, to.memory, fwd, cr);
      if memory[cr].reloced {
        return memory[cr + 1].ref, fwd;
      }
      var ps := Lits(cr);
      var learnt := memory[cr].learnt;
      var activity := if learnt then memory[cr + 1 + memory[cr].size].act else 0.0;
      ghost var before := to.memory;
      cr' := to.Alloc(ps, learnt, memory[cr].mark, activity);
      ForwardOne(mem0, live, memory, fwd, cr, cr', memory[cr := memory[cr].(reloced := true)][cr + 1 := Forward(cr')]);
      CollectOne(mem0, before, fwd, cr, to.memory);
      memory := memory[cr := memory[cr].(reloced := true)][cr + 1 := Forward(cr')];
      fwd' := fwd[cr := cr'];
    }

    /** Rename a list of references. */
    method RelocList(refs: seq<nat>, to: ClauseAllocator, ghost mem0: seq<Word>, ghost live: set<nat>, ghost fwd: map<nat, nat>)
      returns (refs': seq<nat>, ghost fwd': map<nat, nat>)
      requires to != this && Relocating(mem0, live, memory, to.memory, fwd) && forall i :: 0 <= i < |refs| ==> refs[i] in live
      modifies `memory, to`memory
      ensures Relocating(mem0, live, memory, to.memory, fwd') && forall r :: r in fwd ==> r in fwd' && fwd'[r] == fwd[r]
      ensures |refs'| == |refs| && forall i :: 0 <= i < |refs| ==> refs[i] in fwd' && refs'[i] == fwd'[refs[i]]
    {
      hide Relocating;
      refs', fwd' := [], fwd;
      var j := 0;
      while j < |refs|
        invariant j <= |refs| == |refs| && |refs'| == j && Relocating(mem0, live, memory, to.memory, fwd')
        invariant forall r :: r in fwd ==> r in fwd' && fwd'[r] == fwd[r]
        invariant forall i :: 0 <= i < j ==> refs[i] in fwd' && refs'[i] == fwd'[refs[i]]
      {
        var cr;
        cr, fwd' := Reloc(refs[j], to, mem0, live, fwd');
        refs' := refs' + [cr];
        j := j + 1;
      }
    }

    /** Hand the region over. */
    method MoveTo(to: ClauseAllocator)
      requires to != this
      modifies this, to
      ensures to.memory == old(memory) && to.wasted == old(wasted) && to.extraClauseField == old(extraClauseField)
      ensures memory == [] && wasted == 0
    {
      to.memory, to.wasted, to.extraClauseField := memory, wasted, extraClauseField;
      memory, wasted := [], 0;
    }

    /** Copy everything the references reach to a fresh region and take that region over. */
    method GarbageCollect(refs: seq<nat>, ghost live: set<nat>) returns (refs': seq<nat>, ghost fwd: map<nat, nat>)
      requires LiveOk(memory, live) && forall i :: 0 <= i < |refs| ==> refs[i] in live
      modifies this
      ensures |refs'| == |refs| && forall i :: 0 <= i < |refs| ==> refs[i] in fwd && refs'[i] == fwd[refs[i]]
      ensures Collected(old(memory), memory, fwd) && wasted == 0 && LiveOk(memory, Copies(fwd))
    {
      ghost var mem0 := memory;
      var to := new ClauseAllocator(extraClauseField);
      StartRelocating(mem0, live);
      refs', fwd := RelocList(refs, to, mem0, live, map[]);
      CopiesLive(mem0, to.memory, fwd);
      to.MoveTo(this);
    }
  }

  lemma StartRelocating(mem0: seq<Word>, live: set<nat>)
    requires LiveOk(mem0, live)
    ensures Relocating(mem0, live, mem0, [], map[])
  {
  }

  /** A live clause is either as it was or forwards to its copy. */
  lemma Untouched(mem0: seq<Word>, live: set<nat>, mem: seq<Word>, to: seq<Word>, fwd: map<nat, nat>, r: nat)
    requires Relocating(mem0, live, mem, to, fwd) && r in live
    ensures r + 1 < |mem| && mem[r].Header?
    ensures mem[r].reloced <==> r in fwd
    ensures r in fwd ==> mem[r + 1] == Forward(fwd[r])
    ensures r !in fwd ==> ClauseAt(mem0, r) && ClauseAt(mem, r) && ViewAt(mem, r) == ViewAt(mem0, r)
  {
    if r !in fwd {
      SameView(mem0, mem, r);
    }
  }
}
