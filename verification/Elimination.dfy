/** Records of eliminated clauses, how they are stored, and how reading them backwards extends a model. */
module Elimination {
  import opened Literals
  import opened Assignment
  import Normalising
  import Resolution

  // ---------- reading records backwards ----------

  ghost function SetLit(m: Model, p: Lit): Model {
    if p.sign then m - iset{p.v} else m + iset{p.v}
  }

  /** Another literal of the record than its first one holds. */
  ghost predicate OthersHold(m: Model, rec: seq<Lit>) {
    exists k :: 1 <= k < |rec| && Holds(m, rec[k])
  }

  /** A record whose other literals are false makes its first literal true. */
  ghost function UndoOne(m: Model, rec: seq<Lit>): Model {
    if rec == [] || OthersHold(m, rec) then m else SetLit(m, rec[0])
  }

  ghost function Undo(m: Model, recs: seq<seq<Lit>>): Model {
    if recs == [] then m else Undo(UndoOne(m, recs[|recs| - 1]), recs[..|recs| - 1])
  }

  lemma {:induction false} UndoAppend(m: Model, first: seq<seq<Lit>>, second: seq<seq<Lit>>)
    ensures Undo(m, first + second) == Undo(Undo(m, second), first)
    decreases |second|
  {
    if second == [] {
      assert first + second == first;
    } else {
      var init, last := second[..|second| - 1], second[|second| - 1];
      assert (first + second)[..|first + second| - 1] == first + init;
      UndoAppend(UndoOne(m, last), first, init);
    }
  }

  /** The two models agree on every variable but v. */
  ghost predicate SameBut(m: Model, m': Model, v: Var) {
    forall u: Var :: u != v ==> (u in m <==> u in m')
  }

  /** The record of a clause: it starts with the literal y, and no other literal mentions that variable. */
  ghost predicate RecordFor(rec: seq<Lit>, y: Lit) {
    rec != [] && rec[0] == y && forall k :: 1 <= k < |rec| ==> rec[k].v != y.v
  }

  lemma {:induction false} UndoRecords(m: Model, m': Model, recs: seq<seq<Lit>>, y: Lit)
    requires SameBut(m, m', y.v) && forall i :: 0 <= i < |recs| ==> RecordFor(recs[i], y)
    ensures Undo(m', recs) == if forall i :: 0 <= i < |recs| ==> OthersHold(m, recs[i]) then m' else SetLit(m', y)
  {
    if recs != [] {
      var init, last := recs[..|recs| - 1], recs[|recs| - 1];
      assert RecordFor(last, y);
      assert OthersHold(m, last) == OthersHold(m', last);
      UndoRecords(m, UndoOne(m', last), init, y);
      assert forall i :: 0 <= i < |init| ==> recs[i] == init[i];
      assert SetLit(SetLit(m', y), y) == SetLit(m', y);
    }
  }

  /**
   The records of one elimination: first the default x, then whatever forces its negation.
   */
  lemma UndoElimination(m: Model, recs: seq<seq<Lit>>, x: Lit)
    requires forall i :: 0 <= i < |recs| ==> RecordFor(recs[i], Neg(x))
    ensures Undo(m, recs + [[x]]) ==
            SetLit(m, if forall i :: 0 <= i < |recs| ==> OthersHold(m, recs[i]) then x else Neg(x))
  {
    assert !OthersHold(m, [x]);
    assert (recs + [[x]])[..|recs|] == recs;
    UndoRecords(m, SetLit(m, x), recs, Neg(x));
    assert SetLit(SetLit(m, x), Neg(x)) == SetLit(m, Neg(x));
  }

  // ---------- eliminating a variable ----------

  /** The clause swapped so that its literal on v comes first. */
  ghost predicate RecordOf(rec: seq<Lit>, c: seq<Lit>, y: Lit) {
    RecordFor(rec, y) && |rec| == |c| && SameElements(rec, c)
  }

  ghost predicate SatResolvents(m: Model, ss: seq<seq<Lit>>, ts: seq<seq<Lit>>, v: Var) {
    forall i, j :: 0 <= i < |ss| && 0 <= j < |ts| ==> SatResolvent(m, ss[i], ts[j], v)
  }

  /** The resolvent of the two clauses is a tautology or holds. */
  ghost predicate SatResolvent(m: Model, s: seq<Lit>, t: seq<Lit>, v: Var) {
    Resolution.Clash(s, t, v) || exists q :: q in Resolution.ResolventSet(s, t, v) && Holds(m, q)
  }

  /** The clauses all have the literal y, once, and nothing else on its variable. */
  ghost predicate OnLit(cs: seq<seq<Lit>>, y: Lit) {
    forall i :: 0 <= i < |cs| ==> Resolution.Distinct(cs[i]) && y in cs[i]
  }

  lemma HoldsBut(m: Model, m': Model, v: Var, q: Lit)
    requires SameBut(m, m', v) && q.v != v
    ensures Holds(m, q) == Holds(m', q)
  {
  }

  lemma SetLitHolds(m: Model, x: Lit)
    ensures Holds(SetLit(m, x), x) && !Holds(SetLit(m, x), Neg(x)) && SameBut(m, SetLit(m, x), x.v)
  {
  }

  /** A model of all resolvents extends to the clauses resolved, and the stored records of one side find the value. */
  lemma EliminationExtends(m: Model, ss: seq<seq<Lit>>, ts: seq<seq<Lit>>, recs: seq<seq<Lit>>, x: Lit)
    requires OnLit(ss, Neg(x)) && OnLit(ts, x) && SatResolvents(m, ss, ts, x.v)
    requires |recs| == |ss| && forall i :: 0 <= i < |ss| ==> RecordOf(recs[i], ss[i], Neg(x))
    ensures var m' := Undo(m, recs + [[x]]);
            SameBut(m, m', x.v)
            && (forall i :: 0 <= i < |ss| ==> Sat(m', ss[i])) && (forall j :: 0 <= j < |ts| ==> Sat(m', ts[j]))
  {
    UndoElimination(m, recs, x);
    var m' := Undo(m, recs + [[x]]);
    if forall i :: 0 <= i < |recs| ==> OthersHold(m, recs[i]) {
      SetLitHolds(m, x);
      forall i | 0 <= i < |ss| ensures Sat(m', ss[i]) {
        assert RecordOf(recs[i], ss[i], Neg(x)) && OthersHold(m, recs[i]);
        var k :| 1 <= k < |recs[i]| && Holds(m, recs[i][k]);
        assert recs[i][k] in ss[i] && Holds(m', recs[i][k]);
      }
      forall j | 0 <= j < |ts| ensures Sat(m', ts[j]) {
        assert x in ts[j];
      }
    } else {
      SetLitHolds(m, Neg(x));
      var i :| 0 <= i < |recs| && !OthersHold(m, recs[i]);
      forall h | 0 <= h < |ss| ensures Sat(m', ss[h]) {
        assert Neg(x) in ss[h];
      }
      forall j | 0 <= j < |ts| ensures Sat(m', ts[j]) {
        OtherSide(m, ss[i], ts[j], recs[i], x);
        var q :| q in ts[j] && q.v != x.v && Holds(m, q);
        HoldsBut(m, m', x.v, q);
      }
    }
  }

  /** When all other literals of s are false, the resolvent with t makes another literal of t true. */
  lemma OtherSide(m: Model, s: seq<Lit>, t: seq<Lit>, rec: seq<Lit>, x: Lit)
    requires RecordOf(rec, s, Neg(x)) && !OthersHold(m, rec) && SatResolvent(m, s, t, x.v)
    ensures exists q :: q in t && q.v != x.v && Holds(m, q)
  {
  }

  // ---------- storing records ----------

  ghost function Codes(c: seq<Lit>): seq<nat> {
    seq(|c|, i requires 0 <= i < |c| => Code(c[i]))
  }

  /** Each record: the codes of its literals, then their number. */
  ghost function Flat(recs: seq<seq<Lit>>): seq<nat> {
    if recs == [] then [] else Flat(recs[..|recs| - 1]) + (Codes(recs[|recs| - 1]) + [|recs[|recs| - 1]|])
  }

  lemma FlatMore(recs: seq<seq<Lit>>, rec: seq<Lit>)
    ensures Flat(recs + [rec]) == Flat(recs) + (Codes(rec) + [|rec|])
  {
  }

  /** The clause with literal k exchanged for the first. */
  ghost function Fronted(c: seq<Lit>, k: nat): seq<Lit>
    requires k < |c|
  {
    c[k := c[0]][0 := c[k]]
  }

  /** Store a clause with its literal on v first, and its length last. */
  method MkElimClause(elims: seq<nat>, v: Var, c: seq<Lit>) returns (elims': seq<nat>)
    requires Resolution.Distinct(c) && exists k :: 0 <= k < |c| && c[k].v == v
    ensures forall k :: 0 <= k < |c| && c[k].v == v ==> elims' == elims + (Codes(Fronted(c, k)) + [|c|])
  {
    hide Codes, Fronted;
    var first, vPos := |elims|, 0;
    elims' := elims;
    var i := 0;
    CodesMore(c, 0);
    while i < |c|
      invariant i <= |c| && elims' == elims + Codes(c[..i])
      invariant forall k :: 0 <= k < i && c[k].v == v ==> vPos == k + first
    {
      CodesMore(c, i);
      elims' := elims' + [Code(c[i])];
      if c[i].v == v {
        vPos := i + first;
      }
      i := i + 1;
    }
    assert c[..|c|] == c;
    ghost var k :| 0 <= k < |c| && c[k].v == v;
    var tmp := elims'[vPos];
    elims' := elims'[vPos := elims'[first]];
    elims' := elims'[first := tmp];
    SwappedCodes(elims, c, k, elims');
    elims' := elims' + [|c|];
  }

  lemma CodesMore(c: seq<Lit>, i: nat)
    requires i <= |c|
    ensures |Codes(c)| == |c| && Codes(c[..0]) == []
    ensures i < |c| ==> Codes(c[..i + 1]) == Codes(c[..i]) + [Code(c[i])]
  {
  }

  lemma SwappedCodes(elims: seq<nat>, c: seq<Lit>, k: nat, elims': seq<nat>)
    requires k < |c| && var e := elims + Codes(c); elims' == e[|elims| + k := e[|elims|]][|elims| := e[|elims| + k]]
    ensures elims' == elims + Codes(Fronted(c, k))
  {
  }

  /** What has been stored is the record of the clause. */
  lemma FrontedRecord(recs: seq<seq<Lit>>, c: seq<Lit>, y: Lit) returns (k: nat)
    requires Resolution.Distinct(c) && y in c
    ensures k < |c| && c[k].v == y.v && RecordOf(Fronted(c, k), c, y)
    ensures Flat(recs + [Fronted(c, k)]) == Flat(recs) + (Codes(Fronted(c, k)) + [|c|])
  {
    k :| 0 <= k < |c| && c[k] == y;
    var rec := Fronted(c, k);
    FlatMore(recs, rec);
    forall q | q in c ensures q in rec {
      var i :| 0 <= i < |c| && c[i] == q;
      assert rec[if i == k then 0 else if i == 0 then k else i] == q;
    }
  }

  /** Store the default value of an eliminated variable. */
  method MkElimUnit(elims: seq<nat>, x: Lit) returns (elims': seq<nat>)
    ensures elims' == elims + (Codes([x]) + [1])
  {
    elims' := elims + [Code(x)] + [1];
    assert Codes([x]) == [Code(x)];
  }

  // ---------- extending a partial assignment ----------

  /** The same steps on lifted booleans. */
  ghost function UndoValue(values: seq<LBool>, rec: seq<Lit>): (r: seq<LBool>)
    ensures |r| == |values|
  {
    if rec != [] && rec[0].v < |values| && forall k :: 1 <= k < |rec| ==> FalseLit(values, rec[k])
    then values[rec[0].v := ValueOf(rec[0].sign)] else values
  }

  /** Some literal of the clause is true. */
  ghost predicate TrueIn(values: seq<LBool>, c: seq<Lit>) {
    exists p :: p in c && TrueLit(values, p)
  }

  ghost function UndoValues(values: seq<LBool>, recs: seq<seq<Lit>>): (r: seq<LBool>)
    ensures |r| == |values|
    decreases |recs|
  {
    if recs == [] then values else UndoValues(UndoValue(values, recs[|recs| - 1]), recs[..|recs| - 1])
  }

  /** Reading backwards from variables that have a value, every record finds its other literals decided. */
  ghost predicate Readable(recs: seq<seq<Lit>>, n: nat, known: set<Var>) {
    if recs == [] then forall u :: 0 <= u < n ==> u in known
    else
      var rec := recs[|recs| - 1];
      && rec != [] && rec[0].v < n && (|rec| == 1 || rec[0].v in known)
      && (forall k :: 1 <= k < |rec| ==> rec[k].v in known)
      && Readable(recs[..|recs| - 1], n, known + {rec[0].v})
  }

  /** The values decide the known variables, as the model does. */
  ghost predicate Decides(values: seq<LBool>, m: Model, known: set<Var>) {
    forall u :: u in known ==> u < |values| && values[u] == if u in m then LTrue else LFalse
  }

  lemma {:induction false} UndoAgrees(values: seq<LBool>, m: Model, recs: seq<seq<Lit>>, known: set<Var>)
    requires Decides(values, m, known) && Readable(recs, |values|, known)
    ensures forall u :: 0 <= u < |values| ==> UndoValues(values, recs)[u] == if u in Undo(m, recs) then LTrue else LFalse
    decreases |recs|
  {
    if recs != [] {
      var rec := recs[|recs| - 1];
      UndoOneAgrees(values, m, rec, known);
      UndoAgrees(UndoValue(values, rec), UndoOne(m, rec), recs[..|recs| - 1], known + {rec[0].v});
    }
  }

  lemma UndoOneAgrees(values: seq<LBool>, m: Model, rec: seq<Lit>, known: set<Var>)
    requires Decides(values, m, known) && rec != [] && rec[0].v < |values| && (|rec| == 1 || rec[0].v in known)
    requires forall k :: 1 <= k < |rec| ==> rec[k].v in known
    ensures Decides(UndoValue(values, rec), UndoOne(m, rec), known + {rec[0].v})
  {
  }

  /** Variables without a record keep their value. */
  lemma {:induction false} UndoKeepsOthers(values: seq<LBool>, recs: seq<seq<Lit>>, u: Var)
    requires u < |values| && forall i :: 0 <= i < |recs| && recs[i] != [] ==> recs[i][0].v != u
    ensures UndoValues(values, recs)[u] == values[u]
    decreases |recs|
  {
    if recs != [] {
      UndoKeepsOthers(UndoValue(values, recs[|recs| - 1]), recs[..|recs| - 1], u);
    }
  }

  lemma {:induction false} UndoKeepsModel(m: Model, recs: seq<seq<Lit>>, u: Var)
    requires forall i :: 0 <= i < |recs| && recs[i] != [] ==> recs[i][0].v != u
    ensures u in Undo(m, recs) <==> u in m
    decreases |recs|
  {
    if recs != [] {
      UndoKeepsModel(UndoOne(m, recs[|recs| - 1]), recs[..|recs| - 1], u);
    }
  }

  /** One more elimination: its variable is no longer known before, and known again after its own records. */
  lemma {:induction false} ReadableMore(recs: seq<seq<Lit>>, n: nat, known: set<Var>, more: seq<seq<Lit>>, x: Lit)
    requires Readable(recs, n, known) && x.v in known && x.v < n
    requires forall i :: 0 <= i < |more| ==> RecordFor(more[i], Neg(x))
    requires forall i, k :: 0 <= i < |more| && 1 <= k < |more[i]| ==> more[i][k].v in known
    ensures Readable(recs + (more + [[x]]), n, known - {x.v})
  {
    assert (recs + (more + [[x]]))[..|recs + more|] == recs + more;
    assert known - {x.v} + {x.v} == known;
    ReadableSame(recs, n, known, more, x);
  }

  lemma {:induction false} ReadableSame(recs: seq<seq<Lit>>, n: nat, known: set<Var>, more: seq<seq<Lit>>, x: Lit)
    requires Readable(recs, n, known) && x.v in known && x.v < n
    requires forall i :: 0 <= i < |more| ==> RecordFor(more[i], Neg(x))
    requires forall i, k :: 0 <= i < |more| && 1 <= k < |more[i]| ==> more[i][k].v in known
    ensures Readable(recs + more, n, known)
    decreases |more|
  {
    if more == [] {
      assert recs + more == recs;
    } else {
      var init, last := more[..|more| - 1], more[|more| - 1];
      assert (recs + more)[..|recs + more| - 1] == recs + init;
      assert RecordFor(last, Neg(x)) && known + {x.v} == known;
      ReadableSame(recs, n, known, init, x);
    }
  }

  lemma {:induction false} ReadableGrows(recs: seq<seq<Lit>>, n: nat, known: set<Var>)
    requires Readable(recs, n, known)
    ensures Readable(recs, n + 1, known + {n})
    decreases |recs|
  {
    if recs != [] {
      var v := recs[|recs| - 1][0].v;
      ReadableGrows(recs[..|recs| - 1], n, known + {v});
      assert known + {v} + {n} == known + {n} + {v};
    }
  }

  lemma {:induction false} FlatPrefix(recs: seq<seq<Lit>>, n: nat)
    requires n <= |recs|
    ensures |Flat(recs[..n])| <= |Flat(recs)| && Flat(recs)[..|Flat(recs[..n])|] == Flat(recs[..n])
    decreases |recs|
  {
    if n < |recs| {
      var init := recs[..|recs| - 1];
      FlatPrefix(init, n);
      assert init[..n] == recs[..n];
    } else {
      assert recs[..n] == recs;
    }
  }

  /** The codes of the record lie in the flat vector from 'base' on. */
  ghost predicate StoredAt(elims: seq<nat>, base: int, rec: seq<Lit>) {
    0 <= base && base + |rec| < |elims| && elims[base + |rec|] == |rec| &&
    forall k :: 0 <= k < |rec| ==> elims[base + k] == Code(rec[k])
  }

  /** Where record n lies in the flat vector: its literals, and its size behind them. */
  lemma RecordAt(recs: seq<seq<Lit>>, n: nat)
    requires 0 < n <= |recs|
    ensures |Flat(recs[..n])| == |Flat(recs[..n - 1])| + |recs[n - 1]| + 1
    ensures StoredAt(Flat(recs), |Flat(recs[..n - 1])|, recs[n - 1])
  {
    assert recs[..n] == recs[..n - 1] + [recs[n - 1]];
    FlatMore(recs[..n - 1], recs[n - 1]);
    FlatPrefix(recs, n);
    PrefixStored(Flat(recs), Flat(recs[..n - 1]), recs[n - 1]);
  }

  lemma PrefixStored(elims: seq<nat>, front: seq<nat>, rec: seq<Lit>)
    requires front + (Codes(rec) + [|rec|]) <= elims
    ensures StoredAt(elims, |front|, rec)
  {
  }

  /** A vector of non-empty records is empty or has at least two entries. */
  lemma FlatSize(recs: seq<seq<Lit>>)
    requires recs != [] ==> recs[|recs| - 1] != []
    ensures recs != [] ==> |Flat(recs)| >= 2
  {
  }

  ghost predicate RecordsInRange(recs: seq<seq<Lit>>, n: nat) {
    forall i :: 0 <= i < |recs| ==> recs[i] != [] && forall k :: 0 <= k < |recs[i]| ==> recs[i][k].v < n
  }

  /** Read one record backwards, from its last literal; j counts the literals left. */
  method ReadRecord(elims: seq<nat>, values: seq<LBool>, last: int, ghost rec: seq<Lit>) returns (values': seq<LBool>, i: int, j: int)
    requires rec != [] && StoredAt(elims, last + 1 - |rec|, rec) && forall k :: 0 <= k < |rec| ==> rec[k].v < |values|
    ensures values' == UndoValue(values, rec) && i - j == last - |rec|
  {
    ghost var base := last + 1 - |rec|;
    i, j := last, elims[last + 1];
    while j > 1
      invariant 1 <= j <= |rec| && i == base + j - 1
      invariant forall k :: j <= k < |rec| ==> FalseLit(values, rec[k])
    {
      CodeRoundTrip(rec[j - 1], 0);
      assert elims[base + (j - 1)] == Code(rec[j - 1]);
      if Normalising.LitValue(values, FromCode(elims[i])) != LFalse {
        assert !FalseLit(values, rec[j - 1]);
        return values, i, j;
      }
      j, i := j - 1, i - 1;
    }
    assert elims[base + 0] == Code(rec[0]);
    CodeRoundTrip(rec[0], 0);
    var x := FromCode(elims[i]);
    values' := values[x.v := if !x.sign then LTrue else LFalse];
  }

  /** Read all records backwards and set the eliminated variables. */
  method ExtendValues(elims: seq<nat>, model: seq<LBool>, ghost recs: seq<seq<Lit>>) returns (values: seq<LBool>)
    requires elims == Flat(recs) && RecordsInRange(recs, |model|)
    ensures values == UndoValues(model, recs)
  {
    values := model;
    var i := |elims| - 1;
    ghost var n := |recs|;
    assert recs[..n] == recs;
    while i > 0
      invariant 0 <= n <= |recs| && i == |Flat(recs[..n])| - 1 && |values| == |model|
      invariant UndoValues(values, recs[..n]) == UndoValues(model, recs)
    {
      FlatSize(recs[..n]);
      ghost var rec := recs[n - 1];
      RecordAt(recs, n);
      assert recs[..n][..n - 1] == recs[..n - 1];
      var j: int;
      values, i, j := ReadRecord(elims, values, i - 1, rec);
      i := i - j;
      n := n - 1;
    }
    FlatSize(recs[..n]);
  }
}
