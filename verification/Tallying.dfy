/** What the clauses of a counting solver mean, and what each counting step does to that meaning. */
module Tallying {
  import opened Literals
  import Meaning
  import opened Projection

  /** Only variables below n occur. */
  ghost predicate Within(f: seq<seq<Lit>>, n: nat) {
    forall p: Lit :: Meaning.Mentions(f, p) ==> p.v < n
  }

  ghost predicate VarsBelow(vs: seq<Var>, n: nat) {
    forall i :: 0 <= i < |vs| ==> vs[i] < n
  }

  lemma WithinMore(f: seq<seq<Lit>>, n: nat, c: seq<Lit>)
    requires Within(f, n) && forall k :: 0 <= k < |c| ==> c[k].v < n
    ensures Within(f + [c], n)
  {
  }

  lemma WithinGrows(f: seq<seq<Lit>>, n: nat)
    requires Within(f, n)
    ensures Within(f, n + 1)
  {
  }

  /** A variable without a value does not make its label clause false. */
  lemma LabelFree(m: Model, c: seq<Lit>, v: Var)
    ensures v !in m ==> Sat(m, c + [Lit(v, true)])
  {
    SatOneMore(m, c, Lit(v, true));
  }

  /** The label of output number i, if true, excludes that output. */
  ghost predicate LabelsRespected(m: Model, outs: seq<Var>, names: seq<Bits>, vars: nat) {
    forall i :: 0 <= i < |names| && vars + i in m ==> Value(m, outs) != names[i]
  }

  /** The formula with the counted inputs and the closed outputs blocked, and some outputs labelled. */
  ghost predicate Restricts(f: seq<seq<Lit>>, base: seq<seq<Lit>>, ins: seq<Var>, outs: seq<Var>, t: Tally,
                            closed: set<Bits>, names: seq<Bits>, vars: nat) {
    forall m: Model :: SatAll(m, f) <==>
      SatAll(m, base) && Value(m, ins) !in t && Value(m, outs) !in closed && LabelsRespected(m, outs, names, vars)
  }

  /** Inputs of models with a closed output have all been counted. */
  ghost predicate ClosedOff(base: seq<seq<Lit>>, ins: seq<Var>, outs: seq<Var>, t: Tally, closed: set<Bits>) {
    forall m: Model :: SatAll(m, base) && Value(m, outs) in closed ==> Value(m, ins) in t
  }

  lemma CountInput(f: seq<seq<Lit>>, base: seq<seq<Lit>>, ins: seq<Var>, outs: seq<Var>, t: Tally,
                   closed: set<Bits>, names: seq<Bits>, vars: nat, m: Model)
    requires Restricts(f, base, ins, outs, t, closed, names, vars) && Genuine(base, ins, outs, t)
    requires ClosedOff(base, ins, outs, t, closed) && SatAll(m, f)
    ensures Value(m, ins) !in t && Relates(base, ins, outs, Value(m, ins), Value(m, outs))
    ensures var t' := t[Value(m, ins) := Value(m, outs)];
            Restricts(f + [Blocking(ins, Value(m, ins))], base, ins, outs, t', closed, names, vars)
            && Genuine(base, ins, outs, t') && ClosedOff(base, ins, outs, t', closed)
  {
    var x, o := Value(m, ins), Value(m, outs);
    forall n: Model ensures SatAll(n, f + [Blocking(ins, x)]) <==> SatAll(n, f) && Value(n, ins) != x {
      SatAllAppend(n, f, Blocking(ins, x));
      BlockingMeaning(n, ins, x);
    }
    assert Relates(base, ins, outs, x, o);
  }

  lemma CloseOutput(f: seq<seq<Lit>>, base: seq<seq<Lit>>, ins: seq<Var>, outs: seq<Var>, t: Tally,
                    closed: set<Bits>, names: seq<Bits>, vars: nat, o: Bits)
    requires Restricts(f, base, ins, outs, t, closed, names, vars) && ClosedOff(base, ins, outs, t, closed)
    requires names == [] && |o| == |outs| && forall m: Model :: SatAll(m, f) ==> !HoldAll(m, Fixing(outs, o))
    ensures Restricts(f + [Blocking(outs, o)], base, ins, outs, t, closed + {o}, names, vars)
    ensures ClosedOff(base, ins, outs, t, closed + {o})
  {
    forall n: Model
      ensures SatAll(n, f + [Blocking(outs, o)]) <==> SatAll(n, f) && Value(n, outs) != o
      ensures SatAll(n, f) ==> Value(n, outs) != o
    {
      SatAllAppend(n, f, Blocking(outs, o));
      BlockingMeaning(n, outs, o);
      FixingMeaning(n, outs, o);
    }
  }

  lemma NothingLeft(f: seq<seq<Lit>>, base: seq<seq<Lit>>, ins: seq<Var>, outs: seq<Var>, t: Tally,
                    closed: set<Bits>, vars: nat)
    requires Restricts(f, base, ins, outs, t, closed, [], vars) && ClosedOff(base, ins, outs, t, closed)
    requires forall m: Model :: SatAll(m, f) ==> !HoldAll(m, [])
    ensures Exhausted(base, ins, t)
  {
  }

  // ---------- labels ----------

  /** Assume all labels, so that no named output is allowed; with 'but' in range that one is enabled. */
  ghost predicate LabelsAssumed(a: seq<Lit>, k: nat, vars: nat, but: int) {
    |a| == k && forall i :: 0 <= i < k ==> a[i] == Lit(vars + i, i == but)
  }

  /** A model in which exactly the labels that are assumed true are true. */
  ghost function Labelled(m: Model, vars: nat, k: nat, but: int): Model {
    iset v: Var | if v < vars then v in m else v < vars + k && v - vars != but
  }

  lemma LabelledSame(f: seq<seq<Lit>>, m: Model, vars: nat, k: nat, but: int, vs: seq<Var>)
    requires Within(f, vars) && VarsBelow(vs, vars)
    ensures SatAll(m, f) ==> SatAll(Labelled(m, vars, k, but), f)
    ensures Value(Labelled(m, vars, k, but), vs) == Value(m, vs)
  {
  }

  /** Any model of the formula that is not counted and whose output is not excluded shows up under the assumptions. */
  lemma LabelledModel(f: seq<seq<Lit>>, base: seq<seq<Lit>>, ins: seq<Var>, outs: seq<Var>, t: Tally, names: seq<Bits>,
                      vars: nat, but: int, a: seq<Lit>, m: Model)
    requires Restricts(f, base, ins, outs, t, {}, names, vars) && Within(base, vars) && VarsBelow(ins, vars) && VarsBelow(outs, vars)
    requires LabelsAssumed(a, |names|, vars, but)
    requires SatAll(m, base) && Value(m, ins) !in t && forall i :: 0 <= i < |names| && i != but ==> Value(m, outs) != names[i]
    ensures exists n: Model :: SatAll(n, f) && HoldAll(n, a)
  {
    var n := Labelled(m, vars, |names|, but);
    LabelledSame(base, m, vars, |names|, but, ins);
    LabelledSame(base, m, vars, |names|, but, outs);
    assert SatAll(n, f) && HoldAll(n, a);
  }

  /** Every model that is not counted has a named output. */
  ghost predicate AllNamed(base: seq<seq<Lit>>, ins: seq<Var>, outs: seq<Var>, t: Tally, names: seq<Bits>) {
    forall m: Model :: SatAll(m, base) && Value(m, ins) !in t ==> Value(m, outs) in names
  }

  /** No model that is not counted has this output. */
  ghost predicate DoneFor(base: seq<seq<Lit>>, ins: seq<Var>, outs: seq<Var>, t: Tally, o: Bits) {
    forall m: Model :: SatAll(m, base) && Value(m, ins) !in t ==> Value(m, outs) != o
  }

  lemma NoneUnnamed(f: seq<seq<Lit>>, base: seq<seq<Lit>>, ins: seq<Var>, outs: seq<Var>, t: Tally, names: seq<Bits>,
                    vars: nat, a: seq<Lit>)
    requires Restricts(f, base, ins, outs, t, {}, names, vars) && Within(base, vars) && VarsBelow(ins, vars) && VarsBelow(outs, vars)
    requires LabelsAssumed(a, |names|, vars, -1) && forall m: Model :: SatAll(m, f) ==> !HoldAll(m, a)
    ensures AllNamed(base, ins, outs, t, names)
  {
    forall m: Model | SatAll(m, base) && Value(m, ins) !in t ensures Value(m, outs) in names {
      if Value(m, outs) !in names {
        LabelledModel(f, base, ins, outs, t, names, vars, -1, a, m);
      }
    }
  }

  lemma NoneForLabel(f: seq<seq<Lit>>, base: seq<seq<Lit>>, ins: seq<Var>, outs: seq<Var>, t: Tally, names: seq<Bits>,
                     vars: nat, a: seq<Lit>, but: nat)
    requires Restricts(f, base, ins, outs, t, {}, names, vars) && Within(base, vars) && VarsBelow(ins, vars) && VarsBelow(outs, vars)
    requires but < |names| && NoDup(names)
    requires LabelsAssumed(a, |names|, vars, but) && forall m: Model :: SatAll(m, f) ==> !HoldAll(m, a)
    ensures DoneFor(base, ins, outs, t, names[but])
  {
    forall m: Model | SatAll(m, base) && Value(m, ins) !in t ensures Value(m, outs) != names[but] {
      if Value(m, outs) == names[but] {
        LabelledModel(f, base, ins, outs, t, names, vars, but, a, m);
      }
    }
  }

  /** Under the assumptions a model has the enabled output, or, if none is enabled, an output without a name. */
  lemma AssumedOutput(f: seq<seq<Lit>>, base: seq<seq<Lit>>, ins: seq<Var>, outs: seq<Var>, t: Tally, closed: set<Bits>,
                      names: seq<Bits>, vars: nat, a: seq<Lit>, but: int, m: Model)
    requires Restricts(f, base, ins, outs, t, closed, names, vars) && SatAll(m, f)
    requires LabelsAssumed(a, |names|, vars, but) && HoldAll(m, a)
    ensures forall i :: 0 <= i < |names| && i != but ==> Value(m, outs) != names[i]
    ensures AllNamed(base, ins, outs, t, names) && 0 <= but < |names| ==> Value(m, outs) == names[but]
  {
    forall i | 0 <= i < |names| && i != but ensures Value(m, outs) != names[i] {
      assert Holds(m, a[i]);
    }
  }

  /** A new label excludes the output found. */
  lemma LabelOutput(f: seq<seq<Lit>>, base: seq<seq<Lit>>, ins: seq<Var>, outs: seq<Var>, t: Tally, closed: set<Bits>,
                    names: seq<Bits>, vars: nat, o: Bits)
    requires Restricts(f, base, ins, outs, t, closed, names, vars) && |o| == |outs|
    ensures Restricts(f + [Blocking(outs, o) + [Lit(vars + |names|, true)]], base, ins, outs, t, closed, names + [o], vars)
  {
    var tag := Lit(vars + |names|, true);
    var c := Blocking(outs, o) + [tag];
    forall n: Model
      ensures SatAll(n, f + [c]) <==> SatAll(n, f) && (Value(n, outs) != o || tag.v !in n)
      ensures LabelsRespected(n, outs, names + [o], vars) <==>
              LabelsRespected(n, outs, names, vars) && (Value(n, outs) != o || tag.v !in n)
    {
      SatAllAppend(n, f, c);
      BlockingMeaning(n, outs, o);
      SatOneMore(n, Blocking(outs, o), tag);
      assert (names + [o])[|names|] == o;
      assert forall i :: 0 <= i < |names| ==> (names + [o])[i] == names[i];
    }
  }

  lemma SatOneMore(m: Model, c: seq<Lit>, p: Lit)
    ensures Sat(m, c + [p]) <==> Sat(m, c) || Holds(m, p)
  {
  }

  // ---------- histograms ----------

  /** Each output has as many inputs in its bucket as it has pre-images. */
  ghost predicate Histogram(base: seq<seq<Lit>>, ins: seq<Var>, outs: seq<Var>, b: seq<Bucket>) {
    forall o: Bits :: |o| == |outs| ==> Index(o) < |b| && b[Index(o)].size == |Preimages(base, ins, outs, o)|
  }

  lemma BookedHistogram(base: seq<seq<Lit>>, ins: seq<Var>, outs: seq<Var>, t: Tally, b: seq<Bucket>)
    requires Genuine(base, ins, outs, t) && Exhausted(base, ins, t) && Booked(b, |outs|, t)
    ensures Functional(base, ins, outs) ==> Histogram(base, ins, outs, b)
  {
    if Functional(base, ins, outs) {
      forall o: Bits | |o| == |outs| ensures Index(o) < |b| && b[Index(o)].size == |Preimages(base, ins, outs, o)| {
        ExhaustedCounts(base, ins, outs, t, o);
      }
    }
  }

  /** Buckets in the order of the labels. */
  ghost predicate BookedSync(b: seq<Bucket>, k: nat, names: seq<Bits>, t: Tally) {
    && |b| == |names| && SumSizes(b) == |t| && NoDup(names)
    && (forall i :: 0 <= i < |names| ==> |names[i]| == k && b[i].size == CountOf(t, names[i]))
    && (forall x :: x in t ==> t[x] in names)
  }

  /** A closed bucket has no model left that is not counted. */
  ghost predicate ClosedDone(base: seq<seq<Lit>>, ins: seq<Var>, outs: seq<Var>, t: Tally, names: seq<Bits>, b: seq<Bucket>) {
    |b| == |names| && forall i :: 0 <= i < |b| && b[i].closed ==> DoneFor(base, ins, outs, t, names[i])
  }

  lemma NoneUnder(t: Tally, names: seq<Bits>, o: Bits)
    requires o !in names && forall x :: x in t ==> t[x] in names
    ensures CountOf(t, o) == 0
  {
  }

  lemma NoneBooked(k: nat)
    ensures BookedSync([], k, [], map[])
  {
  }

  lemma SumLast(b: seq<Bucket>, c: Bucket)
    ensures SumSizes(b + [c]) == SumSizes(b) + c.size
  {
  }

  lemma NamesGrow(names: seq<Bits>, t: Tally, x: Bits, o: Bits, t': Tally)
    requires NoDup(names) && x !in t && o !in names && t' == t[x := o] && forall y :: y in t ==> t[y] in names
    ensures NoDup(names + [o]) && |t'| == |t| + 1 && forall y :: y in t' ==> t'[y] in names + [o]
  {
  }

  lemma BookLabel(b: seq<Bucket>, k: nat, names: seq<Bits>, t: Tally, x: Bits, o: Bits)
    requires BookedSync(b, k, names, t) && x !in t && o !in names && |o| == k
    ensures BookedSync(b + [Bucket(1, false)], k, names + [o], t[x := o])
  {
    hide CountOf, SumSizes;
    var b', t', names' := b + [Bucket(1, false)], t[x := o], names + [o];
    SumLast(b, Bucket(1, false));
    NamesGrow(names, t, x, o, t');
    NoneUnder(t, names, o);
    forall i | 0 <= i < |names'| ensures |names'[i]| == k && b'[i].size == CountOf(t', names'[i]) {
      CountMore(t, x, o, names'[i]);
      if i < |names| {
        assert names[i] in names;
      }
    }
  }

  lemma BookSync(b: seq<Bucket>, k: nat, names: seq<Bits>, t: Tally, x: Bits, i: nat, c: Bucket)
    requires BookedSync(b, k, names, t) && x !in t && i < |b| && c.size == b[i].size + 1
    ensures BookedSync(b[i := c], k, names, t[x := names[i]])
  {
    var b', t' := b[i := c], t[x := names[i]];
    SumUpdate(b, i, c);
    assert t'.Keys == t.Keys + {x};
    forall j | 0 <= j < |names| ensures b'[j].size == CountOf(t', names[j]) {
      CountMore(t, x, names[i], names[j]);
    }
  }

  lemma CloseSync(b: seq<Bucket>, k: nat, names: seq<Bits>, t: Tally, i: nat)
    requires BookedSync(b, k, names, t) && i < |b|
    ensures BookedSync(b[i := b[i].(closed := true)], k, names, t)
  {
    SumUpdate(b, i, b[i].(closed := true));
  }

  lemma TallyGrows(base: seq<seq<Lit>>, ins: seq<Var>, outs: seq<Var>, t: Tally, names: seq<Bits>, b: seq<Bucket>, x: Bits, o: Bits)
    requires ClosedDone(base, ins, outs, t, names, b) && AllNamed(base, ins, outs, t, names)
    ensures ClosedDone(base, ins, outs, t[x := o], names, b) && AllNamed(base, ins, outs, t[x := o], names)
  {
  }

  lemma SameClosed(base: seq<seq<Lit>>, ins: seq<Var>, outs: seq<Var>, t: Tally, names: seq<Bits>, b: seq<Bucket>, i: nat, c: Bucket)
    requires ClosedDone(base, ins, outs, t, names, b) && i < |b| && c.closed == b[i].closed
    ensures ClosedDone(base, ins, outs, t, names, b[i := c])
  {
  }

  lemma CloseDone(base: seq<seq<Lit>>, ins: seq<Var>, outs: seq<Var>, t: Tally, names: seq<Bits>, b: seq<Bucket>, i: nat)
    requires ClosedDone(base, ins, outs, t, names, b) && i < |b| && DoneFor(base, ins, outs, t, names[i])
    ensures ClosedDone(base, ins, outs, t, names, b[i := b[i].(closed := true)])
  {
  }

  lemma NoneClosed(base: seq<seq<Lit>>, ins: seq<Var>, outs: seq<Var>, t: Tally, names: seq<Bits>, b: seq<Bucket>, k: nat)
    requires BookedSync(b, k, names, t) && forall i :: 0 <= i < |b| ==> !b[i].closed
    ensures ClosedDone(base, ins, outs, t, names, b)
  {
  }

  lemma NoDupNames(b: seq<Bucket>, k: nat, names: seq<Bits>, t: Tally)
    requires BookedSync(b, k, names, t)
    ensures NoDup(names)
  {
  }

  lemma SyncSizes(b: seq<Bucket>, k: nat, names: seq<Bits>, t: Tally)
    requires BookedSync(b, k, names, t)
    ensures |b| == |names|
  {
  }

  lemma AllClosed(base: seq<seq<Lit>>, ins: seq<Var>, outs: seq<Var>, t: Tally, names: seq<Bits>, b: seq<Bucket>)
    requires ClosedDone(base, ins, outs, t, names, b) && AllNamed(base, ins, outs, t, names)
    requires forall i :: 0 <= i < |b| ==> b[i].closed
    ensures Exhausted(base, ins, t)
  {
  }

  /** The labelled buckets hold the pre-image counts of their outputs, and every other output has none. */
  ghost predicate HistogramSync(base: seq<seq<Lit>>, ins: seq<Var>, outs: seq<Var>, names: seq<Bits>, b: seq<Bucket>) {
    && |b| == |names|
    && (forall i :: 0 <= i < |names| ==> b[i].size == |Preimages(base, ins, outs, names[i])|)
    && (forall o: Bits :: o !in names ==> Preimages(base, ins, outs, o) == {})
  }

  lemma BookedSyncHistogram(base: seq<seq<Lit>>, ins: seq<Var>, outs: seq<Var>, t: Tally, names: seq<Bits>, b: seq<Bucket>)
    requires Genuine(base, ins, outs, t) && Exhausted(base, ins, t) && BookedSync(b, |outs|, names, t)
    ensures Functional(base, ins, outs) ==> HistogramSync(base, ins, outs, names, b)
  {
    if Functional(base, ins, outs) {
      forall i | 0 <= i < |names| ensures b[i].size == |Preimages(base, ins, outs, names[i])| {
        ExhaustedCounts(base, ins, outs, t, names[i]);
      }
      forall o: Bits | o !in names ensures Preimages(base, ins, outs, o) == {} {
        ExhaustedCounts(base, ins, outs, t, o);
        NoneUnder(t, names, o);
      }
    }
  }

  /** All exhaustive modes compute the same histogram. */
  lemma ModesAgree(base: seq<seq<Lit>>, ins: seq<Var>, outs: seq<Var>, b: seq<Bucket>, names: seq<Bits>, c: seq<Bucket>)
    requires Histogram(base, ins, outs, b) && HistogramSync(base, ins, outs, names, c)
    requires forall i :: 0 <= i < |names| ==> |names[i]| == |outs|
    ensures forall i :: 0 <= i < |names| ==> Index(names[i]) < |b| && c[i].size == b[Index(names[i])].size
    ensures forall o: Bits :: |o| == |outs| && o !in names ==> Index(o) < |b| && b[Index(o)].size == 0
  {
  }
}
