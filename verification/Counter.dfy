/** The pre-image counters: bucket-wise, unguided and synchronised enumeration over the solver. */
module Counting {
  import opened Literals
  import opened Assignment
  import Meaning
  import opened Projection
  import opened Tallying
  import SatInterface

  class PICounter {
    const solver: SatInterface.MinisatInterface
    const inputs: seq<Var>
    const outputs: seq<Var>
    ghost const base: seq<seq<Lit>>
    ghost const vars: nat
    ghost var tally: Tally
    ghost var closedOutputs: set<Bits>
    ghost var names: seq<Bits>

    /** The formula's variables are decision variables; the labels come after them and are not. */
    ghost predicate InOrder()
      reads this, solver, solver.solver
    {
      && solver.Valid() && |solver.Decision()| == vars + |names| && Within(solver.Formula(), vars + |names|)
      && (forall v :: 0 <= v < vars ==> solver.Decision()[v])
      && Within(base, vars) && VarsBelow(inputs, vars) && VarsBelow(outputs, vars)
    }

    /** The clauses describe exactly what has not been counted yet. */
    ghost predicate Counting()
      reads this, solver, solver.solver
    {
      && InOrder() && Restricts(solver.Formula(), base, inputs, outputs, tally, closedOutputs, names, vars)
      && Genuine(base, inputs, outputs, tally) && ClosedOff(base, inputs, outputs, tally, closedOutputs)
    }

    /** The last model found has values for the variables of the formula. */
    ghost predicate ModelReady()
      reads solver
    {
      vars <= |solver.model| && forall v :: 0 <= v < vars ==> solver.model[v] != LUndef
    }

    ghost function Current(): Model
      reads solver
    {
      AsModel(solver.model)
    }

    constructor (solver: SatInterface.MinisatInterface, inputs: seq<Var>, outputs: seq<Var>)
      requires solver.Valid() && Within(solver.Formula(), |solver.Decision()|)
      requires forall v :: 0 <= v < |solver.Decision()| ==> solver.Decision()[v]
      requires VarsBelow(inputs, |solver.Decision()|) && VarsBelow(outputs, |solver.Decision()|)
      ensures Counting() && tally == map[] && closedOutputs == {} && names == []
      ensures this.solver == solver && base == solver.Formula() && this.inputs == inputs && this.outputs == outputs
    {
      this.solver, this.inputs, this.outputs := solver, inputs, outputs;
      base, vars, tally, closedOutputs, names := solver.Formula(), |solver.Decision()|, map[], {}, [];
    }

    // ---------- reading the model ----------

    /** The literals over some variables that the model makes true, in order; variables without a value are skipped. */
    method ProjectModel(variables: seq<Var>) returns (ret: seq<Lit>)
      requires VarsBelow(variables, |solver.model|)
      ensures forall p :: p in ret <==> p.v in variables && TrueLit(solver.model, p)
      ensures ModelReady() && VarsBelow(variables, vars) ==> ret == Fixing(variables, Value(Current(), variables))
    {
      ret := [];
      var i := 0;
      while i < |variables|
        invariant i <= |variables| && forall p :: p in ret <==> p.v in variables[..i] && TrueLit(solver.model, p)
        invariant ModelReady() && VarsBelow(variables, vars) ==>
                    |ret| == i && forall k :: 0 <= k < i ==> ret[k] == Lit(variables[k], variables[k] !in Current())
      {
        var a := solver.model[variables[i]];
        if a != LUndef {
          ret := ret + [Lit(variables[i], a == LFalse)];
        }
        i := i + 1;
      }
      assert variables[..|variables|] == variables;
    }

    /**
     The number that the model's values of some variables stand for, read from the highest bit: bit i is the value of
     variable i, and there are no further bits.
     */
    method Interpret(variables: seq<Var>) returns (value: nat)
      requires ModelReady() && VarsBelow(variables, vars)
      ensures value == Index(Value(Current(), variables)) && value < Pow2(|variables|)
      ensures forall i :: 0 <= i < |variables| ==> (BitAt(value, i) <==> solver.model[variables[i]] == LTrue)
    {
      hide BitAt, Pow2;
      ghost var x := Value(Current(), variables);
      value := 0;
      var i := |variables|;
      assert x[i..] == [];
      while i > 0
        invariant 0 <= i <= |variables| && value == Index(x[i..])
      {
        i := i - 1;
        assert x[i..][1..] == x[i + 1..] && x[i..][0] == x[i];
        var q := if solver.model[variables[i]] == LTrue then 1 else 0;
        value := 2 * value + q;
      }
      assert x[0..] == x;
      IndexBound(x);
      forall k | 0 <= k < |variables| ensures BitAt(value, k) <==> solver.model[variables[k]] == LTrue {
        IndexBits(x, k);
      }
    }

    static method NegateCube(cube: seq<Lit>) returns (clause: seq<Lit>)
      ensures |clause| == |cube| && forall i :: 0 <= i < |cube| ==> clause[i] == Neg(cube[i])
    {
      clause := [];
      var i := 0;
      while i < |cube|
        invariant i <= |cube| && |clause| == i && forall k :: 0 <= k < i ==> clause[k] == Neg(cube[k])
      {
        clause := clause + [Neg(cube[i])];
        i := i + 1;
      }
    }

    /** Add the clause that excludes the model's values of some variables. */
    method ProhibitProject(variables: seq<Var>)
      requires InOrder() && ModelReady() && VarsBelow(variables, vars)
      modifies solver.solver
      ensures InOrder() && solver.Decision() == old(solver.Decision())
      ensures solver.Formula() == old(solver.Formula()) + [Blocking(variables, Value(Current(), variables))]
    {
      hide solver.Valid;
      var clause := ProjectModel(variables);
      var nclause := NegateCube(clause);
      assert nclause == Blocking(variables, Value(Current(), variables));
      WithinMore(solver.Formula(), vars + |names|, nclause);
      solver.AddClause(nclause);
    }

    /** Ask for a model of what has not been counted. */
    method Ask(assumptions: seq<Lit>) returns (found: bool)
      requires Counting() && solver.Known(assumptions)
      requires |names| <= |assumptions| && forall i :: 0 <= i < |names| ==> assumptions[i].v == vars + i
      modifies solver, solver.solver
      ensures Counting() && solver.Formula() == old(solver.Formula())
      ensures found ==> ModelReady() && SatAll(Current(), solver.Formula()) && HoldAll(Current(), assumptions)
      ensures found ==> |solver.model| == vars + |names|
      ensures !found ==> solver.model == old(solver.model)
      ensures !found ==> forall m: Model :: SatAll(m, solver.Formula()) ==> !HoldAll(m, assumptions)
    {
      hide solver.Valid, Restricts, Genuine, ClosedOff;
      assert solver.Decidable(assumptions) by {
        forall p: Lit | Meaning.Mentions(solver.Formula(), p)
          ensures solver.Decision()[p.v] || exists i :: 0 <= i < |assumptions| && assumptions[i].v == p.v
        {
          if p.v >= vars {
            assert assumptions[p.v - vars].v == p.v;
          }
        }
      }
      found := solver.Solve(assumptions);
    }

    /** Count the input of the model found, under its output, and block it. */
    method CountModel()
      requires Counting() && ModelReady() && SatAll(Current(), solver.Formula())
      modifies solver.solver, `tally
      ensures Counting() && Value(Current(), inputs) !in old(tally)
      ensures tally == old(tally)[Value(Current(), inputs) := Value(Current(), outputs)]
      ensures |tally| == |old(tally)| + 1 <= Pow2(|inputs|)
    {
      hide solver.Valid, Restricts, Genuine, ClosedOff, Within;
      ghost var x, o := Value(Current(), inputs), Value(Current(), outputs);
      CountInput(solver.Formula(), base, inputs, outputs, tally, closedOutputs, names, vars, Current());
      ProhibitProject(inputs);
      assert tally[x := o].Keys == tally.Keys + {x};
      tally := tally[x := o];
      TallyBound(base, inputs, outputs, tally);
    }

    // ---------- unguided counting ----------

    /** Count one input, whatever its output; false means all have been counted. */
    method CountUnstructuredOne(buckets: seq<Bucket>) returns (buckets': seq<Bucket>, more: bool)
      requires Counting() && names == [] && Booked(buckets, |outputs|, tally)
      modifies solver, solver.solver, `tally
      ensures Counting() && Booked(buckets', |outputs|, tally)
      ensures more ==> |tally| == |old(tally)| + 1 <= Pow2(|inputs|) && old(tally).Keys < tally.Keys
      ensures !more ==> tally == old(tally) && buckets' == buckets && Exhausted(base, inputs, tally)
    {
      hide solver.Valid, Restricts, Genuine, ClosedOff, Within, Booked, Exhausted;
      buckets' := buckets;
      more := Ask([]);
      if more {
        var output := Interpret(outputs);
        ghost var t, x, o := tally, Value(Current(), inputs), Value(Current(), outputs);
        CountModel();
        BookedRange(buckets, |outputs|, t, o);
        BookOne(buckets, |outputs|, t, x, o, buckets[output].(size := buckets[output].size + 1));
        buckets' := buckets[output := buckets[output].(size := buckets[output].size + 1)];
      } else {
        NothingLeft(solver.Formula(), base, inputs, outputs, tally, closedOutputs, vars);
      }
    }

    /** Count until nothing is left; at most one round per valuation of the inputs. */
    method CountUnguided(buckets: seq<Bucket>) returns (buckets': seq<Bucket>)
      requires Counting() && names == [] && Booked(buckets, |outputs|, tally)
      modifies solver, solver.solver, `tally
      ensures Counting() && Booked(buckets', |outputs|, tally) && old(tally).Keys <= tally.Keys
      ensures Exhausted(base, inputs, tally)
      ensures Functional(base, inputs, outputs) ==> Histogram(base, inputs, outputs, buckets')
    {
      hide solver.Valid, Restricts, ClosedOff, Within, Booked, Exhausted, Functional, Histogram, Genuine;
      buckets' := buckets;
      var more := true;
      while more
        invariant Counting() && Booked(buckets', |outputs|, tally) && old(tally).Keys <= tally.Keys
        invariant !more ==> Exhausted(base, inputs, tally)
        decreases more, Pow2(|inputs|) - |tally|
      {
        buckets', more := CountUnstructuredOne(buckets');
      }
      BookedHistogram(base, inputs, outputs, tally, buckets');
    }

    // ---------- bucket-wise counting ----------

    /** Count the current model and all others with the same output, then close that output. */
    method CountOutput(previous: seq<Bucket>) returns (buckets: seq<Bucket>)
      requires Counting() && names == [] && Booked(previous, |outputs|, tally)
      requires ModelReady() && SatAll(Current(), solver.Formula())
      modifies solver, solver.solver, `tally, `closedOutputs
      ensures Counting() && Booked(buckets, |outputs|, tally) && |tally| > |old(tally)| && |tally| <= Pow2(|inputs|)
      ensures closedOutputs == old(closedOutputs) + {Value(old(Current()), outputs)}
    {
      hide solver.Valid, Restricts, Genuine, ClosedOff, Within, Booked;
      ghost var o := Value(Current(), outputs);
      var assum := ProjectModel(outputs);
      var k := Interpret(outputs);
      buckets := previous;
      var more := true;
      FixingMeaning(Current(), outputs, o);
      while more
        invariant Counting() && Booked(buckets, |outputs|, tally) && ModelReady() && Value(Current(), outputs) == o
        invariant closedOutputs == old(closedOutputs)
        invariant |tally| > |old(tally)| || (more && |tally| == |old(tally)|)
        invariant more ==> SatAll(Current(), solver.Formula())
        invariant !more ==> |tally| <= Pow2(|inputs|) && forall m: Model :: SatAll(m, solver.Formula()) ==> !HoldAll(m, assum)
        decreases more, Pow2(|inputs|) - |tally|
      {
        ghost var t, x := tally, Value(Current(), inputs);
        CountModel();
        BookedRange(buckets, |outputs|, t, o);
        BookOne(buckets, |outputs|, t, x, o, buckets[k].(size := buckets[k].size + 1));
        buckets := buckets[k := buckets[k].(size := buckets[k].size + 1)];
        more := Ask(assum);
        FixingMeaning(Current(), outputs, o);
      }
      CloseOutput(solver.Formula(), base, inputs, outputs, tally, closedOutputs, names, vars, o);
      ProhibitProject(outputs);
      closedOutputs := closedOutputs + {o};
    }

    /** Find an output that is not closed and count all its inputs; false means all inputs have been counted. */
    method CountOneBucket(previous: seq<Bucket>) returns (buckets: seq<Bucket>, more: bool)
      requires Counting() && names == [] && Booked(previous, |outputs|, tally)
      modifies solver, solver.solver, `tally, `closedOutputs
      ensures Counting() && Booked(buckets, |outputs|, tally)
      ensures more ==> |tally| > |old(tally)| && |tally| <= Pow2(|inputs|)
      ensures more ==> exists o :: closedOutputs == old(closedOutputs) + {o}
      ensures !more ==> tally == old(tally) && buckets == previous && Exhausted(base, inputs, tally)
    {
      hide solver.Valid, Restricts, Genuine, ClosedOff, Within, Booked, Exhausted;
      buckets := previous;
      more := Ask([]);
      if more {
        buckets := CountOutput(previous);
      } else {
        NothingLeft(solver.Formula(), base, inputs, outputs, tally, closedOutputs, vars);
      }
    }

    /** Count output after output until nothing is left. */
    method CountBucketAll() returns (buckets: seq<Bucket>)
      requires Counting() && names == [] && tally == map[] && |outputs| > 0
      modifies solver, solver.solver, `tally, `closedOutputs
      ensures Counting() && Booked(buckets, |outputs|, tally)
      ensures Exhausted(base, inputs, tally)
      ensures Functional(base, inputs, outputs) ==> Histogram(base, inputs, outputs, buckets)
    {
      hide solver.Valid, Restricts, Genuine, ClosedOff, Within, Booked, Exhausted, Functional, Histogram;
      buckets := seq(SpaceSize(|outputs|), _ => Bucket(0, false));
      BookNone(buckets, |outputs|);
      var more := true;
      while more
        invariant Counting() && Booked(buckets, |outputs|, tally)
        invariant !more ==> Exhausted(base, inputs, tally)
        decreases more, Pow2(|inputs|) - |tally|
      {
        buckets, more := CountOneBucket(buckets);
      }
      BookedHistogram(base, inputs, outputs, tally, buckets);
    }

    // ---------- synchronised counting ----------

    /** The labels as handed out: output number and variable. */
    ghost predicate LabelList(labels: seq<(nat, Var)>)
      reads this
    {
      |labels| == |names| && forall i :: 0 <= i < |labels| ==> labels[i] == (Index(names[i]), vars + i)
    }

    /** Introduce a label for an output found, with the clause that excludes the output while the label is true. */
    method AddLabel() returns (v: Var)
      requires Counting() && ModelReady()
      modifies solver.solver, `names
      ensures Counting() && names == old(names) + [Value(Current(), outputs)] && v == vars + |old(names)|
      ensures SatAll(Current(), old(solver.Formula())) && |solver.model| <= v ==> SatAll(Current(), solver.Formula())
    {
      hide solver.Valid, Restricts, Genuine, ClosedOff, Within;
      ghost var o := Value(Current(), outputs);
      var cube := ProjectModel(outputs);
      var clause := NegateCube(cube);
      assert clause == Blocking(outputs, o);
      v := solver.NewVariable(false);
      clause := clause + [Lit(v, true)];
      WithinGrows(solver.Formula(), vars + |names|);
      WithinMore(solver.Formula(), vars + |names| + 1, clause);
      LabelOutput(solver.Formula(), base, inputs, outputs, tally, closedOutputs, names, vars, o);
      SatAllAppend(Current(), solver.Formula(), clause);
      LabelFree(Current(), Blocking(outputs, o), v);
      solver.AddClause(clause);
      names := names + [o];
    }

    /** Label the output of the model found and count its input. */
    method LabelModel(assump: seq<Lit>, labels: seq<(nat, Var)>, buckets: seq<Bucket>)
      returns (assump': seq<Lit>, labels': seq<(nat, Var)>, buckets': seq<Bucket>)
      requires Counting() && ModelReady() && SatAll(Current(), solver.Formula()) && HoldAll(Current(), assump)
      requires |solver.model| == vars + |names| && closedOutputs == {} && LabelList(labels)
      requires LabelsAssumed(assump, |names|, vars, -1) && BookedSync(buckets, |outputs|, names, tally)
      modifies solver.solver, `tally, `names
      ensures Counting() && LabelList(labels') && BookedSync(buckets', |outputs|, names, tally)
      ensures LabelsAssumed(assump', |names|, vars, -1) && buckets' == buckets + [Bucket(1, false)]
      ensures |tally| == |old(tally)| + 1 <= Pow2(|inputs|)
    {
      hide solver.Valid, Restricts, Genuine, ClosedOff, Within, BookedSync;
      AssumedOutput(solver.Formula(), base, inputs, outputs, tally, closedOutputs, names, vars, assump, -1, Current());
      ghost var t, x, o := tally, Value(Current(), inputs), Value(Current(), outputs);
      ghost var before := names;
      var v := AddLabel();
      assump' := assump + [Lit(v, false)];
      var output := Interpret(outputs);
      buckets' := buckets + [Bucket(1, false)];
      CountModel();
      BookLabel(buckets, |outputs|, before, t, x, o);
      labels' := labels + [(output, v)];
    }

    /** Find all outputs that occur, each with a first input, and label them. */
    method PrepareSyncCounting() returns (labels: seq<(nat, Var)>, buckets: seq<Bucket>)
      requires Counting() && names == [] && tally == map[] && closedOutputs == {}
      modifies solver, solver.solver, `tally, `names
      ensures Counting() && LabelList(labels) && BookedSync(buckets, |outputs|, names, tally)
      ensures forall i :: 0 <= i < |buckets| ==> buckets[i] == Bucket(1, false)
      ensures AllNamed(base, inputs, outputs, tally, names)
    {
      hide solver.Valid, Restricts, Genuine, ClosedOff, Within, BookedSync, AllNamed;
      labels, buckets := [], [];
      var assump: seq<Lit> := [];
      var more := true;
      NoneBooked(|outputs|);
      while more
        invariant Counting() && closedOutputs == {} && LabelList(labels) && BookedSync(buckets, |outputs|, names, tally)
        invariant LabelsAssumed(assump, |names|, vars, -1)
        invariant forall i :: 0 <= i < |buckets| ==> buckets[i] == Bucket(1, false)
        invariant !more ==> AllNamed(base, inputs, outputs, tally, names)
        decreases more, Pow2(|inputs|) - |tally|
      {
        more := Ask(assump);
        if more {
          assump, labels, buckets := LabelModel(assump, labels, buckets);
        } else {
          NoneUnnamed(solver.Formula(), base, inputs, outputs, tally, names, vars, assump);
        }
      }
    }

    /** The assumptions that forbid every labelled output. */
    method ForbidAll(labels: seq<(nat, Var)>) returns (assumption: seq<Lit>)
      requires LabelList(labels)
      ensures LabelsAssumed(assumption, |names|, vars, -1)
    {
      assumption := [];
      var i := 0;
      while i < |labels|
        invariant i <= |labels| && |assumption| == i && forall k :: 0 <= k < i ==> assumption[k] == Lit(vars + k, false)
      {
        assumption := assumption + [Lit(labels[i].1, false)];
        i := i + 1;
      }
    }

    /** What holds of the labelled buckets between rounds. */
    ghost predicate InSync(buckets: seq<Bucket>)
      reads this, solver, solver.solver
    {
      && Counting() && closedOutputs == {} && BookedSync(buckets, |outputs|, names, tally)
      && AllNamed(base, inputs, outputs, tally, names) && ClosedDone(base, inputs, outputs, tally, names, buckets)
    }

    /** Enable one output: count one more of its inputs, or close its bucket. */
    method SyncOne(buckets: seq<Bucket>, assumption: seq<Lit>, i: nat) returns (buckets': seq<Bucket>, more: bool)
      requires InSync(buckets) && i < |buckets| && i < |names| && LabelsAssumed(assumption, |names|, vars, i)
      modifies solver, solver.solver, `tally
      ensures InSync(buckets') && |buckets'| == |buckets| && old(tally).Keys <= tally.Keys
      ensures forall k :: 0 <= k < |buckets| && k != i ==> buckets'[k] == buckets[k]
      ensures more ==> |tally| == |old(tally)| + 1 <= Pow2(|inputs|) && buckets'[i] == buckets[i].(size := buckets[i].size + 1)
      ensures !more ==> tally == old(tally) && buckets'[i] == buckets[i].(closed := true)
    {
      hide solver.Valid, Restricts, Genuine, ClosedOff, Within, BookedSync, AllNamed, ClosedDone;
      buckets' := buckets;
      more := Ask(assumption);
      if more {
        AssumedOutput(solver.Formula(), base, inputs, outputs, tally, closedOutputs, names, vars, assumption, i, Current());
        ghost var t, x := tally, Value(Current(), inputs);
        CountModel();
        BookSync(buckets, |outputs|, names, t, x, i, buckets[i].(size := buckets[i].size + 1));
        TallyGrows(base, inputs, outputs, t, names, buckets, x, names[i]);
        SameClosed(base, inputs, outputs, tally, names, buckets, i, buckets[i].(size := buckets[i].size + 1));
        buckets' := buckets[i := buckets[i].(size := buckets[i].size + 1)];
      } else {
        NoDupNames(buckets, |outputs|, names, tally);
        NoneForLabel(solver.Formula(), base, inputs, outputs, tally, names, vars, assumption, i);
        CloseSync(buckets, |outputs|, names, tally, i);
        CloseDone(base, inputs, outputs, tally, names, buckets, i);
        buckets' := buckets[i := buckets[i].(closed := true)];
      }
    }

    /** A bucket after one round: counted once more, or closed; closed ones stay. */
    static ghost predicate OneRound(before: Bucket, after: Bucket) {
      if before.closed then after == before else after == before.(size := before.size + 1) || after == before.(closed := true)
    }

    /** One round: count one more input for every output that still has one; false means all inputs have been counted. */
    method CountSync(labels: seq<(nat, Var)>, buckets: seq<Bucket>) returns (buckets': seq<Bucket>, oneOpen: bool)
      requires InSync(buckets) && LabelList(labels)
      modifies solver, solver.solver, `tally
      ensures InSync(buckets') && LabelList(labels) && |buckets'| == |buckets| && old(tally).Keys <= tally.Keys
      ensures oneOpen ==> |tally| > |old(tally)| && |tally| <= Pow2(|inputs|)
      ensures !oneOpen ==> tally == old(tally) && Exhausted(base, inputs, tally)
      ensures forall k :: 0 <= k < |buckets| ==> OneRound(buckets[k], buckets'[k])
    {
      hide solver.Valid, Restricts, Genuine, ClosedOff, Within, BookedSync, AllNamed, ClosedDone, Exhausted, Counting;
      oneOpen := false;
      var assumption := ForbidAll(labels);
      buckets' := buckets;
      SyncSizes(buckets, |outputs|, names, tally);
      var i := 0;
      while i < |labels|
        invariant i <= |labels| == |buckets'| == |buckets| == |names| && InSync(buckets') && LabelList(labels)
        invariant LabelsAssumed(assumption, |names|, vars, -1) && old(tally).Keys <= tally.Keys
        invariant if oneOpen then |old(tally)| < |tally| <= Pow2(|inputs|) else tally == old(tally)
        invariant !oneOpen ==> forall k :: 0 <= k < i ==> buckets'[k].closed
        invariant forall k :: 0 <= k < i ==> OneRound(buckets[k], buckets'[k])
        invariant forall k :: i <= k < |buckets| ==> buckets'[k] == buckets[k]
      {
        if !buckets'[i].closed {
          assumption := assumption[i := Neg(assumption[i])];
          var more;
          buckets', more := SyncOne(buckets', assumption, i);
          oneOpen := oneOpen || more;
          assumption := assumption[i := Neg(assumption[i])];
        }
        i := i + 1;
      }
      if !oneOpen {
        AllClosed(base, inputs, outputs, tally, names, buckets');
      }
    }

    /** Round after round until every bucket is closed; at most one round per valuation of the inputs. */
    method CountAllSync() returns (labels: seq<(nat, Var)>, buckets: seq<Bucket>)
      requires Counting() && names == [] && tally == map[] && closedOutputs == {}
      modifies solver, solver.solver, `tally, `names
      ensures Counting() && LabelList(labels) && BookedSync(buckets, |outputs|, names, tally)
      ensures Exhausted(base, inputs, tally)
      ensures Functional(base, inputs, outputs) ==> HistogramSync(base, inputs, outputs, names, buckets)
    {
      hide solver.Valid, Restricts, Genuine, ClosedOff, Within, BookedSync, AllNamed, ClosedDone, Exhausted, HistogramSync, Functional, Counting;
      labels, buckets := PrepareSyncCounting();
      NoneClosed(base, inputs, outputs, tally, names, buckets, |outputs|);
      var more := true;
      while more
        invariant InSync(buckets) && LabelList(labels)
        invariant !more ==> Exhausted(base, inputs, tally)
        decreases more, Pow2(|inputs|) - |tally|
      {
        buckets, more := CountSync(labels, buckets);
      }
      SyncHistogram(buckets);
    }

    lemma SyncHistogram(buckets: seq<Bucket>)
      requires InSync(buckets) && Exhausted(base, inputs, tally)
      ensures Functional(base, inputs, outputs) ==> HistogramSync(base, inputs, outputs, names, buckets)
    {
      hide solver.Valid, Restricts;
      BookedSyncHistogram(base, inputs, outputs, tally, names, buckets);
    }
  }
}
