/** The attempts to eliminate variables: what became of each variable taken from the order. */
module Attempts {
  import opened Literals
  import opened Assignment
  import opened History

  /** v was taken when ca, values and eliminated were as given; after says which variables are eliminated afterwards. */
  datatype Take = Take(v: Var, ca: seq<Clause>, values: seq<LBool>, frozen: seq<bool>, pos: seq<CRef>, neg: seq<CRef>,
                       before: seq<bool>, after: seq<bool>)

  /** It is eliminated exactly if it is free to be, and there are not too many resolvents and none is too long. */
  ghost predicate TakeOk(t: Take, grow: int, clauseLim: int) {
    && t.v < |t.before| && t.v < |t.values| && t.v < |t.frozen|
    && if t.before[t.v] || t.values[t.v] != LUndef || t.frozen[t.v] then t.after == t.before
       else
         && Lists(t.ca, t.pos, Lit(t.v, false)) && Lists(t.ca, t.neg, Lit(t.v, true))
         && if Fits(LitsOf(t.ca, t.pos), LitsOf(t.ca, t.neg), t.v, |t.pos| + |t.neg| + grow, clauseLim) then t.after == t.before[t.v := true]
            else t.after == t.before
  }

  /** A sequence of attempts, and what they eliminated together. */
  ghost predicate TakesOk(takes: seq<Take>, grow: int, clauseLim: int, before: seq<bool>, after: seq<bool>) {
    && (forall i :: 0 <= i < |takes| ==> TakeOk(takes[i], grow, clauseLim))
    && (forall i :: 0 < i < |takes| ==> takes[i].before == takes[i - 1].after)
    && (if takes == [] then after == before else takes[0].before == before && takes[|takes| - 1].after == after)
  }

  ghost function Taken(takes: seq<Take>): set<Var> {
    set i | 0 <= i < |takes| :: takes[i].v
  }

  /** A variable that is not free is passed over. */
  lemma TakeSkipped(t: Take, grow: int, clauseLim: int)
    requires t.v < |t.before| && t.v < |t.values| && t.v < |t.frozen|
    requires t.before[t.v] || t.values[t.v] != LUndef || t.frozen[t.v]
    requires t.after == t.before
    ensures TakeOk(t, grow, clauseLim)
  {
  }

  lemma TakeTried(t: Take, grow: int, clauseLim: int)
    requires t.v < |t.before| && t.v < |t.values| && t.v < |t.frozen|
    requires !t.before[t.v] && t.values[t.v] == LUndef && !t.frozen[t.v]
    requires Lists(t.ca, t.pos, Lit(t.v, false)) && Lists(t.ca, t.neg, Lit(t.v, true))
    requires if Fits(LitsOf(t.ca, t.pos), LitsOf(t.ca, t.neg), t.v, |t.pos| + |t.neg| + grow, clauseLim) then t.after == t.before[t.v := true]
             else t.after == t.before
    ensures TakeOk(t, grow, clauseLim)
  {
  }

  lemma NothingTaken(grow: int, clauseLim: int, e: seq<bool>)
    ensures TakesOk([], grow, clauseLim, e, e) && Taken([]) == {}
  {
  }

  lemma TakenOne(takes: seq<Take>, grow: int, clauseLim: int, before: seq<bool>, t: Take)
    requires TakesOk(takes, grow, clauseLim, before, t.before) && TakeOk(t, grow, clauseLim)
    ensures TakesOk(takes + [t], grow, clauseLim, before, t.after) && Taken(takes + [t]) == Taken(takes) + {t.v}
  {
    hide TakeOk;
    TakenTogether(takes, [t]);
  }

  lemma TakenTogether(s: seq<Take>, t: seq<Take>)
    ensures Taken(s + t) == Taken(s) + Taken(t)
  {
    forall v | v in Taken(s) + Taken(t) ensures v in Taken(s + t) {
      if v in Taken(s) {
        var i :| 0 <= i < |s| && s[i].v == v;
        assert (s + t)[i].v == v;
      } else {
        var i :| 0 <= i < |t| && t[i].v == v;
        assert (s + t)[|s| + i].v == v;
      }
    }
    forall v | v in Taken(s + t) ensures v in Taken(s) + Taken(t) {
      var i :| 0 <= i < |s + t| && (s + t)[i].v == v;
      assert if i < |s| then s[i].v == v else t[i - |s|].v == v;
    }
  }

  lemma TakenMore(s: seq<Take>, t: seq<Take>, grow: int, clauseLim: int, e: seq<bool>, f: seq<bool>, g: seq<bool>)
    requires TakesOk(s, grow, clauseLim, e, f) && TakesOk(t, grow, clauseLim, f, g)
    ensures TakesOk(s + t, grow, clauseLim, e, g) && Taken(s + t) == Taken(s) + Taken(t)
  {
    hide TakeOk;
    TakenTogether(s, t);
    assert s == [] ==> s + t == t;
    assert t == [] ==> s + t == s;
  }

  /** Whatever is eliminated in the end was eliminated in one of the attempts, when it was free and the resolvents fitted. */
  lemma {:induction false} EliminatedWhen(takes: seq<Take>, grow: int, clauseLim: int, before: seq<bool>, after: seq<bool>, v: Var) returns (i: nat)
    requires TakesOk(takes, grow, clauseLim, before, after) && v < |before| && v < |after| && !before[v] && after[v]
    ensures i < |takes| && takes[i].v == v && !takes[i].frozen[v] && takes[i].values[v] == LUndef
    ensures Lists(takes[i].ca, takes[i].pos, Lit(v, false)) && Lists(takes[i].ca, takes[i].neg, Lit(v, true))
    ensures Fits(LitsOf(takes[i].ca, takes[i].pos), LitsOf(takes[i].ca, takes[i].neg), v, |takes[i].pos| + |takes[i].neg| + grow, clauseLim)
  {
    hide Fits;
    var last := |takes| - 1;
    var t := takes[last];
    assert TakeOk(t, grow, clauseLim);
    if t.before[v] {
      assert last > 0 && TakesOk(takes[..last], grow, clauseLim, before, t.before) by {
        assert last == 0 ==> t.before == before;
        assert forall k :: 0 <= k < last ==> takes[..last][k] == takes[k];
      }
      i := EliminatedWhen(takes[..last], grow, clauseLim, before, t.before, v);
    } else {
      i := last;
    }
  }
}
