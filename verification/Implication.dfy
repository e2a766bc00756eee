/** The implication graph: which variables led to the value of a variable, through the reasons recorded on the trail. */
module Implication {
  import opened Literals
  import opened Assignment

  /** The predecessors of each variable in a derivation. */
  type Graph = Var -> set<Var>

  ghost predicate Path(g: Graph, path: seq<Var>) {
    path != [] && forall i :: 0 <= i < |path| - 1 ==> path[i + 1] in g(path[i])
  }

  /** w is reached from v by going backwards. */
  ghost predicate Reaches(g: Graph, v: Var, w: Var) {
    exists path :: Path(g, path) && path[0] == v && path[|path| - 1] == w
  }

  lemma ReachesSelf(g: Graph, v: Var)
    ensures Reaches(g, v, v)
  {
    assert Path(g, [v]) && [v][0] == v;
  }

  lemma ReachesStep(g: Graph, v: Var, w: Var, u: Var)
    requires Reaches(g, v, w) && u in g(w)
    ensures Reaches(g, v, u)
  {
    var path :| Path(g, path) && path[0] == v && path[|path| - 1] == w;
    assert Path(g, path + [u]) && (path + [u])[0] == v;
  }

  ghost predicate ClosedUnder(g: Graph, s: set<Var>) {
    forall v :: v in s ==> g(v) <= s
  }

  lemma {:induction false} PathInside(g: Graph, s: set<Var>, path: seq<Var>, k: nat)
    requires ClosedUnder(g, s) && Path(g, path) && path[0] in s && k < |path|
    ensures path[k] in s
  {
    if k > 0 {
      PathInside(g, s, path, k - 1);
    }
  }

  /** A closed set contains everything that its members reach. */
  lemma ReachesInside(g: Graph, s: set<Var>, v: Var, w: Var)
    requires ClosedUnder(g, s) && v in s && Reaches(g, v, w)
    ensures w in s
  {
    var path :| Path(g, path) && path[0] == v && path[|path| - 1] == w;
    PathInside(g, s, path, |path| - 1);
  }

  // ---------- reasons ----------

  ghost predicate HasReason(a: Asg, ca: seq<Clause>, v: Var) {
    v < |a.reason| && a.reason[v].Some? && a.reason[v].value < |ca|
  }

  /** The variables above level 0 of the other literals of a clause. */
  ghost function OtherVars(a: Asg, lits: seq<Lit>, from: nat): set<Var> {
    set k | from <= k < |lits| && lits[k].v < |a.level| && a.level[lits[k].v] > 0 :: lits[k].v
  }

  /** The variables above level 0 that imply the value of v. */
  ghost function ReasonVars(a: Asg, ca: seq<Clause>, v: Var): set<Var> {
    if HasReason(a, ca, v) then OtherVars(a, ca[a.reason[v].value].lits, 1) else {}
  }

  ghost function Implications(a: Asg, ca: seq<Clause>): Graph {
    v => ReasonVars(a, ca, v)
  }

  lemma ReasonBefore(a: Asg, ca: seq<Clause>, v: Var, w: Var)
    requires TrailInv(a) && ReasonInv(a, ca) && IsSet(a, v) && w in ReasonVars(a, ca, v)
    ensures IsSet(a, w) && a.level[w] > 0 && a.pos[w] < a.pos[v]
  {
    var r := a.reason[v].value;
    assert ReasonOk(a, ca, r, a.trail[a.pos[v]]);
    var k :| 1 <= k < |ca[r].lits| && ca[r].lits[k].v == w;
    assert IsFalse(a, ca[r].lits[k]);
  }
}
