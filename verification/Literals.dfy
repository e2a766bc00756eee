/** Variables, literals, lifted booleans and the meaning of clauses. */
module Literals {

  type Var = nat

  /** A literal is a variable together with a sign; a true sign means negated. */
  datatype Lit = Lit(v: Var, sign: bool)

  datatype LBool = LTrue | LFalse | LUndef

  datatype Option<+T> = None | Some(value: T)

  function Neg(p: Lit): Lit {
    Lit(p.v, !p.sign)
  }

  /** The compact integer encoding: variable doubled, plus one when negated. */
  function Code(p: Lit): nat {
    p.v + p.v + if p.sign then 1 else 0
  }

  function FromCode(x: nat): Lit {
    Lit(x / 2, x % 2 == 1)
  }

  /** The order on literals is the order on their codes. */
  predicate Below(p: Lit, q: Lit) {
    Code(p) < Code(q)
  }

  lemma CodeRoundTrip(p: Lit, x: nat)
    ensures FromCode(Code(p)) == p
    ensures Code(FromCode(x)) == x
  {
  }

  /** A literal and its negation are neighbours in the order: nothing lies strictly between. */
  lemma NegationAdjacent(p: Lit, q: Lit)
    requires Code(p) <= Code(q) <= Code(Neg(p)) || Code(Neg(p)) <= Code(q) <= Code(p)
    ensures q == p || q == Neg(p)
  {
  }

  // ---------- meaning ----------

  /** A total assignment, as the set of the variables that are true. */
  type Model = iset<Var>

  ghost predicate Holds(m: Model, p: Lit) {
    (p.v in m) != p.sign
  }

  ghost predicate Sat(m: Model, c: seq<Lit>) {
    exists p :: p in c && Holds(m, p)
  }

  ghost predicate SatAll(m: Model, cs: seq<seq<Lit>>) {
    forall c :: c in cs ==> Sat(m, c)
  }

  ghost predicate Unsat(cs: seq<seq<Lit>>) {
    forall m: Model :: !SatAll(m, cs)
  }

  ghost predicate Entails(cs: seq<seq<Lit>>, c: seq<Lit>) {
    forall m: Model :: SatAll(m, cs) ==> Sat(m, c)
  }

  ghost predicate NoDup<T>(s: seq<T>) {
    forall i, j :: 0 <= i < j < |s| ==> s[i] != s[j]
  }

  ghost predicate SameElements<T>(s: seq<T>, t: seq<T>) {
    (forall x :: x in s ==> x in t) && (forall x :: x in t ==> x in s)
  }

  lemma SatSameElements(m: Model, c: seq<Lit>, d: seq<Lit>)
    requires SameElements(c, d)
    ensures Sat(m, c) == Sat(m, d)
  {
  }

  lemma SatAllAppend(m: Model, cs: seq<seq<Lit>>, c: seq<Lit>)
    ensures SatAll(m, cs + [c]) <==> SatAll(m, cs) && Sat(m, c)
  {
  }
}
