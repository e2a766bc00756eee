/** Facts about sets and multisets. */
module Collections {
  import Literals

  lemma {:induction false} SubsetSize<T>(s: set<T>, t: set<T>)
    requires s <= t
    ensures |s| <= |t|
    decreases |s|
  {
    if s != {} {
      var x :| x in s;
      SubsetSize(s - {x}, t - {x});
    }
  }

  lemma {:induction false} OnceInMultiset<T>(s: seq<T>, x: T)
    requires Literals.NoDup(s)
    ensures multiset(s)[x] <= 1
  {
    if s != [] {
      var init, last := s[..|s| - 1], s[|s| - 1];
      OnceInMultiset(init, x);
      assert s == init + [last];
      assert x == last ==> x !in init;
    }
  }
}
