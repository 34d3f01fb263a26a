/** Facts about sets and sequences that several components share. */
module Collections {
  function Elements<T(==)>(s: seq<T>): set<T> { set x <- s }

  lemma ElementsLast<T>(s: seq<T>)
    requires s != []
    ensures Elements(s) == Elements(s[..|s| - 1]) + {s[|s| - 1]}
  {
    assert s == s[..|s| - 1] + [s[|s| - 1]];
  }

  lemma SubsetSize<T>(a: set<T>, b: set<T>)
    requires a <= b
    ensures |a| <= |b|
  {
    assert b == a + (b - a);
  }

  /** A number beyond all that are used. */
  lemma {:induction false} Above(used: set<nat>) returns (t: nat)
    ensures forall u <- used :: u < t
    decreases |used|
  {
    t := 0;
    if used != {} {
      var u: nat :| u in used;
      var v := Above(used - {u});
      t := if v <= u then u + 1 else v;
      assert forall w <- used :: w == u || w in used - {u};
    }
  }
}
