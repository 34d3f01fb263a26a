/**
 Permission closure: the worklist that adds every implied permission, what its result means,
 and the decision it feeds.  The theorems hold for every implication table, also a cyclic one.
 */
module Permissions {
  import opened Collections
  import opened Options

  type Key = nat

  /** Implications by key, and the catalogue whose order is the order of the result. */
  datatype Catalogue = Catalogue(order: seq<Key>, implied: map<Key, seq<Key>>)

  function Implied(c: Catalogue, k: Key): seq<Key> { if k in c.implied then c.implied[k] else [] }

  // ---------------------------------------------------------------- closure

  ghost predicate Closed(c: Catalogue, s: set<Key>) { forall k <- s, q <- Implied(c, k) :: q in s }

  /** The least closed superset. */
  ghost predicate Closure(c: Catalogue, base: set<Key>, s: set<Key>) {
    base <= s && Closed(c, s) && forall t: set<Key> | Closed(c, t) && base <= t :: s <= t
  }

  function Mentioned(c: Catalogue): set<Key> {
    set k <- c.implied.Keys, q <- c.implied[k] :: q
  }

  /** Every state of the worklist: what was seen stays inside every closed superset, and what is
      implied by it has been seen or is queued. */
  ghost predicate Working(c: Catalogue, base: set<Key>, seen: set<Key>, queue: seq<Key>) {
    base <= seen + Elements(queue)
    && (forall k <- seen, q <- Implied(c, k) :: q in seen || q in queue)
    && (forall t: set<Key> | Closed(c, t) && base <= t :: seen + Elements(queue) <= t)
    && seen + Elements(queue) <= base + Mentioned(c)
  }

  /** Terminates for every table, since a key is expanded only once. */
  method Expand(c: Catalogue, permissions: seq<Key>) returns (seen: set<Key>)
    ensures Closure(c, Elements(permissions), seen)
  {
    seen := {};
    var queue := permissions;
    ghost var universe := Elements(permissions) + Mentioned(c);
    while queue != []
      invariant Working(c, Elements(permissions), seen, queue)
      decreases |universe - seen|, |queue|
    {
      var k := queue[0];
      assert queue == [k] + queue[1..];
      assert k in Elements(queue);
      if k in seen {
        SkipStep(c, Elements(permissions), seen, queue);
        queue := queue[1..];
      } else {
        ExpandStep(c, Elements(permissions), seen, queue);
        FewerLeft(universe, seen, k);
        seen := seen + {k};
        queue := queue[1..] + Implied(c, k);
      }
    }
  }

  lemma SkipStep(c: Catalogue, base: set<Key>, seen: set<Key>, queue: seq<Key>)
    requires Working(c, base, seen, queue) && queue != [] && queue[0] in seen
    ensures Working(c, base, seen, queue[1..])
  {
    assert Elements(queue) == {queue[0]} + Elements(queue[1..]) by { assert queue == [queue[0]] + queue[1..]; }
    forall k <- seen, q <- Implied(c, k) ensures q in seen || q in queue[1..] {
      assert q in seen || q in Elements(queue);
    }
  }

  lemma ExpandStep(c: Catalogue, base: set<Key>, seen: set<Key>, queue: seq<Key>)
    requires Working(c, base, seen, queue) && queue != []
    ensures Working(c, base, seen + {queue[0]}, queue[1..] + Implied(c, queue[0]))
  {
    var k := queue[0];
    var more := Implied(c, k);
    assert Elements(queue) == {k} + Elements(queue[1..]) by { assert queue == [k] + queue[1..]; }
    assert Elements(queue[1..] + more) == Elements(queue[1..]) + Elements(more);
    assert Elements(more) <= Mentioned(c);
    assert forall q <- more :: q in queue[1..] + more;
    assert forall q <- queue[1..] :: q in queue[1..] + more;
    forall p <- seen, q <- Implied(c, p) ensures q in seen + {k} || q in queue[1..] + more {
      assert q in seen || q in Elements(queue);
    }
  }

  lemma FewerLeft(universe: set<Key>, seen: set<Key>, k: Key)
    requires k in universe && k !in seen
    ensures |universe - (seen + {k})| < |universe - seen|
  {
    assert universe - seen == (universe - (seen + {k})) + {k};
  }

  // ---------------------------------------------------------------- laws of closure

  /** The least closed superset is unique, so the result depends on the set of inputs only: not on
      their order nor on duplicates. */
  lemma ClosureUnique(c: Catalogue, base: set<Key>, s: set<Key>, t: set<Key>)
    requires Closure(c, base, s) && Closure(c, base, t)
    ensures s == t
  {
  }

  lemma ClosureIdempotent(c: Catalogue, base: set<Key>, s: set<Key>)
    requires Closure(c, base, s)
    ensures Closure(c, s, s)
  {
  }

  lemma ClosureMonotone(c: Catalogue, a: set<Key>, b: set<Key>, s: set<Key>, t: set<Key>)
    requires a <= b && Closure(c, a, s) && Closure(c, b, t)
    ensures s <= t
  {
    assert a <= t;
  }

  /** The closure of a union of roles is the union of their closures: expanding per role and
      expanding together agree. */
  lemma ClosureDistributes(c: Catalogue, a: set<Key>, b: set<Key>, s: set<Key>, t: set<Key>)
    requires Closure(c, a, s) && Closure(c, b, t)
    ensures Closure(c, a + b, s + t)
  {
    forall u: set<Key> | Closed(c, u) && a + b <= u ensures s + t <= u {
      assert a <= a + b && b <= a + b;
    }
  }

  /** A chain of implications. */
  ghost predicate Path(c: Catalogue, p: seq<Key>) {
    p != [] && forall i, j :: 0 <= i && j == i + 1 < |p| ==> p[j] in Implied(c, p[i])
  }

  ghost predicate Reaches(c: Catalogue, from: Key, to: Key) {
    exists p: seq<Key> :: PathTo(c, p, from, to)
  }

  ghost predicate PathTo(c: Catalogue, p: seq<Key>, from: Key, to: Key) { Path(c, p) && p != [] && p[0] == from && p[|p| - 1] == to }

  lemma {:induction false} PathStaysInside(c: Catalogue, p: seq<Key>, s: set<Key>, i: nat)
    requires Path(c, p) && Closed(c, s) && p[0] in s && i < |p|
    ensures p[i] in s
  {
    if i > 0 {
      PathStaysInside(c, p, s, i - 1);
    }
  }

  ghost function ReachedFrom(c: Catalogue, base: set<Key>, universe: set<Key>): set<Key> {
    set q <- universe | exists k <- base :: Reaches(c, k, q)
  }

  /** The table lists `q` among the direct implications of `k`. */
  ghost predicate Lists(c: Catalogue, k: Key, q: Key) { k in c.implied && q in c.implied[k] }

  /** Each key of the chain has the next one among the implications the table lists for it. */
  ghost predicate Chain(c: Catalogue, p: seq<Key>) {
    p != [] && forall i, j :: 0 <= i && j == i + 1 < |p| ==> Lists(c, p[i], p[j])
  }

  lemma ListedIff(c: Catalogue, k: Key, q: Key)
    ensures Lists(c, k, q) <==> q in Implied(c, k)
  {
  }

  lemma ChainIsPath(c: Catalogue, p: seq<Key>)
    ensures Chain(c, p) <==> Path(c, p)
  {
    hide Lists, Implied;
    forall i, j | 0 <= i && j == i + 1 < |p| ensures Lists(c, p[i], p[j]) <==> p[j] in Implied(c, p[i]) {
      ListedIff(c, p[i], p[j]);
    }
  }

  /** The closure is exactly what some input reaches through implications. */
  lemma ClosureIsReachability(c: Catalogue, base: set<Key>, s: set<Key>, q: Key)
    requires Closure(c, base, s)
    ensures q in s <==> exists k <- base :: Reaches(c, k, q)
    ensures q in s <==> exists p: seq<Key> :: Chain(c, p) && p != [] && p[0] in base && p[|p| - 1] == q
  {
    hide Path, Chain, Closed;
    InputsReach(c, base, s, q);
    if p: seq<Key> :| Chain(c, p) && p != [] && p[0] in base && p[|p| - 1] == q {
      ChainIsPath(c, p);
      assert PathTo(c, p, p[0], q);
      assert Reaches(c, p[0], q);
    }
    if q in s {
      var k :| k in base && Reaches(c, k, q);
      var p: seq<Key> :| PathTo(c, p, k, q);
      ChainIsPath(c, p);
      assert Chain(c, p) && p != [] && p[0] in base && p[|p| - 1] == q;
    }
  }

  lemma InputsReach(c: Catalogue, base: set<Key>, s: set<Key>, q: Key)
    requires Closure(c, base, s)
    ensures q in s <==> exists k <- base :: Reaches(c, k, q)
  {
    if exists k <- base :: Reaches(c, k, q) {
      var k :| k in base && Reaches(c, k, q);
      var p: seq<Key> :| PathTo(c, p, k, q);
      PathStaysInside(c, p, s, |p| - 1);
    }
    if q in s {
      ReachedIsClosed(c, base, s);
      assert s <= ReachedFrom(c, base, s);
    }
  }

  lemma PathExtends(c: Catalogue, p: seq<Key>, from: Key, k: Key, q: Key)
    requires PathTo(c, p, from, k) && q in Implied(c, k)
    ensures PathTo(c, p + [q], from, q)
  {
    hide Implied;
    var longer := p + [q];
    forall i, j | 0 <= i && j == i + 1 < |longer| ensures longer[j] in Implied(c, longer[i]) {
      assert longer[i] == p[i];
      if j < |p| {
        assert longer[j] == p[j];
      }
    }
  }

  lemma ReachedIsClosed(c: Catalogue, base: set<Key>, s: set<Key>)
    requires base <= s && Closed(c, s)
    ensures Closed(c, ReachedFrom(c, base, s)) && base <= ReachedFrom(c, base, s)
  {
    hide PathTo, Implied;
    var r := ReachedFrom(c, base, s);
    forall k <- base ensures k in r {
      ReachesItself(c, k);
    }
    forall k <- r, q <- Implied(c, k) ensures q in r {
      var b: Key :| b in base && Reaches(c, b, k);
      var p: seq<Key> :| PathTo(c, p, b, k);
      PathExtends(c, p, b, k, q);
      assert Reaches(c, b, q);
    }
  }

  lemma ReachesItself(c: Catalogue, k: Key)
    ensures Reaches(c, k, k)
  {
    assert PathTo(c, [k], k, k);
  }

  // ---------------------------------------------------------------- catalogue order

  /** Position in the catalogue; keys outside it have none. */
  function Rank(order: seq<Key>, k: Key): Option<nat> {
    if order == [] then None
    else if order[|order| - 1] == k then Some(|order| - 1)
    else Rank(order[..|order| - 1], k)
  }

  lemma {:induction false} RankMeans(order: seq<Key>, k: Key)
    ensures Rank(order, k).Some? <==> k in order
    ensures Rank(order, k).Some? ==> Rank(order, k).value < |order| && order[Rank(order, k).value] == k
  {
    if order != [] {
      RankMeans(order[..|order| - 1], k);
    }
  }

  /** Known keys first and in catalogue order, unknown ones after them by key. */
  predicate Before(order: seq<Key>, a: Key, b: Key) {
    match (Rank(order, a), Rank(order, b))
    case (Some(x), Some(y)) => x < y
    case (Some(_), None) => true
    case (None, Some(_)) => false
    case (None, None) => a < b
  }

  lemma BeforeIsTotal(order: seq<Key>, a: Key, b: Key, c: Key)
    ensures !Before(order, a, a) && (a == b || Before(order, a, b) || Before(order, b, a))
    ensures Before(order, a, b) && Before(order, b, c) ==> Before(order, a, c)
  {
    RankMeans(order, a);
    RankMeans(order, b);
    RankMeans(order, c);
  }

  ghost predicate Ordered(order: seq<Key>, s: seq<Key>) { forall i, j :: 0 <= i < j < |s| ==> Before(order, s[i], s[j]) }

  /** The result lists the closure once, in catalogue order. */
  method ExpandPermissions(c: Catalogue, permissions: seq<Key>) returns (result: seq<Key>)
    ensures Closure(c, Elements(permissions), Elements(result)) && Ordered(c.order, result)
  {
    var effective := Expand(c, permissions);
    result := Sorted(c.order, effective);
  }

  /** Repeatedly takes the first of the rest. */
  method Sorted(order: seq<Key>, keys: set<Key>) returns (result: seq<Key>)
    ensures Elements(result) == keys && Ordered(order, result)
  {
    hide Before, Ordered;
    result := [];
    var rest := keys;
    EmptyOrdered(order);
    while rest != {}
      invariant Elements(result) + rest == keys && Elements(result) !! rest && Ordered(order, result)
      invariant forall i, k :: 0 <= i < |result| && k in rest ==> Before(order, result[i], k)
      decreases |rest|
    {
      var k := Least(order, rest);
      Appended(order, result, k);
      result := result + [k];
      rest := rest - {k};
    }
  }

  lemma EmptyOrdered(order: seq<Key>)
    ensures Ordered(order, [])
  {
  }

  lemma Appended(order: seq<Key>, s: seq<Key>, k: Key)
    requires Ordered(order, s) && forall i :: 0 <= i < |s| ==> Before(order, s[i], k)
    ensures Ordered(order, s + [k]) && Elements(s + [k]) == Elements(s) + {k}
  {
  }

  method Least(order: seq<Key>, keys: set<Key>) returns (k: Key)
    requires keys != {}
    ensures k in keys && forall q <- keys :: q == k || Before(order, k, q)
  {
    k :| k in keys;
    var rest := keys - {k};
    while rest != {}
      invariant k in keys && rest <= keys
      invariant forall q <- keys - rest :: q == k || Before(order, k, q)
      decreases |rest|
    {
      var q: Key :| q in rest;
      forall x: Key ensures (k == q || Before(order, k, q) || Before(order, q, k)) && (Before(order, q, k) && Before(order, k, x) ==> Before(order, q, x)) {
        BeforeIsTotal(order, k, q, x);
        BeforeIsTotal(order, q, k, x);
      }
      if Before(order, q, k) {
        k := q;
      }
      rest := rest - {q};
    }
  }

  /** Sorted lists of the same keys are equal: the result is a function of the input set. */
  lemma {:induction false} OrderedUnique(order: seq<Key>, s: seq<Key>, t: seq<Key>)
    requires Ordered(order, s) && Ordered(order, t) && Elements(s) == Elements(t)
    ensures s == t
  {
    hide Before;
    if s == [] {
      NonEmpty(t);
    } else {
      var n := |s| - 1;
      assert s[n] in Elements(t);
      assert t != [];
      var m := |t| - 1;
      assert t[m] in Elements(s);
      LastAgrees(order, s, t);
      ElementsLast(s);
      ElementsLast(t);
      LastOnlyOnce(order, s);
      LastOnlyOnce(order, t);
      assert Elements(s[..n]) == Elements(s) - {s[n]} && Elements(t[..m]) == Elements(t) - {t[m]};
      OrderedUnique(order, s[..n], t[..m]);
      assert s == s[..n] + [s[n]] && t == t[..m] + [t[m]];
    }
  }

  lemma NonEmpty(s: seq<Key>)
    ensures s != [] ==> s[0] in Elements(s)
  {
  }

  lemma LastOnlyOnce(order: seq<Key>, s: seq<Key>)
    requires Ordered(order, s) && s != []
    ensures s[|s| - 1] !in Elements(s[..|s| - 1])
  {
    BeforeIsTotal(order, s[|s| - 1], s[|s| - 1], s[|s| - 1]);
  }

  lemma LastAgrees(order: seq<Key>, s: seq<Key>, t: seq<Key>)
    requires Ordered(order, s) && Ordered(order, t) && Elements(s) == Elements(t) && s != [] && t != []
    ensures s[|s| - 1] == t[|t| - 1]
  {
    var x, y := s[|s| - 1], t[|t| - 1];
    assert x in Elements(t) && y in Elements(s);
    assert x == y || Before(order, x, y);
    assert y == x || Before(order, y, x);
    BeforeIsTotal(order, x, y, x);
  }

  /** Expanding the same permissions in any order and with any repetitions gives the same list. */
  lemma ResultDetermined(c: Catalogue, a: seq<Key>, b: seq<Key>, r: seq<Key>, q: seq<Key>)
    requires Elements(a) == Elements(b)
    requires Closure(c, Elements(a), Elements(r)) && Ordered(c.order, r)
    requires Closure(c, Elements(b), Elements(q)) && Ordered(c.order, q)
    ensures r == q
  {
    ClosureUnique(c, Elements(a), Elements(r), Elements(q));
    OrderedUnique(c.order, r, q);
  }

  // ---------------------------------------------------------------- decisions

  datatype Scope = GroupScope | CategoryScope(category: nat) | ProductScope(product: nat)
  datatype Grant = Grant(permission: Key, scope: Scope)
  datatype Resource = Resource(category: Option<nat>, product: Option<nat>)

  predicate Covers(s: Scope, r: Resource) {
    match s
    case GroupScope => true
    case CategoryScope(c) => r.category == Some(c)
    case ProductScope(p) => r.product == Some(p)
  }

  function AtScope(direct: seq<Grant>, s: Scope): seq<Key> {
    if direct == [] then []
    else
      var before := AtScope(direct[..|direct| - 1], s);
      if direct[|direct| - 1].scope == s then before + [direct[|direct| - 1].permission] else before
  }

  lemma {:induction false} AtScopeMeans(direct: seq<Grant>, s: Scope, k: Key)
    ensures k in AtScope(direct, s) <==> Grant(k, s) in direct
  {
    if direct != [] {
      AtScopeMeans(direct[..|direct| - 1], s, k);
      assert direct == direct[..|direct| - 1] + [direct[|direct| - 1]];
    }
  }

  ghost predicate Derives(c: Catalogue, direct: seq<Grant>, g: Grant) {
    exists k: Key :: Grant(k, g.scope) in direct && Reaches(c, k, g.permission)
  }

  /** All roles' grants, expanded scope by scope. */
  method EffectiveGrants(c: Catalogue, direct: seq<Grant>) returns (grants: set<Grant>)
    ensures forall g: Grant :: g in grants <==> Derives(c, direct, g)
  {
    grants := {};
    var scopes := set g <- direct :: g.scope;
    ghost var all := scopes;
    while scopes != {}
      invariant scopes <= all
      invariant forall g: Grant :: g in grants <==> g.scope in all - scopes && Derives(c, direct, g)
      decreases |scopes|
    {
      var s: Scope :| s in scopes;
      var expanded := Expand(c, AtScope(direct, s));
      forall k: Key ensures k in expanded <==> Derives(c, direct, Grant(k, s)) {
        ClosureIsReachability(c, Elements(AtScope(direct, s)), expanded, k);
        forall p: Key ensures p in Elements(AtScope(direct, s)) <==> Grant(p, s) in direct {
          AtScopeMeans(direct, s, p);
        }
      }
      grants := grants + set k <- expanded :: Grant(k, s);
      scopes := scopes - {s};
    }
    forall g: Grant | Derives(c, direct, g) ensures g.scope in all {
      var k: Key :| Grant(k, g.scope) in direct && Reaches(c, k, g.permission);
    }
  }

  /** Some direct grant of this very scope reaches the permission. */
  ghost predicate Derived(c: Catalogue, direct: seq<Grant>, permission: Key, scope: Scope) {
    exists g <- direct :: g.scope == scope && Reaches(c, g.permission, permission)
  }

  lemma DerivedMeans(c: Catalogue, direct: seq<Grant>, permission: Key, scope: Scope)
    ensures Derived(c, direct, permission, scope) <==> Derives(c, direct, Grant(permission, scope))
  {
    if Derives(c, direct, Grant(permission, scope)) {
      var k: Key :| Grant(k, scope) in direct && Reaches(c, k, permission);
      assert Grant(k, scope) in direct;
    }
    if Derived(c, direct, permission, scope) {
      var g :| g in direct && g.scope == scope && Reaches(c, g.permission, permission);
      assert Grant(g.permission, scope) == g;
    }
  }

  lemma CoveringScopes(c: Catalogue, direct: seq<Grant>, permission: Key, r: Resource)
    ensures (exists s: Scope :: Covers(s, r) && Derives(c, direct, Grant(permission, s)))
            <==> Derived(c, direct, permission, GroupScope)
                 || (r.category.Some? && Derived(c, direct, permission, CategoryScope(r.category.value)))
                 || (r.product.Some? && Derived(c, direct, permission, ProductScope(r.product.value)))
  {
    hide Derives, Derived;
    forall s: Scope ensures Derived(c, direct, permission, s) <==> Derives(c, direct, Grant(permission, s)) {
      DerivedMeans(c, direct, permission, s);
    }
    assert Covers(GroupScope, r);
    assert r.category.Some? ==> Covers(CategoryScope(r.category.value), r);
    assert r.product.Some? ==> Covers(ProductScope(r.product.value), r);
  }

  /** The decision for a known permission on a resource of the same group. */
  method Can(c: Catalogue, direct: seq<Grant>, permission: Key, r: Resource) returns (ok: bool)
    ensures ok <==> exists s: Scope :: Covers(s, r) && Derives(c, direct, Grant(permission, s))
    ensures ok <==> Derived(c, direct, permission, GroupScope)
                    || (r.category.Some? && Derived(c, direct, permission, CategoryScope(r.category.value)))
                    || (r.product.Some? && Derived(c, direct, permission, ProductScope(r.product.value)))
    ensures r == Resource(None, None) ==>
              (ok <==> exists k: Key :: Grant(k, GroupScope) in direct && Reaches(c, k, permission))
  {
    var grants := EffectiveGrants(c, direct);
    ok := exists g <- grants :: g.permission == permission && Covers(g.scope, r);
    ByScope(grants, permission, r);
    CoveringScopes(c, direct, permission, r);
    assert Covers(GroupScope, r);
    assert Derives(c, direct, Grant(permission, GroupScope)) <==> Grant(permission, GroupScope) in grants;
    if r == Resource(None, None) {
      assert forall s: Scope :: Covers(s, r) ==> s == GroupScope;
    }
  }

  lemma ByScope(grants: set<Grant>, permission: Key, r: Resource)
    ensures (exists g <- grants :: g.permission == permission && Covers(g.scope, r))
            <==> exists s: Scope :: Covers(s, r) && Grant(permission, s) in grants
  {
    if exists g <- grants :: g.permission == permission && Covers(g.scope, r) {
      var g :| g in grants && g.permission == permission && Covers(g.scope, r);
      assert g == Grant(permission, g.scope);
    }
  }
}
