/**
 The two-phase reordering of external accounts under a uniqueness constraint that is checked
 after every single row write, and over rows of deleted accounts that nobody can see or move.
 */
module AccountOrder {
  import opened Collections

  type Id = nat
  type Orders = map<Id, nat>

  ghost predicate Unique(orders: Orders) {
    forall a <- orders.Keys, b <- orders.Keys :: orders[a] == orders[b] ==> a == b
  }

  /** The request names every visible account exactly once. */
  ghost predicate Permutation(ids: seq<Id>, visible: set<Id>) {
    Elements(ids) == visible && forall i, j :: 0 <= i < j < |ids| ==> ids[i] != ids[j]
  }

  /** The requested order, placed after every hidden account. */
  ghost predicate Arranged(orders: Orders, before: Orders, ids: seq<Id>) {
    orders.Keys == before.Keys
    && (forall id <- orders.Keys | id !in ids :: orders[id] == before[id])
    && (forall i, j :: 0 <= i < j < |ids| && ids[i] in orders && ids[j] in orders ==> orders[ids[i]] < orders[ids[j]])
    && (forall id <- orders.Keys, i | 0 <= i < |ids| && ids[i] in orders && id !in ids :: orders[id] < orders[ids[i]])
  }

  lemma DistinctSize(ids: seq<Id>)
    requires forall i, j :: 0 <= i < j < |ids| ==> ids[i] != ids[j]
    ensures |Elements(ids)| == |ids|
  {
    if ids != [] {
      var n := |ids| - 1;
      DistinctSize(ids[..n]);
      assert Elements(ids) == Elements(ids[..n]) + {ids[n]};
      assert ids[n] !in ids[..n];
    }
  }

  lemma SubsetOfSameSize<T>(a: set<T>, b: set<T>)
    requires a <= b && |a| == |b|
    ensures a == b
  {
    assert b == a + (b - a);
  }

  /** The check of the request: same length, every identifier known, none repeated. */
  method CompleteRequest(ids: seq<Id>, existing: set<Id>) returns (ok: bool)
    ensures ok <==> Permutation(ids, existing)
  {
    if |existing| != |ids| {
      if forall i, j :: 0 <= i < j < |ids| ==> ids[i] != ids[j] {
        DistinctSize(ids);
      }
      return false;
    }
    var seen: set<Id> := {};
    for k := 0 to |ids|
      invariant seen == Elements(ids[..k])
      invariant seen <= existing
      invariant forall i, j :: 0 <= i < j < k ==> ids[i] != ids[j]
    {
      if ids[k] in seen || ids[k] !in existing {
        assert ids[k] in Elements(ids);
        return false;
      }
      seen := seen + {ids[k]};
      assert ids[..k + 1] == ids[..k] + [ids[k]];
    }
    assert ids[..|ids|] == ids;
    DistinctSize(ids);
    SubsetOfSameSize(seen, existing);
    ok := true;
  }

  method Largest(orders: Orders, ids: set<Id>) returns (max: int)
    requires ids <= orders.Keys
    ensures -1 <= max && (max == -1 <==> ids == {})
    ensures forall id <- ids :: orders[id] <= max
    ensures ids != {} ==> exists id <- ids :: orders[id] == max
  {
    max := -1;
    var rest := ids;
    while rest != {}
      invariant rest <= ids && -1 <= max
      invariant if rest == ids then max == -1 else exists id <- ids - rest :: orders[id] == max
      invariant forall id <- ids - rest :: orders[id] <= max
      decreases |rest|
    {
      var id: Id :| id in rest;
      if orders[id] > max {
        max := orders[id];
      }
      rest := rest - {id};
    }
  }

  /** One UPDATE of one row. */
  ghost predicate RowWritten(a: Orders, b: Orders, id: Id) { id in a && id in b && b == a[id := b[id]] }

  ghost predicate OneWrite(a: Orders, b: Orders) { exists id :: RowWritten(a, b, id) }

  /** The tables between `from` and `to`, one after every row write, and all of them satisfy the
      constraint. */
  ghost predicate Trace(from: Orders, writes: seq<Orders>, to: Orders) {
    (if writes == [] then to == from else to == writes[|writes| - 1] && OneWrite(from, writes[0]))
    && (forall i, j :: 0 <= i && j == i + 1 < |writes| ==> OneWrite(writes[i], writes[j]))
    && forall k :: 0 <= k < |writes| ==> Unique(writes[k])
  }

  lemma TraceStarts(from: Orders)
    ensures Trace(from, [], from)
  {
  }

  lemma TraceExtended(from: Orders, writes: seq<Orders>, to: Orders, next: Orders, id: Id)
    requires Trace(from, writes, to) && RowWritten(to, next, id) && Unique(next)
    ensures Trace(from, writes + [next], next)
  {
    hide Unique, RowWritten;
    var longer := writes + [next];
    assert OneWrite(to, next);
    forall i, j | 0 <= i && j == i + 1 < |longer| ensures OneWrite(longer[i], longer[j]) {
      if j < |writes| {
        assert OneWrite(writes[i], writes[j]);
      } else {
        assert longer[i] == to && longer[j] == next;
      }
    }
  }

  lemma TracesJoin(from: Orders, first: seq<Orders>, middle: Orders, second: seq<Orders>, to: Orders)
    requires Trace(from, first, middle) && Trace(middle, second, to)
    ensures Trace(from, first + second, to)
  {
    hide Unique, OneWrite;
    var all := first + second;
    forall i, j | 0 <= i && j == i + 1 < |all| ensures OneWrite(all[i], all[j]) {
      if j < |first| {
        assert OneWrite(first[i], first[j]);
      } else if i >= |first| {
        assert OneWrite(second[i - |first|], second[j - |first|]);
      } else {
        assert all[i] == middle && all[j] == second[0];
      }
    }
  }

  /** A row write to a free position keeps the constraint. */
  lemma FreeWrite(orders: Orders, id: Id, position: nat)
    requires Unique(orders) && forall k <- orders.Keys :: k != id ==> orders[k] != position
    ensures Unique(orders[id := position])
  {
  }

  lemma IndexOf(ids: seq<Id>, visible: set<Id>, id: Id) returns (i: nat)
    requires Elements(ids) == visible && id in visible
    ensures i < |ids| && ids[i] == id
  {
    assert id in Elements(ids);
    i :| i < |ids| && ids[i] == id;
  }

  class AccountRows {
    var orders: Orders
    var hidden: set<Id>

    ghost predicate Valid()
      reads this
    {
      hidden <= orders.Keys && Unique(orders)
    }

    /** A new account goes after every other one, hidden ones included. */
    method Add(id: Id) returns (position: nat)
      requires Valid() && id !in orders
      modifies this`orders
      ensures Valid() && orders == old(orders)[id := position]
      ensures forall k <- old(orders).Keys :: old(orders)[k] < position
      ensures old(orders) == map[] ==> position == 0
    {
      var maximum := Largest(orders, orders.Keys);
      position := maximum + 1;
      FreeWrite(orders, id, position);
      orders := orders[id := position];
    }

    /** First every visible row moves beyond all positions in use, one row at a time and in any
        order; then the rows take their new positions one after the other.  `writes` is the table
        after every row write, from the old table to the new one: the constraint holds in each. */
    method Reorder(ids: seq<Id>) returns (ok: bool, ghost writes: seq<Orders>)
      requires Valid()
      modifies this`orders
      ensures Valid()
      ensures ok <==> Permutation(ids, old(orders).Keys - hidden)
      ensures !ok ==> orders == old(orders) && writes == []
      ensures ok ==> Arranged(orders, old(orders), ids) && |writes| == 2 * |ids|
      ensures Trace(old(orders), writes, orders)
    {
      hide Unique, Arranged, Trace;
      writes := [];
      var visible := orders.Keys - hidden;
      ok := CompleteRequest(ids, visible);
      if !ok {
        TraceStarts(orders);
        return;
      }
      DistinctSize(ids);
      var maximum := Largest(orders, orders.Keys);
      var last := Largest(orders, hidden);
      var shift := (if maximum < 0 then 0 else maximum) + |ids| + 1;
      ghost var trace := Shift(visible, maximum, shift);
      ReadyToPlace(old(orders), orders, hidden, ids, maximum, last, shift);
      ghost var shifted := orders;
      ghost var placing := Place(ids, last + 1, old(orders));
      writes := trace + placing;
      TracesJoin(old(orders), trace, shifted, placing, orders);
    }

    /** One UPDATE adding `shift` to every visible row. */
    method Shift(visible: set<Id>, maximum: int, shift: nat) returns (ghost writes: seq<Orders>)
      requires Unique(orders) && visible <= orders.Keys && maximum < shift && forall id <- orders.Keys :: orders[id] <= maximum
      modifies this`orders
      ensures Unique(orders) && orders.Keys == old(orders).Keys && |writes| == |visible|
      ensures forall id <- orders.Keys :: orders[id] == old(orders)[id] + if id in visible then shift else 0
      ensures Trace(old(orders), writes, orders)
    {
      hide Unique;
      writes := [];
      var rest := visible;
      while rest != {}
        invariant rest <= visible && Unique(orders) && orders.Keys == old(orders).Keys && |writes| == |visible| - |rest|
        invariant forall id <- orders.Keys :: orders[id] == old(orders)[id] + if id in visible - rest then shift else 0
        invariant Trace(old(orders), writes, orders)
        decreases |rest|
      {
        var id: Id :| id in rest;
        ShiftedWrite(old(orders), orders, visible - rest, maximum, shift, id);
        TraceExtended(old(orders), writes, orders, orders[id := orders[id] + shift], id);
        orders := orders[id := orders[id] + shift];
        writes := writes + [orders];
        rest := rest - {id};
      }
    }

    /** Every shifted row lies above all new positions, so each write finds its position free. */
    method Place(ids: seq<Id>, base: nat, ghost before: Orders) returns (ghost writes: seq<Orders>)
      requires Unique(orders) && orders.Keys == before.Keys && hidden <= orders.Keys
      requires Permutation(ids, orders.Keys - hidden)
      requires forall id <- hidden :: orders[id] == before[id] && before[id] < base
      requires forall i :: 0 <= i < |ids| ==> ids[i] in orders && base + |ids| <= orders[ids[i]]
      modifies this`orders
      ensures orders.Keys == before.Keys && Unique(orders) && Arranged(orders, before, ids) && |writes| == |ids|
      ensures Trace(old(orders), writes, orders)
    {
      hide Unique, Arranged;
      writes := [];
      for k := 0 to |ids|
        invariant Unique(orders) && Placing(orders, before, hidden, ids, base, k) && |writes| == k
        invariant Trace(old(orders), writes, orders)
      {
        PlacedWrite(orders, before, hidden, ids, base, k);
        TraceExtended(old(orders), writes, orders, orders[ids[k] := base + k], ids[k]);
        orders := orders[ids[k] := base + k];
        writes := writes + [orders];
      }
      PlacedAll(orders, before, hidden, ids, base);
    }
  }

  lemma ShiftedWrite(before: Orders, orders: Orders, done: set<Id>, maximum: int, shift: nat, id: Id)
    requires orders.Keys == before.Keys && id in before && id !in done && maximum < shift
    requires forall k <- before.Keys :: before[k] <= maximum
    requires forall k <- orders.Keys :: orders[k] == before[k] + if k in done then shift else 0
    requires Unique(before) && Unique(orders)
    ensures Unique(orders[id := orders[id] + shift])
  {
    forall k <- orders.Keys | k != id ensures orders[k] != orders[id] + shift {
      assert before[k] != before[id];
    }
    FreeWrite(orders, id, orders[id] + shift);
  }

  /** After `k` of the placing writes. */
  ghost predicate Placing(orders: Orders, before: Orders, hidden: set<Id>, ids: seq<Id>, base: nat, k: nat)
    requires k <= |ids|
  {
    orders.Keys == before.Keys && hidden <= orders.Keys && Permutation(ids, orders.Keys - hidden)
    && (forall id <- hidden :: orders[id] == before[id] && before[id] < base)
    && (forall i :: 0 <= i < k ==> ids[i] in orders && orders[ids[i]] == base + i)
    && (forall i :: k <= i < |ids| ==> ids[i] in orders && base + |ids| <= orders[ids[i]])
  }

  lemma ReadyToPlace(before: Orders, orders: Orders, hidden: set<Id>, ids: seq<Id>, maximum: int, last: int, shift: nat)
    requires orders.Keys == before.Keys && hidden <= before.Keys && Permutation(ids, before.Keys - hidden)
    requires (forall id <- before.Keys :: before[id] <= maximum) && (forall id <- hidden :: before[id] <= last)
    requires -1 <= last && (last == -1 || last <= maximum) && shift == (if maximum < 0 then 0 else maximum) + |ids| + 1
    requires forall id <- orders.Keys :: orders[id] == before[id] + if id in before.Keys - hidden then shift else 0
    ensures forall id <- hidden :: orders[id] == before[id] && before[id] < last + 1
    ensures forall i :: 0 <= i < |ids| ==> ids[i] in orders && last + 1 + |ids| <= orders[ids[i]]
  {
    forall i | 0 <= i < |ids| ensures ids[i] in before.Keys - hidden {
      assert ids[i] in Elements(ids);
    }
  }

  lemma PlacedWrite(orders: Orders, before: Orders, hidden: set<Id>, ids: seq<Id>, base: nat, k: nat)
    requires k < |ids| && Placing(orders, before, hidden, ids, base, k) && Unique(orders)
    ensures ids[k] in orders && Unique(orders[ids[k] := base + k])
    ensures Placing(orders[ids[k] := base + k], before, hidden, ids, base, k + 1)
  {
    hide Unique;
    forall id <- orders.Keys | id != ids[k] ensures orders[id] != base + k {
      if id !in hidden {
        var i := IndexOf(ids, orders.Keys - hidden, id);
      }
    }
    FreeWrite(orders, ids[k], base + k);
    assert ids[k] in Elements(ids);
  }

  lemma PlacedAll(orders: Orders, before: Orders, hidden: set<Id>, ids: seq<Id>, base: nat)
    requires Placing(orders, before, hidden, ids, base, |ids|)
    ensures orders.Keys == before.Keys && Arranged(orders, before, ids)
  {
    forall id <- orders.Keys | id !in ids ensures id in hidden {
      assert id !in Elements(ids);
    }
  }

  /** Why two phases: writing the new positions directly meets the constraint even for two rows. */
  lemma DirectWritesCollide(a: Id, b: Id)
    requires a != b
    ensures var orders: Orders := map[a := 0, b := 1];
            Unique(orders) && !Unique(orders[b := 0]) && !Unique(orders[a := 1])
  {
    var orders: Orders := map[a := 0, b := 1];
    assert orders[b := 0][a] == orders[b := 0][b] && orders[a := 1][a] == orders[a := 1][b];
    assert a in orders[b := 0] && b in orders[a := 1];
  }
}
