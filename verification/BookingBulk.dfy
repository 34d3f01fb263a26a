/**
 Posting a cart.  The bulk command books every line without touching allocations and rebuilds
 each target's allocations once at the end; booking one line at a time rebuilds after every
 line.  Both reach the same state, for every allocation function that looks only at a member's
 own claims and payments.
 */
module BookingBulk {
  import opened Options
  import opened Books
  import BooksSafety
  import opened BookingCart

  /** What the allocation of a member is computed from: the member's receivable entries that do
      not stem from payments, and the member's payments that were not reversed. */
  datatype View = View(claims: seq<Entry>, payments: seq<(nat, Payment)>)

  predicate IsClaim(e: Entry, m: Member) { e.account.MemberReceivable? && e.member == Some(m) && !e.ref.ForPayment? }

  function Claims(entries: seq<Entry>, m: Member): seq<Entry> {
    if entries == [] then []
    else
      var before := Claims(entries[..|entries| - 1], m);
      if IsClaim(entries[|entries| - 1], m) then before + [entries[|entries| - 1]] else before
  }

  function Payments(payments: seq<Payment>, m: Member): seq<(nat, Payment)> {
    if payments == [] then []
    else
      var n := |payments| - 1;
      var before := Payments(payments[..n], m);
      if payments[n].member == m && !payments[n].reversed then before + [(n, payments[n])] else before
  }

  function ViewOf(s: Books, m: Member): View { View(Claims(s.entries, m), Payments(s.payments, m)) }

  /** The rebuild sees exactly the member's receivable entries that no payment posted, and exactly
      the member's payments that were not reversed. */
  lemma {:induction false} ClaimsIff(entries: seq<Entry>, m: Member, e: Entry)
    ensures e in Claims(entries, m) <==>
              e in entries && e.account == MemberReceivable && e.member == Some(m) && forall n: nat :: e.ref != ForPayment(n)
  {
    if entries != [] {
      ClaimsIff(entries[..|entries| - 1], m, e);
      assert entries == entries[..|entries| - 1] + [entries[|entries| - 1]];
      assert e.ref.ForPayment? ==> e.ref == ForPayment(e.ref.payment);
    }
  }

  lemma {:induction false} PaymentsIff(payments: seq<Payment>, m: Member, n: nat, p: Payment)
    ensures (n, p) in Payments(payments, m) <==> n < |payments| && payments[n] == p && p.member == m && !p.reversed
  {
    if payments != [] {
      PaymentsIff(payments[..|payments| - 1], m, n, p);
    }
  }

  datatype Accounts<A> = Accounts(books: Books, allocations: map<Member, A>)

  function Rebuilt<A>(s: Accounts<A>, m: Member, rebuild: View -> A): Accounts<A> {
    s.(allocations := s.allocations[m := rebuild(ViewOf(s.books, m))])
  }

  function LineBooking(s: Books, actor: Member, line: Line): Booking {
    Booking(s.open, actor, line.target, line.total, false)
  }

  // ---------------------------------------------------------------- the two orders

  function PostAll(s: Books, actor: Member, lines: seq<Line>): Books {
    if lines == [] then s
    else
      var before := PostAll(s, actor, lines[..|lines| - 1]);
      DoBook(before, LineBooking(before, actor, lines[|lines| - 1]))
  }

  function RebuildAll<A>(s: Accounts<A>, targets: seq<Member>, rebuild: View -> A): Accounts<A> {
    if targets == [] then s
    else Rebuilt(RebuildAll(s, targets[..|targets| - 1], rebuild), targets[|targets| - 1], rebuild)
  }

  /** Every line posted, then one rebuild per target. */
  function Bulk<A>(s: Accounts<A>, actor: Member, lines: seq<Line>, targets: seq<Member>, rebuild: View -> A): Accounts<A> {
    RebuildAll(s.(books := PostAll(s.books, actor, lines)), targets, rebuild)
  }

  /** The single-booking command folded over the lines: post, then rebuild that target. */
  function OneByOne<A>(s: Accounts<A>, actor: Member, lines: seq<Line>, rebuild: View -> A): Accounts<A> {
    if lines == [] then s
    else
      var before := OneByOne(s, actor, lines[..|lines| - 1], rebuild);
      var line := lines[|lines| - 1];
      Rebuilt(before.(books := DoBook(before.books, LineBooking(before.books, actor, line))), line.target, rebuild)
  }

  // ---------------------------------------------------------------- equality

  /** Posting to one member leaves every other member's view alone. */
  lemma OtherView(s: Books, k: Booking, m: Member)
    requires m != k.target
    ensures ViewOf(DoBook(s, k), m) == ViewOf(s, m)
  {
    var posted := Charge(k, |s.bookings|, |s.entries|);
    var one := s.entries + [posted[0]];
    assert one[..|s.entries|] == s.entries;
    assert Claims(one, m) == Claims(s.entries, m);
    assert (s.entries + posted)[..|one|] == one;
  }

  predicate Targets(lines: seq<Line>, m: Member) { exists line <- lines :: line.target == m }

  lemma {:induction false} OneByOneMeans<A>(s: Accounts<A>, actor: Member, lines: seq<Line>, rebuild: View -> A, m: Member)
    ensures var r := OneByOne(s, actor, lines, rebuild);
            r.books == PostAll(s.books, actor, lines)
            && (m in r.allocations <==> m in s.allocations || Targets(lines, m))
            && (m in r.allocations ==>
                  r.allocations[m] == if Targets(lines, m) then rebuild(ViewOf(r.books, m)) else s.allocations[m])
            && (!Targets(lines, m) ==> ViewOf(r.books, m) == ViewOf(s.books, m))
  {
    if lines != [] {
      var n := |lines| - 1;
      OneByOneMeans(s, actor, lines[..n], rebuild, m);
      var before := OneByOne(s, actor, lines[..n], rebuild);
      assert Targets(lines, m) <==> Targets(lines[..n], m) || lines[n].target == m by {
        assert lines == lines[..n] + [lines[n]];
      }
      if lines[n].target != m {
        OtherView(before.books, LineBooking(before.books, actor, lines[n]), m);
      }
    }
  }

  lemma {:induction false} RebuildAllMeans<A>(s: Accounts<A>, targets: seq<Member>, rebuild: View -> A, m: Member)
    ensures var r := RebuildAll(s, targets, rebuild);
            r.books == s.books
            && (m in r.allocations <==> m in s.allocations || m in targets)
            && (m in r.allocations ==> r.allocations[m] == if m in targets then rebuild(ViewOf(s.books, m)) else s.allocations[m])
  {
    if targets != [] {
      var n := |targets| - 1;
      RebuildAllMeans(s, targets[..n], rebuild, m);
      assert targets == targets[..n] + [targets[n]];
    }
  }

  lemma {:induction false} CartTargets(totals: seq<int>, targets: seq<Member>, m: Member)
    requires totals != []
    ensures Targets(Cart(totals, targets), m) <==> m in targets
  {
    var n := |totals| - 1;
    assert forall j :: 0 <= j < |targets| ==> Row(totals[n], targets)[j].target == targets[j];
    assert Targets(Row(totals[n], targets), m) <==> m in targets by {
      if m in targets {
        var j :| 0 <= j < |targets| && targets[j] == m;
        assert Row(totals[n], targets)[j] in Row(totals[n], targets);
      }
    }
    var before := Cart(totals[..n], targets);
    assert Targets(before + Row(totals[n], targets), m) <==> Targets(before, m) || Targets(Row(totals[n], targets), m);
    if n > 0 {
      CartTargets(totals[..n], targets, m);
    }
  }

  /** Deferring the rebuild changes nothing: the bulk command reaches exactly the bookings, ledger
      and allocations of booking item by item and target by target. */
  lemma BulkIsOneByOne<A>(s: Accounts<A>, actor: Member, totals: seq<int>, targets: seq<Member>, rebuild: View -> A)
    requires totals != []
    ensures Bulk(s, actor, Cart(totals, targets), targets, rebuild) == OneByOne(s, actor, Cart(totals, targets), rebuild)
  {
    var lines := Cart(totals, targets);
    var x := Bulk(s, actor, lines, targets, rebuild);
    var y := OneByOne(s, actor, lines, rebuild);
    var posted := s.(books := PostAll(s.books, actor, lines));
    forall m: Member
      ensures m in x.allocations <==> m in y.allocations
      ensures m in x.allocations ==> x.allocations[m] == y.allocations[m]
      ensures x.books == y.books
    {
      CartTargets(totals, targets, m);
      OneByOneMeans(s, actor, lines, rebuild, m);
      RebuildAllMeans(posted, targets, rebuild, m);
    }
    assert x.books == y.books by { OneByOneMeans(s, actor, lines, rebuild, 0); RebuildAllMeans(posted, targets, rebuild, 0); }
    assert x.allocations == y.allocations;
  }

  /** The batch command (one item, several targets, a rebuild after each) is the same as a bulk
      command with a one-line cart. */
  lemma BatchIsBulkOfOne<A>(s: Accounts<A>, actor: Member, total: int, targets: seq<Member>, rebuild: View -> A)
    ensures OneByOne(s, actor, Row(total, targets), rebuild) == Bulk(s, actor, Row(total, targets), targets, rebuild)
  {
    assert [total][..0] == [];
    assert Cart([total], targets) == Row(total, targets);
    BulkIsOneByOne(s, actor, [total], targets, rebuild);
  }

  lemma {:induction false} PostAllGrows(s: Books, actor: Member, lines: seq<Line>, i: nat)
    ensures |PostAll(s, actor, lines).bookings| == |s.bookings| + |lines|
    ensures s.bookings <= PostAll(s, actor, lines).bookings && PostAll(s, actor, lines).open == s.open
    ensures i < |lines| ==>
              PostAll(s, actor, lines).bookings[|s.bookings| + i] == Booking(s.open, actor, lines[i].target, lines[i].total, false)
  {
    if lines != [] {
      PostAllGrows(s, actor, lines[..|lines| - 1], i);
    }
  }

  /** The bulk command creates exactly one booking per item and target, in item-major order. */
  lemma BulkCreates<A>(s: Accounts<A>, actor: Member, totals: seq<int>, targets: seq<Member>, rebuild: View -> A, i: nat, j: nat)
    requires i < |totals| && j < |targets|
    ensures var r := Bulk(s, actor, Cart(totals, targets), targets, rebuild).books;
            |r.bookings| == |s.books.bookings| + |totals| * |targets|
            && i * |targets| + j < |totals| * |targets|
            && r.bookings[|s.books.bookings| + i * |targets| + j]
               == Booking(s.books.open, actor, targets[j], totals[i], false)
  {
    hide Bulk, PostAll, Cart;
    CartAt(totals, targets, i, j);
    PostAllGrows(s.books, actor, Cart(totals, targets), i * |targets| + j);
    BulkBooks(s, actor, Cart(totals, targets), targets, rebuild);
  }

  lemma BulkBooks<A>(s: Accounts<A>, actor: Member, lines: seq<Line>, targets: seq<Member>, rebuild: View -> A)
    ensures Bulk(s, actor, lines, targets, rebuild).books == PostAll(s.books, actor, lines)
  {
    RebuildAllMeans(s.(books := PostAll(s.books, actor, lines)), targets, rebuild, 0);
  }

  // ---------------------------------------------------------------- who pays

  /** What a list of lines charges a member. */
  function LinesFor(lines: seq<Line>, m: Member): int {
    if lines == [] then 0
    else LinesFor(lines[..|lines| - 1], m) + if lines[|lines| - 1].target == m then lines[|lines| - 1].total else 0
  }

  lemma BookingCharges(s: Books, k: Booking, m: Member)
    ensures Balance(DoBook(s, k).entries, m) == Balance(s.entries, m) + if k.target == m then k.total else 0
  {
    BooksSafety.BalanceOfTwo(s.entries, Charge(k, |s.bookings|, |s.entries|), m);
  }

  lemma {:induction false} LinesCharge(s: Books, actor: Member, lines: seq<Line>, m: Member)
    ensures Balance(PostAll(s, actor, lines).entries, m) == Balance(s.entries, m) + LinesFor(lines, m)
  {
    if lines != [] {
      var before := PostAll(s, actor, lines[..|lines| - 1]);
      LinesCharge(s, actor, lines[..|lines| - 1], m);
      BookingCharges(before, LineBooking(before, actor, lines[|lines| - 1]), m);
    }
  }

  function SumOf(totals: seq<int>): int { if totals == [] then 0 else SumOf(totals[..|totals| - 1]) + totals[|totals| - 1] }

  function TimesIn(targets: seq<Member>, m: Member): nat {
    if targets == [] then 0 else TimesIn(targets[..|targets| - 1], m) + if targets[|targets| - 1] == m then 1 else 0
  }

  lemma {:induction false} LinesForAppend(xs: seq<Line>, ys: seq<Line>, m: Member)
    ensures LinesFor(xs + ys, m) == LinesFor(xs, m) + LinesFor(ys, m)
  {
    if ys == [] {
      assert xs + ys == xs;
    } else {
      LinesForAppend(xs, ys[..|ys| - 1], m);
      assert (xs + ys)[..|xs + ys| - 1] == xs + ys[..|ys| - 1];
    }
  }

  lemma {:induction false} RowFor(total: int, targets: seq<Member>, m: Member)
    ensures LinesFor(Row(total, targets), m) == total * TimesIn(targets, m)
  {
    if targets != [] {
      var n := |targets| - 1;
      RowFor(total, targets[..n], m);
      Distributes(TimesIn(targets[..n], m), if targets[n] == m then 1 else 0, total);
      assert Row(total, targets)[..n] == Row(total, targets[..n]) && Row(total, targets)[n] == Line(total, targets[n]);
    }
  }

  lemma {:induction false} CartFor(totals: seq<int>, targets: seq<Member>, m: Member)
    ensures LinesFor(Cart(totals, targets), m) == SumOf(totals) * TimesIn(targets, m)
  {
    assert totals == [] ==> LinesFor(Cart(totals, targets), m) == 0;
    hide LinesFor, TimesIn, Row;
    if totals != [] {
      var n := |totals| - 1;
      CartFor(totals[..n], targets, m);
      RowFor(totals[n], targets, m);
      LinesForAppend(Cart(totals[..n], targets), Row(totals[n], targets), m);
      Distributes(SumOf(totals[..n]), totals[n], TimesIn(targets, m));
      assert SumOf(totals) == SumOf(totals[..n]) + totals[n];
    }
  }

  lemma Distributes(a: int, b: int, n: int)
    ensures (a + b) * n == a * n + b * n
  {
  }

  /** Every target owes the whole cart once for each time it is listed, and nobody else anything. */
  lemma BulkCharges<A>(s: Accounts<A>, actor: Member, totals: seq<int>, targets: seq<Member>, rebuild: View -> A, m: Member)
    ensures Balance(Bulk(s, actor, Cart(totals, targets), targets, rebuild).books.entries, m)
            == Balance(s.books.entries, m) + SumOf(totals) * TimesIn(targets, m)
  {
    hide Bulk, PostAll, Cart;
    BulkBooks(s, actor, Cart(totals, targets), targets, rebuild);
    LinesCharge(s.books, actor, Cart(totals, targets), m);
    CartFor(totals, targets, m);
  }

  // ---------------------------------------------------------------- in place

  class Bookkeeper<A> {
    const rebuild: View -> A
    var books: Books
    var allocations: map<Member, A>

    constructor (rebuild: View -> A, books: Books)
      ensures this.rebuild == rebuild && this.books == books && allocations == map[]
    {
      this.rebuild, this.books, allocations := rebuild, books, map[];
    }

    function Contents(): Accounts<A>
      reads this
    {
      Accounts(books, allocations)
    }

    method RebuildPaymentAllocations(m: Member)
      modifies this`allocations
      ensures Contents() == Rebuilt(old(Contents()), m, rebuild)
    {
      allocations := allocations[m := rebuild(ViewOf(books, m))];
    }

    /** One booking: its row, its receivable entry, its revenue entry, and on request the
        target's allocations. */
    method CreateBooking(actor: Member, line: Line, rebuildNow: bool) returns (id: nat)
      modifies this
      ensures id == |old(books).bookings|
      ensures books == DoBook(old(books), LineBooking(old(books), actor, line))
      ensures Contents() == if rebuildNow then Rebuilt(old(Contents()).(books := books), line.target, rebuild)
                            else old(Contents()).(books := books)
      ensures books.bookings == old(books).bookings + [Booking(old(books).open, actor, line.target, line.total, false)]
      ensures forall m: Member ::
                Balance(books.entries, m) == Balance(old(books).entries, m) + if m == line.target then line.total else 0
    {
      id := |books.bookings|;
      var k := Booking(books.open, actor, line.target, line.total, false);
      books := books.(bookings := books.bookings + [k]);
      var receivable := Entry(|books.entries|, k.period, MemberReceivable, Some(line.target), ForBooking(id), None, line.total);
      books := books.(entries := books.entries + [receivable]);
      var revenue := Entry(|books.entries|, k.period, CategoryRevenue, None, ForBooking(id), None, -line.total);
      books := books.(entries := books.entries + [revenue]);
      assert books.entries == old(books).entries + Charge(k, id, |old(books).entries|);
      forall m: Member ensures Balance(books.entries, m) == Balance(old(books).entries, m) + if m == line.target then line.total else 0 {
        BookingCharges(old(books), k, m);
      }
      if rebuildNow {
        RebuildPaymentAllocations(line.target);
      }
    }

    /** One cart item: a booking for each target, allocations untouched. */
    method CreateItem(actor: Member, total: int, targets: seq<Member>, ghost start: Books, ghost before: seq<Line>)
      returns (created: seq<nat>)
      requires books == PostAll(start, actor, before)
      modifies this
      ensures books == PostAll(start, actor, before + Row(total, targets)) && allocations == old(allocations)
      ensures created == seq(|targets|, k requires 0 <= k => |start.bookings| + |before| + k)
    {
      hide Balance;
      created := [];
      assert before + Row(total, targets)[..0] == before;
      for j := 0 to |targets|
        invariant books == PostAll(start, actor, before + Row(total, targets)[..j]) && allocations == old(allocations)
        invariant created == seq(j, k requires 0 <= k => |start.bookings| + |before| + k)
      {
        ghost var lines := before + Row(total, targets)[..j];
        PostAllGrows(start, actor, lines, 0);
        var id := CreateBooking(actor, Line(total, targets[j]), false);
        created := created + [id];
        assert before + Row(total, targets)[..j + 1] == lines + [Line(total, targets[j])];
      }
      assert Row(total, targets)[..|targets|] == Row(total, targets);
    }

    method RebuildTargets(targets: seq<Member>)
      modifies this
      ensures Contents() == RebuildAll(old(Contents()), targets, rebuild)
    {
      for j := 0 to |targets|
        invariant Contents() == RebuildAll(old(Contents()), targets[..j], rebuild)
      {
        RebuildPaymentAllocations(targets[j]);
        assert targets[..j + 1][..j] == targets[..j];
      }
      assert targets[..|targets|] == targets;
    }

    /** Items outside, targets inside, then one rebuild per target. */
    method CreateBulk(actor: Member, totals: seq<int>, targets: seq<Member>) returns (created: seq<nat>)
      modifies this
      ensures Contents() == Bulk(old(Contents()), actor, Cart(totals, targets), targets, rebuild)
      ensures created == seq(|totals| * |targets|, i requires 0 <= i => |old(books).bookings| + i)
    {
      created := [];
      ghost var start := books;
      for i := 0 to |totals|
        invariant books == PostAll(start, actor, Cart(totals[..i], targets)) && allocations == old(allocations)
        invariant created == seq(|Cart(totals[..i], targets)|, k requires 0 <= k => |start.bookings| + k)
      {
        var ids := CreateItem(actor, totals[i], targets, start, Cart(totals[..i], targets));
        created := created + ids;
        assert totals[..i + 1][..i] == totals[..i];
      }
      assert totals[..|totals|] == totals;
      CartSize(totals, targets);
      RebuildTargets(targets);
    }

    /** Reads the originals, then appends one negated copy after the other. */
    method Void(b: nat) returns (ok: bool)
      modifies this
      ensures ok <==> b < |old(books).bookings| && !old(books).bookings[b].voided
      ensures !ok ==> Contents() == old(Contents())
      ensures ok ==> Contents() == Rebuilt(old(Contents()).(books := DoVoid(old(books), b)), old(books).bookings[b].target, rebuild)
      ensures ok ==> books.bookings == old(books).bookings[b := old(books).bookings[b].(voided := true)]
      ensures ok && BooksSafety.Inv(old(books)) ==> forall m: Member ::
                Balance(books.entries, m)
                == Balance(old(books).entries, m) - if m == old(books).bookings[b].target then old(books).bookings[b].total else 0
    {
      hide Balance;
      if b >= |books.bookings| || books.bookings[b].voided {
        return false;
      }
      var target := books.bookings[b].target;
      books := books.(bookings := books.bookings[b := books.bookings[b].(voided := true)]);
      ghost var start := books.entries;
      var originals := Originals(books.entries, ForBooking(b));
      for i := 0 to |originals|
        invariant books == old(books).(bookings := books.bookings, entries := start + Reversals(originals[..i], |start|, old(books).open))
        invariant books.bookings == old(books).bookings[b := old(books).bookings[b].(voided := true)]
        invariant |Reversals(originals[..i], |start|, old(books).open)| == i && allocations == old(allocations)
      {
        books := books.(entries := books.entries + [Negated(originals[i], |books.entries|, books.open)]);
        assert originals[..i + 1][..i] == originals[..i];
      }
      assert originals[..|originals|] == originals;
      assert books == DoVoid(old(books), b);
      if BooksSafety.Inv(old(books)) {
        forall m: Member ensures Balance(books.entries, m)
            == Balance(old(books).entries, m) - if m == old(books).bookings[b].target then old(books).bookings[b].total else 0
        {
          BooksSafety.VoidBalance(old(books), b, m);
        }
      }
      RebuildPaymentAllocations(target);
      ok := true;
    }
  }
}
