/**
 The activity feed, a projection of bookings, payments and member-related corrections in five
 union arms, and why it always agrees with the ledger it is not computed from.
 */
module Feed {
  import opened Options
  import opened Books
  import opened BooksSafety

  datatype Arm = BookingArm | PaymentArm | BookingReversalArm | PaymentReversalArm | AdjustmentArm
  datatype FeedId = FeedId(arm: Arm, source: nat)
  datatype Item = Item(id: FeedId, target: Member, amount: int, reversed: bool, related: Option<FeedId>)
  datatype Access = Access(viewer: Member, allBookings: bool, finance: bool)

  predicate SeesBooking(a: Access, k: Booking) { a.allBookings || k.target == a.viewer || k.actor == a.viewer }

  predicate SeesMoney(a: Access, m: Member) { a.finance || m == a.viewer }

  // ---------------------------------------------------------------- the five arms

  function BookingItem(k: Booking, b: nat): Item {
    Item(FeedId(BookingArm, b), k.target, k.total, k.voided,
         if k.voided then Some(FeedId(BookingReversalArm, b)) else None)
  }

  function BookingReversalItem(k: Booking, b: nat): Item {
    Item(FeedId(BookingReversalArm, b), k.target, -k.total, false, Some(FeedId(BookingArm, b)))
  }

  function PaymentItem(p: Payment, n: nat): Item {
    Item(FeedId(PaymentArm, n), p.member, -p.amount, p.reversed,
         if p.reversed then Some(FeedId(PaymentReversalArm, n)) else None)
  }

  function PaymentReversalItem(p: Payment, n: nat): Item {
    Item(FeedId(PaymentReversalArm, n), p.member, p.amount, false, Some(FeedId(PaymentArm, n)))
  }

  predicate IsAdjustment(e: Entry) { e.account.MemberReceivable? && e.member.Some? && e.ref.NoRef? && e.reversal.None? }

  function Bookings(ks: seq<Booking>, a: Access, reversals: bool): seq<Item> {
    if ks == [] then []
    else
      var b := |ks| - 1;
      var k := ks[b];
      Bookings(ks[..b], a, reversals)
      + if !SeesBooking(a, k) || (reversals && !k.voided) then []
        else [if reversals then BookingReversalItem(k, b) else BookingItem(k, b)]
  }

  function Payments(ps: seq<Payment>, a: Access, reversals: bool): seq<Item> {
    if ps == [] then []
    else
      var n := |ps| - 1;
      var p := ps[n];
      Payments(ps[..n], a, reversals)
      + if !SeesMoney(a, p.member) || (reversals && !p.reversed) then []
        else [if reversals then PaymentReversalItem(p, n) else PaymentItem(p, n)]
  }

  function Adjustments(es: seq<Entry>, a: Access): seq<Item> {
    if es == [] then []
    else
      var e := es[|es| - 1];
      Adjustments(es[..|es| - 1], a)
      + if IsAdjustment(e) && SeesMoney(a, e.member.value)
        then [Item(FeedId(AdjustmentArm, e.id), e.member.value, e.amount, false, None)] else []
  }

  function Visible(s: Books, a: Access): seq<Item> {
    Bookings(s.bookings, a, false) + Payments(s.payments, a, false) + Bookings(s.bookings, a, true)
    + Payments(s.payments, a, true) + Adjustments(s.entries, a)
  }

  function Total(items: seq<Item>, m: Member): int {
    if items == [] then 0
    else Total(items[..|items| - 1], m) + if items[|items| - 1].target == m then items[|items| - 1].amount else 0
  }

  // ---------------------------------------------------------------- what each member still owes, source by source

  function OwedForBooking(k: Booking, m: Member): int { if k.target == m && !k.voided then k.total else 0 }

  function OwedForPayment(p: Payment, m: Member): int { if p.member == m && !p.reversed then -p.amount else 0 }

  function OwedForEntry(e: Entry, m: Member): int { if IsAdjustment(e) && e.member == Some(m) then e.amount else 0 }

  function OwedForBookings(ks: seq<Booking>, m: Member): int {
    if ks == [] then 0 else OwedForBookings(ks[..|ks| - 1], m) + OwedForBooking(ks[|ks| - 1], m)
  }

  function OwedForPayments(ps: seq<Payment>, m: Member): int {
    if ps == [] then 0 else OwedForPayments(ps[..|ps| - 1], m) + OwedForPayment(ps[|ps| - 1], m)
  }

  function OwedForAdjustments(es: seq<Entry>, m: Member): int {
    if es == [] then 0 else OwedForAdjustments(es[..|es| - 1], m) + OwedForEntry(es[|es| - 1], m)
  }

  function OwedBySource(s: Books, m: Member): int {
    OwedForBookings(s.bookings, m) + OwedForPayments(s.payments, m) + OwedForAdjustments(s.entries, m)
  }

  ghost predicate Agrees(s: Books) { forall m: Member :: Balance(s.entries, m) == OwedBySource(s, m) }

  // ---------------------------------------------------------------- totals of the arms

  lemma {:induction false} TotalAppend(xs: seq<Item>, ys: seq<Item>, m: Member)
    ensures Total(xs + ys, m) == Total(xs, m) + Total(ys, m)
  {
    if ys == [] {
      assert xs + ys == xs;
    } else {
      TotalAppend(xs, ys[..|ys| - 1], m);
      assert (xs + ys)[..|xs + ys| - 1] == xs + ys[..|ys| - 1];
    }
  }

  lemma TotalOne(x: Item, m: Member)
    ensures Total([x], m) == if x.target == m then x.amount else 0
  {
    assert [x][..0] == [];
  }

  lemma {:induction false} BookingTotals(ks: seq<Booking>, a: Access, m: Member)
    requires m == a.viewer || a.allBookings
    ensures Total(Bookings(ks, a, false), m) + Total(Bookings(ks, a, true), m) == OwedForBookings(ks, m)
  {
    if ks != [] {
      var b := |ks| - 1;
      BookingTotals(ks[..b], a, m);
      TotalOne(BookingItem(ks[b], b), m);
      TotalOne(BookingReversalItem(ks[b], b), m);
      forall reversals: bool, last: seq<Item>
        ensures Total(Bookings(ks[..b], a, reversals) + last, m) == Total(Bookings(ks[..b], a, reversals), m) + Total(last, m)
      {
        TotalAppend(Bookings(ks[..b], a, reversals), last, m);
      }
    }
  }

  lemma {:induction false} PaymentTotals(ps: seq<Payment>, a: Access, m: Member)
    requires SeesMoney(a, m)
    ensures Total(Payments(ps, a, false), m) + Total(Payments(ps, a, true), m) == OwedForPayments(ps, m)
  {
    if ps != [] {
      var n := |ps| - 1;
      PaymentTotals(ps[..n], a, m);
      TotalOne(PaymentItem(ps[n], n), m);
      TotalOne(PaymentReversalItem(ps[n], n), m);
      forall reversals: bool, last: seq<Item>
        ensures Total(Payments(ps[..n], a, reversals) + last, m) == Total(Payments(ps[..n], a, reversals), m) + Total(last, m)
      {
        TotalAppend(Payments(ps[..n], a, reversals), last, m);
      }
    }
  }

  lemma {:induction false} AdjustmentTotals(es: seq<Entry>, a: Access, m: Member)
    requires SeesMoney(a, m)
    ensures Total(Adjustments(es, a), m) == OwedForAdjustments(es, m)
  {
    if es != [] {
      var e := es[|es| - 1];
      AdjustmentTotals(es[..|es| - 1], a, m);
      if IsAdjustment(e) && SeesMoney(a, e.member.value) {
        var item := Item(FeedId(AdjustmentArm, e.id), e.member.value, e.amount, false, None);
        TotalOne(item, m);
        TotalAppend(Adjustments(es[..|es| - 1], a), [item], m);
      } else {
        TotalAppend(Adjustments(es[..|es| - 1], a), [], m);
      }
    }
  }

  // ---------------------------------------------------------------- the ledger agrees source by source

  lemma BalanceOfTwo(xs: seq<Entry>, x: Entry, y: Entry, m: Member)
    ensures Balance(xs + [x, y], m) == Balance(xs, m) + Owed(x, m) + Owed(y, m)
    ensures OwedForAdjustments(xs + [x, y], m) == OwedForAdjustments(xs, m) + OwedForEntry(x, m) + OwedForEntry(y, m)
  {
    var all := xs + [x, y];
    assert all[..|all| - 1] == xs + [x];
    assert (xs + [x])[..|xs|] == xs;
  }

  lemma {:induction false} OwedUpdatedBooking(ks: seq<Booking>, b: nat, k: Booking, m: Member)
    requires b < |ks|
    ensures OwedForBookings(ks[b := k], m) == OwedForBookings(ks, m) - OwedForBooking(ks[b], m) + OwedForBooking(k, m)
  {
    var n := |ks| - 1;
    if b == n {
      assert ks[b := k][..n] == ks[..n];
    } else {
      assert ks[b := k][..n] == ks[..n][b := k];
      OwedUpdatedBooking(ks[..n], b, k, m);
    }
  }

  lemma {:induction false} OwedUpdatedPayment(ps: seq<Payment>, i: nat, p: Payment, m: Member)
    requires i < |ps|
    ensures OwedForPayments(ps[i := p], m) == OwedForPayments(ps, m) - OwedForPayment(ps[i], m) + OwedForPayment(p, m)
  {
    var n := |ps| - 1;
    if i == n {
      assert ps[i := p][..n] == ps[..n];
    } else {
      assert ps[i := p][..n] == ps[..n][i := p];
      OwedUpdatedPayment(ps[..n], i, p, m);
    }
  }

  lemma VoidAgrees(s: Books, b: nat)
    requires Inv(s) && Agrees(s) && b < |s.bookings| && !s.bookings[b].voided
    ensures Agrees(DoVoid(s, b))
  {
    var rows := Rows(s.entries, ForBooking(b));
    VoidKeeps(s, b);
    assert BookingOk(s, b);
    assert rows[..2] == rows;
    ReversalsOfTwo(rows, |s.entries|, s.open);
    forall m: Member ensures Balance(DoVoid(s, b).entries, m) == OwedBySource(DoVoid(s, b), m) {
      OwedUpdatedBooking(s.bookings, b, s.bookings[b].(voided := true), m);
      BalanceOfTwo(s.entries, Negated(rows[0], |s.entries|, s.open), Negated(rows[1], |s.entries| + 1, s.open), m);
    }
  }

  lemma ReversalAgrees(s: Books, n: nat)
    requires Inv(s) && Agrees(s) && n < |s.payments| && !s.payments[n].reversed
    ensures Agrees(DoReversePayment(s, n))
  {
    var rows := Rows(s.entries, ForPayment(n));
    ReversePaymentKeeps(s, n);
    assert PaymentOk(s, n);
    assert rows[..2] == rows;
    ReversalsOfTwo(rows, |s.entries|, s.open);
    forall m: Member ensures Balance(DoReversePayment(s, n).entries, m) == OwedBySource(DoReversePayment(s, n), m) {
      OwedUpdatedPayment(s.payments, n, s.payments[n].(reversed := true), m);
      BalanceOfTwo(s.entries, Negated(rows[0], |s.entries|, s.open), Negated(rows[1], |s.entries| + 1, s.open), m);
    }
  }

  lemma PostingAgrees(s: Books, s': Books, x: Entry, y: Entry, m: Member)
    requires Balance(s.entries, m) == OwedBySource(s, m) && s'.entries == s.entries + [x, y]
    requires OwedForBookings(s'.bookings, m) - OwedForBookings(s.bookings, m)
             + OwedForPayments(s'.payments, m) - OwedForPayments(s.payments, m)
             == Owed(x, m) + Owed(y, m) - OwedForEntry(x, m) - OwedForEntry(y, m)
    ensures Balance(s'.entries, m) == OwedBySource(s', m)
  {
    BalanceOfTwo(s.entries, x, y, m);
  }

  lemma ApplyAgrees(s: Books, c: Command)
    requires Inv(s) && Agrees(s)
    ensures Agrees(Apply(s, c))
  {
    var s' := Apply(s, c);
    if c.Void? {
      if s' != s {
        VoidAgrees(s, c.booking);
      }
    } else if c.ReversePayment? {
      if s' != s {
        ReversalAgrees(s, c.payment);
      }
    } else if c.ClosePeriod? {
    } else {
      var x, y := s'.entries[|s.entries|], s'.entries[|s.entries| + 1];
      assert s'.bookings[..|s.bookings|] == s.bookings && s'.payments[..|s.payments|] == s.payments;
      forall m: Member ensures Balance(s'.entries, m) == OwedBySource(s', m) {
        PostingAgrees(s, s', x, y, m);
      }
    }
  }

  lemma {:induction false} RunAgrees(states: seq<Books>, commands: seq<Command>, i: nat)
    requires Run(states, commands) && i < |states|
    ensures Agrees(states[i])
  {
    if i > 0 {
      RunAgrees(states, commands, i - 1);
      RunInv(states, commands, i - 1);
      ApplyAgrees(states[i - 1], commands[i - 1]);
    }
  }

  /** In every reachable state, for every viewer, the visible feed amounts that target the viewer
      sum to the viewer's receivable balance; with both permissions this holds of every member. */
  lemma FeedMatchesLedger(states: seq<Books>, commands: seq<Command>, i: nat, a: Access, m: Member)
    requires Run(states, commands) && i < |states|
    requires m == a.viewer || (a.allBookings && a.finance)
    ensures Total(Visible(states[i], a), m) == Balance(states[i].entries, m)
  {
    var s := states[i];
    RunAgrees(states, commands, i);
    BookingTotals(s.bookings, a, m);
    PaymentTotals(s.payments, a, m);
    AdjustmentTotals(s.entries, a, m);
    var b, p, rb, rp := Bookings(s.bookings, a, false), Payments(s.payments, a, false), Bookings(s.bookings, a, true), Payments(s.payments, a, true);
    TotalAppend(b, p, m);
    TotalAppend(b + p, rb, m);
    TotalAppend(b + p + rb, rp, m);
    TotalAppend(b + p + rb + rp, Adjustments(s.entries, a), m);
  }

  // ---------------------------------------------------------------- membership and identifiers

  lemma {:induction false} BookingsHold(ks: seq<Booking>, a: Access, reversals: bool, x: Item)
    ensures x in Bookings(ks, a, reversals) <==>
              x.id.arm == (if reversals then BookingReversalArm else BookingArm) && x.id.source < |ks|
              && SeesBooking(a, ks[x.id.source]) && (reversals ==> ks[x.id.source].voided)
              && x == if reversals then BookingReversalItem(ks[x.id.source], x.id.source) else BookingItem(ks[x.id.source], x.id.source)
  {
    if ks != [] {
      BookingsHold(ks[..|ks| - 1], a, reversals, x);
    }
  }

  lemma {:induction false} PaymentsHold(ps: seq<Payment>, a: Access, reversals: bool, x: Item)
    ensures x in Payments(ps, a, reversals) <==>
              x.id.arm == (if reversals then PaymentReversalArm else PaymentArm) && x.id.source < |ps|
              && SeesMoney(a, ps[x.id.source].member) && (reversals ==> ps[x.id.source].reversed)
              && x == if reversals then PaymentReversalItem(ps[x.id.source], x.id.source) else PaymentItem(ps[x.id.source], x.id.source)
  {
    if ps != [] {
      PaymentsHold(ps[..|ps| - 1], a, reversals, x);
    }
  }

  lemma {:induction false} AdjustmentsHold(es: seq<Entry>, a: Access, x: Item)
    requires x in Adjustments(es, a)
    ensures x.id.arm.AdjustmentArm?
  {
    if es != [] && x in Adjustments(es[..|es| - 1], a) {
      AdjustmentsHold(es[..|es| - 1], a, x);
    }
  }

  predicate InFeed(s: Books, a: Access, x: Item) { x in Visible(s, a) }

  /** A booking and its linked reversal are shown together or not at all and point at each other;
      a booking that was not voided has no reversal item. */
  lemma BookingShownWithReversal(s: Books, a: Access, b: nat)
    requires b < |s.bookings|
    ensures var x, r := BookingItem(s.bookings[b], b), BookingReversalItem(s.bookings[b], b);
            (InFeed(s, a, x) <==> a.allBookings || s.bookings[b].target == a.viewer || s.bookings[b].actor == a.viewer)
            && x.target == r.target == s.bookings[b].target && x.amount == -r.amount == s.bookings[b].total
            && (x.reversed <==> s.bookings[b].voided) && !r.reversed
            && (InFeed(s, a, r) <==> InFeed(s, a, x) && s.bookings[b].voided)
            && (x.related == Some(r.id) <==> s.bookings[b].voided) && r.related == Some(x.id)
  {
    forall x: Item | x.id.source == b && (x.id.arm.BookingArm? || x.id.arm.BookingReversalArm?)
      ensures x in Visible(s, a) <==> x in Bookings(s.bookings, a, x.id.arm.BookingReversalArm?)
    {
      OnlyItsArm(s, a, x);
    }
    BookingsHold(s.bookings, a, false, BookingItem(s.bookings[b], b));
    BookingsHold(s.bookings, a, true, BookingReversalItem(s.bookings[b], b));
  }

  lemma PaymentShownWithReversal(s: Books, a: Access, n: nat)
    requires n < |s.payments|
    ensures var x, r := PaymentItem(s.payments[n], n), PaymentReversalItem(s.payments[n], n);
            (InFeed(s, a, x) <==> a.finance || s.payments[n].member == a.viewer)
            && x.target == r.target == s.payments[n].member && -x.amount == r.amount == s.payments[n].amount
            && (x.reversed <==> s.payments[n].reversed) && !r.reversed
            && (InFeed(s, a, r) <==> InFeed(s, a, x) && s.payments[n].reversed)
            && (x.related == Some(r.id) <==> s.payments[n].reversed) && r.related == Some(x.id)
  {
    forall x: Item | x.id.source == n && (x.id.arm.PaymentArm? || x.id.arm.PaymentReversalArm?)
      ensures x in Visible(s, a) <==> x in Payments(s.payments, a, x.id.arm.PaymentReversalArm?)
    {
      OnlyItsArm(s, a, x);
    }
    PaymentsHold(s.payments, a, false, PaymentItem(s.payments[n], n));
    PaymentsHold(s.payments, a, true, PaymentReversalItem(s.payments[n], n));
  }

  /** A correction of a member is shown to that member and to finance, and to nobody else, under the
      identifier of its receivable entry. */
  lemma CorrectionShownIff(s: Books, a: Access, x: Item)
    requires Inv(s) && x.id.arm == AdjustmentArm
    ensures InFeed(s, a, x) <==>
              x.id.source < |s.entries|
              && var e := s.entries[x.id.source];
              e.account == MemberReceivable && e.ref == NoRef && e.reversal == None && e.member == Some(x.target)
              && x.amount == e.amount && !x.reversed && x.related == None && (a.finance || x.target == a.viewer)
  {
    OnlyItsArm(s, a, x);
    AdjustmentsIff(s.entries, a, x);
  }

  lemma {:induction false} AdjustmentsIff(es: seq<Entry>, a: Access, x: Item)
    requires forall i :: 0 <= i < |es| ==> es[i].id == i
    ensures x in Adjustments(es, a) <==>
              x.id.arm == AdjustmentArm && x.id.source < |es|
              && var e := es[x.id.source];
              e.account == MemberReceivable && e.ref == NoRef && e.reversal == None && e.member == Some(x.target)
              && x.amount == e.amount && !x.reversed && x.related == None && (a.finance || x.target == a.viewer)
  {
    if es != [] {
      AdjustmentsIff(es[..|es| - 1], a, x);
    }
  }

  lemma OnlyItsArm(s: Books, a: Access, x: Item)
    ensures x in Visible(s, a) <==>
              match x.id.arm
              case BookingArm => x in Bookings(s.bookings, a, false)
              case PaymentArm => x in Payments(s.payments, a, false)
              case BookingReversalArm => x in Bookings(s.bookings, a, true)
              case PaymentReversalArm => x in Payments(s.payments, a, true)
              case AdjustmentArm => x in Adjustments(s.entries, a)
  {
    BookingsHold(s.bookings, a, false, x);
    BookingsHold(s.bookings, a, true, x);
    PaymentsHold(s.payments, a, false, x);
    PaymentsHold(s.payments, a, true, x);
    if x in Adjustments(s.entries, a) {
      AdjustmentsHold(s.entries, a, x);
    }
  }

  // ---------------------------------------------------------------- unique identifiers

  /** One arm, in increasing order of source below a bound. */
  ghost predicate Ordered(items: seq<Item>, arm: Arm, bound: nat) {
    (forall i :: 0 <= i < |items| ==> items[i].id.arm == arm && items[i].id.source < bound)
    && forall i, j :: 0 <= i < j < |items| ==> items[i].id.source < items[j].id.source
  }

  ghost predicate Distinct(items: seq<Item>) { forall i, j :: 0 <= i < j < |items| ==> items[i].id != items[j].id }

  lemma {:induction false} BookingsOrdered(ks: seq<Booking>, a: Access, reversals: bool)
    ensures Ordered(Bookings(ks, a, reversals), if reversals then BookingReversalArm else BookingArm, |ks|)
  {
    if ks != [] {
      BookingsOrdered(ks[..|ks| - 1], a, reversals);
    }
  }

  lemma {:induction false} PaymentsOrdered(ps: seq<Payment>, a: Access, reversals: bool)
    ensures Ordered(Payments(ps, a, reversals), if reversals then PaymentReversalArm else PaymentArm, |ps|)
  {
    if ps != [] {
      PaymentsOrdered(ps[..|ps| - 1], a, reversals);
    }
  }

  lemma {:induction false} AdjustmentsOrdered(es: seq<Entry>, a: Access)
    requires forall i :: 0 <= i < |es| ==> es[i].id == i
    ensures Ordered(Adjustments(es, a), AdjustmentArm, |es|)
  {
    if es != [] {
      AdjustmentsOrdered(es[..|es| - 1], a);
    }
  }

  ghost predicate ArmsIn(items: seq<Item>, arms: set<Arm>) { forall i :: 0 <= i < |items| ==> items[i].id.arm in arms }

  lemma OrderedDistinct(items: seq<Item>, arm: Arm, bound: nat)
    requires Ordered(items, arm, bound)
    ensures Distinct(items) && ArmsIn(items, {arm})
  {
  }

  lemma DistinctJoin(x: seq<Item>, xs: set<Arm>, y: seq<Item>, ys: set<Arm>)
    requires Distinct(x) && ArmsIn(x, xs) && Distinct(y) && ArmsIn(y, ys) && xs !! ys
    ensures Distinct(x + y) && ArmsIn(x + y, xs + ys)
  {
    var both := x + y;
    forall i, j | 0 <= i < j < |both| ensures both[i].id != both[j].id {
      if i < |x| <= j {
        assert x[i].id.arm in xs && y[j - |x|].id.arm in ys;
      }
    }
  }

  /** No identifier occurs twice in any viewer's feed, over all five arms. */
  lemma FeedIdsUnique(s: Books, a: Access)
    requires Inv(s)
    ensures Distinct(Visible(s, a))
  {
    hide Ordered, Distinct, ArmsIn;
    var booked, paid := Bookings(s.bookings, a, false), Payments(s.payments, a, false);
    var unbooked, unpaid := Bookings(s.bookings, a, true), Payments(s.payments, a, true);
    var adjusted := Adjustments(s.entries, a);
    BookingsOrdered(s.bookings, a, false);
    OrderedDistinct(booked, BookingArm, |s.bookings|);
    PaymentsOrdered(s.payments, a, false);
    OrderedDistinct(paid, PaymentArm, |s.payments|);
    BookingsOrdered(s.bookings, a, true);
    OrderedDistinct(unbooked, BookingReversalArm, |s.bookings|);
    PaymentsOrdered(s.payments, a, true);
    OrderedDistinct(unpaid, PaymentReversalArm, |s.payments|);
    EntriesNumbered(s);
    AdjustmentsOrdered(s.entries, a);
    OrderedDistinct(adjusted, AdjustmentArm, |s.entries|);
    DistinctJoin(booked, {BookingArm}, paid, {PaymentArm});
    DistinctJoin(booked + paid, {BookingArm} + {PaymentArm}, unbooked, {BookingReversalArm});
    DistinctJoin(booked + paid + unbooked, {BookingArm} + {PaymentArm} + {BookingReversalArm}, unpaid, {PaymentReversalArm});
    DistinctJoin(booked + paid + unbooked + unpaid, {BookingArm} + {PaymentArm} + {BookingReversalArm} + {PaymentReversalArm},
                 adjusted, {AdjustmentArm});
  }

  lemma EntriesNumbered(s: Books)
    requires Inv(s)
    ensures forall i :: 0 <= i < |s.entries| ==> s.entries[i].id == i
  {
  }

  /** The textual identifier: the arm's prefix before the source's own identifier. */
  function Prefix(arm: Arm): string {
    match arm
    case BookingArm => "booking:"
    case PaymentArm => "payment:"
    case BookingReversalArm => "reversal:booking:"
    case PaymentReversalArm => "reversal:payment:"
    case AdjustmentArm => "adjustment:"
  }

  function Text(arm: Arm, source: string): string { Prefix(arm) + source }

  /** No prefix is a prefix of another, so the text determines arm and source whatever characters
      the source's identifier contains. */
  lemma TextInjective(x: Arm, a: string, y: Arm, b: string)
    requires Text(x, a) == Text(y, b)
    ensures x == y && a == b
  {
    var t := Text(x, a);
    assert t[0] == Prefix(x)[0] == Prefix(y)[0];
    assert |Prefix(x)| > 9 && |Prefix(y)| > 9 ==> t[9] == Prefix(x)[9] == Prefix(y)[9];
    assert x == y;
    assert t[|Prefix(x)|..] == a && t[|Prefix(y)|..] == b;
  }
}
