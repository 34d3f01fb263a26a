/**
 What every run of commands keeps in the books: each booking's rows sum to zero, an unvoided
 booking has its two rows and a voided one exactly one reversal of each, and what a closed
 period holds never changes.
 */
module BooksSafety {
  import opened Options
  import opened Books

  // ---------------------------------------------------------------- filters and appends

  lemma {:induction false} RowsAppend(xs: seq<Entry>, ys: seq<Entry>, ref: Ref)
    ensures Rows(xs + ys, ref) == Rows(xs, ref) + Rows(ys, ref)
  {
    if ys == [] {
      assert xs + ys == xs;
    } else {
      RowsAppend(xs, ys[..|ys| - 1], ref);
      assert (xs + ys)[..|xs + ys| - 1] == xs + ys[..|ys| - 1];
    }
  }

  lemma {:induction false} InPeriodAppend(xs: seq<Entry>, ys: seq<Entry>, period: Period)
    ensures InPeriod(xs + ys, period) == InPeriod(xs, period) + InPeriod(ys, period)
  {
    if ys == [] {
      assert xs + ys == xs;
    } else {
      InPeriodAppend(xs, ys[..|ys| - 1], period);
      assert (xs + ys)[..|xs + ys| - 1] == xs + ys[..|ys| - 1];
    }
  }

  lemma {:induction false} BalanceAppend(xs: seq<Entry>, ys: seq<Entry>, m: Member)
    ensures Balance(xs + ys, m) == Balance(xs, m) + Balance(ys, m)
  {
    if ys == [] {
      assert xs + ys == xs;
    } else {
      BalanceAppend(xs, ys[..|ys| - 1], m);
      assert (xs + ys)[..|xs + ys| - 1] == xs + ys[..|ys| - 1];
    }
  }

  lemma {:induction false} OriginalsOfRows(entries: seq<Entry>, ref: Ref)
    ensures Originals(entries, ref) == Originals(Rows(entries, ref), ref)
  {
    if entries != [] {
      var n := |entries| - 1;
      OriginalsOfRows(entries[..n], ref);
      if entries[n].ref == ref {
        assert Rows(entries, ref)[..|Rows(entries, ref)| - 1] == Rows(entries[..n], ref);
      }
    }
  }

  lemma {:induction false} RowsAll(entries: seq<Entry>, ref: Ref, all: bool)
    requires forall e <- entries :: (e.ref == ref) == all
    ensures Rows(entries, ref) == if all then entries else []
  {
    if entries != [] {
      var n := |entries| - 1;
      RowsAll(entries[..n], ref, all);
      assert entries[n] in entries && entries[..n] + [entries[n]] == entries;
    }
  }

  // ---------------------------------------------------------------- two originals and their reversals

  /** The rows of a booking or payment: its two postings and, once reversed, one negation each. */
  predicate Posted(rows: seq<Entry>, charge: seq<Entry>, reversed: bool)
    requires |charge| == 2
  {
    |rows| == (if reversed then 4 else 2) && rows[..2] == charge
    && (reversed ==> rows[2..] == Reversals(charge, rows[2].id, rows[2].period))
  }

  predicate BookingOk(s: Books, b: nat)
    requires b < |s.bookings|
  {
    var rows := Rows(s.entries, ForBooking(b));
    |rows| >= 2 && Posted(rows, Charge(s.bookings[b], b, rows[0].id), s.bookings[b].voided)
  }

  predicate PaymentOk(s: Books, n: nat)
    requires n < |s.payments|
  {
    var rows := Rows(s.entries, ForPayment(n));
    |rows| >= 2 && Posted(rows, Receipt(s.payments[n], n, rows[0].id, rows[0].period), s.payments[n].reversed)
  }

  ghost predicate Known(s: Books, ref: Ref) {
    match ref case ForBooking(b) => b < |s.bookings| case ForPayment(n) => n < |s.payments| case NoRef => true
  }

  ghost predicate Inv(s: Books) {
    (forall i :: 0 <= i < |s.entries| ==> s.entries[i].id == i && Known(s, s.entries[i].ref))
    && (forall b :: 0 <= b < |s.bookings| ==> BookingOk(s, b))
    && (forall n :: 0 <= n < |s.payments| ==> PaymentOk(s, n))
    && s.open !in s.closed
  }

  lemma ReversalsOfTwo(charge: seq<Entry>, id: nat, period: Period)
    requires |charge| == 2
    ensures Reversals(charge, id, period) == [Negated(charge[0], id, period), Negated(charge[1], id + 1, period)]
  {
    assert charge[..1][..0] == [];
    assert Reversals(charge[..1], id, period) == [Negated(charge[0], id, period)];
  }

  lemma OriginalsOfPosted(rows: seq<Entry>, ref: Ref)
    requires |rows| == 2 && rows[0].ref == ref && rows[1].ref == ref && rows[0].reversal.None? && rows[1].reversal.None?
    ensures Originals(rows, ref) == rows
  {
    assert rows[..1][..0] == [];
    assert Originals(rows[..1], ref) == [rows[0]];
  }

  /** Appending entries of one reference leaves the rows of every other reference alone. */
  lemma OtherRows(xs: seq<Entry>, ys: seq<Entry>, ref: Ref, other: Ref)
    requires ref != other && forall e <- ys :: e.ref == ref
    ensures Rows(xs + ys, other) == Rows(xs, other) && Rows(xs + ys, ref) == Rows(xs, ref) + ys
  {
    RowsAppend(xs, ys, other);
    RowsAppend(xs, ys, ref);
    RowsAll(ys, other, false);
    RowsAll(ys, ref, true);
  }

  lemma UnknownRows(s: Books, ref: Ref)
    requires Inv(s) && !Known(s, ref)
    ensures Rows(s.entries, ref) == []
  {
    RowsAll(s.entries, ref, false);
  }

  // ---------------------------------------------------------------- commands

  /** Appended entries all belong to one source: every other source keeps its rows. */
  ghost predicate Appends(s: Books, s': Books, posted: seq<Entry>, ref: Ref) {
    s'.entries == s.entries + posted && |s.bookings| <= |s'.bookings| && |s.payments| <= |s'.payments|
    && s'.open == s.open && s'.closed == s.closed && Known(s', ref)
    && forall i :: 0 <= i < |posted| ==> posted[i].id == |s.entries| + i && posted[i].ref == ref
  }

  lemma AppendsKeeps(s: Books, s': Books, posted: seq<Entry>, ref: Ref)
    requires Inv(s) && Appends(s, s', posted, ref)
    requires forall b :: 0 <= b < |s'.bookings| && ForBooking(b) != ref ==> b < |s.bookings| && s'.bookings[b] == s.bookings[b]
    requires forall n :: 0 <= n < |s'.payments| && ForPayment(n) != ref ==> n < |s.payments| && s'.payments[n] == s.payments[n]
    requires ref.ForBooking? ==> BookingOk(s', ref.booking)
    requires ref.ForPayment? ==> PaymentOk(s', ref.payment)
    ensures Inv(s')
  {
    forall b | 0 <= b < |s'.bookings| ensures BookingOk(s', b) {
      if ForBooking(b) != ref {
        OtherRows(s.entries, posted, ref, ForBooking(b));
        assert BookingOk(s, b);
      }
    }
    forall n | 0 <= n < |s'.payments| ensures PaymentOk(s', n) {
      if ForPayment(n) != ref {
        OtherRows(s.entries, posted, ref, ForPayment(n));
        assert PaymentOk(s, n);
      }
    }
  }

  lemma BookKeeps(s: Books, k: Booking)
    requires Inv(s) && !k.voided
    ensures Inv(DoBook(s, k))
  {
    var ref := ForBooking(|s.bookings|);
    var posted := Charge(k, |s.bookings|, |s.entries|);
    UnknownRows(s, ref);
    OtherRows(s.entries, posted, ref, NoRef);
    assert Rows(s.entries + posted, ref) == posted && posted[..2] == posted;
    AppendsKeeps(s, DoBook(s, k), posted, ref);
  }

  lemma PayKeeps(s: Books, p: Payment)
    requires Inv(s) && !p.reversed
    ensures Inv(DoPay(s, p))
  {
    var ref := ForPayment(|s.payments|);
    var posted := Receipt(p, |s.payments|, |s.entries|, s.open);
    UnknownRows(s, ref);
    OtherRows(s.entries, posted, ref, NoRef);
    assert Rows(s.entries + posted, ref) == posted && posted[..2] == posted;
    AppendsKeeps(s, DoPay(s, p), posted, ref);
  }

  /** The statement that selects the originals of an unreversed source finds its two postings. */
  lemma OriginalsFound(entries: seq<Entry>, ref: Ref, charge: seq<Entry>)
    requires |charge| == 2 && Posted(Rows(entries, ref), charge, false)
    requires forall e <- charge :: e.ref == ref && e.reversal.None?
    ensures Originals(entries, ref) == charge
  {
    OriginalsOfRows(entries, ref);
    assert Rows(entries, ref) == charge;
    assert charge[0] in charge && charge[1] in charge;
    OriginalsOfPosted(charge, ref);
  }

  lemma VoidKeeps(s: Books, b: nat)
    requires Inv(s) && b < |s.bookings| && !s.bookings[b].voided
    ensures Inv(DoVoid(s, b))
    ensures var rows := Rows(s.entries, ForBooking(b));
            DoVoid(s, b).entries == s.entries + Reversals(rows, |s.entries|, s.open)
  {
    var ref := ForBooking(b);
    assert BookingOk(s, b);
    var charge := Rows(s.entries, ref);
    assert charge[..2] == charge;
    OriginalsFound(s.entries, ref, charge);
    var posted := Reversals(charge, |s.entries|, s.open);
    ReversalsOfTwo(charge, |s.entries|, s.open);
    OtherRows(s.entries, posted, ref, NoRef);
    var s' := DoVoid(s, b);
    assert Rows(s'.entries, ref) == charge + posted;
    assert (charge + posted)[2..] == posted && (charge + posted)[..2] == charge;
    AppendsKeeps(s, s', posted, ref);
  }

  lemma ReversePaymentKeeps(s: Books, n: nat)
    requires Inv(s) && n < |s.payments| && !s.payments[n].reversed
    ensures Inv(DoReversePayment(s, n))
    ensures var rows := Rows(s.entries, ForPayment(n));
            DoReversePayment(s, n).entries == s.entries + Reversals(rows, |s.entries|, s.open)
  {
    var ref := ForPayment(n);
    assert PaymentOk(s, n);
    var charge := Rows(s.entries, ref);
    assert charge[..2] == charge;
    OriginalsFound(s.entries, ref, charge);
    var posted := Reversals(charge, |s.entries|, s.open);
    ReversalsOfTwo(charge, |s.entries|, s.open);
    OtherRows(s.entries, posted, ref, NoRef);
    var s' := DoReversePayment(s, n);
    assert Rows(s'.entries, ref) == charge + posted;
    assert (charge + posted)[2..] == posted && (charge + posted)[..2] == charge;
    AppendsKeeps(s, s', posted, ref);
  }

  lemma AdjustKeeps(s: Books, m: Member, amount: int)
    requires Inv(s)
    ensures Inv(DoAdjust(s, m, amount))
  {
    var posted := DoAdjust(s, m, amount).entries[|s.entries|..];
    AppendsKeeps(s, DoAdjust(s, m, amount), posted, NoRef);
  }

  lemma CloseKeeps(s: Books, next: Period)
    requires Inv(s)
    ensures Inv(Apply(s, ClosePeriod(next)))
  {
    var s' := Apply(s, ClosePeriod(next));
    forall b | 0 <= b < |s'.bookings| ensures BookingOk(s', b) {
      assert BookingOk(s, b);
    }
    forall n | 0 <= n < |s'.payments| ensures PaymentOk(s', n) {
      assert PaymentOk(s, n);
    }
  }

  lemma ApplyKeeps(s: Books, c: Command)
    requires Inv(s)
    ensures Inv(Apply(s, c))
  {
    match c {
      case Book(actor, target, total) => BookKeeps(s, Booking(s.open, actor, target, total, false));
      case Void(b, allowed) =>
        if b < |s.bookings| && !s.bookings[b].voided && allowed {
          VoidKeeps(s, b);
        }
      case Pay(m, amount) => PayKeeps(s, Payment(m, amount, false));
      case ReversePayment(n) =>
        if n < |s.payments| && !s.payments[n].reversed {
          ReversePaymentKeeps(s, n);
        }
      case Adjust(m, amount) => AdjustKeeps(s, m, amount);
      case ClosePeriod(next) => CloseKeeps(s, next);
    }
  }

  lemma {:induction false} RunInv(states: seq<Books>, commands: seq<Command>, i: nat)
    requires Run(states, commands) && i < |states|
    ensures Inv(states[i])
  {
    if i > 0 {
      RunInv(states, commands, i - 1);
      ApplyKeeps(states[i - 1], commands[i - 1]);
    }
  }

  // ---------------------------------------------------------------- what it means

  /** In every reachable state a booking's rows sum to zero; an unvoided one has its receivable
      and its revenue row, a voided one four rows that cancel on each account, and each original
      is reversed by exactly one row. */
  lemma BookingBalanced(s: Books, b: nat)
    requires Inv(s) && b < |s.bookings|
    ensures var rows := Rows(s.entries, ForBooking(b));
            var k := s.bookings[b];
            Sum(rows) == 0
            && (!k.voided ==> |rows| == 2 && SumOn(rows, MemberReceivable) == k.total && SumOn(rows, CategoryRevenue) == -k.total)
            && (k.voided ==> |rows| == 4 && SumOn(rows, MemberReceivable) == 0 && SumOn(rows, CategoryRevenue) == 0
                             && rows[2].reversal == Some(rows[0].id) && rows[3].reversal == Some(rows[1].id)
                             && rows[2].account == rows[0].account && rows[3].account == rows[1].account)
            && rows[0].id != rows[1].id && rows[0].reversal.None? && rows[1].reversal.None?
  {
    assert BookingOk(s, b);
    var rows := Rows(s.entries, ForBooking(b));
    ReversalsOfTwo(rows[..2], if |rows| == 4 then rows[2].id else 0, if |rows| == 4 then rows[2].period else 0);
    SumsOfRows(rows);
  }

  lemma SumsOfRows(rows: seq<Entry>)
    ensures |rows| == 2 ==> Sum(rows) == rows[0].amount + rows[1].amount
    ensures |rows| == 4 ==> Sum(rows) == rows[0].amount + rows[1].amount + rows[2].amount + rows[3].amount
    ensures forall a: Account :: |rows| == 2 ==>
              SumOn(rows, a) == (if rows[0].account == a then rows[0].amount else 0) + (if rows[1].account == a then rows[1].amount else 0)
    ensures forall a: Account :: |rows| == 4 ==>
              SumOn(rows, a) == (if rows[0].account == a then rows[0].amount else 0) + (if rows[1].account == a then rows[1].amount else 0)
                                + (if rows[2].account == a then rows[2].amount else 0) + (if rows[3].account == a then rows[3].amount else 0)
  {
    if |rows| == 2 {
      SumsOfTwo(rows);
    } else if |rows| == 4 {
      SumsOfTwo(rows[..2]);
      assert rows[..3][..2] == rows[..2];
      assert Sum(rows[..3]) == Sum(rows[..2]) + rows[2].amount;
      assert forall a: Account :: SumOn(rows[..3], a) == SumOn(rows[..2], a) + if rows[2].account == a then rows[2].amount else 0;
    }
  }

  lemma SumsOfTwo(rows: seq<Entry>)
    requires |rows| == 2
    ensures Sum(rows) == rows[0].amount + rows[1].amount
    ensures forall a: Account ::
              SumOn(rows, a) == (if rows[0].account == a then rows[0].amount else 0) + (if rows[1].account == a then rows[1].amount else 0)
  {
    assert rows[..1][..0] == [];
    assert Sum(rows[..1]) == rows[0].amount;
    assert forall a: Account :: SumOn(rows[..1], a) == if rows[0].account == a then rows[0].amount else 0;
  }

  /** A command appends to the ledger, and only into the period that was open. */
  lemma AppliesInOpenPeriod(s: Books, c: Command, period: Period)
    requires Inv(s) && period != s.open
    ensures s.entries <= Apply(s, c).entries && InPeriod(Apply(s, c).entries, period) == InPeriod(s.entries, period)
    ensures forall k :: |s.entries| <= k < |Apply(s, c).entries| ==> Apply(s, c).entries[k].period != period
    ensures s.closed <= Apply(s, c).closed
  {
    hide Inv, Apply;
    var posted := PostsInOpenPeriod(s, c);
    InPeriodAppend(s.entries, posted, period);
    NoneInPeriod(posted, period);
    forall k | |s.entries| <= k < |s.entries + posted| ensures (s.entries + posted)[k] in posted {
    }
  }

  lemma PostsInOpenPeriod(s: Books, c: Command) returns (posted: seq<Entry>)
    requires Inv(s)
    ensures Apply(s, c).entries == s.entries + posted && s.closed <= Apply(s, c).closed
    ensures forall e <- posted :: e.period == s.open
  {
    var s' := Apply(s, c);
    posted := s'.entries[|s.entries|..];
    if c.Void? && s' != s {
      posted := VoidPosts(s, c.booking);
    } else if c.ReversePayment? && s' != s {
      posted := ReversalPosts(s, c.payment);
    }
  }

  lemma VoidPosts(s: Books, b: nat) returns (posted: seq<Entry>)
    requires Inv(s) && b < |s.bookings| && !s.bookings[b].voided
    ensures DoVoid(s, b).entries == s.entries + posted && |posted| == 2
    ensures posted[0].period == s.open && posted[1].period == s.open
  {
    VoidKeeps(s, b);
    assert BookingOk(s, b);
    posted := Reversals(Rows(s.entries, ForBooking(b)), |s.entries|, s.open);
    ReversalsOfTwo(Rows(s.entries, ForBooking(b)), |s.entries|, s.open);
  }

  lemma ReversalPosts(s: Books, n: nat) returns (posted: seq<Entry>)
    requires Inv(s) && n < |s.payments| && !s.payments[n].reversed
    ensures DoReversePayment(s, n).entries == s.entries + posted && |posted| == 2
    ensures posted[0].period == s.open && posted[1].period == s.open
  {
    ReversePaymentKeeps(s, n);
    assert PaymentOk(s, n);
    posted := Reversals(Rows(s.entries, ForPayment(n)), |s.entries|, s.open);
    ReversalsOfTwo(Rows(s.entries, ForPayment(n)), |s.entries|, s.open);
  }

  lemma {:induction false} NoneInPeriod(entries: seq<Entry>, period: Period)
    requires forall e <- entries :: e.period != period
    ensures InPeriod(entries, period) == []
  {
    if entries != [] {
      assert entries[|entries| - 1] in entries;
      NoneInPeriod(entries[..|entries| - 1], period);
    }
  }

  /** Over every run the ledger only grows and what a closed period holds, hence every sum over
      it, never changes again. */
  lemma {:induction false} ClosedPeriodsFrozen(states: seq<Books>, commands: seq<Command>, i: nat, j: nat, period: Period)
    requires Run(states, commands) && i <= j < |states| && period in states[i].closed
    ensures InPeriod(states[j].entries, period) == InPeriod(states[i].entries, period)
    ensures period in states[j].closed && states[i].entries <= states[j].entries
    ensures forall k :: |states[i].entries| <= k < |states[j].entries| ==> states[j].entries[k].period != period
    decreases j - i
  {
    if i < j {
      ClosedPeriodsFrozen(states, commands, i, j - 1, period);
      RunInv(states, commands, j - 1);
      AppliesInOpenPeriod(states[j - 1], commands[j - 1], period);
    }
  }

  // ---------------------------------------------------------------- who owes what after a command

  /** What a command adds to a member's receivable: the target of a booking owes its total, the
      payer of a payment as much less, the reversal of either the opposite; a correction is as it
      says; refused commands and closing a period move nothing. */
  function Charged(s: Books, c: Command, m: Member): int {
    match c
    case Book(_, target, total) => if target == m then total else 0
    case Void(b, allowed) =>
      if b < |s.bookings| && !s.bookings[b].voided && allowed && s.bookings[b].target == m then -s.bookings[b].total else 0
    case Pay(member, amount) => if member == m then -amount else 0
    case ReversePayment(n) =>
      if n < |s.payments| && !s.payments[n].reversed && s.payments[n].member == m then s.payments[n].amount else 0
    case Adjust(member, amount) => if member == m then amount else 0
    case ClosePeriod(_) => 0
  }

  lemma BalanceOfTwo(entries: seq<Entry>, posted: seq<Entry>, m: Member)
    requires |posted| == 2
    ensures Balance(entries + posted, m) == Balance(entries, m) + Owed(posted[0], m) + Owed(posted[1], m)
    ensures Sum(entries + posted) == Sum(entries) + posted[0].amount + posted[1].amount
  {
    assert entries + posted == entries + [posted[0]] + [posted[1]];
    assert (entries + [posted[0]] + [posted[1]])[..|entries| + 1] == entries + [posted[0]];
    assert (entries + [posted[0]])[..|entries|] == entries;
  }

  lemma VoidBalance(s: Books, b: nat, m: Member)
    requires Inv(s) && b < |s.bookings| && !s.bookings[b].voided
    ensures Balance(DoVoid(s, b).entries, m) == Balance(s.entries, m) - if s.bookings[b].target == m then s.bookings[b].total else 0
    ensures Sum(DoVoid(s, b).entries) == Sum(s.entries)
  {
    hide Inv, Balance, Sum, DoVoid;
    VoidKeeps(s, b);
    var rows := Rows(s.entries, ForBooking(b));
    assert rows == Charge(s.bookings[b], b, rows[0].id) by { BookingRows(s, b); }
    ReversalsOfTwo(rows, |s.entries|, s.open);
    BalanceOfTwo(s.entries, Reversals(rows, |s.entries|, s.open), m);
  }

  lemma BookingRows(s: Books, b: nat)
    requires Inv(s) && b < |s.bookings| && !s.bookings[b].voided
    ensures var rows := Rows(s.entries, ForBooking(b)); |rows| == 2 && rows == Charge(s.bookings[b], b, rows[0].id)
  {
    assert BookingOk(s, b);
    var rows := Rows(s.entries, ForBooking(b));
    assert rows[..2] == rows;
  }

  lemma PaymentRows(s: Books, n: nat)
    requires Inv(s) && n < |s.payments| && !s.payments[n].reversed
    ensures var rows := Rows(s.entries, ForPayment(n)); |rows| == 2 && rows == Receipt(s.payments[n], n, rows[0].id, rows[0].period)
  {
    assert PaymentOk(s, n);
    var rows := Rows(s.entries, ForPayment(n));
    assert rows[..2] == rows;
  }

  lemma ReversedPaymentBalance(s: Books, n: nat, m: Member)
    requires Inv(s) && n < |s.payments| && !s.payments[n].reversed
    ensures Balance(DoReversePayment(s, n).entries, m)
            == Balance(s.entries, m) + if s.payments[n].member == m then s.payments[n].amount else 0
    ensures Sum(DoReversePayment(s, n).entries) == Sum(s.entries)
  {
    hide Inv, Balance, Sum, DoReversePayment;
    ReversePaymentKeeps(s, n);
    var rows := Rows(s.entries, ForPayment(n));
    assert |rows| == 2 && rows == Receipt(s.payments[n], n, rows[0].id, rows[0].period) by { PaymentRows(s, n); }
    ReversalsOfTwo(rows, |s.entries|, s.open);
    BalanceOfTwo(s.entries, Reversals(rows, |s.entries|, s.open), m);
  }

  /** After any command every member's receivable has changed by exactly what the command charges,
      and the whole ledger still sums to what it did. */
  lemma CommandCharges(s: Books, c: Command, m: Member)
    requires Inv(s)
    ensures Balance(Apply(s, c).entries, m) == Balance(s.entries, m) + Charged(s, c, m)
    ensures Sum(Apply(s, c).entries) == Sum(s.entries)
  {
    hide Inv, Balance, Sum, DoVoid, DoReversePayment, Rows;
    match c {
      case Book(actor, target, total) =>
        BalanceOfTwo(s.entries, Charge(Booking(s.open, actor, target, total, false), |s.bookings|, |s.entries|), m);
      case Void(b, allowed) =>
        if b < |s.bookings| && !s.bookings[b].voided && allowed {
          VoidBalance(s, b, m);
        }
      case Pay(member, amount) =>
        BalanceOfTwo(s.entries, Receipt(Payment(member, amount, false), |s.payments|, |s.entries|, s.open), m);
      case ReversePayment(n) =>
        if n < |s.payments| && !s.payments[n].reversed {
          ReversedPaymentBalance(s, n, m);
        }
      case Adjust(member, amount) =>
        var posted := DoAdjust(s, member, amount).entries[|s.entries|..];
        assert DoAdjust(s, member, amount).entries == s.entries + posted;
        BalanceOfTwo(s.entries, posted, m);
      case ClosePeriod(_) =>
    }
  }

  /** In every reachable state the whole ledger sums to zero. */
  lemma {:induction false} LedgerBalanced(states: seq<Books>, commands: seq<Command>, i: nat)
    requires Run(states, commands) && i < |states|
    ensures Sum(states[i].entries) == 0
  {
    hide Apply, Inv;
    if i > 0 {
      LedgerBalanced(states, commands, i - 1);
      RunInv(states, commands, i - 1);
      CommandCharges(states[i - 1], commands[i - 1], 0);
    }
  }

  /** What a command leaves in the tables of sources and periods, in columns: at most one row is
      added or one reversed, as the command says. */
  predicate RowsFollow(s: Books, c: Command, s': Books) {
    match c
    case Book(actor, target, total) =>
      s'.bookings == s.bookings + [Booking(s.open, actor, target, total, false)] && s'.payments == s.payments && SamePeriods(s, s')
    case Void(b, allowed) =>
      b < |s.bookings| && s'.bookings == s.bookings[b := s.bookings[b].(voided := true)] && s'.payments == s.payments && SamePeriods(s, s')
    case Pay(member, amount) =>
      s'.bookings == s.bookings && s'.payments == s.payments + [Payment(member, amount, false)] && SamePeriods(s, s')
    case ReversePayment(n) =>
      n < |s.payments| && s'.bookings == s.bookings && s'.payments == s.payments[n := s.payments[n].(reversed := true)] && SamePeriods(s, s')
    case Adjust(_, _) => s'.bookings == s.bookings && s'.payments == s.payments && SamePeriods(s, s')
    case ClosePeriod(next) =>
      s'.bookings == s.bookings && s'.payments == s.payments && s'.entries == s.entries
      && s'.open == next && s'.closed == s.closed + {s.open}
  }

  predicate SamePeriods(s: Books, s': Books) { s'.open == s.open && s'.closed == s.closed }
}
