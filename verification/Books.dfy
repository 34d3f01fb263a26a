/**
 A group's books: bookings, payments and the append-only double-entry ledger that every command
 posts to.  An entry is immutable; its identifier is its position.  Amounts are minor units;
 the closed-period and append-only triggers of the database are properties of the commands here.
 */
module Books {
  import opened Options

  type Member = nat
  type Period = nat

  datatype Account = MemberReceivable | CategoryRevenue | Counter
  datatype Ref = ForBooking(booking: nat) | ForPayment(payment: nat) | NoRef
  datatype Entry = Entry(id: nat, period: Period, account: Account, member: Option<Member>, ref: Ref, reversal: Option<nat>,
                         amount: int)

  datatype Booking = Booking(period: Period, actor: Member, target: Member, total: int, voided: bool)
  datatype Payment = Payment(member: Member, amount: int, reversed: bool)

  datatype Books = Books(entries: seq<Entry>, bookings: seq<Booking>, payments: seq<Payment>, open: Period, closed: set<Period>)

  // ---------------------------------------------------------------- reading the ledger

  /** The entries of one booking or payment, in ledger order. */
  function Rows(entries: seq<Entry>, ref: Ref): seq<Entry> {
    if entries == [] then []
    else
      var last := entries[|entries| - 1];
      var before := Rows(entries[..|entries| - 1], ref);
      if last.ref == ref then before + [last] else before
  }

  function Originals(entries: seq<Entry>, ref: Ref): seq<Entry> {
    if entries == [] then []
    else
      var last := entries[|entries| - 1];
      var before := Originals(entries[..|entries| - 1], ref);
      if last.ref == ref && last.reversal.None? then before + [last] else before
  }

  function InPeriod(entries: seq<Entry>, period: Period): seq<Entry> {
    if entries == [] then []
    else
      var last := entries[|entries| - 1];
      var before := InPeriod(entries[..|entries| - 1], period);
      if last.period == period then before + [last] else before
  }

  function Sum(entries: seq<Entry>): int {
    if entries == [] then 0 else Sum(entries[..|entries| - 1]) + entries[|entries| - 1].amount
  }

  function SumOn(entries: seq<Entry>, account: Account): int {
    if entries == [] then 0
    else SumOn(entries[..|entries| - 1], account)
         + if entries[|entries| - 1].account == account then entries[|entries| - 1].amount else 0
  }

  function Owed(e: Entry, m: Member): int {
    if e.account.MemberReceivable? && e.member == Some(m) then e.amount else 0
  }

  /** A member's receivable balance. */
  function Balance(entries: seq<Entry>, m: Member): int {
    if entries == [] then 0 else Balance(entries[..|entries| - 1], m) + Owed(entries[|entries| - 1], m)
  }

  // ---------------------------------------------------------------- postings

  function Charge(k: Booking, b: nat, id: nat): seq<Entry> {
    [Entry(id, k.period, MemberReceivable, Some(k.target), ForBooking(b), None, k.total),
     Entry(id + 1, k.period, CategoryRevenue, None, ForBooking(b), None, -k.total)]
  }

  function Receipt(p: Payment, n: nat, id: nat, period: Period): seq<Entry> {
    [Entry(id, period, MemberReceivable, Some(p.member), ForPayment(n), None, -p.amount),
     Entry(id + 1, period, Counter, None, ForPayment(n), None, p.amount)]
  }

  function Negated(e: Entry, id: nat, period: Period): Entry {
    e.(id := id, period := period, reversal := Some(e.id), amount := -e.amount)
  }

  /** One negated copy per original, appended in order into the open period. */
  function Reversals(originals: seq<Entry>, id: nat, period: Period): seq<Entry> {
    if originals == [] then []
    else
      var n := |originals| - 1;
      Reversals(originals[..n], id, period) + [Negated(originals[n], id + n, period)]
  }

  // ---------------------------------------------------------------- commands

  datatype Command =
    | Book(actor: Member, target: Member, total: int)
    | Void(booking: nat, allowed: bool)
    | Pay(member: Member, amount: int)
    | ReversePayment(payment: nat)
    | Adjust(member: Member, amount: int)
    | ClosePeriod(next: Period)

  function DoBook(s: Books, k: Booking): Books {
    s.(bookings := s.bookings + [k], entries := s.entries + Charge(k, |s.bookings|, |s.entries|))
  }

  function DoVoid(s: Books, b: nat): Books
    requires b < |s.bookings|
  {
    s.(bookings := s.bookings[b := s.bookings[b].(voided := true)],
       entries := s.entries + Reversals(Originals(s.entries, ForBooking(b)), |s.entries|, s.open))
  }

  function DoPay(s: Books, p: Payment): Books {
    s.(payments := s.payments + [p], entries := s.entries + Receipt(p, |s.payments|, |s.entries|, s.open))
  }

  function DoReversePayment(s: Books, n: nat): Books
    requires n < |s.payments|
  {
    s.(payments := s.payments[n := s.payments[n].(reversed := true)],
       entries := s.entries + Reversals(Originals(s.entries, ForPayment(n)), |s.entries|, s.open))
  }

  function DoAdjust(s: Books, m: Member, amount: int): Books {
    s.(entries := s.entries + [Entry(|s.entries|, s.open, MemberReceivable, Some(m), NoRef, None, amount),
                               Entry(|s.entries| + 1, s.open, Counter, None, NoRef, None, -amount)])
  }

  /** Refused commands (unknown or already reversed source, missing permission or reason, a
      period that was used before) change nothing. */
  function Apply(s: Books, c: Command): Books {
    match c
    case Book(actor, target, total) => DoBook(s, Booking(s.open, actor, target, total, false))
    case Void(b, allowed) => if b < |s.bookings| && !s.bookings[b].voided && allowed then DoVoid(s, b) else s
    case Pay(m, amount) => DoPay(s, Payment(m, amount, false))
    case ReversePayment(n) => if n < |s.payments| && !s.payments[n].reversed then DoReversePayment(s, n) else s
    case Adjust(m, amount) => DoAdjust(s, m, amount)
    case ClosePeriod(next) => if next == s.open || next in s.closed then s else s.(open := next, closed := s.closed + {s.open})
  }

  predicate Init(s: Books) { s.entries == [] && s.bookings == [] && s.payments == [] && s.closed == {} }

  predicate Run(states: seq<Books>, commands: seq<Command>) {
    |states| == |commands| + 1 && Init(states[0])
    && forall i :: 0 <= i < |commands| ==> states[i + 1] == Apply(states[i], commands[i])
  }
}
