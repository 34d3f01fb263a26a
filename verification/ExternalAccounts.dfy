/**
 External accounts of a group: their lifecycle, the payment methods linked to them, and the
 ledger legs that make up their balances.  A rejected command rolls its transaction back.
 */
module ExternalAccounts {
  import opened Int64
  import opened Options

  type Id = nat
  type Method = nat

  datatype Kind = PaymentKind | Manual | Transfer | Reversal
  datatype Account = Account(archived: bool, deleted: bool)
  datatype Transaction = Transaction(kind: Kind, primary: Id, counterparty: Option<Id>, payment: Option<nat>, amount: int,
                                     reverses: Option<nat>)
  datatype Leg = Leg(account: Id, amount: int, tx: nat)

  datatype Store = Store(accounts: map<Id, Account>, links: map<Method, Option<Id>>, transactions: seq<Transaction>,
                         legs: seq<Leg>)

  datatype Command =
    | Create(id: Id, opening: Option<int>)
    | SetArchived(id: Id, archive: bool)
    | Delete(id: Id)
    | ReplaceLinks(links: seq<(Method, Option<Id>)>)
    | Move(primary: Id, counterparty: Option<Id>, amount: int)
    | PostPayment(via: Method, payment: nat, amount: int)
    | ReverseMove(tx: nat)
    | ReversePayment(payment: nat)

  // ---------------------------------------------------------------- balances

  function Balance(legs: seq<Leg>, id: Id): int {
    if legs == [] then 0
    else Balance(legs[..|legs| - 1], id) + if legs[|legs| - 1].account == id then legs[|legs| - 1].amount else 0
  }

  /** One guarded insertion of an account leg. */
  function Inserted(legs: seq<Leg>, leg: Leg): Option<seq<Leg>> {
    if Representable(Balance(legs, leg.account) + leg.amount) then Some(legs + [leg]) else None
  }

  function InsertedAll(legs: seq<Leg>, more: seq<Leg>): Option<seq<Leg>> {
    if more == [] then Some(legs)
    else
      match InsertedAll(legs, more[..|more| - 1])
      case None => None
      case Some(before) => Inserted(before, more[|more| - 1])
  }

  function LegsOf(legs: seq<Leg>, tx: nat): seq<Leg> {
    if legs == [] then []
    else
      var before := LegsOf(legs[..|legs| - 1], tx);
      if legs[|legs| - 1].tx == tx then before + [legs[|legs| - 1]] else before
  }

  function Negated(legs: seq<Leg>, tx: nat): seq<Leg> {
    seq(|legs|, i requires 0 <= i < |legs| => Leg(legs[i].account, -legs[i].amount, tx))
  }

  // ---------------------------------------------------------------- guards

  predicate Usable(s: Store, id: Id) { id in s.accounts && !s.accounts[id].deleted && !s.accounts[id].archived }

  predicate Linked(s: Store, id: Id) { exists m <- s.links.Keys :: s.links[m] == Some(id) }

  predicate HasTransactions(s: Store, id: Id) {
    (exists t <- s.transactions :: t.primary == id || t.counterparty == Some(id)) || exists leg <- s.legs :: leg.account == id
  }

  // What the delete command counts, instead of asking whether there is any.

  function TransactionCount(ts: seq<Transaction>, id: Id): nat {
    if ts == [] then 0
    else
      var t := ts[|ts| - 1];
      TransactionCount(ts[..|ts| - 1], id) + if t.primary == id || t.counterparty == Some(id) then 1 else 0
  }

  function LegCount(legs: seq<Leg>, id: Id): nat {
    if legs == [] then 0 else LegCount(legs[..|legs| - 1], id) + if legs[|legs| - 1].account == id then 1 else 0
  }

  function LinkedMethods(links: map<Method, Option<Id>>, id: Id): set<Method> { set m <- links.Keys | links[m] == Some(id) }

  /** The flags published with every visible account. */
  predicate CanDelete(s: Store, id: Id)
    requires id in s.accounts
  {
    s.accounts[id].archived && !Linked(s, id) && (!HasTransactions(s, id) || Balance(s.legs, id) == 0)
  }

  predicate CanArchive(s: Store, id: Id)
    requires id in s.accounts
  {
    !s.accounts[id].archived
  }

  predicate CanReactivate(s: Store, id: Id)
    requires id in s.accounts
  {
    s.accounts[id].archived
  }

  /** Every method of the group exactly once, and only active, undeleted targets. */
  predicate CompleteMapping(s: Store, links: seq<(Method, Option<Id>)>) {
    |links| == |s.links| && (forall i :: 0 <= i < |links| ==> links[i].0 in s.links)
    && (forall i, j :: 0 <= i < j < |links| ==> links[i].0 != links[j].0)
    && forall i :: 0 <= i < |links| && links[i].1.Some? ==> Usable(s, links[i].1.value)
  }

  function Mapped(links: seq<(Method, Option<Id>)>, before: map<Method, Option<Id>>): map<Method, Option<Id>> {
    if links == [] then before
    else Mapped(links[..|links| - 1], before)[links[|links| - 1].0 := links[|links| - 1].1]
  }

  // ---------------------------------------------------------------- commands

  function Recorded(s: Store, t: Transaction, more: seq<Leg>): Option<Store> {
    match InsertedAll(s.legs, more)
    case None => None
    case Some(legs) => Some(s.(transactions := s.transactions + [t], legs := legs))
  }

  function DoMove(s: Store, primary: Id, counterparty: Option<Id>, amount: int): Option<Store> {
    if !Usable(s, primary) || (counterparty.Some? && (!Usable(s, counterparty.value) || counterparty.value == primary)) || amount == 0
    then None
    else
      var n := |s.transactions|;
      Recorded(s, Transaction(if counterparty.Some? then Transfer else Manual, primary, counterparty, None, amount, None),
               [Leg(primary, amount, n)] + if counterparty.Some? then [Leg(counterparty.value, -amount, n)] else [])
  }

  datatype InputKind = Income | Expense | BetweenAccounts | UnknownKind

  /** A manual transaction as it is asked for: money goes from a source to a destination, one of
      which lies outside for income and expenses. */
  datatype Input = Input(kind: InputKind, source: Option<Id>, destination: Option<Id>, amount: int)

  datatype Normal = Normal(primary: Id, counterparty: Option<Id>, amount: int)

  const MAX_INPUT: int := 100_000_000_000_000

  /** The signed form: expenses and transfers are booked on the source with a negative amount. */
  function Normalized(input: Input): Option<Normal> {
    if input.amount <= 0 || input.amount > MAX_INPUT then None
    else
      match input.kind
      case Income =>
        if input.source.Some? || input.destination.None? then None else Some(Normal(input.destination.value, None, input.amount))
      case Expense =>
        if input.source.None? || input.destination.Some? then None else Some(Normal(input.source.value, None, -input.amount))
      case BetweenAccounts =>
        if input.source.None? || input.destination.None? || input.source == input.destination then None
        else Some(Normal(input.source.value, input.destination, -input.amount))
      case UnknownKind => None
  }

  function DoCreate(s: Store, id: Id, opening: Option<int>): Option<Store> {
    var s1 := s.(accounts := s.accounts[id := Account(false, false)]);
    if opening.Some? then DoMove(s1, id, None, opening.value) else Some(s1)
  }

  function DoSetArchived(s: Store, id: Id, archive: bool): Option<Store> {
    if id !in s.accounts || s.accounts[id].deleted || s.accounts[id].archived == archive then None
    else Some(s.(accounts := s.accounts[id := s.accounts[id].(archived := archive)],
                 links := if archive then map m <- s.links.Keys :: if s.links[m] == Some(id) then None else s.links[m] else s.links))
  }

  /** An unused account disappears, a used one must balance and stays as a historical identity. */
  function DoDelete(s: Store, id: Id): Option<Store> {
    if id !in s.accounts || s.accounts[id].deleted || !s.accounts[id].archived || |LinkedMethods(s.links, id)| != 0 then None
    else if TransactionCount(s.transactions, id) + LegCount(s.legs, id) == 0 then Some(s.(accounts := s.accounts - {id}))
    else if Balance(s.legs, id) != 0 then None
    else Some(s.(accounts := s.accounts[id := s.accounts[id].(deleted := true)]))
  }

  /** A method without a link posts nothing here. */
  function DoPostPayment(s: Store, via: Method, payment: nat, amount: int): Option<Store> {
    if via !in s.links then None
    else
      match s.links[via]
      case None => Some(s)
      case Some(id) =>
        if !Usable(s, id) then None
        else Recorded(s, Transaction(PaymentKind, id, None, Some(payment), amount, None), [Leg(id, amount, |s.transactions|)])
  }

  /** A reversal may move a deleted account's balance away from zero: that identity comes back,
      archived. */
  function Restored(s: Store, id: Option<Id>): Store {
    if id.Some? && id.value in s.accounts && s.accounts[id.value].deleted && Balance(s.legs, id.value) != 0
    then s.(accounts := s.accounts[id.value := Account(true, false)]) else s
  }

  predicate Reversed(s: Store, tx: nat) { exists t <- s.transactions :: t.reverses == Some(tx) }

  function DoReverse(s: Store, tx: nat): Option<Store>
    requires tx < |s.transactions|
  {
    var t := s.transactions[tx];
    match Recorded(s, Transaction(Reversal, t.primary, t.counterparty, t.payment, -t.amount, Some(tx)),
                   Negated(LegsOf(s.legs, tx), |s.transactions|))
    case None => None
    case Some(s1) => Some(Restored(Restored(s1, Some(t.primary)), t.counterparty))
  }

  predicate IsPaymentTx(s: Store, tx: nat, payment: nat) {
    tx < |s.transactions| && s.transactions[tx].kind.PaymentKind? && s.transactions[tx].payment == Some(payment)
  }

  /** `tx` is the transaction of the payment, if it has one. */
  function DoReversePayment(s: Store, tx: Option<nat>): Option<Store>
    requires tx.Some? ==> tx.value < |s.transactions|
  {
    if tx.None? then Some(s) else if Reversed(s, tx.value) then None else DoReverse(s, tx.value)
  }

  /** The store after a command; a rejected command changes nothing. */
  ghost predicate Next(s: Store, c: Command, s': Store) {
    match c
    case Create(id, opening) => id !in s.accounts && s' == Applied(s, DoCreate(s, id, opening))
    case SetArchived(id, archive) => s' == Applied(s, DoSetArchived(s, id, archive))
    case Delete(id) => s' == Applied(s, DoDelete(s, id))
    case ReplaceLinks(links) => s' == if CompleteMapping(s, links) then s.(links := Mapped(links, s.links)) else s
    case Move(primary, counterparty, amount) => s' == Applied(s, DoMove(s, primary, counterparty, amount))
    case PostPayment(via, payment, amount) => s' == Applied(s, DoPostPayment(s, via, payment, amount))
    case ReverseMove(tx) =>
      s' == if tx < |s.transactions| && !s.transactions[tx].kind.PaymentKind? && !s.transactions[tx].kind.Reversal? && !Reversed(s, tx)
            then Applied(s, DoReverse(s, tx)) else s
    case ReversePayment(payment) =>
      ((forall tx: nat :: !IsPaymentTx(s, tx, payment)) && s' == s)
      || exists tx: nat :: IsPaymentTx(s, tx, payment) && s' == Applied(s, DoReversePayment(s, Some(tx)))
  }

  function Applied(s: Store, r: Option<Store>): Store { if r.Some? then r.value else s }

  // ---------------------------------------------------------------- in place

  /** Adds the exact amounts up and tests the result, never an intermediate sum. */
  method EnsureBalanceDelta(legs: seq<Leg>, id: Id, delta: int) returns (ok: bool)
    ensures ok <==> Representable(Balance(legs, id) + delta)
  {
    var total := 0;
    for i := 0 to |legs|
      invariant total == Balance(legs[..i], id)
    {
      if legs[i].account == id {
        total := total + legs[i].amount;
      }
      assert legs[..i + 1][..i] == legs[..i];
    }
    assert legs[..|legs|] == legs;
    total := total + delta;
    ok := -MAX_INT64 - 1 <= total <= MAX_INT64;
  }

  /** The published balances: refused if any account's exact balance is out of range. */
  method Balances(legs: seq<Leg>) returns (r: Option<map<Id, int>>)
    ensures r.None? <==> exists leg <- legs :: !Representable(Balance(legs, leg.account))
    ensures r.Some? ==> forall id: Id ::
              (id in r.value <==> exists leg <- legs :: leg.account == id) && (id in r.value ==> r.value[id] == Balance(legs, id))
  {
    var totals: map<Id, int> := map[];
    for i := 0 to |legs|
      invariant forall id: Id :: id in totals <==> exists leg <- legs[..i] :: leg.account == id
      invariant forall id: Id :: (if id in totals then totals[id] else 0) == Balance(legs[..i], id)
    {
      var leg := legs[i];
      totals := totals[leg.account := (if leg.account in totals then totals[leg.account] else 0) + leg.amount];
      assert legs[..i + 1][..i] == legs[..i] && legs[..i + 1] == legs[..i] + [leg];
    }
    assert legs[..|legs|] == legs;
    if exists id <- totals.Keys :: !Representable(totals[id]) {
      ghost var id: Id :| id in totals && !Representable(totals[id]);
      return None;
    }
    r := Some(totals);
  }

  class LinkTable {
    var accounts: map<Id, Account>
    var links: map<Method, Option<Id>>

    /** Checks and writes link by link; a refusal restores the table. */
    method ReplacePaymentMethodLinks(input: seq<(Method, Option<Id>)>) returns (ok: bool)
      modifies this`links
      ensures ok <==> CompleteMapping(Store(accounts, old(links), [], []), input)
      ensures links == if ok then Mapped(input, old(links)) else old(links)
    {
      var before := links;
      ghost var s := Store(accounts, links, [], []);
      if |input| != |links| {
        return false;
      }
      var seen: set<Method> := {};
      for i := 0 to |input|
        invariant links == Mapped(input[..i], before)
        invariant seen == set k | 0 <= k < i :: input[k].0
        invariant forall k :: 0 <= k < i ==> input[k].0 in before && (input[k].1.Some? ==> Usable(s, input[k].1.value))
        invariant forall j, k :: 0 <= j < k < i ==> input[j].0 != input[k].0
      {
        var link := input[i];
        if link.0 !in before || link.0 in seen {
          links := before;
          return false;
        }
        if link.1.Some? {
          var id := link.1.value;
          if id !in accounts || accounts[id].deleted || accounts[id].archived {
            links := before;
            return false;
          }
        }
        seen := seen + {link.0};
        links := links[link.0 := link.1];
        assert input[..i + 1][..i] == input[..i];
      }
      assert input[..|input|] == input;
      ok := true;
    }
  }
}
