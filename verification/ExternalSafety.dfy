/**
 What every run of account, link, posting and reversal commands keeps: balances that fit in 64
 bits, links only to active accounts, deleted identities that hold no money, and published
 flags that say exactly what the commands would answer.
 */
module ExternalSafety {
  import opened Int64
  import opened Options
  import opened ExternalAccounts

  ghost predicate Bounded(legs: seq<Leg>) { forall id: Id :: Representable(Balance(legs, id)) }

  ghost predicate LinksActive(s: Store) { forall m <- s.links.Keys | s.links[m].Some? :: Usable(s, s.links[m].value) }

  predicate Touches(t: Transaction, id: Id) { t.primary == id || t.counterparty == Some(id) }

  ghost predicate Refs(s: Store) {
    (forall i :: 0 <= i < |s.transactions| ==>
       s.transactions[i].primary in s.accounts && (s.transactions[i].counterparty.Some? ==> s.transactions[i].counterparty.value in s.accounts))
    && forall i :: 0 <= i < |s.legs| ==>
         s.legs[i].account in s.accounts && s.legs[i].tx < |s.transactions| && Touches(s.transactions[s.legs[i].tx], s.legs[i].account)
  }

  ghost predicate DeletedSettled(s: Store) {
    forall id <- s.accounts.Keys | s.accounts[id].deleted :: s.accounts[id].archived && Balance(s.legs, id) == 0
  }

  ghost predicate Inv(s: Store) { Bounded(s.legs) && LinksActive(s) && Refs(s) && DeletedSettled(s) }

  // ---------------------------------------------------------------- legs

  lemma {:induction false} BalanceAppend(xs: seq<Leg>, ys: seq<Leg>, id: Id)
    ensures Balance(xs + ys, id) == Balance(xs, id) + Balance(ys, id)
  {
    if ys == [] {
      assert xs + ys == xs;
    } else {
      BalanceAppend(xs, ys[..|ys| - 1], id);
      assert (xs + ys)[..|xs + ys| - 1] == xs + ys[..|ys| - 1];
    }
  }

  lemma {:induction false} BalanceUntouched(legs: seq<Leg>, id: Id)
    requires forall i :: 0 <= i < |legs| ==> legs[i].account != id
    ensures Balance(legs, id) == 0
  {
    if legs != [] {
      BalanceUntouched(legs[..|legs| - 1], id);
    }
  }

  /** Guarded insertion appends, and keeps every balance representable. */
  lemma {:induction false} InsertedAllMeans(legs: seq<Leg>, more: seq<Leg>)
    requires Bounded(legs)
    ensures InsertedAll(legs, more).Some? ==> InsertedAll(legs, more).value == legs + more && Bounded(InsertedAll(legs, more).value)
  {
    if more != [] {
      var n := |more| - 1;
      InsertedAllMeans(legs, more[..n]);
      if InsertedAll(legs, more).Some? {
        var before := InsertedAll(legs, more[..n]).value;
        assert legs + more == before + [more[n]];
        forall id: Id ensures Representable(Balance(before + [more[n]], id)) {
          assert (before + [more[n]])[..|before|] == before;
        }
      }
    }
  }

  lemma {:induction false} LegsOfMeans(legs: seq<Leg>, tx: nat)
    ensures forall i :: 0 <= i < |LegsOf(legs, tx)| ==> LegsOf(legs, tx)[i] in legs && LegsOf(legs, tx)[i].tx == tx
  {
    if legs != [] {
      LegsOfMeans(legs[..|legs| - 1], tx);
    }
  }

  lemma {:induction false} NegatedBalance(legs: seq<Leg>, tx: nat, id: Id)
    ensures Balance(Negated(legs, tx), id) == -Balance(legs, id)
  {
    if legs != [] {
      var n := |legs| - 1;
      NegatedBalance(legs[..n], tx, id);
      assert Negated(legs, tx)[..n] == Negated(legs[..n], tx);
    }
  }

  // ---------------------------------------------------------------- commands

  /** A new transaction with legs on its own accounts, all of them not deleted. */
  lemma RecordedKeeps(s: Store, t: Transaction, more: seq<Leg>)
    requires Inv(s) && t.primary in s.accounts && (t.counterparty.Some? ==> t.counterparty.value in s.accounts)
    requires forall i :: 0 <= i < |more| ==> Touches(t, more[i].account) && more[i].tx == |s.transactions|
    requires Recorded(s, t, more).Some?
    ensures var s' := Recorded(s, t, more).value;
            Bounded(s'.legs) && LinksActive(s') && Refs(s') && s'.accounts == s.accounts && s'.legs == s.legs + more
    ensures forall id: Id :: !Touches(t, id) ==> Balance(Recorded(s, t, more).value.legs, id) == Balance(s.legs, id)
  {
    InsertedAllMeans(s.legs, more);
    forall id: Id | !Touches(t, id) ensures Balance(s.legs + more, id) == Balance(s.legs, id) {
      BalanceAppend(s.legs, more, id);
      BalanceUntouched(more, id);
    }
  }

  lemma MoveKeeps(s: Store, primary: Id, counterparty: Option<Id>, amount: int)
    requires Inv(s)
    ensures Inv(Applied(s, DoMove(s, primary, counterparty, amount)))
  {
    if DoMove(s, primary, counterparty, amount).Some? {
      var n := |s.transactions|;
      var t := Transaction(if counterparty.Some? then Transfer else Manual, primary, counterparty, None, amount, None);
      var more := [Leg(primary, amount, n)] + if counterparty.Some? then [Leg(counterparty.value, -amount, n)] else [];
      RecordedKeeps(s, t, more);
    }
  }

  lemma CreateKeeps(s: Store, id: Id, opening: Option<int>)
    requires Inv(s) && id !in s.accounts
    ensures Inv(Applied(s, DoCreate(s, id, opening)))
  {
    var s1 := s.(accounts := s.accounts[id := Account(false, false)]);
    assert Inv(s1);
    if opening.Some? {
      MoveKeeps(s1, id, None, opening.value);
    }
  }

  lemma SetArchivedKeeps(s: Store, id: Id, archive: bool)
    requires Inv(s)
    ensures Inv(Applied(s, DoSetArchived(s, id, archive)))
  {
  }

  lemma {:induction false} TransactionsCounted(ts: seq<Transaction>, id: Id)
    ensures TransactionCount(ts, id) != 0 <==> exists t <- ts :: t.primary == id || t.counterparty == Some(id)
  {
    if ts != [] {
      TransactionsCounted(ts[..|ts| - 1], id);
      assert ts == ts[..|ts| - 1] + [ts[|ts| - 1]];
    }
  }

  lemma {:induction false} LegsCounted(legs: seq<Leg>, id: Id)
    ensures LegCount(legs, id) != 0 <==> exists leg <- legs :: leg.account == id
  {
    if legs != [] {
      LegsCounted(legs[..|legs| - 1], id);
      assert legs == legs[..|legs| - 1] + [legs[|legs| - 1]];
    }
  }

  /** The delete command counts what the published flags ask for. */
  lemma CountsAgree(s: Store, id: Id)
    ensures |LinkedMethods(s.links, id)| != 0 <==> Linked(s, id)
    ensures TransactionCount(s.transactions, id) + LegCount(s.legs, id) != 0 <==> HasTransactions(s, id)
  {
    TransactionsCounted(s.transactions, id);
    LegsCounted(s.legs, id);
    if Linked(s, id) {
      var m :| m in s.links && s.links[m] == Some(id);
      assert m in LinkedMethods(s.links, id);
    }
  }

  lemma DeleteKeeps(s: Store, id: Id)
    requires Inv(s)
    ensures Inv(Applied(s, DoDelete(s, id)))
  {
    CountsAgree(s, id);
    var s' := Applied(s, DoDelete(s, id));
    if DoDelete(s, id).Some? && !HasTransactions(s, id) {
      forall i | 0 <= i < |s.transactions| ensures !Touches(s.transactions[i], id) {
        assert s.transactions[i] in s.transactions;
      }
      forall i | 0 <= i < |s.legs| ensures s.legs[i].account != id {
        assert s.legs[i] in s.legs;
      }
    }
  }

  lemma {:induction false} MappedMeans(links: seq<(Method, Option<Id>)>, before: map<Method, Option<Id>>)
    ensures Mapped(links, before).Keys == before.Keys + (set i | 0 <= i < |links| :: links[i].0)
    ensures forall m <- Mapped(links, before).Keys ::
              (exists i :: 0 <= i < |links| && links[i] == (m, Mapped(links, before)[m])) || (m in before && Mapped(links, before)[m] == before[m]
                && forall i :: 0 <= i < |links| ==> links[i].0 != m)
  {
    if links != [] {
      var n := |links| - 1;
      MappedMeans(links[..n], before);
      forall m <- Mapped(links, before).Keys
        ensures (exists i :: 0 <= i < |links| && links[i] == (m, Mapped(links, before)[m])) || (m in before && Mapped(links, before)[m] == before[m]
                  && forall i :: 0 <= i < |links| ==> links[i].0 != m)
      {
        if m == links[n].0 {
          assert links[n] == (m, Mapped(links, before)[m]);
        } else if exists i :: 0 <= i < n && links[..n][i] == (m, Mapped(links[..n], before)[m]) {
          var i :| 0 <= i < n && links[..n][i] == (m, Mapped(links[..n], before)[m]);
          assert links[i] == (m, Mapped(links, before)[m]);
        } else {
          assert forall i :: 0 <= i < n ==> links[..n][i].0 != m;
        }
      }
    }
  }

  lemma ReplaceLinksKeeps(s: Store, links: seq<(Method, Option<Id>)>)
    requires Inv(s) && CompleteMapping(s, links)
    ensures Inv(s.(links := Mapped(links, s.links)))
  {
    MappedMeans(links, s.links);
  }

  lemma PostPaymentKeeps(s: Store, via: Method, payment: nat, amount: int)
    requires Inv(s)
    ensures Inv(Applied(s, DoPostPayment(s, via, payment, amount)))
  {
    if via in s.links && s.links[via].Some? && DoPostPayment(s, via, payment, amount).Some? {
      var id := s.links[via].value;
      RecordedKeeps(s, Transaction(PaymentKind, id, None, Some(payment), amount, None), [Leg(id, amount, |s.transactions|)]);
    }
  }

  /** Settled but for the accounts a reversal has just moved. */
  ghost predicate SettledBut(s: Store, a: Option<Id>, b: Option<Id>) {
    forall id <- s.accounts.Keys | s.accounts[id].deleted ::
      s.accounts[id].archived && (Balance(s.legs, id) == 0 || Some(id) == a || Some(id) == b)
  }

  lemma RestoredKeeps(s: Store, a: Option<Id>, b: Option<Id>)
    requires LinksActive(s) && Refs(s) && SettledBut(s, a, b) && (a.Some? ==> a.value in s.accounts)
    ensures var s' := Restored(s, a);
            LinksActive(s') && Refs(s') && SettledBut(s', None, b) && s'.legs == s.legs && s'.accounts.Keys == s.accounts.Keys
            && forall id <- s.accounts.Keys ::
                 (!s.accounts[id].deleted ==> s'.accounts[id] == s.accounts[id])
                 && (s.accounts[id].deleted ==> s'.accounts[id].archived && (s'.accounts[id].deleted <==> Some(id) != a || Balance(s.legs, id) == 0))
  {
  }

  function Inverse(s: Store, tx: nat): Transaction
    requires tx < |s.transactions|
  {
    var t := s.transactions[tx];
    Transaction(Reversal, t.primary, t.counterparty, t.payment, -t.amount, Some(tx))
  }

  lemma InverseRecorded(s: Store, tx: nat)
    requires Inv(s) && tx < |s.transactions|
    requires Recorded(s, Inverse(s, tx), Negated(LegsOf(s.legs, tx), |s.transactions|)).Some?
    ensures var s1 := Recorded(s, Inverse(s, tx), Negated(LegsOf(s.legs, tx), |s.transactions|)).value;
            Bounded(s1.legs) && LinksActive(s1) && Refs(s1) && s1.accounts == s.accounts
            && s1.legs == s.legs + Negated(LegsOf(s.legs, tx), |s.transactions|)
            && SettledBut(s1, Some(s.transactions[tx].primary), s.transactions[tx].counterparty)
  {
    var more := Negated(LegsOf(s.legs, tx), |s.transactions|);
    LegsOfMeans(s.legs, tx);
    forall i | 0 <= i < |more| ensures Touches(Inverse(s, tx), more[i].account) {
      assert LegsOf(s.legs, tx)[i] in s.legs;
    }
    RecordedKeeps(s, Inverse(s, tx), more);
  }

  lemma ReverseKeeps(s: Store, tx: nat)
    requires Inv(s) && tx < |s.transactions|
    ensures Inv(Applied(s, DoReverse(s, tx)))
    ensures DoReverse(s, tx).Some? ==>
              var s' := DoReverse(s, tx).value;
              s'.legs == s.legs + Negated(LegsOf(s.legs, tx), |s.transactions|) && s'.accounts.Keys == s.accounts.Keys
              && s'.transactions == s.transactions + [Inverse(s, tx)]
              && forall id <- s.accounts.Keys ::
                   (!s.accounts[id].deleted ==> s'.accounts[id] == s.accounts[id])
                   && (s.accounts[id].deleted ==> s'.accounts[id].archived && (s'.accounts[id].deleted <==> Balance(s'.legs, id) == 0))
  {
    hide Restored, LegsOf, Balance, LinksActive, Refs, Bounded;
    if DoReverse(s, tx).Some? {
      InverseRecorded(s, tx);
      var s1 := Recorded(s, Inverse(s, tx), Negated(LegsOf(s.legs, tx), |s.transactions|)).value;
      var t := s.transactions[tx];
      InverseAccounts(s, tx);
      RestoredKeeps(s1, Some(t.primary), t.counterparty);
      RestoredRest(s1, Some(t.primary));
      var s2 := Restored(s1, Some(t.primary));
      RestoredKeeps(s2, t.counterparty, None);
      RestoredRest(s2, t.counterparty);
    }
  }

  lemma InverseAccounts(s: Store, tx: nat)
    requires Refs(s) && tx < |s.transactions|
    ensures s.transactions[tx].primary in s.accounts
    ensures s.transactions[tx].counterparty.Some? ==> s.transactions[tx].counterparty.value in s.accounts
  {
  }

  lemma RestoredRest(s: Store, a: Option<Id>)
    ensures Restored(s, a).transactions == s.transactions && Restored(s, a).legs == s.legs
  {
  }

  lemma StepKeeps(s: Store, c: Command, s': Store)
    requires Inv(s) && Next(s, c, s')
    ensures Inv(s')
  {
    hide Inv, DoMove, DoCreate, DoSetArchived, DoDelete, DoPostPayment, DoReverse, Mapped;
    match c {
      case Create(id, opening) => CreateKeeps(s, id, opening);
      case SetArchived(id, archive) => SetArchivedKeeps(s, id, archive);
      case Delete(id) => DeleteKeeps(s, id);
      case ReplaceLinks(links) =>
        if CompleteMapping(s, links) {
          ReplaceLinksKeeps(s, links);
        }
      case Move(primary, counterparty, amount) => MoveKeeps(s, primary, counterparty, amount);
      case PostPayment(via, payment, amount) => PostPaymentKeeps(s, via, payment, amount);
      case ReverseMove(tx) =>
        if tx < |s.transactions| {
          ReverseKeeps(s, tx);
        }
      case ReversePayment(payment) =>
        if s' != s {
          var tx: nat :| IsPaymentTx(s, tx, payment) && s' == Applied(s, DoReversePayment(s, Some(tx)));
          ReverseKeeps(s, tx);
        }
    }
  }

  ghost predicate Run(stores: seq<Store>, commands: seq<Command>) {
    |stores| == |commands| + 1
    && stores[0].accounts == map[] && stores[0].transactions == [] && stores[0].legs == []
    && (forall m <- stores[0].links.Keys :: stores[0].links[m].None?)
    && forall i :: 0 <= i < |commands| ==> Next(stores[i], commands[i], stores[i + 1])
  }

  lemma {:induction false} RunInv(stores: seq<Store>, commands: seq<Command>, i: nat)
    requires Run(stores, commands) && i < |stores|
    ensures Inv(stores[i])
  {
    hide Next;
    if i > 0 {
      RunInv(stores, commands, i - 1);
      StepKeeps(stores[i - 1], commands[i - 1], stores[i]);
    }
  }

  // ---------------------------------------------------------------- what it means

  /** In every reachable state the published balances exist for all accounts, every linked account
      is active, and deleted identities hold nothing. */
  lemma BalancesAlwaysPublished(stores: seq<Store>, commands: seq<Command>, i: nat, id: Id)
    requires Run(stores, commands) && i < |stores|
    ensures forall leg <- stores[i].legs :: Representable(Balance(stores[i].legs, leg.account))
    ensures Linked(stores[i], id) ==> Usable(stores[i], id)
    ensures id in stores[i].accounts && stores[i].accounts[id].deleted ==> Balance(stores[i].legs, id) == 0
    ensures id !in stores[i].accounts ==> Balance(stores[i].legs, id) == 0
  {
    RunInv(stores, commands, i);
    if id !in stores[i].accounts {
      BalanceUntouched(stores[i].legs, id);
    }
  }

  /** The flags of a visible account are exactly the answers of the commands; and because archiving
      detaches every link, an archived account is deletable exactly when it is unused or balanced. */
  lemma FlagsMatchCommands(s: Store, id: Id)
    requires Inv(s) && id in s.accounts && !s.accounts[id].deleted
    ensures CanDelete(s, id) <==> DoDelete(s, id).Some?
    ensures CanArchive(s, id) <==> DoSetArchived(s, id, true).Some?
    ensures CanReactivate(s, id) <==> DoSetArchived(s, id, false).Some?
    ensures s.accounts[id].archived ==> (CanDelete(s, id) <==> Balance(s.legs, id) == 0 || !HasTransactions(s, id))
    ensures !HasTransactions(s, id) ==> Balance(s.legs, id) == 0
  {
    CountsAgree(s, id);
    if Linked(s, id) {
      assert Usable(s, id);
    }
    if !HasTransactions(s, id) {
      forall i | 0 <= i < |s.legs| ensures s.legs[i].account != id {
        assert s.legs[i] in s.legs;
      }
      BalanceUntouched(s.legs, id);
    }
  }

  // ---------------------------------------------------------------- which money moves where

  /** What a movement brings an account: the primary account the amount, the counterparty of a
      transfer its negation, nobody else anything. */
  function Moved(primary: Id, counterparty: Option<Id>, amount: int, id: Id): int {
    (if id == primary then amount else 0) - (if counterparty == Some(id) then amount else 0)
  }

  /** A movement is accepted if and only if its accounts are distinct, visible and active, the amount
      is not zero and the new balances fit; then exactly these accounts' balances change. */
  lemma MovementIff(s: Store, primary: Id, counterparty: Option<Id>, amount: int)
    requires Bounded(s.legs)
    ensures DoMove(s, primary, counterparty, amount).Some? <==>
              primary in s.accounts && !s.accounts[primary].deleted && !s.accounts[primary].archived && amount != 0
              && Representable(Balance(s.legs, primary) + amount)
              && (counterparty.Some? ==>
                    counterparty.value in s.accounts && !s.accounts[counterparty.value].deleted && !s.accounts[counterparty.value].archived
                    && counterparty.value != primary && Representable(Balance(s.legs, counterparty.value) - amount))
    ensures DoMove(s, primary, counterparty, amount).Some? ==>
              var s' := DoMove(s, primary, counterparty, amount).value;
              s'.accounts == s.accounts && s'.links == s.links
              && s'.transactions == s.transactions
                                    + [Transaction(if counterparty.Some? then Transfer else Manual, primary, counterparty, None, amount, None)]
              && forall id: Id :: Balance(s'.legs, id) == Balance(s.legs, id) + Moved(primary, counterparty, amount, id)
  {
    var n := |s.transactions|;
    var first := Leg(primary, amount, n);
    InsertedOne(s.legs, first);
    if counterparty.Some? {
      var second := Leg(counterparty.value, -amount, n);
      InsertedTwo(s.legs, first, second);
      assert [first] + [second] == [first, second];
      forall id: Id ensures Balance(s.legs + [first, second], id)
          == Balance(s.legs, id) + (if id == primary then amount else 0) - (if id == counterparty.value then amount else 0)
      {
        BalanceOfTwo(s.legs, first, second, id);
      }
    } else {
      assert [first] + [] == [first];
      forall id: Id ensures Balance(s.legs + [first], id) == Balance(s.legs, id) + if id == primary then amount else 0 {
        assert (s.legs + [first])[..|s.legs|] == s.legs;
      }
    }
  }

  /** Whatever is asked for, an accepted request takes its amount from the source and brings it to
      the destination, as far as these are accounts; a request is well-formed exactly if the amount
      is positive and bounded and its kind has just the accounts it needs, and different ones. */
  lemma InputMoves(s: Store, input: Input)
    requires Bounded(s.legs)
    ensures Normalized(input).Some? <==>
              1 <= input.amount <= 100_000_000_000_000
              && match input.kind
                 case Income => input.source == None && input.destination != None
                 case Expense => input.source != None && input.destination == None
                 case BetweenAccounts => input.source != None && input.destination != None && input.source != input.destination
                 case UnknownKind => false
    ensures Normalized(input).Some? ==>
              var n := Normalized(input).value;
              DoMove(s, n.primary, n.counterparty, n.amount).Some? ==>
                forall id: Id ::
                  Balance(DoMove(s, n.primary, n.counterparty, n.amount).value.legs, id)
                  == Balance(s.legs, id) + (if input.destination == Some(id) then input.amount else 0)
                     - (if input.source == Some(id) then input.amount else 0)
  {
    hide DoMove, Balance;
    if Normalized(input).Some? {
      var n := Normalized(input).value;
      MovementIff(s, n.primary, n.counterparty, n.amount);
    }
  }

  lemma InsertedOne(legs: seq<Leg>, leg: Leg)
    ensures InsertedAll(legs, [leg]) == if Representable(Balance(legs, leg.account) + leg.amount) then Some(legs + [leg]) else None
  {
    assert [leg][..0] == [];
    assert InsertedAll(legs, [leg][..0]) == Some(legs);
  }

  lemma InsertedTwo(legs: seq<Leg>, a: Leg, b: Leg)
    ensures InsertedAll(legs, [a, b])
            == if !Representable(Balance(legs, a.account) + a.amount) then None
               else if !Representable(Balance(legs + [a], b.account) + b.amount) then None else Some(legs + [a, b])
    ensures a.account != b.account ==> Balance(legs + [a], b.account) == Balance(legs, b.account)
  {
    assert [a, b][..1] == [a];
    InsertedOne(legs, a);
    assert legs + [a] + [b] == legs + [a, b];
    assert (legs + [a])[..|legs|] == legs;
  }

  lemma BalanceOfTwo(legs: seq<Leg>, a: Leg, b: Leg, id: Id)
    ensures Balance(legs + [a, b], id)
            == Balance(legs, id) + (if a.account == id then a.amount else 0) + (if b.account == id then b.amount else 0)
  {
    assert (legs + [a, b])[..|legs| + 1] == legs + [a] && (legs + [a])[..|legs|] == legs;
  }

  function SumOfBalances(legs: seq<Leg>, ids: seq<Id>): int {
    if ids == [] then 0 else SumOfBalances(legs, ids[..|ids| - 1]) + Balance(legs, ids[|ids| - 1])
  }

  lemma {:induction false} SumShifts(before: seq<Leg>, after: seq<Leg>, ids: seq<Id>, a: Id, amount: int, b: Id)
    requires a != b && forall i, j :: 0 <= i < j < |ids| ==> ids[i] != ids[j]
    requires forall id: Id :: Balance(after, id) == Balance(before, id) + Moved(a, Some(b), amount, id)
    ensures SumOfBalances(after, ids)
            == SumOfBalances(before, ids) + (if a in ids then amount else 0) - (if b in ids then amount else 0)
  {
    if ids != [] {
      var n := |ids| - 1;
      SumShifts(before, after, ids[..n], a, amount, b);
      assert ids == ids[..n] + [ids[n]];
    }
  }

  /** A transfer conserves money: over the accounts of the group, listed once each in any order, the
      balances add up to what they did before. */
  lemma TransferConserves(s: Store, primary: Id, counterparty: Id, amount: int, ids: seq<Id>)
    requires Bounded(s.legs) && DoMove(s, primary, Some(counterparty), amount).Some?
    requires (forall i, j :: 0 <= i < j < |ids| ==> ids[i] != ids[j]) && forall id <- s.accounts.Keys :: id in ids
    ensures SumOfBalances(DoMove(s, primary, Some(counterparty), amount).value.legs, ids) == SumOfBalances(s.legs, ids)
  {
    hide DoMove;
    MovementIff(s, primary, Some(counterparty), amount);
    SumShifts(s.legs, DoMove(s, primary, Some(counterparty), amount).value.legs, ids, primary, amount, counterparty);
  }

  /** A payment by a linked method is accepted if and only if its account can take it, and moves
      exactly its amount there; a method without a link moves nothing, an unknown one is refused. */
  lemma PostPaymentIff(s: Store, via: Method, payment: nat, amount: int)
    requires Bounded(s.legs)
    ensures DoPostPayment(s, via, payment, amount).Some? <==>
              via in s.links
              && (s.links[via].Some? ==>
                    var id := s.links[via].value;
                    id in s.accounts && !s.accounts[id].deleted && !s.accounts[id].archived && Representable(Balance(s.legs, id) + amount))
    ensures DoPostPayment(s, via, payment, amount).Some? ==>
              var s' := DoPostPayment(s, via, payment, amount).value;
              s'.accounts == s.accounts && s'.links == s.links
              && (if s.links[via] == None then s' == s
                  else s'.transactions == s.transactions + [Transaction(PaymentKind, s.links[via].value, None, Some(payment), amount, None)])
              && forall id: Id :: Balance(s'.legs, id) == Balance(s.legs, id) + if s.links[via] == Some(id) then amount else 0
  {
    if via in s.links && s.links[via].Some? {
      var leg := Leg(s.links[via].value, amount, |s.transactions|);
      InsertedOne(s.legs, leg);
      forall id: Id ensures Balance(s.legs + [leg], id) == Balance(s.legs, id) + if id == leg.account then amount else 0 {
        assert (s.legs + [leg])[..|s.legs|] == s.legs;
      }
    }
  }

  /** A new account starts active with its opening balance, which must not be zero and must fit, or
      with nothing; no other account is touched. */
  lemma CreationIff(s: Store, id: Id, opening: Option<int>)
    requires Inv(s) && id !in s.accounts
    ensures DoCreate(s, id, opening).Some? <==> (opening.Some? ==> opening.value != 0 && Representable(opening.value))
    ensures DoCreate(s, id, opening).Some? ==>
              var s' := DoCreate(s, id, opening).value;
              s'.accounts == s.accounts[id := Account(false, false)] && s'.links == s.links
              && Balance(s'.legs, id) == (if opening.Some? then opening.value else 0)
              && forall k: Id | k != id :: Balance(s'.legs, k) == Balance(s.legs, k)
  {
    hide DoMove;
    var s1 := s.(accounts := s.accounts[id := Account(false, false)]);
    BalanceUntouched(s.legs, id);
    if opening.Some? {
      MovementIff(s1, id, None, opening.value);
    }
  }

  /** Archiving and reactivating are accepted exactly when they change something of a visible account;
      archiving detaches every method linked to it, and no money moves. */
  lemma ArchivingIff(s: Store, id: Id, archive: bool)
    ensures DoSetArchived(s, id, archive).Some? <==>
              id in s.accounts && !s.accounts[id].deleted && s.accounts[id].archived != archive
    ensures DoSetArchived(s, id, archive).Some? ==>
              var s' := DoSetArchived(s, id, archive).value;
              s'.accounts == s.accounts[id := Account(archive, false)] && s'.legs == s.legs && s'.transactions == s.transactions
              && s'.links.Keys == s.links.Keys
              && forall m <- s.links.Keys :: s'.links[m] == if archive && s.links[m] == Some(id) then None else s.links[m]
  {
  }

  /** A complete mapping names every method once and only accounts that are visible and active; after
      it each method is linked as the list says. */
  lemma MappingIff(s: Store, links: seq<(Method, Option<Id>)>)
    ensures CompleteMapping(s, links) <==>
              (forall m: Method :: m in s.links <==> exists i :: 0 <= i < |links| && links[i].0 == m)
              && (forall i, j :: 0 <= i < j < |links| ==> links[i].0 != links[j].0)
              && forall i :: 0 <= i < |links| && links[i].1.Some? ==>
                   links[i].1.value in s.accounts && !s.accounts[links[i].1.value].deleted && !s.accounts[links[i].1.value].archived
    ensures CompleteMapping(s, links) ==>
              Mapped(links, s.links).Keys == s.links.Keys && forall i :: 0 <= i < |links| ==> Mapped(links, s.links)[links[i].0] == links[i].1
  {
    hide Mapped;
    if forall i, j :: 0 <= i < j < |links| ==> links[i].0 != links[j].0 {
      NamesAll(links, s.links.Keys);
      if CompleteMapping(s, links) {
        MappedLast(links, s.links);
      }
    }
  }

  predicate Unique(links: seq<(Method, Option<Id>)>) { forall i, j :: 0 <= i < j < |links| ==> links[i].0 != links[j].0 }

  /** As many names as methods, all of them methods, are all methods. */
  lemma NamesAll(links: seq<(Method, Option<Id>)>, methods: set<Method>)
    requires Unique(links)
    ensures |links| == |methods| && (forall i :: 0 <= i < |links| ==> links[i].0 in methods)
            <==> forall m: Method :: m in methods <==> exists i :: 0 <= i < |links| && links[i].0 == m
  {
    var named := set i | 0 <= i < |links| :: links[i].0;
    DistinctNames(links);
    if |links| == |methods| && forall i :: 0 <= i < |links| ==> links[i].0 in methods {
      SameSize(named, methods);
    }
    if forall m: Method :: m in methods <==> exists i :: 0 <= i < |links| && links[i].0 == m {
      assert named == methods;
    }
  }

  lemma {:induction false} MappedLast(links: seq<(Method, Option<Id>)>, before: map<Method, Option<Id>>)
    requires Unique(links) && forall i :: 0 <= i < |links| ==> links[i].0 in before
    ensures Mapped(links, before).Keys == before.Keys
    ensures forall i :: 0 <= i < |links| ==> Mapped(links, before)[links[i].0] == links[i].1
  {
    if links != [] {
      var n := |links| - 1;
      MappedLast(links[..n], before);
      forall i | 0 <= i < n ensures Mapped(links, before)[links[i].0] == links[i].1 {
        assert links[..n][i] == links[i];
      }
    }
  }

  lemma {:induction false} DistinctNames(links: seq<(Method, Option<Id>)>)
    requires Unique(links)
    ensures |set i | 0 <= i < |links| :: links[i].0| == |links|
  {
    if links != [] {
      var n := |links| - 1;
      DistinctNames(links[..n]);
      var before := set i | 0 <= i < n :: links[..n][i].0;
      assert (set i | 0 <= i < |links| :: links[i].0) == before + {links[n].0};
    }
  }

  lemma SameSize(a: set<Method>, b: set<Method>)
    requires a <= b && |a| == |b|
    ensures a == b
  {
    assert b == a + (b - a);
  }

  // ---------------------------------------------------------------- the journal of transactions

  /** The legs a transaction stands for. */
  function LegsFor(t: Transaction, tx: nat): seq<Leg> {
    if t.counterparty.Some? then [Leg(t.primary, t.amount, tx), Leg(t.counterparty.value, -t.amount, tx)] else [Leg(t.primary, t.amount, tx)]
  }

  /** What the recorded transactions brought an account. */
  function Netted(ts: seq<Transaction>, id: Id): int {
    if ts == [] then 0
    else
      var t := ts[|ts| - 1];
      Netted(ts[..|ts| - 1], id) + Moved(t.primary, t.counterparty, t.amount, id)
  }

  /** Every transaction has exactly its legs, and the balances are what the transactions moved. */
  ghost predicate Journal(s: Store) {
    (forall tx: nat | tx < |s.transactions| ::
       LegsOf(s.legs, tx) == LegsFor(s.transactions[tx], tx) && s.transactions[tx].counterparty != Some(s.transactions[tx].primary))
    && forall id: Id :: Balance(s.legs, id) == Netted(s.transactions, id)
  }

  lemma {:induction false} LegsOfAppend(xs: seq<Leg>, ys: seq<Leg>, tx: nat)
    ensures LegsOf(xs + ys, tx) == LegsOf(xs, tx) + LegsOf(ys, tx)
  {
    if ys == [] {
      assert xs + ys == xs;
    } else {
      LegsOfAppend(xs, ys[..|ys| - 1], tx);
      assert (xs + ys)[..|xs + ys| - 1] == xs + ys[..|ys| - 1];
    }
  }

  lemma {:induction false} LegsOfNone(legs: seq<Leg>, tx: nat)
    requires forall i :: 0 <= i < |legs| ==> legs[i].tx != tx
    ensures LegsOf(legs, tx) == []
  {
    if legs != [] {
      LegsOfNone(legs[..|legs| - 1], tx);
    }
  }

  lemma LegsForOwn(t: Transaction, n: nat, tx: nat)
    ensures LegsOf(LegsFor(t, n), tx) == if tx == n then LegsFor(t, n) else []
  {
    var more := LegsFor(t, n);
    assert more[..1][..0] == [] && LegsOf(more[..0], tx) == [];
    assert LegsOf(more[..1], tx) == if tx == n then [more[0]] else [];
  }

  lemma LegsForBalance(t: Transaction, n: nat, id: Id)
    requires t.counterparty != Some(t.primary)
    ensures Balance(LegsFor(t, n), id) == Moved(t.primary, t.counterparty, t.amount, id)
  {
    var more := LegsFor(t, n);
    assert more[..1][..0] == [] && Balance(more[..0], id) == 0;
    assert Balance(more[..1], id) == if t.primary == id then t.amount else 0;
  }

  lemma JournalGrows(s: Store, t: Transaction, s': Store)
    requires Refs(s) && Journal(s) && t.counterparty != Some(t.primary)
    requires s'.transactions == s.transactions + [t] && s'.legs == s.legs + LegsFor(t, |s.transactions|)
    ensures Journal(s')
  {
    hide LegsFor, Moved;
    var n := |s.transactions|;
    forall tx: nat | tx <= n ensures LegsOf(s'.legs, tx) == LegsFor(s'.transactions[tx], tx) {
      LegsOfAppend(s.legs, LegsFor(t, n), tx);
      LegsForOwn(t, n, tx);
      if tx == n {
        LegsOfNone(s.legs, n);
      }
    }
    forall id: Id ensures Balance(s'.legs, id) == Netted(s'.transactions, id) {
      BalanceAppend(s.legs, LegsFor(t, n), id);
      LegsForBalance(t, n, id);
      assert s'.transactions[..n] == s.transactions;
    }
  }

  lemma MoveJournals(s: Store, primary: Id, counterparty: Option<Id>, amount: int)
    requires Inv(s) && Journal(s)
    ensures Journal(Applied(s, DoMove(s, primary, counterparty, amount)))
  {
    hide Journal, LegsOf, Balance;
    if DoMove(s, primary, counterparty, amount).Some? {
      var n := |s.transactions|;
      var t := Transaction(if counterparty.Some? then Transfer else Manual, primary, counterparty, None, amount, None);
      var more := [Leg(primary, amount, n)] + if counterparty.Some? then [Leg(counterparty.value, -amount, n)] else [];
      assert more == LegsFor(t, n);
      InsertedAllMeans(s.legs, more);
      JournalGrows(s, t, DoMove(s, primary, counterparty, amount).value);
    }
  }

  lemma PostPaymentJournals(s: Store, via: Method, payment: nat, amount: int)
    requires Inv(s) && Journal(s)
    ensures Journal(Applied(s, DoPostPayment(s, via, payment, amount)))
  {
    hide Journal, LegsOf, Balance;
    if DoPostPayment(s, via, payment, amount).Some? && s.links[via].Some? {
      var t := Transaction(PaymentKind, s.links[via].value, None, Some(payment), amount, None);
      InsertedAllMeans(s.legs, LegsFor(t, |s.transactions|));
      JournalGrows(s, t, DoPostPayment(s, via, payment, amount).value);
    }
  }

  lemma NegatedLegs(t: Transaction, tx: nat, n: nat)
    ensures Negated(LegsFor(t, tx), n) == LegsFor(t.(amount := -t.amount), n)
  {
  }

  lemma ReverseJournals(s: Store, tx: nat)
    requires Inv(s) && Journal(s) && tx < |s.transactions|
    ensures Journal(Applied(s, DoReverse(s, tx)))
  {
    hide DoReverse, LegsOf, Balance, Inv, Bounded, LinksActive, DeletedSettled;
    if DoReverse(s, tx).Some? {
      ReverseKeeps(s, tx);
      assert Refs(s) by { InvRefs(s); }
      NegatedLegs(s.transactions[tx], tx, |s.transactions|);
      assert LegsOf(s.legs, tx) == LegsFor(s.transactions[tx], tx);
      JournalGrows(s, Inverse(s, tx), DoReverse(s, tx).value);
    }
  }

  lemma InvRefs(s: Store)
    requires Inv(s)
    ensures Refs(s) && Bounded(s.legs)
  {
  }

  lemma SameJournal(s: Store, s': Store)
    requires Journal(s) && s'.transactions == s.transactions && s'.legs == s.legs
    ensures Journal(s')
  {
  }

  lemma StepJournals(s: Store, c: Command, s': Store)
    requires Inv(s) && Journal(s) && Next(s, c, s')
    ensures Journal(s')
  {
    hide Inv, Journal, DoMove, DoPostPayment, DoReverse, Mapped;
    match c {
      case Create(id, opening) =>
        var s1 := s.(accounts := s.accounts[id := Account(false, false)]);
        SameJournal(s, s1);
        assert Inv(s1) by { CreateKeeps(s, id, None); }
        if opening.Some? {
          MoveJournals(s1, id, None, opening.value);
        }
      case SetArchived(id, archive) => SameJournal(s, s');
      case Delete(id) => SameJournal(s, s');
      case ReplaceLinks(links) => SameJournal(s, s');
      case Move(primary, counterparty, amount) => MoveJournals(s, primary, counterparty, amount);
      case PostPayment(via, payment, amount) => PostPaymentJournals(s, via, payment, amount);
      case ReverseMove(tx) =>
        if tx < |s.transactions| {
          ReverseJournals(s, tx);
        }
      case ReversePayment(payment) =>
        if s' != s {
          var tx: nat :| IsPaymentTx(s, tx, payment) && s' == Applied(s, DoReversePayment(s, Some(tx)));
          ReverseJournals(s, tx);
        }
    }
  }

  /** In every reachable state each transaction has exactly its legs, and every account's balance is
      the sum of what the recorded transactions, reversals among them, moved on it. */
  lemma {:induction false} RunJournals(stores: seq<Store>, commands: seq<Command>, i: nat)
    requires Run(stores, commands) && i < |stores|
    ensures Journal(stores[i])
  {
    hide Next, Inv, Journal;
    if i > 0 {
      RunJournals(stores, commands, i - 1);
      RunInv(stores, commands, i - 1);
      StepJournals(stores[i - 1], commands[i - 1], stores[i]);
    } else {
      assert Journal(stores[0]) by { EmptyJournal(stores[0]); }
    }
  }

  lemma EmptyJournal(s: Store)
    requires s.transactions == [] && s.legs == []
    ensures Journal(s)
  {
  }

  /** Reversals point back to transactions that are none themselves, no two to the same one; payments
      have one account. */
  ghost predicate ReversedOnce(ts: seq<Transaction>) {
    forall j | 0 <= j < |ts| ::
      (ts[j].kind == Reversal <==> ts[j].reverses.Some?) && (ts[j].kind == PaymentKind ==> ts[j].counterparty == None)
      && (ts[j].reverses.Some? ==>
            ts[j].reverses.value < j && ts[ts[j].reverses.value].kind != Reversal
            && forall i | 0 <= i < j :: ts[i].reverses != ts[j].reverses)
  }

  lemma StepReversesOnce(s: Store, c: Command, s': Store)
    requires Next(s, c, s') && ReversedOnce(s.transactions)
    ensures ReversedOnce(s'.transactions)
  {
    hide InsertedAll, Mapped, Negated, LegsOf, CompleteMapping, Usable, Balance;
    if s'.transactions != s.transactions {
      var t := AddedTransaction(s, c, s');
      forall i | 0 <= i < |s.transactions| ensures t.reverses.Some? ==> s.transactions[i].reverses != t.reverses {
        assert s.transactions[i] in s.transactions;
      }
    }
  }

  lemma AddedTransaction(s: Store, c: Command, s': Store) returns (t: Transaction)
    requires Next(s, c, s') && s'.transactions != s.transactions
    ensures s'.transactions == s.transactions + [t] && (t.kind == Reversal <==> t.reverses.Some?)
    ensures t.kind == PaymentKind ==> t.counterparty == None
    ensures t.reverses.Some? ==>
              t.reverses.value < |s.transactions| && s.transactions[t.reverses.value].kind != Reversal && !Reversed(s, t.reverses.value)
  {
    hide InsertedAll, Mapped, Negated, LegsOf, CompleteMapping, Usable, Balance, Reversed;
    t := s'.transactions[|s'.transactions| - 1];
  }

  /** In every run each transaction is reversed at most once and no reversal is reversed. */
  lemma {:induction false} RunReversesOnce(stores: seq<Store>, commands: seq<Command>, i: nat)
    requires Run(stores, commands) && i < |stores|
    ensures ReversedOnce(stores[i].transactions)
  {
    hide Next;
    if i > 0 {
      RunReversesOnce(stores, commands, i - 1);
      StepReversesOnce(stores[i - 1], commands[i - 1], stores[i]);
    }
  }

  /** A reversal is accepted if and only if the balances it leads to fit; then it takes back exactly
      what the transaction moved on every account, and brings a deleted identity back, archived,
      exactly when its balance becomes non-zero. */
  lemma ReversalIff(s: Store, tx: nat, id: Id)
    requires Inv(s) && Journal(s) && tx < |s.transactions|
    ensures var t := s.transactions[tx];
            DoReverse(s, tx).Some? <==>
              Representable(Balance(s.legs, t.primary) - t.amount)
              && (t.counterparty.Some? ==> Representable(Balance(s.legs, t.counterparty.value) + t.amount))
    ensures DoReverse(s, tx).Some? ==>
              var t, s' := s.transactions[tx], DoReverse(s, tx).value;
              Balance(s'.legs, id) == Balance(s.legs, id) - Moved(t.primary, t.counterparty, t.amount, id)
              && s'.transactions == s.transactions + [Transaction(Reversal, t.primary, t.counterparty, t.payment, -t.amount, Some(tx))]
              && s'.links == s.links && s'.accounts.Keys == s.accounts.Keys
              && (id in s.accounts ==>
                    s'.accounts[id] == if s.accounts[id].deleted && Balance(s'.legs, id) != 0 then Account(true, false) else s.accounts[id])
  {
    hide LegsOf, Balance, Inv, Restored;
    var t, n := s.transactions[tx], |s.transactions|;
    assert Refs(s) && Bounded(s.legs) by { InvRefs(s); }
    NegatedLegs(t, tx, n);
    var a := Leg(t.primary, -t.amount, n);
    assert LegsOf(s.legs, tx) == LegsFor(t, tx);
    InsertedOne(s.legs, a);
    if t.counterparty.Some? {
      InsertedTwo(s.legs, a, Leg(t.counterparty.value, t.amount, n));
    }
    if DoReverse(s, tx).Some? {
      ReverseKeeps(s, tx);
      LegsForBalance(t.(amount := -t.amount), n, id);
      BalanceAppend(s.legs, LegsFor(t.(amount := -t.amount), n), id);
      RestoredLinks(s, tx);
      assert id in s.accounts && s.accounts[id].deleted ==> s.accounts[id].archived by { DeletedArchived(s); }
    }
  }

  lemma DeletedArchived(s: Store)
    requires Inv(s)
    ensures forall id <- s.accounts.Keys | s.accounts[id].deleted :: s.accounts[id].archived
  {
  }

  lemma RestoredLinks(s: Store, tx: nat)
    requires tx < |s.transactions| && DoReverse(s, tx).Some?
    ensures DoReverse(s, tx).value.links == s.links
  {
  }

  /** The unreversed transaction of a payment that can be taken back. */
  ghost predicate Reversible(s: Store, tx: nat, payment: nat) {
    tx < |s.transactions| && s.transactions[tx].kind == PaymentKind && s.transactions[tx].payment == Some(payment)
    && (forall t <- s.transactions :: t.reverses != Some(tx))
    && Representable(Balance(s.legs, s.transactions[tx].primary) - s.transactions[tx].amount)
  }

  /** Reversing a payment takes back exactly one transaction of that very payment, not reversed
      before, and moves its amount from its account; if each transaction of the payment can be taken
      back, one is, and if the payment has none, nothing changes. */
  lemma PaymentReversal(s: Store, payment: nat, s': Store, id: Id)
    requires Inv(s) && Journal(s) && ReversedOnce(s.transactions) && Next(s, ReversePayment(payment), s')
    ensures s' == s || exists tx: nat ::
              Reversible(s, tx, payment)
              && Balance(s'.legs, id) == Balance(s.legs, id) - (if s.transactions[tx].primary == id then s.transactions[tx].amount else 0)
              && s'.transactions == s.transactions
                                    + [Transaction(Reversal, s.transactions[tx].primary, None, Some(payment), -s.transactions[tx].amount, Some(tx))]
    ensures s' == s ==> forall tx: nat :: IsPaymentTx(s, tx, payment) ==> exists k: nat :: IsPaymentTx(s, k, payment) && !Reversible(s, k, payment)
    ensures (forall t <- s.transactions :: t.kind != PaymentKind || t.payment != Some(payment)) ==> s' == s
  {
    hide Inv, Journal, DoReverse, Balance;
    if tx: nat :| IsPaymentTx(s, tx, payment) && s' == Applied(s, DoReversePayment(s, Some(tx))) {
      assert s.transactions[tx] in s.transactions;
      ReversalIff(s, tx, id);
      if s' != s {
        assert Reversible(s, tx, payment);
      } else {
        assert !Reversible(s, tx, payment);
      }
    }
  }

  /** A reversal takes back exactly what the transaction moved on every account, never runs twice,
      and brings a deleted identity back exactly when its balance becomes non-zero. */
  lemma ReversalUndoes(s: Store, tx: nat, id: Id)
    requires Inv(s) && tx < |s.transactions| && DoReverse(s, tx).Some?
    ensures var s' := DoReverse(s, tx).value;
            Balance(s'.legs, id) == Balance(s.legs, id) - Balance(LegsOf(s.legs, tx), id)
            && Reversed(s', tx)
            && (id in s.accounts && s.accounts[id].deleted ==>
                  id in s'.accounts && (s'.accounts[id].deleted <==> Balance(s'.legs, id) == 0)
                  && s'.accounts[id].archived)
            && (id in s.accounts && !s.accounts[id].deleted ==> id in s'.accounts && s'.accounts[id] == s.accounts[id])
  {
    hide DoReverse, LegsOf;
    var more := Negated(LegsOf(s.legs, tx), |s.transactions|);
    ReverseKeeps(s, tx);
    BalanceAppend(s.legs, more, id);
    NegatedBalance(LegsOf(s.legs, tx), |s.transactions|, id);
    assert Inverse(s, tx) in s.transactions + [Inverse(s, tx)];
  }
}
