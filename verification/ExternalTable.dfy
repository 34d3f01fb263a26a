/**
 The external-account commands in place.  A command that fails part-way restores the tables it
 had changed, as its transaction does.
 */
module ExternalTable {
  import opened Int64
  import opened Options
  import opened ExternalAccounts
  import opened ExternalSafety

  datatype Flags = Flags(canDelete: bool, canArchive: bool, canReactivate: bool)

  function FlagsOf(s: Store, id: Id): Flags
    requires id in s.accounts
  {
    Flags(CanDelete(s, id), CanArchive(s, id), CanReactivate(s, id))
  }

  ghost predicate FlagsRight(s: Store, id: Id) {
    id in s.accounts
    && (CanDelete(s, id) <==> DoDelete(s, id).Some?) && (CanArchive(s, id) <==> DoSetArchived(s, id, true).Some?)
    && (CanReactivate(s, id) <==> DoSetArchived(s, id, false).Some?)
  }

  class Tables {
    var accounts: map<Id, Account>
    var links: map<Method, Option<Id>>
    var transactions: seq<Transaction>
    var legs: seq<Leg>

    ghost function Contents(): Store
      reads this
    {
      Store(accounts, links, transactions, legs)
    }

    method SetAccountArchived(id: Id, archive: bool) returns (ok: bool)
      modifies this
      ensures ok <==> DoSetArchived(old(Contents()), id, archive).Some?
      ensures Contents() == Applied(old(Contents()), DoSetArchived(old(Contents()), id, archive))
    {
      var before := links;
      if archive {
        links := map m <- links.Keys :: if links[m] == Some(id) then None else links[m];
      }
      if id !in accounts || accounts[id].deleted || accounts[id].archived == archive {
        links := before;
        return false;
      }
      accounts := accounts[id := accounts[id].(archived := archive)];
      ok := true;
    }

    /** Counts the links, transactions and legs and adds the legs up; accepted, the account is gone
        or hidden, holds nothing and is linked to nothing, and no money moved. */
    method DeleteAccount(id: Id) returns (ok: bool)
      modifies this`accounts
      ensures ok <==> DoDelete(old(Contents()), id).Some?
      ensures Contents() == Applied(old(Contents()), DoDelete(old(Contents()), id))
      ensures Inv(old(Contents())) ==> Inv(Contents())
      ensures ok ==> id in old(accounts) && (id !in accounts || accounts[id].deleted) && !Linked(Contents(), id)
      ensures ok ==> (id in accounts <==> HasTransactions(Contents(), id))
      ensures Inv(old(Contents())) && ok ==> Balance(legs, id) == 0
    {
      DeleteFacts(Contents(), id);
      if id !in accounts || accounts[id].deleted || !accounts[id].archived {
        return false;
      }
      var linked := CountLinks(id);
      var used, balance := CountUses(id);
      if linked != 0 {
        return false;
      }
      if used != 0 {
        if balance != 0 {
          return false;
        }
        accounts := accounts[id := accounts[id].(deleted := true)];
      } else {
        accounts := accounts - {id};
      }
      ok := true;
    }

    method CountLinks(id: Id) returns (n: nat)
      ensures n == |LinkedMethods(links, id)|
    {
      n := 0;
      var rest := links.Keys;
      ghost var found: set<Method> := {};
      while rest != {}
        invariant rest <= links.Keys && n == |found| && found == LinkedMethods(links, id) - rest
        decreases |rest|
      {
        var m: Method :| m in rest;
        if links[m] == Some(id) {
          n := n + 1;
          found := found + {m};
        }
        rest := rest - {m};
      }
      assert found == LinkedMethods(links, id);
    }

    method CountUses(id: Id) returns (used: nat, balance: int)
      ensures used == TransactionCount(transactions, id) + LegCount(legs, id) && balance == Balance(legs, id)
    {
      used, balance := 0, 0;
      for i := 0 to |transactions|
        invariant used == TransactionCount(transactions[..i], id)
      {
        var t := transactions[i];
        if t.primary == id || t.counterparty == Some(id) {
          used := used + 1;
        }
        assert transactions[..i + 1][..i] == transactions[..i];
      }
      assert transactions[..|transactions|] == transactions;
      for i := 0 to |legs|
        invariant used == TransactionCount(transactions, id) + LegCount(legs[..i], id) && balance == Balance(legs[..i], id)
      {
        if legs[i].account == id {
          used, balance := used + 1, balance + legs[i].amount;
        }
        assert legs[..i + 1][..i] == legs[..i];
      }
      assert legs[..|legs|] == legs;
    }

    /** The published list: balances added up for all accounts in one pass, links collected in
        another, and from them the flags of every visible account.  In a reachable state it always
        succeeds, and each flag is the answer its command would give. */
    method ListAccounts() returns (r: Option<map<Id, Flags>>)
      ensures r.None? <==> exists leg <- legs :: !Representable(Balance(legs, leg.account))
      ensures r.Some? ==> forall id: Id :: id in r.value <==> id in accounts && !accounts[id].deleted
      ensures Inv(Contents()) ==> r.Some?
      ensures Inv(Contents()) ==> forall id <- r.value.Keys ::
                (r.value[id].canDelete <==> DoDelete(Contents(), id).Some?)
                && (r.value[id].canArchive <==> DoSetArchived(Contents(), id, true).Some?)
                && (r.value[id].canReactivate <==> DoSetArchived(Contents(), id, false).Some?)
    {
      hide Inv, DoDelete, DoSetArchived, Balance, Representable;
      ListedWhenSound(Contents());
      var balances := Balances(legs);
      if balances.None? {
        return None;
      }
      var linked := LinkedAccounts();
      var rest := accounts.Keys;
      var flags: map<Id, Flags> := map[];
      while rest != {}
        invariant rest <= accounts.Keys
        invariant forall id: Id :: id in flags <==> id in accounts && id !in rest && !accounts[id].deleted
        invariant forall id <- flags.Keys :: id in accounts && flags[id] == FlagsOf(Contents(), id)
        decreases |rest|
      {
        var id: Id :| id in rest;
        if !accounts[id].deleted {
          var used := (exists t <- transactions :: t.primary == id || t.counterparty == Some(id)) || exists leg <- legs :: leg.account == id;
          var balance := if id in balances.value then balances.value[id] else 0;
          UnusedIsZero(legs, id);
          flags := flags[id := Flags(accounts[id].archived && id !in linked && (!used || balance == 0), !accounts[id].archived, accounts[id].archived)];
        }
        rest := rest - {id};
      }
      r := Some(flags);
      if Inv(Contents()) {
        forall id <- flags.Keys ensures FlagsRight(Contents(), id) {
          FlagsMatchCommands(Contents(), id);
        }
      }
    }

    method LinkedAccounts() returns (linked: set<Id>)
      ensures forall id: Id :: id in linked <==> Linked(Contents(), id)
    {
      linked := {};
      var rest := links.Keys;
      while rest != {}
        invariant rest <= links.Keys
        invariant forall id: Id :: id in linked <==> exists m <- links.Keys :: m !in rest && links[m] == Some(id)
        decreases |rest|
      {
        var m: Method :| m in rest;
        if links[m].Some? {
          linked := linked + {links[m].value};
        }
        rest := rest - {m};
      }
    }

    /** Refuses a leg that would take the account's exact balance out of range. */
    method InsertExternalLedger(leg: Leg) returns (ok: bool)
      modifies this`legs
      ensures ok <==> Inserted(old(legs), leg).Some?
      ensures legs == if ok then Inserted(old(legs), leg).value else old(legs)
      ensures ok <==> Representable(Balance(old(legs), leg.account) + leg.amount)
      ensures ok ==> legs == old(legs) + [leg]
    {
      ok := EnsureBalanceDelta(legs, leg.account, leg.amount);
      if ok {
        legs := legs + [leg];
      }
    }

    /** Inserts leg by leg; the first refusal takes all of them back. */
    method InsertLegs(more: seq<Leg>) returns (ok: bool)
      modifies this`legs
      ensures ok <==> InsertedAll(old(legs), more).Some?
      ensures legs == if ok then InsertedAll(old(legs), more).value else old(legs)
    {
      var before := legs;
      for i := 0 to |more|
        invariant InsertedAll(before, more[..i]) == Some(legs)
      {
        assert more[..i + 1][..i] == more[..i];
        ok := InsertExternalLedger(more[i]);
        if !ok {
          RefusedPrefix(before, more, i + 1);
          legs := before;
          return;
        }
      }
      assert more[..|more|] == more;
      ok := true;
    }

    /** Accepted, the primary account has the amount more and the counterparty of a transfer as much
        less, and nobody else's balance has changed; refused, nothing has. */
    method CreateManualTransaction(primary: Id, counterparty: Option<Id>, amount: int) returns (ok: bool)
      modifies this
      ensures Inv(old(Contents())) ==> Inv(Contents())
      ensures accounts == old(accounts) && links == old(links)
      ensures ok ==> transactions == old(transactions)
                     + [Transaction(if counterparty.Some? then Transfer else Manual, primary, counterparty, None, amount, None)]
      ensures Inv(old(Contents())) && ok ==> forall id: Id ::
                Balance(legs, id) == old(Balance(legs, id)) + (if id == primary then amount else 0)
                                     - (if counterparty == Some(id) then amount else 0)
      ensures Inv(old(Contents())) ==>
                (ok <==> primary in accounts && accounts[primary] == Account(false, false) && amount != 0
                         && Representable(old(Balance(legs, primary)) + amount)
                         && (counterparty.Some? ==>
                               counterparty.value in accounts && accounts[counterparty.value] == Account(false, false)
                               && counterparty.value != primary && Representable(old(Balance(legs, counterparty.value)) - amount)))
      ensures !ok ==> Contents() == old(Contents())
      ensures ok <==> DoMove(old(Contents()), primary, counterparty, amount).Some?
      ensures Contents() == Applied(old(Contents()), DoMove(old(Contents()), primary, counterparty, amount))
    {
      MovementFacts(Contents(), primary, counterparty, amount);
      hide Inv, Balance, Representable;
      ok := primary in accounts && !accounts[primary].deleted && !accounts[primary].archived && amount != 0;
      if ok && counterparty.Some? {
        var c := counterparty.value;
        ok := c in accounts && !accounts[c].deleted && !accounts[c].archived && c != primary;
      }
      if !ok {
        return;
      }
      var n := |transactions|;
      var more := [Leg(primary, amount, n)];
      if counterparty.Some? {
        more := more + [Leg(counterparty.value, -amount, n)];
      }
      assert more == [Leg(primary, amount, n)] + if counterparty.Some? then [Leg(counterparty.value, -amount, n)] else [];
      ok := InsertLegs(more);
      if ok {
        transactions := transactions + [Transaction(if counterparty.Some? then Transfer else Manual, primary, counterparty, None, amount, None)];
      }
    }

    /** A deleted identity whose balance is no longer zero becomes an archived account again. */
    method RestoreDeleted(id: Option<Id>)
      modifies this`accounts
      ensures Contents() == Restored(old(Contents()), id)
    {
      if id.Some? && id.value in accounts && accounts[id.value].deleted && Balance(legs, id.value) != 0 {
        accounts := accounts[id.value := Account(true, false)];
      }
    }

    method Reverse(tx: nat) returns (ok: bool)
      requires tx < |transactions|
      modifies this
      ensures ok <==> DoReverse(old(Contents()), tx).Some?
      ensures Contents() == Applied(old(Contents()), DoReverse(old(Contents()), tx))
    {
      var t, n := transactions[tx], |transactions|;
      var more := Negated(LegsOf(legs, tx), n);
      ok := InsertLegs(more);
      if ok {
        transactions := transactions + [Transaction(Reversal, t.primary, t.counterparty, t.payment, -t.amount, Some(tx))];
        RestoreDeleted(Some(t.primary));
        RestoreDeleted(t.counterparty);
      }
    }
  }

  lemma MovementFacts(s: Store, primary: Id, counterparty: Option<Id>, amount: int)
    ensures Inv(s) ==> Inv(Applied(s, DoMove(s, primary, counterparty, amount)))
    ensures Inv(s) ==>
              (DoMove(s, primary, counterparty, amount).Some? <==>
                 primary in s.accounts && s.accounts[primary] == Account(false, false) && amount != 0
                 && Representable(Balance(s.legs, primary) + amount)
                 && (counterparty.Some? ==>
                       counterparty.value in s.accounts && s.accounts[counterparty.value] == Account(false, false)
                       && counterparty.value != primary && Representable(Balance(s.legs, counterparty.value) - amount)))
    ensures Inv(s) && DoMove(s, primary, counterparty, amount).Some? ==>
              forall id: Id ::
                Balance(DoMove(s, primary, counterparty, amount).value.legs, id)
                == Balance(s.legs, id) + (if id == primary then amount else 0) - (if counterparty == Some(id) then amount else 0)
  {
    hide DoMove, Balance;
    if Inv(s) {
      MoveKeeps(s, primary, counterparty, amount);
      MovementIff(s, primary, counterparty, amount);
    }
  }

  lemma {:induction false} RefusedPrefix(legs: seq<Leg>, more: seq<Leg>, i: nat)
    requires i <= |more| && InsertedAll(legs, more[..i]).None?
    ensures InsertedAll(legs, more).None?
    decreases |more| - i
  {
    if i < |more| {
      assert more[..i + 1][..i] == more[..i];
      RefusedPrefix(legs, more, i + 1);
    } else {
      assert more[..i] == more;
    }
  }

  lemma DeleteFacts(s: Store, id: Id)
    ensures Inv(s) ==> Inv(Applied(s, DoDelete(s, id)))
    ensures DoDelete(s, id).Some? ==>
              id in s.accounts && !Linked(s, id) && (HasTransactions(s, id) <==> id in DoDelete(s, id).value.accounts)
              && (Inv(s) ==> Balance(s.legs, id) == 0)
  {
    CountsAgree(s, id);
    if Inv(s) {
      DeleteKeeps(s, id);
      UnusedIsZero(s.legs, id);
    }
  }

  lemma UnusedIsZero(legs: seq<Leg>, id: Id)
    ensures (forall leg <- legs :: leg.account != id) ==> Balance(legs, id) == 0
  {
    if forall leg <- legs :: leg.account != id {
      forall i | 0 <= i < |legs| ensures legs[i].account != id {
        assert legs[i] in legs;
      }
      BalanceUntouched(legs, id);
    }
  }

  lemma ListedWhenSound(s: Store)
    ensures Inv(s) ==> forall leg <- s.legs :: Representable(Balance(s.legs, leg.account))
  {
  }
}
