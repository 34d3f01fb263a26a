/**
 The account-security commands in place: each UPDATE is one assignment to the action table or
 the outbox table, and a refused command restores both.
 */
module AccountSecurityTable {
  import opened Options
  import opened Outbox
  import opened AccountSecurity

  class Tables {
    var actions: map<Id, Action>
    var mail: Rows

    ghost function Contents(): Store
      reads this
    {
      Store(actions, mail)
    }

    method InvalidateAccountActions(user: User, purpose: Option<Purpose>, spared: Option<Id>)
      modifies this
      ensures Contents() == InvalidateActions(old(Contents()), user, purpose, spared)
    {
      ghost var open := OpenOf(Contents(), user, purpose, spared);
      ghost var before := actions;
      actions := map id <- actions.Keys ::
        if Open(actions[id]) && actions[id].user == user && (purpose.Some? ==> actions[id].purpose == purpose.value)
           && spared != Some(id)
        then actions[id].(invalidated := true) else actions[id];
      assert actions == Invalidated(before, open);
      mail := map id <- mail.Keys ::
        if id in actions && actions[id].user == user && actions[id].invalidated && spared != Some(id) && Unsent(mail[id])
        then CancelledRow(mail[id]) else mail[id];
      assert mail == MailCancelled(old(mail), InvalidatedOf(actions, user, spared));
    }

    method InvalidateExpiredEmailTarget(target: Email, at: int)
      modifies this
      ensures Contents() == InvalidateExpiredTarget(old(Contents()), target, at)
    {
      actions := map id <- actions.Keys ::
        if Open(actions[id]) && actions[id].purpose.EmailChange? && actions[id].target == Some(target) && actions[id].expires <= at
        then actions[id].(invalidated := true) else actions[id];
      assert actions == Invalidated(old(actions), ExpiredChangesTo(old(actions), target, at));
      mail := map id <- mail.Keys ::
        if id in actions && actions[id].invalidated && actions[id].purpose.EmailChange? && actions[id].target == Some(target)
           && Unsent(mail[id])
        then CancelledRow(mail[id]) else mail[id];
      assert mail == MailCancelled(old(mail), InvalidatedChangesTo(actions, target));
    }

    method PersistAction(id: Id, user: User, purpose: Purpose, target: Option<Email>, at: int, current: bool)
      returns (ok: bool)
      modifies this
      ensures ok <==> Persist(old(Contents()), id, user, purpose, target, at, current).Some?
      ensures Contents() == Applied(old(Contents()), Persist(old(Contents()), id, user, purpose, target, at, current))
    {
      if !current {
        return false;
      }
      var before := (actions, mail);
      if purpose.EmailChange? && target.Some? {
        InvalidateExpiredEmailTarget(target.value, at);
      }
      InvalidateAccountActions(user, Some(purpose), None);
      var a := Action(user, purpose, target, at + LIFETIME, false, false);
      if Conflicts(actions, a) {
        actions, mail := before.0, before.1;
        return false;
      }
      actions := actions[id := a];
      mail := mail[id := Row(Pending, 0, Some(at), None, true, false, at)];
      ok := true;
    }

    method FinishSensitiveChange(user: User, consumed: Option<Id>) returns (ok: bool)
      modifies this
      ensures ok <==> Finish(old(Contents()), user, consumed).Some?
      ensures Contents() == Applied(old(Contents()), Finish(old(Contents()), user, consumed))
    {
      if consumed.Some? {
        var id := consumed.value;
        if id !in actions || !Open(actions[id]) {
          return false;
        }
        actions := actions[id := actions[id].(consumed := true)];
        mail := map k <- mail.Keys :: if k == id && Unsent(mail[k]) then CancelledRow(mail[k]) else mail[k];
        assert mail == MailCancelled(old(mail), {id});
      }
      InvalidateAccountActions(user, None, consumed);
      ok := true;
    }

    /** The expiry statements that open a claim, before the outbox rows are swept. */
    method InvalidateExpired(at: int)
      modifies this
      ensures actions == Invalidated(old(actions), ExpiredOpen(old(actions), at))
      ensures mail == MailCancelled(old(mail), ExpiredInvalidated(actions, at))
    {
      actions := map id <- actions.Keys ::
        if Open(actions[id]) && actions[id].expires <= at then actions[id].(invalidated := true) else actions[id];
      mail := map id <- mail.Keys ::
        if id in actions && actions[id].invalidated && actions[id].expires <= at && Unsent(mail[id])
        then CancelledRow(mail[id]) else mail[id];
    }

    /** The dispatcher's early cancellation: the action is invalidated first, and a lost lease
        takes that back. */
    method CancelClaim(id: Id, token: Token) returns (ok: bool)
      modifies this
      ensures ok <==> MailHeld(old(Contents()), id, token)
      ensures Contents() == CancelMail(old(Contents()), id, token)
    {
      ghost var before := actions;
      var kept := actions;
      actions := map k <- actions.Keys :: if k == id && Open(actions[k]) then actions[k].(invalidated := true) else actions[k];
      ok := id in mail && mail[id].status.Sending? && mail[id].lease.Some? && mail[id].lease.value.token == token;
      if !ok {
        actions := kept;
        return;
      }
      mail := mail[id := mail[id].(status := Cancelled, cipher := false, next := None, lease := None)];
      assert actions == Invalidated(before, if id in before && Open(before[id]) then {id} else {});
    }
  }
}
