/**
 The public-join commands in place: every UPDATE and INSERT is one assignment to the
 registration, outbox or account table, in the order the transactions issue them.
 */
module PublicJoinTable {
  import opened Options
  import opened Outbox
  import opened PublicJoin

  class Tables {
    var links: map<nat, Link>
    var registrations: map<Id, Registration>
    var mail: Rows
    var accounts: map<Email, bool>

    ghost function Contents(): Store
      reads this
    {
      Store(links, registrations, mail, accounts)
    }

    method StartRegistration(id: Id, group: nat, email: Email, token: Secret, at: int) returns (answer: Answer)
      modifies this
      ensures (answer, Contents()) == Start(old(Contents()), id, group, email, token, at)
    {
      if group !in links || !links[group].enabled {
        return NotFound;
      }
      var link := links[group];
      if link.expires.Some? && link.expires.value <= at {
        return Conflict;
      }
      if email in accounts && accounts[email] {
        return Accepted;
      }
      ghost var before := Contents();
      var replaced := set k <- registrations.Keys | PendingFor(registrations[k], group, email);
      registrations := map k <- registrations.Keys ::
        if k in replaced then registrations[k].(invalidated := true) else registrations[k];
      mail := map k <- mail.Keys :: if k in replaced && Unsent(mail[k]) then CancelledRow(mail[k]) else mail[k];
      assert Contents() == Replaced(before, group, email);
      var expires := at + LIFETIME;
      if link.expires.Some? && link.expires.value < expires {
        expires := link.expires.value;
      }
      registrations := registrations[id := Registration(group, email, link.version, token, expires, false, false)];
      mail := mail[id := Row(Pending, 0, Some(at), None, true, false, at)];
      answer := Accepted;
    }

    /** `id` is the registration the query found, if it found one.  A fresh token keeps the tables
        sound; at most that registration and its mail change, and an old token never opens it
        again. */
    method ResendVerification(id: Id, group: nat, email: Email, token: Secret, at: int)
      modifies this
      ensures Contents() == Resend(old(Contents()), id, group, email, token, at)
      ensures Inv(old(Contents())) && Fresh(old(Contents()), token) ==> Inv(Contents()) && Closes(old(Contents()), Contents())
      ensures forall k <- old(registrations).Keys | k != id :: k in registrations && registrations[k] == old(registrations)[k]
      ensures Contents() != old(Contents()) ==> forall other: Secret :: TokenOpens(Contents(), id, other) ==> other == token
    {
      if Inv(Contents()) && Fresh(Contents(), token) {
        ResendKeeps(Contents(), id, group, email, token, at);
      }
      if group !in links || !links[group].enabled || (links[group].expires.Some? && links[group].expires.value <= at) {
        return;
      }
      var link := links[group];
      if id !in registrations || !PendingFor(registrations[id], group, email) || registrations[id].version != link.version
         || registrations[id].expires <= at {
        return;
      }
      var expires := at + LIFETIME;
      if link.expires.Some? && link.expires.value < expires {
        expires := link.expires.value;
      }
      registrations := registrations[id := registrations[id].(token := token, expires := expires)];
      if id in mail {
        mail := mail[id := mail[id].(status := Pending, attempts := 0, next := Some(at), lease := None, cipher := true, sent := false)];
      }
    }

    /** `id` is the open registration the token belongs to, if any.  It answers Accepted exactly when
        the mailbox becomes an account; then the token opens nothing any more, and nothing of the
        registration is left to send. */
    method ConfirmRegistration(id: Option<Id>, at: int) returns (answer: Answer)
      requires id.Some? ==> id.value in registrations && Open(registrations[id.value])
      modifies this
      ensures (answer, Contents()) == Confirm(old(Contents()), id, at)
      ensures Inv(old(Contents())) ==> Inv(Contents()) && Closes(old(Contents()), Contents())
      ensures answer.Accepted? <==> accounts != old(accounts)
      ensures !answer.Accepted? ==> Contents() == old(Contents())
      ensures answer.Accepted? && Inv(old(Contents())) ==>
                forall k <- registrations.Keys :: !TokenOpens(Contents(), k, old(registrations)[id.value].token)
      ensures answer.Accepted? && id.value in mail ==> !Unsent(mail[id.value])
    {
      hide Inv, Closes, TokenOpens;
      if Inv(Contents()) {
        ConfirmFacts(Contents(), id, at);
      }
      if id.None? {
        return NotFound;
      }
      var r := registrations[id.value];
      if r.expires <= at {
        return Conflict;
      }
      if r.group !in links || !links[r.group].enabled {
        return NotFound;
      }
      var link := links[r.group];
      if link.version != r.version || (link.expires.Some? && link.expires.value <= at) || r.email in accounts {
        return Conflict;
      }
      accounts := accounts[r.email := true];
      registrations := registrations[id.value := r.(consumed := true)];
      mail := map k <- mail.Keys :: if k == id.value && Unsent(mail[k]) then CancelledRow(mail[k]) else mail[k];
      assert mail == PublicJoin.Cancelled(old(mail), {id.value});
      answer := Accepted;
    }
  }

  lemma ConfirmFacts(s: Store, id: Option<Id>, at: int)
    requires Inv(s) && (id.Some? ==> id.value in s.registrations && Open(s.registrations[id.value]))
    ensures Inv(Confirm(s, id, at).1) && Closes(s, Confirm(s, id, at).1)
    ensures Confirm(s, id, at).0.Accepted? ==>
              id.Some? && forall k <- Confirm(s, id, at).1.registrations.Keys ::
                !TokenOpens(Confirm(s, id, at).1, k, s.registrations[id.value].token)
  {
    hide Inv, Check;
    if id.Some? {
      var token := s.registrations[id.value].token;
      ConfirmKeeps(s, id, token, at);
      if Confirm(s, id, at).0.Accepted? {
        forall k: Id ensures !TokenOpens(Confirm(s, id, at).1, k, token) {
          ConfirmedOpensNothing(s, id.value, at, k);
        }
      }
    }
  }
}
