/**
 Public join registrations and their verification mail: starting (which replaces an earlier
 request for the same mailbox), resending (which rotates the token and re-arms the mail),
 confirming, and the invalidation of a group's link.  Tokens are assumed fresh.
 */
module PublicJoin {
  import opened Options
  import opened Outbox
  import OutboxMachine
  import OutboxSafety

  type Email = nat
  type Secret = nat

  datatype Link = Link(version: nat, enabled: bool, expires: Option<int>)
  datatype Registration = Registration(group: nat, email: Email, version: nat, token: Secret, expires: int, consumed: bool,
                                       invalidated: bool)
  datatype Store = Store(links: map<nat, Link>, registrations: map<Id, Registration>, mail: Rows, accounts: map<Email, bool>)
  /** An account is active or deactivated, and may move to another mailbox. */
  predicate ActiveAccount(s: Store, email: Email) { email in s.accounts && s.accounts[email] }

  datatype Answer = Accepted | NotFound | Conflict

  const LIFETIME: int := 24 * 60 * MINUTE

  predicate Open(r: Registration) { !r.consumed && !r.invalidated }

  predicate LinkValid(s: Store, group: nat, at: int) {
    group in s.links && s.links[group].enabled && (s.links[group].expires.Some? ==> at < s.links[group].expires.value)
  }

  function Deadline(l: Link, at: int): int {
    if l.expires.Some? && l.expires.value < at + LIFETIME then l.expires.value else at + LIFETIME
  }

  predicate PendingFor(r: Registration, group: nat, email: Email) { Open(r) && r.group == group && r.email == email }

  function Cancelled(mail: Rows, ids: set<Id>): Rows {
    map id <- mail.Keys :: if id in ids && Unsent(mail[id]) then CancelledRow(mail[id]) else mail[id]
  }

  function Replaced(s: Store, group: nat, email: Email): Store {
    var earlier := set id <- s.registrations.Keys | PendingFor(s.registrations[id], group, email);
    s.(registrations := map id <- s.registrations.Keys ::
         if id in earlier then s.registrations[id].(invalidated := true) else s.registrations[id],
       mail := Cancelled(s.mail, earlier))
  }

  /** Registers a mailbox; silently does nothing for an address that has an active account. */
  function Start(s: Store, id: Id, group: nat, email: Email, token: Secret, at: int): (Answer, Store) {
    if !LinkValid(s, group, at) then (if group in s.links && s.links[group].enabled then Conflict else NotFound, s)
    else if ActiveAccount(s, email) then (Accepted, s)
    else
      var s1 := Replaced(s, group, email);
      var l := s.links[group];
      (Accepted, s1.(registrations := s1.registrations[id := Registration(group, email, l.version, token, Deadline(l, at), false, false)],
                     mail := s1.mail[id := ArmedRow(Kind.PublicJoin, at, at)]))
  }

  predicate Resendable(s: Store, id: Id, group: nat, email: Email, at: int) {
    id in s.registrations && PendingFor(s.registrations[id], group, email) && group in s.links
    && s.registrations[id].version == s.links[group].version && at < s.registrations[id].expires
  }

  /** Rotates the token of the matching registration `id` and re-arms its mail. */
  function Resend(s: Store, id: Id, group: nat, email: Email, token: Secret, at: int): Store {
    if !LinkValid(s, group, at) || !Resendable(s, id, group, email, at) then s
    else
      s.(registrations := s.registrations[id := s.registrations[id].(token := token, expires := Deadline(s.links[group], at))],
         mail := if id in s.mail then s.mail[id := ArmedRow(Kind.PublicJoin, at, s.mail[id].created)] else s.mail)
  }

  predicate TokenOpens(s: Store, id: Id, token: Secret) {
    id in s.registrations && s.registrations[id].token == token && Open(s.registrations[id])
  }

  /** What stands between an open registration and its account. */
  function Check(s: Store, r: Registration, at: int): Answer {
    if r.expires <= at then Conflict
    else if r.group !in s.links || !s.links[r.group].enabled then NotFound
    else if s.links[r.group].version != r.version || !LinkValid(s, r.group, at) || r.email in s.accounts then Conflict
    else Accepted
  }

  /** Confirms with the token that opens registration `id`, or with no matching token. */
  function Confirm(s: Store, id: Option<Id>, at: int): (Answer, Store)
    requires id.Some? ==> id.value in s.registrations
  {
    if id.None? then (NotFound, s)
    else
      var r := s.registrations[id.value];
      var answer := Check(s, r, at);
      if !answer.Accepted? then (answer, s)
      else (Accepted, s.(registrations := s.registrations[id.value := r.(consumed := true)],
                         mail := Cancelled(s.mail, {id.value}), accounts := s.accounts[r.email := true]))
  }

  function InvalidateGroup(s: Store, group: nat, link: Link): Store {
    var hit := set id <- s.registrations.Keys | s.registrations[id].group == group;
    s.(links := s.links[group := link],
       registrations := map id <- s.registrations.Keys ::
         if id in hit && Open(s.registrations[id]) then s.registrations[id].(invalidated := true) else s.registrations[id],
       mail := Cancelled(s.mail, hit))
  }

  // ---------------------------------------------------------------- steps

  datatype Step =
    | DoStart(id: Id, group: nat, email: Email, token: Secret, at: int)
    | DoResend(id: Id, group: nat, email: Email, token: Secret, at: int)
    | DoConfirm(token: Secret, at: int)
    | DoInvalidate(group: nat, link: Link)
    | SetActive(email: Email, active: bool)
    | MoveAccount(from: Email, to: Email)
    | Deliver

  ghost predicate Fresh(s: Store, token: Secret) { forall k <- s.registrations.Keys :: s.registrations[k].token != token }

  predicate MailOnly(s: Store, s': Store) {
    s' == s.(mail := s'.mail) && s'.mail.Keys == s.mail.Keys && forall id <- s.mail.Keys :: Unsent(s'.mail[id]) ==> Unsent(s.mail[id])
  }

  /** The registration a token opens, if any: tokens are unique. */
  ghost predicate Opens(s: Store, token: Secret, id: Option<Id>) {
    match id
    case Some(k) => TokenOpens(s, k, token)
    case None => forall k <- s.registrations.Keys :: !TokenOpens(s, k, token)
  }

  ghost predicate Next(s: Store, step: Step, s': Store) {
    match step
    case DoStart(id, group, email, token, at) =>
      id !in s.registrations && id !in s.mail && Fresh(s, token) && s' == Start(s, id, group, email, token, at).1
    case DoResend(id, group, email, token, at) => Fresh(s, token) && s' == Resend(s, id, group, email, token, at)
    case DoConfirm(token, at) => exists id: Option<Id> :: Opens(s, token, id) && s' == Confirm(s, id, at).1
    case DoInvalidate(group, link) => s' == InvalidateGroup(s, group, link)
    case SetActive(email, active) => email in s.accounts && s' == s.(accounts := s.accounts[email := active])
    case MoveAccount(from, to) =>
      from in s.accounts && to !in s.accounts && s' == s.(accounts := (s.accounts - {from})[to := s.accounts[from]])
    case Deliver => MailOnly(s, s')
  }

  ghost predicate UnsentOpen(s: Store) {
    forall id <- s.mail.Keys :: id in s.registrations && (Unsent(s.mail[id]) ==> Open(s.registrations[id]))
  }

  ghost predicate OnePending(regs: map<Id, Registration>) {
    forall i <- regs.Keys, j <- regs.Keys :: PendingFor(regs[i], regs[j].group, regs[j].email) && Open(regs[j]) ==> i == j
  }

  ghost predicate TokensDiffer(regs: map<Id, Registration>) {
    forall i <- regs.Keys, j <- regs.Keys :: regs[i].token == regs[j].token ==> i == j
  }

  ghost predicate Inv(s: Store) {
    UnsentOpen(s) && OnePending(s.registrations) && TokensDiffer(s.registrations)
    && forall id <- s.registrations.Keys :: !(s.registrations[id].consumed && s.registrations[id].invalidated)
  }

  /** Registrations only close, and keep their mailbox. */
  ghost predicate Closes(s: Store, s': Store) {
    forall id <- s.registrations.Keys ::
         id in s'.registrations && s'.registrations[id].group == s.registrations[id].group
         && s'.registrations[id].email == s.registrations[id].email
         && (!Open(s.registrations[id]) ==> s'.registrations[id] == s.registrations[id])
  }

  lemma ReplacedKeeps(s: Store, group: nat, email: Email)
    requires Inv(s)
    ensures var s1 := Replaced(s, group, email);
            Inv(s1) && Closes(s, s1) && s1.registrations.Keys == s.registrations.Keys && s1.mail.Keys == s.mail.Keys
            && (forall k <- s1.registrations.Keys ::
                  !PendingFor(s1.registrations[k], group, email) && s1.registrations[k].token == s.registrations[k].token)
  {
  }

  lemma InsertKeeps(s: Store, id: Id, r: Registration, mail: Row)
    requires Inv(s) && id !in s.registrations && id !in s.mail && Fresh(s, r.token) && Open(r)
    requires forall k <- s.registrations.Keys :: !PendingFor(s.registrations[k], r.group, r.email)
    ensures var s' := s.(registrations := s.registrations[id := r], mail := s.mail[id := mail]); Inv(s') && Closes(s, s')
  {
  }

  lemma StartKeeps(s: Store, id: Id, group: nat, email: Email, token: Secret, at: int)
    requires Inv(s) && id !in s.registrations && id !in s.mail && Fresh(s, token)
    ensures Inv(Start(s, id, group, email, token, at).1) && Closes(s, Start(s, id, group, email, token, at).1)
  {
    hide Inv, Replaced;
    if LinkValid(s, group, at) && !ActiveAccount(s, email) {
      ReplacedKeeps(s, group, email);
      var r := Registration(group, email, s.links[group].version, token, Deadline(s.links[group], at), false, false);
      InsertKeeps(Replaced(s, group, email), id, r, ArmedRow(Kind.PublicJoin, at, at));
    }
  }

  lemma ResendKeeps(s: Store, id: Id, group: nat, email: Email, token: Secret, at: int)
    requires Inv(s) && Fresh(s, token)
    ensures Inv(Resend(s, id, group, email, token, at)) && Closes(s, Resend(s, id, group, email, token, at))
  {
  }

  lemma ConfirmKeeps(s: Store, id: Option<Id>, token: Secret, at: int)
    requires Inv(s) && Opens(s, token, id)
    ensures Inv(Confirm(s, id, at).1) && Closes(s, Confirm(s, id, at).1)
  {
  }

  /** The token of a confirmed registration opens nothing any more. */
  lemma ConfirmedOpensNothing(s: Store, id: Id, at: int, k: Id)
    requires Inv(s) && id in s.registrations && Confirm(s, Some(id), at).0.Accepted?
    ensures !TokenOpens(Confirm(s, Some(id), at).1, k, s.registrations[id].token)
  {
  }

  lemma InvalidateKeeps(s: Store, group: nat, link: Link)
    requires Inv(s)
    ensures Inv(InvalidateGroup(s, group, link)) && Closes(s, InvalidateGroup(s, group, link))
  {
  }

  lemma StepKeeps(s: Store, step: Step, s': Store)
    requires Inv(s) && Next(s, step, s')
    ensures Inv(s') && Closes(s, s')
  {
    hide Start, Resend, Confirm, InvalidateGroup;
    match step {
      case DoStart(id, group, email, token, at) => StartKeeps(s, id, group, email, token, at);
      case DoResend(id, group, email, token, at) => ResendKeeps(s, id, group, email, token, at);
      case DoConfirm(token, at) =>
        var id: Option<Id> :| Opens(s, token, id) && s' == Confirm(s, id, at).1;
        ConfirmKeeps(s, id, token, at);
      case DoInvalidate(group, link) => InvalidateKeeps(s, group, link);
      case SetActive(_, _) =>
      case MoveAccount(_, _) =>
      case Deliver =>
    }
  }

  // ---------------------------------------------------------------- answers, in columns

  /** A confirmation is accepted if and only if the registration has not expired, its group's link
      still exists in the same version, is enabled and has not expired, and the mailbox has no
      account; then exactly the account is added and the registration is used up. */
  lemma ConfirmAcceptedIff(s: Store, id: Id, at: int)
    requires id in s.registrations
    ensures var r, answer := s.registrations[id], Confirm(s, Some(id), at).0;
            (answer == Accepted <==>
               at < r.expires && r.group in s.links && s.links[r.group].version == r.version && s.links[r.group].enabled
               && (s.links[r.group].expires == None || at < s.links[r.group].expires.value) && r.email !in s.accounts)
            && (answer == NotFound <==> at < r.expires && (r.group !in s.links || !s.links[r.group].enabled))
    ensures var r, (answer, s') := s.registrations[id], Confirm(s, Some(id), at);
            if answer == Accepted
            then s'.accounts == s.accounts[r.email := true] && s'.registrations == s.registrations[id := r.(consumed := true)]
                 && s'.links == s.links && s'.mail.Keys == s.mail.Keys
                 && (forall k <- s.mail.Keys | k != id :: s'.mail[k] == s.mail[k])
                 && (id in s.mail ==> s'.mail[id].status in {Status.Cancelled, Sent} && (s'.mail[id].status == Sent ==> s'.mail[id] == s.mail[id]))
            else s' == s
  {
  }

  /** A start is refused as unknown without an enabled link and as a conflict when the link has
      expired; it registers nothing if the mailbox has an active account, and otherwise exactly one
      registration with the current link version, for a day or as long as the link lasts. */
  lemma StartAnswers(s: Store, id: Id, group: nat, email: Email, token: Secret, at: int)
    requires id !in s.registrations
    ensures var (answer, s') := Start(s, id, group, email, token, at);
            (answer == NotFound <==> group !in s.links || !s.links[group].enabled)
            && (answer == Conflict <==>
                  group in s.links && s.links[group].enabled && s.links[group].expires.Some? && s.links[group].expires.value <= at)
            && (answer != Accepted || (email in s.accounts && s.accounts[email]) ==> s' == s)
            && (answer == Accepted && !(email in s.accounts && s.accounts[email]) ==>
                  var r := s'.registrations[id];
                  s'.registrations.Keys == s.registrations.Keys + {id} && s'.accounts == s.accounts && s'.links == s.links
                  && r.group == group && r.email == email && r.version == s.links[group].version && r.token == token
                  && !r.consumed && !r.invalidated && r.expires <= at + 24 * 60 * MINUTE
                  && (s.links[group].expires.Some? ==> r.expires <= s.links[group].expires.value)
                  && (r.expires == at + 24 * 60 * MINUTE || s.links[group].expires == Some(r.expires))
                  && id in s'.mail && s'.mail[id] == Row(Pending, 0, Some(at), None, true, false, at)
                  && forall k <- s.registrations.Keys ::
                       s'.registrations[k] == s.registrations[k].(invalidated := s'.registrations[k].invalidated)
                       && (s'.registrations[k].invalidated <==>
                             s.registrations[k].invalidated
                             || (!s.registrations[k].consumed && s.registrations[k].group == group && s.registrations[k].email == email)))
  {
  }

  /** A resend takes effect if and only if the link is valid and the registration is open, of that
      mailbox, of the current link version and unexpired; then it has the new token and a new term. */
  lemma ResendTakesEffectIff(s: Store, id: Id, group: nat, email: Email, token: Secret, at: int)
    ensures var s' := Resend(s, id, group, email, token, at);
            var takes := group in s.links && s.links[group].enabled && (s.links[group].expires == None || at < s.links[group].expires.value)
                         && id in s.registrations && !s.registrations[id].consumed && !s.registrations[id].invalidated
                         && s.registrations[id].group == group && s.registrations[id].email == email
                         && s.registrations[id].version == s.links[group].version && at < s.registrations[id].expires;
            if takes
            then s'.registrations.Keys == s.registrations.Keys && s'.accounts == s.accounts && s'.links == s.links
                 && (forall k <- s.registrations.Keys | k != id :: s'.registrations[k] == s.registrations[k])
                 && s'.registrations[id] == s.registrations[id].(token := token, expires := s'.registrations[id].expires)
                 && s'.registrations[id].expires <= at + 24 * 60 * MINUTE
                 && (s.links[group].expires.Some? ==> s'.registrations[id].expires <= s.links[group].expires.value)
                 && (s'.registrations[id].expires == at + 24 * 60 * MINUTE || s.links[group].expires == Some(s'.registrations[id].expires))
                 && s'.mail.Keys == s.mail.Keys && (forall k <- s.mail.Keys | k != id :: s'.mail[k] == s.mail[k])
                 && (id in s.mail ==> s'.mail[id] == Row(Pending, 0, Some(at), None, true, false, s.mail[id].created))
            else s' == s
  {
  }

  /** A group's new link closes all of its open registrations and their unsent mail, and no others. */
  lemma InvalidationClosesGroup(s: Store, group: nat, link: Link, id: Id)
    requires Inv(s) && id in s.registrations
    ensures var s' := InvalidateGroup(s, group, link);
            var hit := s.registrations[id].group == group;
            s'.links == s.links[group := link] && s'.accounts == s.accounts && s'.registrations.Keys == s.registrations.Keys
            && (Open(s'.registrations[id]) <==> Open(s.registrations[id]) && !hit)
            && (!hit ==> s'.registrations[id] == s.registrations[id] && (id in s.mail ==> id in s'.mail && s'.mail[id] == s.mail[id]))
            && (hit && id in s.mail ==> id in s'.mail && s'.mail[id].status in {Status.Cancelled, Sent})
  {
  }

  /** A message is cancelled exactly when its registration closes: no other row changes, and what was
      sent stays sent. */
  predicate MailFollows(s: Store, s': Store) {
    s.mail.Keys <= s'.mail.Keys
    && forall id <- s.mail.Keys ::
         s'.mail[id] == if id in s.registrations && Open(s.registrations[id]) && (id in s'.registrations && !Open(s'.registrations[id]))
                           && s.mail[id].status in {Pending, Sending, Failed}
                        then Row(Status.Cancelled, s.mail[id].attempts, None, None, false, s.mail[id].sent, s.mail[id].created)
                        else s.mail[id]
  }

  /** Of the earlier messages a start, a confirmation or a group's new link cancels exactly those
      whose registration it closes. */
  lemma CommandMailFollows(s: Store, step: Step, s': Store)
    requires Inv(s) && Next(s, step, s') && (step.DoStart? || step.DoConfirm? || step.DoInvalidate?)
    ensures MailFollows(s, s')
  {
    hide OnePending, TokensDiffer;
    match step {
      case DoStart(id, group, email, token, at) => StartFollows(s, id, group, email, token, at);
      case DoConfirm(token, at) =>
        var id: Option<Id> :| Opens(s, token, id) && s' == Confirm(s, id, at).1;
        ConfirmFollows(s, id, token, at);
      case DoInvalidate(group, link) => InvalidateFollows(s, group, link);
    }
  }

  lemma StartFollows(s: Store, id: Id, group: nat, email: Email, token: Secret, at: int)
    requires Inv(s) && id !in s.registrations && id !in s.mail
    ensures MailFollows(s, Start(s, id, group, email, token, at).1)
  {
    hide OnePending, TokensDiffer;
  }

  lemma ConfirmFollows(s: Store, id: Option<Id>, token: Secret, at: int)
    requires Inv(s) && Opens(s, token, id)
    ensures MailFollows(s, Confirm(s, id, at).1)
  {
    hide OnePending, TokensDiffer;
  }

  lemma InvalidateFollows(s: Store, group: nat, link: Link)
    requires Inv(s)
    ensures MailFollows(s, InvalidateGroup(s, group, link))
  {
    hide OnePending, TokensDiffer;
  }

  // ---------------------------------------------------------------- tokens

  /** After a resend only the new token opens the registration, with its mail queued afresh
      whatever had become of the earlier message. */
  lemma ResendRotates(s: Store, id: Id, group: nat, email: Email, token: Secret, at: int, other: Secret, k: Id)
    requires Inv(s) && Fresh(s, token) && LinkValid(s, group, at) && Resendable(s, id, group, email, at)
    ensures var s' := Resend(s, id, group, email, token, at);
            (TokenOpens(s', k, other) && k in s'.registrations && PendingFor(s'.registrations[k], group, email) ==> other == token)
            && TokenOpens(s', id, token) && Check(s', s'.registrations[id], at) == (if email in s.accounts then Conflict else Accepted)
            && (id in s.mail ==> s'.mail[id].status.Pending? && s'.mail[id].attempts == 0 && s'.mail[id].lease.None?)
  {
  }

  /** A new start leaves exactly one registration open for the mailbox, the new one, and no unsent
      mail but its own. */
  lemma StartReplaces(s: Store, id: Id, group: nat, email: Email, token: Secret, at: int, k: Id)
    requires Inv(s) && id !in s.registrations && id !in s.mail && Fresh(s, token)
    requires LinkValid(s, group, at) && !ActiveAccount(s, email)
    ensures var s' := Start(s, id, group, email, token, at).1;
            (k in s'.registrations && PendingFor(s'.registrations[k], group, email) <==> k == id)
            && (k in s'.mail && Unsent(s'.mail[k]) && s'.registrations[k].group == group && s'.registrations[k].email == email
                ==> k == id)
  {
    StartKeeps(s, id, group, email, token, at);
  }

  ghost predicate Run(stores: seq<Store>, steps: seq<Step>) {
    |stores| == |steps| + 1 && Inv(stores[0]) && forall i :: 0 <= i < |steps| ==> Next(stores[i], steps[i], stores[i + 1])
  }

  lemma {:induction false} RunCloses(stores: seq<Store>, steps: seq<Step>, i: nat, j: nat)
    requires Run(stores, steps) && i <= j < |stores|
    ensures Inv(stores[j]) && Closes(stores[i], stores[j])
    decreases j
  {
    hide Next, Inv;
    if i < j {
      RunCloses(stores, steps, i, j - 1);
      StepKeeps(stores[j - 1], steps[j - 1], stores[j]);
    } else if j > 0 {
      RunCloses(stores, steps, j - 1, j - 1);
      StepKeeps(stores[j - 1], steps[j - 1], stores[j]);
    }
  }

  /** The step that turns a registration of mailbox `email` into an account. */
  predicate CreatesAccount(s: Store, step: Step, s': Store, email: Email) {
    step.DoConfirm? && email !in s.accounts && email in s'.accounts
  }

  predicate MovesAway(step: Step, email: Email) { step.MoveAccount? && step.from == email }

  lemma StepKeepsAccount(s: Store, step: Step, s': Store, email: Email)
    requires Next(s, step, s') && email in s.accounts && !MovesAway(step, email)
    ensures email in s'.accounts
  {
  }

  lemma {:induction false} AccountStays(stores: seq<Store>, steps: seq<Step>, i: nat, j: nat, email: Email)
    requires Run(stores, steps) && i <= j < |stores| && email in stores[i].accounts
    requires forall k :: i <= k < j ==> !MovesAway(steps[k], email)
    ensures email in stores[j].accounts
    decreases j - i
  {
    hide Next, Inv;
    if i < j {
      AccountStays(stores, steps, i, j - 1, email);
      StepKeepsAccount(stores[j - 1], steps[j - 1], stores[j], email);
    }
  }

  /** A mailbox becomes an account a second time only after its account moved to another mailbox,
      however many groups it registered with. */
  lemma AccountCreatedOnce(stores: seq<Store>, steps: seq<Step>, i: nat, j: nat, email: Email)
    requires Run(stores, steps) && i < j < |steps|
    requires CreatesAccount(stores[i], steps[i], stores[i + 1], email)
    requires CreatesAccount(stores[j], steps[j], stores[j + 1], email)
    ensures exists k :: i < k < j && MovesAway(steps[k], email)
  {
    hide Next, Inv, MovesAway;
    if forall k :: i < k < j ==> !MovesAway(steps[k], email) {
      AccountStays(stores, steps, i + 1, j, email);
    }
  }

  /** A mailbox that has an account, active or not, is never registered into a second one: a
      deactivated account lets a registration start, but no confirmation of it is accepted while
      the account keeps the mailbox. */
  lemma AccountBlocksConfirm(stores: seq<Store>, steps: seq<Step>, i: nat, j: nat, id: Id, at: int)
    requires Run(stores, steps) && i <= j < |stores| && id in stores[j].registrations
    requires stores[j].registrations[id].email in stores[i].accounts
    requires forall k :: i <= k < j ==> !MovesAway(steps[k], stores[j].registrations[id].email)
    ensures !Confirm(stores[j], Some(id), at).0.Accepted?
  {
    hide Next, Inv, MovesAway;
    AccountStays(stores, steps, i, j, stores[j].registrations[id].email);
  }

  /** A registration is turned into an account at most once in every run, whatever happens to
      accounts and mailboxes. */
  lemma RegistrationConfirmedOnce(stores: seq<Store>, steps: seq<Step>, i: nat, j: nat, id: Id)
    requires Run(stores, steps) && i < |steps| && j < |steps|
    requires id in stores[i].registrations && Open(stores[i].registrations[id])
    requires id in stores[i + 1].registrations && stores[i + 1].registrations[id].consumed
    requires id in stores[j].registrations && Open(stores[j].registrations[id])
    requires id in stores[j + 1].registrations && stores[j + 1].registrations[id].consumed
    ensures i == j
  {
    hide Next, Inv;
    if i < j {
      RunCloses(stores, steps, i + 1, j);
    } else if j < i {
      RunCloses(stores, steps, j + 1, i);
    }
  }

  predicate SameTerms(r: Registration, r': Registration) { r' == r.(consumed := r'.consumed, invalidated := r'.invalidated) }

  lemma StepIssues(s: Store, step: Step, s': Store, id: Id)
    requires Next(s, step, s') && id in s'.registrations
    ensures (id in s.registrations && SameTerms(s.registrations[id], s'.registrations[id]))
            || ((step.DoStart? || step.DoResend?) && step.id == id && step.token == s'.registrations[id].token
                && s'.registrations[id].expires <= step.at + 24 * 60 * MINUTE && step.group in s.links
                && s'.registrations[id].version == s.links[step.group].version
                && s'.registrations[id].group == step.group && s'.registrations[id].email == step.email)
  {
  }

  /** The token a registration answers to was issued by the latest start or resend of it. */
  lemma {:induction false} IssuedBy(stores: seq<Store>, steps: seq<Step>, j: nat, id: Id) returns (i: nat)
    requires Run(stores, steps) && stores[0].registrations == map[] && j < |stores| && id in stores[j].registrations
    ensures i < j && (steps[i].DoStart? || steps[i].DoResend?) && steps[i].id == id
    ensures var r := stores[j].registrations[id];
            r.token == steps[i].token && r.group == steps[i].group && r.email == steps[i].email
            && r.expires <= steps[i].at + 24 * 60 * MINUTE
            && steps[i].group in stores[i].links && stores[i].links[steps[i].group].version == r.version
  {
    hide Next, Inv;
    StepIssues(stores[j - 1], steps[j - 1], stores[j], id);
    if id in stores[j - 1].registrations && SameTerms(stores[j - 1].registrations[id], stores[j].registrations[id]) {
      i := IssuedBy(stores, steps, j - 1, id);
    } else {
      i := j - 1;
    }
  }

  /** A confirmation that creates an account in a run was made with the token of a start or resend
      for that mailbox and group less than a day before, under the version of the link the group
      still had. */
  lemma ConfirmedWithinDay(stores: seq<Store>, steps: seq<Step>, j: nat, email: Email) returns (i: nat, group: nat)
    requires Run(stores, steps) && stores[0].registrations == map[] && j < |steps|
    requires CreatesAccount(stores[j], steps[j], stores[j + 1], email)
    ensures i < j && (steps[i].DoStart? || steps[i].DoResend?)
    ensures steps[i].token == steps[j].token && steps[i].email == email && steps[i].group == group
    ensures steps[j].at < steps[i].at + 24 * 60 * MINUTE
    ensures group in stores[i].links && group in stores[j].links && stores[i].links[group].version == stores[j].links[group].version
  {
    hide Inv;
    var id := ConfirmedRegistration(stores[j], steps[j], stores[j + 1], email);
    i := IssuedBy(stores, steps, j, id);
    group := steps[i].group;
  }

  lemma ConfirmedRegistration(s: Store, step: Step, s': Store, email: Email) returns (id: Id)
    requires Next(s, step, s') && CreatesAccount(s, step, s', email)
    ensures id in s.registrations && s.registrations[id].email == email && s.registrations[id].token == step.token
    ensures step.at < s.registrations[id].expires && s.registrations[id].group in s.links
    ensures s.links[s.registrations[id].group].version == s.registrations[id].version
  {
    var found: Option<Id> :| Opens(s, step.token, found) && s' == Confirm(s, found, step.at).1;
    id := found.value;
    ConfirmAcceptedIff(s, id, step.at);
  }

  lemma ConfirmKeepsTokens(s: Store, id: Id, at: int)
    requires id in s.registrations
    ensures var s' := Confirm(s, Some(id), at).1;
            s'.registrations.Keys == s.registrations.Keys && s'.mail.Keys == s.mail.Keys
            && forall k <- s.registrations.Keys :: s'.registrations[k].token == s.registrations[k].token
  {
  }

  lemma StartAddsToken(s: Store, id: Id, group: nat, email: Email, token: Secret, at: int)
    requires Inv(s) && id !in s.registrations && LinkValid(s, group, at) && email !in s.accounts
    ensures var s' := Start(s, id, group, email, token, at).1;
            s'.registrations.Keys == s.registrations.Keys + {id} && s'.mail.Keys == s.mail.Keys + {id}
            && forall k <- s'.registrations.Keys :: s'.registrations[k].token == if k == id then token else s.registrations[k].token
  {
    hide Inv, Replaced;
    ReplacedKeeps(s, group, email);
  }

  lemma StartedIsAccepted(s: Store, id: Id, group: nat, email: Email, token: Secret, at: int, later: int)
    requires Inv(s) && id !in s.registrations && id !in s.mail && Fresh(s, token)
    requires LinkValid(s, group, at) && email !in s.accounts && at <= later < Deadline(s.links[group], at)
    ensures var s1 := Start(s, id, group, email, token, at).1;
            Inv(s1) && Opens(s1, token, Some(id)) && s1.accounts == s.accounts && s1.links == s.links
            && Confirm(s1, Some(id), later).0.Accepted? && Confirm(s1, Some(id), later).1.accounts == s.accounts[email := true]
            && Confirm(s1, Some(id), later).1.links == s.links
  {
    hide Inv, Replaced;
    StartKeeps(s, id, group, email, token, at);
    ReplacedKeeps(s, group, email);
    var s1 := Start(s, id, group, email, token, at).1;
    assert s1.accounts == s.accounts && s1.links == s.links by { ReplacedRest(s, group, email); }
    assert s1.registrations[id] == Registration(group, email, s.links[group].version, token, Deadline(s.links[group], at), false, false);
  }

  lemma ReplacedRest(s: Store, group: nat, email: Email)
    ensures Replaced(s, group, email).accounts == s.accounts && Replaced(s, group, email).links == s.links
  {
  }

  /** A registration started for a free mailbox is confirmed by its token until it expires. */
  lemma StartedCanConfirm(s: Store, id: Id, group: nat, email: Email, token: Secret, at: int, later: int) returns (s1: Store, s2: Store)
    requires Inv(s) && id !in s.registrations && id !in s.mail && Fresh(s, token)
    requires LinkValid(s, group, at) && email !in s.accounts && at <= later < Deadline(s.links[group], at)
    ensures Next(s, DoStart(id, group, email, token, at), s1) && Next(s1, DoConfirm(token, later), s2)
    ensures CreatesAccount(s1, DoConfirm(token, later), s2, email) && s2.accounts == s.accounts[email := true]
    ensures Inv(s2) && s2.links == s.links
    ensures s2.registrations.Keys == s.registrations.Keys + {id} && s2.mail.Keys == s.mail.Keys + {id}
    ensures forall k <- s2.registrations.Keys :: s2.registrations[k].token == if k == id then token else s.registrations[k].token
  {
    hide Inv, Start, Confirm, LinkValid, Deadline;
    StartedIsAccepted(s, id, group, email, token, at, later);
    s1 := Start(s, id, group, email, token, at).1;
    s2 := Confirm(s1, Some(id), later).1;
    ConfirmKeeps(s1, Some(id), token, later);
    StartAddsToken(s, id, group, email, token, at);
    ConfirmKeepsTokens(s1, id, later);
  }

  lemma EmptyInv(s: Store)
    requires s.registrations == map[] && s.mail == map[]
    ensures Inv(s)
  {
  }

  /** Two accounts from mailbox 1, the first of which moved to mailbox 2 in between. */
  lemma CreatedTwiceAfterMove(start: Store, link: Link)
    requires start == Store(map[0 := link], map[], map[], map[]) && link.enabled && link.expires.None?
    ensures exists stores: seq<Store>, steps: seq<Step> ::
              Run(stores, steps) && |steps| == 5 && stores[0] == start
              && CreatesAccount(stores[1], steps[1], stores[2], 1) && CreatesAccount(stores[4], steps[4], stores[5], 1)
  {
    hide Start, Confirm, Inv;
    EmptyInv(start);
    var s1, s2 := StartedCanConfirm(start, 0, 0, 1, 0, 0, 0);
    var s3 := s2.(accounts := (s2.accounts - {1})[2 := s2.accounts[1]]);
    StepKeeps(s2, MoveAccount(1, 2), s3);
    var s4, s5 := StartedCanConfirm(s3, 1, 0, 1, 1, 0, 0);
    hide Next, CreatesAccount;
    var stores := [start, s1, s2, s3, s4, s5];
    var steps := [DoStart(0, 0, 1, 0, 0), DoConfirm(0, 0), MoveAccount(1, 2), DoStart(1, 0, 1, 1, 0), DoConfirm(1, 0)];
    assert Run(stores, steps) && CreatesAccount(stores[1], steps[1], stores[2], 1) && CreatesAccount(stores[4], steps[4], stores[5], 1);
  }

  /** No step of the dispatcher machine but arming and the resend's re-arming brings sent or
      cancelled mail back, so on the mail each of them is a delivery step here. */
  lemma DispatcherIsMailOnly(s: OutboxMachine.State, a: OutboxMachine.Action, store: Store)
    requires OutboxSafety.Shapes(Kind.PublicJoin, s.rows)
    requires OutboxMachine.Can(Kind.PublicJoin, s, a) && !a.Arm? && !a.Rearm?
    ensures MailOnly(store.(mail := s.rows), store.(mail := OutboxMachine.Do(Kind.PublicJoin, s, a).rows))
  {
  }

  /** The resend arms its row as the machine's re-arming does. */
  lemma ResendIsRearm(s: OutboxMachine.State, store: Store, id: Id, group: nat, email: Email, token: Secret, at: int)
    requires store.mail == s.rows && id in s.rows && at <= s.clock
    requires LinkValid(store, group, at) && Resendable(store, id, group, email, at)
    ensures OutboxMachine.Can(Kind.PublicJoin, s, OutboxMachine.Rearm(id, at))
    ensures Resend(store, id, group, email, token, at).mail == OutboxMachine.Do(Kind.PublicJoin, s, OutboxMachine.Rearm(id, at)).rows
  {
  }
}
