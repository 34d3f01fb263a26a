/**
 One-time account-security actions and the mail that carries their tokens: requesting an
 action, consuming it, changing a password, the dispatcher's expiry sweep and its early
 cancellation.  Addresses are compared case-insensitively, so an address is its folded form.
 */
module AccountSecurity {
  import opened Options
  import opened Outbox
  import OutboxMachine
  import OutboxSafety

  type User = nat
  type Email = nat

  datatype Purpose = PasswordReset | EmailChange
  datatype Action = Action(user: User, purpose: Purpose, target: Option<Email>, expires: int, consumed: bool, invalidated: bool)

  datatype Store = Store(actions: map<Id, Action>, mail: Rows)

  const LIFETIME: int := 60 * MINUTE

  predicate Open(a: Action) { !a.consumed && !a.invalidated }

  // ---------------------------------------------------------------- statements

  function Invalidated(actions: map<Id, Action>, ids: set<Id>): map<Id, Action> {
    map id <- actions.Keys :: if id in ids then actions[id].(invalidated := true) else actions[id]
  }

  function MailCancelled(mail: Rows, ids: set<Id>): Rows {
    map id <- mail.Keys :: if id in ids && Unsent(mail[id]) then CancelledRow(mail[id]) else mail[id]
  }

  /** Open actions of a user, optionally of one purpose and sparing one action. */
  function OpenOf(s: Store, user: User, purpose: Option<Purpose>, spared: Option<Id>): set<Id> {
    set id <- s.actions.Keys |
      Open(s.actions[id]) && s.actions[id].user == user && (purpose.Some? ==> s.actions[id].purpose == purpose.value)
      && spared != Some(id)
  }

  function InvalidatedOf(actions: map<Id, Action>, user: User, spared: Option<Id>): set<Id> {
    set id <- actions.Keys | actions[id].user == user && actions[id].invalidated && spared != Some(id)
  }

  function InvalidateActions(s: Store, user: User, purpose: Option<Purpose>, spared: Option<Id>): Store {
    var actions := Invalidated(s.actions, OpenOf(s, user, purpose, spared));
    Store(actions, MailCancelled(s.mail, InvalidatedOf(actions, user, spared)))
  }

  function ExpiredChangesTo(actions: map<Id, Action>, target: Email, at: int): set<Id> {
    set id <- actions.Keys | Open(actions[id]) && actions[id].purpose.EmailChange? && actions[id].target == Some(target)
                             && actions[id].expires <= at
  }

  function InvalidatedChangesTo(actions: map<Id, Action>, target: Email): set<Id> {
    set id <- actions.Keys | actions[id].invalidated && actions[id].purpose.EmailChange? && actions[id].target == Some(target)
  }

  function InvalidateExpiredTarget(s: Store, target: Email, at: int): Store {
    var actions := Invalidated(s.actions, ExpiredChangesTo(s.actions, target, at));
    Store(actions, MailCancelled(s.mail, InvalidatedChangesTo(actions, target)))
  }

  /** The two unique indexes over open actions. */
  predicate Conflicts(actions: map<Id, Action>, a: Action) {
    exists id <- actions.Keys ::
      Open(actions[id]) && (
        (actions[id].user == a.user && actions[id].purpose == a.purpose)
        || (actions[id].purpose.EmailChange? && a.purpose.EmailChange? && actions[id].target == a.target))
  }

  // ---------------------------------------------------------------- commands

  function Prepared(s: Store, user: User, purpose: Purpose, target: Option<Email>, at: int): Store {
    var s1 := if purpose.EmailChange? && target.Some? then InvalidateExpiredTarget(s, target.value, at) else s;
    InvalidateActions(s1, user, Some(purpose), None)
  }

  function Requested(user: User, purpose: Purpose, target: Option<Email>, at: int): Action {
    Action(user, purpose, target, at + LIFETIME, false, false)
  }

  /** Requests an action.  `current` says that the account is still active with the address and
      credential the request was checked against. */
  function Persist(s: Store, id: Id, user: User, purpose: Purpose, target: Option<Email>, at: int, current: bool): Option<Store> {
    var s1 := Prepared(s, user, purpose, target, at);
    var a := Requested(user, purpose, target, at);
    if !current || Conflicts(s1.actions, a) then None
    else Some(Store(s1.actions[id := a], s1.mail[id := ArmedRow(Kind.AccountSecurity, at, at)]))
  }

  /** Password changed, reset, or address changed: consumes at most one action, invalidates every
      other open one of the user and cancels all of the user's unsent mail. */
  function Finish(s: Store, user: User, consumed: Option<Id>): Option<Store> {
    match consumed
    case None => Some(InvalidateActions(s, user, None, None))
    case Some(id) =>
      if id !in s.actions || !Open(s.actions[id]) then None
      else
        var s1 := Store(s.actions[id := s.actions[id].(consumed := true)], MailCancelled(s.mail, {id}));
        Some(InvalidateActions(s1, user, None, consumed))
  }

  /** Confirmation by token: the action must be open, of the right purpose and unexpired, and the
      account must still carry its source address. */
  function Confirm(s: Store, id: Id, purpose: Purpose, at: int, current: bool): Option<Store> {
    if id !in s.actions || !Open(s.actions[id]) || s.actions[id].purpose != purpose || s.actions[id].expires <= at || !current
    then None
    else Finish(s, s.actions[id].user, Some(id))
  }

  function ExpiredOpen(actions: map<Id, Action>, at: int): set<Id> {
    set id <- actions.Keys | Open(actions[id]) && actions[id].expires <= at
  }

  function ExpiredInvalidated(actions: map<Id, Action>, at: int): set<Id> {
    set id <- actions.Keys | actions[id].invalidated && actions[id].expires <= at
  }

  /** The claim's sweep: expired actions first, then the outbox rows. */
  function SweepMail(s: Store, at: int): Store {
    var actions := Invalidated(s.actions, ExpiredOpen(s.actions, at));
    Store(actions, Swept(Kind.AccountSecurity, s.mail, at, ExpiredInvalidated(actions, at)))
  }

  predicate MailHeld(s: Store, id: Id, token: Token) {
    id in s.mail && s.mail[id].status.Sending? && s.mail[id].lease.Some? && s.mail[id].lease.value.token == token
  }

  /** Cancelling a claim invalidates its action as well; if the lease was lost both roll back. */
  function CancelMail(s: Store, id: Id, token: Token): Store {
    if !MailHeld(s, id, token) then s
    else Store(Invalidated(s.actions, if id in s.actions && Open(s.actions[id]) then {id} else {}),
               s.mail[id := CancelledRow(s.mail[id])])
  }

  // ---------------------------------------------------------------- steps and the invariant

  /** Any other dispatcher statement: rows change, but no sent or cancelled mail comes back. */
  predicate MailOnly(s: Store, s': Store) {
    s'.actions == s.actions && s'.mail.Keys == s.mail.Keys && forall id <- s.mail.Keys :: Unsent(s'.mail[id]) ==> Unsent(s.mail[id])
  }

  datatype Step =
    | Request(id: Id, user: User, purpose: Purpose, target: Option<Email>, at: int, current: bool)
    | Redeem(id: Id, purpose: Purpose, at: int, current: bool)
    | ChangePassword(user: User)
    | Sweep(at: int)
    | Cancel(id: Id, token: Token)
    | Deliver

  function Applied(s: Store, r: Option<Store>): Store { if r.Some? then r.value else s }

  /** A refused command rolls its transaction back. */
  predicate Next(s: Store, step: Step, s': Store) {
    match step
    case Request(id, user, purpose, target, at, current) =>
      id !in s.actions && id !in s.mail && (purpose.EmailChange? <==> target.Some?)
      && s' == Applied(s, Persist(s, id, user, purpose, target, at, current))
    case Redeem(id, purpose, at, current) => s' == Applied(s, Confirm(s, id, purpose, at, current))
    case ChangePassword(user) => s' == Applied(s, Finish(s, user, None))
    case Sweep(at) => s' == SweepMail(s, at)
    case Cancel(id, token) => s' == CancelMail(s, id, token)
    case Deliver => MailOnly(s, s')
  }

  ghost predicate MailOpen(s: Store) {
    forall id <- s.mail.Keys :: id in s.actions && (Unsent(s.mail[id]) ==> Open(s.actions[id]))
  }

  ghost predicate OneOpen(actions: map<Id, Action>) {
    forall i <- actions.Keys, j <- actions.Keys ::
      Open(actions[i]) && Open(actions[j]) && actions[i].user == actions[j].user && actions[i].purpose == actions[j].purpose ==> i == j
  }

  ghost predicate OneTarget(actions: map<Id, Action>) {
    forall i <- actions.Keys, j <- actions.Keys ::
      (Open(actions[i]) && Open(actions[j]) && actions[i].purpose.EmailChange? && actions[j].purpose.EmailChange?
       && actions[i].target == actions[j].target) ==> i == j
  }

  ghost predicate Exclusive(actions: map<Id, Action>) {
    forall id <- actions.Keys :: !(actions[id].consumed && actions[id].invalidated)
                                 && (actions[id].purpose.EmailChange? <==> actions[id].target.Some?)
  }

  ghost predicate Inv(s: Store) { MailOpen(s) && OneOpen(s.actions) && OneTarget(s.actions) && Exclusive(s.actions) }

  /** Actions only ever close; what identifies them never changes. */
  predicate Closes(actions: map<Id, Action>, actions': map<Id, Action>) {
    forall id <- actions.Keys ::
      id in actions' && actions'[id].user == actions[id].user && actions'[id].purpose == actions[id].purpose
      && actions'[id].target == actions[id].target && actions'[id].expires == actions[id].expires
      && (actions[id].consumed ==> actions'[id].consumed) && (actions[id].invalidated ==> actions'[id].invalidated)
      && (!Open(actions[id]) ==> actions'[id] == actions[id])
  }

  lemma InvalidateKeeps(s: Store, user: User, purpose: Option<Purpose>, spared: Option<Id>)
    requires Inv(s)
    ensures var s' := InvalidateActions(s, user, purpose, spared);
            Inv(s') && Closes(s.actions, s'.actions) && s'.actions.Keys == s.actions.Keys && s'.mail.Keys == s.mail.Keys
  {
  }

  lemma ExpiredTargetKeeps(s: Store, target: Email, at: int)
    requires Inv(s)
    ensures var s' := InvalidateExpiredTarget(s, target, at);
            Inv(s') && Closes(s.actions, s'.actions) && s'.actions.Keys == s.actions.Keys && s'.mail.Keys == s.mail.Keys
  {
  }

  lemma PreparedKeeps(s: Store, user: User, purpose: Purpose, target: Option<Email>, at: int)
    requires Inv(s)
    ensures var s' := Prepared(s, user, purpose, target, at);
            Inv(s') && Closes(s.actions, s'.actions) && s'.actions.Keys == s.actions.Keys && s'.mail.Keys == s.mail.Keys
  {
    hide Inv, InvalidateExpiredTarget, InvalidateActions;
    var s1 := if purpose.EmailChange? && target.Some? then InvalidateExpiredTarget(s, target.value, at) else s;
    if purpose.EmailChange? && target.Some? {
      ExpiredTargetKeeps(s, target.value, at);
    }
    InvalidateKeeps(s1, user, Some(purpose), None);
  }

  lemma PersistKeeps(s: Store, id: Id, user: User, purpose: Purpose, target: Option<Email>, at: int, current: bool)
    requires Inv(s) && id !in s.actions && id !in s.mail && (purpose.EmailChange? <==> target.Some?)
    ensures Inv(Applied(s, Persist(s, id, user, purpose, target, at, current)))
    ensures Closes(s.actions, Applied(s, Persist(s, id, user, purpose, target, at, current)).actions)
  {
    hide Prepared, Inv, Conflicts;
    PreparedKeeps(s, user, purpose, target, at);
    var s1 := Prepared(s, user, purpose, target, at);
    var a := Requested(user, purpose, target, at);
    if current && !Conflicts(s1.actions, a) {
      InsertKeeps(s1, id, a, ArmedRow(Kind.AccountSecurity, at, at));
    }
  }

  lemma InsertKeeps(s: Store, id: Id, a: Action, r: Row)
    requires Inv(s) && id !in s.actions && id !in s.mail && !Conflicts(s.actions, a)
    requires Open(a) && (a.purpose.EmailChange? <==> a.target.Some?)
    ensures Inv(Store(s.actions[id := a], s.mail[id := r]))
  {
  }

  lemma FinishKeeps(s: Store, user: User, consumed: Option<Id>)
    requires Inv(s)
    ensures var s' := Applied(s, Finish(s, user, consumed)); Inv(s') && Closes(s.actions, s'.actions)
  {
    hide InvalidateActions;
    match consumed {
      case None => InvalidateKeeps(s, user, None, None);
      case Some(id) =>
        if id in s.actions && Open(s.actions[id]) {
          var s1 := Store(s.actions[id := s.actions[id].(consumed := true)], MailCancelled(s.mail, {id}));
          InvalidateKeeps(s1, user, None, consumed);
        }
    }
  }

  lemma SweepKeeps(s: Store, at: int)
    requires Inv(s)
    ensures Inv(SweepMail(s, at)) && Closes(s.actions, SweepMail(s, at).actions)
  {
  }

  lemma CancelMailKeeps(s: Store, id: Id, token: Token)
    requires Inv(s)
    ensures Inv(CancelMail(s, id, token)) && Closes(s.actions, CancelMail(s, id, token).actions)
  {
    if MailHeld(s, id, token) && id in s.actions {
      var hit := if Open(s.actions[id]) then {id} else {};
      ClosingKeeps(s.actions, hit);
      assert MailOpen(CancelMail(s, id, token));
    }
  }

  lemma ClosingKeeps(actions: map<Id, Action>, ids: set<Id>)
    requires OneOpen(actions) && OneTarget(actions) && Exclusive(actions)
    requires forall id <- ids :: id in actions && Open(actions[id])
    ensures var closed := Invalidated(actions, ids);
            OneOpen(closed) && OneTarget(closed) && Exclusive(closed) && Closes(actions, closed)
  {
  }

  lemma StepKeeps(s: Store, step: Step, s': Store)
    requires Inv(s) && Next(s, step, s')
    ensures Inv(s') && Closes(s.actions, s'.actions)
  {
    hide Persist, Finish, SweepMail, CancelMail;
    match step {
      case Request(id, user, purpose, target, at, current) => PersistKeeps(s, id, user, purpose, target, at, current);
      case Redeem(id, purpose, at, current) =>
        if id in s.actions {
          FinishKeeps(s, s.actions[id].user, Some(id));
        }
      case ChangePassword(user) => FinishKeeps(s, user, None);
      case Sweep(at) => SweepKeeps(s, at);
      case Cancel(id, token) => CancelMailKeeps(s, id, token);
      case Deliver =>
    }
  }

  // ---------------------------------------------------------------- what a command achieves

  /** A request is refused exactly when the account changed meanwhile or another user holds an
      open, unexpired change to the same address: every earlier request of the same user gives
      way, and expired changes to the address are closed first. */
  lemma RequestRefusedIff(s: Store, id: Id, user: User, purpose: Purpose, target: Option<Email>, at: int, current: bool)
    requires Inv(s) && id !in s.actions && (purpose.EmailChange? <==> target.Some?)
    ensures Persist(s, id, user, purpose, target, at, current).None? <==>
              !current || (purpose.EmailChange? && exists k <- s.actions.Keys ::
                Open(s.actions[k]) && s.actions[k].purpose.EmailChange? && s.actions[k].target == target
                && at < s.actions[k].expires && s.actions[k].user != user)
  {
    var s1 := Prepared(s, user, purpose, target, at);
    var a := Requested(user, purpose, target, at);
    assert s1.actions.Keys == s.actions.Keys;
    forall k <- s.actions.Keys
      ensures Open(s1.actions[k]) <==>
                Open(s.actions[k]) && !(s.actions[k].user == user && s.actions[k].purpose == purpose)
                && !(purpose.EmailChange? && k in ExpiredChangesTo(s.actions, target.value, at))
    {
    }
  }

  /** After an accepted request its action is the user's only open one of that purpose and its
      mail is queued; nobody else's open actions change, except expired changes to the address. */
  lemma RequestOpensOne(s: Store, id: Id, user: User, purpose: Purpose, target: Option<Email>, at: int)
    requires Inv(s) && id !in s.actions && id !in s.mail && (purpose.EmailChange? <==> target.Some?)
    requires Persist(s, id, user, purpose, target, at, true).Some?
    ensures var s' := Persist(s, id, user, purpose, target, at, true).value;
            OpenOf(s', user, Some(purpose), None) == {id}
            && s'.mail[id] == Row(Pending, 0, Some(at), None, true, false, at)
            && s'.actions[id] == Action(user, purpose, target, at + 60 * MINUTE, false, false)
            && forall k <- s.actions.Keys | s.actions[k].user != user ::
                 s'.actions[k] == s.actions[k] || (s.actions[k].expires <= at && s.actions[k].target == target)
  {
    hide Prepared, Inv, Conflicts;
    PreparedClears(s, user, purpose, target, at);
    PreparedKeeps(s, user, purpose, target, at);
    var s1 := Prepared(s, user, purpose, target, at);
    assert forall k <- s1.actions.Keys :: k !in OpenOf(s1, user, Some(purpose), None);
  }

  lemma PreparedClears(s: Store, user: User, purpose: Purpose, target: Option<Email>, at: int)
    ensures var s1 := Prepared(s, user, purpose, target, at);
            OpenOf(s1, user, Some(purpose), None) == {}
            && forall k <- s.actions.Keys | s.actions[k].user != user ::
                 k in s1.actions
                 && (s1.actions[k] == s.actions[k] || (s.actions[k].expires <= at && s.actions[k].target == target))
  {
  }

  /** A message is cancelled exactly when its action closes: no other row changes, and what was sent
      stays sent. */
  predicate MailFollows(s: Store, s': Store) {
    s.mail.Keys <= s'.mail.Keys
    && forall id <- s.mail.Keys ::
         s'.mail[id] == if id in s.actions && Open(s.actions[id]) && (id in s'.actions && !Open(s'.actions[id]))
                           && s.mail[id].status in {Pending, Sending, Failed}
                        then Row(Cancelled, s.mail[id].attempts, None, None, false, s.mail[id].sent, s.mail[id].created)
                        else s.mail[id]
  }

  lemma InvalidationFollows(s: Store, user: User, purpose: Option<Purpose>, spared: Option<Id>)
    requires Inv(s)
    ensures MailFollows(s, InvalidateActions(s, user, purpose, spared))
  {
  }

  lemma ExpiryFollows(s: Store, target: Email, at: int)
    requires Inv(s)
    ensures MailFollows(s, InvalidateExpiredTarget(s, target, at))
  {
  }

  lemma FollowsBoth(s: Store, s1: Store, s2: Store)
    requires MailFollows(s, s1) && MailFollows(s1, s2) && Closes(s.actions, s1.actions) && Closes(s1.actions, s2.actions)
    requires s1.actions.Keys == s.actions.Keys
    ensures MailFollows(s, s2)
  {
  }

  lemma PreparedFollows(s: Store, user: User, purpose: Purpose, target: Option<Email>, at: int)
    requires Inv(s)
    ensures MailFollows(s, Prepared(s, user, purpose, target, at))
  {
    hide Inv, InvalidateExpiredTarget, InvalidateActions, MailFollows, Closes;
    if purpose.EmailChange? && target.Some? {
      var s1 := InvalidateExpiredTarget(s, target.value, at);
      ExpiredTargetKeeps(s, target.value, at);
      ExpiryFollows(s, target.value, at);
      InvalidateKeeps(s1, user, Some(purpose), None);
      InvalidationFollows(s1, user, Some(purpose), None);
      FollowsBoth(s, s1, InvalidateActions(s1, user, Some(purpose), None));
    } else {
      InvalidationFollows(s, user, Some(purpose), None);
    }
  }

  lemma FinishFollows(s: Store, user: User, consumed: Option<Id>)
    requires Inv(s)
    ensures MailFollows(s, Applied(s, Finish(s, user, consumed)))
  {
    hide InvalidateActions;
    match consumed {
      case None => InvalidationFollows(s, user, None, None);
      case Some(id) =>
        if id in s.actions && Open(s.actions[id]) {
          var s1 := Store(s.actions[id := s.actions[id].(consumed := true)], MailCancelled(s.mail, {id}));
          assert Inv(s1) && MailFollows(s, s1) && Closes(s.actions, s1.actions);
          InvalidateKeeps(s1, user, None, consumed);
          InvalidationFollows(s1, user, None, consumed);
          FollowsBoth(s, s1, InvalidateActions(s1, user, None, consumed));
        }
    }
  }

  /** Whatever a request, a redemption or a password change does, of the earlier messages exactly
      those are cancelled whose action it closed. */
  lemma CommandMailFollows(s: Store, step: Step, s': Store)
    requires Inv(s) && Next(s, step, s') && (step.Request? || step.Redeem? || step.ChangePassword?)
    ensures MailFollows(s, s')
  {
    hide Inv, Prepared, Finish, MailFollows, Conflicts;
    match step {
      case Request(id, user, purpose, target, at, current) =>
        PreparedFollows(s, user, purpose, target, at);
        PreparedKeeps(s, user, purpose, target, at);
        SameFollows(s);
        InsertFollows(s, Prepared(s, user, purpose, target, at), id, Requested(user, purpose, target, at), ArmedRow(Kind.AccountSecurity, at, at));
      case Redeem(id, purpose, at, current) =>
        SameFollows(s);
        if id in s.actions {
          FinishFollows(s, s.actions[id].user, Some(id));
        }
      case ChangePassword(user) => FinishFollows(s, user, None);
    }
  }

  lemma SameFollows(s: Store)
    ensures MailFollows(s, s)
  {
  }

  lemma InsertFollows(s: Store, s1: Store, id: Id, a: Action, r: Row)
    requires MailFollows(s, s1) && id !in s.actions && id !in s.mail
    ensures MailFollows(s, Store(s1.actions[id := a], s1.mail[id := r]))
  {
  }

  /** A redemption succeeds if and only if the action exists, is neither consumed nor invalidated, is
      of the requested purpose, has not expired, and the account still carries its address. */
  lemma RedeemedIff(s: Store, id: Id, purpose: Purpose, at: int, current: bool)
    ensures Confirm(s, id, purpose, at, current).Some? <==>
              id in s.actions && !s.actions[id].consumed && !s.actions[id].invalidated && s.actions[id].purpose == purpose
              && at < s.actions[id].expires && current
    ensures Confirm(s, id, purpose, at, current).Some? ==>
              Confirm(s, id, purpose, at, current) == Finish(s, s.actions[id].user, Some(id))
  {
  }

  /** The sweep closes exactly the expired actions and cancels their unsent mail; the mail of every
      other open action stays unless its delivery was interrupted. */
  lemma SweepClosesExpired(s: Store, at: int, id: Id)
    requires Inv(s) && id in s.actions
    ensures var s' := SweepMail(s, at);
            id in s'.actions
            && (Open(s'.actions[id]) <==> Open(s.actions[id]) && at < s.actions[id].expires)
            && (id in s.mail ==> id in s'.mail)
            && (id in s.mail && Open(s.actions[id]) && s.actions[id].expires <= at && s.mail[id].status in {Pending, Sending, Failed} ==>
                  s'.mail[id].status == Cancelled && !s'.mail[id].cipher)
            && (id in s.mail && Open(s.actions[id]) && at < s.actions[id].expires ==>
                  SweepRight(Kind.AccountSecurity, s.mail[id], s'.mail[id], at, false))
  {
    var closed := Invalidated(s.actions, ExpiredOpen(s.actions, at));
    if id in s.mail {
      SweptIsDueIff(Kind.AccountSecurity, s.mail, at, ExpiredInvalidated(closed, at), id);
    }
  }

  /** Cancelling a claim closes its action and its mail for the lease holder, and changes nothing
      for anybody else. */
  lemma CancelClosesOwn(s: Store, id: Id, token: Token, k: Id)
    requires Inv(s)
    ensures var s' := CancelMail(s, id, token);
            var held := id in s.mail && s.mail[id].status == Sending && s.mail[id].lease.Some? && s.mail[id].lease.value.token == token;
            s'.actions.Keys == s.actions.Keys && s'.mail.Keys == s.mail.Keys
            && (k in s.actions ==> s'.actions[k] == s.actions[k].(invalidated := s.actions[k].invalidated || (held && k == id)))
            && (k in s.mail ==> if held && k == id then s'.mail[k].status == Cancelled && !s'.mail[k].cipher && s'.mail[k].lease == None
                                else s'.mail[k] == s.mail[k])
  {
  }

  /** After any sensitive change the user has no open action and no unsent mail; everybody else's
      actions and mail are untouched. */
  lemma SensitiveChangeClosesAll(s: Store, user: User, consumed: Option<Id>)
    requires Inv(s) && Finish(s, user, consumed).Some?
    requires consumed.Some? ==> s.actions[consumed.value].user == user
    ensures var s' := Finish(s, user, consumed).value;
            (forall id <- s'.actions.Keys | s'.actions[id].user == user :: !Open(s'.actions[id]))
            && (forall id <- s'.mail.Keys | s'.actions[id].user == user :: !Unsent(s'.mail[id]))
            && (forall id <- s.actions.Keys | s.actions[id].user != user ::
                  s'.actions[id] == s.actions[id] && (id in s.mail ==> s'.mail[id] == s.mail[id]))
            && (consumed.Some? ==> s'.actions[consumed.value].consumed && !s'.actions[consumed.value].invalidated)
  {
    FinishKeeps(s, user, consumed);
  }

  // ---------------------------------------------------------------- over runs

  ghost predicate Run(stores: seq<Store>, steps: seq<Step>) {
    |stores| == |steps| + 1 && Inv(stores[0])
    && forall i :: 0 <= i < |steps| ==> Next(stores[i], steps[i], stores[i + 1])
  }

  lemma {:induction false} RunInv(stores: seq<Store>, steps: seq<Step>, i: nat)
    requires Run(stores, steps) && i < |stores|
    ensures Inv(stores[i])
  {
    hide Next, Inv;
    if i > 0 {
      RunInv(stores, steps, i - 1);
      StepKeeps(stores[i - 1], steps[i - 1], stores[i]);
    }
  }

  lemma {:induction false} RunCloses(stores: seq<Store>, steps: seq<Step>, i: nat, j: nat)
    requires Run(stores, steps) && i <= j < |stores|
    ensures Closes(stores[i].actions, stores[j].actions)
    decreases j - i
  {
    hide Next, Inv;
    if i < j {
      RunCloses(stores, steps, i, j - 1);
      RunInv(stores, steps, j - 1);
      StepKeeps(stores[j - 1], steps[j - 1], stores[j]);
    }
  }

  predicate Consumes(s: Store, step: Step, id: Id) {
    step.Redeem? && step.id == id && Confirm(s, id, step.purpose, step.at, step.current).Some?
  }

  lemma ConsumingCloses(s: Store, step: Step, s': Store, id: Id)
    requires Inv(s) && Next(s, step, s') && Consumes(s, step, id)
    ensures id in s.actions && Open(s.actions[id]) && id in s'.actions && s'.actions[id].consumed
  {
    SensitiveChangeClosesAll(s, s.actions[id].user, Some(id));
  }

  /** A token is redeemed at most once, over every run of requests, changes, sweeps and mail. */
  lemma ConsumedOnce(stores: seq<Store>, steps: seq<Step>, i: nat, j: nat, id: Id)
    requires Run(stores, steps) && i < |steps| && j < |steps|
    requires Consumes(stores[i], steps[i], id) && Consumes(stores[j], steps[j], id)
    ensures i == j
  {
    hide Next, Consumes;
    RunInv(stores, steps, i);
    RunInv(stores, steps, j);
    ConsumingCloses(stores[i], steps[i], stores[i + 1], id);
    ConsumingCloses(stores[j], steps[j], stores[j + 1], id);
    if i < j {
      RunCloses(stores, steps, i + 1, j);
    } else if j < i {
      RunCloses(stores, steps, j + 1, i);
    }
  }

  lemma StepIssues(s: Store, step: Step, s': Store, id: Id)
    requires Inv(s) && Next(s, step, s') && id !in s.actions && id in s'.actions
    ensures step.Request? && step.id == id && step.current
    ensures s'.actions[id] == Action(step.user, step.purpose, step.target, step.at + 60 * MINUTE, false, false)
  {
    hide Inv, Finish, SweepMail, CancelMail, Prepared, Conflicts;
    match step {
      case Request(k, user, purpose, target, at, current) => PreparedKeeps(s, user, purpose, target, at);
      case Redeem(k, _, _, _) =>
        if k in s.actions {
          FinishIssuesNothing(s, s.actions[k].user, Some(k));
        }
      case ChangePassword(user) => FinishIssuesNothing(s, user, None);
      case Sweep(at) => SweepIssuesNothing(s, at);
      case Cancel(k, token) => CancelIssuesNothing(s, k, token);
      case Deliver =>
    }
  }

  lemma FinishIssuesNothing(s: Store, user: User, consumed: Option<Id>)
    ensures Applied(s, Finish(s, user, consumed)).actions.Keys == s.actions.Keys
  {
  }

  lemma SweepIssuesNothing(s: Store, at: int)
    ensures SweepMail(s, at).actions.Keys == s.actions.Keys
  {
  }

  lemma CancelIssuesNothing(s: Store, id: Id, token: Token)
    ensures CancelMail(s, id, token).actions.Keys == s.actions.Keys
  {
  }

  /** Every action of a run was issued by an accepted request of it, with an hour to live. */
  lemma {:induction false} IssuedByRequest(stores: seq<Store>, steps: seq<Step>, j: nat, id: Id) returns (i: nat)
    requires Run(stores, steps) && stores[0].actions == map[] && j < |stores| && id in stores[j].actions
    ensures i < j && steps[i].Request? && steps[i].id == id && steps[i].current
    ensures stores[j].actions[id].user == steps[i].user && stores[j].actions[id].purpose == steps[i].purpose
    ensures stores[j].actions[id].target == steps[i].target && stores[j].actions[id].expires == steps[i].at + 60 * MINUTE
  {
    hide Next, Inv;
    RunInv(stores, steps, j - 1);
    if id in stores[j - 1].actions {
      i := IssuedByRequest(stores, steps, j - 1, id);
      StepKeeps(stores[j - 1], steps[j - 1], stores[j]);
    } else {
      StepIssues(stores[j - 1], steps[j - 1], stores[j], id);
      i := j - 1;
    }
  }

  /** A token that is redeemed in a run was issued by a request of the same purpose for the same
      account, whose clock reading lies less than an hour before the redemption's. */
  lemma RedeemedWithinHour(stores: seq<Store>, steps: seq<Step>, j: nat, id: Id) returns (i: nat)
    requires Run(stores, steps) && stores[0].actions == map[] && j < |steps| && Consumes(stores[j], steps[j], id)
    ensures i < j && steps[i].Request? && steps[i].id == id && steps[i].purpose == steps[j].purpose
    ensures stores[j].actions[id].user == steps[i].user && steps[j].at < steps[i].at + 60 * MINUTE
    ensures stores[j + 1].actions[id].consumed && steps[i].current && steps[j].current
  {
    hide Next, Inv;
    RedeemedIff(stores[j], id, steps[j].purpose, steps[j].at, steps[j].current);
    i := IssuedByRequest(stores, steps, j, id);
    RunInv(stores, steps, j);
    ConsumingCloses(stores[j], steps[j], stores[j + 1], id);
  }

  /** No step of the dispatcher machine but an arming brings sent or cancelled mail back, so on
      the mail each of them is a delivery step here; what claims and early cancellations do to
      the actions are the sweep and the cancel step. */
  lemma DispatcherIsMailOnly(s: OutboxMachine.State, a: OutboxMachine.Action, actions: map<Id, Action>)
    requires OutboxSafety.Shapes(Kind.AccountSecurity, s.rows)
    requires OutboxMachine.Can(Kind.AccountSecurity, s, a) && !a.Arm?
    ensures MailOnly(Store(actions, s.rows), Store(actions, OutboxMachine.Do(Kind.AccountSecurity, s, a).rows))
  {
  }
}
