/**
 Idempotent commands: every key executes at most once, repeating a request returns the stored
 answer and changes nothing, and a history without its repetitions leaves the same books.
 */
module BookingDesk {
  import opened Books
  import opened BooksSafety
  import opened Options

  /** Who asks, and whether that member may at this moment void the bookings they are part of, and
      all others. */
  datatype Rights = Rights(member: Member, own: bool, others: bool)

  /** The key belongs to one actor; `hash` is the digest of the whole request.  `admitted` is the
      answer of the authorization that single and batch bookings run on the data of that moment
      before they look the key up; voids look it up first and are admitted. */
  datatype Request = Request(actor: nat, key: nat, hash: nat, command: Command, admitted: bool, rights: Rights)

  /** What a command answers with: the identifier, and for bookings and voids the booking and
      whether the asking member may void it. */
  datatype View = View(id: nat, booking: Option<Booking>, mayVoid: bool)

  datatype Answer = Answer(hash: nat, response: View)
  datatype Reply = Executed(response: View) | Replayed(response: View) | KeyReused | Refused

  datatype Desk = Desk(books: Books, answers: map<(nat, nat), Answer>)

  predicate Refuses(s: Books, c: Command) {
    match c
    case Void(b, allowed) => !(b < |s.bookings| && !s.bookings[b].voided && allowed)
    case ReversePayment(n) => !(n < |s.payments| && !s.payments[n].reversed)
    case ClosePeriod(next) => next == s.open || next in s.closed
    case _ => false
  }

  predicate MayVoid(k: Booking, r: Rights) {
    !k.voided && if k.actor == r.member || k.target == r.member then r.own else r.others
  }

  /** The current row of a booking as a member sees it. */
  function Shown(s: Books, b: nat, r: Rights): View
    requires b < |s.bookings|
  {
    View(b, Some(s.bookings[b]), MayVoid(s.bookings[b], r))
  }

  /** The answer to a command that turned the books s into s'. */
  function Response(s: Books, s': Books, c: Command, r: Rights): View
    requires !Refuses(s, c) && s' == Apply(s, c)
  {
    match c
    case Book(_, _, _) => Shown(s', |s.bookings|, r)
    case Void(b, _) => View(b, Some(s'.bookings[b]), false)
    case Pay(_, _) => View(|s.payments|, None, false)
    case ReversePayment(n) => View(n, None, false)
    case Adjust(_, _) => View(|s.entries|, None, false)
    case ClosePeriod(next) => View(next, None, false)
  }

  /** The stored booking with its void state read again; other answers are replayed as stored. */
  function Refreshed(s: Books, v: View, r: Rights): Option<View> {
    if v.booking.None? then Some(v)
    else if v.id >= |s.bookings| then None
    else
      var k := v.booking.value.(voided := s.bookings[v.id].voided);
      Some(View(v.id, Some(k), MayVoid(k, r)))
  }

  function Replay(d: Desk, r: Request): Reply
    requires (r.actor, r.key) in d.answers
  {
    var a := d.answers[(r.actor, r.key)];
    if a.hash != r.hash then KeyReused
    else
      var v := Refreshed(d.books, a.response, r.rights);
      if v.Some? then Replayed(v.value) else Refused
  }

  function Handle(d: Desk, r: Request): (Reply, Desk) {
    var k := (r.actor, r.key);
    if !r.admitted then (Refused, d)
    else if k in d.answers then (Replay(d, r), d)
    else if Refuses(d.books, r.command) then (Refused, d)
    else
      var books := Apply(d.books, r.command);
      var response := Response(d.books, books, r.command, r.rights);
      (Executed(response), Desk(books, d.answers[k := Answer(r.hash, response)]))
  }

  lemma ApplyGrows(s: Books, c: Command)
    ensures s.entries <= Apply(s, c).entries && |s.bookings| <= |Apply(s, c).bookings|
  {
  }

  /** Whether there is something for the command to do: bookings, payments and corrections always
      have, a reversal needs an unreversed source, and a period is opened once. */
  predicate Executable(s: Books, c: Command) {
    match c
    case Void(b, allowed) => b < |s.bookings| && !s.bookings[b].voided && allowed
    case ReversePayment(n) => n < |s.payments| && !s.payments[n].reversed
    case ClosePeriod(next) => next != s.open && next !in s.closed
    case Book(_, _, _) => true
    case Pay(_, _) => true
    case Adjust(_, _) => true
  }

  /** The row the answer names: the new one, or the one that was reversed. */
  function Named(s: Books, c: Command): nat {
    match c
    case Book(_, _, _) => |s.bookings|
    case Void(b, _) => b
    case Pay(_, _) => |s.payments|
    case ReversePayment(n) => n
    case Adjust(_, _) => |s.entries|
    case ClosePeriod(next) => next
  }

  lemma ApplyFacts(s: Books, c: Command)
    ensures Inv(s) ==> Inv(Apply(s, c))
    ensures Inv(s) ==> forall m: Member :: Balance(Apply(s, c).entries, m) == Balance(s.entries, m) + Charged(s, c, m)
    ensures !Refuses(s, c) ==> RowsFollow(s, c, Apply(s, c))
    ensures Refuses(s, c) <==> !Executable(s, c)
  {
    if Inv(s) {
      ApplyKeeps(s, c);
      forall m: Member ensures Balance(Apply(s, c).entries, m) == Balance(s.entries, m) + Charged(s, c, m) {
        CommandCharges(s, c, m);
      }
    }
  }

  /** One request in place: the stored answer is looked up first and stored last, in the
      transaction that executes the command. */
  class Tables {
    var books: Books
    var answers: map<(nat, nat), Answer>

    ghost function Contents(): Desk
      reads this
    {
      Desk(books, answers)
    }

    /** Whatever the request, the books stay sound and only grow and no stored answer changes; an
        executed request is from then on answered from the store.  Executed, a command adds or
        reverses exactly the row it names and changes every member's receivable by exactly what it
        charges; it is executed if and only if it is admitted, its key is new and its source is
        there and not reversed. */
    method Execute(r: Request) returns (reply: Reply)
      modifies this
      ensures (reply, Contents()) == Handle(old(Contents()), r)
      ensures reply.Executed? || Contents() == old(Contents())
      ensures Inv(old(books)) ==> Inv(books)
      ensures old(books).entries <= books.entries
      ensures forall k <- old(answers).Keys :: k in answers && answers[k] == old(answers)[k]
      ensures reply.Executed? ==> Handle(Contents(), r) == (Replayed(reply.response), Contents())
      ensures reply.Executed? <==> r.admitted && (r.actor, r.key) !in old(answers) && Executable(old(books), r.command)
      ensures reply.Executed? ==> RowsFollow(old(books), r.command, books) && reply.response.id == Named(old(books), r.command)
      ensures reply.Executed? && r.command.Book? ==>
                books.bookings == old(books).bookings
                                  + [Booking(old(books).open, r.command.actor, r.command.target, r.command.total, false)]
                && reply.response.booking == Some(books.bookings[|old(books).bookings|])
      ensures reply.Executed? && r.command.Void? ==>
                reply.response == View(r.command.booking, Some(books.bookings[r.command.booking]), false) && reply.response.booking.value.voided
      ensures reply.Executed? && Inv(old(books)) ==>
                forall m: Member :: Balance(books.entries, m) == Balance(old(books).entries, m) + Charged(old(books), r.command, m)
    {
      var k := (r.actor, r.key);
      if !r.admitted {
        return Refused;
      }
      if k in answers {
        if answers[k].hash != r.hash {
          return KeyReused;
        }
        var stored := Refreshed(books, answers[k].response, r.rights);
        return if stored.Some? then Replayed(stored.value) else Refused;
      }
      if Refuses(books, r.command) {
        return Refused;
      }
      ApplyFacts(books, r.command);
      ApplyGrows(books, r.command);
      var before := books;
      books := Apply(books, r.command);
      var response := Response(before, books, r.command, r.rights);
      answers := answers[k := Answer(r.hash, response)];
      reply := Executed(response);
    }
  }

  function HandleAll(d: Desk, rs: seq<Request>): Desk
    decreases |rs|
  {
    if rs == [] then d else HandleAll(Handle(d, rs[0]).1, rs[1..])
  }

  /** The history without the requests whose key had been answered before. */
  function WithoutRepeats(d: Desk, rs: seq<Request>): seq<Request>
    decreases |rs|
  {
    if rs == [] then []
    else
      var rest := WithoutRepeats(Handle(d, rs[0]).1, rs[1..]);
      if (rs[0].actor, rs[0].key) in d.answers then rest else [rs[0]] + rest
  }

  /** No request of the history comes after its key was answered. */
  predicate NeverAnswered(d: Desk, rs: seq<Request>)
    decreases |rs|
  {
    rs == [] || ((rs[0].actor, rs[0].key) !in d.answers && NeverAnswered(Handle(d, rs[0]).1, rs[1..]))
  }

  /** Erasing every repetition from a history leaves the same books and the same answers.  What
      remains never repeats an answered key, and nothing else was erased. */
  lemma {:induction false} RepeatsAreInvisible(d: Desk, rs: seq<Request>)
    ensures HandleAll(d, WithoutRepeats(d, rs)) == HandleAll(d, rs)
    ensures NeverAnswered(d, WithoutRepeats(d, rs)) && (NeverAnswered(d, rs) ==> WithoutRepeats(d, rs) == rs)
    decreases |rs|
  {
    if rs != [] {
      var d' := Handle(d, rs[0]).1;
      RepeatsAreInvisible(d', rs[1..]);
      if (rs[0].actor, rs[0].key) !in d.answers {
        var kept := [rs[0]] + WithoutRepeats(d', rs[1..]);
        assert kept[1..] == WithoutRepeats(d', rs[1..]);
      }
    }
  }

  lemma {:induction false} AnswersLast(d: Desk, rs: seq<Request>, k: (nat, nat))
    requires k in d.answers
    ensures k in HandleAll(d, rs).answers && HandleAll(d, rs).answers[k] == d.answers[k]
    decreases |rs|
  {
    if rs != [] {
      AnswersLast(Handle(d, rs[0]).1, rs[1..], k);
    }
  }

  /** A booking's row never changes, except that it may be voided once and for all. */
  predicate SameBooking(k: Booking, k': Booking) { k' == k.(voided := k'.voided) && (k.voided ==> k'.voided) }

  lemma {:induction false} RowsLast(d: Desk, rs: seq<Request>, b: nat)
    requires b < |d.books.bookings|
    ensures b < |HandleAll(d, rs).books.bookings| && SameBooking(d.books.bookings[b], HandleAll(d, rs).books.bookings[b])
    decreases |rs|
  {
    if rs != [] {
      var d' := Handle(d, rs[0]).1;
      assert d'.books == d.books || d'.books == Apply(d.books, rs[0].command);
      RowKept(d.books, rs[0].command, b);
      RowsLast(d', rs[1..], b);
    }
  }

  lemma RowKept(s: Books, c: Command, b: nat)
    requires b < |s.bookings|
    ensures b < |Apply(s, c).bookings| && SameBooking(s.bookings[b], Apply(s, c).bookings[b])
  {
  }

  /** What an executed request stored shows the row its booking has. */
  lemma ExecutedShows(d: Desk, r: Request)
    requires Handle(d, r).0.Executed?
    ensures var v, s := Handle(d, r).0.response, Handle(d, r).1.books;
            v.booking.Some? ==> v.id < |s.bookings| && v.booking == Some(s.bookings[v.id])
  {
  }

  /** However many requests come between, repeating an executed request leaves the desk as it is,
      and is answered if and only if it is the same request and its authorization, where it
      precedes the lookup, still passes.  The answer is the one of the first time; of a booking it
      tells the void state of this moment, and nothing else of it has changed. */
  lemma ReplayReturnsOriginal(d: Desk, r: Request, between: seq<Request>, again: Request)
    requires Handle(d, r).0.Executed? && again.actor == r.actor && again.key == r.key
    ensures var later := HandleAll(Handle(d, r).1, between);
            var reply := Handle(later, again).0;
            Handle(later, again).1 == later
            && (reply.Replayed? <==> again.admitted && again.hash == r.hash)
            && (reply.KeyReused? <==> again.admitted && again.hash != r.hash)
            && (reply.Refused? <==> !again.admitted)
    ensures var first := Handle(d, r).0.response;
            var later := HandleAll(Handle(d, r).1, between);
            var reply := Handle(later, again).0;
            reply.Replayed? ==>
              (first.booking.None? ==> reply.response == first)
              && (first.booking.Some? ==>
                    first.id < |later.books.bookings| && reply.response == Shown(later.books, first.id, again.rights)
                    && SameBooking(first.booking.value, reply.response.booking.value)
                    && var k := later.books.bookings[first.id];
                    (reply.response.mayVoid <==>
                       !k.voided && if again.rights.member == k.actor || again.rights.member == k.target then again.rights.own else again.rights.others))
  {
    hide Apply, HandleAll;
    var d' := Handle(d, r).1;
    var first := Handle(d, r).0.response;
    assert (r.actor, r.key) in d'.answers && d'.answers[(r.actor, r.key)] == Answer(r.hash, first);
    AnswersLast(d', between, (r.actor, r.key));
    ExecutedShows(d, r);
    if first.booking.Some? {
      RowsLast(d', between, first.id);
    }
  }

  /** Histories are handled request by request. */
  lemma {:induction false} HandleBoth(d: Desk, xs: seq<Request>, ys: seq<Request>)
    ensures HandleAll(d, xs + ys) == HandleAll(HandleAll(d, xs), ys)
    ensures |xs| == 1 ==> HandleAll(d, xs) == Handle(d, xs[0]).1
    decreases |xs|
  {
    if xs == [] {
      assert xs + ys == ys;
    } else {
      HandleBoth(Handle(d, xs[0]).1, xs[1..], ys);
      assert (xs + ys)[1..] == xs[1..] + ys;
    }
  }

  /** A request that was not executed, for whatever reason, might as well never have been made: all
      later requests are answered as without it, so a refused one can be repeated under its key. */
  lemma UnexecutedIsInvisible(d: Desk, before: seq<Request>, r: Request, after: seq<Request>)
    requires !Handle(HandleAll(d, before), r).0.Executed?
    ensures HandleAll(d, before + [r] + after) == HandleAll(d, before + after)
  {
    HandleBoth(d, before + [r], after);
    HandleBoth(d, before, [r]);
    HandleBoth(d, before, after);
    assert [r][1..] == [];
  }
}
