/**
 The sort keys of the audit log, for a group and for the instance: an event without an actor has an
 empty name, and no cursor carries an empty key.
 */
module AuditSort {
  import opened Options
  import opened Paging
  import opened Cursors
  import opened SortKeys

  datatype Column = OccurredAt | ActorName | Action | ResourceType

  datatype Event = Event(actor: Option<string>, action: string, resourceType: string, occurredAt: string)

  /** The sort expression; the actor is joined from the users and may be missing. */
  function SortText(c: Column, e: Event): string {
    match c
    case OccurredAt => e.occurredAt
    case ActorName => Lower(if e.actor.Some? then e.actor.value else "")
    case Action => Lower(e.action)
    case ResourceType => Lower(e.resourceType)
  }

  function ColumnName(c: Column): string {
    match c
    case OccurredAt => "occurredAt"
    case ActorName => "actorName"
    case Action => "action"
    case ResourceType => "resourceType"
  }

  /** Users have a name of 1 to 120 characters; actions and resource types are the program's own
      words. */
  predicate StoredEvent(e: Event) {
    (e.actor.Some? ==> 1 <= |e.actor.value| <= 120)
    && 1 <= |e.action| <= 120 && 1 <= |e.resourceType| <= 120 && |e.occurredAt| == 24
  }

  /** A cursor made from an event can be used to go on unless the list is sorted by actors and the
      event has none. */
  lemma AuditCursorDecodes(c: Column, q: Query, e: Event, id: string)
    requires StoredEvent(e) && StoredId(id) && QueryFor(q, ColumnName(c))
    ensures Decodes(q, Row(SortText(c, e), id)) <==> c.ActorName? ==> e.actor.Some?
  {
    hide Plain, Width, Payload, Base64Length;
    if c.ActorName? && e.actor.None? {
      assert SortText(c, e) == "";
    } else {
      KeyLength(c, e);
      ColumnNames(c);
      ShortTextsFit(q, ColumnName(c), Row(SortText(c, e), id));
    }
  }

  lemma KeyLength(c: Column, e: Event)
    requires StoredEvent(e) && (c.ActorName? ==> e.actor.Some?)
    ensures 1 <= |SortText(c, e)| <= 120
  {
    SameLength(e.action);
    SameLength(e.resourceType);
    if e.actor.Some? {
      SameLength(e.actor.value);
    }
  }

  lemma ColumnNames(c: Column)
    ensures Plain(ColumnName(c)) && |ColumnName(c)| <= 14
  {
  }

  /** Fetching the audit log page after page completes unless it is sorted by actors and a page but
      the last ends on an event without one. */
  lemma AuditWalkCompletes(c: Column, q: Query, events: seq<Event>, s: seq<Key>, limit: nat, less: (Key, Key) -> bool)
    requires StrictTotal(less) && Sorted(s, less) && limit >= 1 && |events| == |s| && QueryFor(q, ColumnName(c))
    requires forall i :: 0 <= i < |s| ==> StoredEvent(events[i]) && StoredId(s[i].id) && s[i].key == SortText(c, events[i])
    ensures Walk(s, None, limit, less, k => Decodes(q, k), |s|)
            == if c.ActorName? && exists i :: 0 <= i < |s| - 1 && EndsPage(i, limit) && events[i].actor.None? then None else Some(s)
  {
    hide StrictTotal, Sorted, Walk, SortText, Decodes, StoredEvent, StoredId;
    var decodes := k => Decodes(q, k);
    PagesConcatenate(s, limit, less, decodes);
    forall i | 0 <= i < |s| ensures decodes(s[i]) <==> c.ActorName? ==> events[i].actor.Some? {
      AuditCursorDecodes(c, q, events[i], s[i].id);
      assert s[i] == Row(SortText(c, events[i]), s[i].id);
    }
    PageEnds(s, limit, decodes);
  }
}
