/** The public calendar mutations: adding a calendar, adding events to it, and the
    sync that replaces a calendar's events by a new list. */
module CalendarMutations {
  import opened Wrappers
  import opened Seqs
  import opened ConvexDb

  /** An event as the public mutations receive it. */
  datatype NewEvent = NewEvent(title: string, description: Option<string>, startTime: int, endTime: int,
                               location: Option<string>, url: Option<string>, userId: string)

  /** `{ ...event, calendarId }`: the stored fields, with the user id the event
      carries and no `lastSynced`. */
  function UnderCalendar(e: NewEvent, calendarId: Id): (r: EventFields)
    ensures r.calendarId == calendarId && r.title == e.title && r.startTime == e.startTime &&
            r.endTime == e.endTime && r.userId == Some(e.userId) && r.lastSynced.None?
  {
    EventFields(calendarId, e.title, e.description, e.startTime, e.endTime, e.location, e.url, None, Some(e.userId))
  }

  function UnderCalendarFn(calendarId: Id): NewEvent -> EventFields {
    (e: NewEvent) => UnderCalendar(e, calendarId)
  }

  function OfCalendar(calendarId: Id): Doc<EventFields> -> bool {
    (e: Doc<EventFields>) => e.fields.calendarId == calendarId
  }

  function NotOfCalendar(calendarId: Id): Doc<EventFields> -> bool {
    (e: Doc<EventFields>) => e.fields.calendarId != calendarId
  }

  /** The events table after a sync of `calendarId`: every event of the calendar
      deleted, then the added fields inserted with the counter at `start`. */
  function Synced(events: seq<Doc<EventFields>>, calendarId: Id, added: seq<EventFields>, start: nat)
    : seq<Doc<EventFields>>
  {
    WithoutIds(events, Ids(Filter(events, OfCalendar(calendarId)))) + Stamped(added, start)
  }

  /** After a sync the calendar's events are exactly the inserted ones that name it. */
  lemma SyncedCalendarEvents(events: seq<Doc<EventFields>>, calendarId: Id, added: seq<EventFields>, start: nat)
    ensures Filter(Synced(events, calendarId, added, start), OfCalendar(calendarId)) ==
            Filter(Stamped(added, start), OfCalendar(calendarId))
  {
    var doomed := Filter(events, OfCalendar(calendarId));
    FilterConcat(WithoutIds(events, Ids(doomed)), Stamped(added, start), OfCalendar(calendarId));
    FilterWithoutIds(events, Ids(doomed), OfCalendar(calendarId));
    WithoutIdsAll(doomed, Ids(doomed));
  }

  /** A sync leaves the events of every other calendar as they were, in order, and
      adds to them the inserted ones that name another calendar. */
  lemma SyncedOtherEvents(events: seq<Doc<EventFields>>, calendarId: Id, added: seq<EventFields>, start: nat)
    requires UniqueIds(events)
    ensures Filter(Synced(events, calendarId, added, start), NotOfCalendar(calendarId)) ==
            Filter(events, NotOfCalendar(calendarId)) + Filter(Stamped(added, start), NotOfCalendar(calendarId))
  {
    var doomed := Filter(events, OfCalendar(calendarId));
    var others := Filter(events, NotOfCalendar(calendarId));
    FilterConcat(WithoutIds(events, Ids(doomed)), Stamped(added, start), NotOfCalendar(calendarId));
    FilterWithoutIds(events, Ids(doomed), NotOfCalendar(calendarId));
    forall i | 0 <= i < |others| ensures others[i].id !in Ids(doomed) {
      forall j | 0 <= j < |doomed| ensures doomed[j].id != others[i].id {
        DistinctDocsDistinctIds(events, doomed[j], others[i]);
      }
    }
    WithoutIdsDisjoint(others, Ids(doomed));
  }

  /** When every inserted event names the synced calendar, its events afterwards are
      exactly the inserted ones and no other calendar gains any. */
  lemma SyncReplacesCalendarEvents(events: seq<Doc<EventFields>>, calendarId: Id, added: seq<EventFields>, start: nat)
    requires UniqueIds(events)
    requires forall i :: 0 <= i < |added| ==> added[i].calendarId == calendarId
    ensures Filter(Synced(events, calendarId, added, start), OfCalendar(calendarId)) == Stamped(added, start)
    ensures Filter(Synced(events, calendarId, added, start), NotOfCalendar(calendarId)) ==
            Filter(events, NotOfCalendar(calendarId))
  {
    SyncedCalendarEvents(events, calendarId, added, start);
    SyncedOtherEvents(events, calendarId, added, start);
    FilterAll(Stamped(added, start), OfCalendar(calendarId));
    FilterNone(Stamped(added, start), NotOfCalendar(calendarId));
  }

  /** The events the public mutations insert all name the calendar argument. */
  lemma UnderCalendarNamesIt(events: seq<NewEvent>, calendarId: Id)
    ensures forall i :: 0 <= i < |events| ==> Map(events, UnderCalendarFn(calendarId))[i].calendarId == calendarId
  {
  }

  /** `addCalendar`: inserts the calendar with `lastSynced` the current time `now`
      and returns its id. */
  method AddCalendar(db: Database, name: string, icalUrl: string, userId: string, color: Option<string>, now: int)
    returns (id: Id)
    requires db.Valid()
    modifies db
    ensures db.Valid()
    ensures id == old(db.nextId) && id !in Ids(old(db.calendars))
    ensures db.calendars == old(db.calendars) + [Doc(id, CalendarFields(name, icalUrl, userId, now, color))]
    ensures db.pages == old(db.pages) && db.pageVisits == old(db.pageVisits) && db.events == old(db.events)
  {
    id := db.InsertCalendar(CalendarFields(name, icalUrl, userId, now, color));
  }

  /** `addEvents`: inserts every event under the calendar argument and returns the new
      ids in input order. */
  method AddEvents(db: Database, calendarId: Id, events: seq<NewEvent>) returns (ids: seq<Id>)
    requires db.Valid()
    modifies db
    ensures db.Valid()
    ensures db.events == old(db.events) + Stamped(Map(events, UnderCalendarFn(calendarId)), old(db.nextId))
    ensures |ids| == |events| && forall i :: 0 <= i < |ids| ==> ids[i] == old(db.nextId) + i
    ensures db.pages == old(db.pages) && db.pageVisits == old(db.pageVisits) && db.calendars == old(db.calendars)
  {
    ids := db.InsertEvents(Map(events, UnderCalendarFn(calendarId)));
  }

  /** `syncEvents`: deletes the calendar's events, inserts the new ones under it,
      stamps the calendar's `lastSynced` with `now` and returns the new ids in order.
      When no calendar has the id the final patch throws and the whole mutation is
      undone. */
  method SyncEvents(db: Database, calendarId: Id, events: seq<NewEvent>, now: int) returns (r: Result<seq<Id>, string>)
    requires db.Valid()
    modifies db
    ensures db.Valid()
    ensures calendarId !in Ids(old(db.calendars)) ==> r == Err(MissingDocument) && db.Snapshot() == old(db.Snapshot())
    ensures calendarId in Ids(old(db.calendars)) ==>
              r.Ok? && |r.value| == |events| && (forall i :: 0 <= i < |events| ==> r.value[i] == old(db.nextId) + i) &&
              db.events == Synced(old(db.events), calendarId, Map(events, UnderCalendarFn(calendarId)), old(db.nextId)) &&
              db.calendars == SetLastSynced(old(db.calendars), calendarId, now) &&
              db.pages == old(db.pages) && db.pageVisits == old(db.pageVisits)
  {
    var saved := db.Snapshot();
    var oldEvents := Filter(db.events, OfCalendar(calendarId));
    db.DeleteEvents(oldEvents);
    var ids := db.InsertEvents(Map(events, UnderCalendarFn(calendarId)));
    var ok := db.PatchCalendarLastSynced(calendarId, now);
    if !ok {
      db.Restore(saved);
      return Err(MissingDocument);
    }
    r := Ok(ids);
  }
}
