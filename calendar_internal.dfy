/** The internal calendar mutations the iCal sync action calls. Unlike the public
    ones they store the events exactly as given, each with its own `calendarId`
    and `lastSynced`, and no user id. */
module CalendarInternal {
  import opened Wrappers
  import opened Seqs
  import opened ConvexDb
  import opened CalendarMutations

  /** An event as the internal mutations receive it. */
  datatype SyncedEvent = SyncedEvent(calendarId: Id, title: string, description: Option<string>, startTime: int,
                                     endTime: int, location: Option<string>, url: Option<string>, lastSynced: int)

  /** The stored fields: the event verbatim, with no user id. */
  function AsStored(e: SyncedEvent): (r: EventFields)
    ensures r.calendarId == e.calendarId && r.title == e.title && r.startTime == e.startTime &&
            r.endTime == e.endTime && r.lastSynced == Some(e.lastSynced) && r.userId.None?
  {
    EventFields(e.calendarId, e.title, e.description, e.startTime, e.endTime, e.location, e.url, Some(e.lastSynced), None)
  }

  /** After an internal sync the calendar's events are exactly the inserted ones
      precisely when every inserted event names that calendar. */
  lemma InternalSyncExactIff(events: seq<Doc<EventFields>>, calendarId: Id, added: seq<SyncedEvent>, start: nat)
    ensures var stored := Map(added, AsStored);
            Filter(Synced(events, calendarId, stored, start), OfCalendar(calendarId)) == Stamped(stored, start) <==>
            forall i :: 0 <= i < |added| ==> added[i].calendarId == calendarId
  {
    var stored := Map(added, AsStored);
    var s := Stamped(stored, start);
    SyncedCalendarEvents(events, calendarId, stored, start);
    if forall i :: 0 <= i < |added| ==> added[i].calendarId == calendarId {
      FilterAll(s, OfCalendar(calendarId));
    }
    if Filter(s, OfCalendar(calendarId)) == s {
      forall i | 0 <= i < |added| ensures added[i].calendarId == calendarId {
        assert OfCalendar(calendarId)(Filter(s, OfCalendar(calendarId))[i]);
      }
    }
  }

  /** An inserted event naming another calendar is stored under that calendar, not
      under the synced one. */
  lemma StrayEventExample(calendarId: Id, e: SyncedEvent, start: nat)
    requires e.calendarId != calendarId
    ensures Filter(Synced([], calendarId, Map([e], AsStored), start), OfCalendar(calendarId)) == []
    ensures Filter(Synced([], calendarId, Map([e], AsStored), start), OfCalendar(e.calendarId)) ==
            [Doc(start, AsStored(e))]
  {
    SyncedCalendarEvents([], calendarId, Map([e], AsStored), start);
    FilterSingleton(Doc(start, AsStored(e)), OfCalendar(calendarId));
    FilterSingleton(Doc(start, AsStored(e)), OfCalendar(e.calendarId));
    assert Stamped(Map([e], AsStored), start) == [Doc(start, AsStored(e))];
  }

  /** `addCalendar`: inserts the calendar with every field as given, `lastSynced`
      included, and returns its id. */
  method AddCalendar(db: Database, name: string, icalUrl: string, userId: string, lastSynced: int,
                     color: Option<string>) returns (id: Id)
    requires db.Valid()
    modifies db
    ensures db.Valid()
    ensures id == old(db.nextId) && id !in Ids(old(db.calendars))
    ensures db.calendars == old(db.calendars) + [Doc(id, CalendarFields(name, icalUrl, userId, lastSynced, color))]
    ensures db.pages == old(db.pages) && db.pageVisits == old(db.pageVisits) && db.events == old(db.events)
  {
    id := db.InsertCalendar(CalendarFields(name, icalUrl, userId, lastSynced, color));
  }

  /** `addEvents`: inserts every event as given, one document per event. */
  method AddEvents(db: Database, events: seq<SyncedEvent>)
    requires db.Valid()
    modifies db
    ensures db.Valid()
    ensures db.events == old(db.events) + Stamped(Map(events, AsStored), old(db.nextId))
    ensures |db.events| == |old(db.events)| + |events|
    ensures db.pages == old(db.pages) && db.pageVisits == old(db.pageVisits) && db.calendars == old(db.calendars)
  {
    var _ := db.InsertEvents(Map(events, AsStored));
  }

  /** `syncEvents`: deletes the events of `calendarId`, inserts the given events as
      they are, and sets the calendar's `lastSynced` to the argument, not to the
      clock. When no calendar has the id the patch throws and everything is undone. */
  method SyncEvents(db: Database, calendarId: Id, events: seq<SyncedEvent>, lastSynced: int) returns (r: Result<(), string>)
    requires db.Valid()
    modifies db
    ensures db.Valid()
    ensures calendarId !in Ids(old(db.calendars)) ==> r == Err(MissingDocument) && db.Snapshot() == old(db.Snapshot())
    ensures calendarId in Ids(old(db.calendars)) ==>
              r.Ok? &&
              db.events == Synced(old(db.events), calendarId, Map(events, AsStored), old(db.nextId)) &&
              db.calendars == SetLastSynced(old(db.calendars), calendarId, lastSynced) &&
              db.pages == old(db.pages) && db.pageVisits == old(db.pageVisits)
  {
    var saved := db.Snapshot();
    var oldEvents := Filter(db.events, OfCalendar(calendarId));
    db.DeleteEvents(oldEvents);
    var _ := db.InsertEvents(Map(events, AsStored));
    var ok := db.PatchCalendarLastSynced(calendarId, lastSynced);
    if !ok {
      db.Restore(saved);
      return Err(MissingDocument);
    }
    r := Ok(());
  }
}
