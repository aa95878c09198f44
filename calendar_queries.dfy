/** The calendar queries. Events are read through a `by_user` index on the
    `userId` the public mutations store, so a user's events come in creation order
    ("asc") or reverse creation order ("desc"), not in start-time order. */
module CalendarQueries {
  import opened Wrappers
  import opened Seqs
  import opened ConvexDb

  /** The default `limit` of `getEvents`, taken whenever the argument is falsy. */
  const DefaultEventsLimit: int := 100

  /** The default `limit` of `getUpcomingEvents`, taken only when it is absent. */
  const DefaultUpcomingLimit: int := 5

  /** The calendar name shown when an event's calendar is gone. */
  const UnknownCalendar: string := "Unknown Calendar"

  function OwnedBy(user: string): Doc<EventFields> -> bool {
    (e: Doc<EventFields>) => e.fields.userId == Some(user)
  }

  function StartsFrom(now: int): Doc<EventFields> -> bool {
    (e: Doc<EventFields>) => e.fields.startTime >= now
  }

  function StartsWithin(startDate: int, endDate: int): Doc<EventFields> -> bool {
    (e: Doc<EventFields>) => startDate <= e.fields.startTime <= endDate
  }

  /** The user's events in creation order. */
  function UserEvents(events: seq<Doc<EventFields>>, user: string): seq<Doc<EventFields>> {
    Filter(events, OwnedBy(user))
  }

  /** `args.limit || 100`: an absent or zero limit means 100. */
  function EventsLimit(limit: Option<int>): (r: int)
    ensures limit.None? || limit.value == 0 ==> r == DefaultEventsLimit
    ensures limit.Some? && limit.value != 0 ==> r == limit.value
  {
    match limit
    case None => DefaultEventsLimit
    case Some(n) => if n == 0 then DefaultEventsLimit else n
  }

  /** `getEvents`: "Unauthorized" without an identity; otherwise the user's newest
      events, newest first, at most `limit || 100` of them. */
  function GetEvents(events: seq<Doc<EventFields>>, identity: Option<string>, limit: Option<int>)
    : (r: Result<seq<Doc<EventFields>>, string>)
    ensures identity.None? <==> r.Err?
    ensures r.Err? ==> r.error == Unauthorized
    ensures r.Ok? ==> |r.value| <= |UserEvents(events, identity.value)|
    ensures r.Ok? ==> EventsLimit(limit) > 0 ==> |r.value| <= EventsLimit(limit)
    ensures r.Ok? ==> |r.value| == (var n := |UserEvents(events, identity.value)|;
                                    if EventsLimit(limit) <= 0 then 0
                                    else if EventsLimit(limit) < n then EventsLimit(limit) else n)
    ensures r.Ok? ==> forall i :: 0 <= i < |r.value| ==>
              r.value[i] == UserEvents(events, identity.value)[|UserEvents(events, identity.value)| - 1 - i]
  {
    match identity
    case None => Err(Unauthorized)
    case Some(user) => Ok(Take(Reverse(UserEvents(events, user)), EventsLimit(limit)))
  }

  /** A zero limit is no limit for `getEvents` but yields nothing from
      `getUpcomingEvents`. */
  lemma ZeroLimitContrast(events: seq<Doc<EventFields>>, calendars: seq<Doc<CalendarFields>>, user: string, now: int)
    ensures GetEvents(events, Some(user), Some(0)) == GetEvents(events, Some(user), None)
    ensures GetUpcomingEvents(events, calendars, Some(user), now, Some(0)) == []
  {
  }

  /** An event with the name and colour of its calendar. */
  datatype EventWithCalendar = EventWithCalendar(event: Doc<EventFields>, calendarName: string,
                                                 calendarColor: Option<string>)

  /** The calendar lookup of the event queries: the calendar's name and colour, or
      "Unknown Calendar" and no colour when the calendar is gone. */
  function WithCalendar(e: Doc<EventFields>, calendars: seq<Doc<CalendarFields>>): (r: EventWithCalendar)
    ensures r.event == e
    ensures e.fields.calendarId !in Ids(calendars) ==> r.calendarName == UnknownCalendar && r.calendarColor.None?
    ensures e.fields.calendarId in Ids(calendars) ==>
              exists c :: c in calendars && c.id == e.fields.calendarId &&
                          r.calendarName == c.fields.name && r.calendarColor == c.fields.color
  {
    match Get(calendars, e.fields.calendarId)
    case None => EventWithCalendar(e, UnknownCalendar, None)
    case Some(c) => EventWithCalendar(e, c.fields.name, c.fields.color)
  }

  function WithCalendarIn(calendars: seq<Doc<CalendarFields>>): Doc<EventFields> -> EventWithCalendar {
    (e: Doc<EventFields>) => WithCalendar(e, calendars)
  }

  /** `getUpcomingEvents`: nothing without an identity; otherwise, in creation order,
      the first `limit ?? 5` of the user's events starting at `now` or later, each
      with its calendar. */
  function GetUpcomingEvents(events: seq<Doc<EventFields>>, calendars: seq<Doc<CalendarFields>>,
                             identity: Option<string>, now: int, limit: Option<int>): (r: seq<EventWithCalendar>)
    ensures identity.None? ==> r == []
    ensures limit.GetOr(DefaultUpcomingLimit) <= 0 ==> r == []
    ensures limit.GetOr(DefaultUpcomingLimit) > 0 ==> |r| <= limit.GetOr(DefaultUpcomingLimit)
    ensures forall i :: 0 <= i < |r| ==>
              r[i].event in events && r[i].event.fields.userId == identity &&
              r[i].event.fields.startTime >= now && r[i] == WithCalendar(r[i].event, calendars)
    ensures identity.Some? ==>
              var upcoming := Filter(UserEvents(events, identity.value), StartsFrom(now));
              var l := limit.GetOr(DefaultUpcomingLimit);
              |r| == (if l <= 0 then 0 else if l < |upcoming| then l else |upcoming|) &&
              forall i :: 0 <= i < |r| ==> r[i].event == upcoming[i]
  {
    match identity
    case None => []
    case Some(user) =>
      var upcoming := Filter(UserEvents(events, user), StartsFrom(now));
      var taken := Take(upcoming, limit.GetOr(DefaultUpcomingLimit));
      assert forall i :: 0 <= i < |taken| ==> taken[i] in upcoming;
      Map(taken, WithCalendarIn(calendars))
  }

  /** When the user has no more upcoming events than the limit, every one of them is
      returned. */
  lemma UpcomingComplete(events: seq<Doc<EventFields>>, calendars: seq<Doc<CalendarFields>>, user: string,
                         now: int, limit: int, e: Doc<EventFields>)
    requires |Filter(UserEvents(events, user), StartsFrom(now))| <= limit
    requires e in events && e.fields.userId == Some(user) && e.fields.startTime >= now
    ensures exists i :: 0 <= i < |GetUpcomingEvents(events, calendars, Some(user), now, Some(limit))| &&
                        GetUpcomingEvents(events, calendars, Some(user), now, Some(limit))[i].event == e
  {
    var upcoming := Filter(UserEvents(events, user), StartsFrom(now));
    var k :| 0 <= k < |events| && events[k] == e;
    assert e in UserEvents(events, user);
    var j :| 0 <= j < |upcoming| && upcoming[j] == e;
    assert GetUpcomingEvents(events, calendars, Some(user), now, Some(limit))[j].event == e;
  }

  /** `getEvent`: "Unauthorized" without an identity; nothing when no event has the
      id or the event is not the user's (including an event with no owner). */
  function GetEvent(events: seq<Doc<EventFields>>, identity: Option<string>, id: Id)
    : (r: Result<Option<Doc<EventFields>>, string>)
    ensures identity.None? <==> r.Err?
    ensures r.Err? ==> r.error == Unauthorized
    ensures r.Ok? ==> (r.value.None? <==> id !in Ids(events) || Get(events, id).value.fields.userId != identity)
    ensures r.Ok? && r.value.Some? ==> r.value.value in events && r.value.value.id == id &&
                                       r.value.value.fields.userId == identity
  {
    match identity
    case None => Err(Unauthorized)
    case Some(user) =>
      match Get(events, id)
      case None => Ok(None)
      case Some(e) => if e.fields.userId != Some(user) then Ok(None) else Ok(Some(e))
  }

  /** An event the user does not own is never returned: another user's, or one from
      the internal sync, which stores no owner. */
  lemma UnownedEventHidden(events: seq<Doc<EventFields>>, user: string, i: nat)
    requires UniqueIds(events) && i < |events| && events[i].fields.userId != Some(user)
    ensures GetEvent(events, Some(user), events[i].id) == Ok(None)
  {
    GetAt(events, i);
  }

  /** `getEventsForDateRange`: nothing without an identity; otherwise, in creation
      order, each of the user's events starting within the range, both ends included,
      with its calendar. */
  function GetEventsForDateRange(events: seq<Doc<EventFields>>, calendars: seq<Doc<CalendarFields>>,
                                 identity: Option<string>, startDate: int, endDate: int): (r: seq<EventWithCalendar>)
    ensures identity.None? ==> r == []
    ensures forall i :: 0 <= i < |r| ==>
              r[i].event in events && r[i].event.fields.userId == identity &&
              startDate <= r[i].event.fields.startTime <= endDate && r[i] == WithCalendar(r[i].event, calendars)
    ensures identity.Some? ==>
              forall e :: (e in events && e.fields.userId == identity && startDate <= e.fields.startTime <= endDate) ==>
                (exists i :: 0 <= i < |r| && r[i].event == e)
    ensures identity.Some? ==>
              var inRange := Filter(UserEvents(events, identity.value), StartsWithin(startDate, endDate));
              |r| == |inRange| && forall i :: 0 <= i < |r| ==> r[i].event == inRange[i]
  {
    match identity
    case None => []
    case Some(user) =>
      var inRange := Filter(UserEvents(events, user), StartsWithin(startDate, endDate));
      var r := Map(inRange, WithCalendarIn(calendars));
      assert forall e :: e in events && e.fields.userId == identity && startDate <= e.fields.startTime <= endDate ==>
               e in inRange by {
        forall e | e in events && e.fields.userId == identity && startDate <= e.fields.startTime <= endDate
          ensures e in inRange
        {
          assert e in UserEvents(events, user);
        }
      }
      assert forall j :: 0 <= j < |inRange| ==> r[j].event == inRange[j];
      r
  }

  /** An event starting exactly at either end of the range is included. */
  lemma RangeEndsIncluded(calendars: seq<Doc<CalendarFields>>, e: Doc<EventFields>, user: string)
    requires e.fields.userId == Some(user)
    ensures |GetEventsForDateRange([e], calendars, Some(user), e.fields.startTime, e.fields.startTime + 10)| == 1
    ensures |GetEventsForDateRange([e], calendars, Some(user), e.fields.startTime - 10, e.fields.startTime)| == 1
  {
    FilterSingleton(e, OwnedBy(user));
    FilterSingleton(e, StartsWithin(e.fields.startTime, e.fields.startTime + 10));
    FilterSingleton(e, StartsWithin(e.fields.startTime - 10, e.fields.startTime));
  }
}
