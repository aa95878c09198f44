/** The week grid of the calendar: which events a day column shows, in what order,
    and the horizontal slot (column out of totalColumns) each event gets. */
module CalendarGrid {
  import opened Seqs

  /** The fields of a calendar event that the grid's layout reads; times are
      milliseconds since the epoch. */
  datatype CalendarEvent = CalendarEvent(id: string, title: string, startTime: int, endTime: int)

  /** `areIntervalsOverlapping` rejects an interval whose end precedes its start. */
  predicate WellFormed(e: CalendarEvent) {
    e.startTime <= e.endTime
  }

  predicate AllWellFormed(events: seq<CalendarEvent>) {
    forall i :: 0 <= i < |events| ==> WellFormed(events[i])
  }

  /** The horizontal slot of an event: `column` out of `totalColumns` equal parts. */
  datatype Slot = Slot(column: int, totalColumns: int)

  /** The first and last visible hour of the grid (`startHour`, `endHour`). */
  function VisibleHours(showAllHours: bool): (r: (int, int))
    ensures 0 <= r.0 <= r.1 <= 23
    ensures r.1 - r.0 + 1 == if showAllHours then 24 else 18
    ensures showAllHours ==> r.0 == 0
    ensures !showAllHours ==> r.0 == 4
  {
    if showAllHours then (0, 23) else (4, 21)
  }

  /** The sort key of `getEventsForDay`. */
  function StartTime(e: CalendarEvent): int {
    e.startTime
  }

  /** `getEventsForDay`: the events whose start falls on the day (`onDay` stands for
      `isSameDay` against that day), sorted by start time. */
  function EventsForDay(events: seq<CalendarEvent>, onDay: int -> bool): (r: seq<CalendarEvent>)
    ensures SortedBy(r, StartTime)
    ensures forall i :: 0 <= i < |r| ==> r[i] in events && onDay(r[i].startTime)
    ensures forall i :: 0 <= i < |events| && onDay(events[i].startTime) ==> events[i] in r
    ensures multiset(r) == multiset(Filter(events, (e: CalendarEvent) => onDay(e.startTime)))
  {
    var kept := Filter(events, (e: CalendarEvent) => onDay(e.startTime));
    var r := SortBy(kept, StartTime);
    SameMembers(r, kept);
    r
  }

  /** The sort is stable: the day's events that start at the same time keep the
      order they have in `events`. */
  lemma SameStartKeepsOrder(events: seq<CalendarEvent>, onDay: int -> bool, t: int)
    ensures Filter(EventsForDay(events, onDay), KeyIs(StartTime, t)) ==
            Filter(Filter(events, (e: CalendarEvent) => onDay(e.startTime)), KeyIs(StartTime, t))
  {
    SortByStable(Filter(events, (e: CalendarEvent) => onDay(e.startTime)), StartTime, t);
  }

  /** The strict overlap test of `areIntervalsOverlapping`: intervals that only touch
      do not overlap. */
  predicate Overlaps(a: CalendarEvent, b: CalendarEvent) {
    a.startTime < b.endTime && b.startTime < a.endTime
  }

  /** `overlappingEvents`: the other events of the day (by id) that overlap `e`. */
  function Overlapping(e: CalendarEvent, dayEvents: seq<CalendarEvent>): (r: seq<CalendarEvent>)
    ensures forall i :: 0 <= i < |r| ==> r[i] in dayEvents && r[i].id != e.id && Overlaps(e, r[i])
    ensures forall i :: 0 <= i < |dayEvents| && dayEvents[i].id != e.id && Overlaps(e, dayEvents[i]) ==>
              dayEvents[i] in r
  {
    Filter(dayEvents, (o: CalendarEvent) => o.id != e.id && Overlaps(e, o))
  }

  /** The events of `ov` that start strictly before `e`. */
  function StartingEarlier(e: CalendarEvent, ov: seq<CalendarEvent>): (r: seq<CalendarEvent>)
    ensures |r| <= |ov|
    ensures forall i :: 0 <= i < |r| ==> r[i] in ov && r[i].startTime < e.startTime
    ensures forall i :: 0 <= i < |ov| && ov[i].startTime < e.startTime ==> ov[i] in r
  {
    Filter(ov, (o: CalendarEvent) => o.startTime < e.startTime)
  }

  /** The column and totalColumns part of `calculateEventPosition`: the slot lies
      within the day cell, an event overlapping nothing takes the whole width, and
      the column counts the overlapping events that start strictly earlier. */
  function Position(e: CalendarEvent, dayEvents: seq<CalendarEvent>): (r: Slot)
    requires WellFormed(e) && AllWellFormed(dayEvents)
    ensures 0 <= r.column < r.totalColumns
    ensures r.totalColumns == |Overlapping(e, dayEvents)| + 1
    ensures r.column == |StartingEarlier(e, Overlapping(e, dayEvents))|
    ensures Overlapping(e, dayEvents) == [] ==> r == Slot(0, 1)
  {
    var ov := Overlapping(e, dayEvents);
    var column := if |ov| > 0 then |StartingEarlier(e, ov)| else 0;
    Slot(column, |ov| + 1)
  }

  /** An event with its slot, as the grid renders it. */
  datatype PositionedEvent = PositionedEvent(event: CalendarEvent, slot: Slot)

  /** One day column: each event of the day in start order, with the slot
      `calculateEventPosition` gives it among the day's events. */
  function LayoutDay(events: seq<CalendarEvent>, onDay: int -> bool): (r: seq<PositionedEvent>)
    requires AllWellFormed(events)
    ensures |r| == |EventsForDay(events, onDay)|
    ensures forall i :: 0 <= i < |r| ==> r[i].event == EventsForDay(events, onDay)[i]
    ensures AllWellFormed(EventsForDay(events, onDay))
    ensures forall i :: 0 <= i < |r| ==> r[i].slot == Position(r[i].event, EventsForDay(events, onDay))
    ensures forall i :: 0 <= i < |r| ==> 0 <= r[i].slot.column < r[i].slot.totalColumns
  {
    var day := EventsForDay(events, onDay);
    assert AllWellFormed(day) by {
      forall i | 0 <= i < |day| ensures WellFormed(day[i]) {
        var j :| 0 <= j < |events| && events[j] == day[i];
      }
    }
    seq(|day|, i requires 0 <= i < |day| => PositionedEvent(day[i], Position(day[i], day)))
  }

  /** A day holding a single event gives it the whole width. */
  lemma SingleEventFullWidth(e: CalendarEvent)
    requires WellFormed(e)
    ensures Position(e, [e]) == Slot(0, 1)
  {
    assert [e][1..] == [];
  }

  /** Two events with the same interval get the same column, because the count of
      earlier starts is strict (within the day, an id names only its own event). */
  lemma SameIntervalSameColumn(a: CalendarEvent, b: CalendarEvent, dayEvents: seq<CalendarEvent>)
    requires WellFormed(a) && AllWellFormed(dayEvents)
    requires a.startTime == b.startTime && a.endTime == b.endTime
    requires forall i :: 0 <= i < |dayEvents| ==>
               (dayEvents[i].id == a.id ==> dayEvents[i] == a) && (dayEvents[i].id == b.id ==> dayEvents[i] == b)
    ensures Position(a, dayEvents).column == Position(b, dayEvents).column
  {
    EarlierOverlapsAgree(a, b, dayEvents);
  }

  /** Helper for `SameIntervalSameColumn`: the earlier-starting overlapping events of
      `a` and of `b` are the same list. */
  lemma {:induction false} EarlierOverlapsAgree(a: CalendarEvent, b: CalendarEvent, s: seq<CalendarEvent>)
    requires a.startTime == b.startTime && a.endTime == b.endTime
    requires forall i :: 0 <= i < |s| ==> (s[i].id == a.id ==> s[i] == a) && (s[i].id == b.id ==> s[i] == b)
    ensures StartingEarlier(a, Overlapping(a, s)) == StartingEarlier(b, Overlapping(b, s))
  {
    if s != [] {
      EarlierOverlapsAgree(a, b, s[1..]);
      var o := s[0];
      var la, lb := OverlapPart(a, o), OverlapPart(b, o);
      OverlappingCons(a, s);
      OverlappingCons(b, s);
      StartingEarlierConcat(a, la, Overlapping(a, s[1..]));
      StartingEarlierConcat(b, lb, Overlapping(b, s[1..]));
      StartingEarlierShort(a, la);
      StartingEarlierShort(b, lb);
      if o.startTime < a.startTime {
        assert o.id != a.id && o.id != b.id;
        assert la == lb;
      }
    }
  }

  /** What `Overlapping` keeps of one event `o`: itself when it is another event
      overlapping `e`. */
  function OverlapPart(e: CalendarEvent, o: CalendarEvent): (r: seq<CalendarEvent>)
    ensures r == [o] <==> o.id != e.id && Overlaps(e, o)
    ensures r == [] <==> !(o.id != e.id && Overlaps(e, o))
  {
    if o.id != e.id && Overlaps(e, o) then [o] else []
  }

  /** `Overlapping` looks at the first event, then at the rest. */
  lemma OverlappingCons(e: CalendarEvent, s: seq<CalendarEvent>)
    requires s != []
    ensures Overlapping(e, s) == OverlapPart(e, s[0]) + Overlapping(e, s[1..])
  {
  }

  /** `Overlapping` on a day of three events, event by event. */
  lemma OverlappingOfThree(e: CalendarEvent, d: seq<CalendarEvent>)
    requires |d| == 3
    ensures Overlapping(e, d) == OverlapPart(e, d[0]) + OverlapPart(e, d[1]) + OverlapPart(e, d[2])
  {
    OverlappingCons(e, d);
    assert d[1..][1..] == d[2..] && d[2..][1..] == [];
    OverlappingCons(e, d[1..]);
    OverlappingCons(e, d[2..]);
  }

  /** `StartingEarlier` distributes over concatenation. */
  lemma StartingEarlierConcat(e: CalendarEvent, x: seq<CalendarEvent>, y: seq<CalendarEvent>)
    ensures StartingEarlier(e, x + y) == StartingEarlier(e, x) + StartingEarlier(e, y)
  {
    FilterConcat(x, y, (o: CalendarEvent) => o.startTime < e.startTime);
  }

  /** `StartingEarlier` on at most one event keeps it when it starts earlier. */
  lemma StartingEarlierShort(e: CalendarEvent, l: seq<CalendarEvent>)
    requires |l| <= 1
    ensures StartingEarlier(e, l) == if l != [] && l[0].startTime < e.startTime then l else []
  {
    if l != [] {
      assert l == [l[0]];
      FilterSingleton(l[0], (o: CalendarEvent) => o.startTime < e.startTime);
    }
  }

  /** Events of a three-event day, used by the examples below. */
  function Ev(id: string, s: int, e: int): CalendarEvent {
    CalendarEvent(id, id, s, e)
  }

  /** A day of three events where only the first two overlap: the first takes column
      0 of 2, the second, starting later, column 1 of 2, and the third the whole width. */
  lemma PairThenAlone(p: CalendarEvent, q: CalendarEvent, r: CalendarEvent)
    requires WellFormed(p) && WellFormed(q) && WellFormed(r)
    requires p.id != q.id && p.id != r.id && q.id != r.id
    requires Overlaps(p, q) && !Overlaps(p, r) && !Overlaps(q, r)
    requires p.startTime < q.startTime
    ensures Position(p, [p, q, r]) == Slot(0, 2)
    ensures Position(q, [p, q, r]) == Slot(1, 2)
    ensures Position(r, [p, q, r]) == Slot(0, 1)
  {
    var d := [p, q, r];
    assert OverlapPart(p, p) == [] && OverlapPart(p, q) == [q] && OverlapPart(p, r) == [];
    OneEarlierOverlap(p, q, d);
    assert OverlapPart(q, p) == [p] && OverlapPart(q, q) == [] && OverlapPart(q, r) == [];
    OneEarlierOverlap(q, p, d);
    OverlappingOfThree(r, d);
  }

  /** An event of a three-event day that overlaps exactly one other event `o` is in
      column 1 of 2 when `o` starts earlier and in column 0 of 2 otherwise. */
  lemma OneEarlierOverlap(e: CalendarEvent, o: CalendarEvent, d: seq<CalendarEvent>)
    requires |d| == 3 && WellFormed(e) && AllWellFormed(d)
    requires OverlapPart(e, d[0]) + OverlapPart(e, d[1]) + OverlapPart(e, d[2]) == [o]
    ensures Position(e, d) == Slot(if o.startTime < e.startTime then 1 else 0, 2)
  {
    OverlappingOfThree(e, d);
    StartingEarlierShort(e, [o]);
  }

  /** A chain of three events where the middle one overlaps both neighbours and the
      outer two do not overlap: the middle one takes column 1 of 3 and the last one
      column 1 of 2. */
  lemma ChainColumns(x: CalendarEvent, a: CalendarEvent, b: CalendarEvent)
    requires WellFormed(x) && WellFormed(a) && WellFormed(b)
    requires x.id != a.id && x.id != b.id && a.id != b.id
    requires Overlaps(a, x) && Overlaps(a, b) && !Overlaps(b, x)
    requires x.startTime < a.startTime < b.startTime
    ensures Position(a, [x, a, b]) == Slot(1, 3)
    ensures Position(b, [x, a, b]) == Slot(1, 2)
  {
    var d := [x, a, b];
    MiddleOfChain(x, a, b);
    assert OverlapPart(b, x) == [] && OverlapPart(b, a) == [a] && OverlapPart(b, b) == [];
    OneEarlierOverlap(b, a, d);
  }

  /** Helper for `ChainColumns`: the middle event's slot. */
  lemma MiddleOfChain(x: CalendarEvent, a: CalendarEvent, b: CalendarEvent)
    requires WellFormed(x) && WellFormed(a) && WellFormed(b)
    requires x.id != a.id && a.id != b.id
    requires Overlaps(a, x) && Overlaps(a, b)
    requires x.startTime < a.startTime < b.startTime
    ensures Position(a, [x, a, b]) == Slot(1, 3)
  {
    var d := [x, a, b];
    OverlappingOfThree(a, d);
    assert Overlapping(a, d) == [x] + [b];
    StartingEarlierConcat(a, [x], [b]);
    StartingEarlierShort(a, [x]);
    StartingEarlierShort(a, [b]);
  }

  /** 09:00-10:00, 09:30-10:30 and 11:00-12:00 (in minutes of the day) get (0,2),
      (1,2) and (0,1). */
  lemma MorningExample()
    ensures var d := [Ev("E1", 540, 600), Ev("E2", 570, 630), Ev("E3", 660, 720)];
            Position(d[0], d) == Slot(0, 2) && Position(d[1], d) == Slot(1, 2) &&
            Position(d[2], d) == Slot(0, 1)
  {
    var p, q, r := Ev("E1", 540, 600), Ev("E2", 570, 630), Ev("E3", 660, 720);
    assert p.id[1] != q.id[1] && p.id[1] != r.id[1] && q.id[1] != r.id[1];
    PairThenAlone(p, q, r);
  }

  /** Columns need not differ for overlapping events: with X[0,10), A[5,20) and
      B[15,25), A and B overlap yet both get column 1, with totals 3 and 2. */
  lemma ColumnsMayCollide()
    ensures var d := [Ev("X", 0, 10), Ev("A", 5, 20), Ev("B", 15, 25)];
            Overlaps(d[1], d[2]) &&
            Position(d[1], d) == Slot(1, 3) && Position(d[2], d) == Slot(1, 2)
  {
    var x, a, b := Ev("X", 0, 10), Ev("A", 5, 20), Ev("B", 15, 25);
    assert x.id[0] != a.id[0] && x.id[0] != b.id[0] && a.id[0] != b.id[0];
    ChainColumns(x, a, b);
  }

  /** Two events with identical intervals both get column 0 out of 2. */
  lemma IdenticalIntervalsExample()
    ensures var d := [Ev("P", 0, 10), Ev("Q", 0, 10)];
            Overlaps(d[0], d[1]) && Position(d[0], d) == Slot(0, 2) && Position(d[1], d) == Slot(0, 2)
  {
    var d := [Ev("P", 0, 10), Ev("Q", 0, 10)];
    assert d[1..] == [d[1]] && d[2..] == [];
    assert Overlapping(d[0], d) == [d[1]];
    assert Overlapping(d[1], d) == [d[0]];
  }
}
