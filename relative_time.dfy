/** The bucketing both dashboard lists use to describe a time difference: whole
    minutes (rounded down), then whole hours, then whole days. */
module RelativeTime {
  /** The bucket a difference falls in, with the count shown. */
  datatype Span = Instant | Minutes(m: int) | Hours(h: int) | Days(d: int)

  /** `Math.floor(diff / 60000)`: Dafny's division by a positive divisor rounds down,
      as `Math.floor` of the quotient does. */
  function DiffInMinutes(diffMs: int): int {
    diffMs / 60000
  }

  /** Under one minute (negative differences included) is an instant; under an hour
      counts minutes; under a day counts hours, 1 to 23; beyond that counts days, at
      least one. Exactly one bucket applies to every difference. */
  function Bucket(diffMs: int): (r: Span)
    ensures r.Instant? <==> DiffInMinutes(diffMs) < 1
    ensures r.Minutes? <==> 1 <= DiffInMinutes(diffMs) < 60
    ensures r.Hours? <==> 60 <= DiffInMinutes(diffMs) < 1440
    ensures r.Days? <==> 1440 <= DiffInMinutes(diffMs)
    ensures r.Minutes? ==> r.m == DiffInMinutes(diffMs) && 1 <= r.m < 60
    ensures r.Hours? ==> r.h == DiffInMinutes(diffMs) / 60 && 1 <= r.h <= 23
    ensures r.Days? ==> r.d == DiffInMinutes(diffMs) / 1440 && r.d >= 1
  {
    var minutes := DiffInMinutes(diffMs);
    if minutes < 1 then Instant
    else if minutes < 60 then Minutes(minutes)
    else
      var hours := minutes / 60;
      if hours < 24 then Hours(hours)
      else
        DaysOfHours(minutes);
        Days(hours / 24)
  }

  /** Counting days from whole hours loses nothing against counting from minutes. */
  lemma DaysOfHours(minutes: int)
    requires minutes >= 0
    ensures (minutes / 60) / 24 == minutes / 1440
  {
    var h := minutes / 60;
    var d := h / 24;
    assert minutes == 60 * h + minutes % 60;
    assert h == 24 * d + h % 24;
    assert minutes == 1440 * d + (60 * (h % 24) + minutes % 60);
  }

  /** A later time never falls in an earlier bucket. */
  lemma BucketMonotone(a: int, b: int)
    requires a <= b
    ensures Bucket(b).Instant? ==> Bucket(a).Instant?
    ensures Bucket(a).Days? ==> Bucket(b).Days?
  {
    assert DiffInMinutes(a) <= DiffInMinutes(b);
  }
}

/** The upcoming-events list and its "In ..." texts. */
module UpcomingEvents {
  import opened Strings
  import opened RelativeTime

  /** `formatRelativeTime` of the upcoming list for an event starting at `start`,
      seen at `now`. */
  function FormatRelativeTime(start: int, now: int): (r: string)
    ensures Bucket(start - now).Instant? <==> r == "Starting now"
    ensures Bucket(start - now).Minutes? ==> r == "In " + NatToString(Bucket(start - now).m) + "m"
    ensures Bucket(start - now).Hours? ==> r == "In " + NatToString(Bucket(start - now).h) + "h"
    ensures Bucket(start - now).Days? ==> r == "In " + NatToString(Bucket(start - now).d) + "d"
  {
    match Bucket(start - now)
    case Instant => "Starting now"
    case Minutes(m) => InCount(m, 'm')
    case Hours(h) => InCount(h, 'h')
    case Days(d) => InCount(d, 'd')
  }

  /** "In <n><unit>", which is never "Starting now". */
  function InCount(n: nat, unit: char): (r: string)
    ensures r == "In " + NatToString(n) + [unit]
    ensures r != "Starting now"
  {
    var r := "In " + NatToString(n) + [unit];
    assert r[0] != "Starting now"[0];
    r
  }

  /** The count can be read back from the text: what lies between "In " and the unit
      is the rendered number of minutes, hours or days. */
  lemma FormatReadsBack(start: int, now: int)
    requires !Bucket(start - now).Instant?
    ensures var r := FormatRelativeTime(start, now);
            |r| >= 5 && r[..3] == "In " &&
            DecimalValue(r[3..|r| - 1]) == match Bucket(start - now)
                                           case Minutes(m) => m
                                           case Hours(h) => h
                                           case Days(d) => d
                                           case Instant => 0
  {
    var r := FormatRelativeTime(start, now);
    match Bucket(start - now)
    case Minutes(m) =>
      assert r[3..|r| - 1] == NatToString(m);
      NatToStringRoundTrip(m);
    case Hours(h) =>
      assert r[3..|r| - 1] == NatToString(h);
      NatToStringRoundTrip(h);
    case Days(d) =>
      assert r[3..|r| - 1] == NatToString(d);
      NatToStringRoundTrip(d);
  }
}

/** The recently-visited strip and its "... ago" texts. */
module RecentlyVisited {
  import opened Wrappers
  import opened Strings
  import opened RelativeTime

  /** The number of visits the strip asks for. */
  const VisitLimit: int := 6

  /** `formatRelativeTime` of the strip for a visit at `visitedAt`, seen at `now`. */
  function FormatRelativeTime(visitedAt: int, now: int): (r: string)
    ensures Bucket(now - visitedAt).Instant? <==> r == "Just now"
    ensures Bucket(now - visitedAt).Minutes? ==> r == NatToString(Bucket(now - visitedAt).m) + "m ago"
    ensures Bucket(now - visitedAt).Hours? ==> r == NatToString(Bucket(now - visitedAt).h) + "h ago"
    ensures Bucket(now - visitedAt).Days? ==> r == NatToString(Bucket(now - visitedAt).d) + "d ago"
  {
    match Bucket(now - visitedAt)
    case Instant => "Just now"
    case Minutes(m) => CountAgo(m, 'm')
    case Hours(h) => CountAgo(h, 'h')
    case Days(d) => CountAgo(d, 'd')
  }

  /** "<n><unit> ago", which is never "Just now". */
  function CountAgo(n: nat, unit: char): (r: string)
    ensures r == NatToString(n) + [unit] + " ago"
    ensures r != "Just now"
  {
    var r := NatToString(n) + [unit] + " ago";
    assert r[0] != "Just now"[0];
    r
  }

  /** A visit in the future reads "Just now". */
  lemma FutureVisitIsJustNow(visitedAt: int, now: int)
    requires now <= visitedAt
    ensures FormatRelativeTime(visitedAt, now) == "Just now"
  {
  }

  /** The fields of a visited page the strip reads. */
  datatype VisitedPage = VisitedPage(id: string, title: string, icon: Option<string>, visitedAt: int)

  /** `page.icon ? …`: an absent or empty icon is falsy and draws the file glyph. */
  predicate HasIcon(p: VisitedPage) {
    p.icon.Some? && p.icon.value != ""
  }

  /** One card: its link, its title, its icon (absent draws the file glyph) and
      its time text. */
  datatype Card = Card(href: string, title: string, icon: Option<string>, when: string)

  /** The strip: nothing while the query has not answered, otherwise one card per
      page, in the order given. */
  function Render(recentPages: Option<seq<VisitedPage>>, now: int): (r: Option<seq<Card>>)
    ensures recentPages.None? <==> r.None?
    ensures r.Some? ==> |r.value| == |recentPages.value|
    ensures r.Some? ==> forall i :: 0 <= i < |r.value| ==>
              r.value[i].href == "/workspace/" + recentPages.value[i].id &&
              r.value[i].title == recentPages.value[i].title &&
              r.value[i].when == FormatRelativeTime(recentPages.value[i].visitedAt, now)
    ensures r.Some? ==> forall i :: 0 <= i < |r.value| ==>
              (r.value[i].icon.Some? <==> HasIcon(recentPages.value[i])) &&
              (r.value[i].icon.Some? ==> r.value[i].icon == recentPages.value[i].icon)
  {
    match recentPages
    case None => None
    case Some(ps) =>
      Some(seq(|ps|, i requires 0 <= i < |ps| =>
        Card("/workspace/" + ps[i].id, ps[i].title, if HasIcon(ps[i]) then ps[i].icon else None,
             FormatRelativeTime(ps[i].visitedAt, now))))
  }
}
