/** The "@" mention dropdown of the AI prompt: the page options and the date options
    offered for a search text, and when the dropdown shows at all. */
module MentionDropdown {
  import opened Wrappers
  import opened Seqs
  import opened Strings

  datatype MentionType = PageMention | DateMention

  datatype MentionOption = MentionOption(kind: MentionType, labelText: string, value: string,
                                         icon: string, description: string)

  /** The fields of a page and of a calendar event that the options read. */
  datatype MentionPage = MentionPage(title: string)
  datatype MentionEvent = MentionEvent(title: string, startTime: int)

  /** The case-insensitive substring test every option goes through. */
  predicate Matches(text: string, search: string) {
    Contains(Lower(text), Lower(search))
  }

  /** The empty search matches every text. */
  lemma MatchesEmpty(text: string)
    ensures Matches(text, "")
  {
    assert Lower("") == "";
    ContainsEmpty(Lower(text));
  }

  const DateLabels: seq<string> := ["Today", "Tomorrow", "Next Tuesday 3PM"]

  function PageOption(p: MentionPage): MentionOption {
    MentionOption(PageMention, p.title, "@" + p.title, "📝", "Page")
  }

  function DateOption(text: string, value: string): MentionOption {
    MentionOption(DateMention, text, "@" + value, "📅", "Date")
  }

  /** An event option; `formatStart` stands for `toLocaleString` of the start time. */
  function EventOption(e: MentionEvent, formatStart: int -> string): MentionOption {
    MentionOption(DateMention, e.title, "@" + formatStart(e.startTime) + " - " + e.title, "⏰", "Event")
  }

  function PageMatches(search: string): MentionPage -> bool {
    (p: MentionPage) => Matches(p.title, search)
  }

  /** The page options for `search`, built as the `forEach` builds them: one per
      matching page, labelled by its title and valued "@" + title. */
  function PageOptions(pages: seq<MentionPage>, search: string): (r: seq<MentionOption>)
    ensures |r| <= |pages|
    ensures forall i :: 0 <= i < |r| ==>
              r[i].kind == PageMention && r[i].value == "@" + r[i].labelText &&
              r[i].description == "Page" && Matches(r[i].labelText, search)
  {
    if pages == [] then []
    else
      var n := |pages| - 1;
      PageOptions(pages[..n], search) +
        (if Matches(pages[n].title, search) then [PageOption(pages[n])] else [])
  }

  /** The page options are exactly the matching pages, in page order. */
  lemma {:induction false} PageOptionsAreMatchingPages(pages: seq<MentionPage>, search: string)
    ensures PageOptions(pages, search) == Map(Filter(pages, PageMatches(search)), PageOption)
  {
    if pages != [] {
      var n := |pages| - 1;
      assert pages == pages[..n] + [pages[n]];
      PageOptionsAreMatchingPages(pages[..n], search);
      FilterConcat(pages[..n], [pages[n]], PageMatches(search));
      FilterSingleton(pages[n], PageMatches(search));
      MapConcat(Filter(pages[..n], PageMatches(search)), Filter([pages[n]], PageMatches(search)), PageOption);
    }
  }

  /** The fixed date suggestions whose label matches, in label order, each valued by
      the text at the same position. */
  function LabelOptions(labels: seq<string>, values: seq<string>, search: string): (r: seq<MentionOption>)
    requires |labels| == |values|
    ensures |r| <= |labels|
    ensures forall i :: 0 <= i < |r| ==>
              r[i].kind == DateMention && r[i].description == "Date" &&
              |r[i].value| >= 1 && r[i].value[0] == '@' &&
              r[i].labelText in labels && Matches(r[i].labelText, search)
  {
    if labels == [] then []
    else
      var n := |labels| - 1;
      LabelOptions(labels[..n], values[..n], search) +
        (if Matches(labels[n], search) then [DateOption(labels[n], values[n])] else [])
  }

  /** The event options: one per event whose title matches, in event order. */
  function EventOptions(events: seq<MentionEvent>, search: string, formatStart: int -> string): (r: seq<MentionOption>)
    ensures |r| <= |events|
    ensures forall i :: 0 <= i < |r| ==>
              r[i].kind == DateMention && r[i].description == "Event" &&
              |r[i].value| >= 1 && r[i].value[0] == '@' && Matches(r[i].labelText, search)
  {
    if events == [] then []
    else
      var n := |events| - 1;
      EventOptions(events[..n], search, formatStart) +
        (if Matches(events[n].title, search) then [EventOption(events[n], formatStart)] else [])
  }

  function LabelMatches(search: string): MentionOption -> bool {
    (o: MentionOption) => Matches(o.labelText, search)
  }

  /** The fixed suggestions kept for `search` are exactly the date options whose
      label matches, in label order, each valued "@" + the text at its position. */
  lemma {:induction false} LabelOptionsAreMatchingDates(labels: seq<string>, values: seq<string>, search: string)
    requires |labels| == |values|
    ensures LabelOptions(labels, values, search) == Filter(DateOptions(labels, values), LabelMatches(search))
  {
    if labels != [] {
      var n := |labels| - 1;
      var d := DateOption(labels[n], values[n]);
      LabelOptionsAreMatchingDates(labels[..n], values[..n], search);
      DateOptionsLast(labels, values);
      FilterConcat(DateOptions(labels[..n], values[..n]), [d], LabelMatches(search));
      FilterSingleton(d, LabelMatches(search));
    }
  }

  function EventMatches(search: string): MentionEvent -> bool {
    (e: MentionEvent) => Matches(e.title, search)
  }

  function EventOptionOf(formatStart: int -> string): MentionEvent -> MentionOption {
    (e: MentionEvent) => EventOption(e, formatStart)
  }

  /** The event options are exactly the events whose title matches, in event order,
      each valued "@" + its formatted start + " - " + its title. */
  lemma {:induction false} EventOptionsAreMatchingEvents(events: seq<MentionEvent>, search: string, formatStart: int -> string)
    ensures EventOptions(events, search, formatStart) ==
            Map(Filter(events, EventMatches(search)), EventOptionOf(formatStart))
  {
    if events != [] {
      var n := |events| - 1;
      assert events == events[..n] + [events[n]];
      EventOptionsAreMatchingEvents(events[..n], search, formatStart);
      FilterConcat(events[..n], [events[n]], EventMatches(search));
      FilterSingleton(events[n], EventMatches(search));
      MapConcat(Filter(events[..n], EventMatches(search)), Filter([events[n]], EventMatches(search)),
                EventOptionOf(formatStart));
    }
  }

  /** The day offset to "next Tuesday" for a `getDay()` weekday (0 is Sunday; the
      dividend is positive, so JavaScript's `%` agrees with Dafny's): always 1 to 7
      days ahead and always landing on weekday 3, a Wednesday. */
  function NextTuesdayOffset(weekday: int): (r: int)
    requires 0 <= weekday <= 6
    ensures 1 <= r <= 7
    ensures (weekday + r) % 7 == 3
    ensures (weekday + r) % 7 != 2
  {
    ((9 - weekday) % 7) + 1
  }

  /** `getMentionOptions`. `pages`/`events` are absent when the query has not
      answered; `todayText`, `tomorrowText` and `nextTuesdayText` stand for the
      localised dates, `formatStart` for `toLocaleString` of an event start. The page
      options come from the pages, the date options are the fixed suggestions
      followed, when the calendar is enabled, by the events; every value begins with
      "@". */
  method GetMentionOptions(search: string, pages: Option<seq<MentionPage>>, events: Option<seq<MentionEvent>>,
                           calendarEnabled: bool, todayText: string, tomorrowText: string,
                           nextTuesdayText: string, formatStart: int -> string)
    returns (pageOptions: seq<MentionOption>, dateOptions: seq<MentionOption>)
    ensures pageOptions == PageOptions(pages.GetOr([]), search)
    ensures dateOptions == LabelOptions(DateLabels, [todayText, tomorrowText, nextTuesdayText], search) +
                           (if calendarEnabled then EventOptions(events.GetOr([]), search, formatStart) else [])
    ensures forall i :: 0 <= i < |pageOptions| ==> |pageOptions[i].value| >= 1 && pageOptions[i].value[0] == '@'
    ensures forall i :: 0 <= i < |dateOptions| ==> |dateOptions[i].value| >= 1 && dateOptions[i].value[0] == '@'
  {
    pageOptions := [];
    if pages.Some? {
      pageOptions := AddPageOptions(pages.value, search);
    }
    dateOptions := AddLabelOptions(DateLabels, [todayText, tomorrowText, nextTuesdayText], search);
    if calendarEnabled && events.Some? {
      dateOptions := AddEventOptions(dateOptions, events.value, search, formatStart);
    }
  }

  /** The `pages.forEach` loop of `getMentionOptions`. */
  method AddPageOptions(ps: seq<MentionPage>, search: string) returns (options: seq<MentionOption>)
    ensures options == PageOptions(ps, search)
  {
    options := [];
    var i := 0;
    while i < |ps|
      invariant 0 <= i <= |ps|
      invariant options == PageOptions(ps[..i], search)
    {
      assert ps[..i + 1][..i] == ps[..i];
      if Matches(ps[i].title, search) {
        options := options + [PageOption(ps[i])];
      }
      i := i + 1;
    }
    assert ps[..|ps|] == ps;
  }

  /** The `dateLabels.forEach` loop of `getMentionOptions`. */
  method AddLabelOptions(labels: seq<string>, values: seq<string>, search: string) returns (options: seq<MentionOption>)
    requires |labels| == |values|
    ensures options == LabelOptions(labels, values, search)
  {
    options := [];
    var j := 0;
    while j < |labels|
      invariant 0 <= j <= |labels|
      invariant options == LabelOptions(labels[..j], values[..j], search)
    {
      assert labels[..j + 1][..j] == labels[..j];
      assert values[..j + 1][..j] == values[..j];
      if Matches(labels[j], search) {
        options := options + [DateOption(labels[j], values[j])];
      }
      j := j + 1;
    }
    assert labels[..|labels|] == labels && values[..|values|] == values;
  }

  /** The `events.forEach` loop of `getMentionOptions`, pushing after `fixed`. */
  method AddEventOptions(fixed: seq<MentionOption>, es: seq<MentionEvent>, search: string, formatStart: int -> string)
    returns (options: seq<MentionOption>)
    ensures options == fixed + EventOptions(es, search, formatStart)
  {
    options := fixed;
    var k := 0;
    while k < |es|
      invariant 0 <= k <= |es|
      invariant options == fixed + EventOptions(es[..k], search, formatStart)
    {
      assert es[..k + 1][..k] == es[..k];
      if Matches(es[k].title, search) {
        options := options + [EventOption(es[k], formatStart)];
      }
      k := k + 1;
    }
    assert es[..|es|] == es;
  }

  /** An empty search matches every page: one option per page, in page order. */
  lemma {:induction false} EmptySearchKeepsEveryPage(pages: seq<MentionPage>)
    ensures |PageOptions(pages, "")| == |pages|
    ensures forall i :: 0 <= i < |pages| ==> PageOptions(pages, "")[i] == PageOption(pages[i])
  {
    if pages != [] {
      var n := |pages| - 1;
      EmptySearchKeepsEveryPage(pages[..n]);
      MatchesEmpty(pages[n].title);
    }
  }

  /** An empty search keeps every fixed suggestion, in order. */
  lemma EmptySearchKeepsEveryLabel(labels: seq<string>, values: seq<string>)
    requires |labels| == |values|
    ensures |LabelOptions(labels, values, "")| == |labels|
    ensures forall i :: 0 <= i < |labels| ==> LabelOptions(labels, values, "")[i] == DateOption(labels[i], values[i])
  {
    EmptySearchAllDateOptions(labels, values);
  }

  /** One date option per label, in label order. */
  function DateOptions(labels: seq<string>, values: seq<string>): (r: seq<MentionOption>)
    requires |labels| == |values|
    ensures |r| == |labels|
    ensures forall i :: 0 <= i < |labels| ==> r[i] == DateOption(labels[i], values[i])
  {
    seq(|labels|, i requires 0 <= i < |labels| => DateOption(labels[i], values[i]))
  }

  /** Helper for `EmptySearchKeepsEveryLabel`: the date options of the labels grow by
      the last label's option. */
  lemma DateOptionsLast(labels: seq<string>, values: seq<string>)
    requires |labels| == |values| && labels != []
    ensures var n := |labels| - 1;
            DateOptions(labels, values) ==
            DateOptions(labels[..n], values[..n]) + [DateOption(labels[n], values[n])]
  {
    var n := |labels| - 1;
    var ls, vs := labels[..n], values[..n];
    assert forall i :: 0 <= i < n ==> ls[i] == labels[i] && vs[i] == values[i];
  }

  /** Helper for `EmptySearchKeepsEveryLabel`: with an empty search the options are
      all the date options. */
  lemma {:induction false} EmptySearchAllDateOptions(labels: seq<string>, values: seq<string>)
    requires |labels| == |values|
    ensures LabelOptions(labels, values, "") == DateOptions(labels, values)
  {
    if labels != [] {
      var n := |labels| - 1;
      EmptySearchAllDateOptions(labels[..n], values[..n]);
      MatchesEmpty(labels[n]);
      DateOptionsLast(labels, values);
    }
  }

  /** In particular an empty search offers Today, Tomorrow and Next Tuesday 3PM, in
      that order. */
  lemma EmptySearchKeepsEveryDate(todayText: string, tomorrowText: string, nextTuesdayText: string)
    ensures LabelOptions(DateLabels, [todayText, tomorrowText, nextTuesdayText], "") ==
            [DateOption("Today", todayText), DateOption("Tomorrow", tomorrowText),
             DateOption("Next Tuesday 3PM", nextTuesdayText)]
  {
    EmptySearchKeepsEveryLabel(DateLabels, [todayText, tomorrowText, nextTuesdayText]);
  }

  /** An empty search matches every event: one option per event, in event order. */
  lemma {:induction false} EmptySearchKeepsEveryEvent(events: seq<MentionEvent>, formatStart: int -> string)
    ensures |EventOptions(events, "", formatStart)| == |events|
    ensures forall i :: 0 <= i < |events| ==>
              EventOptions(events, "", formatStart)[i] == EventOption(events[i], formatStart)
  {
    if events != [] {
      var n := |events| - 1;
      EmptySearchKeepsEveryEvent(events[..n], formatStart);
      MatchesEmpty(events[n].title);
    }
  }

  /** What the dropdown renders: nothing, or the page section and/or the date
      section, and the "No matching results" notice. */
  datatype View = View(showPages: bool, showDates: bool, showNoResults: bool)

  /** The dropdown returns nothing when both option lists are empty, so once it
      renders at least one section shows and the empty notice never does. */
  function Render(pageOptions: seq<MentionOption>, dateOptions: seq<MentionOption>): (r: Option<View>)
    ensures r.None? <==> pageOptions == [] && dateOptions == []
    ensures r.Some? ==> !r.value.showNoResults
    ensures r.Some? ==> r.value.showPages == (pageOptions != []) && r.value.showDates == (dateOptions != [])
  {
    var hasPages := |pageOptions| > 0;
    var hasDates := |dateOptions| > 0;
    if !hasPages && !hasDates then None
    else Some(View(hasPages, hasDates, !hasPages && !hasDates))
  }
}
