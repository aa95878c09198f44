/** The command palette: a fixed list of results (one action, four recent pages),
    filtered by the typed query and shown in an Actions group and a Workspace group. */
module SearchCommand {
  import opened Wrappers
  import opened Seqs
  import opened Strings

  datatype ResultType = Action | Recent | Template

  /** A result; `route` is where selecting it navigates. */
  datatype SearchResult = SearchResult(id: string, title: string, description: Option<string>,
                                       route: string, kind: ResultType)

  const Actions: seq<SearchResult> := [SearchResult("1", "Ask AI", Some(""), "/ai", Action)]

  const Pages: seq<SearchResult> := [
    SearchResult("2", "Student Planner", Some("Workspace"), "/workspace/student-planner", Recent),
    SearchResult("3", "Getting Started", Some("Workspace"), "/workspace/getting-started", Recent),
    SearchResult("4", "Class Notes", Some("Workspace"), "/workspace/class-notes", Recent),
    SearchResult("5", "Course Schedule", Some("Workspace"), "/workspace/course-schedule", Recent)
  ]

  /** `allResults`: the actions, then the pages. */
  const AllResults: seq<SearchResult> := Actions + Pages

  /** The searched text: title, a space, and the description or "". */
  function SearchText(r: SearchResult): string {
    r.title + " " + r.description.GetOr("")
  }

  /** The filter's test: an empty query keeps everything, any other query must occur
      in the lowercased searched text. */
  predicate Keep(r: SearchResult, query: string) {
    query == "" || Contains(Lower(SearchText(r)), Lower(query))
  }

  function KeepFor(query: string): SearchResult -> bool {
    (r: SearchResult) => Keep(r, query)
  }

  /** `filteredResults`: the results the query keeps, in their original order. */
  function FilterResults(results: seq<SearchResult>, query: string): (r: seq<SearchResult>)
    ensures forall i :: 0 <= i < |r| ==> r[i] in results && Keep(r[i], query)
    ensures forall i :: 0 <= i < |results| && Keep(results[i], query) ==> results[i] in r
    ensures query == "" ==> r == results
  {
    if query == "" then
      FilterAll(results, KeepFor(query));
      Filter(results, KeepFor(query))
    else Filter(results, KeepFor(query))
  }

  /** Filtering distributes over concatenation, so it keeps the results' order. */
  lemma FilterResultsConcat(a: seq<SearchResult>, b: seq<SearchResult>, query: string)
    ensures FilterResults(a + b, query) == FilterResults(a, query) + FilterResults(b, query)
  {
    FilterConcat(a, b, KeepFor(query));
  }

  /** Filtering keeps the actions-then-pages order: it filters each part in place. */
  lemma FilterKeepsOrder(query: string)
    ensures FilterResults(AllResults, query) == FilterResults(Actions, query) + FilterResults(Pages, query)
  {
    FilterConcat(Actions, Pages, KeepFor(query));
  }

  /** A query of a single space matches every result, since the searched text always
      holds the joining space. */
  lemma OneSpaceMatchesAll(results: seq<SearchResult>)
    ensures FilterResults(results, " ") == results
  {
    forall i | 0 <= i < |results| ensures Keep(results[i], " ") {
      var t := SearchText(results[i]);
      var k := |results[i].title|;
      assert Lower(t)[k..k + 1] == [LowerChar(t[k])] == Lower(" ");
      ContainsAt(Lower(t), Lower(" "), k);
    }
    FilterAll(results, KeepFor(" "));
  }

  function OfKind(kind: ResultType): SearchResult -> bool {
    (r: SearchResult) => r.kind == kind
  }

  /** One group of the palette: the filtered results of one type, in order. */
  function Group(filtered: seq<SearchResult>, kind: ResultType): (r: seq<SearchResult>)
    ensures forall i :: 0 <= i < |r| ==> r[i].kind == kind && r[i] in filtered
    ensures forall i :: 0 <= i < |filtered| && filtered[i].kind == kind ==> filtered[i] in r
  {
    Filter(filtered, OfKind(kind))
  }

  /** Grouping distributes over concatenation, so each group keeps the palette order. */
  lemma GroupConcat(a: seq<SearchResult>, b: seq<SearchResult>, kind: ResultType)
    ensures Group(a + b, kind) == Group(a, kind) + Group(b, kind)
  {
    FilterConcat(a, b, OfKind(kind));
  }

  /** The Actions and Workspace groups together show every filtered result exactly
      when none of them is a template, which the palette never renders. */
  lemma {:induction false} GroupsShowAll(filtered: seq<SearchResult>)
    ensures |Group(filtered, Action)| + |Group(filtered, Recent)| <= |filtered|
    ensures |Group(filtered, Action)| + |Group(filtered, Recent)| == |filtered| <==>
            forall i :: 0 <= i < |filtered| ==> filtered[i].kind != Template
  {
    if filtered != [] {
      GroupsShowAll(filtered[1..]);
    }
  }

  /** No result of the fixed list is a template, so every filtered result shows. */
  lemma FixedResultsAllShown(query: string)
    ensures var f := FilterResults(AllResults, query);
            |Group(f, Action)| + |Group(f, Recent)| == |f|
  {
    var f := FilterResults(AllResults, query);
    assert forall i :: 0 <= i < |AllResults| ==> AllResults[i].kind != Template;
    GroupsShowAll(f);
  }
}
