/** The marketplace grid: the templates matching the search text and the selected
    tags, and a "load more" button that appends the mock templates again. */
module TemplateGrid {
  import opened Seqs
  import opened Strings

  /** A template; the rating is kept in tenths (4.8 is 48). */
  datatype Template = Template(id: string, title: string, creator: string, ratingTenths: int,
                               isFree: bool, imageUrl: string, tags: seq<string>)

  const MockTemplates: seq<Template> := [
    Template("1", "Weekly Planner", "Notion", 48, true,
             "https://images.unsplash.com/photo-1484480974693-6ca0a78fb36b?q=80&w=800&auto=format&fit=crop",
             ["Productivity", "Planning"]),
    Template("2", "Project Dashboard", "Notion", 46, false,
             "https://images.unsplash.com/photo-1611224923853-80b023f02d71?q=80&w=800&auto=format&fit=crop",
             ["Project Management", "Business"]),
    Template("3", "Meeting Notes", "Notion", 47, true,
             "https://images.unsplash.com/photo-1517245386807-bb43f82c33c4?q=80&w=800&auto=format&fit=crop",
             ["Business", "Productivity"])
  ]

  /** The search looks at the title only, case-insensitively. */
  predicate MatchesSearch(t: Template, search: string) {
    Contains(Lower(t.title), Lower(search))
  }

  /** The tag test: "All" among the selected tags lifts it; otherwise every selected
      tag must be one of the template's tags, compared exactly. */
  predicate MatchesTags(t: Template, selected: seq<string>) {
    "All" in selected || forall j :: 0 <= j < |selected| ==> selected[j] in t.tags
  }

  predicate Matches(t: Template, search: string, selected: seq<string>) {
    MatchesSearch(t, search) && MatchesTags(t, selected)
  }

  function MatchesFor(search: string, selected: seq<string>): Template -> bool {
    (t: Template) => Matches(t, search, selected)
  }

  /** `filteredTemplates`: the matching templates, in order. */
  function FilteredTemplates(templates: seq<Template>, search: string, selected: seq<string>): (r: seq<Template>)
    ensures |r| <= |templates|
    ensures forall i :: 0 <= i < |r| ==> r[i] in templates && Matches(r[i], search, selected)
    ensures forall i :: 0 <= i < |templates| && Matches(templates[i], search, selected) ==> templates[i] in r
  {
    Filter(templates, MatchesFor(search, selected))
  }

  /** No selected tag means no tag constraint, and an empty search then keeps every
      template. */
  lemma NoTagsNoSearchKeepsAll(templates: seq<Template>)
    ensures FilteredTemplates(templates, "", []) == templates
  {
    forall i | 0 <= i < |templates| ensures Matches(templates[i], "", []) {
      ContainsEmpty(Lower(templates[i].title));
    }
    FilterAll(templates, MatchesFor("", []));
  }

  /** Filtering keeps the templates' order, so after `loadMore` the grid shows what
      it showed before followed by the matching mock templates. */
  lemma FilterAfterLoadMore(templates: seq<Template>, search: string, selected: seq<string>)
    ensures FilteredTemplates(templates + MockTemplates, search, selected) ==
            FilteredTemplates(templates, search, selected) + FilteredTemplates(MockTemplates, search, selected)
  {
    FilterConcat(templates, MockTemplates, MatchesFor(search, selected));
  }

  /** Selecting "Business" keeps Project Dashboard and Meeting Notes. */
  lemma BusinessTagExample()
    ensures FilteredTemplates(MockTemplates, "", ["Business"]) == [MockTemplates[1], MockTemplates[2]]
  {
    var m := MockTemplates;
    ContainsEmpty(Lower(m[0].title));
    ContainsEmpty(Lower(m[1].title));
    ContainsEmpty(Lower(m[2].title));
    var tags := m[0].tags;
    assert tags[0][0] != "Business"[0] && tags[1][0] != "Business"[0] && "All"[0] != "Business"[0];
    var sel := ["Business"];
    assert sel[0] !in tags && "All" !in sel;
    assert !MatchesTags(m[0], sel);
    assert Matches(m[1], "", ["Business"]);
    assert Matches(m[2], "", ["Business"]);
    assert m[1..][1..] == [m[2]] && m[1..][1..][1..] == [];
  }

  /** What the grid renders below the cards: the load-more button, with its label,
      or the empty message. */
  datatype Footer = LoadMoreButton(disabled: bool, text: string) | EmptyMessage(text: string)

  /** The button shows exactly when some template matches, the message exactly when
      none does; the button is disabled and reads "Loading..." while loading. */
  function RenderFooter(filtered: seq<Template>, isLoading: bool): (r: Footer)
    ensures r.LoadMoreButton? <==> filtered != []
    ensures r.EmptyMessage? <==> filtered == []
    ensures r.LoadMoreButton? ==> r.disabled == isLoading &&
                                  r.text == (if isLoading then "Loading..." else "Load more templates")
  {
    if |filtered| > 0 then
      LoadMoreButton(isLoading, if isLoading then "Loading..." else "Load more templates")
    else EmptyMessage("No templates found matching your criteria.")
  }

  /** The grid's state: the loaded templates and the loading flag. */
  class Grid {
    var templates: seq<Template>
    var isLoading: bool

    constructor ()
      ensures templates == MockTemplates && !isLoading
    {
      templates := MockTemplates;
      isLoading := false;
    }

    /** `loadMore`, first half: the flag goes up at once. */
    method LoadMore()
      modifies this
      ensures isLoading && templates == old(templates)
    {
      isLoading := true;
    }

    /** `loadMore`, the timer callback: a full copy of the mock templates is appended,
        repeating their ids, and the flag goes down. */
    method FinishLoad()
      modifies this
      ensures templates == old(templates) + MockTemplates
      ensures !isLoading
    {
      templates := templates + MockTemplates;
      isLoading := false;
    }
  }

  /** After one load the list holds every mock id twice. */
  lemma LoadRepeatsIds()
    ensures var t := MockTemplates + MockTemplates;
            |t| == 6 && forall i :: 0 <= i < 3 ==> t[i].id == t[i + 3].id
  {
  }
}
