# B-Workspace core, modelled in Dafny

B-Workspace is a Notion-style workspace built on Next.js with a Convex backend.
Users keep pages, a task table, a calendar synced from iCal feeds, and an AI chat
that can take a workspace document as context. This project models the parts of it
that decide things:

- the week-grid layout of calendar events;
- the in-memory document-context store and the two panels that feed it;
- the "@" mention options and the chat endpoint's message assembly;
- the task table's edit handlers and the search and template filters;
- the relative-time labels of the dashboard, with its greetings;
- the dropdown viewport clamp and the name split of the account settings;
- the cover-image validation, on the client and on the server;
- the Convex functions for page visits (the 50-visit retention rule), for calendar
  queries, and for calendar and event mutations, including the delete-then-insert
  sync;
- the sidebar's current-page rule and the inbox open/close store.

One module stands for each source file. Three shared modules sit underneath:
`Wrappers` (Option, Result), `Seqs` (the JavaScript array methods the code uses:
`filter`, `find`, `reverse`, a stable sort, `map`, `slice`) and `Strings`
(`toLowerCase`, `includes`, `trim`, `split`/`join`, `replace`, number rendering).
The Convex database is `ConvexDb.Database`: a class with one sequence per table,
in creation order, and an id counter. Queries are functions over those sequences.
Mutations are methods that change them.

Parameters stand for what the model cannot see:

- the clock (`now`) and Date arithmetic (day tests, hour of day);
- random and `nanoid` ids;
- the signed-in identity (an `Option`);
- the completion service of the chat endpoint;
- the storage URL lookup and the outcome of an upload;
- locale formatting (`toLocaleString` and the like).

## Model

| member | source | states |
|---|---|---|
| CalendarGrid.VisibleHours | components/calendar/CalendarGrid.tsx:55-56 | hours 0..23 (24 rows) with showAllHours, else 4..21 (18 rows) |
| CalendarGrid.EventsForDay | components/calendar/CalendarGrid.tsx:63-70 | exactly the events starting on the day, both directions of membership, a permutation of the filtered list, ascending by start time |
| CalendarGrid.SameStartKeepsOrder | components/calendar/CalendarGrid.tsx:63-70 | the sort is stable: the day's events with the same start keep their order in the event list |
| CalendarGrid.Overlapping | components/calendar/CalendarGrid.tsx:88-98 | exactly the other events (different id) that strictly overlap the event; an event is never its own overlap |
| CalendarGrid.StartingEarlier | components/calendar/CalendarGrid.tsx:101-102 | exactly the overlapping events that start strictly before the event: both directions of membership |
| CalendarGrid.Position | components/calendar/CalendarGrid.tsx:100-104 | 0 <= column < totalColumns; totalColumns is 1 + the overlap count; column counts the earlier starters; no overlap gives (0, 1) |
| CalendarGrid.LayoutDay | components/calendar/CalendarGrid.tsx:63-107 | one positioned entry per event of the day, in start order; each slot is the Position of its event among the day's events, inside the day cell |
| CalendarGrid.SingleEventFullWidth | components/calendar/CalendarGrid.tsx:100-104 | a lone event of the day gets slot (0, 1) |
| CalendarGrid.SameIntervalSameColumn | components/calendar/CalendarGrid.tsx:100-103 | two events with the same interval get the same column, because the earlier-start count is strict |
| CalendarGrid.EarlierOverlapsAgree | components/calendar/CalendarGrid.tsx:88-103 | events with equal intervals see the same list of earlier overlapping events |
| CalendarGrid.OverlappingCons | components/calendar/CalendarGrid.tsx:88-98 | the overlap filter decides the first event, then filters the rest |
| CalendarGrid.StartingEarlierConcat | components/calendar/CalendarGrid.tsx:101-102 | the earlier-start filter distributes over concatenation |
| CalendarGrid.OneEarlierOverlap | components/calendar/CalendarGrid.tsx:88-104 | an event overlapping exactly one other gets column 1 of 2 if that one starts earlier, else 0 of 2 |
| CalendarGrid.PairThenAlone | components/calendar/CalendarGrid.tsx:88-104 | two overlapping events and a separate third get (0,2), (1,2) and (0,1) |
| CalendarGrid.ChainColumns | components/calendar/CalendarGrid.tsx:88-104 | in a chain of three where only neighbours overlap, the middle gets (1,3) and the last (1,2) |
| CalendarGrid.MorningExample | components/calendar/CalendarGrid.tsx:88-104 | 09:00-10:00, 09:30-10:30 and 11:00-12:00 get (0,2), (1,2) and (0,1) |
| CalendarGrid.ColumnsMayCollide | components/calendar/CalendarGrid.tsx:100-104 | X[0,10), A[5,20), B[15,25): A and B overlap, yet both get column 1, with totals 3 and 2 |
| CalendarGrid.IdenticalIntervalsExample | components/calendar/CalendarGrid.tsx:100-104 | two identical intervals both get column 0 of 2 |
| DocumentContext.TypeNameInjective | lib/context/DocumentContext.tsx:67 | different document types are written as different words in the context text |
| DocumentContext.RemoveById | lib/context/DocumentContext.tsx:40-42 | every document with the id is gone, every other one is kept; no document with the id means no change |
| DocumentContext.RemoveByIdConcat | lib/context/DocumentContext.tsx:40-42 | removal distributes over concatenation, so the relative order is kept |
| DocumentContext.FindById | lib/context/DocumentContext.tsx:45-47 | the first document with the id, or none exactly when no document has it |
| DocumentContext.FindByIdAt | lib/context/DocumentContext.tsx:45-47 | the first index carrying the id determines the result |
| DocumentContext.FindByTitle | lib/context/DocumentContext.tsx:50-52 | the first document whose lowercased title equals the lowercased argument, or none exactly when there is no such document |
| DocumentContext.RecentDocuments | lib/context/DocumentContext.tsx:55-59 | slice-sized result drawn from the documents, newest first, and nothing left out is newer than anything kept |
| DocumentContext.SortedPrefixIsNewest | lib/context/DocumentContext.tsx:56-58 | the first k entries of the sorted copy are newest first and no older than the rest |
| DocumentContext.SameTimeKeepsOrder | lib/context/DocumentContext.tsx:55-59 | the sort is stable: the kept documents with one update time are the first of the store's documents with that time, in store order |
| DocumentContext.ContextString | lib/context/DocumentContext.tsx:67 | the context text starts with the document's title |
| DocumentContext.CurrentContext | lib/context/DocumentContext.tsx:62-68 | none exactly when the id is absent, empty or unresolved; otherwise the text of the first document with the id |
| DocumentContext.RemoveSelectedClearsContext | lib/context/DocumentContext.tsx:40-68 | selecting a document and removing it leaves no context |
| DocumentContext.AddedDocumentIsContext | lib/context/DocumentContext.tsx:35-73 | a document added under a new non-empty id and selected gives exactly its own context text |
| DocumentContext.DocumentStore.constructor | lib/context/DocumentContext.tsx:31-32 | no documents and no context id |
| DocumentContext.DocumentStore.AddDocument | lib/context/DocumentContext.tsx:35-37 | appends the document, with no duplicate check; the context id stays |
| DocumentContext.DocumentStore.RemoveDocument | lib/context/DocumentContext.tsx:40-42 | documents become RemoveById of the old ones; the context id stays |
| DocumentContext.DocumentStore.SetCurrentContext | lib/context/DocumentContext.tsx:71-73 | stores the id unvalidated; the documents stay |
| DocumentContext.UseDocuments | lib/context/DocumentContext.tsx:94-100 | an error with the provider message exactly when there is no provider |
| ContextPanel.CanAdd | components/ai/context/ContextPanel.tsx:23 | the add guard passes exactly when title and content each hold a non-space character |
| ContextPanel.Highlighted | components/ai/context/ContextPanel.tsx:79 | a row is highlighted exactly when there is a context text whose first characters are the row's title |
| ContextPanel.ActiveRowHighlighted | components/ai/context/ContextPanel.tsx:79 | the document the context resolves to is highlighted |
| ContextPanel.PrefixTitleHighlighted | components/ai/context/ContextPanel.tsx:79 | any row whose title is a prefix of the active title is highlighted too |
| ContextPanel.TwoRowsHighlightedExample | components/ai/context/ContextPanel.tsx:79 | "Plan" and "Plan B" are both highlighted while "Plan B" is active |
| ContextPanel.Panel.constructor | components/ai/context/ContextPanel.tsx:12-14 | empty form, type note |
| ContextPanel.Panel.HandleAddDocument | components/ai/context/ContextPanel.tsx:22-40 | an empty trimmed title or content changes nothing; otherwise the trimmed document is appended and made current, the form is cleared and the panel closes |
| ContextPanel.Panel.HandleSelectDocument | components/ai/context/ContextPanel.tsx:42-44 | the row's id becomes the context id; the documents stay |
| ContextPanel.AddedRowHighlighted | components/ai/context/ContextPanel.tsx:25-79 | a document added through the form under a new id is highlighted afterwards |
| ContextSelector.Highlighted | components/ai/ContextSelector.tsx:92 | a row is highlighted exactly when there is a context text whose first characters are the row's id |
| ContextSelector.HighlightTestsActiveTitle | components/ai/ContextSelector.tsx:92 | for a row id without a space (every nanoid id), the row is highlighted exactly when the active document's title starts with that id |
| ContextSelector.ActiveRowNotHighlightedExample | components/ai/ContextSelector.tsx:92 | the active document with id "k3x" and title "Plan" is not highlighted |
| ContextSelector.Selector.constructor | components/ai/ContextSelector.tsx:8-11 | empty form, type note |
| ContextSelector.Selector.HandleAddDocument | components/ai/ContextSelector.tsx:17-34 | an empty trimmed title or content changes nothing; otherwise the trimmed document is appended and made current and the form is cleared |
| ContextSelector.Selector.HandleSelectDocument | components/ai/ContextSelector.tsx:36-38 | the row's id becomes the context id |
| ContextSelector.Selector.ClearContext | components/ai/ContextSelector.tsx:40-42 | no context id, hence no context text; the documents stay |
| MentionDropdown.PageOptions | components/ai/mention/MentionDropdown.tsx:115-127 | one "@"-valued page option per page whose lowercased title contains the lowercased search |
| MentionDropdown.PageOptionsAreMatchingPages | components/ai/mention/MentionDropdown.tsx:115-127 | the page options are the matching pages, in page order, mapped to options |
| MentionDropdown.LabelOptions | components/ai/mention/MentionDropdown.tsx:139-156 | the fixed suggestions whose label matches, in label order, each with its value |
| MentionDropdown.LabelOptionsAreMatchingDates | components/ai/mention/MentionDropdown.tsx:139-156 | for every search, the fixed suggestions kept are exactly the date options whose label matches, in label order, each valued "@" + the text at its position |
| MentionDropdown.EventOptions | components/ai/mention/MentionDropdown.tsx:159-173 | one "Event" option per event whose title matches, valued "@" + start + " - " + title |
| MentionDropdown.EventOptionsAreMatchingEvents | components/ai/mention/MentionDropdown.tsx:159-173 | for every search, exactly the events whose title matches, in event order, each valued "@" + formatted start + " - " + title |
| MentionDropdown.NextTuesdayOffset | components/ai/mention/MentionDropdown.tsx:135-137 | the offset is in 1..7 and always lands on a Wednesday, never a Tuesday |
| MentionDropdown.GetMentionOptions | components/ai/mention/MentionDropdown.tsx:105-176 | pages first, then Today, Tomorrow, Next Tuesday 3PM, then events only when the calendar is enabled; every value starts with "@" |
| MentionDropdown.AddPageOptions | components/ai/mention/MentionDropdown.tsx:117-127 | the push loop builds exactly PageOptions |
| MentionDropdown.AddLabelOptions | components/ai/mention/MentionDropdown.tsx:139-156 | the push loop builds exactly LabelOptions |
| MentionDropdown.AddEventOptions | components/ai/mention/MentionDropdown.tsx:159-173 | the push loop appends exactly EventOptions |
| MentionDropdown.EmptySearchKeepsEveryPage | components/ai/mention/MentionDropdown.tsx:117-127 | an empty search keeps one option per page, in order |
| MentionDropdown.EmptySearchKeepsEveryLabel | components/ai/mention/MentionDropdown.tsx:139-156 | an empty search keeps every fixed label, in order |
| MentionDropdown.EmptySearchAllDateOptions | components/ai/mention/MentionDropdown.tsx:139-156 | with an empty search the fixed options are exactly one date option per label, in label order |
| MentionDropdown.EmptySearchKeepsEveryDate | components/ai/mention/MentionDropdown.tsx:139-156 | an empty search offers all three date suggestions, in order |
| MentionDropdown.EmptySearchKeepsEveryEvent | components/ai/mention/MentionDropdown.tsx:159-173 | an empty search keeps one option per event, in order |
| MentionDropdown.Render | components/ai/mention/MentionDropdown.tsx:30-96 | nothing exactly when both lists are empty, so the "no results" block never shows |
| ChatRoute.ValidMessages | app/api/chat/route.ts:66-71 | validation fails exactly when messages is missing, not an array, or empty |
| ChatRoute.ErrorText | app/api/chat/route.ts:120-127 | the thrown message, or the generic text when there is none |
| ChatRoute.WithSystemPrompt | app/api/chat/route.ts:82-92 | a list with a system turn passes through; otherwise the prompt is put in front, length + 1 |
| ChatRoute.OneSystemTurnAdded | app/api/chat/route.ts:85-92 | exactly one system turn after prepending |
| ChatRoute.WithSystemPromptIdempotent | app/api/chat/route.ts:85-86 | prepending twice is prepending once |
| ChatRoute.LastUserIndex | app/api/chat/route.ts:97-99 | the greatest index with role user, or none exactly when there is no user turn |
| ChatRoute.Inject | app/api/chat/route.ts:95-108 | with a non-empty context only the last user turn is rewritten to the wrapped text, with its context field dropped; length and roles are kept |
| ChatRoute.InjectKeepsLastUser | app/api/chat/route.ts:95-108 | injection leaves the last user turn where it was |
| ChatRoute.InjectContext | app/api/chat/route.ts:100-107 | the in-place rewrite of the array gives Inject of its old contents |
| ChatRoute.Outgoing | app/api/chat/route.ts:82-108 | the conversation sent on has a system turn, the system prompt first when the request had none, and one more turn than the request exactly then |
| ChatRoute.Post | app/api/chat/route.ts:58-127 | 400 for bad messages before the key check (500); otherwise the completion's message, or 500 with what was thrown |
| TableView.ApplyChange | components/workspace/TableView.tsx:61-64 | only the named field of the item changes |
| TableView.ReplaceById | components/workspace/TableView.tsx:52-55 | every item with the edited id is replaced, every other one kept, length kept |
| TableView.ReplaceByIdStable | components/workspace/TableView.tsx:52-55 | ids are kept and replacing twice is replacing once |
| TableView.Toggle | components/workspace/TableView.tsx:72 | "done" becomes "not-started", any other status becomes "done" |
| TableView.ToggleTwice | components/workspace/TableView.tsx:72 | two toggles restore exactly "done" and "not-started"; any other status becomes "not-started" |
| TableView.ToggleDone | components/workspace/TableView.tsx:66-77 | only items with the id change, and only in status |
| TableView.ToggleDoneTwice | components/workspace/TableView.tsx:66-77 | toggling twice restores "done"/"not-started" items and turns "in-progress" into "not-started" |
| TableView.StatusLabel | components/workspace/TableView.tsx:114 | only the first "-" becomes a space |
| TableView.DashedLabel | components/workspace/TableView.tsx:114 | a status whose first "-" follows a dash-free a reads a, a space, then the rest unchanged |
| TableView.NotStartedLabel | components/workspace/TableView.tsx:114 | "not-started" reads "not started" |
| TableView.InProgressLabel | components/workspace/TableView.tsx:114 | "in-progress" reads "in progress" |
| TableView.SecondDashKept | components/workspace/TableView.tsx:114 | "a-b-c" reads "a b-c" |
| TableView.Table.constructor | components/workspace/TableView.tsx:30-32 | the given items, nothing being edited |
| TableView.Table.HandleAdd | components/workspace/TableView.tsx:34-43 | one "not-started" item with empty text appended and made the edited item |
| TableView.Table.HandleEdit | components/workspace/TableView.tsx:45-48 | the item becomes the edited item; the list stays |
| TableView.Table.HandleSave | components/workspace/TableView.tsx:50-59 | no edited item changes nothing; otherwise ReplaceById and the edit state is cleared |
| TableView.Table.HandleChange | components/workspace/TableView.tsx:61-64 | the edited item gets the change, or stays absent |
| TableView.Table.HandleToggleDone | components/workspace/TableView.tsx:66-77 | the items become ToggleDone of the old ones; the edit state stays |
| SearchCommand.FilterResults | components/search/SearchCommand.tsx:77-81 | an empty query keeps all; otherwise exactly the results whose lowercased "title description" contains the lowercased query |
| SearchCommand.FilterResultsConcat | components/search/SearchCommand.tsx:77-81 | the filter distributes over concatenation, so the results keep their order |
| SearchCommand.FilterKeepsOrder | components/search/SearchCommand.tsx:75-81 | the filtered actions come before the filtered pages |
| SearchCommand.OneSpaceMatchesAll | components/search/SearchCommand.tsx:79-80 | a one-space query keeps every result |
| SearchCommand.Group | components/search/SearchCommand.tsx:100-128 | exactly the filtered results of one type |
| SearchCommand.GroupConcat | components/search/SearchCommand.tsx:100-128 | grouping distributes over concatenation, so each group keeps the filtered order |
| SearchCommand.GroupsShowAll | components/search/SearchCommand.tsx:100-128 | the two groups show every filtered result exactly when none has another type |
| SearchCommand.FixedResultsAllShown | components/search/SearchCommand.tsx:29-128 | for the fixed result list the two groups show everything the filter keeps |
| TemplateGrid.FilteredTemplates | components/marketplace/TemplateGrid.tsx:56-68 | exactly the templates whose lowercased title contains the search and whose tags match ("All" or every selected tag) |
| TemplateGrid.NoTagsNoSearchKeepsAll | components/marketplace/TemplateGrid.tsx:56-68 | an empty search with no selected tags keeps everything |
| TemplateGrid.FilterAfterLoadMore | components/marketplace/TemplateGrid.tsx:57-82 | filtering after a load is the old filtered list followed by the filtered mocks |
| TemplateGrid.BusinessTagExample | components/marketplace/TemplateGrid.tsx:21-68 | the "Business" tag keeps the second and third mock templates |
| TemplateGrid.RenderFooter | components/marketplace/TemplateGrid.tsx:95-118 | the load-more button exactly when the list is non-empty, disabled while loading; the empty message otherwise |
| TemplateGrid.Grid.constructor | components/marketplace/TemplateGrid.tsx:53-54 | the three mock templates, not loading |
| TemplateGrid.Grid.LoadMore | components/marketplace/TemplateGrid.tsx:75-77 | loading starts, the list stays |
| TemplateGrid.Grid.FinishLoad | components/marketplace/TemplateGrid.tsx:78-81 | a full copy of the mocks is appended and loading ends |
| TemplateGrid.LoadRepeatsIds | components/marketplace/TemplateGrid.tsx:75-82 | after one load two templates share an id |
| RelativeTime.Bucket | components/dashboard/UpcomingEvents.tsx:50-59 | exactly one bucket for every difference, with its count in range |
| RelativeTime.DaysOfHours | components/dashboard/UpcomingEvents.tsx:55-58 | days from hours equal days from minutes |
| RelativeTime.BucketMonotone | components/dashboard/UpcomingEvents.tsx:50-59 | a larger difference never gives a smaller bucket |
| UpcomingEvents.FormatRelativeTime | components/dashboard/UpcomingEvents.tsx:47-60 | "Starting now" exactly for under one minute (past starts too), else "In {n}m/h/d" |
| UpcomingEvents.InCount | components/dashboard/UpcomingEvents.tsx:53-59 | the counted label is never "Starting now" |
| UpcomingEvents.FormatReadsBack | components/dashboard/UpcomingEvents.tsx:53-59 | the number in the label reads back as the bucket's count |
| RecentlyVisited.FormatRelativeTime | components/dashboard/RecentlyVisited.tsx:18-31 | "Just now" exactly for under one minute (future times too), else "{n}m/h/d ago" |
| RecentlyVisited.CountAgo | components/dashboard/RecentlyVisited.tsx:24-30 | the counted label is never "Just now" |
| RecentlyVisited.FutureVisitIsJustNow | components/dashboard/RecentlyVisited.tsx:21-23 | a visit at or after now reads "Just now" |
| RecentlyVisited.Render | components/dashboard/RecentlyVisited.tsx:33-61 | nothing while the data is undefined; otherwise one card per visit with its title and label, and its icon exactly when that is present and non-empty |
| CursorUtils.AdjustPositionToViewport | components/ai/utils/cursorUtils.ts:55-81 | flip above on bottom overflow (may go negative); left clamped below at 0 and above at the right bound, tested on the original left |
| CursorUtils.NarrowWindowExample | components/ai/utils/cursorUtils.ts:74-78 | a 200-pixel window with the 280-pixel default moves left 0 to -80 |
| Account.FirstName | components/settings/sections/Account.tsx:15 | the text before the first space, or the whole name; never holds a space |
| Account.LastName | components/settings/sections/Account.tsx:16 | everything after the first space, or "" |
| Account.NameRoundTrip | components/settings/sections/Account.tsx:15-16 | with a space, first + " " + last is the name |
| Account.LeadingSpace | components/settings/sections/Account.tsx:15-16 | a leading space gives an empty first name |
| Account.Settings.constructor | components/settings/sections/Account.tsx:9-10 | not editing, the name is the full name or "" |
| Account.Settings.HandleSave | components/settings/sections/Account.tsx:12-22 | sends the split name when signed in; leaves edit mode unless the update fails |
| CoverUpload.Subtype | components/workspace/PageHeader.tsx:69 | the text between the first "/" and the next "/" (or the end), holding no "/"; "" when the type has no "/" |
| CoverUpload.SubtypeOfImage | components/workspace/PageHeader.tsx:69 | "image/x" gives x when x has no "/" |
| CoverUpload.ClientSubtype | components/workspace/PageHeader.tsx:51-69 | each allowed type's subtype is what follows "image/" |
| CoverUpload.SizeErrorText | components/workspace/PageHeader.tsx:60-63 | the size error reads "File size must be less than 5MB" |
| CoverUpload.ListNamesSubtypes | components/workspace/PageHeader.tsx:67-71 | a prefix followed by the subtypes joined by ", " contains each subtype |
| CoverUpload.TypeErrorNamesAll | components/workspace/PageHeader.tsx:67-71 | the type error names every allowed subtype |
| CoverUpload.ClientListIsServerList | components/workspace/PageHeader.tsx:51-57 | the client list equals the server list |
| CoverUpload.FileProblem | components/workspace/PageHeader.tsx:50-73 | the size error exactly when too large (checked first), else the type error exactly when the type is not allowed |
| CoverUpload.SizeBoundary | components/workspace/PageHeader.tsx:60 | exactly 5 MiB passes; one byte more of a bad type reports the size error |
| CoverUpload.AcceptedFilePassesServer | convex/files.ts:4-27 | a file the client accepts passes the server's type check |
| CoverUpload.CoverHeader.constructor | components/workspace/PageHeader.tsx:22-26 | the given cover image, or the default unsplash URL when none is given; not loading |
| CoverUpload.CoverHeader.HandleCoverChange | components/workspace/PageHeader.tsx:44-97 | no page or no file does nothing; a bad file alerts without loading; an upload sets the new cover on success, alerts on failure, and always ends not loading |
| Files.InvalidTypeErrorNamesAll | convex/files.ts:25-26 | the server's type error names every allowed type |
| Files.AllowedAreImages | convex/files.ts:4-10 | every allowed type starts with "image/" |
| Files.GenerateUploadUrl | convex/files.ts:12-31 | Unauthorized first, then the type error exactly when the type is not listed, else the upload URL |
| Files.UpperCaseTypeRefused | convex/files.ts:23-27 | "image/PNG" is refused: the test is exact |
| Files.SetCoverGet | convex/files.ts:50-53 | after the patch the page reads back with the new cover |
| Files.SetCoverPatched | convex/files.ts:50-53 | the patched page carries the new cover and time and keeps its other fields |
| Files.SetCoverOther | convex/files.ts:50-53 | every page with another id reads back as before |
| Files.SaveStorageId | convex/files.ts:33-57 | Unauthorized, then the missing-URL error (no URL or an empty one), then missing page (nothing changed); else the page's cover is set and the URL returned |
| ConvexDb.Get | convex/pageVisits.ts:67 | `ctx.db.get`: none exactly when no document has the id; otherwise a document of the table with that id |
| ConvexDb.Take | convex/pageVisits.ts:62 | `.take(n)`: the first min(n, count) documents, none when n is not positive |
| ConvexDb.Database.InsertVisit | convex/pageVisits.ts:22-26 | `ctx.db.insert`: the visit is appended under the next fresh id; the other tables stay and ids stay unique |
| ConvexDb.Database.DeleteVisit | convex/pageVisits.ts:38 | `ctx.db.delete`: exactly the visit with the id goes; the other tables stay |
| ConvexDb.Database.InsertCalendar | convex/calendar/mutations.ts:12-18 | the calendar is appended under the next fresh id; the other tables stay |
| ConvexDb.Database.InsertEvent | convex/calendar/mutations.ts:42-45 | the event is appended under the next fresh id; the other tables stay |
| ConvexDb.Database.InsertEvents | convex/calendar/mutations.ts:40-47 | the events are appended in order under consecutive fresh ids, which are returned in order |
| ConvexDb.Database.DeleteEvent | convex/calendar/mutations.ts:75 | exactly the event with the id goes; the other tables stay |
| ConvexDb.Database.DeleteEvents | convex/calendar/mutations.ts:69-76 | exactly the listed events go, the rest keep their order |
| ConvexDb.Database.PatchPageCover | convex/files.ts:50-53 | `ctx.db.patch`: fails, changing nothing, exactly when no page has the id; otherwise the page's cover and updatedAt are set |
| ConvexDb.Database.PatchCalendarLastSynced | convex/calendar/mutations.ts:89-91 | fails, changing nothing, exactly when no calendar has the id; otherwise its lastSynced is set |
| PageVisits.Retain | convex/pageVisits.ts:29-40 | the table without the user's visits past the 50 newest |
| PageVisits.ReversedTailIds | convex/pageVisits.ts:29-36 | the visits past the newest 50 are the oldest ones |
| PageVisits.IdsReverse | convex/pageVisits.ts:28-32 | reading the visits newest first removes none and adds none |
| PageVisits.OldVisitIds | convex/pageVisits.ts:28-36 | with more than 50 visits the deleted ones are the oldest n - 50; with at most 50 nothing is deleted |
| PageVisits.RetainedUserVisits | convex/pageVisits.ts:28-40 | after the cleanup the user has exactly their visits minus the deleted ones, in order |
| PageVisits.RetainUserVisits | convex/pageVisits.ts:29-40 | the user keeps exactly their newest min(n, 50) visits, in order |
| PageVisits.RetainManyVisits | convex/pageVisits.ts:34-40 | with more than 50 visits the user keeps the newest 50 |
| PageVisits.RetainFewVisits | convex/pageVisits.ts:34-40 | with at most 50 visits the user keeps them all |
| PageVisits.RetainKeepsOthers | convex/pageVisits.ts:29-40 | other users' visits are untouched |
| PageVisits.NewVisitKept | convex/pageVisits.ts:22-40 | the visit just inserted survives the cleanup |
| PageVisits.DeleteVisits | convex/pageVisits.ts:37-39 | the delete loop removes exactly the listed visits |
| PageVisits.RecordVisit | convex/pageVisits.ts:8-42 | Unauthorized and no change without identity; else insert then Retain |
| PageVisits.JoinPages | convex/pageVisits.ts:65-76 | drops visits whose page is gone; each entry's page exists and comes from a visit |
| PageVisits.JoinPagesConcat | convex/pageVisits.ts:65-76 | the join keeps the order of the visits |
| PageVisits.JoinPagesSnoc | convex/pageVisits.ts:65-76 | one more visit adds its entry at the end exactly when its page exists |
| PageVisits.JoinPagesAllPresent | convex/pageVisits.ts:65-76 | when every page exists, one entry per visit with its page and time |
| PageVisits.JoinPagesFiltered | convex/pageVisits.ts:65-76 | for all inputs, the join is the visits whose page exists, in visit order, each with its page and visit time |
| PageVisits.GetRecentVisits | convex/pageVisits.ts:44-78 | an error exactly without identity; otherwise, of the user's newest `limit ?? 6` visits, newest first, exactly those whose page exists, each with its page and visit time |
| PageVisits.DefaultLimitSix | convex/pageVisits.ts:55 | no limit means 6 |
| PageVisits.RecentVisitsWhenPagesExist | convex/pageVisits.ts:55-76 | when every page exists, exactly the newest min(limit, n) visits |
| CalendarQueries.EventsLimit | convex/calendar/queries.ts:36 | `limit \|\| 100`: absent or 0 gives 100 |
| CalendarQueries.GetEvents | convex/calendar/queries.ts:22-38 | an error exactly without identity; otherwise the user's events newest first, exactly min(limit \|\| 100, count) of them |
| CalendarQueries.ZeroLimitContrast | convex/calendar/queries.ts:36-55 | limit 0 gives up to 100 events here and none from the upcoming query |
| CalendarQueries.WithCalendar | convex/calendar/queries.ts:61-76 | the calendar's name and colour, or "Unknown Calendar" and no colour |
| CalendarQueries.GetUpcomingEvents | convex/calendar/queries.ts:40-82 | [] without identity; otherwise the first min(`limit ?? 5`, count) of the user's events starting at now or later, in creation order, each with its calendar |
| CalendarQueries.UpcomingComplete | convex/calendar/queries.ts:50-56 | when the limit is not below the number of upcoming owned events, every one of them appears |
| CalendarQueries.GetEvent | convex/calendar/queries.ts:93-110 | an error exactly without identity; null exactly when missing or owned by someone else |
| CalendarQueries.UnownedEventHidden | convex/calendar/queries.ts:103-106 | an event the user does not own, another user's or one with no owner, reads as null |
| CalendarQueries.GetEventsForDateRange | convex/calendar/queries.ts:112-159 | exactly the owned events with start in [startDate, endDate], both ends inclusive, each once, in creation order, with its calendar |
| CalendarQueries.RangeEndsIncluded | convex/calendar/queries.ts:126-132 | events starting exactly at either end are included |
| CalendarMutations.UnderCalendar | convex/calendar/mutations.ts:40-49 | each inserted event names the argument calendar |
| CalendarMutations.SyncedCalendarEvents | convex/calendar/mutations.ts:69-86 | after a sync the calendar's events are exactly the inserted ones that name it |
| CalendarMutations.SyncedOtherEvents | convex/calendar/mutations.ts:69-86 | other calendars' events are kept as they were, in order, before any inserted event naming them |
| CalendarMutations.SyncReplacesCalendarEvents | convex/calendar/mutations.ts:69-86 | when every new event names the calendar, its events are exactly the new ones, in order, and other calendars gain nothing |
| CalendarMutations.UnderCalendarNamesIt | convex/calendar/mutations.ts:40-49 | every built event carries the argument calendar id |
| CalendarMutations.AddCalendar | convex/calendar/mutations.ts:4-22 | inserts the given fields, returns the new id |
| CalendarMutations.AddEvents | convex/calendar/mutations.ts:24-51 | one event per input under the calendar, ids in input order |
| CalendarMutations.SyncEvents | convex/calendar/mutations.ts:53-95 | delete, insert, then set lastSynced; a missing calendar rolls everything back |
| CalendarInternal.AsStored | convex/calendar/internal.ts:50-54 | an event stored exactly as given |
| CalendarInternal.InternalSyncExactIff | convex/calendar/internal.ts:84-97 | the calendar's events equal the new set exactly when all carry the argument calendar id |
| CalendarInternal.StrayEventExample | convex/calendar/internal.ts:84-97 | an event naming another calendar is stored under that calendar and not under the synced one |
| CalendarInternal.AddCalendar | convex/calendar/internal.ts:16-33 | stores the fields verbatim, lastSynced included |
| CalendarInternal.AddEvents | convex/calendar/internal.ts:35-55 | inserts every event as given, count kept |
| CalendarInternal.SyncEvents | convex/calendar/internal.ts:66-104 | delete, insert, then set lastSynced to the argument; a missing calendar rolls back |
| PageSidebar.CurrentDocId | components/workspace/PageSidebar.tsx:16 | the text after the last "/", with no "/" in it |
| PageSidebar.TrailingSlashGivesEmpty | components/workspace/PageSidebar.tsx:16 | a trailing slash gives "" |
| PageSidebar.LastSegment | components/workspace/PageSidebar.tsx:16 | whatever precedes it, a "/" followed by a segment without "/" yields that segment |
| PageSidebar.LinkGivesId | components/workspace/PageSidebar.tsx:16-68 | following a page's link gives back its id |
| PageSidebar.Favorites | components/workspace/PageSidebar.tsx:58-72 | exactly the favourite pages, all of them also listed |
| PageSidebar.FavoritesConcat | components/workspace/PageSidebar.tsx:58-60 | the favourites keep list order: the filter distributes over concatenation |
| PageSidebar.Highlighted | components/workspace/PageSidebar.tsx:64-68 | a highlighted link's id holds no "/" and is the path's final segment |
| PageSidebar.AtMostOneHighlighted | components/workspace/PageSidebar.tsx:64-68 | with distinct ids at most one link is highlighted |
| PageSidebar.SlashIdNeverHighlighted | components/workspace/PageSidebar.tsx:64-68 | an id holding "/" is never highlighted |
| PageSidebar.HandleNewPage | components/workspace/PageSidebar.tsx:23-32 | no request without a user; else an "Untitled" page for that user |
| Inbox.InboxStore.constructor | hooks/use-inbox.ts:11 | starts closed |
| Inbox.InboxStore.Open | hooks/use-inbox.ts:12 | open afterwards, whatever it was |
| Inbox.InboxStore.Close | hooks/use-inbox.ts:13 | closed afterwards, whatever it was |
| Inbox.InboxStore.Toggle | hooks/use-inbox.ts:14 | the state flips |
| DashboardHeader.Greeting | components/dashboard/DashboardHeader.tsx:9-14 | morning exactly before 12, afternoon exactly for 12..17, evening otherwise |
| DashboardHeader.GreetingBoundaries | components/dashboard/DashboardHeader.tsx:10-13 | 11 is morning, 12 afternoon, 17 afternoon, 18 evening |
| DashboardHeader.DisplayName | components/dashboard/DashboardHeader.tsx:17 | the first name when non-empty, else "there" |
| DashboardHeader.Heading | components/dashboard/DashboardHeader.tsx:22 | "{greeting}, {name}" |
| DashboardPageHeader.NameSuffix | components/dashboard/PageHeader.tsx:19 | ", firstName" only for a non-empty first name |
| DashboardPageHeader.Heading | components/dashboard/PageHeader.tsx:5-19 | greeting then suffix; never the initial welcome text |
| DashboardPageHeader.SameAsDashboardHeader | components/dashboard/PageHeader.tsx:8-19 | with a first name, the same heading as the dashboard header |

## Left out

- Network, LLM and upload I/O: the completion request, the AI service fetch, the iCal fetch and parse, and the upload POST are parameters or outcomes passed in.
- Locale and date formatting (`toLocaleString`, date-fns `format`, `isSameDay`, `getHours`, `getDay`) are parameters or plain integers; the mini-calendar grids are not part of this model.
- `toLowerCase` lowers only the ASCII letters A to Z; other case mappings are not modelled.
- CalendarGrid.Position and CalendarGrid.LayoutDay require every event to start no later than it ends: date-fns `areIntervalsOverlapping` throws a RangeError on an inverted interval, and that throw is not modelled.
- Message shapes: the roles of the incoming `messages` are taken to be only the three of the `ChatMessage` interface (app/api/chat/route.ts:9-13); the body is cast to that type without a check, so a turn with any other role, or with a non-string content, is not modelled.
- Floating point: the percentage strings of the week grid, star ratings and pixel arithmetic are not modelled; pixel positions are whole numbers.
- Convex platform behaviour is modelled, not reproduced: documents get ids from a counter instead of random strings, and a mutation that throws is rolled back as a whole.
- The wording of Convex's error for a patch of a missing document is a stand-in string (`ConvexDb.MissingDocument`).
- `take` of a negative or fractional limit is modelled as taking nothing or as an integer; fractional limits are not modelled.
- Index ordering: `by_user` orders by user id only, so results come in creation order (ascending) or its reverse; the events table in `convex/schema.ts` declares no `by_user` index and no `userId` field, and the model assumes both. The schema also makes `lastSynced` a required event field (convex/schema.ts:43), which the public `addEvents` and `syncEvents` never set; the model keeps `EventFields.lastSynced` optional so that those inserts are representable, and does not model the schema rejecting them.
- The `Promise.all` fan-out of inserts and deletes is modelled as a sequential loop.
- `convex/pages.ts`, `convex/blocks.ts`, `auth.config.ts`, the index-backfill error handling and the stray code in `types/block.ts` are not part of this model.
- DOM measurement (`calculateCursorPosition`, `getCaretCoordinates`) and all rendering and styling are not modelled; `alert` is a returned message.
- The aliasing between the request's `messages` array and the array rewritten in place is not modelled: the rewrite works on a copy.
- `handleChange` values of the wrong JavaScript type for a field are not modelled: each change carries a value of the field's type.
- `createPage` and `createDocument` after a new page are not executed: `PageSidebar.HandleNewPage` returns the request.
- CoverUpload.TypeErrorNamesAll: states that the error names `Subtype` of each allowed type; `CoverUpload.ClientSubtype` gives those values separately instead of a literal comparison of the whole text.
