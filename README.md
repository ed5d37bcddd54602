# GMML inventory — verified model of the decision and list logic

GMML inventory is a small inventory tracker: a Next.js front end over a
hosted Supabase database. Users sign in, see the items of the lab (name,
category, stock counts, storage location, status), search and filter
them, add, edit and delete them, and export them as CSV. An admin page
changes user roles. Three edge functions manage the location and category
tables and do the role changes on the server.

This project models the deterministic core of that system in Dafny.

- The **stock-status rules**: the team dashboard's ternary and the demo's
  `updateItemStatus`, and where they disagree.
- The **search-and-filter view** shared by the three dashboards. Each
  page's step-by-step filter chain is proved equal to one declarative
  reference view.
- The **local list maintenance** after a write:
  - sorted insert on the team dashboard;
  - prepend on the demo;
  - replace and remove by id;
  - the role replace on the admin page;
  - the extraction of the category and location filter options.
- The **three CSV encoders**:
  - the team dashboard doubles inner quotes, and every line reads back;
  - the signed-in dashboard wraps cells in quotes without escaping them
    (see Findings);
  - the demo does not quote at all.
- The **role gates**:
  - the admin page's self-demotion guard and its access gate;
  - the 401 / 403 / 400 decision logic of `manage-locations`,
    `manage-categories` and `set-user-role`, as methods on an in-memory
    store holding the profiles, items, locations and categories.
- The **small helpers**: the stats-card counts, `formatChanges` and
  `getActionColor` of the activity log, and the path helpers of
  `src/lib/config.ts`.

Each page is a class whose fields are the React state it updates. Each
handler is a method whose `ensures` gives the whole new state for every
branch: refusal, database error and success. The database, the clock and
the auth client are replaced by the replies a handler would receive. These
are method parameters: `Reply`, `WriteReply`, a `now` string and an
`Option<User>`.

Modules, one per source file, plus shared helpers:

- `Text`: lower-case fold, substring, join/split, decimal rendering.
- `Csv`: cell encoders, plus an RFC 4180-style record reader used as the
  reference decoder.
- `Sorting`: insertion sort by a string key.
- `Seqs`: subsequence and the first-occurrence de-duplication behind
  `[...new Set(xs)]`.
- `Inventory`: the records of `src/lib/supabase.ts`.
- `ItemFilter`, `ItemLists`.
- `TeamDashboard`, `DemoDashboard`, `Dashboard`, `Admin`, `Profiles`,
  `Backend`, `ActivityLog`, `Stats`, `Config`.

Behaviour of the code worth noting:

- There is no 'Expired' status. The status depends on the two stock
  counts only.
- The admin page offers three roles: admin, member and user. Only `admin`
  grants anything. The one other effect is on the team dashboard: role
  `user` hides a card's edit and delete buttons and greys the add button.
  A `user` can still open the add form and add items
  (`TeamDashboard.UserRoleCanAdd`).
- The team dashboard logs a delete after it succeeds, not before.
- `set-user-role` reads the JSON body before the authentication check, so
  a malformed body is a 400 even without a user.
- The server has no self-demotion check (`Backend.ServerAllowsSelfDemotion`).
- The signed-in dashboard's export wraps its text cells in quotes without
  doubling the quotes inside them. `Dashboard.Board.Export` returns that
  file as written; the escaped file is the corrected half of a finding.

## Model

| member | source | states |
|---|---|---|
| TeamDashboard.StockStatusCases | src/app/team-dashboard/page.tsx:148 | 'In Stock' iff stock > min; otherwise 'Out of Stock' iff stock is 0, 'Low Stock' otherwise; the result is always one of the three labels |
| TeamDashboard.StockStatusThresholds | src/app/team-dashboard/page.tsx:148 | with min ≥ 0: stock 0 is out of stock, 0 < stock ≤ min is low, stock == min > 0 is never in stock |
| TeamDashboard.AddRefusal | src/app/team-dashboard/page.tsx:129-138 | an add goes ahead iff someone with an id is signed in and name, category and location are non-empty; the login refusal comes first |
| TeamDashboard.UpdateRefusal | src/app/team-dashboard/page.tsx:188-197 | an update goes ahead iff an item is being edited, someone is signed in and its three required fields are non-empty |
| TeamDashboard.NewRow | src/app/team-dashboard/page.tsx:140-151 | the inserted row carries the form's fields, the creator/updater email, and the status its counts give, never a caller-supplied one |
| TeamDashboard.UpdatedRow | src/app/team-dashboard/page.tsx:199-210 | the written row is the edited item with only status (from its counts), updater and update time changed |
| TeamDashboard.UserRoleCanAdd | src/app/team-dashboard/page.tsx:587-589 | a signed-in profile with role 'user' is not blocked from adding, while its edit/delete buttons are hidden (line 763) |
| TeamDashboard.ExportCsv | src/app/team-dashboard/page.tsx:325-328 | no file iff the filtered view is empty |
| TeamDashboard.CsvLineRoundTrip | src/app/team-dashboard/page.tsx:333-337 | every data line, cells quoted with inner quotes doubled, reads back as exactly the item's nine values, whatever characters they hold |
| TeamDashboard.CsvLineSingle | src/app/team-dashboard/page.tsx:333-337 | a line has no line break when no value has one |
| TeamDashboard.ExportCsvLines | src/app/team-dashboard/page.tsx:312-338 | when the view is non-empty and no value holds a line break, the file splits into the header plus one line per filtered item, in order: 1 + \|filtered\| lines |
| TeamDashboard.Page.constructor | src/app/team-dashboard/page.tsx:14-39 | the initial state: loading, nobody signed in, empty lists, empty form, no filter |
| TeamDashboard.Page.FetchInitialData | src/app/team-dashboard/page.tsx:70-125 | no user clears the page; a missing profile or a failed query shows the prefixed error and keeps the items; otherwise items and view are the fetched rows |
| TeamDashboard.Page.RefreshView | src/app/team-dashboard/page.tsx:45-68 | after the filter effect the view is the reference view of the items under the current criteria |
| TeamDashboard.Page.AddItem | src/app/team-dashboard/page.tsx:127-180 | a refusal or a database error changes no list and no form; success makes items the sorted insert of the new row, resets and closes the form |
| TeamDashboard.Page.UpdateItem | src/app/team-dashboard/page.tsx:187-234 | a refusal or an error changes nothing; success replaces exactly the rows with the edited id and closes the form |
| TeamDashboard.Page.DeleteItem | src/app/team-dashboard/page.tsx:236-259 | no confirmation or no user changes nothing; success removes exactly the rows with that id |
| TeamDashboard.Page.ExportView | src/app/team-dashboard/page.tsx:312-351 | the file is the export of the current view; the "No data to export." toast iff there is no file, and "CSV exported successfully!" whenever there is one |
| ItemFilter.TeamFilter | src/app/team-dashboard/page.tsx:45-68 | the chain search → category → status → location equals the reference view |
| ItemFilter.DashboardFilter | src/components/InventoryDashboard.tsx:116-138 | the chain search → category → location → status equals the same reference view |
| ItemFilter.ViewIsSubsequence | src/app/team-dashboard/page.tsx:45-68 | the view is a subsequence of the items, in their original order |
| ItemFilter.ViewMembership | src/app/team-dashboard/page.tsx:48-65 | an item is in the view iff it is in the list and passes every filter that is on (lower-cased name contains the lower-cased term; category, status, location equal) |
| ItemFilter.ViewCounts | src/app/team-dashboard/page.tsx:45-68 | each matching item is kept exactly as often as it occurs, every other item not at all |
| ItemFilter.ViewNoFilter | src/app/team-dashboard/page.tsx:46-67 | with an empty search and every filter off the view is the whole list |
| ItemFilter.KeepNarrowsView | src/app/team-dashboard/page.tsx:55-65 | one more filter step on a view is the view with that filter turned on |
| ItemFilter.KeepCommutes | src/components/InventoryDashboard.tsx:119-135 | any two filter steps commute, so the order of the chain does not matter |
| ItemFilter.ViewCompose | src/app/team-dashboard/page.tsx:45-68 | filtering by one set of filters and then by another on other fields is filtering by both at once |
| ItemFilter.ViewIntersection | src/app/team-dashboard/page.tsx:45-68 | the predicates are ANDed: the combined view holds exactly what both views hold |
| ItemFilter.KeepCons | src/app/team-dashboard/page.tsx:50 | one filter step on a list with a head keeps the head iff it passes |
| ItemLists.SortedInsertSpec | src/app/team-dashboard/page.tsx:168 | after an add the list is sorted by name, grows by one, holds the new row and is a permutation of the old items plus the row |
| ItemLists.SortedInsertIntoSorted | src/app/team-dashboard/page.tsx:168 | on a list already sorted by name the sort is an insertion of the row |
| ItemLists.ReplaceById | src/app/team-dashboard/page.tsx:222 | same length; the rows with the id become the new row, every other row is unchanged |
| ItemLists.ReplaceByIdKeepsIds | src/components/InventoryDashboardDemo.tsx:238-240 | a replacement that keeps the id keeps every id, and repeating it changes nothing |
| ItemLists.ReplaceAbsentId | src/components/InventoryDashboardDemo.tsx:245-247 | a list without the id is unchanged |
| ItemLists.RemoveByIdCounts | src/app/team-dashboard/page.tsx:252 | after removal no row with the id remains and every other row occurs as often as before |
| ItemLists.RemoveByIdMembership | src/app/team-dashboard/page.tsx:252 | a row survives iff it was there and has another id |
| ItemLists.RemoveByIdIsSubsequence | src/components/InventoryDashboardDemo.tsx:277-282 | the survivors keep their order |
| ItemLists.RemoveByIdLength | src/app/team-dashboard/page.tsx:252 | the list shrinks by exactly the number of rows with the id |
| ItemLists.CategoryColumn | src/components/InventoryDashboard.tsx:91 | the column holds each item's category, in order |
| ItemLists.LocationColumn | src/components/InventoryDashboard.tsx:92 | the column holds each item's storage location, in order |
| ItemLists.DistinctCategories | src/components/InventoryDashboard.tsx:91-93 | no duplicates, and a value is listed iff some item has it as category |
| ItemLists.DistinctLocations | src/components/InventoryDashboardDemo.tsx:110-112 | no duplicates, and a value is listed iff some item has it as location |
| ItemLists.DistinctListsOrder | src/components/InventoryDashboardDemo.tsx:109-110 | both lists are in the order in which their values first occur among the items |
| DemoDashboard.DemoStatusCases | src/components/InventoryDashboardDemo.tsx:161-169 | out of stock iff stock 0; low iff stock ≠ 0 and ≤ min; in stock iff stock ≠ 0 and > min |
| DemoDashboard.StatusRulesAgree | src/components/InventoryDashboardDemo.tsx:161-169 | the demo rule and the team ternary differ iff stock is 0 and min < 0 (the ternary then says in stock); they always agree when min ≥ 0 |
| DemoDashboard.Actor | src/components/InventoryDashboardDemo.tsx:176-177 | the user's id when there is one, 'demo-user' otherwise; never empty |
| DemoDashboard.DemoDataConsistent | src/components/InventoryDashboardDemo.tsx:66-103 | the fallback category and location lists are exactly what extraction gives for the two demo rows |
| DemoDashboard.DemoRowsFollowRule | src/components/InventoryDashboardDemo.tsx:69-99 | each demo row's status is the one the demo rule gives its counts |
| DemoDashboard.WithStatus | src/components/InventoryDashboardDemo.tsx:173-178 | the added row's status comes from its counts and creator/updater from the actor, whatever the caller passed; nothing else changes |
| DemoDashboard.Restamped | src/components/InventoryDashboardDemo.tsx:224-229 | the updated row's status comes from its counts, with the actor and time stamped; nothing else changes |
| DemoDashboard.CsvLines | src/components/InventoryDashboardDemo.tsx:295-303 | each data line is the seven values joined by commas, unquoted |
| DemoDashboard.CsvLineFields | src/components/InventoryDashboardDemo.tsx:295-303 | a line without commas in its values splits back into exactly the seven values |
| DemoDashboard.PlainValues | src/components/InventoryDashboardDemo.tsx:298-299 | the rendered stock numbers hold no comma or line break |
| DemoDashboard.ExportCsvLines | src/components/InventoryDashboardDemo.tsx:292-304 | when no value holds a line break, the file is the header plus one line per element of the whole, unfiltered list |
| DemoDashboard.Demo.constructor | src/components/InventoryDashboardDemo.tsx:30-45 | the initial state: empty lists and no filter |
| DemoDashboard.Demo.FetchItems | src/components/InventoryDashboardDemo.tsx:58-117 | a failed query shows the two demo rows and their lists; otherwise the rows and the distinct categories and locations extracted from them |
| DemoDashboard.Demo.FilterItems | src/components/InventoryDashboardDemo.tsx:137-159 | the view is the reference view of the items |
| DemoDashboard.Demo.AddItem | src/components/InventoryDashboardDemo.tsx:171-202 | on both paths the new row is prepended with the status its counts give; a failed insert gets a 'demo-' id |
| DemoDashboard.Demo.UpdateItem | src/components/InventoryDashboardDemo.tsx:222-249 | on both paths exactly the rows with the id are replaced by the restamped row |
| DemoDashboard.Demo.DeleteItem | src/components/InventoryDashboardDemo.tsx:268-284 | on both paths exactly the rows with the id are removed |
| DemoDashboard.Demo.Export | src/components/InventoryDashboardDemo.tsx:291-313 | the file is built from the unfiltered items, and the toast is always 'Inventory exported to CSV' |
| Dashboard.HeaderSingle | src/components/InventoryDashboard.tsx:175-181 | the header line holds no line break |
| Dashboard.Cells | src/components/InventoryDashboard.tsx:182-190 | seven cells: the five text values quoted, the two numbers bare, all readable |
| Dashboard.CsvLineRoundTrip | src/components/InventoryDashboard.tsx:182-190 | with inner quotes doubled, every line reads back as the item's seven values |
| Dashboard.AsWrittenQuoteFree | src/components/InventoryDashboard.tsx:183-189 | when no text value holds a double quote the line as written equals the escaped one and reads back, commas in names included |
| Dashboard.AsWrittenQuoteBreaks | src/components/InventoryDashboard.tsx:183 | a name that is a single double quote makes the written line unreadable as a record |
| Dashboard.ExportAgreesQuoteFree | src/components/InventoryDashboard.tsx:180-191 | on a quote-free view the file as written equals the escaped one |
| Dashboard.AsWrittenSingle | src/components/InventoryDashboard.tsx:182-190 | the line as written has no line break when no value has one |
| Dashboard.ExportAsWrittenLines | src/components/InventoryDashboard.tsx:180-191 | when no value holds a line break, the file as written has 1 + \|filteredItems\| lines: the header, then one per item of the view, whatever quotes the values hold |
| Dashboard.CsvLineSingle | src/components/InventoryDashboard.tsx:182-190 | the corrected, escaped line has no line break when no value has one |
| Dashboard.ExportCsvLines | src/components/InventoryDashboard.tsx:180-191 | when no value holds a line break, the corrected, escaped file has 1 + \|filteredItems\| lines: the header, then one per item of the view |
| Dashboard.CsvLinesRoundTrip | src/components/InventoryDashboard.tsx:182-190 | each of those lines has seven fields, the item's values |
| Dashboard.Board.constructor | src/components/InventoryDashboard.tsx:27-42 | the initial state: empty lists and no filter |
| Dashboard.Board.FetchItems | src/components/InventoryDashboard.tsx:79-99 | a failed query keeps the state and shows the error; otherwise the rows, newest first as returned, with the distinct filter options |
| Dashboard.Board.FilterItems | src/components/InventoryDashboard.tsx:116-138 | the view is the reference view of the items |
| Dashboard.Board.HandleDelete | src/components/InventoryDashboard.tsx:154-172 | no confirmation or a failed delete changes nothing; a successful one shows the success toast and refetches the list, keeping the state and showing the fetch error when the refetch fails |
| Dashboard.Board.Export | src/components/InventoryDashboard.tsx:174-200 | the file as written from the filtered view, text cells quoted but not escaped; on a view without quotes it is the escaped file; the toast is always 'Inventory exported to CSV', even for an empty view |
| Admin.GuardPasses | src/app/admin/page.tsx:71 | the guard lets through a change of another user's role, or of one's own role to admin, and nothing else |
| Admin.GuardBehindDisabledSelector | src/app/admin/page.tsx:133 | a change the guard refuses can only come from the current user's own row, whose selector is disabled |
| Admin.Page.constructor | src/app/admin/page.tsx:11-14 | the initial state: loading, nobody signed in, no users |
| Admin.Page.FetchUserAndProfile | src/app/admin/page.tsx:17-67 | the table is shown iff a signed-in user's profile loads with role admin; otherwise the visitor is redirected, the list is not fetched and loading stays on; a signed-in user is recorded before the profile check |
| Admin.Page.HandleRoleChange | src/app/admin/page.tsx:69-88 | the edge function is called iff the change is not a self-demotion; a refusal or an error leaves the list unchanged; success sets the role on exactly the entries with that id |
| Profiles.RoleOf | supabase/functions/set-user-role/index.ts:35-41 | no role iff no profile has the id; a role found belongs to a profile with the id |
| Profiles.RoleOfUnique | supabase/functions/set-user-role/index.ts:35-39 | with unique ids the lookup finds the one profile with that id |
| Profiles.SetRole | src/app/admin/page.tsx:86 | same length, same ids and emails; exactly the entries with the id take the new role |
| Profiles.SetRoleEffect | supabase/functions/set-user-role/index.ts:57-60 | afterwards the id has the new role, when it exists; every other id keeps its role; ids stay unique |
| Profiles.SetRoleLookup | supabase/functions/set-user-role/index.ts:57-60 | a lookup after the change reads the new role for the changed id, when it exists, and the old role for any other id |
| Profiles.SetRoleIdempotent | src/app/admin/page.tsx:86 | setting the same role twice is setting it once |
| Profiles.SetRoleAbsent | supabase/functions/set-user-role/index.ts:57-60 | a role change for an id that no profile has changes nothing |
| Backend.ActionOf | supabase/functions/manage-locations/index.ts:11 | a missing or empty action parameter is 'list', any other is kept, so the action is never empty |
| Backend.Gate | supabase/functions/manage-locations/index.ts:19-44 | no user is 401 whatever follows; for a write a missing profile throws and any role but admin is 403; let through iff signed in and (no write or admin) |
| Backend.ProbeName | supabase/functions/manage-locations/index.ts:108 | the name of the row with the id, or the text 'undefined' when there is none |
| Backend.UpdateRef | supabase/functions/manage-locations/index.ts:86-91 | only the rows with the id get the new name and description; ids and creators stay |
| Backend.RemoveRefMembership | supabase/functions/manage-locations/index.ts:120-123 | a row survives a delete iff it has another id |
| Backend.RemoveRefUnique | supabase/functions/manage-categories/index.ts:120-123 | the delete keeps the ids unique and leaves no row with the id |
| Backend.UpdateRefUnique | supabase/functions/manage-categories/index.ts:86-91 | an update keeps the ids unique |
| Backend.Store.constructor | supabase/functions/manage-locations/index.ts:46-49 | a store over tables whose primary keys are unique |
| Backend.Store.SetTable | supabase/functions/manage-locations/index.ts:51 | writes the table of one kind and leaves the other |
| Backend.Store.Manage | supabase/functions/manage-locations/index.ts:9-144 | 401 with no change for no user; 403 iff a non-admin writes, with no change; list is 200 with the rows by name; create is 201 with one row appended with created_by the user; update changes only the row with the id and returns it, 200, with its new name and description; delete of a value in use is 400 and keeps the row, otherwise 200 and removes exactly that id; an unknown action or a thrown error is 400 |
| Backend.Store.Write | supabase/functions/manage-locations/index.ts:66-130 | create appends exactly the new row and returns 201, or throws on a taken id; update renames only the row with the id, returns that row as updated with 200, and throws when there is none; delete of a value in use is 400 and keeps the table, otherwise 200 and removes that id; never a 403; ids stay unique |
| Backend.Store.ManageLocations | supabase/functions/manage-locations/index.ts:4-145 | Manage's statuses and effects on the locations table, the in-use check reading storage_location: 401 for no user, 403 iff a non-admin writes, list sorted by name, create appends, update renames the one row and returns it with 200, delete of a location in use is 400 and keeps the row; categories untouched |
| Backend.Store.ManageCategories | supabase/functions/manage-categories/index.ts:4-145 | the same statuses and effects on the categories table, the in-use check reading category, the update returning the renamed row with 200; locations untouched |
| Backend.Store.SetUserRole | supabase/functions/set-user-role/index.ts:10-73 | a malformed body is 400 first; then 401 for no user and 403 iff a non-admin asks, with no change; an admin sets the role on exactly the profiles with that id and gets 200 |
| Backend.ServerAllowsSelfDemotion | supabase/functions/set-user-role/index.ts:35-60 | an admin passes the gate and can set their own role to 'user': the server does not refuse self-demotion |
| ActivityLog.ActionColorsDistinct | src/components/ActivityLogModal.tsx:26-37 | created, updated and deleted get three different classes, and every other action gets the grey default, which is none of them |
| ActivityLog.EmptySummaries | src/components/ActivityLogModal.tsx:40 | no changes give ''; an empty object gives '' too, having no entries to join |
| ActivityLog.CreatedWins | src/components/ActivityLogModal.tsx:42-44 | a truthy `created` gives 'Item created' whatever the other keys |
| ActivityLog.SingleFromTo | src/components/ActivityLogModal.tsx:47-48 | an entry whose value has `from` and `to` renders as `key: "from" → "to"` |
| ActivityLog.EntryAsWritten | src/components/ActivityLogModal.tsx:47-50 | rendering an entry throws iff its value is null |
| ActivityLog.Entry | src/components/ActivityLogModal.tsx:47-50 | every entry, from/to pair or not, begins with its key and `: ` (the arrow form itself is SingleFromTo's) |
| ActivityLog.EntryAgrees | src/components/ActivityLogModal.tsx:47-50 | on a non-null value the entry as written and the corrected entry are the same |
| ActivityLog.RenderAsWritten | src/components/ActivityLogModal.tsx:46-51 | the map throws iff some entry's value is null; otherwise one string per entry |
| ActivityLog.Render | src/components/ActivityLogModal.tsx:46-51 | one string per entry, each rendered as Entry does |
| ActivityLog.RenderAgrees | src/components/ActivityLogModal.tsx:46-51 | where the map does not throw it gives the corrected strings |
| ActivityLog.FormatChanges | src/components/ActivityLogModal.tsx:39-54 | the summary is '' exactly for falsy changes and for unmarked changes with no entries (the cases themselves are EmptySummaries, CreatedWins, SingleFromTo and FormatChangesAgrees) |
| ActivityLog.FormatChangesAgrees | src/components/ActivityLogModal.tsx:39-54 | where formatChanges as written returns, it returns the corrected summary; it throws iff the changes reach an entry whose value is null |
| ActivityLog.NullEntryThrows | src/components/ActivityLogModal.tsx:47 | changes `{name: "Tape", unit: null}` throw as written; the corrected summary is `name: "Tape", unit: null` |
| ActivityLog.Lookup | src/components/ActivityLogModal.tsx:42 | a value found belongs to a field with that key; no value iff no field has the key |
| ActivityLog.ArrayEntries | src/components/ActivityLogModal.tsx:46 | an array's entries are its elements keyed by their decimal indexes |
| ActivityLog.CharEntries | src/components/ActivityLogModal.tsx:46 | a string's entries are its characters keyed by their decimal indexes |
| Stats.Count | src/components/StatsCards.tsx:12-14 | a status count never exceeds the number of items |
| Stats.CountIsMultiplicity | src/components/StatsCards.tsx:12-14 | each count is the number of items with exactly that status (its multiplicity among the statuses) |
| Stats.CountExtremes | src/components/StatsCards.tsx:12-14 | the count is 0 iff no item has the status, and the total iff every item has it |
| Stats.StatsCards | src/components/StatsCards.tsx:11-14 | the total is the list length and each status count is at most the total |
| Stats.CountsCoverTotal | src/components/StatsCards.tsx:11-14 | in + low + out ≤ total, with equality iff every status is one of the three labels |
| Stats.Statuses | src/components/StatsCards.tsx:12-14 | the statuses of the items in order, the column the three counts filter |
| Config.BasePath | src/lib/config.ts:2-4 | a prefix exactly in production; a prefix starts with '/' and does not end with one (its value '/gmml-inventory' is FullPathShape's) |
| Config.RouterPath | src/lib/config.ts:7-10 | always starts with '/'; a path that already does is returned unchanged, any other gets exactly one '/' in front |
| Config.RouterPathIdempotent | src/lib/config.ts:9 | normalising twice is normalising once; the path is kept as a suffix and grows by at most one character |
| Config.FullPath | src/lib/config.ts:13-17 | the base path followed by the router-normalised path |
| Config.FullPathShape | src/lib/config.ts:13-17 | outside production the full path is the router path; in production it starts with '/gmml-inventory' followed by exactly one '/'; it always starts with '/' |
| Text.Lower | src/app/team-dashboard/page.tsx:51 | the lower-cased string has the same length and each character folded |
| Text.SplitJoin | src/app/team-dashboard/page.tsx:331-338 | joining lines that hold no separator and splitting again gives the lines back |
| Text.SplitJoinCount | src/components/InventoryDashboard.tsx:180-191 | so the number of pieces is the number of lines |
| Text.IntToString | src/components/InventoryDashboard.tsx:185-186 | a non-empty string of digits and a minus sign |
| Text.ParseNatToString | src/app/team-dashboard/page.tsx:335 | reading the rendered number gives the number back |
| Text.ParseIntToString | src/app/team-dashboard/page.tsx:335 | reading back String(n) gives n for every integer, negative counts included |
| Csv.DoubleQuotesNoQuote | src/app/team-dashboard/page.tsx:335 | doubling leaves a quote-free string unchanged |
| Csv.WrapIsQuoteWithoutQuotes | src/components/InventoryDashboard.tsx:183 | on a quote-free value, wrapping as written equals quoting with doubling |
| Csv.ScanQuotedDoubled | src/app/team-dashboard/page.tsx:335 | reading a doubled cell up to its closing quote gives the original text and the rest |
| Csv.ScanBareClean | src/components/InventoryDashboard.tsx:185-186 | a bare cell without commas reads back as itself |
| Csv.ParseFieldEncoded | src/app/team-dashboard/page.tsx:334-336 | an encoded readable cell reads back as its text |
| Csv.ParseEncodedRecord | src/app/team-dashboard/page.tsx:334-336 | a comma-joined record of readable cells reads back as their texts |
| Csv.QuotedCellRoundTrip | src/app/team-dashboard/page.tsx:335 | every string, quoted with doubling, reads back as itself |
| Csv.WrappedQuoteUnreadable | src/components/InventoryDashboard.tsx:183 | a lone double quote wrapped without doubling cannot be read back |
| Csv.UnescapedQuoteRecord | src/components/InventoryDashboard.tsx:183 | a record opening with an unescaped lone quote, followed by a quoted cell starting with an ordinary character, does not parse |
| Csv.JoinAvoids | src/app/team-dashboard/page.tsx:338 | a join of parts and a separator without a character does not hold it |
| Csv.DoubleQuotesAvoids | src/app/team-dashboard/page.tsx:335 | doubling quotes adds no other character |
| Csv.IntToStringPlain | src/components/InventoryDashboard.tsx:185-186 | a rendered number holds no comma or line break and does not start with a quote |
| Sorting.LexLeTotal | src/app/team-dashboard/page.tsx:168 | any two names are ordered one way or the other |
| Sorting.LexLeTransitive | src/app/team-dashboard/page.tsx:168 | the name order is transitive |
| Sorting.LexLeAntisymmetric | src/app/team-dashboard/page.tsx:168 | two names ordered both ways are equal |
| Sorting.InsertBy | src/app/team-dashboard/page.tsx:168 | insertion adds exactly the one element |
| Sorting.InsertKeepsSorted | src/app/team-dashboard/page.tsx:168 | inserting into a sorted list keeps it sorted |
| Sorting.SortBySorted | supabase/functions/manage-locations/index.ts:53-56 | the list rows come back sorted by name |
| Sorting.SortByPermutes | supabase/functions/manage-locations/index.ts:53-56 | and they are a permutation of the table |
| Sorting.InsertAtEnd | src/app/team-dashboard/page.tsx:168 | a row whose name sorts after every other goes at the end |
| Sorting.SortBySortedIsIdentity | src/app/team-dashboard/page.tsx:168 | sorting a sorted list gives it back |
| Seqs.IsSubseqRefl | src/app/team-dashboard/page.tsx:46 | a list is a subsequence of itself |
| Seqs.FirstIndexAppend | src/components/InventoryDashboard.tsx:91 | appending does not move a value's first occurrence |
| Seqs.Unique | src/components/InventoryDashboard.tsx:91-92 | no duplicates, and exactly the values of the input |
| Seqs.UniqueFirstOccurrenceOrder | src/components/InventoryDashboard.tsx:91-92 | the distinct values come in the order of their first occurrences |

## Left out

- Authentication flows (OAuth, session refresh, the login and test pages),
  routing and rendering are not modelled. The pages' `router.push` is
  modelled only as the admin page's `route` field.
- Toasts are results of the handlers; their display is not modelled.
- Activity-log writes and the activity-log queries are fire-and-forget I/O
  beside each mutation and are not modelled. The team dashboard's own log
  panel prints `JSON.stringify` of the changes and is not modelled either.
- Dates are opaque strings: `toLocaleDateString`, `toISOString` and
  `Date.now()` are stood for by the stored string or a `now`/`stamp`
  parameter.
- `localeCompare` and SQL `order by name` are modelled as lexicographic
  order on code points (Dafny characters), not on UTF-16 code units. Locale
  collation is not modelled.
- `toLowerCase` is modelled as an ASCII fold.
- JavaScript numbers are modelled as unbounded integers: no fractions, no
  precision loss.
- A request body that is not valid JSON is modelled as `None`.
- Database errors other than an id collision on insert or a missing row on
  `.single()` are not modelled. This covers network failure, constraint
  violations and row-level security. The exceptions the component
  dashboards catch ('Failed to add item' and the like) are not modelled
  either.
- CORS and the OPTIONS preflight of the edge functions are not modelled.
- Asynchrony is not modelled. Each handler runs to completion on the
  replies it is given. On the admin page `fetchAllUsers` is not awaited
  before `setLoading(false)`; the model merges the two steps.
- The `if (user)` effect that starts the dashboards' fetches is not
  modelled, nor is `handleSignOut`.
- TeamDashboard.Page.FetchInitialData: the toast always carries the
  error's message. The page uses `error.message` only when the thrown value
  is an `Error` instance and "An unknown error occurred." otherwise. The
  Supabase client that produces the error is not part of this model, so the
  model assumes its errors are `Error` instances.
- A JSON object is a list of fields; lookups take the first field with a
  key. A JavaScript object never has two fields with the same key, so this
  only matters for inputs that cannot occur. The fields keep their stored
  order, whereas `Object.entries` lists integer-like keys first in ascending
  order. A string's entries are its Dafny characters (Unicode scalar values),
  not UTF-16 code units. No log the application writes has integer-like keys
  or string-valued changes, so neither difference arises.
- `photo_url` and `created_at` are not fields of the item record: no
  modelled rule reads them.
- DemoDashboard.CsvLineFields: proved only for items without commas in
  their text values, because the demo line does no quoting and a comma in
  a name really does shift the fields.
- ActivityLog.FormatChanges: `String(x)` inside a template literal and
  `JSON.stringify` are parameters of the model, so their output is not
  modelled.

## Findings

| source | as written | input that shows it | evidently intended | confidence | as-written member | corrected member |
|---|---|---|---|---|---|---|
| src/components/InventoryDashboard.tsx:183-189 | text cells are wrapped in `"` but inner `"` are not doubled | an item whose name is `"` (one double quote) and whose category is `Tools`: the line starts `""","Tools",…` and a CSV reader takes the first pair as an escaped quote and runs past the comma | inner quotes doubled, as the team dashboard does at src/app/team-dashboard/page.tsx:335 and RFC 4180 section 2 rule 7 requires | not executed | Dashboard.AsWrittenQuoteBreaks | Dashboard.CsvLineRoundTrip |
| src/components/ActivityLogModal.tsx:47 | `typeof value === 'object'` holds for `null`, so the next check reads `null.from` and throws a TypeError, which breaks the log list | a 'created' log written by the team dashboard for an item added with an empty unit: its changes hold `unit: null` (src/app/team-dashboard/page.tsx:146, 178), and every dashboard that shows logs reads the shared activity_logs table | a null value rendered by `JSON.stringify` like every other non-pair value (`unit: null`) | not executed | ActivityLog.NullEntryThrows | ActivityLog.FormatChangesAgrees |
