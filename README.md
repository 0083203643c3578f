# Housing inventory search — a Dafny model

This is a model of the search-and-pagination core of a Next.js application.
The application browses a housing inventory held in two tables:

- `housing_universe` holds one row per project and period, called a *record*;
- `housing_units` holds the individual units.

The model covers the following parts:

- **Route handlers**: `GET /api/records`, `/api/units`, `/api/units/catalogs`,
  `/api/zones`, `/api/categories`, `/api/periods` and `/api/projects`. These
  validate their query parameters, build a filter, then count, order, page and
  enrich rows.
- **Client wrappers**: `searchRecords` (current and legacy) and
  `searchUnits`. They normalise `page` and `pageSize` and assemble the query
  string.
- **React hooks**: the search state (`useUnitsSearch` and both
  `useRecordsSearch`) and the detail caches (`useRecordDetails`, both versions,
  and `useUnitDetails`).
- **Supporting logic**: the `Pagination` component's arithmetic, the change
  detection and save payload of the project details page, `formatValue`, the
  registration form's validation chain, and the autocomplete's display text.

The tables are sequences of row datatypes (`Tables`). A failing database is an
`Option` that is `None`.

The route handlers that work step by step are methods, and the ones that only
compute a value are functions. Each method is proved against a relational
predicate such as `RecordsRoute.Answers`: the page is the parsed page, the
total counts the filtered rows, and the items are the page's slice of the
filtered rows, sorted. Lemmas then prove what the routes promise through that
predicate:

- the pages partition the matches;
- the items on different pages have different ids;
- the listing does not depend on the order rows are stored in;
- the catalogs are distinct, non-blank and sorted.

Each client wrapper is a method that builds the list of query-string pairs. A
lemma reads the pairs back the way the route handler does (`URLSearchParams.get`
is `ClientParams.Lookup`). It shows the server sees the page, page size and
filters the client meant to send.

Hooks are classes whose fields are the hook's state. An effect or callback is a
method. The awaited fetch is a parameter: an `Outcome`, which is either the
response or what was thrown. Each such method returns the request it would
make, or `None` when it makes none.

## Model

| member | source | states |
|---|---|---|
| RouteParams.TrimmedFilter | app/api/records/route.ts:25-31 | a zone/category/period filter is present exactly when the parameter is not blank, and then holds the trimmed, non-empty value |
| RouteParams.ReadPage | app/api/records/route.ts:38-44 | the page is at least 1: the parsed value when `parseInt` gives a positive integer, otherwise 1 |
| RouteParams.ReadPageSize | app/api/records/route.ts:46-56 | the page size lies in 1..50: a positive parsed value capped at 50, otherwise the route's default |
| RouteParams.PageRoundTrip | app/api/records/route.ts:38-44 | a page number written in decimal is read back as that same page |
| RouteParams.PageSizeRoundTrip | app/api/records/route.ts:46-56 | a page size in 1..50 written in decimal is read back unchanged, whatever the default |
| RecordsRoute.WhereFor | app/api/records/route.ts:21-77 | the filter always holds the trimmed non-empty project; zona, categoria and periodo are present exactly when their parameter is non-blank, trimmed |
| RecordsRoute.Matching | app/api/records/route.ts:60-77 | a row is counted exactly when it is in the table and satisfies every present filter field |
| RecordsRoute.UnitsOf | app/api/records/route.ts:121-126 | exactly the units with the record's project and period |
| RecordsRoute.AvailableUnitsOf | app/api/records/route.ts:129-135 | exactly the units with the record's project and period whose availability is "Disponible" |
| RecordsRoute.UnitCountsCountMatchingRows | app/api/records/route.ts:121-135 | each unit row is counted as often as it occurs when it has the record's project and period (and is "Disponible", for the available count), and not at all otherwise |
| RecordsRoute.Enrich | app/api/records/route.ts:118-143 | an item keeps its record's id, project, period, category and zone; `total_unidades` is the number of units with the record's project and period, `unidades_disponibles` the number of those that are "Disponible", and never more than the total |
| RecordsRoute.EnrichAll | app/api/records/route.ts:118-143 | one enriched item per listed record, in the same order |
| RecordsRoute.Get | app/api/records/route.ts:4-162 | a blank project gives 400 with its message; a failing database gives 500; otherwise the response echoes the normalised page and size, counts all matches, has ceil(total/size) pages, and holds the enriched slice of the matches sorted by (proyecto, id) |
| RecordsRoute.AnswersAreWellFormed | app/api/records/route.ts:84-152 | every response body has page ≥ 1, size in 1..50, totalPages = ceil(totalItems/size), and no more items than the size or the total |
| RecordsRoute.ProjectThenIdIsTotalOrder | app/api/records/route.ts:106-113 | ordering by project then id is total and transitive, and with unique ids it never ties two different rows |
| RecordsRoute.ListingMatches | app/api/records/route.ts:92-114 | every listed row is a row of the table that satisfies the filter |
| RecordsRoute.PageBounds | app/api/records/route.ts:84-105 | a page has at most `size` rows; there are no pages iff nothing matches; pages 1..totalPages are non-empty and any later page is empty |
| RecordsRoute.PagesCoverMatches | app/api/records/route.ts:84-114 | the sorted matches are a permutation of the matches, and pages 1..totalPages concatenate to them; two different pages never share a record id |
| RecordsRoute.SortedMatches | app/api/records/route.ts:84-114 | in listing order the matching rows are a reordering of the matching rows, sorted by project then id, with distinct ids |
| RecordsRoute.ListingsDisjoint | app/api/records/route.ts:84-114 | two different pages of one listing share no record id |
| RecordsRoute.ListingIndependentOfStorageOrder | app/api/records/route.ts:104-113 | two storage orders of the same table give the same count and the same page |
| UnitsRoute.ValidateRecordId | app/api/units/route.ts:18-31 | a blank recordId gives 400 "obligatorio"; one that does not parse to a positive integer gives 400 "número válido"; otherwise the parsed id, at least 1 |
| UnitsRoute.RecordIdRoundTrip | app/api/units/route.ts:25-31 | the decimal text of any positive id passes validation and parses back to that id |
| UnitsRoute.PeriodFilter | app/api/units/route.ts:71-75 | a non-empty period parameter is used as is; otherwise the record's period, and no period filter when that is empty too |
| UnitsRoute.UntrimmedFilter | app/api/units/route.ts:77-83 | use/availability filters are present exactly when the parameter is non-blank, and then hold the untrimmed value |
| UnitsRoute.BedroomsFilter | app/api/units/route.ts:85-90 | the bedroom filter is present exactly when the parameter is non-empty and parses to an integer, and then holds that integer |
| UnitsRoute.SortOrderFor | app/api/units/route.ts:15-106 | ascending id order exactly when `sort` is "old"; any other value, or none, gives descending id order |
| UnitsRoute.WhereFor | app/api/units/route.ts:66-90 | the filter carries the record's `cod_proyecto`, the period given or else the record's own, use and availability when non-blank, and the bedroom count when `parseInt` reads one |
| UnitsRoute.Matching | app/api/units/route.ts:66-93 | a unit is counted exactly when it is in the table and satisfies every present filter field |
| UnitsRoute.Get | app/api/units/route.ts:4-144 | 400/400 for a blank or invalid recordId before any storage access; 500 on database failure; 404 for an unknown record; otherwise the normalised page and size (default 10), the match count, ceil(total/size) pages, and the page's slice in the requested id order |
| UnitsRoute.BuildWhere | app/api/units/route.ts:67-91 | the filter object holds the record's project code, the period given or else the record's own, use and availability when non-blank, and the bedroom count when it parses |
| UnitsRoute.AnswersAreWellFormed | app/api/units/route.ts:93-136 | every response body has page ≥ 1, size in 1..50, totalPages = ceil(totalItems/size), and no more items than the size or the total |
| UnitsRoute.ListingMatches | app/api/units/route.ts:109-127 | every listed unit is a unit of the table that satisfies the filter |
| UnitsRoute.IdOrdersAreTotal | app/api/units/route.ts:100-106 | both id orders are total and transitive |
| UnitsRoute.IdAscAntisymmetric | app/api/units/route.ts:100-106 | with unique ids, ascending id order never ties two different units |
| UnitsRoute.ListingStrictlyOrdered | app/api/units/route.ts:100-127 | the ids on a page strictly increase for "old" and strictly decrease otherwise |
| UnitsRoute.OldIsReverseOfNew | app/api/units/route.ts:100-106 | the "old" ordering of the matches is exactly the reverse of the "new" ordering |
| UnitsRoute.PagesCoverMatches | app/api/units/route.ts:93-127 | the ordered matches are a permutation of the matches with unique ids, and pages 1..totalPages concatenate to them |
| UnitsCatalogsRoute.CatalogWhere | app/api/units/catalogs/route.ts:44-53 | the catalog filter carries the record's project code and the same period rule as the units route, and no use, availability or bedroom filter |
| UnitsCatalogsRoute.UseValues | app/api/units/catalogs/route.ts:66-70 | a use is collected exactly when some unit has it (not null) |
| UnitsCatalogsRoute.AvailabilityValues | app/api/units/catalogs/route.ts:74-78 | an availability is collected exactly when some unit has it (not null) |
| UnitsCatalogsRoute.BedroomValues | app/api/units/catalogs/route.ts:82-86 | a bedroom count is collected exactly when some unit has it (not null) |
| UnitsCatalogsRoute.DistinctAscending | app/api/units/catalogs/route.ts:82-88 | the bedroom catalog holds exactly the collected counts, each once, in strictly increasing numeric order |
| UnitsCatalogsRoute.Get | app/api/units/catalogs/route.ts:4-103 | the same 400/400/404/500 errors as the units route; otherwise uses and availabilities are catalogs (sorted, distinct, exactly the non-blank values of the matching units) and bedrooms are exactly their counts, strictly ascending |
| UnitsCatalogsRoute.OfferedUseSelectsUnits | app/api/units/catalogs/route.ts:44-72 | choosing an offered use on the units route for the same record and period never by itself gives an empty list |
| Catalogs.DistinctNonBlankSorted | app/api/zones/route.ts:22-39 | the database's distinct, then dropping blank values, then sorting, gives a catalog: sorted, without repeats, exactly the non-blank values |
| Catalogs.NonBlankDistinctSorted | app/api/units/catalogs/route.ts:66-80 | dropping blank values, then `new Set`, then sorting, gives a catalog of the values |
| Catalogs.CatalogUnique | app/api/units/catalogs/route.ts:66-80 | two catalogs of the same values are the same sequence |
| Catalogs.CatalogOrderIrrelevant | app/api/zones/route.ts:32-39 | de-duplicating before or after dropping blanks gives the same catalog |
| CatalogRoutes.ZoneValues | app/api/zones/route.ts:22-38 | a zone is collected exactly when some row of the named project has it (not null) |
| CatalogRoutes.CategoryValues | app/api/categories/route.ts:22-38 | a category is collected exactly when it is not empty and some row of the named project has it |
| CatalogRoutes.PeriodValues | app/api/periods/route.ts:22-38 | a period is collected exactly when it is not empty and some row of the named project has it |
| CatalogRoutes.Zones | app/api/zones/route.ts:4-52 | a blank project gives an empty list with no query; a failing database gives 500; otherwise the catalog of the trimmed project's zones |
| CatalogRoutes.Categories | app/api/categories/route.ts:4-52 | a blank project gives an empty list with no query; a failing database gives 500; otherwise the catalog of the trimmed project's categories |
| CatalogRoutes.Periods | app/api/periods/route.ts:4-52 | a blank project gives an empty list with no query; a failing database gives 500; otherwise the catalog of the trimmed project's periods |
| CatalogRoutes.ZonesAreTheProjectsZones | app/api/zones/route.ts:15-39 | a zone is offered iff it is not blank and some row of the trimmed project has it |
| CatalogRoutes.CategoriesAreTheProjectsCategories | app/api/categories/route.ts:15-39 | a category is offered iff it is not blank and some row of the trimmed project has it |
| CatalogRoutes.PeriodsAreTheProjectsPeriods | app/api/periods/route.ts:15-39 | a period is offered iff it is not blank and some row of the trimmed project has it |
| ProjectsRoute.SearchTerm | app/api/projects/route.ts:11 | the search term is empty exactly when `q` is absent or blank |
| ProjectsRoute.Matching | app/api/projects/route.ts:21-26 | a row is kept exactly when its name contains the term |
| ProjectsRoute.Select | app/api/projects/route.ts:27-32 | one option per row, carrying that row's proyecto, categoria, zona and estado |
| ProjectsRoute.Search | app/api/projects/route.ts:4-49 | a blank `q` gives an empty list with no query; a failing database gives 500; otherwise at most 20 options, each containing the term, in name order |
| ProjectsRoute.SelectedOptions | app/api/projects/route.ts:21-40 | the options built from the found rows are at most 20, each containing the term, in name order |
| ProjectsRoute.ByNameIsTotalPreorder | app/api/projects/route.ts:34-36 | name order is total and transitive |
| ProjectsRoute.FoundProperties | app/api/projects/route.ts:21-40 | at most 20 matching rows in name order; when at most 20 rows match, all of them are returned, repetitions included |
| ProjectsRoute.FoundKeepsFirstNames | app/api/projects/route.ts:33-36 | the cut at 20 keeps the first names: a matching row whose name sorts before the last returned name is returned |
| ClientParams.ClientPage | src/features/projects/api/records.api.ts:14-24 | the page sent is ≥ 1: max(1, n) for a number, a positive parsed value for text, 1 otherwise |
| ClientParams.ClientPageSize | src/features/projects/api/records.api.ts:26-36 | the page size sent is in 1..50: max(1, min(50, n)) for a number, a positive parsed value capped at 50 for text, the default otherwise |
| ClientParams.NormalizePage | src/features/units/api/units.api.ts:72-82 | the wrapper's page block computes `ClientPage` |
| ClientParams.NormalizePageSize | src/features/units/api/units.api.ts:84-94 | the wrapper's page-size block computes `ClientPageSize` |
| ClientParams.Lookup | src/features/projects/api/records.api.ts:38-54 | `get(key)` is absent exactly when no pair has the key, and otherwise is the value of a pair with that key |
| ClientParams.Optional | src/features/projects/api/records.api.ts:44-54 | an optional key is appended exactly when its value is a non-empty string, with that value |
| ClientParams.NonEmpty | src/features/projects/hooks/useRecordsSearch.ts:39-49 | a filter is put in the request exactly when it is non-empty, and then as given; the older hook does the same at src/hooks/useRecordsSearch.ts:34-40 |
| ClientParams.AppendOptional | src/features/projects/api/records.api.ts:44-54 | appending an optional key extends the query by exactly the pair `Optional` gives |
| ClientParams.LookupThree | src/features/projects/api/records.api.ts:38-42 | `get(key)` on the three fixed pairs gives the first pair with that key, or nothing |
| ClientParams.ServerReadsClientPage | src/features/projects/api/records.api.ts:14-42 | the server reads back exactly the page the client sent |
| ClientParams.ServerReadsClientPageSize | src/features/projects/api/records.api.ts:26-42 | the server reads back exactly the page size the client sent, whatever its own default |
| RecordsApi.SearchRecords | src/features/projects/api/records.api.ts:12-54 | the query is project, page and page size (normalised, default 5), then zone, category and period exactly when non-empty |
| RecordsApi.LookupSent | src/features/projects/api/records.api.ts:38-54 | reading a key back from a sent query gives project, page and page size as sent, and each filter only when it was appended |
| RecordsApi.ServerReadsWhatWasSent | src/features/projects/api/records.api.ts:38-56 | the records route reads the same project, page and page size, and each filter exactly when it was appended |
| UnitsApi.BedroomsText | src/features/units/api/units.api.ts:111-113 | a bedroom count, 0 included, is always sent, and its text parses back to the count |
| UnitsApi.SearchUnits | src/features/units/api/units.api.ts:70-116 | the query is recordId, page and page size (normalised, default 10), then period, use, availability, bedrooms and sort when present |
| UnitsApi.LookupSent | src/features/units/api/units.api.ts:96-116 | reading a key back from a sent query gives recordId, page and page size as sent, and each optional parameter only when it was appended |
| UnitsApi.ServerReadsWhatWasSent | src/features/units/api/units.api.ts:96-118 | the units route accepts the sent recordId and reads the same id, page, page size and bedroom count; it orders oldest first exactly when "old" was sent |
| LegacyRecordsApi.OrDefaultText | src/lib/api/records.api.ts:14-15 | the default for an absent, NaN, 0 or empty argument, and the argument's own text otherwise |
| LegacyRecordsApi.SearchRecords | src/lib/api/records.api.ts:11-24 | the query is project, page (default 1) and page size (default 20, not clamped), then zone and category exactly when non-empty |
| LegacyRecordsApi.LookupSent | src/lib/api/records.api.ts:12-24 | reading a key back from a sent query gives project, page and page size as sent, and zone and category only when they were appended |
| LegacyRecordsApi.ServerReadsLegacyQuery | src/lib/api/records.api.ts:11-26 | the route reads the project and never a period; a page ≥ 1 as sent and 1 otherwise; a page size ≥ 1 capped at 50, the route's 5 for a negative one, and 20 for a falsy one |
| Pagination.Render | src/shared/components/data/Pagination.tsx:18-57 | hidden iff totalPages ≤ 1; otherwise shows "Mostrando start – end", disables Previous iff page = 1 and Next iff page ≥ totalPages |
| Pagination.RangeMatchesPage | src/shared/components/data/Pagination.tsx:22-23 | on a valid page, 1 ≤ start ≤ end ≤ totalItems, and end − start + 1 is the number of items the route returns for that page, at most the page size |
| Pagination.ButtonsLeadToPages | src/shared/components/data/Pagination.tsx:35-57 | an enabled Previous leads to a page ≥ 1; Next is enabled exactly when the next page holds items |
| UnitsSearchHook.UnitsSearch.constructor | src/features/units/hooks/useUnitsSearch.ts:5-8 | no data, not loading, no error, page 1 |
| UnitsSearchHook.UnitsSearch.FiltersChanged | src/features/units/hooks/useUnitsSearch.ts:10-13 | a filter change resets the page to 1 and changes nothing else |
| UnitsSearchHook.UnitsSearch.Search | src/features/units/hooks/useUnitsSearch.ts:15-48 | null params clear the data and send nothing; otherwise the request is the params at the current page; success stores the response, failure sets the message and keeps the previous data; loading ends false |
| UnitsSearchHook.UnitsSearch.GoToPage | src/features/units/hooks/useUnitsSearch.ts:50-54 | the page changes only when data is loaded and 1 ≤ newPage ≤ totalPages; it never passes the last page |
| UnitsSearchHook.UnitsSearch.GoToPreviousPage | src/features/units/hooks/useUnitsSearch.ts:56-60 | the page decreases by one only when above 1, so it never drops below 1 |
| UnitsSearchHook.UnitsSearch.GoToNextPage | src/features/units/hooks/useUnitsSearch.ts:62-66 | the page increases by one only when data is loaded and the page is before the last |
| RecordsSearchHook.RequestReachesRoute | src/features/projects/hooks/useRecordsSearch.ts:33-51 | the route sees the selected project, the non-empty filters, and the hook's page and page size |
| RecordsSearchHook.RecordsSearch.constructor | src/features/projects/hooks/useRecordsSearch.ts:11-18 | no items, zero totals, page 1, page size 5, not loading, before the first render |
| RecordsSearchHook.RecordsSearch.PerformSearch | src/features/projects/hooks/useRecordsSearch.ts:20-67 | with no project, clears results, totals and error and sends nothing; otherwise sends the selection at the requested page; success takes page, size, items and totals from the response; failure sets the message, empties items and zeroes both totals; loading ends false |
| RecordsSearchHook.RecordsSearch.SelectionChanged | src/features/projects/hooks/useRecordsSearch.ts:69-87 | the first run only clears the initial-mount flag; later, no project clears the results, and a project resets to page 1 and searches page 1 |
| RecordsSearchHook.RecordsSearch.SetPageAndSearch | src/features/projects/hooks/useRecordsSearch.ts:89-94 | a no-op with no project; otherwise searches the new page |
| RecordsSearchHook.RecordsSearch.Refresh | src/features/projects/hooks/useRecordsSearch.ts:96-101 | with a project, searches the current page again; otherwise changes nothing |
| LegacyRecordsSearchHook.RequestReachesRoute | src/hooks/useRecordsSearch.ts:28-42 | the route sees the selected project, no period, and the hook's page and page size |
| LegacyRecordsSearchHook.LegacyRecordsSearch.constructor | src/hooks/useRecordsSearch.ts:10-16 | no items, page 1, page size 20, zero totals, not loading, no error |
| LegacyRecordsSearchHook.LegacyRecordsSearch.HandleSearch | src/hooks/useRecordsSearch.ts:18-56 | with no project, sets the "selecciona un proyecto" message and sends nothing; otherwise sends the current page and size; success takes everything from the response; failure sets the message and empties items but keeps both totals; loading ends false |
| ProjectDetails.DatePart | src/features/projects/pages/ProjectDetailsPage.tsx:53-54 | the compared part of a string is a prefix of at most 10 characters |
| ProjectDetails.UnchangedIffSame | src/features/projects/pages/ProjectDetailsPage.tsx:41-67 | a value compared with itself counts as changed only when it is the empty string |
| ProjectDetails.DatesCompareByDay | src/features/projects/pages/ProjectDetailsPage.tsx:50-58 | two strings whose first ten characters are YYYY-MM-DD differ iff those ten characters differ |
| ProjectDetails.NumberAgreesWithItsText | src/features/projects/pages/ProjectDetailsPage.tsx:60-63 | a number and its decimal text, in either order, are no change |
| ProjectDetails.TextIgnoresSurroundingSpace | src/features/projects/pages/ProjectDetailsPage.tsx:65-66 | two non-date texts that trim to the same non-empty text are no change |
| ProjectDetails.ChangesOf | src/features/projects/pages/ProjectDetailsPage.tsx:70-99 | the change set holds exactly the eight editable fields that compare as changed, each with its old and new value |
| ProjectDetails.DetectChanges | src/features/projects/pages/ProjectDetailsPage.tsx:70-99 | no original gives no changes; otherwise the loop computes `ChangesOf` |
| ProjectDetails.UntouchedEditHasNoChanges | src/features/projects/pages/ProjectDetailsPage.tsx:70-99 | saving an unedited record whose editable fields are not empty text reports no changes |
| ProjectDetails.Sent | src/features/projects/pages/ProjectDetailsPage.tsx:156-165 | the seven text/date/price fields never send an empty string, and any other value is sent unchanged |
| ProjectDetails.SavePayload | src/features/projects/pages/ProjectDetailsPage.tsx:147-170 | an update is sent iff the id is a positive integer and an original exists; it targets that id and holds exactly the editable fields present in the edit, each as `Sent` maps it |
| ProjectDetails.Collect | src/features/projects/pages/ProjectDetailsPage.tsx:155-165 | the update carries exactly the listed fields the edit holds, each as `Sent` maps it |
| ProjectDetails.RecordId | src/features/projects/pages/ProjectDetailsPage.tsx:148-149 | an id is accepted exactly when `parseInt` reads a positive integer from it, and the accepted id is that integer |
| ProjectDetails.ProjectEditor.constructor | src/features/projects/pages/ProjectDetailsPage.tsx:20-23 | not editing, no edited data, no original, no saved changes |
| ProjectDetails.ProjectEditor.Edit | src/features/projects/pages/ProjectDetailsPage.tsx:134-137 | enters edit mode and changes no data |
| ProjectDetails.ProjectEditor.EditingStarted | src/features/projects/pages/ProjectDetailsPage.tsx:33-38 | in edit mode with details loaded, both the original and the edited data become the details |
| ProjectDetails.ProjectEditor.FieldChanged | src/features/projects/pages/ProjectDetailsPage.tsx:172-177 | sets exactly the one field in the edited data |
| ProjectDetails.ProjectEditor.Cancel | src/features/projects/pages/ProjectDetailsPage.tsx:139-145 | leaves edit mode and discards the edited data, the original and the saved changes |
| ProjectDetails.ProjectEditor.Save | src/features/projects/pages/ProjectDetailsPage.tsx:147-170 | an update is issued iff the id is valid and an original exists, and then the saved changes are cleared |
| ProjectDetails.ProjectEditor.UpdateSucceeded | src/features/projects/pages/ProjectDetailsPage.tsx:101-128 | after a successful update with a valid id, the changes are recorded when there are any, the record is reloaded and edit mode ends |
| Formatters.DigitsAreNotBlank | src/lib/utils/formatters.ts:13 | the text of an integer is never blank |
| Formatters.FormatValue | src/lib/utils/formatters.ts:3-14 | null/undefined and blank strings give "N/A", booleans give "Sí"/"No", other strings are unchanged, numbers give their decimal text; the result is never blank |
| Formatters.NotAvailableOnlyForMissing | src/lib/utils/formatters.ts:3-14 | "N/A" is shown iff the value is missing, blank, or literally "N/A" |
| RegisterForm.IndexOf | app/login/components/RegisterForm.tsx:37 | the first position of a character that occurs |
| RegisterForm.CountAround | app/login/components/RegisterForm.tsx:37 | the '@' count splits around any '@' |
| RegisterForm.AcceptedMatchesRegex | app/login/components/RegisterForm.tsx:37-38 | an email the direct check `EmailAccepted` accepts matches `^[^\s@]+@[^\s@]+\.[^\s@]+$` |
| RegisterForm.RegexIsAccepted | app/login/components/RegisterForm.tsx:37-38 | an email matching the pattern is accepted by the direct check `EmailAccepted` |
| RegisterForm.OnlyAt | app/login/components/RegisterForm.tsx:37-38 | an '@' with no '@' or white space on either side is the first and the only '@' |
| RegisterForm.PlainAroundAt | app/login/components/RegisterForm.tsx:37-38 | an address made of two plain parts around an '@' holds no white space |
| RegisterForm.EmailAcceptedIffRegex | app/login/components/RegisterForm.tsx:37-38 | the check and the pattern agree on every string: one '@', no white space, a non-empty local part, and a dot in the domain that is neither first nor last |
| RegisterForm.FirstError | app/login/components/RegisterForm.tsx:21-56 | no error iff the username is not blank, the trimmed email matches the pattern, the password is not blank, has at least 6 characters, and equals the confirmation; otherwise the first failing check's message |
| RegisterForm.WeakPasswordsRefused | app/login/components/RegisterForm.tsx:43-51 | a white-space-only password, or one shorter than 6, is refused |
| RegisterForm.RegisterFormState.HandleSubmit | app/login/components/RegisterForm.tsx:21-64 | `onSubmit` is called iff every check passes, with trimmed username and email and the untrimmed password; otherwise the form shows the first error; a throwing `onSubmit` sets the generic failure message |
| ProjectAutocomplete.SharingFirstWord | src/hooks/useProjectAutocomplete.ts:14-17 | exactly the options whose name has the same first space-separated word |
| ProjectAutocomplete.Shorten | src/hooks/useProjectAutocomplete.ts:22-27 | text of at most 100 characters is kept; longer text becomes its first 100 characters and "..." |
| ProjectAutocomplete.DisplayText | src/hooks/useProjectAutocomplete.ts:13-29 | the display text is a prefix of the name, possibly followed by "...", and never longer than 103 characters |
| ProjectAutocomplete.DisplayTextHasAtMostFiveWords | src/hooks/useProjectAutocomplete.ts:14-22 | when another option shares the first word, the text has at most five words |
| ProjectAutocomplete.SharedNameShowsFirstWords | src/hooks/useProjectAutocomplete.ts:19-23 | when another option shares the first word, the text is the first min(5, n) words joined by spaces, cut at 100 characters with "..." when longer |
| ProjectAutocomplete.ShortFewWordNameUnchanged | src/hooks/useProjectAutocomplete.ts:19-23 | a name of at most five words and 100 characters is shown unchanged, whether or not its first word is shared |
| ProjectAutocomplete.ShortUniqueNameUnchanged | src/hooks/useProjectAutocomplete.ts:25-28 | a name of at most 100 characters whose first word no other option shares is shown unchanged |
| ProjectAutocomplete.AutocompleteState.QueryChanged | src/hooks/useProjectAutocomplete.ts:32-59 | a blank query empties the options and clears the error without searching; otherwise the query is searched and the options are the result, or empty with the failure message |
| DetailsCaches.RecordDetailsHook.LoadDetails | src/features/projects/hooks/useRecordDetails.ts:11-39 | a cached id is shown without fetching; otherwise a success shows and caches the record, a failure sets the message and clears the details; loading ends false, and no cache entry is removed or changed |
| DetailsCaches.UnitDetailsHook.LoadDetails | src/features/units/hooks/useUnitDetails.ts:14-39 | a cached unit is shown and the error cleared without fetching; on a miss a success caches and shows the unit, a failure sets the message and clears the details, and loading ends false |
| DetailsCaches.UnitDetailsHook.ClearCache | src/features/units/hooks/useUnitDetails.ts:41-44 | empties the shared cache and clears the details |
| DetailsCaches.SharedCacheServesOtherInstance | src/features/units/hooks/useUnitDetails.ts:5-20 | a unit loaded by one hook instance is served to another instance without a fetch |
| DetailsCaches.LegacyRecordDetailsHook.OpenDetails | src/hooks/useRecordDetails.ts:13-44 | selects the id and opens the modal; a cached id is shown without fetching; a success shows the record and adds it to the cache without changing other entries; a failure sets the message and clears the details |
| DetailsCaches.LegacyRecordDetailsHook.CloseModal | src/hooks/useRecordDetails.ts:46-51 | closes the modal and clears the selection and the error, keeping the details and the cache |
| DetailsCaches.ReopenIsServedFromCache | src/hooks/useRecordDetails.ts:13-51 | reopening a record after closing the modal shows it without fetching again |
| Paging.CeilDiv | app/api/records/route.ts:88 | `Math.ceil(n / d)`: the least q with n ≤ q·d, and it is 0 iff n is 0 |
| Paging.PagesPartition | app/api/records/route.ts:84-105 | pages 1..ceil(n/size) concatenated give back the whole sequence |
| Paging.PagesDisjoint | app/api/records/route.ts:84-105 | with unique keys, two different pages share no key |
| Numbers.ParseIntOfIntToString | app/api/records/route.ts:40 | `parseInt` reads back the decimal text of every integer |
| Text.Trim | app/api/records/route.ts:14-31 | the trimmed text is empty iff the text is blank, and otherwise starts and ends with a non-space character |
| Text.TrimDropsOnlyOuterSpace | app/api/records/route.ts:14-31 | the trimmed text is the piece of the text between a blank prefix and a blank suffix |
| Ordering.SortBy | app/api/records/route.ts:106-113 | ordering rows keeps exactly the same rows (a permutation) |
| Ordering.SortedUnique | app/api/records/route.ts:106-113 | under a total order without ties, there is only one sorted arrangement of a set of rows |

## Left out

- Prisma, the HTTP layer and `fetch` are not modelled as I/O. The database is a pair of row sequences passed in, or `None` when a call fails. A fetch result is an `Outcome` parameter: the response or the thrown value.
- The route handlers read one snapshot. The separate `count` and `findMany` calls are not modelled as running against a table that can change between them.
- The `Promise.all` over the per-record unit counts (app/api/records/route.ts:118-143) is modelled as a sequential map. Its concurrency is not modelled.
- The database's collation and the browser's `localeCompare` are modelled as lexicographic order on characters (`Ordering.LexLe`). No locale rules are modelled.
- `parseInt` is modelled for decimal integers only. It skips leading white space, reads an optional sign and the longest run of digits, and ignores the rest. Hexadecimal prefixes, "Infinity" and digits beyond double precision are not modelled.
- Numbers.NumberOf: JavaScript's `Number` is modelled for optionally signed decimal integer text only. Texts such as "100.0", "1e2" or "0x64", which `Number` reads as 100, are `NaN` in the model. So `compareValues(100, "100.0")` in src/features/projects/pages/ProjectDetailsPage.tsx:61-62 reports no change in the application, while `CompareValues(Num(100), Str("100.0"))` reports a change. In the application the number-against-text case does not arise: the price fields are text or `null`, and `unidades_disponibles` is a number on both sides.
- Numbers are integers throughout. Decimal prices, `NaN` (an explicit `NumArg.NaN` case excepted) and floating-point rounding are not modelled.
- Response fields that JSON might omit are always present. So `data.items || []` and `data.totalItems || 0` in the hooks reduce to the values themselves, and the response is required to be well formed (`WellFormed`, which every route response satisfies by `AnswersAreWellFormed`).
- RecordsSearchHook.RecordsSearch: `setPageSize` is exposed by the hook but never called in the application, so it is left out. The page is set only through `SetPageAndSearch`.
- LegacyRecordsSearchHook.LegacyRecordsSearch: the raw `setPage`/`setPageSize` setters are left out. They are plain field assignments.
- UnitsSearchHook.UnitsSearch.Search: the `cancelled` flag is not modelled. A search whose effect was cleaned up before it settled would leave the state untouched. The model settles every search it starts.
- The autocomplete's 300 ms debounce and `setTimeout` clean-up are not modelled. `QueryChanged` runs the search at once. The `isOpen` flag is left out because only the JSX sets it.
- The detail-page timers (the 8-second message reset) and `resetState` of the update hook are not modelled. `useUpdateRecord` is not part of this model.
- The thin fetch functions `getRecordDetails`, `updateRecordDetails`, `getUnitsCatalogs`, `getUnitDetails`, `updateUnit` and `searchProjects` are not modelled beyond their outcome. They only build a URL and throw on a non-OK status.
- The contents of record and unit details are a type parameter of the caches. Their fields are not modelled.
- Formatters.FormatValue: numbers are integers, so `String(value)` for fractions, `NaN` and objects is not modelled. `formatDate` is left out because it depends on the runtime's locale data.
- RegisterForm.RegisterFormState.HandleSubmit: `password.length` counts characters, not UTF-16 code units. Outside the Basic Multilingual Plane the two differ.
- ProjectAutocomplete.Shorten: the length test and the cut at 100 count characters (code points), while `length` and `substring(0, 100)` count UTF-16 code units. A name with characters outside the Basic Multilingual Plane is cut later than in the application, and the application can cut it between the two halves of a surrogate pair.
- ProjectAutocomplete.DisplayText: the bound of 103 and the kept prefix are in characters (code points), not UTF-16 code units, for the same reason.
- ProjectAutocomplete.ShortUniqueNameUnchanged: "at most 100" is in code points; a name of at most 100 code points but more than 100 UTF-16 code units is shortened by the application.
- ProjectAutocomplete.SharedNameShowsFirstWords: the cut at 100 is in code points, not UTF-16 code units, as for Shorten.
- ProjectAutocomplete.ShortFewWordNameUnchanged: "at most 100" is in code points, not UTF-16 code units, as for ShortUniqueNameUnchanged.
- ProjectsRoute.Search: `orderBy: { proyecto: "asc" }` leaves the order of rows sharing a name, and which of them survive `take: 20`, to the database; the model fixes both to storage order through a stable sort. FoundProperties and FoundKeepsFirstNames do not depend on that choice.
- React rendering, routing, the login stub, `localStorage` and the type-only modules are not modelled.
