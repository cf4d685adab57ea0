# AgroVisita: record store, dashboard statistics and list rules

AgroVisita is a record-keeping application for agronomic field visits. Producers
register their properties ("clientes"). Field technicians log visit reports
("visitas") with climate conditions, a diagnosis, recommendations and photos.

This Dafny project models the logic that sits under the application's pages:

- **Record store** (`storage.dfy`, module `Storage`). The browser store is a
  class `Store` with two sequence fields, `clientes` and `visitas`. Saving
  replaces the first record with the same id or appends the record. Deleting
  filters out every record with the id. `Store.Valid()` says that ids are
  unique within each collection: the constructor establishes it and every
  save and delete keeps it. Lookups by id, the per-client visit
  list and the case-insensitive visit search are functions over the stored
  sequences.
- **Dashboard statistics** (`Storage.ComputeDashboardStats`). This computes
  the visits of the current month, the distinct properties among them, the five
  leading crops and the five latest visits. The crop tally is a loop, like the
  `Map` filled in a `forEach` (`Storage.CountCulturas`). "Now" is a parameter.
- **Record shapes** (`types.dfy`, module `Types`). Clients, visits, climate,
  diagnosis, recommendations and the dashboard summary are datatypes. The
  string unions are closed enumerations, with their stored literals and the
  parse back from them.
- **Photo picker** (`photo_upload.dfy`, module `PhotoUpload`). It covers the
  capacity check on a whole selection, the per-file type and size filter, the
  append in selection order, and removal by index.
- **List pages** (`clientes_page.dfy`, `visitas_page.dfy`). Each page has its
  search filter: a query that is blank after trimming shows everything, and
  any other query is lower-cased but not trimmed. The visit page orders its
  list latest first. Each page also has delete-then-reload. Each page is a
  class holding the loaded list, the query and the list on screen.
- **Navigation bar** (`navbar.dfy`, module `Navbar`). It holds the `isActive`
  rule and the highlighting of the three tabs.

Two helper modules hold the JavaScript built-ins the code relies on:

- `text.dfy` has `startsWith`, `includes`, `toLowerCase` and `trim`.
- `seqs.dfy` has `filter`, `findIndex`/`find`, a stable descending sort
  followed by `slice(0, n)`, and the "replace the first match or push" update.

Dates are civil dates `(year, month, day)`. They are compared through
`Types.DateKey`, which orders well-formed dates as the calendar does
(`Types.DateKeyOrdersDates`).

The model follows the code in three places:

- The aggregation has no test for records with missing fields. In the model
  every field is present.
- Ties between equal crop counts or equal dates follow the code's stable sort
  over first-encounter order. They are not left unordered.
- The collections keep their stored order, and every view is stated in that
  order.

## Model

| member | source | states |
|---|---|---|
| Storage.Store.constructor | src/lib/storage.ts:10-14 | an empty store reads as two empty collections, with unique ids |
| Storage.Store.SaveCliente | src/lib/storage.ts:16-25 | the new client list is the old one with the first same-id client replaced, or the client appended; visits untouched; ids stay unique |
| Storage.Store.SaveVisita | src/lib/storage.ts:43-52 | the new visit list is the old one with the first same-id visit replaced, or the visit appended; clients untouched; ids stay unique |
| Storage.Store.DeleteCliente | src/lib/storage.ts:31-34 | the clients without that id, in order; no client with the id remains; visits untouched (orphans stay); ids stay unique |
| Storage.Store.DeleteVisita | src/lib/storage.ts:62-65 | the visits without that id, in order; no visit with the id remains; clients untouched; ids stay unique |
| Seqs.FirstIndex | src/lib/storage.ts:18 | `findIndex`: the first index whose key matches, or -1 exactly when none matches |
| Seqs.Find | src/lib/storage.ts:28 | `find`: none exactly when no element has the key, otherwise the first element that has it |
| Seqs.Upsert | src/lib/storage.ts:18-23 | the saved record is in the result; the length stays when its id was present and grows by one otherwise |
| Seqs.UpsertReplaces | src/lib/storage.ts:18-20 | saving an id already present keeps the length and changes only the first index with that id |
| Seqs.UpsertAppends | src/lib/storage.ts:21-22 | saving an id not present appends at the end, so the length grows by one |
| Seqs.UpsertThenFind | src/lib/storage.ts:18-29 | after saving x, finding x's id yields x |
| Seqs.UpsertKeepsOthers | src/lib/storage.ts:18-23 | after saving x, finding any other id yields what it yielded before |
| Seqs.Filter | src/lib/storage.ts:32 | `filter`: exactly the elements satisfying the predicate, never more than the input |
| Seqs.FilterMultiset | src/lib/storage.ts:77-80 | `filter` keeps every copy of a satisfying element and drops every copy of the others |
| Seqs.RemoveKey | src/lib/storage.ts:32 | the elements kept are exactly those without the key, as an order-preserving subsequence, each kept as often as it was stored |
| Seqs.UpsertKeepsUnique | src/lib/storage.ts:16-25 | saving into a collection with unique ids leaves the ids unique |
| Seqs.RemoveKeyKeepsUnique | src/lib/storage.ts:31-34 | deleting from a collection with unique ids leaves the ids unique |
| Seqs.FindUnique | src/lib/storage.ts:27-29 | with unique ids, `find` returns a record exactly when it is the one holding the id |
| Seqs.RemoveKeyIdempotent | src/lib/storage.ts:31-34 | deleting an id twice is deleting it once |
| Storage.GetClienteById | src/lib/storage.ts:27-29 | none exactly when no client has the id; otherwise the first client with it |
| Storage.GetVisitaById | src/lib/storage.ts:54-56 | none exactly when no visit has the id; otherwise the first visit with it |
| Storage.GetByIdUnique | src/lib/storage.ts:27-29 | in a store with unique ids, each lookup by id (also storage.ts:54-56) returns a record exactly when it is the one holding the id |
| Storage.SaveThenGet | src/lib/storage.ts:16-29 | after saving a client or visit, its lookup by id returns it |
| Storage.DeleteThenGet | src/lib/storage.ts:27-34 | after deleting an id, lookups by it find nothing, and deleting again changes nothing |
| Storage.GetVisitasByCliente | src/lib/storage.ts:58-60 | exactly the visits with that clienteId, in stored order, each as often as it was stored |
| Storage.VisitasMatching | src/lib/storage.ts:122-127 | exactly the visits whose four lower-cased fields contain the lower-cased query, in stored order, each as often as it was stored |
| Storage.SearchVisitas | src/lib/storage.ts:118-127 | the stored visits matching the lower-cased query in one of four fields, in order and with their multiplicities; the empty query returns every visit |
| Storage.MatchesVisita | src/lib/storage.ts:122-127 | the empty query matches every visit; a match needs one of the four fields at least as long as the query |
| Storage.VisitasDoMes | src/lib/storage.ts:77-80 | exactly the visits dated in the month and year of now, in stored order, each as often as it was stored |
| Storage.ClienteIds | src/lib/storage.ts:83-90 | the set holds every visit's client id and nothing that is not some visit's client id |
| Storage.ClienteIdsBound | src/lib/storage.ts:83-90 | the distinct client ids number at most the visits, and at least one when there is a visit |
| Storage.OccurrencesZeroIff | src/lib/storage.ts:93-97 | a crop's count is at most the number of visits, and zero exactly when no visit has that crop |
| Storage.CountCulturas | src/lib/storage.ts:93-97 | the loop builds the map's entries in insertion order (`Tally`), and they form a tally: distinct crops, one per visited crop, each holding its exact visit count, counts summing to the number of visits |
| Storage.TallyIsTally | src/lib/storage.ts:93-97 | the map's entries have distinct crops, one per visited crop, each with its exact visit count |
| Storage.TallyFirstEncounter | src/lib/storage.ts:93-100 | the map's entries come in the order their crops are first visited, which is the order `entries()` yields |
| Storage.TopCounts | src/lib/storage.ts:99-102 | every entry kept from the tally holds the exact number of visits to its crop, at least one |
| Storage.TopCoversMissing | src/lib/storage.ts:99-102 | a visited crop left out of the top list means five entries are kept, none with fewer visits than it |
| Storage.TopDistinct | src/lib/storage.ts:99-102 | the kept crops stay distinct after sorting and slicing |
| Storage.TopSum | src/lib/storage.ts:99-102 | the kept counts sum to no more than the whole tally |
| Seqs.SortDesc | src/lib/storage.ts:101 | the descending sort (also storage.ts:106 and visitas/page.tsx:39) keeps the length and is a permutation of its input |
| Seqs.SortDescSorted | src/lib/storage.ts:101 | the stable descending sort yields non-increasing keys |
| Seqs.TopN | src/lib/storage.ts:105-107 | sort a copy then slice: min(n, size) elements taken from the input, non-increasing, none left out with a larger key |
| Storage.ComputeDashboardStats | src/lib/storage.ts:68-115 | visits this month, distinct properties among them (no more than the visits), at most 5 distinct crops with exact counts in non-increasing order summing to at most the visits, min(5, visits) latest visits in date order; ties resolved as the stable sorts of the map's entries and of the visits resolve them |
| Storage.MarchMonthCounts | src/lib/storage.ts:72-90 | three March visits seen on 25 March give 3 visits this month and 2 properties |
| Storage.MarchCropCounts | src/lib/storage.ts:93-97 | in that case soy is counted twice and corn once |
| Storage.MarchLatest | src/lib/storage.ts:105-107 | in that case the latest visits are 20, 15 and 1 March in that order |
| Types.ParseTipoSistema | src/lib/types.ts:15 | a literal parses exactly when it is one of the nine cultivation-system literals |
| Types.TipoSistemaHasNineValues | src/lib/types.ts:15 | there are exactly nine cultivation systems with distinct literals |
| Types.ParseChuva | src/lib/types.ts:21 | rain is exactly one of sim, nao, garoa |
| Types.ParseVento | src/lib/types.ts:24 | wind is exactly one of fraco, moderado, forte |
| Types.ParseStatus | src/lib/types.ts:60 | a visit's status is exactly rascunho or concluida |
| Types.LiteralsRoundTrip | src/lib/types.ts:15-60 | every enumeration value read back from its literal is itself |
| Types.DateKeyOrdersDates | src/lib/storage.ts:106 | on well-formed dates the comparison key orders as the calendar does, and equal keys mean equal dates |
| Text.StartsWith | src/components/custom/navbar.tsx:12 | `startsWith` (also photo-upload.tsx:34) holds exactly when the prefix fits and agrees position by position |
| Text.Includes | src/lib/storage.ts:123-126 | the empty query is included in every string, and an included query is no longer than the string |
| Text.IncludesIff | src/lib/storage.ts:123-126 | `includes` holds exactly when the query starts at some position of the string |
| Text.AbsentCharExcludes | src/lib/storage.ts:123-126 | a string lacking one of the query's characters does not include the query |
| Text.Lower | src/lib/storage.ts:120 | `toLowerCase` keeps the length, maps each capital to its small letter (code point plus 32), keeps every other character, and leaves no capital |
| Text.LowerAddsNoSpace | src/app/clientes/page.tsx:23 | lower-casing introduces no space |
| Text.TrimStart | src/app/clientes/page.tsx:20 | drops exactly the leading whitespace |
| Text.TrimEnd | src/app/clientes/page.tsx:20 | drops exactly the trailing whitespace |
| Text.Trim | src/app/clientes/page.tsx:20 | the trimmed query is no longer, neither starts nor ends with whitespace, and is empty exactly when all its characters are whitespace |
| PhotoUpload.Admissible | src/components/custom/photo-upload.tsx:34-43 | a file is kept exactly when its type starts with `image/` and its size is at most 5 MiB |
| PhotoUpload.SizeLimitIsInclusive | src/components/custom/photo-upload.tsx:34-43 | an image of exactly 5 MiB is admitted, one byte more is not, a non-image is not |
| PhotoUpload.Encoded | src/components/custom/photo-upload.tsx:28-48 | the encodings added never outnumber the selected files |
| PhotoUpload.EncodedIsFilterThenMap | src/components/custom/photo-upload.tsx:30-48 | the new photos are the admissible files, in selection order, each encoded |
| PhotoUpload.SelectOutcome | src/components/custom/photo-upload.tsx:17-48 | nothing happens exactly when no files are given or the selection is empty; the list is updated exactly when files are given and they fit, and then it is the old photos followed by the admissible files, in order, each encoded, within maxPhotos |
| PhotoUpload.CapacityCountsSkippedFiles | src/components/custom/photo-upload.tsx:20-23 | the capacity test counts files that would be skipped: one image beside one PDF over two photos with a limit of 3 is refused |
| PhotoUpload.HandleFileSelect | src/components/custom/photo-upload.tsx:16-60 | the loop's result is the selection outcome: ignored, rejected, or old photos followed by the admitted encodings |
| PhotoUpload.RemovePhoto | src/components/custom/photo-upload.tsx:71-74 | drops exactly index i keeping order; an out-of-range index leaves the list as it was |
| PhotoUpload.EnabledAcceptsOneFile | src/components/custom/photo-upload.tsx:12-23 | with the add button enabled (line 96) a one-file selection is accepted; under the default limit of 10 the button is enabled exactly below ten photos |
| PhotoUpload.EnabledMeansRoom | src/components/custom/photo-upload.tsx:96 | the add button is enabled only when one more photo fits under maxPhotos |
| ClientesPage.MatchesCliente | src/app/clientes/page.tsx:26-29 | the empty query matches every client; a match needs one of the three fields at least as long as the query |
| ClientesPage.FilterClientes | src/app/clientes/page.tsx:19-33 | a blank-after-trim query lists every client; otherwise exactly the clients whose three lower-cased fields contain the untrimmed lower-cased query, each as often as it was loaded; always an order-preserving subsequence |
| ClientesPage.AbsentCharMatchesNoCliente | src/app/clientes/page.tsx:27-29 | a query character absent from the three fields means no match |
| ClientesPage.NothingMatchesListsNone | src/app/clientes/page.tsx:24-31 | a query no client matches lists nothing |
| ClientesPage.TrailingSpaceMatters | src/app/clientes/page.tsx:20-23 | the query is not trimmed: a word followed by a space lists nothing when no field holds a space |
| ClientesPage.DeletedNotListed | src/app/clientes/page.tsx:39-44 | once an id is deleted from the stored clients, no client listed after the reload has it, whatever the query |
| ClientesPage.Page.constructor | src/app/clientes/page.tsx:11-13 | the page starts with no clients, an empty query and an empty list |
| ClientesPage.Page.ApplySearch | src/app/clientes/page.tsx:19-33 | the list on screen becomes the filter of the loaded clients by the query |
| ClientesPage.Page.LoadClientes | src/app/clientes/page.tsx:35-37 | the loaded clients are the store's clients, and the list shown is refreshed |
| ClientesPage.Page.SetSearchQuery | src/app/clientes/page.tsx:12-33 | a new query re-runs the filter over the same clients |
| ClientesPage.Page.HandleDelete | src/app/clientes/page.tsx:39-44 | on confirmation the store drops the id and after the reload no listed client has it; otherwise nothing changes; the store keeps unique ids |
| VisitasPage.LatestFirst | src/app/visitas/page.tsx:36-40 | the loaded visits are a permutation of the stored ones, non-increasing by date |
| VisitasPage.FilterVisitas | src/app/visitas/page.tsx:19-34 | a blank-after-trim query lists every visit; otherwise exactly the visits matching the untrimmed lower-cased query, each as often as it was loaded; order kept, so a date-ordered list stays date-ordered |
| VisitasPage.FilterAgreesWithSearch | src/app/visitas/page.tsx:20-31 | on a query that is not blank the page shows exactly what the store's search returns |
| VisitasPage.AbsentCharMatchesNoVisita | src/app/visitas/page.tsx:27-30 | a query character absent from the four fields means no match |
| VisitasPage.NothingMatchesSearchesEmpty | src/lib/storage.ts:122-127 | a query no visit matches finds nothing |
| VisitasPage.BlankQueryDiffers | src/app/visitas/page.tsx:20-21 | on a query of spaces the page shows every visit while the store's search finds none when no field holds a space |
| VisitasPage.DeletedNotListed | src/app/visitas/page.tsx:43-48 | once an id is deleted from the stored visits, no visit listed after the latest-first reload has it, whatever the query |
| VisitasPage.Page.constructor | src/app/visitas/page.tsx:11-13 | the page starts with no visits, an empty query and an empty list |
| VisitasPage.Page.ApplySearch | src/app/visitas/page.tsx:19-34 | the list on screen becomes the filter of the loaded visits by the query |
| VisitasPage.Page.LoadVisitas | src/app/visitas/page.tsx:36-41 | the loaded visits are the store's visits latest first, and the list shown stays date-ordered |
| VisitasPage.Page.SetSearchQuery | src/app/visitas/page.tsx:12-34 | a new query re-runs the filter over the same visits and the list stays date-ordered |
| VisitasPage.Page.HandleDelete | src/app/visitas/page.tsx:43-48 | on confirmation the store drops the id and after the reload no listed visit has it; otherwise nothing changes; the store keeps unique ids |
| Navbar.IsActive | src/components/custom/navbar.tsx:10-13 | '/' is active exactly on '/'; any other path is active exactly when it is a prefix of the current path |
| Navbar.Highlighted | src/components/custom/navbar.tsx:30-54 | the dashboard tab is highlighted exactly on '/'; each other tab exactly when its path is a prefix of the current path |
| Navbar.DashboardTestIsRedundant | src/components/custom/navbar.tsx:30 | the dashboard link's extra `pathname === '/'` test is equivalent to isActive('/') |
| Navbar.SubRoutesHighlightSection | src/components/custom/navbar.tsx:42-54 | sub-routes such as /clientes/novo highlight their section's tab |
| Navbar.AtMostOneTab | src/components/custom/navbar.tsx:27-61 | whatever the path, at most one of the three tabs is highlighted |

## Left out

- Reading and writing browser local storage, JSON serialisation and the
  server-side `typeof window` guard. The store is the two sequences, and
  `getClientes`/`getVisitas` are reads of those fields.
- Parsing of the stored date strings, and time zones. A date-only string is
  parsed as UTC but read back in local time, which can move a visit to the
  neighbouring month. Dates here are civil dates, and the current instant is
  the parameter `now`.
- Storage.ComputeDashboardStats: does not take the client list, which the code
  reads and never uses.
- Text.Lower: lower-cases only the ASCII and Latin-1 capitals. JavaScript's
  `toLowerCase` maps every Unicode capital, including multi-character mappings.
- PhotoUpload.HandleFileSelect: does not model the `isUploading` flag, the
  alerts, the reset of the file input, or the asynchronous reading. A failed
  read sends the code to its error path, which keeps the photo list. Encoding
  is a total function parameter `encode`, so that failure path does not arise.
- Storage.Store: its methods are stated for a store whose ids are unique,
  the state the application itself keeps. Records written to local storage
  with duplicate ids by some other means are outside `Store.Valid()`; the
  lookup and list functions still accept any sequence.
- Confirmation dialogs are a boolean parameter of `HandleDelete`. Rendering,
  routing and Tailwind classes are not modelled.
- Float fields (area, coordinates, temperature, rain, humidity) are `real`,
  with no range invariant. The code enforces no range either; the bounds are
  only HTML input attributes.
- The visit form's backend insert and authentication are network I/O and are
  not part of this model. Id generation from the clock is not part of this
  model either.
- The numeric comparators of the sorts are modelled as integer keys
  (`CountOf`, `Types.DateKey`). JavaScript's sort has been stable since
  ECMAScript 2019, so the model's stable insertion sort gives exactly the
  order the code produces, with ties in first-encounter order.
