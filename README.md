# Product inventory: a verified model

This project models the core of a small product-inventory web application.

- **Back end.** A MongoDB collection of products holds a name, unit, category, brand, stock count, stock status and image. A second collection, the inventory history, records stock changes. A third holds user accounts.
- **HTTP routes.** They list, search and create products, import products from a CSV file, export them, and sign users up and in.
- **Middleware.** It guards the API behind an `auth-token` cookie.
- **Browser pages.** They paginate the product list, build the search URL, and validate the sign-up form.

The model replaces the database with one in-memory store, `Database.Store`. It has one sequence each for products, ledger entries and users, plus a write counter.

- The write counter stands in for the clock. `createdAt` and `changeDate` are readings of it.
- Every route becomes a method or function over that store.
- Every derived rule becomes a function with a lemma about it, for example:
  - the status hooks;
  - the CSV row checks;
  - the change classification of the history dialog;
  - the page arithmetic;
  - the gate decision.

Modules follow the source files:

| module | source file |
|---|---|
| `ProductModel` | db/models/Product.ts |
| `InventoryHistoryModel` | db/models/InventoryHistory.ts |
| `Database` | validators, unique index and inserts of the three collections |
| `ProductQuery` | `find(query).sort({createdAt: -1}).limit(n)` |
| `ProductsRoute` | app/api/products/route.ts |
| `SearchRoute` | app/api/products/search/route.ts |
| `CsvUtils` | app/lib/csv-utils.ts |
| `ImportRoute` | app/api/products/import/route.ts |
| `HistoryView` | app/components/inventory-history.tsx |
| `ProductsPage` | app/page.tsx |
| `Middleware` | middleware.ts |
| `AuthRoutes` | app/api/auth/signup/route.ts and app/api/auth/signin/route.ts |
| `SignUpPage` | app/signup/page.tsx |
| `Common`, `Strings` | JavaScript semantics the code relies on |

`Strings` covers:

- truthiness of fields;
- `String.prototype.trim` and its whitespace set;
- `String(n)`;
- `parseInt`, including its sign, `0x` prefix and longest-digit-prefix rules.

### Store semantics

Saving a product runs the steps Mongoose runs, in its order:

1. the `trim` setters and defaults, when the document is built;
2. the `required`/`min` validators;
3. the `pre('save')` status hook;
4. the unique index on `name`.

A refused save changes nothing. Mongoose casts the value of a query filter through the schema's setters, so `findOne({ name })` in the create route and the `category` condition of the list route both compare the trimmed value. The duplicate check and the unique index therefore look at the same trimmed name. A name that differs from a stored one only by surrounding whitespace gets the 409 answer, whose message still quotes the name as sent. Once that check passes, the save refuses a document only when a text field is blank after trimming or the stock is negative, and that answers 500 (`ProductsRoute.SaveRefusedOnlyForInvalidDocument`). The same casting applies to the values of an update's `$set`, so updated text fields are stored trimmed (`ProductModel.ApplyUpdate`).

## Model

| member | source | states |
|---|---|---|
| `Strings.Trim` | app/lib/csv-utils.ts:30 | the result is the slice of the input that starts right after its leading whitespace. Everything before and after the slice is JavaScript whitespace, and the slice neither starts nor ends with whitespace, so exactly the surrounding whitespace is removed |
| `Strings.TrimIdempotent` | db/models/Product.ts:16-36 | trimming an already trimmed value changes nothing, so the setters and the CSV transform compose |
| `Strings.TrimBlank` | app/lib/csv-utils.ts:30 | a cell made only of whitespace trims to the empty string, which the required checks then reject |
| `Strings.ParseIntOfIntToString` | app/lib/csv-utils.ts:54 | `parseInt(String(x))` gives back `x` for every integer (signs, zero, many digits) |
| `Strings.ParseIntOfPlusSigned` | app/lib/csv-utils.ts:54 | a leading '+' is accepted by `parseInt` and yields the unsigned value |
| `Strings.ParseAfterSign` | app/lib/csv-utils.ts:54 | after a leading '+' or '-', `parseInt` reads the magnitude of the rest and negates it after '-' |
| `Strings.ParseSignedDecimal` | app/lib/csv-utils.ts:54 | a sign followed by decimal digits parses to the signed numeral value |
| `Strings.JsParseInt` | app/lib/csv-utils.ts:54 | `parseInt` of blank text is NaN, and a negative result comes only from text whose first non-whitespace character is '-' |
| `Strings.JsParseIntNeedsDigit` | app/lib/csv-utils.ts:54 | `parseInt` gives a number only when a decimal digit follows the leading whitespace and the optional sign. It always gives one when that digit does not open a `0x` prefix |
| `ProductModel.StatusLabel` | db/models/Product.ts:43-47 | a status is written as exactly one of the two enum strings 'In Stock' and 'Out of Stock' |
| `ProductModel.DeriveStatus` | db/models/Product.ts:56-63 | the derived status is 'In Stock' exactly when stock > 0 |
| `ProductModel.ValidationIssues` | db/models/Product.ts:15-42 | each required text field is reported exactly when it is empty, stock exactly when below its minimum 0, and the document is valid iff none applies |
| `ProductModel.ProductDocument.constructor` | db/models/Product.ts:15-51 | text fields are stored trimmed; an absent stock, status or image takes the defaults 0, 'Out of Stock' and '' |
| `ProductModel.ProductDocument.PreSave` | db/models/Product.ts:56-63 | whatever status the caller supplied, afterwards the status is 'In Stock' iff stock > 0; no other field changes |
| `ProductModel.UpdateDocument.constructor` | db/models/Product.ts:65-66 | the update object holds exactly the fields given, each present or absent |
| `ProductModel.UpdateDocument.PreFindOneAndUpdate` | db/models/Product.ts:65-71 | an update with a stock gets its status overwritten from that stock; an update without one passes through unchanged; no other field changes |
| `ProductModel.ApplyUpdate` | db/models/Product.ts:65-71 | `$set` of an update, with values cast by the schema setters. A present name, unit, category or brand replaces the stored one trimmed, and a present stock, status or image replaces its field as sent. Absent fields keep their value, the id and creation time never change, and the update time is that of the write |
| `ProductModel.HookedUpdateKeepsStatus` | db/models/Product.ts:65-71 | after the hook, a stored product's status stays derived from its stock iff the update does not set a different status without a stock |
| `ProductModel.UpdateKeepsTextTrimmed` | db/models/Product.ts:16-36 | an update of the text fields keeps a well-formed product's text trimmed and leaves its stock and derived status alone; an empty update changes only the update time |
| `InventoryHistoryModel.BuildEntry` | db/models/InventoryHistory.ts:12-37 | an entry is built iff productId, oldQuantity and newQuantity are given, with an unbounded integer for each quantity; changeDate defaults to the time of the write, userId to 'system', userName to 'System' |
| `Database.FindUser` | app/api/auth/signin/route.ts:20 | `findOne({ email })`: a result is a stored account with exactly that email, and no result means no account has it |
| `Database.Store.SaveProduct` | db/models/Product.ts:15-63 | a save succeeds iff the validators pass and the trimmed name is not stored. It appends exactly the document with the status hook applied and a fresh id and time. A refused save changes nothing |
| `Database.Store.SaveHistory` | db/models/InventoryHistory.ts:12-37 | the ledger grows by exactly the entry the schema builds, or stays unchanged when a required field is missing |
| `Database.Store.SaveUser` | app/api/auth/signup/route.ts:37-43 | exactly one account is appended with a fresh id and the default role, keeping emails unique |
| `Database.Store.constructor` | db/index.ts:40-44 | the database the routes connect to starts valid and empty: no products, no history entries and no accounts, with the given role for new accounts |
| `ProductQuery.Filter` | app/api/products/route.ts:13-23 | exactly the stored products matching the query, none more often than stored |
| `ProductQuery.InsertByDate` | app/api/products/route.ts:23 | insertion into a newest-first list keeps it newest first and adds exactly the one product |
| `ProductQuery.SortNewestFirst` | app/api/products/route.ts:23 | `sort({ createdAt: -1 })`: a permutation of its input, newest first |
| `ProductQuery.Take` | app/api/products/search/route.ts:32 | `limit(n)`: the first min(n, length) results |
| `ProductQuery.FindUnlimited` | app/api/products/route.ts:23 | an unlimited query returns exactly the matching products, each as often as stored, newest first |
| `ProductQuery.TakeNewestFirst` | app/api/products/search/route.ts:30-32 | the first n of a newest-first list are newest first, and none of the rest is newer than any of them |
| `ProductQuery.FindLimited` | app/api/products/search/route.ts:30-32 | a limited query returns a newest-first prefix of the unlimited answer of at most n matching products, all of them when there are no more than n |
| `ProductQuery.FindLimitedOmitsOlder` | app/api/products/search/route.ts:30-32 | a matching product left out by the limit is no newer than any product returned |
| `ProductQuery.FindLimitedSelects` | app/api/products/search/route.ts:30-32 | the limited answer in terms of the stored products alone: only matches, at most n, newest first, all of them when fewer than n come back |
| `ProductQuery.Find` | app/api/products/search/route.ts:30-32 | `find(q).sort({ createdAt: -1 }).limit(n)`: newest first. Without a limit it holds exactly the matching products, each as often as stored. With one it holds at most n of them, none more often than stored |
| `ProductQuery.EmptyQueryMatchesAll` | app/api/products/search/route.ts:20-28 | a query with no condition selects every stored product, as the search with category 'all' alone does |
| `ProductsRoute.List` | app/api/products/route.ts:5-25 | `GET`: a product is listed iff it is stored, its name matches a truthy `name` case-insensitively, and its category equals the trimmed value of a truthy `category` other than 'all' (the filter value is cast through the `trim` setter). Newest first, none repeated beyond storage |
| `ProductsRoute.MissingFields` | app/api/products/route.ts:44-50 | the list of missing fields is empty exactly when name, unit, category and brand are all truthy |
| `ProductsRoute.MissingFieldsNamed` | app/api/products/route.ts:46-50 | each field is listed exactly when it is falsy |
| `ProductsRoute.MissingFieldsInOrder` | app/api/products/route.ts:46-50 | the missing fields appear in the order Name, Unit, Category, Brand |
| `ProductsRoute.CollectMissingFields` | app/api/products/route.ts:46-50 | the four conditional pushes build exactly the missing-field list |
| `ProductsRoute.CreatedProduct` | app/api/products/route.ts:66-74 | the product a create stores has trimmed text, the sent stock or 0 when it is absent, the sent image or '', status 'In Stock' iff stock > 0, and the creation time of the write |
| `ProductsRoute.InitialEntry` | app/api/products/route.ts:79-88 | the initial-stock entry records 0 → stock for the new product, by 'system'/'System', at the time of its write |
| `ProductsRoute.Create` | app/api/products/route.ts:35-98 | `POST` runs its checks in order. A falsy required field gives 400 naming the missing fields. A stored name equal to the trimmed sent name gives 409, with the name as sent in the message. A refused save gives 500 'Failed to create product'. Every failure writes nothing. A success stores exactly `CreatedProduct`, then exactly one `InitialEntry` when stock > 0 and none otherwise. Users are untouched |
| `ProductsRoute.Insert` | app/api/products/route.ts:66-92 | after the checks: save, then the ledger entry only for a positive stock; the 500 path writes nothing |
| `ProductsRoute.SaveNew` | app/api/products/route.ts:66-76 | `new Product({...}).save()` succeeds exactly when the validators and the unique index accept the defaulted document, and then stores `CreatedProduct` |
| `ProductsRoute.RecordInitialStock` | app/api/products/route.ts:79-90 | `historyEntry.save()` appends exactly one `InitialEntry` after the product's own write |
| `ProductsRoute.SaveRefusedOnlyForInvalidDocument` | app/api/products/route.ts:58-76 | once the 409 check on the trimmed name has passed, the save refuses the document exactly when a text field is blank after trimming or the stock is negative |
| `SearchRoute.Search` | app/api/products/search/route.ts:5-38 | 400 exactly when neither `name` nor `category` is truthy. Otherwise the answer holds case-insensitive matches on name and category, with category 'all' meaning no filter. It is newest first and holds at most 100 products, all of them when fewer come back, none newer than one left out. It echoes the parameters, and `totalResults` is its length |
| `CsvUtils.Absent` | app/lib/csv-utils.ts:41 | `filter(col => !headers.includes(col))`: exactly the columns not among the headers, in column order |
| `CsvUtils.MissingColumns` | app/lib/csv-utils.ts:38-41 | the required columns missing from the first row's keys, in required order |
| `CsvUtils.NoMissingColumns` | app/lib/csv-utils.ts:41-45 | the column check passes iff every required column is a key of the first row |
| `CsvUtils.NoRowsMissEveryColumn` | app/lib/csv-utils.ts:39-45 | with no data row, every required column is reported missing |
| `CsvUtils.Cell` | app/lib/csv-utils.ts:30 | a cell reads trimmed, and a column the row lacks reads as '' |
| `CsvUtils.RowProduct` | app/lib/csv-utils.ts:49-57 | the object a row is read into: its text fields and image are trimmed cells, a non-zero stock is what `parseInt` read from the stock cell, and the status is never empty and is the status cell whenever that is non-empty |
| `CsvUtils.StockValue` | app/lib/csv-utils.ts:54 | the cell parsed by `parseInt`, or 0: a non-zero result is what `parseInt` gave; non-numeric text and zero both give 0 |
| `CsvUtils.ValidateRow` | app/lib/csv-utils.ts:49-69 | a row passes iff name, unit, category and brand are non-empty and stock ≥ 0. A failing row is 'Missing required fields' exactly when a text field is empty, else 'Invalid stock value'. A passing row yields its read product |
| `CsvUtils.Outcomes` | app/lib/csv-utils.ts:47-73 | exactly one verdict per data row |
| `CsvUtils.Accepted` | app/lib/csv-utils.ts:69 | there are never more accepted products than rows |
| `CsvUtils.Rejections` | app/lib/csv-utils.ts:59-67 | every row is either accepted or has a message: the accepted products and the messages together number the rows |
| `CsvUtils.ValidRowIsClean` | app/lib/csv-utils.ts:59-69 | an accepted row has trimmed non-empty required text, a non-negative stock and a trimmed image |
| `CsvUtils.AcceptedStep` | app/lib/csv-utils.ts:69 | one more row adds its product to the accepted list exactly when it passes |
| `CsvUtils.RejectionsStep` | app/lib/csv-utils.ts:60-65 | one more row adds 'Row i+1: …' to the errors exactly when it fails |
| `CsvUtils.AcceptedAreValidRows` | app/lib/csv-utils.ts:47-73 | a product is accepted iff some row passes with it |
| `CsvUtils.RejectionsAreInvalidRows` | app/lib/csv-utils.ts:59-67 | an error is listed iff some row fails with it, and it names that row, counted from 1 |
| `CsvUtils.AcceptedKeepsOrder` | app/lib/csv-utils.ts:47-73 | acceptance distributes over concatenation, so input order is kept |
| `CsvUtils.AllRowsPass` | app/lib/csv-utils.ts:47-73 | when every row passes, all are accepted in order and no error is reported |
| `CsvUtils.AcceptedAreClean` | app/lib/csv-utils.ts:47-73 | every accepted product is clean |
| `CsvUtils.ParseOutcome` | app/lib/csv-utils.ts:19-79 | `skipped` is always empty. A reader throw, a reader error or a missing column each give exactly one error, with its message, and accept nothing. Otherwise each row is either accepted clean or rejected |
| `CsvUtils.ParseCsv` | app/lib/csv-utils.ts:19-79 | the early returns and the loop compute exactly `ParseOutcome` |
| `CsvUtils.ValidateRows` | app/lib/csv-utils.ts:47-73 | the `forEach` loop pushes exactly the accepted products and the row errors, in row order |
| `CsvUtils.ValidateNextRow` | app/lib/csv-utils.ts:59-69 | the `forEach` callback for one row extends the accepted products and the row errors to cover exactly one more row |
| `CsvUtils.ExportRecord` | app/lib/csv-utils.ts:82-90 | a record has exactly the columns name, unit, category, brand, stock, status, image in that order |
| `CsvUtils.GenerateCsv` | app/lib/csv-utils.ts:81-92 | one record per product, in product order |
| `CsvUtils.ExportRow` | app/lib/csv-utils.ts:82-90 | the record keyed by column has exactly the seven columns, each holding the record's value |
| `CsvUtils.ExportedStockCell` | app/lib/csv-utils.ts:87 | the stock cell of an export reads back as `String(stock)` |
| `CsvUtils.StockReadsBack` | app/lib/csv-utils.ts:54 | an exported non-negative stock is parsed back to itself |
| `CsvUtils.ExportedRowProduct` | app/lib/csv-utils.ts:49-57 | the exported record of a well-formed product is read into that product's own fields |
| `CsvUtils.ExportedRowValidates` | app/lib/csv-utils.ts:59-69 | the exported record of a well-formed product passes row validation |
| `CsvUtils.ExportedColumns` | app/lib/csv-utils.ts:38-45 | a non-empty export carries every required column; an empty one fails the column check |
| `CsvUtils.ExportedRowsAccepted` | app/lib/csv-utils.ts:47-73 | re-validating the records of well-formed products accepts them all, in order, and rejects none |
| `ImportRoute.Duplicates` | app/api/products/import/route.ts:48-52 | each skipped row is reported with reason 'Product name already exists' |
| `ImportRoute.NewProduct` | app/api/products/import/route.ts:56-64 | an imported row is stored with its fields, status 'In Stock' iff stock > 0, and the time of its write |
| `ImportRoute.Stored` | app/api/products/import/route.ts:56-67 | the products a batch appends, one per added row |
| `ImportRoute.PlanOf` | app/api/products/import/route.ts:43-75 | after n rows of the loop, each of them has been either added or skipped |
| `ImportRoute.ImportPlan` | app/api/products/import/route.ts:43-75 | every row of the batch is either added or skipped |
| `ImportRoute.Advance` | app/api/products/import/route.ts:45-53 | one more row goes to exactly one of the two lists, and to the added list exactly when its name is neither stored nor added earlier in the batch |
| `ImportRoute.AdvanceFreshNames` | app/api/products/import/route.ts:45-53 | one loop step keeps the added names new and pairwise distinct |
| `ImportRoute.PlanAddsFreshNames` | app/api/products/import/route.ts:45-67 | no added row's name was stored before, and no two added rows share a name |
| `ImportRoute.PlanAddsEachNewName` | app/api/products/import/route.ts:45-67 | a name is added iff some processed row has it and it was not stored before the batch |
| `ImportRoute.AdvanceSkipsOnlyTaken` | app/api/products/import/route.ts:45-53 | one loop step keeps the invariant that a skipped row's name was stored or added earlier |
| `ImportRoute.PlanSkipsTakenNames` | app/api/products/import/route.ts:45-53 | a skipped row's name was stored before the batch or added earlier in the same batch |
| `ImportRoute.ImportPlanNames` | app/api/products/import/route.ts:43-75 | the whole batch: the counts add up, the added names are new and distinct, and a name is added iff it is in the file and was not stored |
| `ImportRoute.NameTakenAfterBatch` | app/api/products/import/route.ts:45 | after the batch a name is stored iff it was before or the batch added it |
| `ImportRoute.ImportRow` | app/api/products/import/route.ts:44-74 | a row whose name is stored is reported as a duplicate and changes nothing; any other clean row is saved as exactly one new product |
| `ImportRoute.ImportStep` | app/api/products/import/route.ts:43-75 | one loop pass advances the store and the counters exactly as the batch plan does |
| `ImportRoute.ImportRows` | app/api/products/import/route.ts:37-75 | `added` and `skipped` are the plan's counts, summing to the number of rows. The duplicates are the skipped rows. The store grows by exactly the added products in row order, and the ledger and users are untouched |
| `ImportRoute.Import` | app/api/products/import/route.ts:6-80 | a missing file, a name not ending in '.csv' (case-sensitive) or a file with parse errors gives 400 with its message and writes nothing. Otherwise it imports by plan and writes no inventory-history entry |
| `HistoryView.GetChangeType` | app/components/inventory-history.tsx:66-71 | 'initial' iff old = 0 and new > 0, taking precedence over 'increase'. 'increase' iff new > old with old ≠ 0, 'decrease' iff new < old, 'no-change' iff equal. Exactly one label applies |
| `HistoryView.GetChangeAmount` | app/components/inventory-history.tsx:73-76 | the amount starts with '+' exactly for an increase and '-' exactly for a decrease, and is "0" when equal |
| `HistoryView.ChangeAmountReadsBack` | app/components/inventory-history.tsx:73-76 | the amount string is the decimal of new − old: `parseInt` reads it back to that difference |
| `HistoryView.ChangeTypeAgreesWithAmount` | app/components/inventory-history.tsx:66-76 | the sign of the amount and the change type agree |
| `ProductsPage.JsSlice` | app/page.tsx:148 | `slice(start, end)`: negative bounds count from the end, bounds clamp to the length, and the elements are those of the range |
| `ProductsPage.TotalPages` | app/page.tsx:149 | `Math.ceil(length / 10)`: 0 for an empty list, otherwise the least count of pages of ten covering the list |
| `ProductsPage.CurrentProducts` | app/page.tsx:146-148 | a page never shows more than ten products, and page p ≥ 1 shows, in order, the products from position (p−1)·10 on |
| `ProductsPage.PageContents` | app/page.tsx:146-148 | page p shows at most ten products: those at positions (p−1)·10 to min(p·10, length) |
| `ProductsPage.EveryProductOnItsPage` | app/page.tsx:146-149 | product k is on page k/10 + 1, within the page count, at position k mod 10 |
| `ProductsPage.PagesWithinCountAreFull` | app/page.tsx:146-149 | a page within the count is non-empty, and every page but the last holds ten |
| `ProductsPage.ShowingMatchesPage` | app/page.tsx:722 | "Showing a to b" lies within 1..length and counts exactly the products shown |
| `ProductsPage.DesktopWindow` | app/page.tsx:947-957 | the desktop controls hold `Math.min(5, totalPages)` numbers given by the four-way rule |
| `ProductsPage.DesktopWindowInRange` | app/page.tsx:947-957 | for a current page within the count, the window is consecutive, within 1..totalPages, and contains the current page |
| `ProductsPage.MobileRendered` | app/page.tsx:752-775 | exactly the candidate numbers within 1..totalPages are rendered, no more than the candidates |
| `ProductsPage.MobileWindow` | app/page.tsx:752-775 | the mobile controls render at most three page numbers, each within 1..totalPages |
| `ProductsPage.MobileWindowInRange` | app/page.tsx:752-775 | at most three numbers, all within 1..totalPages, including the current page when it is valid |
| `ProductsPage.EncodeChar` | app/page.tsx:108 | `encodeURIComponent` on one character: an unreserved character stays as it is, and any other becomes a non-empty text of '%' signs and unreserved characters |
| `ProductsPage.PercentByte` | app/page.tsx:108 | one byte is written as '%' and two uppercase hexadecimal digits whose value is the byte |
| `ProductsPage.PercentBytesEscape` | app/page.tsx:108 | a run of bytes is written as the run of their `%XX` escapes, byte k at position 3k |
| `ProductsPage.EncodeCharEscapes` | app/page.tsx:108 | a character that is not unreserved becomes one `%XX` escape per byte of its UTF-8 encoding, XX being the byte in two uppercase hexadecimal digits |
| `ProductsPage.Utf8` | app/page.tsx:108 | the UTF-8 encoding of a character has one to four bytes, and a character below 0x80 is its own single byte |
| `ProductsPage.EncodeUriComponent` | app/page.tsx:108-111 | the encoding is empty iff its input is, consists only of unreserved characters and escapes, and never contains '&' or '=' |
| `ProductsPage.BuildSearchUrl` | app/page.tsx:104-112 | the `+=` steps build exactly the search URL |
| `ProductsPage.SearchUrl` | app/page.tsx:104-112 | the URL begins with '/api/products/search?' and is that path alone exactly when there is no term and no category filter |
| `ProductsPage.SearchQuery` | app/page.tsx:104-112 | the URL is '/api/products/search?' followed by its query |
| `ProductsPage.BothParameters` | app/page.tsx:106-111 | with a term and a category other than 'all', the query splits at '&' into exactly the name and the category parameters |
| `ProductsPage.NameParameterOnly` | app/page.tsx:106-108 | with a term and no category filter there is only the name parameter and no '&' |
| `ProductsPage.CategoryParameterOnly` | app/page.tsx:110-111 | with only a category filter there is only the category parameter and no '&' |
| `ProductsPage.SearchUrlParameters` | app/page.tsx:104-112 | never a 'category=all', name only when non-empty, and '&' exactly when both are present |
| `ProductsPage.PageState.constructor` | app/page.tsx:34-45 | the initial state: no products, empty term, category 'all', page 1 |
| `ProductsPage.PageState.GoToPage` | app/page.tsx:151-153 | sets the page, and keeps the state valid exactly when the page is within 1..max(1, totalPages) |
| `ProductsPage.PageState.GoToNextPage` | app/page.tsx:155-159 | increments only when below totalPages, so the page stays within 1..max(1, totalPages) |
| `ProductsPage.PageState.GoToPreviousPage` | app/page.tsx:161-165 | decrements only when above 1, so the page stays within range |
| `ProductsPage.PageState.FilterEffect` | app/page.tsx:64-71 | with a term or a category other than 'all' it requests exactly the search URL; otherwise the filtered list becomes the full list and the page resets to 1 |
| `ProductsPage.PageState.SearchSucceeded` | app/page.tsx:118-119 | the search results become the filtered list, from page 1 |
| `ProductsPage.PageState.ClearSearch` | app/page.tsx:138-143 | clears the term, selects 'all', shows the full list from page 1 |
| `ProductsPage.PageState.ProductsFetched` | app/page.tsx:79-80 | a successful fetch replaces the full list and nothing else |
| `ProductsPage.PageState.SetSearchTerm` | app/page.tsx:488 | typing changes only the term |
| `ProductsPage.PageState.SetSelectedCategory` | app/page.tsx:516 | picking a category changes only the category |
| `ProductsPage.WindowTargetsAreValid` | app/page.tsx:947-968 | every page button of either window, and the first and last buttons, goes to a page within the count |
| `Middleware.Gate` | middleware.ts:4-28 | the four public paths and every non-`/api/` path pass. Any other `/api/` path without an `auth-token` cookie gets 401 'Authentication required', and nothing else is rejected |
| `Middleware.Route` | middleware.ts:30-34 | a path outside the `/api/:path*` matcher always passes. A request is rejected exactly when its path is under `/api/`, not public and without an `auth-token` cookie, and then with 401 'Authentication required' |
| `Middleware.MatcherAgreesWithGate` | middleware.ts:30-34 | the `/api/:path*` matcher changes no decision, and never applies to `/signin` or `/signup` |
| `Middleware.OnlyCookiePresenceMatters` | middleware.ts:17-25 | the decision depends only on whether the cookie is present, not on its value or other cookies |
| `Middleware.AuthEndpointsArePublic` | middleware.ts:8-13 | sign-in and sign-up are reachable without a token |
| `Middleware.ProtectedWithoutToken` | middleware.ts:16-24 | any other API path without the cookie is refused with 401 |
| `AuthRoutes.Public` | app/api/auth/signup/route.ts:54-59 | the public view of an account carries id, email, name and role |
| `AuthRoutes.Payload` | app/api/auth/signup/route.ts:45-50 | the token payload carries the id as a string, email, name and role |
| `AuthRoutes.SignUpRefusal` | app/api/auth/signup/route.ts:13-33 | the checks apply in the order presence (400), length ≥ 6 (400), uniqueness (409). There is no refusal exactly when all three pass |
| `AuthRoutes.SignUp` | app/api/auth/signup/route.ts:8-69 | a refusal writes nothing. A success appends exactly one account holding hash(password), and answers 201 with its public fields and token payload. Products and ledger are untouched |
| `AuthRoutes.SignIn` | app/api/auth/signin/route.ts:8-60 | a missing field gives 400. Success comes exactly when the email is found and the password compares true, answering 200 with that account's public fields and payload. Every other failure is 401 'Invalid email or password', and the user table is only read |
| `AuthRoutes.SignInFailuresAlike` | app/api/auth/signin/route.ts:20-34 | an unknown email and a wrong password get the identical response |
| `AuthRoutes.FindUserAfterAppend` | app/api/auth/signup/route.ts:27-43 | appending an account keeps earlier lookups and makes a new email findable at the appended account |
| `AuthRoutes.SignInAfterSignUp` | app/api/auth/signin/route.ts:20-51 | signing in with the credentials just signed up succeeds and reveals that account, given that compare accepts a password against its own hash |
| `AuthRoutes.ResponsesHideThePassword` | app/api/auth/signup/route.ts:45-60 | neither the response body nor the token depends on the stored password |
| `SignUpPage.WithFieldChangesOnlyThatField` | app/signup/page.tsx:26-31 | the named field takes the value and every other field keeps its value |
| `SignUpPage.ValidateForm` | app/signup/page.tsx:33-62 | the first failing check decides the message (empty field, short password, mismatch); the form passes iff all are filled, the password has ≥ 6 characters and the two passwords match |
| `SignUpPage.RequestBody` | app/signup/page.tsx:77-81 | the body carries name, email and password, and not the confirmation |
| `SignUpPage.ValidFormPassesServerChecks` | app/signup/page.tsx:33-81 | a form that passes the client checks can be refused by the route only as a 409 for a registered email, whatever its confirmation |
| `SignUpPage.SignUpForm.constructor` | app/signup/page.tsx:14-19 | the form opens with four empty fields |
| `SignUpPage.SignUpForm.HandleChange` | app/signup/page.tsx:26-31 | the field the input names takes its value; no other field changes |
| `SignUpPage.EmptyFormFails` | app/signup/page.tsx:34-41 | the freshly opened form fails with 'Please fill in all fields' |

## Left out

- Connection handling (db/index.ts) and every `await` are left out. The model is sequential and in memory, so concurrent requests and their check-then-write races are not modelled.
- The `try`/`catch` 500 paths for exceptions that the model cannot raise are left out. These are 'Failed to fetch products', 'Failed to search products', 'Failed to import products', 'Failed to create user' and 'Failed to sign in'. The create route's 500 for a refused save is modelled.
- The CSV text format (quoting, separators, empty lines) belongs to the CSV library. Parsing starts from the rows it produced, and `generateCSV` stops at the records before `Papa.unparse`, so no text-level round trip is claimed.
- `CsvUtils.ParseOutcome`: the per-row 'Invalid data format' catch is left out. Nothing in a row of strings can throw.
- `ImportRoute.ImportRow`: the import's 'Validation error' branch is kept in the code. A clean row with a fresh name never reaches it, so no contract mentions it.
- The 'Import completed' message of a successful import is not in the modelled response. It is a constant.
- The `$regex` values of the name and search filters are matched as sent, without the `trim` setter. Mongoose casts a `$regex` operand as a pattern, not as a field value.
- `ProductModel.ApplyUpdate`: Mongoose does not run update validators by default, so a `$set` that trims a text field to '' or sets a negative stock is stored as given. The model stores it too and does not promise that the result is well formed.
- MongoDB `$regex` is modelled as an ASCII case-insensitive substring match. Regular-expression metacharacters and non-ASCII case folding are not modelled.
- JavaScript numbers are unbounded integers. Floating-point stock values and `stock || 0` on a non-number body field are not modelled, and the create body's stock is an optional integer.
- JSON fields are optional strings: a field of another JSON type has no counterpart.
- Password lengths count Unicode scalar values, not UTF-16 code units.
- Password hashing, password comparison and token signing are functions passed as parameters. The signed token is its payload, and cookie options (`httpOnly`, `secure`, `maxAge`) are configuration, not logic.
- db/models/User.ts is not part of this model. The default role is a constant of the store, and no email normalisation is applied.
- `Date.now`/`new Date()` is the store's write counter, so `createdAt`, `updatedAt` and `changeDate` are counter readings.
- The update, delete, history and export routes are not modelled; the `findOneAndUpdate` hook and the `$set` it feeds are.
- app/api/auth/me, the auth context, the layout, the toast provider and the test page are plumbing and are not modelled.
- JSX rendering, toasts, `formatDate` (locale-dependent), blob downloads and `fetch` are not modelled. So are the category list built from the fetched products and the ellipses of the mobile controls.
- `SignUpPage.SignUpForm.HandleChange`: an input whose name is none of the four fields adds a key the form never reads. The model leaves the form unchanged in that case.
- The middleware's `NextResponse.next()` plumbing (headers, rewriting) is not modelled; the gate returns a decision.
