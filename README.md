# Budget navigator: a Dafny model of its ledger engine and offline cache

This project models the two parts of the budget PWA that have logic you can state:

- **The budget engine of `src/App.jsx`.** This is the page state plus its four handlers, modelled as the class `BudgetEngine.BudgetState`:
  - adding an entry from the form;
  - deleting entries by id;
  - adding a category;
  - setting a category limit.

  It also covers the views the page derives from that state:
  - the month's entries sorted by date;
  - the month's totals;
  - the per-category breakdown and the per-day expense series, both built by filling a `Map`;
  - the validity of the 80/10/10-style budget model;
  - the desired-income projection;
  - the limit bands and the over-limit row highlight;
  - the CSV export.
- **The cache policy of the service worker `public/sw.js`**, modelled as the class `SwCache.Worker`, whose fields are the origin's named caches. It covers:
  - the install handler, which precaches the app shell;
  - the activate handler, which purges every other cache and enables navigation preload;
  - the fetch handler: the request classifier in `SwRoutes` and the three response strategies.

## How the model reads the code

- **Amounts.** Amounts are `real`, so sums and divisions are exact.
- **Number and string conversions.**
  - `Number(text)` is a parameter `parse: string -> Option<real>`. `None` stands for NaN or an infinite result.
  - `toLowerCase` is a parameter `lower: char -> char`.
  - `dateBG` and `toFixed(2)` are the parameters `dateText` and `fixed2`.
  - The number-to-text conversion of a template literal is `show`.
  - `crypto.randomUUID()` is the `id` argument of `AddEntry`.
- **White space.** JavaScript white space (what `\s` matches and `trim` removes) is the ECMAScript WhiteSpace and LineTerminator set in `Text.IsSpace`.
- **React state.** React's setters become assignments to the fields of `BudgetState`. Each handler states its whole new state:
  - what changes;
  - that every other field is unchanged;
  - that the invariant `Valid()` is kept: category keys are unique, limits are not negative, and every entry has a date, a description and a positive amount.
- **`Map` accumulation.** `byCategory` and the per-day series fill a JavaScript `Map`. Here that is the method `Breakdown.Accumulate`, whose loops keep the key order and the running sums. The methods are proved against the specification function `KeyTotal` and the key order `AddNew`, which reproduces `Map` insertion order.
- **Service worker I/O.**
  - `fetch` is a given `FetchOutcome`: a response of any status, or a network failure.
  - The navigation preload is a given `Preload`: none, a response, or a failure.
  - `caches.open` creates a missing cache, empty and as the newest one. `caches.match` looks through the caches in creation order.
  - Each cache write is applied at once.
- **Sorting.**
  - Dates are ISO `YYYY-MM-DD` text, so `monthEntries` compares them as strings (`Ordering.LexLe`). For such dates that is the same order as `new Date(a) - new Date(b)`.
  - The per-day series uses `Array.prototype.sort()` with no comparator. For these ASCII date keys that is the same string order.
- **What `install` really does.** `install` calls `skipWaiting()` whatever happens (public/sw.js:17). The worker has no `message` listener, so the page's `SKIP_WAITING` post (src/App.jsx:73) is never handled. The model keeps only what the worker does: `Install` sets `skipWaitingCalled`, and nothing reacts to messages.

## Model

| member | source | states |
|---|---|---|
| Ledger.YmKey | src/App.jsx:40 | the key is the first seven characters of the date (the whole date when shorter), a prefix of it |
| Ledger.Select | src/App.jsx:138-139 | the filter is not longer than the ledger, and every entry it keeps matches the condition |
| Ledger.SelectMembers | src/App.jsx:138-139 | an entry is kept exactly when it is in the ledger and matches the condition |
| Ledger.MonthLabelOfKey | src/App.jsx:41-45 | for a key "Y-MM" whose month reads as k in 1..12, the label is the k-th Bulgarian month abbreviation, a space and the year |
| Ledger.SelectAppend | src/App.jsx:138-139 | filtering a concatenation is the concatenation of the filtered parts, so the filter keeps ledger order |
| Ledger.SelectCount | src/App.jsx:138-139 | the filter keeps every matching entry with its number of copies and drops every other entry |
| Ledger.SumPermutation | src/App.jsx:145-148 | the `reduce` sum of amounts does not depend on the order of the entries |
| Ledger.MonthEntries | src/App.jsx:136-142 | the month view holds exactly the entries whose `ymKey` is the month, as a permutation of the filtered ledger, sorted by date ascending |
| Ledger.MonthTotals | src/App.jsx:144-150 | net equals income minus expenses, and expenses equal fixed plus variable |
| Ledger.ExpensesSplitByGroup | src/App.jsx:145-148 | every expense is fixed or variable, so the expense total is the sum of the two group totals |
| Ledger.TotalsPermutation | src/App.jsx:144-150 | two orderings of the same entries have the same totals |
| Ledger.TotalsNonNegative | src/App.jsx:144-150 | with positive amounts, the expense, income, fixed and variable totals are at least 0 |
| Ledger.MonthTotalsIgnoreOrder | src/App.jsx:136-150 | the totals of the sorted month view are those of the month's entries in ledger order |
| Ledger.MarchTotals | src/App.jsx:136-150 | example: 500 fixed and 120 variable expenses plus 2000 income in March give 620 / 2000 / 1380 / 500 / 120 |
| Ordering.LexLeTotal | src/App.jsx:140 | any two dates are comparable in the string order |
| Ordering.LexLeTransitive | src/App.jsx:140 | the string order is transitive |
| Ordering.LexLeAntisymmetric | src/App.jsx:140 | two dates that are each at most the other are equal |
| Ordering.SortBy | src/App.jsx:140 | sorting returns a permutation of its input |
| Ordering.SortBySorted | src/App.jsx:140 | sorting returns a sequence ascending by the key |
| Breakdown.SeedKeys | src/App.jsx:153-154 | after `categories.forEach(set(key, 0))` the map's keys are the category keys in first-seen order, each at 0 |
| Breakdown.AddAmounts | src/App.jsx:155-157 | after the `forEach` over the expenses, new keys follow the seeded ones in first-seen order, and each key holds the sum of the amounts of the entries with that key (read with `get(k) \|\| 0`) |
| Breakdown.Accumulate | src/App.jsx:153-157 | seeding and then adding gives the key order `AddNew(AddNew([], seed), keys)` and the per-key totals |
| Breakdown.AddNewMembers | src/App.jsx:153-157 | the map's keys are exactly the seeded keys and the keys of the entries |
| Breakdown.AddNew | src/App.jsx:153-157 | `Map` insertion order: new keys are appended after the existing ones, and no key repeats when none repeated before |
| Breakdown.AddNewDistinct | src/App.jsx:154 | seeding with keys that do not repeat keeps them in their own order |
| Breakdown.KeyTotalAbsent | src/App.jsx:154-157 | a key that no entry carries keeps the value 0 |
| Breakdown.LabelFor | src/App.jsx:161 | the label is the first category with that key (its label, or the key when the label is empty), and the key itself when no category has it |
| Breakdown.CategoryBreakdown | src/App.jsx:152-163 | one row per key in `Map` order, holding the key, the total of the month's expenses under it and its label; the row values add up to `totals.exp` |
| Breakdown.BreakdownKeysLayout | src/App.jsx:152-163 | no key appears twice; the keys are exactly the category keys and the categories of the month's expenses; with unique category keys, those come first in category order |
| Breakdown.BreakdownRowValues | src/App.jsx:154-161 | a category with no expense in the month has value 0, and a row whose key is not a category is labelled with its key |
| Breakdown.TotalOverCovers | src/App.jsx:152-163 | values under distinct keys that cover every expense add up to the sum of all amounts |
| Breakdown.ExpenseShares | src/App.jsx:152-163 | the totals of distinct keys covering every expense of the month add up to the month's expense total |
| Breakdown.DailyDays | src/App.jsx:214-217 | the dates of the series are sorted ascending, do not repeat, and are exactly the dates that carry an expense |
| Breakdown.DailyExpenses | src/App.jsx:214-219 | the per-day series: dates ascending without repetition, exactly the days with an expense, each with that day's expense total; the values add up to `totals.exp` |
| Projection.ProjectedIncome | src/App.jsx:166-168 | a projection exists exactly when the three shares add up to 100 and none is negative, and it is then the desired income |
| Projection.Share | src/App.jsx:171-172 | each share is the percentage over 100, floored at 0.0001 |
| Projection.Need | src/App.jsx:174-176 | a candidate is 0 for a total that is not positive; otherwise the share of it covers the total |
| Projection.DesiredIncome | src/App.jsx:170-178 | the desired income is at least 0, and its fixed share, variable share and the two together cover their totals |
| Projection.CoversAbove | src/App.jsx:174-177 | an income at least each of the three candidates covers the three totals |
| Projection.DesiredIncomeIsLeast | src/App.jsx:170-178 | every income that covers the three totals is at least the desired income, so the result is the maximum of the three candidates |
| Projection.CoversSmaller | src/App.jsx:170-178 | an income that covers larger totals also covers smaller ones |
| Projection.DesiredIncomeMonotone | src/App.jsx:170-178 | the desired income does not decrease when any of the three totals grows |
| Projection.DesiredIncomeOfNothing | src/App.jsx:174-177 | with no positive total the desired income is 0 |
| Projection.DesiredIncomeExample | src/App.jsx:170-178 | with model 80/10/10 and totals 500 / 120 / 620 the desired income is 1200 |
| Projection.RatioThresholds | src/App.jsx:185-188 | with a positive limit, a ratio of at least 1 (or 0.8) means the amount used is at least the limit (or 0.8 of it) |
| Projection.Classify | src/App.jsx:185-188 | over exactly when the limit is positive and the amount used reaches it; near exactly when the limit is positive and the amount used is from 0.8 of the limit up to it; under otherwise |
| Projection.ClassifyBoundaries | src/App.jsx:185-188 | 80 of 100 is near, 79.99 is under, 100 of 100 is over, and any amount under a limit of 0 is under |
| Projection.LimitOf | src/App.jsx:183 | a category without a limit has limit 0 |
| Projection.StatusOf | src/App.jsx:182-189 | a status row keeps the breakdown row, uses its value, has ratio used/limit for a positive limit and 0 otherwise, and has the band `Classify` gives |
| Projection.LimitStatus | src/App.jsx:181-191 | one status row per breakdown row, in order |
| Projection.FirstValue | src/App.jsx:309 | the value of the first row with the key, and 0 when no row has it |
| Projection.HighlightReadsRow | src/App.jsx:309 | on breakdown rows, looking a row's key up finds that row's value, since the keys do not repeat |
| Projection.HighlightedIsOver | src/App.jsx:306-311 | a highlighted row is in the over band |
| Projection.AtLimitOverButNotHighlighted | src/App.jsx:306-311 | a category used exactly up to its positive limit is over in the status but not highlighted |
| BudgetEngine.ParseAmount | src/App.jsx:241 | a text without a comma goes to `Number` unchanged |
| BudgetEngine.OnlyFirstComma | src/App.jsx:241 | "1,000,50" is read as "1.000,50": only the first comma is replaced |
| BudgetEngine.IncomeCategory | src/App.jsx:247 | an income category is never empty and has no white space at either end |
| BudgetEngine.IncomeCategoryText | src/App.jsx:247 | a blank category text gives "Приход", and any other gives the trimmed text |
| BudgetEngine.MakeEntry | src/App.jsx:243-248 | the new entry has the id, date, description and amount; an expense takes the form's group and category, and an income takes `IncomeCategory` of its text |
| BudgetEngine.ClearedForm | src/App.jsx:250 | the form clears description, amount and income text, and keeps date, type, group and category |
| BudgetEngine.BudgetState.constructor | src/App.jsx:104-127 | start-up state: empty ledger, the default categories, no limits, model 80/10/10, an expense form dated today with the first default category |
| BudgetEngine.BudgetState.AddEntry | src/App.jsx:240-251 | adds exactly when description and date are non-empty and the amount reads as a number above 0; it then puts one entry in front of the unchanged ledger and clears the form, and otherwise changes nothing; ids stay unique for a fresh id |
| BudgetEngine.BudgetState.Prepend | src/App.jsx:249 | the entry goes in front of the ledger and nothing else changes; validity is kept, and so are unique ids when the entry's id is fresh |
| BudgetEngine.UniqueIdsPrepend | src/App.jsx:243-249 | an entry with a fresh id put in front keeps the ids unique |
| BudgetEngine.WellFormedPrepend | src/App.jsx:242-250 | an entry with a date, a description and a positive amount put in front keeps every entry well formed |
| BudgetEngine.WithoutId | src/App.jsx:254 | every kept entry comes from the ledger and has another id |
| BudgetEngine.WithoutIdCount | src/App.jsx:254 | every entry with that id goes, and every other entry keeps its number of copies |
| BudgetEngine.WithoutIdAppend | src/App.jsx:254 | the deletion works piece by piece, so the kept entries keep their order |
| BudgetEngine.WithoutIdAbsent | src/App.jsx:254 | deleting an id that no entry has changes nothing |
| BudgetEngine.WithoutIdIdempotent | src/App.jsx:254 | deleting the same id twice is deleting it once |
| BudgetEngine.BudgetState.DeleteEntry | src/App.jsx:253-255 | the ledger becomes `WithoutId` of the old one, and every other field is unchanged |
| BudgetEngine.DeleteEveryId | src/App.jsx:253-255 | deleting every id of the ledger in turn empties it |
| BudgetEngine.CategoryKeyShape | src/App.jsx:258-259 | a derived key contains no white space, and it is empty exactly when the label is all white space |
| BudgetEngine.BudgetState.Append | src/App.jsx:261 | the category goes at the end and nothing else changes; with a new key, category keys stay unique and validity is kept |
| BudgetEngine.BudgetState.AddCategory | src/App.jsx:257-262 | adds `{key, label as typed}` at the end exactly when the derived key is non-empty and new, and otherwise changes nothing; category keys stay unique |
| BudgetEngine.LimitValue | src/App.jsx:302 | the stored limit is never negative: the value read when it is a finite positive number, and 0 otherwise |
| BudgetEngine.BudgetState.SetLimit | src/App.jsx:301-304 | only the limit of that category changes, to `LimitValue` of the text; the other limits and the model are kept |
| Text.TrimStart | src/App.jsx:247 | removes a white-space prefix, and what is left does not start with white space |
| Text.TrimEnd | src/App.jsx:247 | removes a white-space suffix, and what is left does not end with white space |
| Text.TrimShape | src/App.jsx:258 | `trim` cuts a white-space prefix and a white-space suffix off its input |
| Text.TrimEdges | src/App.jsx:247 | a trimmed text has no white space at either end, and it is empty exactly for an all-white-space input |
| Text.ReplaceSpaceRuns | src/App.jsx:258 | after `replace(/\s+/g, "_")` no white space is left, the text is not longer, and it is empty only for empty input |
| Text.ReplaceSpaceRunsRun | src/App.jsx:258 | a maximal white-space run between non-space neighbours becomes one '_', and the text on each side of it is replaced on its own |
| Text.ReplaceSpaceRunsNoSpace | src/App.jsx:258 | a text without white space is left unchanged |
| Text.ReplaceFirst | src/App.jsx:241 | the first occurrence of the character, and only it, is replaced; a text without it is left unchanged |
| Text.SplitJoin | src/App.jsx:42 | joining the pieces of a split with the separator gives the text back |
| Text.SplitAt | src/App.jsx:42 | splitting "a-b", with no '-' in a, gives a first and then the split of b |
| CsvExport.EscBody | src/App.jsx:268 | doubling quotes never shortens a text and leaves a text without quotes unchanged |
| CsvExport.Esc | src/App.jsx:268 | an escaped field starts and ends with a quote |
| CsvExport.ReadQuotedEsc | src/App.jsx:268 | reading the body of an escaped field gives the original text back, whatever follows the closing quote |
| CsvExport.ReadFieldEsc | src/App.jsx:268 | reading an escaped field gives the original text back |
| CsvExport.ReadFieldsJoin | src/App.jsx:275 | reading a line of escaped fields joined by ';' gives the fields back |
| CsvExport.Fields | src/App.jsx:270-275 | every exported entry has exactly six fields |
| CsvExport.CsvLines | src/App.jsx:270-276 | one line per entry of the month view, in order |
| CsvExport.CsvFile | src/App.jsx:278 | the file starts with the byte order mark |
| CsvExport.ReadRecordsJoin | src/App.jsx:275-278 | reading lines of escaped fields joined by line feeds gives every line's fields back |
| CsvExport.ReadFileOf | src/App.jsx:278 | reading a byte order mark, a header without line feeds and lines of escaped fields joined by line feeds gives the header and every line's fields back |
| CsvExport.ReadExport | src/App.jsx:264-278 | reading an exported file gives back the header line and, line by line, the six fields of every entry of the month |
| SwRoutes.IsStatic | public/sw.js:80-91 | a path is static exactly when it starts with "/assets/" or ends in one of the ten suffixes |
| SwRoutes.Route | public/sw.js:55-96 | non-GET requests are passed through; otherwise navigations go first, then static paths, then everything else; the four outcomes are exclusive and exhaustive |
| SwRoutes.RouteIgnoresQuery | public/sw.js:79-91 | the query string does not affect the choice of strategy |
| SwRoutes.StaticExamples | public/sw.js:80-91 | a bundled script and an icon are static |
| SwRoutes.NonStaticExamples | public/sw.js:80-91 | an API path is not static, and neither is an upper-case ".JPG" |
| SwRoutes.RouteExamples | public/sw.js:55-96 | a navigation to a script path is a navigation, a POST is passed through, and a query ending in ".js" does not make a request static |
| SwCache.AllOkEvery | public/sw.js:8-14 | `addAll` succeeds exactly when every shell fetch comes back with a 2xx response other than 206 Partial Content |
| SwCache.PartialShellFails | public/sw.js:8-14 | a 206 Partial Content answer for any shell path makes `addAll` fail |
| SwCache.BatchContents | public/sw.js:8-14 | `addAll` writes exactly the shell paths, each with its response |
| SwCache.FetchShellBatch | public/sw.js:8-14 | the fetches of `addAll` succeed exactly when every shell answer may be cached (2xx other than 206), and the batch is then each shell path with its response |
| SwCache.MatchAll | public/sw.js:110 | `caches.match` returns the entry of the first cache, in creation order, that has the URL, and nothing only when no cache has it |
| SwCache.MatchAllOpenEmpty | public/sw.js:105-110 | opening a missing cache, which adds an empty one, changes no lookup across caches |
| SwCache.KeptDistinct | public/sw.js:24-25 | with no repeated names, the purge keeps the worker's cache if it exists and nothing else |
| SwCache.Without | public/sw.js:25 | deleting a name removes it, keeps every other name, and keeps names from repeating |
| SwCache.Worker.Put | public/sw.js:106 | `cache.put` stores the response under the URL in that cache and changes nothing else |
| SwCache.Worker.Delete | public/sw.js:25 | `caches.delete` removes the cache and its name and changes nothing else |
| SwCache.Worker.Open | public/sw.js:7 | `caches.open` creates the cache empty, as the newest, only when it is missing |
| SwCache.Worker.Install | public/sw.js:4-18 | opens the worker's cache, whose name is added at the end when missing; adds the five shell responses to it exactly when every fetch answers 2xx other than 206, and otherwise leaves it as it was; reports which happened; calls `skipWaiting` in any case and leaves the preload flag alone |
| SwCache.Worker.PurgeOthers | public/sw.js:24-25 | each name but the worker's own is deleted in turn: the names become the kept ones, no cache is added, and the worker's cache keeps its contents |
| SwCache.Worker.Activate | public/sw.js:20-33 | only the worker's cache is left, if it existed, with its contents unchanged; navigation preload is enabled where supported |
| SwCache.Worker.Navigation | public/sw.js:58-75 | replies with the preload response, else the network response; when the preload fails, or there is none and the network fails, opens the worker's cache and replies with its "/index.html" or an error; otherwise caches and names are untouched; no response is stored |
| SwCache.Worker.StaleWhileRevalidate | public/sw.js:36-49 | opens the worker's cache; replies with its copy whatever the network does, else the network response, else null; the copy is replaced exactly on a 200, and no other cache changes |
| SwCache.Worker.NetworkFirst | public/sw.js:99-114 | replies with the network response whatever its status; on a 200 opens the worker's cache and stores the response under the URL, and otherwise changes nothing; on failure replies with the first match in any cache, or an error |
| SwCache.Worker.HandleFetch | public/sw.js:51-115 | non-GET requests are not answered and change nothing; for each route the reply and the new caches and names are those of the chosen strategy (navigation, stale-while-revalidate or network-first); every cache other than the worker's keeps its name and its contents |
| SwCache.InstallThenActivate | public/sw.js:4-33 | activation runs only after a successful install: the worker's cache is then the only one and holds every shell path with its fetched response, and preload is enabled where supported; after a failed install the state is what `Install` left and preload stays as it was |

## Left out

- Rendering is not modelled: JSX, Chart.js, the colour palette, the `Stat` and `AddCategory` components. The colours of the limit bands become the tags `Under`, `Near` and `Over`.
- `localStorage` and JSON persistence are browser I/O and are not modelled. Only the start-up defaults are kept: the empty ledger, the default categories, and the settings with no limits and model 80/10/10.
- The XLSX export and the file download (`Blob`, object URL, anchor click) are foreign libraries and DOM, and are not modelled.
- The PWA install prompt, the update banner, `src/main.jsx` (worker registration, hourly update, reload on `controllerchange`) and `vite.config.js` are browser plumbing and build configuration; they are not part of this model.
- Date and locale formatting are parameters. `dateBG`, `dayMonthBG` and `todayYYYYMMDD` depend on the time zone, and `fmt` uses `toLocaleString`.
- IEEE-754 rounding of sums and divisions is not modelled, since amounts are exact reals.
- `setMonth` and the three model-share inputs are plain field assignments with no logic. The model has the fields but no methods for them.
- `clients.claim()`, `waitUntil` and all concurrency are not modelled. In particular the background revalidation of stale-while-revalidate racing the activate purge is not modelled. The purge deletes names one after another instead of with `Promise.all`.
- Cache keys are URLs reduced to path and query (`SwRoutes.Url`): the origin is dropped. Two requests to different origins with the same path and query share one cache entry in the model, while the browser keeps them apart. Request headers and `Vary` are not modelled.
- `Preload` is an input of `Worker.Navigation` and is not tied to `preloadEnabled`. In the browser a preload response exists only after `navigationPreload.enable()` has run.
- BudgetEngine.LimitValue: `Number("Infinity")` gives `Infinity`, which `setLimit` stores. A `real` cannot hold it, so in the model such a text reads as `None` and stores 0.
- Ledger.MonthEntries: the order between entries with the same date is not stated. The model uses a stable insertion sort, but stability is not proved. JavaScript's `sort` is stable too.
- Breakdown.DailyExpenses: `sort()` compares UTF-16 code units, and the model compares characters. The two agree on the ASCII date keys the form produces.
- SwCache.Worker.Install: a failed `addAll` makes the whole install fail in the browser, and the worker is then discarded. The model leaves the cache without the shell and reports `installed == false`; `InstallThenActivate` then skips activation.
- Ledger.MonthLabel: a month or year text that reads as plus or minus `Infinity` gives "undefined" and "Infinity" in JavaScript. The parser returns `None` for it, so the model gives "ян." and "NaN".
