# Billiard club cashier and TV board — a Dafny model

This project models the logic at the heart of a billiard club's point-of-sale
front end and the bearer-token filter of its back end:

- **The cashier screen** (`src/pages/Cashier.jsx`):
  - the invoice ledger: line items, and a subtotal, discount, tax and total that are rebuilt from the items and two rates;
  - adding and removing lines;
  - the "table fee" line made from a closed table session, with its duration label;
  - the per-table draft store kept in one browser storage slot. In the source the only live use of it is the clear on checkout: the call to `persistInvoiceState` (src/pages/Cashier.jsx:364) is commented out and `getStoredInvoiceForTable` is never called, so no handler of the model saves or restores a draft either;
  - the screen's state as a class whose methods are the event handlers: select a table, pick a product and quantity, change the rates, page through the product grid, check out.
- **The TV board** (`src/pages/TvBoards.jsx`):
  - `HH:MM:SS` rendering, and parsing of the server's `YYYY-MM-DDTHH:mm:ss` timestamps;
  - the per-table projection (in play, elapsed time, the running charge to the minute, a warning tier);
  - the "all / playing / empty" filter;
  - the three sorts, run by the browser's stable in-place sort;
  - the header counts and the top-three panel;
  - the table-id-to-session map the board refreshes.
- **The products screen and the URL helper** (`src/pages/Products.jsx`, `src/utils/url.js`):
  - base-URL normalisation and image URL resolution;
  - the category list (deduplicated, in first-appearance order);
  - the category filter and pagination.
- **The JWT filter** (`JwtAuthenticationFilter.java`):
  - which requests skip the filter;
  - the `Bearer ` token extraction;
  - how the security context is set or cleared before the request always continues down the chain.

What is modelled, and how:

- Amounts are exact rationals (`real`). JavaScript's `Number(x)` is a `Numeric`: a finite number or NaN.
- Times are integer milliseconds.
- Whatever the program gets from the outside arrives as a parameter: the browser's `Date`, the clock, network replies, form input, and the token validator and user loader.
- Code that updates state step by step is modelled imperatively:
  - the draft store, the cashier screen, the security context and the filter chain are classes;
  - the sort works in place on an array;
  - the session map and the category list are built by loops.
- Each method is proved against a function that specifies it. The properties are proved about those functions.

Two readings of the TV board follow the code exactly:

- Under "playing_first", two rows in play with the same elapsed time keep the order of the table list. The comparator returns 0 for them and the browser's sort is stable, so they are not ordered by id.
- The header counts are taken over the filtered list. Under the "playing" filter the empty count is therefore 0.

## Model

| member | source | states |
|---|---|---|
| Catalog.CollectCategories | src/pages/Products.jsx:86-92 | the `forEach`/`push` loop builds exactly the category list `Categories(ps)` |
| Catalog.CategoriesContent | src/pages/Cashier.jsx:243-247 | the list starts with "all", has no duplicates, and holds exactly "all" and every non-empty category some product carries |
| Catalog.CategoriesFirstAppearanceOrder | src/pages/Products.jsx:86-92 | categories after "all" are listed in the order of their first product |
| Catalog.WithCategory | src/pages/Products.jsx:106-109 | keeps exactly the products whose category equals the selected one |
| Catalog.WithCategoryAppend | src/pages/Products.jsx:108 | the filter distributes over concatenation, so the kept products stay in their original order |
| Catalog.FilterByCategory | src/pages/Cashier.jsx:175-178 | "all" returns every product; any other category returns exactly the products carrying it |
| Catalog.TotalPages | src/pages/Products.jsx:111 | at least one page; the fewest pages of `pageSize` that hold `n` items |
| Catalog.Slice | src/pages/Products.jsx:114 | JavaScript `slice` never returns more than the list holds |
| Catalog.PageSlice | src/pages/Products.jsx:112-115 | a page holds the items from `(page-1)*pageSize` on, in order: `pageSize` of them, or as many as remain |
| Catalog.PagesCoverAll | src/pages/Products.jsx:111-115 | pages 1 to totalPages, read in turn, give back the whole list |
| Catalog.VisiblePageNonEmpty | src/pages/Cashier.jsx:430-435 | with the page clamped to totalPages, a non-empty list never shows an empty page |
| Catalog.UnclampedPageCanBeEmpty | src/pages/Products.jsx:111-115 | on the products screen a left-over page 3 over 5 products shows nothing, while the clamped page shows all 5 |
| Urls.ToImageUrl | src/utils/url.js:3-10 | no path gives "/no-image.png"; a path starting with "http" is kept; any other path is joined to the API URL with exactly one "/" in between |
| Urls.ToImageUrlLeadingSlash | src/utils/url.js:7-9 | "uploads/a.jpg" and "/uploads/a.jpg" give the same URL |
| Urls.ToImageUrlIdempotent | src/utils/url.js:3-10 | with an absolute or empty API URL, a second pass leaves a produced URL unchanged |
| Urls.StripTrailingSlashes | src/pages/Products.jsx:24 | removes every trailing "/" and nothing else |
| Urls.ApiBase | src/pages/Products.jsx:24 | the base URL never ends in "/" (an unset variable reads as empty) |
| Urls.ResolveImageUrl | src/pages/Products.jsx:26-31 | no url gives ""; an http(s) URL in any letter case is kept; anything else is joined to the base with exactly one "/" |
| Urls.ResolvedJoinHasSingleSlash | src/pages/Products.jsx:24-31 | with the normalised base, a relative path yields base + "/" + path |
| Urls.HttpTestsDiffer | src/pages/Products.jsx:28 | the two helpers disagree on "httpd.png" and on "HTTP://x" |
| Ledger.EmptyInvoice | src/pages/Cashier.jsx:34-42 | a fresh invoice has no lines and no id |
| Ledger.Recalc | src/pages/Cashier.jsx:354-364 | the result is consistent; items, id and both rates are unchanged |
| Ledger.RecalcFixpoint | src/pages/Cashier.jsx:360 | an invoice is consistent exactly when recalculation leaves it unchanged; recalculating twice equals recalculating once |
| Ledger.SubtotalAppend | src/pages/Cashier.jsx:355 | the subtotal of two runs of lines is the sum of their subtotals |
| Ledger.SubtotalPermutation | src/pages/Cashier.jsx:355 | the subtotal does not depend on the order of the lines |
| Ledger.RecalcTotal | src/pages/Cashier.jsx:356-359 | total = subtotal * (1 - d/100) * (1 + t/100) |
| Ledger.WorkedExample | src/pages/Cashier.jsx:354-364 | 100000 with 10% discount and 8% tax gives 10000 off, 7200 tax and 97200 to pay |
| Ledger.AddItem | src/pages/Cashier.jsx:331-346 | with a product and a positive quantity, exactly one line is appended, carrying the product's id, name and price, the quantity and total price*qty, and the rest is kept; otherwise the invoice is unchanged |
| Ledger.Without | src/pages/Cashier.jsx:350 | keeps exactly the lines whose id differs |
| Ledger.WithoutAppend | src/pages/Cashier.jsx:350 | removal distributes over concatenation, so kept lines keep their relative order |
| Ledger.WithoutAbsent | src/pages/Cashier.jsx:350 | removing an id no line has keeps every line |
| Ledger.RemoveItem | src/pages/Cashier.jsx:349-352 | the result is consistent and holds exactly the old lines with another id; the rates and id are kept |
| Ledger.RemoveAbsentIsNoOp | src/pages/Cashier.jsx:349-352 | removing an absent id from a consistent invoice changes nothing |
| Ledger.AddThenRemove | src/pages/Cashier.jsx:331-352 | removing the line just added restores the recalculated invoice |
| Ledger.PlayedMinutes | src/pages/Cashier.jsx:91 | at least 1; otherwise the whole minutes between start and end |
| Ledger.MinutesLabelRoundTrip | src/pages/Cashier.jsx:92-94 | the "{h}h{m}p" or "{m}p" label reads back as exactly the minutes it was made from |
| Ledger.DurationText | src/pages/Cashier.jsx:87-98 | an invalid date gives ""; otherwise the label reads back as the played minutes |
| Ledger.DurationTextAsWritten | src/pages/Cashier.jsx:87-98 | the label as written is never empty |
| Ledger.InvalidDateLabel | src/pages/Cashier.jsx:89-96 | an invalid start gives "NaNp" as written, where "" was intended |
| Ledger.DurationExamples | src/pages/Cashier.jsx:91-94 | 90 minutes gives "1h30p"; 45 seconds gives "1p" |
| Ledger.TableFeeItem | src/pages/Cashier.jsx:87-114 | quantity 1, no product, price = line total = `Number(total)` with NaN as 0; always named "{table} - {label}", the label reading back as the played minutes, and "{table} - NaNp" when a time is not a date (the bare-name fallback is never reached) |
| Ledger.TableFeeItemIntended | src/pages/Cashier.jsx:87-114 | the fee line on the intended label: "{table} - {label}" for valid times, the bare table name when a time is not a date |
| Ledger.FeeLineNames | src/pages/Cashier.jsx:87-114 | the as-written and intended fee lines agree on valid times and differ only by the " - NaNp" suffix otherwise |
| Drafts.ReadBlob | src/pages/Cashier.jsx:44-53 | a missing or unreadable slot reads as no drafts |
| Drafts.DraftsAfterPersist | src/pages/Cashier.jsx:147-169 | a falsy table id does nothing; meaningful data stores the draft without its id; an empty draft removes the entry; other tables are untouched |
| Drafts.EmptyDraftClears | src/pages/Cashier.jsx:154-163 | an empty draft leaves no entry for its table |
| Drafts.PersistIdempotent | src/pages/Cashier.jsx:147-169 | persisting the same draft twice is persisting it once |
| Drafts.DraftStore.Read | src/pages/Cashier.jsx:44-53 | returns the drafts the slot holds |
| Drafts.DraftStore.Write | src/pages/Cashier.jsx:55-62 | replaces the slot, or leaves it when storage refuses the write |
| Drafts.DraftStore.Get | src/pages/Cashier.jsx:64-68 | the table's draft, or nothing for a falsy id or a table without one |
| Drafts.DraftStore.PersistFor | src/pages/Cashier.jsx:70-75 | read, set the table's entry, write back; a falsy id does nothing |
| Drafts.DraftStore.ClearFor | src/pages/Cashier.jsx:77-84 | deletes the table's entry and writes back only when it exists |
| Register.InitialItems | src/pages/Cashier.jsx:262-275 | one fee line exactly when the session exists, its `endTime` is a non-empty text and its total is present, priced at the total and named "{table} - …", "{table} - NaNp" when the start time is missing or not a date; otherwise none |
| Register.OpeningInvoice | src/pages/Cashier.jsx:277-279 | consistent, with the given lines, no id, zero rates, and total = subtotal |
| Register.OpeningInvoiceIsRecalc | src/pages/Cashier.jsx:277-279 | the opening invoice is `recalcInvoice` of a fresh invoice holding the lines |
| Register.BuildRequest | src/pages/Cashier.jsx:373-384 | one request line per invoice line, in order and field by field; an empty name becomes null; the rates are copied |
| Register.Cashier.constructor | src/pages/Cashier.jsx:121-145 | the screen's initial state |
| Register.Cashier.ShownProducts | src/pages/Cashier.jsx:430-435 | at most 9 products, and some whenever the category has any |
| Register.Cashier.ClampPage | src/pages/Cashier.jsx:189-192 | the page is lowered to totalPages when it is past it; nothing else changes |
| Register.Cashier.ProductsLoaded | src/pages/Cashier.jsx:242-247 | products and the category list are replaced; the clamp effect (lines 189-192) makes the page `min(old page, totalPages)`; the table, invoice, name, category and chosen product are kept |
| Register.Cashier.SelectCategory | src/pages/Cashier.jsx:185-187 | the category becomes the chosen one; the page goes back to 1 when the category changes and stays when the same category is chosen again; nothing else changes |
| Register.Cashier.ChangePage | src/pages/Cashier.jsx:554 | the chosen page becomes current |
| Register.Cashier.SelectTable | src/pages/Cashier.jsx:254-292 | the table is selected and the name cleared; the invoice holds the initial lines with zero rates, or is empty when the request fails; the ledger stays consistent |
| Register.Cashier.ChooseProduct | src/pages/Cashier.jsx:294-298 | the product is chosen with quantity 1 |
| Register.Cashier.ChangeQuantity | src/pages/Cashier.jsx:859 | a non-number or 0 becomes 1 |
| Register.Cashier.AddToInvoice | src/pages/Cashier.jsx:331-346 | the invoice becomes `AddItem` of the old one and stays consistent |
| Register.Cashier.RemoveLine | src/pages/Cashier.jsx:349-352 | the invoice becomes `RemoveItem` of the old one and stays consistent |
| Register.Cashier.ChangeDiscount | src/pages/Cashier.jsx:654-658 | the discount rate is the parsed value (NaN as 0) and the invoice is recalculated |
| Register.Cashier.ChangeTax | src/pages/Cashier.jsx:673-677 | the tax rate is the parsed value (NaN as 0) and the invoice is recalculated |
| Register.Cashier.ChangeCustomerName | src/pages/Cashier.jsx:171-173 | the name becomes the typed value |
| Register.Cashier.PersistInvoiceState | src/pages/Cashier.jsx:147-169 | the store's drafts become `DraftsAfterPersist` for the override or else the selected table, using the given or else the current name |
| Register.Cashier.Checkout | src/pages/Cashier.jsx:367-407 | refused without a table or lines; with both, a created reply checks out with its id and a failed post is `CheckoutFailed`; a failed post changes nothing; success clears the table's draft and resets to an empty invoice carrying the new id; the product grid and chosen product are kept |
| Register.VisiblePageNonEmptyWhenAny | src/pages/Cashier.jsx:430-435 | the clamped page has at most 9 products, and some when the list has any |
| Clock.Pad2 | src/pages/TvBoards.jsx:33-35 | reads back as the number, at least 2 characters, exactly 2 below 100 |
| Clock.TotalSeconds | src/pages/TvBoards.jsx:37 | the whole seconds of a non-negative duration; 0 for a negative one |
| Clock.FormatHMSReadsBack | src/pages/TvBoards.jsx:36-42 | reads back as h, m, s with m < 60, s < 60 and h*3600 + m*60 + s = max(0, floor(ms/1000)); 8 characters below 100 hours |
| Clock.FormatHMSNegative | src/pages/TvBoards.jsx:37 | a negative duration shows as "00:00:00" |
| Clock.ParseLocalDateTime | src/pages/TvBoards.jsx:55-70 | a result exactly when the text begins with `YYYY-MM-DDTHH:mm:ss`; none for an absent or empty text |
| Clock.ParseIgnoresTrailingText | src/pages/TvBoards.jsx:57-59 | text after the seconds has no effect |
| Clock.FormatStamp | src/pages/TvBoards.jsx:51-54 | a rendered timestamp is 19 characters and has the pattern the parser expects |
| Clock.ParseFormatStamp | src/pages/TvBoards.jsx:55-70 | parsing a rendered timestamp gives exactly its six fields, with the month made 0-based |
| Board.HourlyRate | src/pages/TvBoards.jsx:46-49 | the price when present and finite, otherwise 50000 |
| Board.RoundHalfUp | src/pages/TvBoards.jsx:198 | `Math.round`: the integer within half of x, halves rounded up |
| Board.Elapsed | src/pages/TvBoards.jsx:191-192 | never negative; now - start when the clock is past the start |
| Board.MoneyFor | src/pages/TvBoards.jsx:195-198 | the rounding of whole minutes * hourly / 60 |
| Board.WarnFor | src/pages/TvBoards.jsx:200-201 | danger exactly from 3 h, warn exactly from 2 h to under 3 h, none below 2 h |
| Board.Project | src/pages/TvBoards.jsx:181-204 | in play exactly when the session exists, its start parses and it has no end time; elapsed is at least 0 and 0 when not in play; the charge is `MoneyFor` in play and 0 otherwise; the warning follows the elapsed time |
| Board.MoneyNonDecreasing | src/pages/TvBoards.jsx:195-198 | for a fixed start and a non-negative rate, the charge never decreases as time goes on |
| Board.MoneySteadyWithinMinute | src/pages/TvBoards.jsx:195-198 | the charge equals its value at the start of the current minute |
| Board.ProjectMoneyNonDecreasing | src/pages/TvBoards.jsx:185-198 | a table's projected charge never decreases between two ticks |
| Board.WorkedProjection | src/pages/TvBoards.jsx:180-203 | 2.5 h at the default rate is 150 minutes, 125000, and a warning |
| Board.Keep | src/pages/TvBoards.jsx:207-208 | keeps exactly the rows whose playing flag is the one asked for |
| Board.KeepSplits | src/pages/TvBoards.jsx:229-230 | every row is counted by exactly one of the two flags |
| Board.ApplyFilter | src/pages/TvBoards.jsx:206-208 | "all" keeps every row; "playing" keeps exactly the rows in play; "empty" keeps exactly the rows not in play |
| Board.CountPlaying | src/pages/TvBoards.jsx:229 | the number of shown rows in play, at most the shown rows, and 0 exactly when no shown row is in play |
| Board.CountEmpty | src/pages/TvBoards.jsx:230 | the number of shown rows not in play, 0 exactly when every shown row is in play |
| Board.CountsAddUp | src/pages/TvBoards.jsx:229-230 | countPlaying + countEmpty = the shown rows; countEmpty is the rows not in play |
| Board.CountsUnderFilter | src/pages/TvBoards.jsx:229-230 | under "playing" the empty count is 0; under "empty" the playing count is 0 |
| Board.BuildSessionMap | src/pages/TvBoards.jsx:142-145 | the loop builds `SessionMap(pairs)` |
| Board.SessionMapContents | src/pages/TvBoards.jsx:142-145 | an id is in the map exactly when a pair carries it, and it maps to the last such pair's session |
| Ranking.Compare | src/pages/TvBoards.jsx:210-224 | each comparator is negative, zero or positive exactly when the first row ranks before, level with, or after the second |
| Ranking.SortRowsSorted | src/pages/TvBoards.jsx:212-224 | the sort's result is in order |
| Ranking.SortRowsPermutes | src/pages/TvBoards.jsx:212-224 | the sort's result holds the same rows, each as often |
| Ranking.SortRowsStable | src/pages/TvBoards.jsx:212-224 | rows that rank level keep their input order |
| Ranking.InsertAt | src/pages/TvBoards.jsx:215-219 | one insertion step places `a[i]` into the sorted prefix and leaves the rest alone |
| Ranking.SortInPlace | src/pages/TvBoards.jsx:212-224 | the array ends as `SortRows` of its old contents |
| Ranking.ProjectAll | src/pages/TvBoards.jsx:181-204 | one projected row per table, in the tables' order |
| Ranking.DeriveView | src/pages/TvBoards.jsx:180-227 | the derived list is the filtered projection, sorted |
| Ranking.SortKeepsCounts | src/pages/TvBoards.jsx:229-230 | sorting does not change the header counts |
| Ranking.ViewFacts | src/pages/TvBoards.jsx:206-230 | the shown list is a sorted, stable permutation of the filtered rows with the same counts |
| Ranking.PlayingFirstShape | src/pages/TvBoards.jsx:214-220 | rows in play come before empty tables, longest first; empty tables follow by id |
| Ranking.TopMoney | src/pages/TvBoards.jsx:232-237 | the copy, filter, sort and slice compute `TopMoneyOf(view)` |
| Ranking.TopMoneyFacts | src/pages/TvBoards.jsx:232-237 | at most 3 rows, min(3, rows in play) of them, all in play and from the view, by money descending; no row left out charges more than a row shown |
| Jwt.ShouldNotFilter | src/main/java/com/dinhquangha/backend/security/JwtAuthenticationFilter.java:29-42 | the skip rule: an OPTIONS method in any case, the four public prefixes, or exactly "/" or "/health" (its partners are the four lemmas below) |
| Jwt.PreflightSkipped | src/main/java/com/dinhquangha/backend/security/JwtAuthenticationFilter.java:34 | every spelling of OPTIONS, in any letter case, is skipped on any path |
| Jwt.PublicPrefixesSkipped | src/main/java/com/dinhquangha/backend/security/JwtAuthenticationFilter.java:35-37 | paths under /uploads/, /api/auth/, /swagger-ui and /v3/api-docs are skipped |
| Jwt.ExactPathsSkipped | src/main/java/com/dinhquangha/backend/security/JwtAuthenticationFilter.java:38 | "/" and "/health" are skipped, matched exactly: a path below "/health/" is filtered |
| Jwt.ApiPathsFiltered | src/main/java/com/dinhquangha/backend/security/JwtAuthenticationFilter.java:33-41 | every non-OPTIONS request to a path "/api/…" outside "/api/auth/" is filtered, the PDF export included |
| Jwt.BearerToken | src/main/java/com/dinhquangha/backend/security/JwtAuthenticationFilter.java:52-57 | a token exactly when the header starts with "Bearer ", and the header is then "Bearer " + token |
| Jwt.BearerTokenRoundTrip | src/main/java/com/dinhquangha/backend/security/JwtAuthenticationFilter.java:57 | the header "Bearer " + t yields t |
| Jwt.LowerCaseSchemeIgnored | src/main/java/com/dinhquangha/backend/security/JwtAuthenticationFilter.java:52 | "bearer " in lower case is not accepted |
| Jwt.Decide | src/main/java/com/dinhquangha/backend/security/JwtAuthenticationFilter.java:50-76 | no bearer header leaves the context alone; a token that validates and names a loadable user sets an authentication for that user with the user's authorities; every other case clears the context |
| Jwt.InvalidTokenClears | src/main/java/com/dinhquangha/backend/security/JwtAuthenticationFilter.java:71-73 | a token that fails validation clears the context |
| Jwt.Apply | src/main/java/com/dinhquangha/backend/security/JwtAuthenticationFilter.java:70-75 | untouched keeps the authentication; set installs it; clear removes it |
| Jwt.SecurityContext.SetAuthentication | src/main/java/com/dinhquangha/backend/security/JwtAuthenticationFilter.java:70 | the context holds the new authentication |
| Jwt.SecurityContext.ClearContext | src/main/java/com/dinhquangha/backend/security/JwtAuthenticationFilter.java:72 | the context holds no authentication |
| Jwt.FilterChain.DoFilter | src/main/java/com/dinhquangha/backend/security/JwtAuthenticationFilter.java:53 | the request is handed on once more |
| Jwt.JwtAuthenticationFilter.DoFilterInternal | src/main/java/com/dinhquangha/backend/security/JwtAuthenticationFilter.java:44-79 | the chain receives the request exactly once on every path; the context becomes `Apply(Decide(header), old context)` |
| Jwt.JwtAuthenticationFilter.Handle | src/main/java/com/dinhquangha/backend/security/JwtAuthenticationFilter.java:29-42 | a skipped request goes on with its context untouched; any other passes through `DoFilterInternal` |

## Left out

- Network requests and their asynchrony are not modelled. This covers table and product loading, including the `while (hasNext)` paging loop of `loadProducts`, the table detail request, the checkout post, the PDF export, `fetchData`'s request fan-out and its error message, and the table and product forms. Each reply is a parameter instead (`TableDetail`, `PostReply`, the loaded products, the id/session pairs).
- The cashier's effect that selects a table from the `tableId` query parameter (src/pages/Cashier.jsx:195-205) is not modelled: it only calls `handleSelectTable`, which is modelled.
- Timers, the one-second board tick, the five-second refresh, fullscreen, rendering, alerts and navigation are left out.
- Locale formatting is left out: `toVnd`/`formatVND`, `formatDateVN` and the board's `getTableName`. They only produce display text.
- The browser's `Date` is a parameter. The conversion of calendar fields to an instant, including JavaScript's mapping of years 0-99, is not modelled.
- Amounts are exact rationals, not IEEE doubles. Infinity is not represented, and neither is rounding error in `subtotal * d / 100`.
- Board.HourlyRate: a price of plus or minus Infinity, which the source replaces by 50000, cannot occur in the model.
- JSON object keys are strings in the source and `int` in the model. A stored blob that parses to something other than an object is modelled as `Unreadable`, and the server-side-rendering `typeof window` check is left out.
- Urls.ToImageUrl: the API URL is a parameter holding the text the template renders, so an unset `VITE_API_URL` would have to be passed as "undefined".
- Ranking.DeriveView: under the "all" filter the source sorts `arr` itself, which is aliased to `filtered`. Nothing else reads `arr`, so the model sorts a fresh array.
- Ledger.TableFeeItem: the session total is a JSON number (`Numeric`). A non-numeric text total, which `Number(total || 0)` would turn into a NaN price, cannot be represented.
- Drafts are never saved or read back by the screen, because the source's only call that saves them is commented out (src/pages/Cashier.jsx:364). `Register.Cashier.PersistInvoiceState` and `Drafts.DraftStore.Get` model the functions, not a live use of them.
- Register.Cashier.Checkout: a reply without an id gives the invoice the id "" in the source. The model uses `None`.
- Register.Cashier.ChangeQuantity, ChangeDiscount and ChangeTax take the already parsed number (`parseInt`/`parseFloat` of the field). The text parsing is not modelled.
- Jwt.PreflightSkipped: Java's `equalsIgnoreCase` folds a few non-ASCII letters (such as the long s) onto ASCII ones. The model folds ASCII letters only.
- Jwt.Decide: `loadUserByUsername` returning null makes `getAuthorities()` throw inside the `try`. The model writes that case as `Throws`.
- Jwt.JwtAuthenticationFilter.Handle models only the `shouldNotFilter` dispatch of the servlet base class. Its once-per-request bookkeeping and the propagation of exceptions thrown by the chain itself are left out.

## Findings

| source | as written | input that shows it | evidently intended | confidence | as-written member | corrected member |
|---|---|---|---|---|---|---|
| src/pages/Products.jsx:111-115 | the page is sliced unclamped, and choosing a category (line 203) does not reset it | on page 3 of a long list, choose a category with 5 products: totalPages is 1 but the page shows nothing | clamp the page to totalPages before slicing, as src/pages/Cashier.jsx:430-435 does | not executed | Catalog.UnclampedPageCanBeEmpty | Catalog.VisiblePageNonEmpty |
| src/pages/Cashier.jsx:87-98 | an invalid date does not throw: `e - s` is NaN and the label becomes "NaNp", so the `catch` returning "" is dead | a closed session whose startTime is not a date: the fee line is named "{table} - NaNp" | "" for an invalid date, so the fee line carries the table name alone | not executed | Ledger.DurationTextAsWritten | Ledger.DurationText |

The cashier screen (`Register.InitialItems`) builds its fee line as written, with `Ledger.TableFeeItem`. The intended line is `Ledger.TableFeeItemIntended`, and `Ledger.FeeLineNames` states how the two differ.
