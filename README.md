# Oficina Criativa storefront: a verified model of its decision rules

Oficina Criativa sells printable teaching material. Its storefront is a React
client plus a few Supabase edge functions. This project models, in Dafny, the
parts of that system that decide something:

- **The Hotmart purchase webhook** (`HotmartWebhook`). It picks fields from the
  payload and rejects a missing buyer email. It maps the product name to a slug
  and ignores events that are not approvals. It deduplicates by transaction id
  against the `purchases` table (`Purchases.PurchaseStore`) before inserting.
- **The admin page** (`AdminPage`): the product checkboxes, the grant loop that
  inserts one manual purchase per selected product, the manual-purchase list,
  the notification form guard and the admin gate.
- **The product editor** (`ProductManager`). It covers save validation, the
  trimmed and null-normalised payload, and insert or update by id. It also
  covers delete, the active toggle, the benefit and FAQ list edits, and
  `updateField`, against a `products` table class.
- **The analytics panel** (`Analytics`). It covers:
  - the per-page distinct-session counts;
  - the seven-day histogram;
  - the top ten pages;
  - the click groups;
  - the label formatters.
  Each aggregation loop is an imperative method, proved equal to a specification function.
- **The teaching assistant**:
  - `AssistenteAi`: the action dispatch table and the three chat-message builders;
  - `AssistenteTypes`: `buildTurmaProfile`, `stripMarkdown` and the category table;
  - `ResultView`: the rendering of the cleaned answer line by line, and the copy button.
- **The scheduled notifications** (`AutoNotifications`): the Brasília hour, the
  morning and evening windows, and the choice of message.
- **The constant catalog** (`Catalog`) and its lookup by slug.

`Text` restates the JavaScript string operations the code relies on: `\s`,
`length` in UTF-16 code units, `trim`, `split`, `join`, case mapping and the read of an own property of an object literal. `Tally` holds the
counting and sorting shared by the analytics loops. `Wrappers` holds `Option`.

Nothing outside the program is modelled; each such input is a parameter:

- **Database results**: whether a query or an insert returned an error, and the id the database assigns.
- **The clock**: the UTC hour and the seven day keys.
- **`Math.random()`**: a real in [0, 1).
- **The LLM gateway's reply.**

Under these parameters every operation is deterministic.

The webhook's six-entry slug table has no entry for the seventh catalog
product, "+5000 Moldes de EVA". Its fallback slug, "+5000-moldes-de-eva", is not
the catalog slug "5000-moldes-eva", and `HotmartWebhook.SlugTableAgainstCatalog`
proves the mismatch. The catalog in `src/data/products.ts` may differ from the
`products` table that deliverables are keyed on, so this is recorded as a
property of the code as written and not as a finding.

## Model

| member | source | states |
|---|---|---|
| `Catalog.CatalogWellFormed` | src/data/products.ts:42-239 | the catalog holds seven products, no two sharing an id or a slug |
| `Catalog.GetProducts` | src/data/products.ts:241-243 | `getProducts` yields the seven-product catalog with distinct ids and slugs |
| `Catalog.FindBySlug` | src/data/products.ts:245-247 | `find` by slug: `None` exactly when no entry has the slug, otherwise the first entry carrying it |
| `Catalog.GetProductBySlug` | src/data/products.ts:245-247 | `undefined` exactly when no catalog product has the slug; otherwise a catalog product with that slug |
| `Catalog.FindBySlugOfMember` | src/data/products.ts:245-247 | in a list with distinct slugs, finding an entry's slug returns that entry |
| `Catalog.LookupRoundTrip` | src/data/products.ts:42-247 | round trip: every catalog product is what `getProductBySlug` returns for its own slug |
| `Purchases.CountTransactionAppend` | src/integrations/supabase/types.ts:167-196 | the number of rows carrying a transaction id is additive over concatenated tables |
| `Purchases.CountTransactionPositive` | src/integrations/supabase/types.ts:167-196 | the count of a transaction id is positive exactly when some row carries it |
| `Purchases.PurchaseStore.constructor` | src/integrations/supabase/types.ts:167-196 | a table starts with the given rows |
| `Purchases.PurchaseStore.HasTransaction` | supabase/functions/hotmart-webhook/index.ts:87-93 | the duplicate lookup answers "found" exactly when the query succeeded and some row has the id; an erroring query reads as no match |
| `Purchases.PurchaseStore.Insert` | supabase/functions/hotmart-webhook/index.ts:101-107 | on success the record is appended at the end; on error the table is unchanged |
| `HotmartWebhook.StatusCode` | supabase/functions/hotmart-webhook/index.ts:48-129 | the status is 200 exactly for the pre-flight, ignored, duplicate and recorded answers (400 for no email, 500 otherwise) |
| `HotmartWebhook.FirstTruthy` | supabase/functions/hotmart-webhook/index.ts:28-46 | the chain of alternatives ending in `""`: "" exactly when no candidate is truthy, otherwise the first truthy candidate |
| `HotmartWebhook.EmailPrecedence` | supabase/functions/hotmart-webhook/index.ts:31-35 | `data.buyer.email` wins over `buyer.email`, which wins over `data.buyer.checkout_phone`, defaulting to "" |
| `HotmartWebhook.HyphenateSpaceRuns` | supabase/functions/hotmart-webhook/index.ts:66 | `replace(/\s+/g, "-")` leaves no whitespace and never lengthens the string |
| `HotmartWebhook.HyphenateNoSpace` | supabase/functions/hotmart-webhook/index.ts:66 | a string without whitespace is left unchanged |
| `HotmartWebhook.HyphenateLeadingRun` | supabase/functions/hotmart-webhook/index.ts:66 | a whitespace run followed by a non-space or by nothing becomes exactly one hyphen |
| `HotmartWebhook.HyphenateRun` | supabase/functions/hotmart-webhook/index.ts:66 | a maximal whitespace run between two pieces contributes exactly one hyphen, and the pieces are rewritten independently |
| `HotmartWebhook.HyphenateAppend` | supabase/functions/hotmart-webhook/index.ts:66 | no run crosses a boundary whose left side ends in a non-space, so the two sides are rewritten independently |
| `HotmartWebhook.HyphenateWord` | supabase/functions/hotmart-webhook/index.ts:66 | a word, one space and the rest: the space becomes "-" and the word is kept |
| `HotmartWebhook.FallbackSlug` | supabase/functions/hotmart-webhook/index.ts:66 | lower-case then hyphenate: the fallback slug has no whitespace and is no longer than the name |
| `HotmartWebhook.ProductSlug` | supabase/functions/hotmart-webhook/index.ts:57-66 | a name among the table's own keys gets its table value; a name that is not a key gets the fallback slug |
| `HotmartWebhook.EvaName` | supabase/functions/hotmart-webhook/index.ts:66 | lower-casing "+5000 Moldes de EVA" gives its four words separated by single spaces |
| `HotmartWebhook.FallbackKeepsPunctuation` | supabase/functions/hotmart-webhook/index.ts:66 | the fallback keeps punctuation: "+5000 Moldes de EVA" becomes "+5000-moldes-de-eva" |
| `HotmartWebhook.SlugTableKeys` | supabase/functions/hotmart-webhook/index.ts:57-64 | the six table keys are distinct and none is "+5000 Moldes de EVA" |
| `HotmartWebhook.KnownProductSlug` | supabase/functions/hotmart-webhook/index.ts:57-66 | each of the first six catalog products' names maps to its catalog slug |
| `HotmartWebhook.CatalogSlugsUnsigned` | src/data/products.ts:42-239 | no catalog slug is empty or starts with '+' |
| `HotmartWebhook.SlugTableAgainstCatalog` | supabase/functions/hotmart-webhook/index.ts:57-66 | the first six catalog products map to their catalog slugs, while the seventh maps to a slug that `getProductBySlug` does not know |
| `HotmartWebhook.RecordOf` | supabase/functions/hotmart-webhook/index.ts:83-107 | the inserted row has status "approved" and the product name as received; its transaction id is null exactly when the payload's is empty, otherwise that id |
| `HotmartWebhook.Deliver` | supabase/functions/hotmart-webhook/index.ts:9-130 | one delivery either leaves the table unchanged or answers "recorded" and appends exactly the payload's record; the table changes exactly when the answer is "recorded" |
| `HotmartWebhook.HandleWebhook` | supabase/functions/hotmart-webhook/index.ts:9-130 | the handler's early-return sequence against the table gives exactly the response and new table of `Deliver` |
| `HotmartWebhook.PreflightUntouched` | supabase/functions/hotmart-webhook/index.ts:10-12 | an OPTIONS request is answered whatever the body, the environment or the table, and the table is unchanged |
| `HotmartWebhook.MissingEmailRejected` | supabase/functions/hotmart-webhook/index.ts:48-54 | with no truthy email candidate the answer is 400 "No buyer email" whatever the event, and nothing is recorded |
| `HotmartWebhook.UnapprovedIgnored` | supabase/functions/hotmart-webhook/index.ts:69-80 | a delivery with an email but no approval is answered 200 "ignored" and records nothing |
| `HotmartWebhook.ServerErrorsRecordNothing` | supabase/functions/hotmart-webhook/index.ts:18-24 | missing environment variables or an unparsable body give 500 and record nothing |
| `HotmartWebhook.KnownTransactionIsDuplicate` | supabase/functions/hotmart-webhook/index.ts:87-99 | an approved delivery whose transaction id some row carries is a duplicate and records nothing |
| `HotmartWebhook.CountedIsDuplicate` | supabase/functions/hotmart-webhook/index.ts:87-99 | the same, when the rows carrying the id are counted rather than exhibited |
| `HotmartWebhook.FailedLookupAppends` | supabase/functions/hotmart-webhook/index.ts:87-107 | when the duplicate lookup errors, an approved payload's record is appended whatever the table holds |
| `HotmartWebhook.NewPurchaseAppended` | supabase/functions/hotmart-webhook/index.ts:83-122 | an approved delivery with a new or empty transaction id appends exactly its record and answers 200, or answers 500 and changes nothing when the insert fails |
| `HotmartWebhook.ApprovedDelivery` | supabase/functions/hotmart-webhook/index.ts:83-115 | for an approved payload with a transaction id, the new table is the old one when the id is stored or the insert fails, and otherwise the old one plus the record |
| `HotmartWebhook.CountAfterRecord` | supabase/functions/hotmart-webhook/index.ts:101-107 | appending the record adds exactly one row carrying its transaction id |
| `HotmartWebhook.RedeliveryIdempotent` | supabase/functions/hotmart-webhook/index.ts:87-107 | idempotence, provided no duplicate lookup errors: any number of sequential redeliveries leave the table as it was when the id is stored, and otherwise add the record once if some insert succeeds |
| `HotmartWebhook.RedeliveryStep` | supabase/functions/hotmart-webhook/index.ts:87-107 | the first of several deliveries, described by the table it leaves, after which the rest proceed |
| `HotmartWebhook.FailedAttemptChangesNothing` | supabase/functions/hotmart-webhook/index.ts:109-115 | an attempt whose insert fails does not change whether a later insert succeeds |
| `HotmartWebhook.RedeliveryAddsAtMostOne` | supabase/functions/hotmart-webhook/index.ts:87-107 | provided no duplicate lookup errors, sequential redelivery adds at most one row, and at most one row for a new transaction id |
| `HotmartWebhook.FailedLookupInsertsAgain` | supabase/functions/hotmart-webhook/index.ts:87-107 | when the second lookup errors, the same purchase is stored twice: the dedup relies on the lookup succeeding |
| `HotmartWebhook.DeliverAllTwo` | supabase/functions/hotmart-webhook/index.ts:9-130 | two deliveries in sequence are the second applied to the table the first leaves |
| `HotmartWebhook.NoTransactionNeverDeduplicated` | supabase/functions/hotmart-webhook/index.ts:84-107 | a delivery without a transaction id is never deduplicated: each successful one appends a row with a null id |
| `HotmartWebhook.RedeliverTwice` | supabase/functions/hotmart-webhook/index.ts:87-107 | two sequential handler calls with one approved payload: if the first records, the second is a duplicate; at most one row is added |
| `AdminPage.Without` | src/pages/AdminPage.tsx:74 | `filter((s) => s !== x)` removes every `x` and keeps every other element; the length drops by the number of occurrences |
| `AdminPage.ToggleSlug` | src/pages/AdminPage.tsx:72-76 | the slug is present afterwards exactly when it was absent; an absent slug is appended at the end, a present one is removed with all its occurrences, and the others are kept |
| `AdminPage.WithoutSnoc` | src/pages/AdminPage.tsx:74 | a last element stays, at the end, exactly when it differs from the removed value |
| `AdminPage.WithoutAppend` | src/pages/AdminPage.tsx:74 | the filter keeps the surviving elements in their order: filtering two runs is filtering each, in sequence |
| `AdminPage.ToggleSlugKeepsOrder` | src/pages/AdminPage.tsx:72-76 | unticking a selected slug keeps the other selected slugs in their order |
| `AdminPage.WithoutAbsent` | src/pages/AdminPage.tsx:74 | filtering out a value the list does not hold changes nothing |
| `AdminPage.ToggleTwiceRestores` | src/pages/AdminPage.tsx:72-76 | toggling an absent slug twice gives back the original selection |
| `AdminPage.WithoutDistinct` | src/pages/AdminPage.tsx:74 | filtering keeps a duplicate-free list duplicate-free |
| `AdminPage.ToggleKeepsDistinct` | src/pages/AdminPage.tsx:72-76 | toggling keeps a duplicate-free selection duplicate-free |
| `AdminPage.GrantedName` | src/pages/AdminPage.tsx:87-91 | `product?.name ?? slug`: the found product's name, or the slug itself |
| `AdminPage.GrantedNameFromCatalog` | src/pages/AdminPage.tsx:10-91 | with the page's catalog, a catalog slug gets its product's name and any other slug is its own name |
| `AdminPage.GrantRows` | src/pages/AdminPage.tsx:86-95 | the grant adds at most one row per slug, each with the grant email, a null transaction id, status "approved" and a selected slug |
| `AdminPage.GrantRowsAllInserted` | src/pages/AdminPage.tsx:86-95 | when every insert succeeds, the grant adds exactly one row per selected slug, in selection order |
| `AdminPage.GrantEmailNonBlank` | src/pages/AdminPage.tsx:79-84 | an email that passes the blank check stays non-empty after `toLowerCase().trim()` |
| `AdminPage.ManualPurchases` | src/pages/AdminPage.tsx:54-61 | the manual list is no longer than the table |
| `AdminPage.ManualPurchasesMembers` | src/pages/AdminPage.tsx:54-61 | the manual list holds exactly the rows without a Hotmart transaction id |
| `AdminPage.ManualPurchasesSnoc` | src/pages/AdminPage.tsx:59 | newest first: a manual row appended after the others heads the list, the older manual rows behind it |
| `AdminPage.ManualPurchasesAppend` | src/pages/AdminPage.tsx:59 | every manual row of a later batch comes before every manual row of an earlier one |
| `AdminPage.GrantsAreManual` | src/pages/AdminPage.tsx:86-101 | every row a grant adds appears in the manual list fetched afterwards |
| `AdminPage.InsertGrants` | src/pages/AdminPage.tsx:86-95 | the grant loop appends exactly the grant rows to the table, whatever each insert returned |
| `AdminPage.AdminRole` | src/pages/AdminPage.tsx:36-46 | the role stays null exactly when nobody is signed in, and is true exactly when a signed-in user's `has_role` call returned true |
| `AdminPage.PageView` | src/pages/AdminPage.tsx:131-141 | as written: the spinner exactly while auth loads or the role is null; the panel exactly for a settled, signed-in admin |
| `AdminPage.PanelOnlyForAdmins` | src/pages/AdminPage.tsx:36-141 | the panel is shown exactly to a signed-in user whose role check returned true, once auth has settled |
| `AdminPage.SignedOutSpinsForever` | src/pages/AdminPage.tsx:36-141 | as written, a visitor who is not signed in gets the spinner, not the redirect |
| `AdminPage.PageViewIntended` | src/pages/AdminPage.tsx:131-141 | the intended gate: the same panel condition, and once auth settles a visitor without a session is redirected home |
| `AdminPage.SignedOutRedirected` | src/pages/AdminPage.tsx:139-141 | under the intended gate a signed-out visitor is redirected, whatever the role check would say |
| `AdminPage.AdminPanel.constructor` | src/pages/AdminPage.tsx:10-29 | the initial state: the catalog, empty grant and notification fields, no selection, an empty manual list |
| `AdminPage.AdminPanel.Toggle` | src/pages/AdminPage.tsx:72-76 | the selection becomes its toggle and no other state changes |
| `AdminPage.AdminPanel.FetchManualPurchases` | src/pages/AdminPage.tsx:54-61 | the manual list becomes the manual rows of the table, or empty when the query fails |
| `AdminPage.AdminPanel.CompleteGrant` | src/pages/AdminPage.tsx:84-101 | the table gains the grant rows; email and selection are cleared; the manual list is refetched |
| `AdminPage.AdminPanel.HandleGrantAccess` | src/pages/AdminPage.tsx:78-102 | a blank email or empty selection changes nothing; otherwise the table gains the rows for the normalised email, the inputs are cleared and the list refetched |
| `AdminPage.AdminPanel.HandleSendNotification` | src/pages/AdminPage.tsx:110-129 | sent exactly when both fields are non-blank and the call succeeds; a sent notification clears both fields, otherwise they are kept |
| `ProductManager.NewProduct` | src/components/admin/ProductManager.tsx:77-84 | `startNew`'s form has an empty id, sort order count + 1, and every other field as in `emptyProduct` |
| `ProductManager.NewProductRejected` | src/components/admin/ProductManager.tsx:28-105 | a fresh form cannot be saved until a name and a slug are typed |
| `ProductManager.TrimOrNull` | src/components/admin/ProductManager.tsx:119-124 | an optional field trimmed, or null: null exactly when absent or blank, otherwise a non-empty string without surrounding whitespace |
| `ProductManager.BuildPayload` | src/components/admin/ProductManager.tsx:108-127 | every string column is trimmed and optional blanks become null; name and slug are empty exactly when blank; arrays, sort order and active flag pass through |
| `ProductManager.TrimOrNullNormal` | src/components/admin/ProductManager.tsx:119-124 | an already normalised optional field is stored as it is |
| `ProductManager.BuildPayloadNormal` | src/components/admin/ProductManager.tsx:108-127 | saving a row that a save wrote writes the same columns again |
| `ProductManager.BuildPayloadIdempotent` | src/components/admin/ProductManager.tsx:108-127 | building the payload twice gives the same payload as building it once |
| `ProductManager.RemoveAt` | src/components/admin/ProductManager.tsx:184 | `filter((_, idx) => idx !== i)` drops exactly element `i`, and changes nothing when `i` is out of range |
| `ProductManager.AddBenefit` | src/components/admin/ProductManager.tsx:176-180 | blank input leaves the form alone; otherwise the non-empty trimmed text is appended to the benefits |
| `ProductManager.AddFaq` | src/components/admin/ProductManager.tsx:187-192 | unless both inputs are non-blank the form is unchanged; otherwise the trimmed pair is appended |
| `ProductManager.RemoveAddedBenefit` | src/components/admin/ProductManager.tsx:176-185 | removing the benefit just added gives back the previous list |
| `ProductManager.RemoveAddedFaq` | src/components/admin/ProductManager.tsx:187-197 | removing the FAQ just added gives back the previous list |
| `ProductManager.RemoveAtShifts` | src/components/admin/ProductManager.tsx:182-197 | removal keeps the other elements in order: those after `i` move down by one |
| `ProductManager.Get` | src/components/admin/ProductManager.tsx:6-26 | reading a column yields a value of that column's type |
| `ProductManager.GetSetSame` | src/components/admin/ProductManager.tsx:199-202 | `updateField` writes the named field: it reads back the value written |
| `ProductManager.GetSetOther` | src/components/admin/ProductManager.tsx:199-202 | `updateField` changes only the named field: every other field keeps its value |
| `ProductManager.SetFieldCurrent` | src/components/admin/ProductManager.tsx:199-202 | writing a field with the value it holds leaves the row unchanged |
| `ProductManager.UpdateById` | src/components/admin/ProductManager.tsx:138 | `update(payload).eq("id", id)`: same rows and ids, the matching rows take the payload, the others are unchanged |
| `ProductManager.SetActiveById` | src/components/admin/ProductManager.tsx:165-168 | only the matching rows' `is_active` changes |
| `ProductManager.DeleteById` | src/components/admin/ProductManager.tsx:155 | no row with the id survives, every other row survives in its order, and no row is invented |
| `ProductManager.DeleteByIdSnoc` | src/components/admin/ProductManager.tsx:155 | a row after the others stays, at the end, exactly when its id differs |
| `ProductManager.DeleteByIdAppend` | src/components/admin/ProductManager.tsx:155 | the delete keeps the surviving rows in their order: deleting from two runs of rows is deleting from each, in sequence |
| `ProductManager.UpdateMissingId` | src/components/admin/ProductManager.tsx:138 | updating an id that no row carries changes nothing |
| `ProductManager.ToggleTwice` | src/components/admin/ProductManager.tsx:164-174 | toggling a row twice, each time from the flag it shows, restores the row |
| `ProductManager.ProductsTable.constructor` | src/components/admin/ProductManager.tsx:63-71 | a table starts with the given rows |
| `ProductManager.ProductsTable.Insert` | src/components/admin/ProductManager.tsx:130 | on success the row with the assigned id is appended; on error nothing changes |
| `ProductManager.ProductsTable.Update` | src/components/admin/ProductManager.tsx:138 | on success the rows become their update by id; on error nothing changes |
| `ProductManager.ProductsTable.SetActive` | src/components/admin/ProductManager.tsx:165-168 | on success the matching rows take the flag; on error nothing changes |
| `ProductManager.ProductsTable.Delete` | src/components/admin/ProductManager.tsx:155 | on success the matching rows are deleted; on error nothing changes |
| `ProductManager.ManagerPanel.constructor` | src/components/admin/ProductManager.tsx:52-61 | the initial state: no products, loading, no form open, empty inputs |
| `ProductManager.ManagerPanel.FetchProducts` | src/components/admin/ProductManager.tsx:63-71 | the list becomes the table, or empty when the query fails; loading ends and the form is untouched |
| `ProductManager.ManagerPanel.StartNew` | src/components/admin/ProductManager.tsx:77-84 | the form opens on the new product for the current count, marked new, with the inputs cleared |
| `ProductManager.ManagerPanel.StartEdit` | src/components/admin/ProductManager.tsx:86-93 | the form opens on the row, marked not new, with the inputs cleared |
| `ProductManager.ManagerPanel.Cancel` | src/components/admin/ProductManager.tsx:95-98 | the form closes and nothing else changes |
| `ProductManager.ManagerPanel.CompleteSave` | src/components/admin/ProductManager.tsx:129-150 | a new product is inserted, an existing one updated by id; on error the form stays open, on success it closes and the list is refetched |
| `ProductManager.ManagerPanel.HandleSave` | src/components/admin/ProductManager.tsx:100-151 | no form, a blank name or slug, and a failed write each leave the table and form unchanged; a save writes the normalised payload, closes the form and refetches |
| `ProductManager.ManagerPanel.HandleDelete` | src/components/admin/ProductManager.tsx:153-162 | only a confirmed, successful delete removes the rows with the id and refetches the list |
| `ProductManager.ManagerPanel.ToggleActive` | src/components/admin/ProductManager.tsx:164-174 | on success the row's `is_active` becomes the negation of the flag the list showed, and the list is refetched |
| `ProductManager.ManagerPanel.AddBenefitInput` | src/components/admin/ProductManager.tsx:176-180 | blank input or a closed form changes nothing; otherwise the trimmed benefit is appended and the input cleared |
| `ProductManager.ManagerPanel.RemoveBenefit` | src/components/admin/ProductManager.tsx:182-185 | the open form's benefits lose element `i`; a closed form stays closed |
| `ProductManager.ManagerPanel.AddFaqInput` | src/components/admin/ProductManager.tsx:187-192 | unless both inputs are filled and a form is open nothing changes; otherwise the trimmed pair is appended and both inputs cleared |
| `ProductManager.ManagerPanel.RemoveFaq` | src/components/admin/ProductManager.tsx:194-197 | the open form's FAQs lose element `i`; a closed form stays closed |
| `ProductManager.ManagerPanel.UpdateField` | src/components/admin/ProductManager.tsx:199-202 | the open form has the named field set to the value; a closed form stays closed |
| `Analytics.SessionsMembers` | src/components/admin/AnalyticsPanel.tsx:50-54 | a session is counted for a page exactly when some row of that page carries it as a non-empty id |
| `Analytics.LiveSessions` | src/components/admin/AnalyticsPanel.tsx:49-57 | the live list is the per-page session entries, sorted by count |
| `Analytics.FillSessions` | src/components/admin/AnalyticsPanel.tsx:50-54 | the loop leaves one key per distinct page, in first-seen order, each mapped to the page's set of non-empty session ids |
| `Analytics.SessionsStep` | src/components/admin/AnalyticsPanel.tsx:51-54 | one row of the loop keeps the keys and sets in step with the rows read so far |
| `Analytics.PagesStep` | src/components/admin/AnalyticsPanel.tsx:52 | the key list grows by the row's page exactly when that page is new |
| `Analytics.SessionsMapStep` | src/components/admin/AnalyticsPanel.tsx:52-53 | after one row, every page's set is the sessions of the rows read so far |
| `Analytics.SessionsAbsent` | src/components/admin/AnalyticsPanel.tsx:50-54 | a page with no rows read so far has no sessions |
| `Analytics.SessionsBound` | src/components/admin/AnalyticsPanel.tsx:53 | each row adds at most one session to its page |
| `Analytics.LiveEntry` | src/components/admin/AnalyticsPanel.tsx:50-57 | every live entry is a page of the rows, counted with its distinct sessions, never more than its rows |
| `Analytics.LivePageListed` | src/components/admin/AnalyticsPanel.tsx:50-57 | every page of the rows is listed with its number of distinct sessions |
| `Analytics.LiveNullOnlyPage` | src/components/admin/AnalyticsPanel.tsx:52-53 | a page seen only with missing or empty session ids is listed with count 0 |
| `Analytics.DailySeries` | src/components/admin/AnalyticsPanel.tsx:70-81 | the day-map loop and the bar loop give exactly the seven bars of the day keys, oldest first |
| `Analytics.PushBars` | src/components/admin/AnalyticsPanel.tsx:76-81 | the bar loop pushes, for each key from six days ago to today, the map's count or 0 |
| `Analytics.DailyZeroDays` | src/components/admin/AnalyticsPanel.tsx:70-81 | a bar is 0 exactly when no row's first ten characters are its key, and no bar exceeds the week's rows |
| `Analytics.DailyTotalBound` | src/components/admin/AnalyticsPanel.tsx:69-81 | with seven distinct day keys the bars together count no more rows than the week's total |
| `Analytics.TopPages` | src/components/admin/AnalyticsPanel.tsx:100-110 | the page-map loop, sort and slice give exactly the top-pages specification |
| `Analytics.SortedEntry` | src/components/admin/AnalyticsPanel.tsx:101-108 | every sorted entry is a page of the rows with its number of rows |
| `Analytics.TopPagesCounts` | src/components/admin/AnalyticsPanel.tsx:100-110 | at most ten entries, by non-increasing count, each a page with its number of views |
| `Analytics.TopPagesOmitted` | src/components/admin/AnalyticsPanel.tsx:105-110 | a viewed page left out of the list has no more views than the tenth listed page |
| `Analytics.FirstWithKeyFound` | src/components/admin/AnalyticsPanel.tsx:122-124 | a group's stored row exists exactly for keys read so far, and carries that key |
| `Analytics.GroupClicks` | src/components/admin/AnalyticsPanel.tsx:120-129 | the click groups are the map's values, sorted by count |
| `Analytics.MapValues` | src/components/admin/AnalyticsPanel.tsx:128 | `Object.values` of a map filled in key order: one value per key, in that order |
| `Analytics.FillClicks` | src/components/admin/AnalyticsPanel.tsx:121-126 | the loop leaves one key per distinct `type::page`, in first-seen order, each mapped to its group |
| `Analytics.ClicksStep` | src/components/admin/AnalyticsPanel.tsx:122-125 | one row of the loop keeps the keys and groups in step with the rows read so far |
| `Analytics.ClickKeysStep` | src/components/admin/AnalyticsPanel.tsx:123-124 | the key list grows by the row's key exactly when it is new |
| `Analytics.ClickMapStep` | src/components/admin/AnalyticsPanel.tsx:124-125 | after one row, every stored group is the group of the rows read so far |
| `Analytics.GroupStep` | src/components/admin/AnalyticsPanel.tsx:124-125 | one more row only touches its own group: a new group starts at 1, an existing one gains 1 |
| `Analytics.ClickCountsSum` | src/components/admin/AnalyticsPanel.tsx:121-128 | every click row is counted in exactly one group: the counts add up to the number of rows |
| `Analytics.ClickKeyInjective` | src/components/admin/AnalyticsPanel.tsx:117-123 | for the two queried event types, the group key determines the event type and the page |
| `Analytics.OccClickKey` | src/components/admin/AnalyticsPanel.tsx:117-125 | counting by group key is counting equal rows when every event type is one of the two queried |
| `Analytics.ClickGroupAt` | src/components/admin/AnalyticsPanel.tsx:121-126 | each group is an (event type, page) of the rows, counted with the rows that have it |
| `Analytics.ClickGroupListed` | src/components/admin/AnalyticsPanel.tsx:120-129 | the same holds for each group of the sorted list |
| `Analytics.FormatPage` | src/components/admin/AnalyticsPanel.tsx:135-142 | a path is shown as it is exactly when it is neither labelled nor under "/p/"; "/p/x" shows "Produto: x"; labels never start with '/' |
| `Analytics.FormatPageInjective` | src/components/admin/AnalyticsPanel.tsx:135-142 | two different paths never get the same label |
| `Analytics.FormatEventType` | src/components/admin/AnalyticsPanel.tsx:144-148 | the event type is shown unchanged exactly when it is not one of the two click types |
| `Analytics.Element` | src/components/admin/AnalyticsPanel.tsx:151-152 | a destructured element is the part when present, and "undefined" otherwise |
| `Analytics.FormatDate` | src/components/admin/AnalyticsPanel.tsx:150-153 | the label holds no '-' |
| `Analytics.FormatDateOfKey` | src/components/admin/AnalyticsPanel.tsx:150-153 | "YYYY-MM-DD" is shown as "DD/MM" |
| `Analytics.FormatDateNoDash` | src/components/admin/AnalyticsPanel.tsx:150-153 | a string without '-' is shown as "undefined/undefined" |
| `Analytics.MaxDaily` | src/components/admin/AnalyticsPanel.tsx:163 | at least 1, no bar above it, and equal to some bar unless it is the floor 1 |
| `Analytics.AnalyticsPanel.constructor` | src/components/admin/AnalyticsPanel.tsx:21-28 | the initial state: loading, empty lists, zero totals |
| `Analytics.AnalyticsPanel.SetLive` | src/components/admin/AnalyticsPanel.tsx:49-59 | the live list becomes the sorted session entries and nothing else changes |
| `Analytics.AnalyticsPanel.SetWeek` | src/components/admin/AnalyticsPanel.tsx:68-83 | the week total becomes the number of week rows and the bars become the daily counts |
| `Analytics.AnalyticsPanel.SetTopPages` | src/components/admin/AnalyticsPanel.tsx:100-111 | the top pages become the top-pages specification of the rows |
| `Analytics.AnalyticsPanel.SetButtonClicks` | src/components/admin/AnalyticsPanel.tsx:120-130 | the click list becomes the sorted groups of the rows |
| `Analytics.AnalyticsPanel.FetchAnalytics` | src/components/admin/AnalyticsPanel.tsx:34-133 | each query with data replaces its part, one without data leaves it; today's total defaults to 0; loading ends |
| `Tally.Occ` | src/components/admin/AnalyticsPanel.tsx:103 | an occurrence count is at most the length, and 0 exactly when the element is absent |
| `Tally.OccSnoc` | src/components/admin/AnalyticsPanel.tsx:103 | one more element adds one to its own count and nothing to the others |
| `Tally.FirstSeen` | src/components/admin/AnalyticsPanel.tsx:55 | the keys of a map filled in order: duplicate-free, and exactly the elements of the input |
| `Tally.FirstSeenSnoc` | src/components/admin/AnalyticsPanel.tsx:55 | one more element extends the keys by it exactly when it is new |
| `Tally.FirstSeenPrefixStep` | src/components/admin/AnalyticsPanel.tsx:52 | a loop's key list after one more element is the first-seen list of the longer prefix |
| `Tally.SumOccSnocRow` | src/components/admin/AnalyticsPanel.tsx:103 | one more row adds its count among the keys to the total |
| `Tally.SumOccSnocKey` | src/components/admin/AnalyticsPanel.tsx:103 | one more key adds its occurrences to the total |
| `Tally.OccDistinct` | src/components/admin/AnalyticsPanel.tsx:55 | in a duplicate-free list an element occurs once if present and zero times otherwise |
| `Tally.SumOccFirstSeen` | src/components/admin/AnalyticsPanel.tsx:101-107 | counting every first-seen key accounts for every element exactly once |
| `Tally.SumOccDistinctBound` | src/components/admin/AnalyticsPanel.tsx:76-81 | counting distinct keys never counts more elements than there are |
| `Tally.SumOccEmpty` | src/components/admin/AnalyticsPanel.tsx:103 | nothing is counted in an empty list |
| `Tally.CountEntries` | src/components/admin/AnalyticsPanel.tsx:101-107 | `Object.entries` of a counting map whose keys are neither inherited names nor array indices: each first-seen key with its number of occurrences |
| `Tally.TotalOfCounts` | src/components/admin/AnalyticsPanel.tsx:101-107 | entries counting keys' occurrences add up to the sum of those occurrences |
| `Tally.CountEntriesTotal` | src/components/admin/AnalyticsPanel.tsx:101-107 | the counts of the entries add up to the number of elements counted |
| `Tally.CountOccurrences` | src/components/admin/AnalyticsPanel.tsx:70-74 | the counting loop that adds one to the key's count, from 0 when absent, leaves the first-seen keys, each mapped to its number of occurrences |
| `Tally.CountStep` | src/components/admin/AnalyticsPanel.tsx:73 | one step of the counting loop keeps the map equal to the counts of the elements read so far |
| `Tally.FirstSeenHas` | src/components/admin/AnalyticsPanel.tsx:55 | an element is among the first-seen keys exactly when it occurs |
| `Tally.KeysStep` | src/components/admin/AnalyticsPanel.tsx:124 | setting a key keeps the key list equal to the map's keys; it grows exactly when the key is new |
| `Tally.Take` | src/components/admin/AnalyticsPanel.tsx:109 | `slice(0, n)`: a prefix of length `n`, or the whole list when it is shorter |
| `Tally.InsertDesc` | src/components/admin/AnalyticsPanel.tsx:57 | inserting into a list sorted by non-increasing count keeps it sorted and adds exactly the new entry |
| `Tally.SortDesc` | src/components/admin/AnalyticsPanel.tsx:57 | `sort((a, b) => b.count - a.count)`: a permutation ordered by non-increasing count |
| `Tally.InsertDescWithCount` | src/components/admin/AnalyticsPanel.tsx:57 | inserting an entry puts it ahead of the entries with its count and keeps the order of all others |
| `Tally.SortDescStable` | src/components/admin/AnalyticsPanel.tsx:108-109 | the sort is stable: the entries of each count keep their input order, so ties before the top-ten cut keep the order `Object.entries` gives, first-seen for keys that are not array indices |
| `Tally.TotalCountPermutation` | src/components/admin/AnalyticsPanel.tsx:128 | reordering entries keeps the total of their counts |
| `Tally.MultisetRemoveLast` | src/components/admin/AnalyticsPanel.tsx:128 | removing the last element of one side and an equal element of the other keeps the multisets equal |
| `Tally.TotalCountRemove` | src/components/admin/AnalyticsPanel.tsx:128 | the total without one entry is the total less that entry's count |
| `Tally.TotalCountAppend` | src/components/admin/AnalyticsPanel.tsx:128 | the total of a concatenation is the sum of the totals |
| `Text.TrimStart` | src/pages/AdminPage.tsx:84 | the leading whitespace goes: the result starts with a non-space, and is empty exactly when the input is all whitespace |
| `Text.TrimEnd` | src/pages/AdminPage.tsx:84 | the trailing whitespace goes: the result ends with a non-space, and is empty exactly when the input is all whitespace |
| `Text.Trim` | src/components/admin/ProductManager.tsx:102-127 | `trim` leaves no whitespace at either end, and is empty exactly when the input is blank |
| `Text.BlankIsEmptyTrim` | src/pages/AdminPage.tsx:79 | `!s.trim()` holds exactly for the blank strings |
| `Text.TrimUnpadded` | src/components/admin/ProductManager.tsx:108-127 | a string without surrounding whitespace is its own trim |
| `Text.TrimIdempotent` | src/components/admin/ProductManager.tsx:108-127 | trimming twice is trimming once |
| `Text.IndexOf` | src/components/assistente/ResultView.tsx:23 | the first position of a character known to occur |
| `Text.IndexOfAt` | src/components/assistente/ResultView.tsx:23 | a position holding the character with none before it is the first position |
| `Text.Split` | src/components/assistente/ResultView.tsx:23 | `split` on one character: at least one piece, and no piece holds the separator |
| `Text.JoinSnoc` | src/components/assistente/types.ts:127 | joining one more piece adds one separator and the piece |
| `Text.OccurrencesAppend` | src/components/assistente/ResultView.tsx:23 | separator counts are additive over concatenation |
| `Text.OccurrencesAbsent` | src/components/assistente/ResultView.tsx:23 | a character that does not occur is counted 0 times |
| `Text.JoinSplit` | src/components/assistente/ResultView.tsx:16-23 | joining the pieces of a split with the separator gives back the string |
| `Text.SplitCount` | src/components/assistente/ResultView.tsx:23-25 | a split has one piece more than the string has separators |
| `Text.SplitJoin` | src/components/assistente/types.ts:127 | splitting a join of separator-free pieces gives back the pieces |
| `Text.ToLower` | src/pages/AdminPage.tsx:84 | `toLowerCase` maps each character by itself and keeps the length |
| `Text.LowerCharSpace` | src/pages/AdminPage.tsx:84 | lower-casing maps whitespace to whitespace and nothing else to whitespace |
| `Text.Lookup` | supabase/functions/assistente-ai/index.ts:104-108 | a read of an own property of a table object: absent exactly when no entry has the key, otherwise the value of an entry with that key |
| `Text.LookupAt` | supabase/functions/assistente-ai/index.ts:104-108 | a key that no earlier entry carries is read as its own value |
| `AssistenteTypes.ParseCategory` | src/components/assistente/types.ts:13 | exactly the three category keys name a category, and each names the one with that key |
| `AssistenteTypes.Info` | src/components/assistente/types.ts:26-39 | `CATEGORY_INFO` is total: every category has a non-empty label and description |
| `AssistenteTypes.CategoryKeyRoundTrip` | src/components/assistente/types.ts:13 | every category's key parses back to that category |
| `AssistenteTypes.CategoryTable` | src/components/assistente/types.ts:26-39 | no two categories share a key or a label |
| `AssistenteTypes.NonEmpty` | src/components/assistente/types.ts:126 | `filter(Boolean)` keeps only non-empty strings of the input and never lengthens it |
| `AssistenteTypes.PresentLinesCount` | src/components/assistente/types.ts:119-126 | there is one present line per non-empty optional field |
| `AssistenteTypes.FieldLines` | src/components/assistente/types.ts:119-124 | one candidate per optional field: its labelled line, or empty where the value is empty |
| `AssistenteTypes.NonEmptyOfFieldLines` | src/components/assistente/types.ts:119-126 | filtering the candidates keeps exactly the lines of the non-empty fields, in order |
| `AssistenteTypes.ProfileCandidatesShape` | src/components/assistente/types.ts:116-125 | the candidate array is "Nome: …", "Ano: …", then one candidate per optional field |
| `AssistenteTypes.ProfileLines` | src/components/assistente/types.ts:115-126 | the profile lines are "Nome: …", "Ano: …", then one line per non-empty optional field in fixed order: 2 plus that many |
| `AssistenteTypes.FixedThenPresent` | src/components/assistente/types.ts:116-126 | two non-empty lines followed by field candidates filter to the two lines and the present fields |
| `AssistenteTypes.NonEmptyCons` | src/components/assistente/types.ts:126 | a non-empty first element survives the filter |
| `AssistenteTypes.PresentLinesSingle` | src/components/assistente/types.ts:119-124 | fields without line breaks give lines without line breaks |
| `AssistenteTypes.ProfileSplitsIntoLines` | src/components/assistente/types.ts:115-127 | with no line break in any field, splitting the profile on "\n" gives exactly its lines; there is no trailing separator |
| `AssistenteTypes.AfterHashes` | src/components/assistente/types.ts:105 | the rest of a `#{1,6}\s?` match is a suffix of the input |
| `AssistenteTypes.StripHashes` | src/components/assistente/types.ts:105 | `replace(/#{1,6}\s?/g, "")` leaves no '#' and only characters of the input |
| `AssistenteTypes.FindClose` | src/components/assistente/types.ts:106-111 | the lazy search finds the first closing delimiter, with no line terminator before it unless any character may match |
| `AssistenteTypes.ReplacePaired` | src/components/assistente/types.ts:106-111 | a paired-delimiter rewrite keeps only characters of its input |
| `AssistenteTypes.RemoveFenced` | src/components/assistente/types.ts:110 | removing fenced blocks keeps only characters of the input |
| `AssistenteTypes.RemoveRules` | src/components/assistente/types.ts:112 | removing "---" lines keeps only characters of the input |
| `AssistenteTypes.RemoveQuotes` | src/components/assistente/types.ts:113 | removing quote markers keeps only characters of the input |
| `AssistenteTypes.StripMarkdown` | src/components/assistente/types.ts:103-113 | no '#' survives, and the result holds only characters of the input |
| `AssistenteTypes.StripHashesIdentity` | src/components/assistente/types.ts:105 | text without '#' is left unchanged by the first rewrite |
| `AssistenteTypes.ReplacePairedIdentity` | src/components/assistente/types.ts:106-111 | text without the delimiter's first character is left unchanged |
| `AssistenteTypes.RemoveFencedIdentity` | src/components/assistente/types.ts:110 | text without '`' is left unchanged |
| `AssistenteTypes.RemoveRulesIdentity` | src/components/assistente/types.ts:112 | text with no line equal to "---" is left unchanged |
| `AssistenteTypes.RemoveQuotesIdentity` | src/components/assistente/types.ts:113 | text with no line starting with '>' and whitespace is left unchanged |
| `AssistenteTypes.NoMarkupUnchanged` | src/components/assistente/types.ts:103-113 | text without markup comes back unchanged |
| `AssistenteTypes.AsterisksOnlyUnchanged` | src/components/assistente/types.ts:103-113 | text whose only markup is asterisks that pair with nothing comes back unchanged |
| `AssistenteTypes.LoneStarSurvives` | src/components/assistente/types.ts:106-107 | the converse fails: "a*b" holds markup and comes back unchanged |
| `AssistenteTypes.LoneStarNotBold` | src/components/assistente/types.ts:106 | "a*b" holds no bold pair |
| `AssistenteTypes.LoneStarNotItalic` | src/components/assistente/types.ts:107 | the single '*' of "a*b" has no closing '*' |
| `AssistenteTypes.RuleLineEmptied` | src/components/assistente/types.ts:112 | a line that is exactly "---" is emptied and the line break after it kept |
| `AssistenteTypes.QuoteMarkerRemoved` | src/components/assistente/types.ts:113 | "> " is removed at the start of a line and only there |
| `AssistenteTypes.InlineRewritesIdentity` | src/components/assistente/types.ts:105-111 | the first seven rewrites leave text without '#', '*', '_' and '`' alone |
| `AssistenteTypes.RemoveQuotesNoMarker` | src/components/assistente/types.ts:113 | text without '>' is left unchanged by the last rewrite |
| `AssistenteTypes.RemoveRulesNoDash` | src/components/assistente/types.ts:112 | text without '-' is left unchanged by the rule rewrite |
| `AssistenteTypes.RuleExample` | src/components/assistente/types.ts:103-113 | a text that is one "---" line is emptied |
| `AssistenteTypes.QuoteOpeningDropped` | src/components/assistente/types.ts:103-113 | a "> " opening plain text is dropped and the rest kept |
| `AssistenteAi.Render` | supabase/functions/assistente-ai/index.ts:77-162 | a present string member is written as itself in a template |
| `AssistenteAi.DispatchFor` | supabase/functions/assistente-ai/index.ts:31-52 | exactly the three actions have a (model, max_tokens) entry |
| `AssistenteAi.DispatchTable` | supabase/functions/assistente-ai/index.ts:31-46 | suggest-theme is (gemini-2.5-flash-lite, 100), refine-chat (gemini-2.5-flash-lite, 500), generate (gemini-3-flash-preview, 3000); a missing action has none |
| `AssistenteAi.AvoidClause` | supabase/functions/assistente-ai/index.ts:78-80 | the avoid clause is empty exactly when there are no previous themes |
| `AssistenteAi.TurmaClause` | supabase/functions/assistente-ai/index.ts:81 | the turma clause is empty exactly when no profile is set |
| `AssistenteAi.SuggestThemeMessages` | supabase/functions/assistente-ai/index.ts:77-90 | exactly a system message and a user message, with their contents |
| `AssistenteAi.JoinOneLine` | supabase/functions/assistente-ai/index.ts:79 | joining single-line pieces with a single-line separator gives one line |
| `AssistenteAi.AppendLine` | supabase/functions/assistente-ai/index.ts:86-88 | "\n" and a line after a join of lines is the join of one more line |
| `AssistenteAi.SuggestThemeLines` | supabase/functions/assistente-ai/index.ts:77-90 | the system message is the instruction, then the avoid line exactly when there are themes (", "-joined in order), then the turma line exactly when a profile is set; the user message is the year and subject lines |
| `AssistenteAi.PieceSplit` | supabase/functions/assistente-ai/index.ts:88 | a line, "\nName: " and a value split into the line and "Name: value" |
| `AssistenteAi.SuggestSystemSplit` | supabase/functions/assistente-ai/index.ts:78-86 | the system content is the instruction alone or followed by its extra lines, which split back apart |
| `AssistenteAi.ClausesAsLines` | supabase/functions/assistente-ai/index.ts:78-86 | optional clauses of the form "\n" + line appended to a text are its extra lines |
| `AssistenteAi.RefineChatMessages` | supabase/functions/assistente-ai/index.ts:92-101 | one system message followed by the client's messages unchanged and in order, or a failure when there are none to spread |
| `AssistenteAi.CategoryLabel` | supabase/functions/assistente-ai/index.ts:104-108 | the category name: the table label when the category is one of the table's own keys, otherwise the raw category |
| `AssistenteAi.CategoryLabels` | supabase/functions/assistente-ai/index.ts:104-108 | the three category keys get their labels |
| `AssistenteAi.GenerateMessages` | supabase/functions/assistente-ai/index.ts:103-164 | a system message and the user request, in that order |
| `AssistenteAi.GenerateSystemProfile` | supabase/functions/assistente-ai/index.ts:109-111 | the system content is the fixed instruction without a class profile, and the instruction followed by the profile paragraph when a profile is given |
| `AssistenteAi.CategoryLabelOneLine` | supabase/functions/assistente-ai/index.ts:104-108 | a single-line category gets a single-line label |
| `AssistenteAi.OptionalLineJoin` | supabase/functions/assistente-ai/index.ts:162 | an optional line adds one line exactly when its field is set |
| `AssistenteAi.TemplateLine` | supabase/functions/assistente-ai/index.ts:162 | a "\nName: " piece and a value add the line "Name: value" |
| `AssistenteAi.TemplateJoin` | supabase/functions/assistente-ai/index.ts:162 | the generation template is its lines joined by "\n", with the two optional lines present exactly when set |
| `AssistenteAi.GenerateUserJoin` | supabase/functions/assistente-ai/index.ts:162 | the user request is its lines joined by "\n" |
| `AssistenteAi.GenerateUserLinesOneLine` | supabase/functions/assistente-ai/index.ts:162 | fields without line breaks give request lines without line breaks |
| `AssistenteAi.GenerateLines` | supabase/functions/assistente-ai/index.ts:160-163 | the request splits into the label, year, subject, the duration and level lines exactly when set, the theme and the objective: 5 lines plus the optional ones |
| `AssistenteAi.ContentOf` | supabase/functions/assistente-ai/index.ts:63-64 | `choices[0].message.content` when that is a non-empty string, otherwise "" |
| `AssistenteAi.Handle` | supabase/functions/assistente-ai/index.ts:10-75 | OPTIONS short-circuits; a 500 `AI not configured` exactly when the key is missing, before the body; a thrown-error 500 exactly when the body does not parse, the conversation cannot be spread, or the gateway call or its parse throws; an unknown action is a 400 with no gateway call; a known one calls the gateway with its table entry and the messages of that action's builder, and a reply gives its content |
| `AssistenteAi.GenerateRequest` | supabase/functions/assistente-ai/index.ts:42-61 | a generation request sends the generation messages to gemini-3-flash-preview with 3000 tokens |
| `AssistenteAi.RefineRequest` | supabase/functions/assistente-ai/index.ts:37-61 | a refinement sends, with 500 tokens, the refinement instruction as system message followed by the conversation so far |
| `ResultView.LeadingDigits` | src/components/assistente/ResultView.tsx:48 | the length of the maximal run of digits the line starts with |
| `ResultView.NumberedMeansDigitsThenMark` | src/components/assistente/ResultView.tsx:48 | the scan agrees with `/^\d+[\.\)]/`: some non-empty run of digits followed by '.' or ')' |
| `ResultView.LeadingDigitsAt` | src/components/assistente/ResultView.tsx:48 | a digit run ended by a non-digit is the leading run |
| `ResultView.HeaderNotNumbered` | src/components/assistente/ResultView.tsx:30-48 | a header never starts with a digit, so it is never a numbered item |
| `ResultView.Classify` | src/components/assistente/ResultView.tsx:25-67 | spacer exactly for blank lines; otherwise the trimmed text; header exactly under the header test (length in UTF-16 code units); numbered exactly under the numbered test and not a header |
| `ResultView.AstralHeader` | src/components/assistente/ResultView.tsx:30-34 | a line of an emoji and three capitals is four characters but five UTF-16 units, and it is a header |
| `ResultView.OneClassPerLine` | src/components/assistente/ResultView.tsx:26-67 | every non-blank line is exactly one of header, numbered item and paragraph |
| `ResultView.RenderResult` | src/components/assistente/ResultView.tsx:21-69 | one element per "\n"-separated line of the cleaned text (one more than its line breaks), each the classification of its line |
| `ResultView.CopyText` | src/components/assistente/ResultView.tsx:15-19 | the copied text is the cleaned text: no '#', only characters of the result |
| `ResultView.CopyMatchesRenderedLines` | src/components/assistente/ResultView.tsx:15-25 | the copied text is the rendered lines joined back with "\n" |
| `AutoNotifications.BrHour` | supabase/functions/auto-notifications/index.ts:38 | the Brasília hour is in 0..23 and is three hours behind the UTC hour |
| `AutoNotifications.WindowsInUtc` | supabase/functions/auto-notifications/index.ts:38-41 | morning is 10:00-14:59 UTC and evening 21:00-00:59 UTC, and they never overlap |
| `AutoNotifications.Pool` | supabase/functions/auto-notifications/index.ts:7-21 | each pool holds five messages |
| `AutoNotifications.PickIndex` | supabase/functions/auto-notifications/index.ts:51 | `Math.floor(rand * n)` is the index within the pool whose slot holds the draw |
| `AutoNotifications.FloorBounds` | supabase/functions/auto-notifications/index.ts:51 | the floor is within one below its argument |
| `AutoNotifications.FloorBelow` | supabase/functions/auto-notifications/index.ts:51 | the floor of a value in [0, n) is an index below n |
| `AutoNotifications.ScaledDrawBelow` | supabase/functions/auto-notifications/index.ts:51 | a draw in [0, 1) scaled by n lies in [0, n) |
| `AutoNotifications.Notify` | supabase/functions/auto-notifications/index.ts:23-82 | OPTIONS short-circuits; no key is a 500; outside both windows the job skips; a sent message comes from the pool of its window |
| `AutoNotifications.SendsInsideWindows` | supabase/functions/auto-notifications/index.ts:38-74 | a configured run inside a window sends, unless the OneSignal call throws, which is a 500 |
| `AutoNotifications.EveryMessageReachable` | supabase/functions/auto-notifications/index.ts:50-51 | every message of the window's pool is sent for some draw |

## Left out

- HTTP and Deno plumbing: `Deno.serve`, CORS header strings, JSON bodies of responses and logging. Responses are a datatype of outcomes.
- The Supabase client: each table is an in-memory sequence held by a class. Query errors and database-assigned ids are parameters.
- The database's `id` and `created_at` defaults: they are not columns of the records. A table's append order stands for creation order. The manual-purchase list is built newest first, for its `order("created_at", { ascending: false })`. The product lists' `order("sort_order")` is not modelled: they come back in table order.
- Concurrency: the webhook's check-then-insert is not atomic when two deliveries overlap. Only sequential deliveries are modelled.
- Network calls: the LLM gateway fetch and its reply are a parameter, and the OneSignal request body is not built. `send-notification`, `auto-login`, `useAuth` and the login page are not part of this model.
- Clocks: the UTC hour, and the seven day keys of the histogram, are inputs. The date arithmetic and `toISOString` are not modelled.
- Randomness: `Math.random()` is a real parameter in [0, 1).
- Floating point: chart bar percentages are not modelled.
- JSON values that are not strings: a payload field holding a number or an object is not modelled. Fields are either absent or a string.
- Case mapping: outside ASCII and Latin-1, `toLowerCase` and `toUpperCase` leave characters unchanged in the model.
- Browser storage: the `localStorage` helpers in `types.ts` are not modelled.
- UI-only state: toasts, spinners, the `saving`, `granting` and `sending` flags, and `showAdvanced` beyond its reset.
- `fetchNotifications` and `handleRemoveAccess` on the admin page. They are a list query and a delete by id, with no decision in them.
- `AdminPage.AdminPanel.HandleSendNotification`: a thrown `invoke` is the same parameter as a returned error; the notification list refetch is not modelled.
- `ProductManager.ManagerPanel.UpdateField`: it accepts only a value of the column's own type, while the source accepts `any`.
- `AssistenteTypes.NoMarkupUnchanged`: it proves one direction only: text without markup comes back unchanged. The converse is false, and `AssistenteTypes.LoneStarSurvives` exhibits "a*b".
- `AssistenteTypes.ReplacePaired`: the rewrites are modelled concretely, with a lazy search for the closing delimiter. Only their character-preservation is in their contracts; their exact output is pinned by the identity and example lemmas.
- Page names used as keys of a plain object. The analytics panel keys `pageSessionMap` and `pageMap` by page, and a page is any string. The model reads these maps as association lists in first-seen order. That is what the source does for every page that is neither a name inherited from `Object.prototype` (`constructor`, `toString`, `valueOf`, `__proto__`, ...) nor an array index ("0", "42", ...). For those two kinds of page it differs:
  - inherited name, live list: `pageSessionMap[page]` is already truthy, so no `Set` is made. A row of that page with a session id makes `.add` throw; without one, the page is not an own key and is not listed.
  - inherited name, top pages: `pageMap[page] || 0` reads the inherited value. For a function it yields a string such as "function Object() { [native code] }1", and an assignment to `__proto__` is dropped.
  - array index: `Object.entries` lists such keys first, in numeric order, before the other keys in insertion order. This changes the order of tied entries, and so which tied pages survive `slice(0, 10)`.
- `Analytics.LiveSessions`: lists an inherited-name page with its session count, where the source throws (with a session id) or leaves it out; lists array-index pages in first-seen order.
- `Analytics.FillSessions`: gives an inherited-name page its own set of sessions, where the source throws or keeps no own key.
- `Analytics.LivePageListed`: lists every page, including an inherited-name page the source leaves out or throws on.
- `Analytics.LiveNullOnlyPage`: lists an inherited-name page seen only without session ids with count 0; the source does not list it.
- `Analytics.TopPages`: counts an inherited-name page as a number, where the source stores a string or drops `__proto__`; breaks ties between array-index pages and others in first-seen order.
- `Analytics.SortedEntry`: gives an inherited-name page its number of rows, where the source's value is not a count.
- `Analytics.TopPagesCounts`: the same inherited-name gap as `Analytics.TopPages`.
- `Analytics.TopPagesOmitted`: can list a `__proto__` page, which the source always omits; the tie order of array-index pages differs.
- `Analytics.AnalyticsPanel.SetLive`: inherits the gap of `Analytics.LiveSessions`.
- `Analytics.AnalyticsPanel.SetTopPages`: inherits the gap of `Analytics.TopPages`.
- `Analytics.AnalyticsPanel.FetchAnalytics`: always ends with `loading` false. In the source, a live row whose page is an inherited name and whose session id is set makes the `forEach` throw, and `loading` stays true.
- `Tally.CountEntries`: lists keys in first-seen order, which is `Object.entries` order only for keys that are neither inherited names nor array indices.
- `Tally.SortDescStable`: stability is proved; "first-seen order" among ties holds only where `Tally.CountEntries` gives `Object.entries` order.
- `AssistenteAi.GenerateMessages`: its own contract pins the roles and the user request. The system content, with its class-profile paragraph, is stated by `AssistenteAi.GenerateSystemProfile`.
- `Text.Lookup`: names inherited from `Object.prototype` (`constructor`, `toString`, `__proto__`, ...) are not keys in the model. In JavaScript reading one yields a function or an object, not `undefined`.
- `HotmartWebhook.ProductSlug`: a product named after an inherited property ("constructor", say) gets the fallback slug in the model. In the source `slugMap[productName]` is then a truthy function, so `productSlug` is not a string at all.
- `AssistenteAi.CategoryLabel`: a category named after an inherited property gets its raw name in the model. In the source the prompt then holds the string form of that property, such as "function Object() { [native code] }".
- The `created_at.slice(0, 10)` day keys of the analytics panel cut characters, not UTF-16 code units. The two agree on the ISO timestamps the database returns.

## Findings

| source | as written | input that shows it | evidently intended | confidence | as-written member | corrected member |
|---|---|---|---|---|---|---|
| src/pages/AdminPage.tsx:36-141 | the role stays `null` when nobody is signed in, and the spinner check comes before the "no user" redirect | a visitor who is not signed in, once auth has finished loading | a signed-out visitor is redirected home | not executed | `AdminPage.SignedOutSpinsForever` | `AdminPage.SignedOutRedirected` |
