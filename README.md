# Real-estate listings front end, modelled in Dafny

The system is a single-page real-estate site on top of a hosted Postgres table
(`listings`), an object-storage bucket (`listing-images`) and a payment
function. This project models its core in Dafny and proves what each piece promises:

- the **listing engine**:
  - the "All Listings" page, where the filter inputs become query clauses, the results come newest first, and pages hold nine listings;
  - the home page's six newest listings and its search box;
  - the profile page's own-listings query and local removal after a delete;
- the **listing details** page: the owner-only controls, the not-found view, and the two-step delete (image, then row);
- the **create** and **edit** pages:
  - the session gate;
  - on the edit page, the ownership check before the form is filled;
  - the per-field form updates;
  - the upload-then-write submit;
- the **payment-intent** edge function: its ordered request guards;
- the **admin route** guard: its role check and render decision.

The remote table and bucket are a `Backend.Store` object: rows, stored object
names, the next id and a creation clock. What a remote call answers is a
parameter, so every error path of the pages is modelled:
- table and storage calls take an `Outcome` (`Done` or `Failed(message)`);
- the session lookups of the create and edit pages, and the admin guard's profile lookup, take a `Result`;
- `getUser` on the profile and details pages takes an `Option`;
- the payment provider's answer is a `Provider` value.

Most pages whose React state their handlers update become classes
(`ListingsPage`, `ProfilePage`, `DetailsPage`, `EditListingPage`,
`CreateListingPage`, `AdminGate`). Their handlers are methods whose
postconditions give the new state and the user-visible effect: a toast and an
optional navigation. The home page's state is instead a `HomeState` value, and
its two handlers (`Home.AfterFetch`, `Home.WithSearchTerm`) are functions from
the old state to the new one. Pure computations are functions: query construction,
pagination, search, image paths, upload names, form conversion, the
payment handler and the render decisions.

Files:

- `common.dfy`:
  - `Option`/`Result`/`Outcome`;
  - order-preserving filtering;
  - case-insensitive substring search;
  - `split(sep).pop()`;
  - decimal rendering and parsing.
- `domain.dfy`: listing records, newest-first ordering, toasts and routes.
- `backend.dfy`: the row and object store with select/insert/update/delete/upload/remove.
- `listings.dfy`, `home.dfy`, `profile.dfy`, `listing_details.dfy`: the pages that read listings.
- `forms.dfy`: the listing form shared by the create and edit pages.
- `edit_listing.dfy`, `create_listing.dfy`: the form pages.
- `payment_intent.dfy`: the payment handler.
- `admin_route.dfy`: the admin guard.

Behaviours of the program worth knowing, which the model keeps as they are:

- **Preflight requests.** The payment function answers every non-POST request, OPTIONS included, with 405 "Method not allowed", so no CORS preflight is answered (`PaymentIntent.Serve`).
- **Deleting a missing id.** A delete whose id matches no row reports success, because the table's delete-by-id returns no error, and the pages show their success toast (`Backend.Store.Delete`).
- **A failed listings fetch.** It keeps the listings already shown rather than clearing them (`Listings.ListingsPage.FetchListings`, `Home.AfterFetch`).
- **Page range with no listings.** The page index is 1 even when there are no listings and so no pages. Every filter change resets the page to 1, and Previous/Next keep it within `[1, totalPages]` whenever it starts there (`Listings.NextPage`, `Listings.PreviousPage`).

## Model

| member | source | states |
|---|---|---|
| Common.Filter | src/pages/Home.jsx:31-35 | `Array.prototype.filter`: an element is kept iff the predicate holds, each kept element as often as in the input, and the result is an order-preserving subsequence of the input |
| Common.FilterKeepsAll | src/pages/Home.jsx:31-35 | a filter whose predicate holds for every element returns the input unchanged |
| Common.Contains | src/pages/Home.jsx:32 | `includes` is true iff the needle occurs at some offset of the haystack |
| Common.Lower | src/pages/Home.jsx:32 | `toLowerCase` keeps the length and lowers each character |
| Common.AfterLast | src/pages/ListingDetails.jsx:47 | `split(sep).pop()` is a suffix of the input without `sep`, and it is either the whole input or preceded by `sep` |
| Common.AfterLastOfJoin | src/pages/EditListing.jsx:131 | splitting `a + sep + b` at the last `sep` gives back a `sep`-free `b` |
| ListingDetails.ImagePath | src/pages/ListingDetails.jsx:47 | the storage path is the `/`-free tail of the image URL, preceded by `/` unless it is the whole URL |
| Common.DecimalString | src/pages/EditListing.jsx:72-76 | `toString` of a whole number is a non-empty digit string with no leading zero |
| Common.ParseDecimalString | src/pages/EditListing.jsx:160-164 | parsing the rendered number gives the number back |
| Common.ParseDecimal | src/pages/EditListing.jsx:160-164 | `parseInt`/`parseFloat` of a non-empty digit string: the last digit is the units digit and k digits give a number below 10^k; with `ParseDecimalString`, the inverse of `toString` |
| Domain.SortNewestFirst | src/pages/Listings.jsx:23 | ordering by `created_at` descending yields a newest-first permutation of the rows |
| Domain.InsertByDate | src/pages/Listings.jsx:23 | inserting a row into a newest-first sequence keeps it newest first and adds exactly that row |
| Domain.SelectNewestFirst | src/pages/Listings.jsx:20-23 | a select with a row predicate and the date order returns every matching row, as often as stored, newest first |
| Domain.WithoutId | src/pages/Profile.jsx:49 | dropping an id removes every listing with that id, keeps every other listing as often as before, and preserves order |
| Domain.ErrorText | src/pages/CreateListing.jsx:153 | the toast text: the error's message when non-empty, else the fallback; empty only when both are |
| Backend.SelectSingle | src/pages/ListingDetails.jsx:16-20 | `.eq('id', id).single()` returns only a stored row with that id, and an error when there is none |
| Backend.SelectSingleFinds | src/pages/ListingDetails.jsx:16-20 | with unique ids, selecting a stored row's id returns that row |
| Backend.FetchById | src/pages/ListingDetails.jsx:14-23 | a failed call gives its error; a found row is a stored row with that id; with no such row, the not-found error |
| Backend.Inserted | src/pages/CreateListing.jsx:138-141 | an insert appends one row with the draft's fields and owner and keeps the earlier rows |
| Backend.InsertThenSelect | src/pages/CreateListing.jsx:138-141 | after inserting with a fresh id the ids stay unique and the new row is found by its id |
| Backend.Updated | src/pages/EditListing.jsx:168-171 | an update by id replaces the fields of the rows with that id and keeps every row's id, owner, creation time and position |
| Backend.UpdateThenSelect | src/pages/EditListing.jsx:168-171 | after an update, selecting the id returns the old row with the new fields, same owner |
| Backend.DeleteThenSelect | src/pages/ListingDetails.jsx:59-62 | after a delete, selecting the id finds nothing |
| Backend.UploadOutcome | src/pages/EditListing.jsx:135-140 | an upload without `upsert` succeeds iff the call succeeds and no object has that name |
| Backend.Store.constructor | src/utils/supabase.js:3-6 | binds the project URL that `getPublicUrl` builds on, over the table, bucket, id sequence and clock as they already are: ids unique and next id and clock beyond every row |
| Backend.Store.PublicUrl | src/pages/EditListing.jsx:148-150 | `getPublicUrl(name)`: the bucket's public prefix, a `/`, then exactly the object name |
| Backend.Store.Insert | src/pages/CreateListing.jsx:138-146 | a failed insert leaves the rows unchanged; a successful one appends the row with the next id and creation time and keeps the store valid |
| Backend.Store.Update | src/pages/EditListing.jsx:168-173 | the rows become `Updated` exactly when the call succeeds, and the store stays valid |
| Backend.Store.Delete | src/pages/Profile.jsx:42-47 | the rows lose that id exactly when the call succeeds, and the store stays valid |
| Backend.Store.Upload | src/pages/CreateListing.jsx:97-107 | the stored names gain the new name exactly when the upload succeeds |
| Backend.Store.Remove | src/pages/ListingDetails.jsx:48-50 | the stored names lose the given names exactly when the call succeeds |
| Listings.WithChange | src/pages/Listings.jsx:53-58 | a filter change sets only the named field and leaves the other three as they were |
| Listings.Clauses | src/pages/Listings.jsx:26-37 | a clause is added iff its filter field is non-empty, and a listing satisfies all clauses iff it matches the filters: exact type, inclusive price bounds, case-insensitive location substring |
| Listings.Query | src/pages/Listings.jsx:20-42 | the fetched rows are exactly the matching rows, each as often as stored, newest first; with no filters, all rows |
| Listings.TotalPages | src/pages/Listings.jsx:62 | `ceil(n / 9)`: the pages hold all n listings, and one page fewer would not |
| Listings.PageOf | src/pages/Listings.jsx:63-66 | page p holds `min(9, n - (p-1)*9)` listings (none past the end), namely listings `(p-1)*9` onwards in order |
| Listings.FirstPagesArePrefix | src/pages/Listings.jsx:63-66 | pages 1 to k laid end to end are the first `min(9k, n)` listings |
| Listings.PagesCoverList | src/pages/Listings.jsx:62-66 | pages 1 to `totalPages` laid end to end are the whole list in order |
| Listings.PreviousPage | src/pages/Listings.jsx:172-180 | Previous moves back by at most one page, never below 1, never past `totalPages` from a valid page, and moves back when enabled |
| Listings.NextPage | src/pages/Listings.jsx:184-190 | Next moves forward by at most one page, stays within `[1, totalPages]` from a valid page, moves forward when enabled and is a no-op on the last page |
| Listings.ListingsPage.constructor | src/pages/Listings.jsx:6-14 | no listings, loading, empty filters, page 1 |
| Listings.ListingsPage.FetchListings | src/pages/Listings.jsx:39-47 | loading ends; on success the listings are the query's rows, on failure they are unchanged |
| Listings.ListingsPage.HandleFilterChange | src/pages/Listings.jsx:53-60 | the filters take the change and the page returns to 1 |
| Listings.ListingsPage.Previous | src/pages/Listings.jsx:175-176 | the page becomes `PreviousPage` of the old page and stays at least 1 |
| Listings.ListingsPage.Next | src/pages/Listings.jsx:185-186 | the page becomes `NextPage` of the old page and stays at least 1 |
| Listings.ListingsPage.PaginatedListings | src/pages/Listings.jsx:63-66 | the current page shows at most nine of the fetched listings, and at least one whenever the page is within the page count |
| Home.Featured | src/pages/Home.jsx:13-17 | `min(6, n)` rows taken from the table, newest first, and no row left out is newer than a row shown |
| Home.PrefixIsNewest | src/pages/Home.jsx:16-17 | the first k rows of a newest-first sequence are newest first and at least as new as the rest |
| Home.Search | src/pages/Home.jsx:31-35 | a listing is shown iff the lowered term occurs in its lowered title, description or location, as often as it was fetched, in fetched order |
| Home.EmptySearchShowsAll | src/pages/Home.jsx:31-35 | an empty search term shows every fetched listing |
| Home.AfterFetch | src/pages/Home.jsx:11-26 | loading ends; a successful fetch shows `Featured(rows)`, the six newest rows newest first; a failed one keeps the list |
| Home.WithSearchTerm | src/pages/Home.jsx:49 | typing sets the search term and leaves the fetched listings and loading flag alone |
| Home.Shown | src/pages/Home.jsx:31 | what is shown is an order-preserving subsequence of what was fetched |
| Home.FailedFetchShowsNothing | src/pages/Home.jsx:19-25 | when the first fetch fails, nothing is shown, whatever is typed |
| Profile.OwnedListings | src/pages/Profile.jsx:19-23 | exactly the signed-in user's rows, each as often as stored, newest first |
| Profile.LocalRemovalMatchesRefetch | src/pages/Profile.jsx:49 | with distinct creation times, dropping the deleted id locally gives the same list as fetching the owner's listings again |
| Profile.NewestFirstDetermined | src/pages/Profile.jsx:23 | two newest-first orderings of the same distinctly dated rows are equal |
| Profile.SubsequenceNewestFirst | src/pages/Profile.jsx:49 | filtering a newest-first list keeps it newest first |
| Profile.ProfilePage.constructor | src/pages/Profile.jsx:7-9 | no user, no listings, loading |
| Profile.ProfilePage.FetchData | src/pages/Profile.jsx:12-33 | the user is recorded and loading ends; listings are the owner's rows on success; with no user or a failed query they are unchanged and the error toast shows |
| Profile.ProfilePage.HandleDeleteListing | src/pages/Profile.jsx:38-54 | declined: nothing changes; success: the id leaves both table and list with a success toast; failure: nothing changes and the error toast shows |
| ListingDetails.ImagePathOfPublicUrl | src/pages/ListingDetails.jsx:47 | for a URL-safe name without `/`, the path taken from a public URL of the bucket is the name the object was stored under |
| ListingDetails.DeleteFindsUploadedImage | src/pages/ListingDetails.jsx:46-50 | for a URL-safe stamp and file name without `/`, deleting a listing whose image the create or edit page uploaded removes exactly that object |
| ListingDetails.UploadThenDeleteRestoresImages | src/pages/ListingDetails.jsx:45-56 | for a URL-safe stamp and file name without `/`, uploading a listing image on submit and deleting that listing later leaves the bucket as it was before the upload |
| ListingDetails.ImagesAfterRemoval | src/pages/ListingDetails.jsx:45-56 | the delete's image step only removes objects; with a non-empty URL and a successful call, the object named after the URL's last `/` is gone and no other object is; otherwise the bucket is unchanged |
| ListingDetails.Render | src/pages/ListingDetails.jsx:74-140 | a spinner iff loading, "Listing not found" iff loaded without a listing, and the owner controls iff the signed-in user owns the listing |
| ListingDetails.ShowsOwnerControls | src/pages/ListingDetails.jsx:140 | the Edit and Delete controls show iff the signed-in user is the listing's owner; never when signed out |
| ListingDetails.DetailsPage.constructor | src/pages/ListingDetails.jsx:8-11 | the route id is kept, no listing, no user, loading |
| ListingDetails.DetailsPage.Load | src/pages/ListingDetails.jsx:13-39 | loading ends and the user is recorded; the listing is the row with the route id, or unchanged with an error toast |
| ListingDetails.DetailsPage.RemoveImage | src/pages/ListingDetails.jsx:45-56 | with a non-empty image URL, the object named after its last `/` is removed when the call succeeds; otherwise storage is unchanged |
| ListingDetails.DetailsPage.HandleDelete | src/pages/ListingDetails.jsx:41-72 | declined: nothing changes; confirmed: the image step runs, and its failure does not stop the row delete; success navigates to `/listings`, failure shows an error and stays |
| Forms.WithField | src/pages/EditListing.jsx:99-105 | a change sets only the named input and leaves the others and the file as they were |
| Forms.WithChosenFiles | src/pages/EditListing.jsx:107-114 | choosing files sets the image to the first one; choosing none leaves the form unchanged |
| Forms.FieldsFrom | src/pages/CreateListing.jsx:123-134 | `listingData`: the text inputs copied unchanged, the numeric inputs parsed with `ParseDecimal`, and the image URL the submit settled on |
| Forms.FormFor | src/pages/EditListing.jsx:68-78 | the edit form copies the text fields, renders the numbers as numerals, chooses no file, and converts back to exactly the row's fields |
| Forms.UploadName | src/pages/EditListing.jsx:131-132 | the object name starts with the time-and-random stamp and a dot |
| Forms.UploadNameKeepsExtension | src/pages/EditListing.jsx:131-132 | the object name's extension is the chosen file's extension |
| Forms.UploadNameHasNoSlash | src/pages/CreateListing.jsx:93-94 | a stamp and file name without `/` give an object name without `/` |
| Forms.UploadNameUrlSafe | src/pages/CreateListing.jsx:92-94 | a stamp and file name that percent-encoding leaves unchanged give such an object name |
| Forms.SubmittedImageUrl | src/pages/EditListing.jsx:127-153 | with no file the URL kept is the given one; with a file the step succeeds iff the upload does, and then gives the public URL of the uploaded object; otherwise it reports the upload's error |
| Forms.ImagesAfterSubmit | src/pages/CreateListing.jsx:89-119 | the upload step adds exactly the new object when the call succeeds and the name is free, and nothing otherwise |
| EditListing.UntouchedSubmitKeepsRow | src/pages/EditListing.jsx:156-171 | submitting the filled form unchanged, with no new file, reads back as the same row |
| EditListing.EditListingPage.constructor | src/pages/EditListing.jsx:9-23 | not loading, no user, user check pending, empty form, no current image |
| EditListing.EditListingPage.CheckAuth | src/pages/EditListing.jsx:26-50 | the user check ends on every path; no session or an auth error gives no user and `/login`; a session records the user and runs the listing fetch |
| EditListing.EditListingPage.FetchListing | src/pages/EditListing.jsx:52-85 | the form is filled from the row only when the current user owns it; otherwise the form is untouched, an error toast shows and the page goes to `/listings` |
| EditListing.EditListingPage.HandleChange | src/pages/EditListing.jsx:99-105 | the form takes the change to the named field |
| EditListing.EditListingPage.HandleImageChange | src/pages/EditListing.jsx:107-114 | the form takes the first chosen file, if any |
| EditListing.EditListingPage.UploadChosenImage | src/pages/EditListing.jsx:127-153 | the URL is the current one with no file, else the new object's public URL or the upload's error; storage gains the object only on success |
| EditListing.EditListingPage.SaveFields | src/pages/EditListing.jsx:155-179 | on success the row with the route id gets the fields and the page goes to that listing; on failure nothing changes and the error shows |
| EditListing.EditListingPage.HandleSubmit | src/pages/EditListing.jsx:116-183 | no user: nothing is written and the page goes to `/login`; a failed upload stops before the update; otherwise the route's row gets the form's fields with the settled image URL; loading ends |
| CreateListing.CreateListingPage.constructor | src/pages/CreateListing.jsx:8-21 | not loading, no user, user check pending, empty form of type `house` |
| CreateListing.CreateListingPage.CheckAuth | src/pages/CreateListing.jsx:24-46 | the user check ends on every path; no session or an auth error gives no user and `/login` |
| CreateListing.CreateListingPage.HandleChange | src/pages/CreateListing.jsx:60-66 | the form takes the change to the named field |
| CreateListing.CreateListingPage.HandleImageChange | src/pages/CreateListing.jsx:68-75 | the form takes the first chosen file, if any |
| CreateListing.CreateListingPage.UploadChosenImage | src/pages/CreateListing.jsx:89-119 | the URL is empty with no file, else the new object's public URL or the upload's error; storage gains the object only on success |
| CreateListing.CreateListingPage.SaveDraft | src/pages/CreateListing.jsx:138-150 | on success one row is added and the page goes to `/listings`; on failure nothing changes and the error shows |
| CreateListing.CreateListingPage.HandleSubmit | src/pages/CreateListing.jsx:77-157 | no user: nothing is written and the page goes to `/login`; a failed upload stops before the insert; otherwise a row with the form's fields, the settled image URL and the user as owner is inserted; loading ends |
| PaymentIntent.Serve | supabase/functions/create-payment-intent/index.ts:8-61 | 405 iff the method is not POST; then an unreadable body, a falsy field (amount 0 included) and a non-positive or non-number amount each give 400 with their message, in that order; the provider is called exactly for requests past all guards, with the request's amount, currency and listing id, and its secret gives 200, its error 400 |
| AdminRoute.Decide | src/components/AdminRoute.jsx:35-40 | the placeholder iff loading; the children iff loaded and admin; otherwise the "Admin access required" toast and a redirect to `/` |
| AdminRoute.AdminGate.constructor | src/components/AdminRoute.jsx:7-8 | loading, not admin, so the placeholder renders |
| AdminRoute.AdminGate.CheckAdmin | src/components/AdminRoute.jsx:10-33 | loading ends on every path, and admin is true iff there is a user, the profile lookup succeeds with a row, and its role is exactly `admin` |

## Left out

- Asynchrony is not modelled. Each handler runs to completion on the outcomes it is given. Not covered:
  - interleaved effects;
  - a response that arrives after a newer one, or after unmount;
  - the auth-state subscriptions that the create and edit pages register and remove.
- The hosted services are not modelled. The table, the bucket, the auth session and the payment provider are reduced to a `Store` object and `Outcome`/`Result` parameters. Query-builder and HTTP internals, row-level security policies and the Stripe SDK are not modelled.
- `Listings.Clauses` treats the `ilike` pattern's text as a plain substring, so the SQL wildcards `%` and `_` typed into the location filter match only themselves.
- `Common.Lower` lowers ASCII letters only.
- Prices, room counts and areas are whole numbers. The model has no floating point and does not model `toLocaleString`.
- CreateListing.CreateListingPage.HandleSubmit: requires the four numeric inputs to hold digit strings, standing in for the browser's validation of the required `type="number"` inputs. Decimals, signs and the `NaN` that `parseFloat`/`parseInt` give for other text are not modelled.
- EditListing.EditListingPage.HandleSubmit: requires the same of the numeric inputs, for the same reason.
- Backend.Store.PublicUrl: puts the object name into the URL as it is, while the storage client percent-encodes it. For a name with a character `encodeURI` changes, such as a file `my photo` without a dot whose whole name becomes the extension, the delete's `split('/').pop()` names the encoded text, so the removal misses and the image stays in the bucket. The image lemmas (`ListingDetails.ImagePathOfPublicUrl`, `ListingDetails.DeleteFindsUploadedImage`, `ListingDetails.UploadThenDeleteRestoresImages`) therefore require URL-safe names (`Backend.UrlSafe`), and that failure case is not modelled.
- `Date.now()` and `Math.random()` in upload names are one `stamp` parameter. Only the name's shape and its extension are modelled.
- Console logging is not modelled.
- PaymentIntent.Serve: does not model `Infinity`, since amounts are real numbers; a non-integer amount refused by the provider is a provider error. A body that cannot be destructured (JSON `null`) is an unreadable body.
- EditListing.EditListingPage.FetchListing: does not model a null `image_url` in the fetched row; image URLs are strings.
- AdminRoute.Decide: the toast is raised while rendering, so React may raise it again on each non-admin render. The model raises it once, as part of the decision.
- The following are not part of this model:
  - the contact page, navigation bar, footer, blog, skeleton loaders and admin dashboard;
  - the Stripe card form, and the auth helper functions of the Supabase client module;
  - the router table and its private-route guard;
  - build configuration.
