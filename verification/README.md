# Location bookmarks: server API, sign-in callback and browser cache

This project models the bookmark part of an ASP.NET web application with a Google Maps page, and proves properties of the model:

- **`BookmarksController`** (module `BookmarksApi`, file `bookmarks_controller.dfy`) is the owner-scoped bookmark API over the `location_bookmarks` table.
  - The external table is a map from primary key to row. It is a field of the controller class, next to the store's identity counter.
  - The list and get handlers are queries and change nothing. Create, update and delete rewrite the table field.
  - Each handler runs the same steps in order:
    - 400 on an invalid body (create and update only, before anything else);
    - 401 when the caller's user-id claim is null or empty;
    - one store call;
    - a field-for-field copy of the row into the DTO;
    - a fixed 500 message when the store throws.
- **Records** (module `Models`, file `models.dfy`): the table row, the DTO and the request body. Model binding of the request turns an absent coordinate into 0. It rejects a missing, null, empty or white-space-only name, and a JSON `null` coordinate.
- **`AuthController`** (module `Auth`, file `auth_controller.dfy`) is the OAuth 2.0 authorization-code flow with PKCE (RFC 6749 section 4.1, RFC 7636).
  - `Login` stores the code verifier in the session under `"pkce_verifier"`.
  - `Callback` first works through a chain of early exits, each a pure decision in `CallbackStart`: a provider error, then a missing code, then a missing verifier.
  - After those, `Callback` exchanges the code. A returned user is signed in with five claims (`CallbackFinish`).
  - `Logout` signs out at the provider and clears the cookie.
  - The provider's sign-in, token exchange and sign-out are parameters of the methods. Each either returns or throws, and a throw escapes the action as a 500.
- **`Uri.EscapeDataString`** (module `UriEscape`) is the percent-encoding of section 2.1 of RFC 3986 over UTF-8, which the callback uses on the provider's error.
- **`String.prototype.trim`** (module `JsText`) is the ECMAScript whitespace trim the bookmark form applies.
- **The browser's bookmark cache** (module `MapClient`, file `bookmark_cache.dfy`) mirrors the script's module-level variables. The `MapPage` class has these fields:
  - `bookmarkedPlaces`;
  - `bookmarkMarkers`;
  - `markers`;
  - `tempBookmarkData`.

  Its methods change them the way save, update, delete, clear-all, edit and the marker rebuild do. What the server answers and whether the user confirms are parameters of those methods. Each method returns the request it sent, if any.
- **Client against server** (module `ClientServer`) states what the controller makes of the requests the script sends.

Three behaviours of the code that a reader may not expect:

- `UpdateBookmark` hands the store a row keyed by the path id with the caller's user id. The store update is keyed by the primary key only, and the controller adds no owner filter. So, as far as the controller is concerned, an update can rewrite a row that belongs to another user (`BookmarksApi.UpdateTakesOverForeignRow`).
- `Login` and `Logout` have no exception handler. A provider sign-in that throws answers 500 with nothing stored; a provider sign-out that throws answers 500 and leaves the cookie in place.
- The stored PKCE verifier is never removed from the session, so the model does not treat it as single-use.

Store semantics assumed, since the store is an external service:

- a filtered query returns the matching rows;
- an insert assigns the next identity value and the creation time;
- an insert that returns no row inserted nothing;
- an update writes every column of the model except the store-owned `created_at`, and returns nothing when no row has the key;
- a filtered delete removes the matching rows;
- a store call that throws changes nothing.

Three facts connect the two sides:

- The script's update body has no coordinates. The server binds `Lat` and `Lng` to 0 and writes them, so an edited bookmark moves to (0, 0) (`ClientServer.UpdateMovesRowToOrigin`).
- "Clear all" sends `DELETE /api/bookmarks`, which no action handles. The framework answers it 405 before any action runs, which is never `response.ok`, so the cache and the markers are never cleared that way (`ClientServer.ClearAllIsRefused`, `ClientServer.ClearAllAgainstServer`).
- The form trims the name with JavaScript's notion of white space, the server checks it with .NET's. The two differ on U+0085, which only .NET counts as white space. A name whose trim is all .NET white space passes the form and is refused with 400; such a trim starts and ends with U+0085 (`ClientServer.BlankTrimIsNextLine`), U+0085 alone being one (`ClientServer.NextLineNameIsRefused`). A name that holds no U+0085 is always accepted (`ClientServer.FormNameIsNotBlank`).

## Model

| member | source | states |
|---|---|---|
| Models.ToDto | src/MerchStore.WebUI/Controllers/BookmarksController.cs:78-88 | the DTO carries every column of the row unchanged: reading the row back from the DTO gives the row |
| Models.ToDtoInjective | src/MerchStore.WebUI/Models/LocationBookmarkDto.cs:3-13 | two rows with the same DTO are the same row (the DTO has every column of `LocationBookmark`) |
| Models.ToDtos | src/MerchStore.WebUI/Controllers/BookmarksController.cs:37-47 | the `Select` keeps the number and order of rows, and each DTO copies its row field for field |
| Models.BindRequest | src/MerchStore.WebUI/Models/UpdateBookmarkRequest.cs:3-9 | binding succeeds iff the required name is present and not blank (.NET white space) and no coordinate is JSON `null`; name and notes are copied; an absent `Lat`/`Lng` becomes 0 |
| Models.BindCompleteBody | src/MerchStore.WebUI/Models/UpdateBookmarkRequest.cs:5-8 | a body carrying every field of a request whose name is not blank binds back to exactly that request |
| BookmarksApi.Route | src/MerchStore.WebUI/Controllers/BookmarksController.cs:9-214 | a verb and path reach no action iff they are PUT or DELETE on the collection or POST on an item; DELETE reaches an action only on an item |
| BookmarksApi.Unrouted | src/MerchStore.WebUI/Controllers/BookmarksController.cs:9-214 | a request is answered 405, not a success, before any action iff it is PUT or DELETE on the collection or POST on an item |
| BookmarksApi.FindOwned | src/MerchStore.WebUI/Controllers/BookmarksController.cs:67-71 | the `Single()` of the two filters finds a row iff it has that id and belongs to that user, and then it is that row |
| BookmarksApi.Inserted | src/MerchStore.WebUI/Controllers/BookmarksController.cs:113-124 | the inserted row has the store's id and creation time and otherwise exactly the columns the controller built |
| BookmarksApi.StoreUpdate | src/MerchStore.WebUI/Controllers/BookmarksController.cs:170-187 | an update yields a row iff the model's primary key exists, whoever owns it; that row is the model with the old `created_at`, and only that key changes |
| BookmarksApi.DeleteWhere | src/MerchStore.WebUI/Controllers/BookmarksController.cs:222-226 | the row is removed iff it has that id and belongs to the caller; every other row stays as it was |
| BookmarksApi.DeleteIdempotent | src/MerchStore.WebUI/Controllers/BookmarksController.cs:222-228 | deleting twice leaves the same table as deleting once, so a repeated delete gives the same state and the same 204 |
| BookmarksApi.DeleteSparesOtherOwners | src/MerchStore.WebUI/Controllers/BookmarksController.cs:224-225 | a delete never touches a row of another user, whatever id it names |
| BookmarksApi.CreatedRowIsFetchable | src/MerchStore.WebUI/Controllers/BookmarksController.cs:113-124 | a row created for a user is found again by that user under its new id and by no other user, with the request's name, notes and coordinates and no update time |
| BookmarksApi.UpdateTakesOverForeignRow | src/MerchStore.WebUI/Controllers/BookmarksController.cs:170-183 | with no owner filter on the update, another user's row is rewritten to belong to the caller and its former owner no longer finds it |
| BookmarksApi.UpdateIdempotent | src/MerchStore.WebUI/Controllers/BookmarksController.cs:181-183 | repeating a store update with the same model changes nothing further and returns the same row |
| BookmarksApi.BookmarksController.SelectOwnedBy | src/MerchStore.WebUI/Controllers/BookmarksController.cs:32-35 | the query returns every row the user owns, each once, and nothing else |
| BookmarksApi.BookmarksController.GetBookmarks | src/MerchStore.WebUI/Controllers/BookmarksController.cs:25-56 | 401 without a user id; 500 "Failed to fetch bookmarks" when the store throws; otherwise exactly the caller's rows as DTOs, each once |
| BookmarksApi.BookmarksController.GetBookmark | src/MerchStore.WebUI/Controllers/BookmarksController.cs:60-97 | 401 without a user id; 500 "Failed to fetch bookmark" on a store exception; the row's DTO iff it has that id and belongs to the caller, else 404 "Bookmark not found" |
| BookmarksApi.BookmarksController.CreateBookmark | src/MerchStore.WebUI/Controllers/BookmarksController.cs:101-154 | 400 on an invalid body before the user is looked at, then 401, then the fixed 500 messages; success iff the insert yields a row, which is then the caller's new row under a fresh id; otherwise the table is unchanged |
| BookmarksApi.BookmarksController.UpdateBookmark | src/MerchStore.WebUI/Controllers/BookmarksController.cs:158-211 | 400 before 401 before 500; an existing key is rewritten with the caller's id, the request fields, the old creation time and `now`; a missing key gives 404 and no change |
| BookmarksApi.BookmarksController.DeleteBookmark | src/MerchStore.WebUI/Controllers/BookmarksController.cs:215-235 | 401 or 500 "Failed to delete bookmark" leave the table unchanged; otherwise 204 whether or not a row matched, with exactly the owned row removed |
| UriEscape.HexValue | src/MerchStore.WebUI/Controllers/AuthController.cs:36 | reading an upper-case hex digit gives back the value it was written from |
| UriEscape.PercentByte | src/MerchStore.WebUI/Controllers/AuthController.cs:36 | a byte is written as `%` and two hex digits that decode to that byte |
| UriEscape.Utf8RoundTrip | src/MerchStore.WebUI/Controllers/AuthController.cs:36 | the UTF-8 bytes written for a character decode to that character |
| UriEscape.EscapeDataString | src/MerchStore.WebUI/Controllers/AuthController.cs:36 | the escaped error uses only unreserved characters and `%`, so it cannot break out of the query parameter; it equals the input iff every input character is unreserved |
| Auth.CallbackUrl | src/MerchStore.WebUI/Controllers/AuthController.cs:16 | the redirect target is exactly the request's scheme, then `://`, then the host, then `/auth/callback` |
| Auth.FindFirstValue | src/MerchStore.WebUI/Controllers/BookmarksController.cs:29 | a claim type has a value iff some claim's type matches it ignoring case, and the value is that of the first such claim |
| Auth.SessionClaims | src/MerchStore.WebUI/Controllers/AuthController.cs:50-57 | a successful sign-in carries exactly five claims |
| Auth.SessionClaimsReadBack | src/MerchStore.WebUI/Controllers/AuthController.cs:50-57 | read back from the cookie, the claims give the user id, the metadata name or "DiscordUser", and the e-mail, access token and refresh token or "" |
| Auth.FirstMatchIsFound | src/MerchStore.WebUI/Controllers/BookmarksController.cs:29 | the claim found for a type is the first one whose type matches |
| Auth.ClaimReadBack | src/MerchStore.WebUI/Controllers/AuthController.cs:50-57 | each of the five claims is the one found for its own type |
| Auth.CallbackStart | src/MerchStore.WebUI/Controllers/AuthController.cs:35-42 | a provider error wins and redirects to `/login?error=` plus the escaped error; then a missing code gives 400 "Missing 'code'."; then a missing verifier gives 400 "Missing PKCE verifier."; the code is exchanged iff none of these holds, with the stored verifier |
| Auth.CallbackFinish | src/MerchStore.WebUI/Controllers/AuthController.cs:45-62 | a cookie is issued iff the exchange returned a session with a user, and then the answer is a redirect to "/"; a null session or user redirects to `/login?error=signin_failed`; an exchange that throws is a 500 |
| Auth.SessionValue | src/MerchStore.WebUI/Controllers/AuthController.cs:40 | the session read yields a value iff the key is stored, and then the stored value |
| Auth.LoginVerifierReachesExchange | src/MerchStore.WebUI/Controllers/AuthController.cs:27-45 | the verifier `Login` stores is the one the next callback sends with its code; an empty stored verifier makes the callback answer 400 |
| Auth.ProviderErrorVerbatim | src/MerchStore.WebUI/Controllers/AuthController.cs:35-36 | a provider error of unreserved characters, such as `access_denied`, reaches the login page unchanged, whatever the code and verifier |
| Auth.AuthController.Login | src/MerchStore.WebUI/Controllers/AuthController.cs:14-30 | asks for a Discord PKCE sign-in back to the callback URL; if it returns, stores the verifier under "pkce_verifier" and redirects to the provider's URI; if it throws, answers 500 and stores nothing |
| Auth.AuthController.Callback | src/MerchStore.WebUI/Controllers/AuthController.cs:33-63 | the early exits send nothing to the provider and leave the cookie; otherwise the answer and cookie are those of the exchange's result; the cookie changes only with a redirect to "/" |
| Auth.AuthController.Logout | src/MerchStore.WebUI/Controllers/AuthController.cs:67-72 | after a provider sign-out that returns, the cookie is cleared and the answer redirects to "/"; one that throws is a 500 and the cookie stays |
| JsText.LeadingWhitespace | src/MerchStore.WebUI/wwwroot/js/google-maps.js:892 | counts exactly the whitespace the string starts with |
| JsText.TrailingWhitespace | src/MerchStore.WebUI/wwwroot/js/google-maps.js:892 | counts exactly the whitespace the string ends with |
| JsText.Trim | src/MerchStore.WebUI/wwwroot/js/google-maps.js:892-893 | the trim is the input with whitespace cut from both ends; it is empty iff the input is all whitespace, and otherwise neither starts nor ends with whitespace |
| JsText.TrimOfTrimmed | src/MerchStore.WebUI/wwwroot/js/google-maps.js:1050-1051 | a string without surrounding whitespace trims to itself |
| JsText.TrimIsTheOnlyStrip | src/MerchStore.WebUI/wwwroot/js/google-maps.js:892-893 | any way of cutting whitespace from both ends that leaves none at either end gives the trim |
| JsText.TrimIdempotent | src/MerchStore.WebUI/wwwroot/js/google-maps.js:892-893 | trimming twice is trimming once |
| MapClient.NotesOrNull | src/MerchStore.WebUI/wwwroot/js/google-maps.js:913 | empty trimmed notes are sent as null, any others verbatim |
| MapClient.MarkersFor | src/MerchStore.WebUI/wwwroot/js/google-maps.js:1153-1193 | one marker per bookmark, in list order, at its position with its name |
| MapClient.FindIndex | src/MerchStore.WebUI/wwwroot/js/google-maps.js:1072 | the index of the first entry with that id, or -1 iff no entry has it |
| MapClient.WithoutId | src/MerchStore.WebUI/wwwroot/js/google-maps.js:1104 | keeps exactly the entries whose id differs |
| MapClient.WithoutIdAppend | src/MerchStore.WebUI/wwwroot/js/google-maps.js:1104 | the filter distributes over concatenation, so the kept entries keep their order |
| MapClient.WithoutAbsentId | src/MerchStore.WebUI/wwwroot/js/google-maps.js:1104 | filtering out an id no entry has leaves the list unchanged |
| MapClient.InsertByDate | src/MerchStore.WebUI/wwwroot/js/google-maps.js:957-959 | inserting into a newest-first list keeps it newest-first and adds exactly that entry |
| MapClient.NewestFirst | src/MerchStore.WebUI/wwwroot/js/google-maps.js:957-959 | the sorted copy is newest-first by `createdAt` and holds exactly the cached entries |
| MapClient.KeepFilled | src/MerchStore.WebUI/wwwroot/js/google-maps.js:526-527 | keeps exactly the non-empty fields |
| MapClient.KeepFilledAppend | src/MerchStore.WebUI/wwwroot/js/google-maps.js:526-527 | the filter distributes over concatenation, so it keeps the order and the repeats of the filled fields |
| MapClient.KeepFilledPair | src/MerchStore.WebUI/wwwroot/js/google-maps.js:526-527 | filtering two fields gives the first if filled, then the second if filled |
| MapClient.DistanceMatrixInput | src/MerchStore.WebUI/wwwroot/js/google-maps.js:520-532 | no request iff both origins or both destinations are empty; otherwise each list is exactly the filled fields in order, a repeated value kept twice |
| MapClient.MapPage.ClearMarkers | src/MerchStore.WebUI/wwwroot/js/google-maps.js:779-782 | the search markers are gone |
| MapClient.MapPage.ShowBookmarkMarkers | src/MerchStore.WebUI/wwwroot/js/google-maps.js:1147-1195 | afterwards the bookmark markers are exactly one per cached bookmark, in order |
| MapClient.MapPage.DisplayBookmarks | src/MerchStore.WebUI/wwwroot/js/google-maps.js:944-999 | the listed order is newest-first and a permutation of the cache, which itself is not reordered |
| MapClient.MapPage.OpenBookmarkModalAtLocation | src/MerchStore.WebUI/wwwroot/js/google-maps.js:825-853 | the clicked location becomes the pending location, without an id, and the form is cleared |
| MapClient.MapPage.AddBookmarkFromPlace | src/MerchStore.WebUI/wwwroot/js/google-maps.js:855-883 | the place's location becomes the pending location and its name fills the form |
| MapClient.MapPage.CloseBookmarkModal | src/MerchStore.WebUI/wwwroot/js/google-maps.js:885-889 | the pending location is cleared |
| MapClient.MapPage.SaveBookmark | src/MerchStore.WebUI/wwwroot/js/google-maps.js:891-942 | nothing is sent and nothing changes without a non-blank name and a pending location; otherwise it POSTs the trimmed name, the notes or null and the pending coordinates; on success the server's bookmark is appended after the untouched earlier entries, the markers are rebuilt and the pending location cleared |
| MapClient.MapPage.EditBookmark | src/MerchStore.WebUI/wwwroot/js/google-maps.js:1016-1047 | an uncached id changes nothing; otherwise the first matching entry's location and id become pending and its name and notes (or "") fill the form |
| MapClient.MapPage.UpdateBookmark | src/MerchStore.WebUI/wwwroot/js/google-maps.js:1049-1091 | nothing is sent without a non-blank name; the PUT carries name and notes only; on success only the first entry with that id becomes the server's answer, the length is kept, and no match leaves the list as it was |
| MapClient.MapPage.DeleteBookmark | src/MerchStore.WebUI/wwwroot/js/google-maps.js:1093-1117 | an uncached id or no confirmation sends nothing; on success every entry with that id leaves the cache and the markers follow |
| MapClient.MapPage.ClearAllBookmarks | src/MerchStore.WebUI/wwwroot/js/google-maps.js:1119-1145 | an empty cache or no confirmation sends nothing; otherwise DELETE on the collection; only a successful answer empties the cache and the markers |
| ClientServer.SaveBodyBindsExactly | src/MerchStore.WebUI/wwwroot/js/google-maps.js:906-916 | a save the form sends is bound by the server to exactly the name, notes and coordinates the client meant, unless the trimmed name is blank to .NET, when it is refused |
| ClientServer.FormNameIsNotBlank | src/MerchStore.WebUI/wwwroot/js/google-maps.js:892-898 | a name the form accepts and that holds no U+0085 is not blank to the server |
| ClientServer.BlankTrimIsNextLine | src/MerchStore.WebUI/wwwroot/js/google-maps.js:892-898 | a trimmed name the server finds blank starts and ends with U+0085, so these are the only names the form sends and the server refuses |
| ClientServer.NextLineNameIsRefused | src/MerchStore.WebUI/wwwroot/js/google-maps.js:892-898 | a name of one U+0085 survives the form's trim and is refused by the server's binding |
| ClientServer.UpdateMovesRowToOrigin | src/MerchStore.WebUI/wwwroot/js/google-maps.js:1064-1067 | the update body binds iff the name is not blank to .NET, and then with `Lat` and `Lng` 0, and the existing row is rewritten at (0, 0) |
| ClientServer.BlankNotesTravelAsNull | src/MerchStore.WebUI/wwwroot/js/google-maps.js:893-913 | for a name the server accepts, it binds null notes iff the typed notes are all whitespace |
| ClientServer.ClientRequestsRoute | src/MerchStore.WebUI/wwwroot/js/google-maps.js:906-1101 | save, update and single delete reach the create, update and delete actions |
| ClientServer.ClearAllIsRefused | src/MerchStore.WebUI/wwwroot/js/google-maps.js:1127-1129 | DELETE on the collection reaches no action, and its 405 is not a success |
| ClientServer.FetchOf | src/MerchStore.WebUI/wwwroot/js/google-maps.js:1131 | the page sees `response.ok` iff the server's status is 2xx; an answered request never counts as failed |
| ClientServer.ClearAllAgainstServer | src/MerchStore.WebUI/wwwroot/js/google-maps.js:1119-1145 | run against this server, clear-all sends only a request answered 405 before any action, and the cache and the markers stay as they were |

## Left out

- `Program.cs` (service registration, middleware, reading the store's URL and key) and `HomeController.cs` (view rendering) are not part of this model.
- `CreateBookmarkRequest` is not part of this model. Its binding is taken to be that of `UpdateBookmarkRequest`: a required name, optional notes, and coordinates that default to 0.
- Models.BindRequest: a body is a name, notes and two coordinates, each present, absent or (for coordinates) null. A coordinate sent as a quoted number, such as `"12.5"`, binds as that number under the web defaults of the JSON reader; the model has no variant for it and treats it as the number it names (`Number`). A body of the wrong JSON shape, such as a number or an object for `name` or an object for `lat`, is refused with 400 and is not modelled.
- The store (query engine, row-level security, identity column, clock) is replaced by the functions described above. The controller's `DateTime.UtcNow` is a parameter.
- Store exceptions, the "no row returned" case of an insert, the provider's sign-in, token exchange and sign-out are parameters. Logging is left out.
- Auth.FindFirstValue: folds the case of ASCII letters only. How an ordinal case-insensitive comparison folds other letters is not modelled. The five claim types this controller writes are ASCII and differ in length.
- The `[ValidateAntiForgeryToken]` filter on logout and the `[Authorize]` filter on the API are not modelled. The handlers' own user-id checks are.
- Cookie signing, `ClaimsPrincipal` construction and the session store are reduced to a map and a claim list.
- Coordinates are real numbers. Double precision, `toFixed` formatting and date parsing (`createdAt` is an integer) are not modelled.
- MapClient.NewestFirst: states newest-first order and the same entries, not the stability of the browser's sort (the order of entries with equal `createdAt`).
- MapClient.MapPage.DisplayBookmarks: states newest-first order and the same entries, not the stability of the browser's sort. The HTML it builds is not modelled.
- `loadBookmarks`, `saveBookmarksToStorage` and the `localStorage` fallback are browser storage I/O and are left out.
- Everything else in `google-maps.js` calls external services or browser machinery and is left out: directions, places, geocoding, the distance-matrix call itself, time zones, weather, share links, notifications, tabs and `setTimeout`.
- `async`/`await` and overlapping requests are not modelled: each client method sees one settled answer.
- Map markers are values (position and title). Taking a marker off the map (`setMap(null)`) and click listeners are not modelled.
