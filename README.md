# Gallery artwork core, modelled in Dafny

This project models the core of an art-gallery web application. The server
keeps artworks in MySQL behind an Express API. When the database is
unreachable outside production, it falls back to an in-process table. The
React client searches artists, shows an artist's stats and adds artworks
through a dialog. The model covers:

- the artwork store of `server/storage.ts`: the in-memory fallback table and
  its id counter, create, update (with its `column = ?` builder), delete, and
  the two fallback reads;
- the artwork handlers of `server/routes.ts`: status codes, validation,
  ownership test and filter normalisation;
- the zod validators and column map of `shared/schema.js`;
- the middleware rules of `server/index.ts`: the CORS origin test and
  headers, the OPTIONS short-circuit, the request log and its 80-character
  lines, the error status and message fallback, and the session constants;
- the artist search of `client/src/pages/Artists.tsx`;
- the stats and header action of `client/src/pages/Dashboard.tsx`;
- the form state, submit gate and payload of
  `client/src/components/AddArtworkDialog.tsx`.

Files:

- `js_values.dfy` (`JsValues`) models JavaScript values and plain objects:
  truthiness, `??`, `===`, property read and write, and spread.
- `js_text.dfy` (`JsText`) models `parseInt`, `parseFloat`, `String(n)`,
  `startsWith`, `includes` and `toLowerCase`.
- `schema.dfy` (`Schema`) holds the validators.
- `storage.dfy` (`Storage`) holds the store. The class `ArtworkStore` has the
  table and the counter as fields.
- `routes.dfy` (`Routes`) holds the handlers.
- `server_index.dfy` (`ServerIndex`) holds the middleware.
- `artists.dfy`, `dashboard.dfy`, `feedback.dfy` and `artwork_dialog.dfy` hold
  the client code.

The database is reduced to what one call observes. Either every query
succeeds and a SELECT yields the given rows (`Db.Up(rows)`), or the first
query throws (`Db.Down`). Production mode is a boolean parameter and the
clock is an integer parameter. The server's answer to a client request is a
parameter too.

### Where the code and its description differ

The model follows the code:

- **An empty title gives 500, not 400.** `POST /api/artworks` answers 400
  only for a body the zod schema refuses. The schema accepts an empty title,
  price or image URL. The store then throws "Title, price, and imageUrl are
  required", and the handler turns that into 500: `Routes.CreateArtwork`
  answers 201 for an accepted body only when its title, price and image URL
  are truthy.
- **A missing artwork gives 403, not 404.** PATCH and DELETE answer 403 for
  a missing artwork as well as for a foreign one.
- **PATCH and DELETE never succeed.** Records carry no `artistId`:
  - the SELECTs list no owner column;
  - the fallback records have none;
  - the schema strips it from a POST body.

  So the ownership test refuses every user (`Routes.LookupUnownedDenies`).

## Model

| member | source | states |
|---|---|---|
| Schema.ParseValue | shared/schema.js:20-33 | a value comes out `undefined` only when the property is optional and absent |
| Schema.ParseValueKeeps | shared/schema.js:20-33 | only a boolean default changes a value; under `.partial()` every accepted value is kept as given |
| Schema.ParseFieldsIssues | shared/schema.js:20-32 | a parse reports no issue exactly when every declared property passes its type |
| Schema.IssuesNameRefusedFields | shared/schema.js:20-32 | every issue names a declared property that was refused, with the value it had |
| Schema.ParseFieldsGet | shared/schema.js:20-32 | the parsed object has only declared properties, each with its parsed value; undeclared keys are stripped |
| Schema.ParseFieldsKeys | shared/schema.js:20-33 | without `.partial()` the output lists every declared property in declaration order; with it, exactly the declared properties the input has |
| Schema.OutputWellFormed | shared/schema.js:20-33 | the parsed object lists each property once |
| Schema.KindOfAt | shared/schema.js:20-32 | the type looked up by name is the type declared for that property |
| Schema.ArtworkShapeFacts | shared/schema.js:20-32 | the property names are distinct; only isAvailable and isFeatured have defaults (true and false) |
| Schema.ArtworkNames | shared/schema.js:20-32 | the declared properties are the eleven names, in declaration order |
| Schema.Undeclared | shared/schema.js:20-32 | neither `id` nor `artistId` is a declared property |
| Schema.InsertAccepts | shared/schema.js:20-32 | the insert schema succeeds iff the texts are strings, the nullable texts are strings or null, the numbers are numbers or null (all present), and the flags are booleans or absent |
| Schema.InsertOutput | shared/schema.js:20-32 | a successful insert parse yields the eleven properties in order, values as given, absent flags defaulted to true and false, other keys dropped |
| Schema.UpdateAcceptsEmpty | shared/schema.js:33 | the update schema accepts `{}` and yields `{}` |
| Schema.UpdateOutput | shared/schema.js:33 | a successful update parse keeps exactly the declared properties present in the body, unchanged, with no defaults |
| Schema.UpdateAccepts | shared/schema.js:33 | the update schema succeeds iff every declared property present has its insert type |
| Schema.ArtworkColumnsDistinct | shared/schema.js:3-18 | the column map names each property once and each column once |
| Storage.Fixture | server/storage.ts:47-64 | the fixture artwork has id 1 and no owner |
| Storage.FindIndex | server/storage.ts:208 | −1 iff no record's id is strictly equal to the id; otherwise the first index whose id matches |
| Storage.Mapped | server/storage.ts:196-201 | a key is mapped iff it is a key of the body and of `columnMap` |
| Storage.ArtworkStore.constructor | server/storage.ts:7-8 | the table starts empty and the counter at 1000 |
| Storage.ArtworkStore.GetArtworks | server/storage.ts:21-70 | the query's rows; when the query throws: in development the in-memory records then the fixture, in production an error |
| Storage.ArtworkStore.GetArtworkById | server/storage.ts:72-104 | the first row; when the query throws: in development a record whose id is strictly equal, none iff neither memory nor the fixture has that id, in production an error |
| Storage.ArtworkStore.CreateArtwork | server/storage.ts:106-176 | refuses iff title, price or imageUrl is falsy, with nothing changed. With the database down in development it prepends the new record under the old counter value and increments the counter. Nothing else changes the table. The id invariant is kept |
| Storage.ArtworkStore.BuildAssignments | server/storage.ts:193-203 | one `column = ?` per mapped key in key order, values in the same order, then the id, so there is one more value than clauses |
| Storage.ArtworkStore.UpdateArtwork | server/storage.ts:178-235 | returns (rather than throws) iff the database is up and some key is mapped, or in development the id is in memory; with no mapped key, or the database down, only in development with the id in memory: the record at its index is replaced by the merge and every other entry is kept. "No data to update" iff no key is mapped. Otherwise the table is unchanged, and so is the counter |
| Storage.ArtworkStore.DeleteArtwork | server/storage.ts:237-248 | throws only with the database down in production; with the database down in development the record with that id is spliced out if present |
| Storage.NewRecordFields | server/storage.ts:154-169 | a new record has the given id, title, price and image, the record keys in order, equal creation and update times, and no owner |
| Storage.NewRecordDefaults | server/storage.ts:157-166 | absent description, style, medium, width, height and year become null; absent flags become true and false |
| Storage.NewRecordIdFresh | server/storage.ts:153-170 | the counter's id is on no record, and after the prepend the ids are distinct and below the incremented counter |
| Storage.MergeKeepsIds | server/storage.ts:208-212 | a merge with a body that does not list `id` keeps every id distinct |
| Storage.WithoutKeepsIds | server/storage.ts:242-243 | splicing a record out keeps the id invariant |
| Storage.FindIndexAppend | server/storage.ts:97-100 | searching a concatenation finds the first part's match, else the second part's, offset |
| Storage.FallbackLookupIsFind | server/storage.ts:96-101 | trying memory first finds the same record as searching memory followed by the fixture |
| Storage.FindInFallback | server/storage.ts:96-101 | a found record has the id; nothing is found iff the id is not 1 and not in memory |
| Storage.CreateThenFind | server/storage.ts:153-170 | a created record is found again under its id |
| Storage.DeleteThenFind | server/storage.ts:241-244 | after the delete no record has the id; the table is one shorter iff it had one; the other records keep their order |
| Storage.MergeFields | server/storage.ts:210 | the merge carries the body's values, the record's other values and the new update time; it keeps the key order when the body adds no property |
| Storage.NothingToUpdate | server/storage.ts:196-205 | no clause is built iff no key of the body is in `columnMap` |
| Storage.ColumnMapAgrees | server/storage.ts:179-191 | `columnMap` covers exactly the validated properties, each with the schema's column |
| Routes.NormaliseFilters | server/routes.ts:41-48 | featured is true iff the parameter is the text "true"; a price bound is undefined iff absent or empty, else a number or NaN |
| Routes.ListArtworks | server/routes.ts:39-56 | 200 with the store's list iff it has one, else 500 |
| Routes.ShowArtwork | server/routes.ts:58-72 | 404 iff the store finds nothing, 500 iff it throws, 200 with the record otherwise |
| Routes.WithArtist | server/routes.ts:77-80 | the body with `artistId` set to the user and every other property kept |
| Routes.CreateArtwork | server/routes.ts:74-91 | 400 with the issues iff the schema refuses the body; for an accepted body 201 iff its title, price and imageUrl are truthy and the store does not throw (production with the database down), otherwise 500, so an empty title gives 500; on 201 with the database up the first row is returned and the table kept, with it down the validated body is prepended as a new ownerless record under the next id and the counter steps by one; on 400 and 500 the table is unchanged; no record gains an owner |
| Routes.UpdateArtwork | server/routes.ts:93-114 | 400 iff the schema refuses the body; 500 when the lookup throws; 403 iff the lookup finds no record or a foreign one; past the ownership test 200 iff the store's update returns (a real UPDATE with the database up, else the record in memory in development); on 200 the payload and table are the store's: the merged record at its index, or the first row with the table kept; only a 200 changes the table; no record gains an owner; when no record carries an owner, never 200 |
| Routes.DeleteArtwork | server/routes.ts:116-133 | 403 iff the lookup finds no record or a foreign one; 204 iff the lookup succeeds, the owner matches and the store does not throw; after 204 the table is the old one without the first record with that id (database down) or unchanged (database up); otherwise unchanged; no record gains an owner; when no record carries an owner, never 204 |
| Routes.OwnerlessDenied | server/routes.ts:101 | a record without `artistId` is refused for every user; a present record passes iff its `artistId` is the user's id |
| Routes.LookupUnownedDenies | server/routes.ts:100-103 | when no record the lookup can return has an owner, the ownership test refuses |
| Routes.FallbackUnowned | server/storage.ts:96-101 | the development fallback lookup returns no owner when the in-memory records have none (the fixture has none) |
| Routes.UpdateNeverListsIdOrOwner | server/routes.ts:97 | a validated update body lists neither `id` nor `artistId` |
| Routes.MergeKeepsOwnerless | server/storage.ts:210-211 | merging a body without `artistId` gives no record an owner |
| ServerIndex.AllowedOriginPrefixes | server/index.ts:13-19 | an origin is echoed iff it is the bare VPS address or starts with `http://localhost:` or `http://72.60.37.178:` (the listed ports are covered by the prefixes) |
| ServerIndex.ServerResponse.Header | server/index.ts:20-24 | sets one header and nothing else |
| ServerIndex.ServerResponse.SendOk | server/index.ts:27 | status 200 with body "OK", the headers set so far kept |
| ServerIndex.Cors | server/index.ts:10-31 | the three fixed headers are always set, the origin header iff the origin is allowed; `next` is called iff the method is not OPTIONS, which is answered 200 |
| ServerIndex.CorsHeaders | server/index.ts:20-24 | the header values, and the origin header only for an allowed origin |
| ServerIndex.Truncate | server/index.ts:88-90 | a line of at most 80 characters is unchanged; a longer one becomes its first 79 characters and an ellipsis, 80 in all |
| ServerIndex.TruncateIdempotent | server/index.ts:88-90 | truncating twice is truncating once |
| ServerIndex.LogLine | server/index.ts:83-90 | method, path, status and duration, then ` :: ` and the body when one was captured, cut to at most 80 characters |
| ServerIndex.RequestLog.constructor | server/index.ts:72 | nothing captured, nothing logged |
| ServerIndex.RequestLog.Json | server/index.ts:75-78 | remembers the body and logs nothing |
| ServerIndex.RequestLog.Finish | server/index.ts:80-94 | exactly one line for an `/api` path, none otherwise; every new line is at most 80 characters |
| ServerIndex.ErrorStatus | server/index.ts:103 | the error's status if truthy, else its statusCode if truthy, else 500; never falsy |
| ServerIndex.ErrorMessage | server/index.ts:104 | the error's message iff truthy, else "Internal Server Error" |
| ServerIndex.SessionTimesAgree | server/index.ts:37-53 | the prune period and the cookie lifetime are both 86400000 ms |
| ServerIndex.SessionSecret | server/index.ts:41 | the configured secret if non-empty, else the built-in one |
| Artists.FilteredArtists | client/src/pages/Artists.tsx:17-20 | the filter never lengthens the list |
| Artists.FilteredMembers | client/src/pages/Artists.tsx:17-20 | an artist is listed iff listed before and either name, lower-cased, contains the lower-cased search |
| Artists.FilteredAppend | client/src/pages/Artists.tsx:17-20 | filtering distributes over concatenation, so the input order is kept |
| Artists.FilteredSubMultiset | client/src/pages/Artists.tsx:17-20 | no artist is duplicated or invented |
| Artists.FilteredAllMatch | client/src/pages/Artists.tsx:17-20 | nothing is removed when every artist matches |
| Artists.FilteredIdempotent | client/src/pages/Artists.tsx:17-20 | searching the results again changes nothing |
| Artists.FilteredIgnoresCase | client/src/pages/Artists.tsx:18-19 | the search ignores the case of the search text |
| Artists.EmptySearchMatches | client/src/pages/Artists.tsx:18-19 | the empty search lists exactly the artists with a non-null name |
| Artists.ResultsLabel | client/src/pages/Artists.tsx:52 | "Loading..." while loading, else a text whose leading number is the filtered count |
| Dashboard.AvailableArtworks | client/src/pages/Dashboard.tsx:124 | exactly the artworks whose isAvailable is truthy |
| Dashboard.SoldArtworks | client/src/pages/Dashboard.tsx:125 | exactly the artworks whose isAvailable is falsy |
| Dashboard.AvailableSoldPartition | client/src/pages/Dashboard.tsx:123-125 | available and sold split the artworks: the counts add up and the multisets add up |
| Dashboard.StatsOf | client/src/pages/Dashboard.tsx:122-127 | total is the number of artworks and available + sold = total |
| Dashboard.StatsAppend | client/src/pages/Dashboard.tsx:124-125 | the counts of a concatenation are the sums of the parts' counts |
| Dashboard.HeaderActionFor | client/src/pages/Dashboard.tsx:145-155 | "Add Artwork" iff the user is an artist, "Become an Artist" otherwise |
| Dashboard.BecomeArtistRequest | client/src/pages/Dashboard.tsx:110-112 | a PATCH of `/api/auth/user` whose body has the single property isArtist = true |
| Dashboard.DeleteRequest | client/src/pages/Dashboard.tsx:104-108 | a DELETE is sent iff confirmed, to `/api/artworks/` followed by a number that `parseInt` reads back as the id |
| Dashboard.DeleteFailure | client/src/pages/Dashboard.tsx:38-55 | a redirect iff unauthorized, otherwise the delete failure message |
| Dashboard.ProfileFailure | client/src/pages/Dashboard.tsx:69-86 | a redirect iff unauthorized, otherwise the profile failure message |
| Feedback.FailureFeedback | client/src/components/AddArtworkDialog.tsx:60-77 | always a destructive toast; a redirect to `/api/login` iff unauthorized, with the logout toast; otherwise an error toast with the given message |
| ArtworkDialog.InitialFormShape | client/src/components/AddArtworkDialog.tsx:24-36 | every input starts empty, isAvailable true and isFeatured false |
| ArtworkDialog.InitialFormKeys | client/src/components/AddArtworkDialog.tsx:24-36 | the form's fields are the insert schema's properties, in order |
| ArtworkDialog.OptionalInteger | client/src/components/AddArtworkDialog.tsx:43-45 | an empty input becomes undefined, any other is integer-parsed |
| ArtworkDialog.MutationPayloadRefused | client/src/components/AddArtworkDialog.tsx:40-46 | the payload as written never passes the insert schema |
| ArtworkDialog.NullableInteger | client/src/components/AddArtworkDialog.tsx:43-45 | corrected coercion: an empty input becomes null, any other is integer-parsed |
| ArtworkDialog.CorrectedPayloadAccepted | client/src/components/AddArtworkDialog.tsx:40-46 | the corrected payload passes iff every integer input is empty or parses to a number |
| ArtworkDialog.CorrectedPayloadOfDigits | client/src/components/AddArtworkDialog.tsx:40-46 | inputs of digits only, or empty, pass |
| ArtworkDialog.AddArtworkDialog.constructor | client/src/components/AddArtworkDialog.tsx:24-36 | the dialog opens with the initial form, no toast and no redirect |
| ArtworkDialog.AddArtworkDialog.HandleChange | client/src/components/AddArtworkDialog.tsx:96-98 | the named field takes the value and every other field keeps its own |
| ArtworkDialog.AddArtworkDialog.ResetForm | client/src/components/AddArtworkDialog.tsx:80-94 | the form becomes the initial form; nothing else changes |
| ArtworkDialog.AddArtworkDialog.OnSuccess | client/src/components/AddArtworkDialog.tsx:50-59 | a success toast, the dialog closed and the form reset |
| ArtworkDialog.AddArtworkDialog.OnError | client/src/components/AddArtworkDialog.tsx:60-77 | one failure toast; a redirect to the login route iff unauthorized; the form is kept |
| ArtworkDialog.AddArtworkDialog.HandleSubmit | client/src/components/AddArtworkDialog.tsx:100-113 | blocked with the validation toast iff title, price or imageUrl is empty; otherwise the corrected payload is validated and the parsed body posted; success resets and closes; failure keeps the form; a posted submission answered as unauthorized redirects to the login route, and every other submission leaves the redirect as it was |
| ArtworkDialog.InitialFormBlocked | client/src/components/AddArtworkDialog.tsx:103 | the form as first opened never passes the gate |
| ArtworkDialog.CompleteFormPosted | client/src/components/AddArtworkDialog.tsx:103-112 | a form past the gate with digit-only number inputs is posted with its title, price and image URL as typed |
| ArtworkDialog.PostedAsTyped | client/src/components/AddArtworkDialog.tsx:40-48 | a posted body has the eleven declared properties, and the text inputs other than the integers as typed |

## Left out

- MySQL itself: SQL text, `ORDER BY created_at DESC`, the database-assigned `insertId` and `CURRENT_TIMESTAMP`. One call sees one database outcome: rows, or a throw at its first query.
- Connection-pool concurrency, `async`/`await` ordering, timers and `window.location` redirects. A redirect is recorded as a field.
- The user methods of the store, the user and artist routes, authentication (`setupAuth`, `isAuthenticated`) and sessions. `server/db.ts` is not part of this model. `storage.getArtists` and related calls are named by the routes but not defined by the store.
- Filtering by style, artist, price or featured. The list handler builds the filters, but `getArtworks` takes no argument and ignores them.
- Floating point. Prices and parsed numbers are exact reals. `parseFloat` reads digits with an optional fraction and no exponent. The dashboard's revenue sum and all `toLocaleString` display are not modelled.
- `shared/schema.ts` (Drizzle table definitions) and `fix-imports.js` (a build script) are not part of this model. The client imports the validators from `shared/schema.js`.
- Rendering, routing and the other pages and components.
- The content headers Express itself sets: `res.sendStatus(200)` also sets `Content-Type` and `Content-Length`, which `ServerIndex.ServerResponse.SendOk` does not record.
- Repeated query parameters: Express parses them into arrays; the list handler's query is a map from names to single strings. The filters are unused, so nothing observable depends on it.
- `JSON.stringify`: the log line takes the captured body's serialisation as a given string.
- String lengths count characters. JavaScript counts UTF-16 code units, which differs only for characters outside the Basic Multilingual Plane.
- `toLowerCase` folds only the capitals of Basic Latin and Latin-1 (A–Z, À–Þ without ×); other scripts and special casings such as İ are kept as they are.
- Prototype keys such as `constructor`: `columnMap[key]` on an inherited key is not modelled.
- Objects held in records (dates, arrays) are compared by reference in JavaScript; the model treats two of them as never strictly equal.
- Routes.CreateArtwork requires a well-formed request body (each key listed once). This holds for any body Express parses.
- ArtworkDialog.AddArtworkDialog.HandleSubmit runs the mutation to its end in one step, and it validates the corrected payload (see Findings). The server's answer is a parameter. Whether an error counts as unauthorized comes from a helper that is not part of this model.
- Dashboard: the redirect effect for a signed-out user and the React Query cache invalidations.
- The debug-logging middleware and the static-file setup in `server/index.ts`.

## Findings

| source | as written | input that shows it | evidently intended | confidence | as-written member | corrected member |
|---|---|---|---|---|---|---|
| client/src/components/AddArtworkDialog.tsx:40-46 | the payload converts price with `parseFloat` and sends an empty width, height or year as `undefined`, but `insertArtworkSchema` wants price as a string and those three as number-or-null | any form past the gate, e.g. title "A", price "10", image "x", other inputs empty: price becomes the number 10 and the schema refuses it | keep price as the typed string and send empty integer inputs as null, so that a complete form is posted | not executed | ArtworkDialog.MutationPayloadRefused | ArtworkDialog.CorrectedPayloadAccepted |
