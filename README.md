# Bookmark metadata enrichment, modelled in Dafny

A small Laravel service stores bookmarks (a URL plus an optional title and
description) and enriches each one in the background: a queued job fetches
the page, pulls a title and a description out of its HTML through ordered
fallback chains, and writes either a success tuple or a failure tuple onto
the record; the queue runs a failing job at most three times in all (the
first run and up to two retries), 60 time units apart. This project models that core and proves its properties:

- `php_text.dfy` (`PhpText`): PHP's `trim()`, the decimal rendering of an
  integer inside a string, PHP truthiness and Laravel's `filled()`.
- `metadata_fetcher.dfy` (`MetadataFetcher`): the document as a list of
  parsed elements, selector lookup, `extractContent`, `extractMetadata`
  with its two `??` chains, and `fetch`'s mapping of the HTTP outcome to
  metadata or a prefixed error message.
- `extraction_examples.dfy` (`ExtractionExamples`): the extraction cases of
  the service's tests, stated for every page of the same shape.
- `bookmark.dfy` (`BookmarkModel`): the record, the three status scopes,
  mass assignment with a guarded id, the `creating` hook, and the table
  class with create, update, find and soft delete.
- `fetch_job.dfy` (`FetchJob`): the job class (`handle` and the `failed`
  hook), the queue, the retry worker loop, and the retry policy as the
  functions `FinalAttempt` and `FinalRecord` with their lemmas.
- `bookmark_controller.dfy` (`BookmarkController`): `store`, `retry`,
  `destroy` and the status filter of `index`.
- `api_token.dfy` (`ApiTokenMiddleware`): the bearer-token check.
- `wrappers.dfy` (`Wrappers`): `Option` (PHP's nullable values, with `??`)
  and `Result` (a value or a thrown exception's message), and
  `FirstPresent`, the first non-null of a list, which a `??` chain equals.

Inputs that stand for the outside world: the HTTP response of each GET (a
status and a pre-parsed body, or a connection failure), the fetcher the job
calls (a function from attempt number and url to metadata or an exception
message), the clock reading standing for `now()`, the fresh UUID standing
for `Str::uuid()`, the `API_TOKEN` environment value and the bearer token.

Behaviours of the code that the model keeps as written:

- The code writes `fetch_failed = true` and the message on every failed
  attempt, not only after the last one; a later success overwrites it.
- The "completed" filter is `metadata_fetched_at IS NOT NULL` alone, so a
  record can be completed and failed at once.
- A selected element stops its fallback chain even when its value trims to
  the empty string: `??` only skips null.
- The status error message is the inner text `Failed to fetch URL: HTTP
  status <code>` wrapped by the outer prefix `Error fetching metadata: `.

## Model

| member | source | states |
|---|---|---|
| `Wrappers.Option.OrElse` | app/Services/MetadataFetcherService.php:56-58 | PHP's `??`, a plain definition; `OrElseChainIsFirstPresent` proves a chain of it is the first non-null operand |
| `Wrappers.FirstPresent` | app/Services/MetadataFetcherService.php:56-58 | null exactly when every candidate is null |
| `Wrappers.FirstPresentAt` | app/Services/MetadataFetcherService.php:56-58 | the value is the candidate before which every candidate is null |
| `Wrappers.OrElseChainIsFirstPresent` | app/Services/MetadataFetcherService.php:56-58 | a chain `a ?? b ?? c` is the first non-null of `a`, `b`, `c` |
| `PhpText.Trim` | app/Services/MetadataFetcherService.php:83-86 | the result neither starts nor ends with a trim character and is the middle of the input with only trim characters around it |
| `PhpText.TrimUnchanged` | app/Services/MetadataFetcherService.php:83-86 | a string with no trim character at either end is its own trim |
| `PhpText.TrimOfPadded` | app/Services/MetadataFetcherService.php:83-86 | trimming removes exactly the runs of trim characters before and after an untrimmable core, whatever each run is |
| `PhpText.TrimIdempotent` | app/Services/MetadataFetcherService.php:83-86 | trimming twice is trimming once |
| `PhpText.Decimal` | app/Services/MetadataFetcherService.php:31 | the interpolated status code is a non-empty digit string with no leading zero |
| `PhpText.DecimalRoundTrip` | app/Services/MetadataFetcherService.php:31 | reading the digits back gives the status code |
| `PhpText.DecimalInjective` | app/Services/MetadataFetcherService.php:31 | distinct codes give distinct messages |
| `PhpText.Falsy` | app/Models/Bookmark.php:57 | PHP truthiness of a nullable string (null, "" and "0" are falsy), a plain definition used by the `creating` hook, the token guard and `if ($attribute)`; `AssignedIdIsTruthy`, `FalsyTokenRejected` and `ContentAt` rest on it |
| `PhpText.Filled` | app/Http/Controllers/BookmarkController.php:24 | `filled()` on the status input: present and not blank after trimming; `SelectFilter` proves the three status words pass it |
| `MetadataFetcher.Filter` | app/Services/MetadataFetcherService.php:79 | every selected element matches the selector, and the selection is empty exactly when no element of the document matches |
| `MetadataFetcher.FilterFirst` | app/Services/MetadataFetcherService.php:79-86 | the node read by `attr`/`text` is the first matching element in document order |
| `MetadataFetcher.AttrOrEmpty` | app/Services/MetadataFetcherService.php:83-84 | `attr()` giving null for a missing attribute, read through `trim(null)` as ""; `BlankOpenGraphTitleStopsChain` proves such an element still stops its chain |
| `MetadataFetcher.ExtractContent` | app/Services/MetadataFetcherService.php:76-93 | null exactly when nothing is selected; a found value is already trimmed |
| `MetadataFetcher.ExtractContentAt` | app/Services/MetadataFetcherService.php:81-86 | with a first match, the value is the trimmed attribute (missing attribute reads as "") or the trimmed text of that element |
| `MetadataFetcher.ExtractContentSeesOnlyFilter` | app/Services/MetadataFetcherService.php:76-93 | a lookup depends on nothing but the elements its selector picks |
| `MetadataFetcher.ExtractMetadata` | app/Services/MetadataFetcherService.php:47-66 | total; the result has exactly the keys title and description, each null or trimmed |
| `MetadataFetcher.ResolveTitle` | app/Services/MetadataFetcherService.php:56-58 | the title `??` chain, a plain definition; `TitleIsFirstPresent` proves it is the first non-null of its three lookups |
| `MetadataFetcher.TitleIsFirstPresent` | app/Services/MetadataFetcherService.php:56-58 | the title is the first non-null of the og:title content, the `<title>` text and the twitter:title content |
| `MetadataFetcher.TitleFromOpenGraph` | app/Services/MetadataFetcherService.php:56 | with an og:title element, the title is its trimmed content |
| `MetadataFetcher.TitleFromTitleTag` | app/Services/MetadataFetcherService.php:56-57 | with no og:title, the title is the trimmed text of the first `<title>` |
| `MetadataFetcher.TitleFromTwitter` | app/Services/MetadataFetcherService.php:56-58 | with neither og:title nor `<title>`, the title is the trimmed twitter:title content |
| `MetadataFetcher.TitleAbsent` | app/Services/MetadataFetcherService.php:56-58 | the title is null if and only if none of the three selectors matches |
| `MetadataFetcher.ResolveDescription` | app/Services/MetadataFetcherService.php:61-63 | the description `??` chain, a plain definition; `DescriptionIsFirstPresent` proves it is the first non-null of its three lookups |
| `MetadataFetcher.DescriptionIsFirstPresent` | app/Services/MetadataFetcherService.php:61-63 | the description is the first non-null of the og:description, meta description and twitter:description contents |
| `MetadataFetcher.DescriptionFromOpenGraph` | app/Services/MetadataFetcherService.php:61 | with an og:description element, the description is its trimmed content |
| `MetadataFetcher.DescriptionFromMetaDescription` | app/Services/MetadataFetcherService.php:61-62 | with no og:description, the description is the trimmed content of `meta[name=description]` |
| `MetadataFetcher.DescriptionFromTwitter` | app/Services/MetadataFetcherService.php:61-63 | with neither of the first two, the description is the trimmed twitter:description content |
| `MetadataFetcher.DescriptionAbsent` | app/Services/MetadataFetcherService.php:61-63 | the description is null if and only if none of its three selectors matches |
| `MetadataFetcher.BlankOpenGraphTitleStopsChain` | app/Services/MetadataFetcherService.php:81-86 | a present og:title with blank content gives the title "" even when a `<title>` exists |
| `MetadataFetcher.ChainsAreIndependent` | app/Services/MetadataFetcherService.php:56-63 | the title depends only on the title selectors' elements, so the two fields may come from different families |
| `MetadataFetcher.DescriptionChainIsIndependent` | app/Services/MetadataFetcherService.php:61-63 | the description depends only on its own three selectors' elements, never on the title elements |
| `MetadataFetcher.Fetch` | app/Services/MetadataFetcherService.php:25-39 | succeeds exactly on a 2xx response; every error message starts with "Error fetching metadata: " |
| `MetadataFetcher.Successful` | app/Services/MetadataFetcherService.php:30 | the 2xx test `successful()`; `Fetch` proves a response succeeds exactly when it passes it |
| `MetadataFetcher.FetchSuccess` | app/Services/MetadataFetcherService.php:34-35 | a 2xx response yields exactly the metadata extracted from its body |
| `MetadataFetcher.FetchStatusFailure` | app/Services/MetadataFetcherService.php:30-31 | a non-2xx status fails whatever the body, the message contains "HTTP status <code>", and the code can be read back from it |
| `MetadataFetcher.FetchConnectionFailure` | app/Services/MetadataFetcherService.php:36-37 | a connection error is rethrown as the prefix followed by its own message |
| `ExtractionExamples.PlainPageTitle` | tests/Unit/MetadataFetcherServiceTest.php:10-37 | a page with `<title>` and a plain description gets the title text |
| `ExtractionExamples.PlainPageDescription` | tests/Unit/MetadataFetcherServiceTest.php:10-37 | that page gets the plain description |
| `ExtractionExamples.OpenGraphTitleWins` | tests/Unit/MetadataFetcherServiceTest.php:39-65 | og:title wins over `<title>` |
| `ExtractionExamples.OpenGraphDescriptionWins` | tests/Unit/MetadataFetcherServiceTest.php:39-65 | og:description wins over the plain description |
| `ExtractionExamples.TitleTagBeatsTwitter` | app/Services/MetadataFetcherService.php:56-58 | `<title>` wins over twitter:title |
| `ExtractionExamples.TwitterDescriptionFallback` | tests/Unit/MetadataFetcherServiceTest.php:67-91 | twitter:description is used when the first two are absent |
| `ExtractionExamples.NothingFound` | tests/Unit/MetadataFetcherServiceTest.php:93-113 | a page without metadata elements gives null title and description |
| `ExtractionExamples.SurroundingWhitespaceTrimmed` | app/Services/MetadataFetcherService.php:86 | whitespace before and after the `<title>` text is removed, each side independently |
| `BookmarkModel.WithMetadata` | app/Models/Bookmark.php:69-72 | the completed scope: `metadata_fetched_at` is set; its relation to the others is proved in `ScopesCoverAndPendingIsExclusive` |
| `BookmarkModel.PendingMetadata` | app/Models/Bookmark.php:80-83 | the pending scope: no fetch time and not failed; proved to hold exactly when neither other scope does |
| `BookmarkModel.FailedMetadata` | app/Models/Bookmark.php:91-94 | the failed scope: `fetch_failed` is true; proved to overlap with completed in `CompletedAndFailedCanOverlap` |
| `BookmarkModel.ScopesCoverAndPendingIsExclusive` | app/Models/Bookmark.php:69-94 | every record is completed, pending or failed; pending holds exactly when neither of the others does |
| `BookmarkModel.CompletedAndFailedCanOverlap` | app/Models/Bookmark.php:69-94 | a record can be completed and failed at once, and is then not pending |
| `BookmarkModel.Fill` | app/Models/Bookmark.php:19 | every column named in the attribute array takes its value, every other column keeps its own, and the id and deletion time never change |
| `BookmarkModel.FillEmpty` | app/Models/Bookmark.php:19 | an empty attribute array changes nothing |
| `BookmarkModel.FillIgnoresId` | app/Models/Bookmark.php:19 | an id in the attribute array has no effect |
| `BookmarkModel.Guarded` | app/Models/Bookmark.php:19 | the guarded id dropped from an attribute array, a plain definition; `FillIgnoresId` and `CreateIdSource` prove an array's id never reaches a record |
| `BookmarkModel.AssignId` | app/Models/Bookmark.php:56-60 | the `creating` hook, a plain definition; `CreateIdSource` and `AssignedIdIsTruthy` prove which id it keeps and that it is truthy |
| `BookmarkModel.AssignedIdIsTruthy` | app/Models/Bookmark.php:56-60 | the id the hook settles on is truthy |
| `BookmarkModel.CreateIdSource` | app/Models/Bookmark.php:56-60 | a mass-assigning create always gets the fresh UUID whatever id it carries (the id is guarded, line 19); an unguarded truthy id is kept, a falsy one replaced by the fresh UUID |
| `BookmarkModel.NewRecord` | database/migrations/2025_03_07_114206_create_bookmarks_table.php:15-23 | a new row has the given id and url, is not deleted, and with only a url set is pending |
| `BookmarkModel.BookmarkTable.Create` | app/Models/Bookmark.php:56-60 | the row is inserted under the id the hook settles on (`CreateIdSource`); a taken id or a missing url fails and leaves the table unchanged |
| `BookmarkModel.BookmarkTable.Update` | app/Models/Bookmark.php:19 | the row becomes its fill with the array, under the same id, and no other row changes |
| `BookmarkModel.Lookup` | app/Models/Bookmark.php:12 | the row under an id unless missing or, without trashed rows, soft-deleted (`find`, `withTrashed()->find`, route binding); `SoftDelete`, `Retry`, `Destroy` and the `Index` lemmas are stated with it |
| `BookmarkModel.BookmarkTable.Find` | app/Models/Bookmark.php:12 | `find` and `withTrashed()->find`, a plain definition; `SoftDelete` and `BookmarkController.Destroy` prove a deleted row is found only with trashed rows |
| `BookmarkModel.BookmarkTable.SoftDelete` | app/Models/Bookmark.php:12 | the row stays, with its deletion time set; it is found with trashed rows and not without |
| `FetchJob.SuccessPatch` | app/Jobs/FetchBookmarkMetadata.php:65-71 | the success tuple; `SuccessWrite` proves what it makes of a record |
| `FetchJob.FailurePatch` | app/Jobs/FetchBookmarkMetadata.php:78-81 | the failure tuple; `FailureWrite` proves what it makes of a record |
| `FetchJob.MetadataField` | app/Jobs/FetchBookmarkMetadata.php:66-67 | `$metadata[$key] ?? null`, a plain definition; `SuccessWrite` proves a missing key is stored as null and a present one as its value |
| `FetchJob.AfterAttempt` | app/Jobs/FetchBookmarkMetadata.php:63-81 | the record one attempt leaves, a plain definition; `Handle` proves it is what the attempt writes, `SuccessWrite`/`FailureWrite` what it contains |
| `FetchJob.SuccessWrite` | app/Jobs/FetchBookmarkMetadata.php:65-71 | after success: title and description from the metadata, a missing key read as null; fetch time set, not failed, no error, completed; id, url kept |
| `FetchJob.EmptyMetadataIsSuccess` | app/Jobs/FetchBookmarkMetadata.php:65-71 | both fields null still leaves the record completed and not failed |
| `FetchJob.FailureWrite` | app/Jobs/FetchBookmarkMetadata.php:78-81 | after failure: failed with the message, everything else unchanged |
| `FetchJob.LaterWriteWins` | app/Jobs/FetchBookmarkMetadata.php:65-81 | a success erases an earlier failure, a later failure replaces an earlier one |
| `FetchJob.FinalAttempt` | app/Jobs/FetchBookmarkMetadata.php:24 | the stopping attempt is at most 3, every earlier one failed, and it succeeded unless it is the third |
| `FetchJob.FinalAttemptIsFirstSuccess` | app/Jobs/FetchBookmarkMetadata.php:24 | the stopping attempt is the first successful one |
| `FetchJob.FinalAttemptIsFirstOrLast` | app/Jobs/FetchBookmarkMetadata.php:24 | the attempt after only failures that succeeds, or the third, is the stopping one |
| `FetchJob.AlwaysFailingExhaustsRetries` | app/Jobs/FetchBookmarkMetadata.php:24 | an always-failing fetch uses exactly 3 attempts and ends failed with the last message, metadata untouched |
| `FetchJob.TerminalFailureNeedsThreeAttempts` | app/Jobs/FetchBookmarkMetadata.php:24 | a final failed state only follows three failed attempts |
| `FetchJob.AttemptTime` | app/Jobs/FetchBookmarkMetadata.php:31 | attempt n runs (n - 1) × 60 after the first, a plain definition; `RunWithRetries` proves the loop stamps its attempts so and `SuccessAfterFailure` that a second-attempt success is stamped at start + 60 |
| `FetchJob.SuccessAfterFailure` | app/Jobs/FetchBookmarkMetadata.php:65-81 | fail then succeed ends completed, not failed, no error, fetched at the second attempt's time |
| `FetchJob.ServiceFailureIsPrefixed` | app/Services/MetadataFetcherService.php:36-37 | with the real service, a final stored error starts with the fixed prefix |
| `FetchJob.AlwaysNotFound` | app/Services/MetadataFetcherService.php:30-31 | a page that always answers 404 ends failed with "... HTTP status 404" stored |
| `FetchJob.StateAfterStep` | app/Jobs/FetchBookmarkMetadata.php:60-81 | an attempt after failed ones reads the unchanged url and leaves only the latest write visible |
| `FetchJob.JobQueue.Dispatch` | app/Http/Controllers/BookmarkController.php:61 | the job's bookmark id is appended to the queue |
| `FetchJob.FetchBookmarkMetadata.constructor` | app/Jobs/FetchBookmarkMetadata.php:46-49 | a new job is for the given bookmark, with no attempts made |
| `FetchJob.OutcomeOf` | app/Jobs/FetchBookmarkMetadata.php:91 | how an attempt ends, a plain definition; `Handle` and `RunWithRetries` prove the job completes exactly when the fetch succeeded and otherwise rethrows its message |
| `FetchJob.FetchBookmarkMetadata.Handle` | app/Jobs/FetchBookmarkMetadata.php:58-92 | re-reads the row, calls the fetcher once with its url, writes the success or the failure tuple; completes exactly when the fetch succeeded and otherwise rethrows the fetch's message; a missing row throws and changes nothing |
| `FetchJob.FetchBookmarkMetadata.Failed` | app/Jobs/FetchBookmarkMetadata.php:101-108 | modifies nothing; reports the job's bookmark and the final message |
| `FetchJob.RunWithRetries` | app/Jobs/FetchBookmarkMetadata.php:24-31 | 1 to 3 attempts, 60 apart, one fetch call with the url each, stopping at the first success; the final row is `FinalRecord`; the job rethrows exactly when the last attempt failed, and the failed hook runs exactly after a third failure |
| `BookmarkController.PendingBookmark` | app/Http/Controllers/BookmarkController.php:56-58 | the stored row has only the url set and is pending |
| `BookmarkController.Store` | app/Http/Controllers/BookmarkController.php:54-70 | inserts one pending row under the fresh id and queues one job for it; a failed insert queues nothing |
| `BookmarkController.ClearFailurePatch` | app/Http/Controllers/BookmarkController.php:108-111 | the attribute array `retry` writes; `ClearFailureWrite` proves what it makes of a record |
| `BookmarkController.ClearFailureWrite` | app/Http/Controllers/BookmarkController.php:108-111 | clears the failure flag and error only; a never-fetched record becomes pending |
| `BookmarkController.Retry` | app/Http/Controllers/BookmarkController.php:106-119 | 404 for a missing or trashed id; otherwise clears the failure and queues one job |
| `BookmarkController.Destroy` | app/Http/Controllers/BookmarkController.php:91-98 | 404 for a missing or trashed id; otherwise a soft delete |
| `BookmarkController.SelectFilter` | app/Http/Controllers/BookmarkController.php:24-33 | each of the three words, exactly, selects its scope |
| `BookmarkController.Admits` | app/Http/Controllers/BookmarkController.php:26-31 | the scope a filter applies to a row, a plain definition; `IndexPending`, `IndexFailed`, `IndexCompleted` and `IndexUnfiltered` prove the listed sets |
| `BookmarkController.Index` | app/Http/Controllers/BookmarkController.php:23-35 | lists only live rows |
| `BookmarkController.IndexPending` | app/Http/Controllers/BookmarkController.php:26-27 | "pending" lists exactly the live pending rows |
| `BookmarkController.IndexFailed` | app/Http/Controllers/BookmarkController.php:28-29 | "failed" lists exactly the live failed rows |
| `BookmarkController.IndexCompleted` | app/Http/Controllers/BookmarkController.php:30-31 | "completed" lists exactly the live rows with metadata |
| `BookmarkController.IndexUnfiltered` | app/Http/Controllers/BookmarkController.php:24-33 | no status or any other value lists every live row |
| `ApiTokenMiddleware.Accepts` | app/Http/Middleware/ApiTokenMiddleware.php:25 | the negated guard `!$token || $token !== $validToken`; characterised in `AcceptsExactlyConfiguredToken` |
| `ApiTokenMiddleware.AcceptsExactlyConfiguredToken` | app/Http/Middleware/ApiTokenMiddleware.php:25 | a token is accepted if and only if it equals the configured token and that token is neither "" nor "0" |
| `ApiTokenMiddleware.Handle` | app/Http/Middleware/ApiTokenMiddleware.php:20-31 | the middleware's `handle`, a plain definition; `FalsyTokenRejected`, `WrongTokenRejected` and `ExactTokenPassesThrough` prove which requests get 401 and which get the next response unchanged |
| `ApiTokenMiddleware.FalsyTokenRejected` | app/Http/Middleware/ApiTokenMiddleware.php:25-28 | an absent, "" or "0" token gets 401 whatever the configuration |
| `ApiTokenMiddleware.ExactTokenPassesThrough` | app/Http/Middleware/ApiTokenMiddleware.php:25-31 | the exact configured token, when truthy, gets the next handler's response back unchanged |
| `ApiTokenMiddleware.WrongTokenRejected` | app/Http/Middleware/ApiTokenMiddleware.php:25-28 | any other token is answered with status 401 |
| `ApiTokenMiddleware.ConfiguredToken` | app/Http/Middleware/ApiTokenMiddleware.php:23 | `env('API_TOKEN', 'test-api-token')`, a plain definition; `DefaultTokenOnly` proves the default applies when the variable is unset |
| `ApiTokenMiddleware.DefaultTokenOnly` | app/Http/Middleware/ApiTokenMiddleware.php:23-25 | with `API_TOKEN` unset the configured token is "test-api-token", and exactly that token is accepted |

## Left out

- HTTP transport (`Http::timeout(10)->get`): the response is an input; the 10-second timeout is a transport setting.
- HTML parsing and CSS selector matching: the document is a pre-parsed element list and a selector a tag with an optional attribute-equals test; DomCrawler's whitespace normalisation inside `text()` is not modelled.
- The catch block of `extractContent`: lookups on the abstract document cannot throw, so that path is not reachable in the model; totality of `ExtractMetadata` is what remains of it.
- Laravel queue machinery (worker concurrency, serialisation, real delays): the worker is an explicit loop over attempt numbers with an abstract clock.
- Logging (`Log::info`, `Log::error`): side effects only.
- `now()` and `Str::uuid()`: a clock reading and a fresh id are parameters; a UUID collision surfaces as a failed insert.
- Pagination, `latest()` ordering, `show` and the JSON envelopes of `index`: framework plumbing; `Index` returns the set of listed ids.
- The `created_at` and `updated_at` timestamps.
- The `BookmarkCreated` event, the routes file and `BookmarkRequest`'s `url` rule (Laravel's validator); the 2048-length bound is not modelled.
- The factory's random test data.
- Laravel's special `.env` literals (`null`, `true`, `(empty)`) and the parsing of the `Authorization` header into a bearer token.
- FetchJob.FetchBookmarkMetadata.Handle: database writes are assumed to succeed; the 255-character width of the `string` columns (`title`, `fetch_error`) is not modelled, so a success write that throws inside the `try` (an over-long title) or a failure write that throws inside the `catch` (an over-long error message) is not modelled either.
- FetchJob.RunWithRetries: for the same reason, its final record assumes every write of every attempt succeeds; on a store that rejects an over-long value the run can end other than as stated.
- Concurrent jobs for the same bookmark: runs are sequential in the model.
- A row that disappears before its job runs: nothing in the application hard-deletes a row, so the missing-row path of `Handle` only stands for a row removed outside the application; the `Exception` type hint of the `failed` hook, which that `Error` would not satisfy, is not modelled.
