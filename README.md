# doc-arag-client core, modelled in Dafny

This project models the client-side logic of a document question-answering
web client. The client uploads a document, asks the backend to build its
embeddings, and then polls the embedding task until it ends. It also lists
and deletes documents, shows chat sessions and sends chat messages.

The modelled core is:

- **`ApiClient`** (`api.dfy`). This is the backend client. It covers the endpoint paths and URLs and the JSON request headers. It turns every failed exchange into one `ApiError { detail, status }`. The service-unavailable sentinel replaces markup error pages. A failed fetch and a malformed success body both become the network error with status 0. The task poller is a specification function `PollSpec` over a scripted sequence of status results. `PollTaskStatus` is the imperative loop, proved equal to `PollSpec`.
- **`Utils`** (`utils.dfy`). This covers `truncate` and the `storage` wrapper over the browser's key-value store. The store is a `Storage` class whose `items` map the methods update. Each method is proved against a pure function, and round-trip lemmas are proved about those functions.
- **`TaskProgress`** (`task_progress.dfy`). This covers the progress ratio, the error text handed to `onError`, and the effect that polls and then notifies the parent.
- **`DocumentUpload`** (`document_upload.dfy`). This covers file validation (type before size, with a 50 MiB inclusive ceiling) and the upload → embeddings → follow-task state machine of the component.
- **`DocumentList`** (`document_list.dfy`). This covers the pagination arithmetic (`Math.ceil`, clamped prev/next) and the fetch and delete state transitions. It also covers which panel is rendered: spinner, error, empty state or grid with pager.
- **`ChatHistory`** (`chat_history.dfy`). This covers the displayed-title rule and the current-session highlight.
- **`ChatInput`** (`chat_input.dfy`). This covers JavaScript `trim`, the submit guard, the Enter/Shift+Enter shortcut, the send-button guard and the character counter.
- **`LanguageSwitcher`** (`language_switcher.dfy`) and **`I18n`** (`i18n.dfy`). These cover cyclic locale switching, the path rewrite with a first-occurrence `replace`, language names, and the locale fallback of the request configuration.
- **`Strings`** and **`Wrappers`** (`strings.dfy`, `wrappers.dfy`). These are the substring search (`includes`), first-occurrence removal (`replace`), decimal rendering of numbers, and `Option`/`Result`.

How the environment is modelled:

- An HTTP exchange is given as its outcome: `Result<Response, string>`.
- JSON decoding and encoding are codec parameters `string -> Result<T, string>`. A `Failure` is the message of the error that `JSON.parse` or `response.json()` would throw.
- A value a promise rejects with is `Thrown`: an `ApiError` object (`Api`) or a JavaScript `Error` (`JsError`). `Detail()` and `Message()` return `None` where `err.detail` or `err.message` would be `undefined`.
- JavaScript `||` on strings is `Or`, and truthiness is `Truthy`.
- Translated texts are opaque message keys (`I18n.Text`).
- Back-end calls a component makes are recorded as a `seq<Operation>`.

Behaviours of the code that are easy to miss:

- The progress callback also fires with the terminal status. The scenario processing 1/10, processing 5/10, completed therefore reports three statuses, not two (`PollCompletedScenario`).
- Markup detection is a substring test anywhere in the body, not a prefix test.
- A JSON error body's `detail` is used as it is, with no markup check.
- `uploadDocument` lets a failed fetch or a malformed success body propagate as the raw JavaScript error. It does not normalize it into an `ApiError`.
- In `request`, an error response with status 0 is also turned into the network error, because the catch block tests `status` for truthiness.
- The poller has no cancellation and no ceiling on the number of requests.
- The upload component tests the task id for truthiness. An embeddings response with an empty `task_id` therefore mounts no task progress panel: the drop zone stays, and the upload button stays disabled because `uploading` is never cleared.

## Model

| member | source | states |
|---|---|---|
| ApiClient.ClassifyFailure | lib/api.ts:30-54 | The status is kept. For a JSON body, the detail is the decoded truthy `detail`, else the truthy `message`, else the default. An undecodable body gives the sentinel. For a non-JSON body, markup gives the sentinel, other text is kept when non-empty, and an empty one gives the default. An unreadable body gives the sentinel. |
| ApiClient.FallbackIsTheOnlyDifference | lib/api.ts:93-117 | Two classifications with different default messages agree unless the default is used, and then each yields its own default. |
| ApiClient.DetailNeverEmpty | lib/api.ts:31-48 | With a non-empty default, the classified detail is never empty. |
| ApiClient.SentinelHasNoAngleBracket | lib/api.ts:41 | The sentinel message contains no '<'. |
| ApiClient.SentinelIsNotMarkup | lib/api.ts:40-41 | The sentinel itself does not look like markup, so it is a fixed point of the markup guard. |
| ApiClient.NonJsonDetailIsNotMarkup | lib/api.ts:38-44 | For a body not declared JSON, the classified detail never looks like markup, given a default that does not. |
| ApiClient.MarkupBodyIsUnavailable | lib/api.ts:39-41 | A non-JSON markup body yields exactly the sentinel with the response status, whatever that status is. |
| ApiClient.Request | lib/api.ts:18-67 | The request succeeds iff the fetch succeeded, the status is 2xx and the body decodes, and then it yields the decoded value. A failure with a non-zero status is the classification of a non-ok response. A failure with status 0 is the network error. |
| ApiClient.RequestKeepsRejection | lib/api.ts:58-61 | A non-ok response with a non-zero status is rethrown as its classification with the "An error occurred" default. |
| ApiClient.RequestNetworkFailures | lib/api.ts:57-66 | A failed fetch and an ok response whose body does not decode both give `{detail: "Network error…", status: 0}`. |
| ApiClient.RequestDetailNeverEmpty | lib/api.ts:30-66 | Every failure of `request` carries a non-empty detail. |
| ApiClient.JsonDetailExample | lib/api.ts:35-37 | A 404 with a JSON body whose detail is "x" gives `ApiError("x", 404)`. |
| ApiClient.UploadDocument | lib/api.ts:83-121 | A failed fetch rejects with the raw error. A non-ok response rejects with its classification under the "Upload failed" default. An ok response yields the decoded body, or rejects with the raw parse error. |
| ApiClient.UploadClassifiesLikeRequest | lib/api.ts:93-117 | For a non-ok response with a non-zero status, upload and request report the same `ApiError` unless the default is used. In that case they report "An error occurred" and "Upload failed". |
| ApiClient.DocumentNameField | lib/api.ts:86 | The `document_name` field is the given name when truthy, else the file's name. |
| ApiClient.RequestHeaders | lib/api.ts:22-27 | The header keys are the caller's plus Content-Type. The caller's values win, and Content-Type defaults to application/json. |
| ApiClient.PathOf | lib/api.ts:69-145 | Every endpoint path starts with '/'. |
| ApiClient.ApiBase | lib/api.ts:15 | A configured non-empty base URL is used as it is. An unset or empty one gives "/api". The base is never empty. |
| ApiClient.Url | lib/api.ts:15-19 | The URL is exactly the base followed by the path. |
| ApiClient.ListDocumentsDefaults | lib/api.ts:131-132 | Omitted pagination arguments mean page 1 and page size 10, so the path is `/documents?page=1&page_size=10` under `/api`. |
| ApiClient.TaskUrlsDistinct | lib/api.ts:143-144 | Different task ids are polled at different URLs. |
| ApiClient.PollSpec | lib/api.ts:148-176 | The number of requests is at most the script length, and it is zero iff the script is empty. A poll still running has used the whole script. There is one delay per non-final request, each equal to the interval. Nothing is reported without a callback. |
| ApiClient.PollStopsAtFirstEnd | lib/api.ts:154-171 | Polling stops at the first completed, failed or failed-request result. Exactly that many requests are made, and every status up to and including it is reported. |
| ApiClient.PollWithoutEnd | lib/api.ts:158-168 | While no result ends polling, every status is reported and polling continues. |
| ApiClient.PollIgnoresLaterResults | lib/api.ts:162-171 | Once a result has ended polling, results after it have no effect. |
| ApiClient.PollCompletedScenario | lib/api.ts:156-167 | For processing 1/10, processing 5/10, completed: three requests, three reports, two 2000 delays, resolution with the completed status, then nothing more. |
| ApiClient.PollFailedScenario | lib/api.ts:164-165 | A failed status rejects with an `Error` carrying its message after one request. |
| ApiClient.ThenAssociative | lib/api.ts:154-172 | Joining traces is associative (used by the loop proof). |
| ApiClient.PollFromIsSpec | lib/api.ts:154-172 | The indexed trace from request i equals the specification on the remaining script. |
| ApiClient.StepKeepsTrace | lib/api.ts:154-172 | One more `poll` run keeps the rule that the trace so far followed by the remaining trace is the whole trace. |
| ApiClient.Poll | lib/api.ts:154-172 | One `poll` run requests the task path once, reports the status when there is a callback, and settles or schedules one more delay. |
| ApiClient.PollTaskStatus | lib/api.ts:148-176 | The loop's outcome, request count, reported statuses and delays equal `PollSpec`, and every request is for `/tasks/<taskId>`. |
| Utils.Truncate | lib/utils.ts:30-33 | A string that fits is returned unchanged. Otherwise the result is its first `max(length, 0)` characters followed by "...". |
| Utils.TruncateBounded | lib/utils.ts:30-33 | A truncated string is at most three characters longer than the limit. |
| Utils.ReadItem | lib/utils.ts:41-51 | The read gives the default without a window, when the store throws, or when the key is missing or empty. Otherwise it gives the decoded value, or the default when decoding fails. |
| Utils.WriteItem | lib/utils.ts:53-61 | The write updates exactly the key with its encoding. Without a window, on an encoding failure or on a refused write, the store is unchanged. |
| Utils.RemoveItem | lib/utils.ts:63-71 | The removal drops exactly the key when the store is usable, and otherwise changes nothing. |
| Utils.WriteThenRead | lib/utils.ts:41-61 | With a faithful codec, a written value reads back, and other keys read as before. |
| Utils.RemoveThenRead | lib/utils.ts:41-71 | A removed key reads as the default. |
| Utils.Storage.constructor | lib/utils.ts:40 | The store starts with the given window, accessibility and items. |
| Utils.Storage.Get | lib/utils.ts:41-51 | `get` returns `ReadItem` of the current items. |
| Utils.Storage.Set | lib/utils.ts:53-61 | `set` leaves the items equal to `WriteItem` of the old items. |
| Utils.Storage.Remove | lib/utils.ts:63-71 | `remove` leaves the items equal to `RemoveItem` of the old items. |
| I18n.ResolveLocale | i18n.ts:9-16 | The resolved locale is always supported. A supported request is kept, and a missing, empty or unsupported one gives "en". |
| I18n.CataloguePath | i18n.ts:18-21 | The catalogue loaded is the message file of the resolved locale: ru.json exactly when the locale resolves to ru, en.json exactly when it resolves to en. |
| I18n.EmptyLocaleFallsBack | i18n.ts:14-15 | A missing locale and an empty one both fall back to the default. |
| I18n.ResolveIdempotent | i18n.ts:14-16 | Resolving a resolved locale changes nothing. |
| LanguageSwitcher.IndexOf | components/ui/LanguageSwitcher.tsx:34 | `indexOf` gives the first index holding the value, or -1 exactly when it is absent. |
| LanguageSwitcher.NextLocale | components/ui/LanguageSwitcher.tsx:33-36 | The next locale is always a supported one. |
| LanguageSwitcher.NextLocaleCycles | components/ui/LanguageSwitcher.tsx:34-36 | en switches to ru and ru switches to en. |
| LanguageSwitcher.NextLocaleOfUnknown | components/ui/LanguageSwitcher.tsx:34-35 | An unsupported current locale has index -1, so a click selects the first locale. |
| LanguageSwitcher.NextLocaleTwiceReturns | components/ui/LanguageSwitcher.tsx:34-36 | Two clicks return to a supported starting locale. |
| LanguageSwitcher.PathWithoutLocale | components/ui/LanguageSwitcher.tsx:15 | Without an occurrence of '/'+locale the path is unchanged. Otherwise exactly one occurrence is removed. |
| LanguageSwitcher.SwitchTarget | components/ui/LanguageSwitcher.tsx:13-18 | The target is '/'+newLocale followed by the path with the old locale removed. |
| LanguageSwitcher.SwitchReplacesLeadingSegment | components/ui/LanguageSwitcher.tsx:15-17 | For a path that starts with the current locale segment, only that segment is replaced. |
| LanguageSwitcher.LanguageName | components/ui/LanguageSwitcher.tsx:20-26 | en is English, ru is Русский, and any other code is shown as itself. |
| LanguageSwitcher.ClickTarget | components/ui/LanguageSwitcher.tsx:33-36 | A click navigates to the switch target for the next locale, and that path starts with '/'+next locale. |
| LanguageSwitcher.Tooltip | components/ui/LanguageSwitcher.tsx:38 | The tooltip is "Switch to " followed by the name of the locale a click switches to. |
| DocumentUpload.ValidateFile | components/documents/DocumentUpload.tsx:35-43 | The result is an unsupported-type error iff the type is not allowed, a too-large error iff the type is allowed and the size exceeds 50 MiB, and none otherwise. |
| DocumentUpload.CeilingIsInclusive | components/documents/DocumentUpload.tsx:13-41 | Exactly 52428800 bytes passes, and one byte more or 51 MiB fails as too large. |
| DocumentUpload.TypeIsCheckedFirst | components/documents/DocumentUpload.tsx:35-41 | An oversized file of a wrong type reports the type. |
| DocumentUpload.FailureText | components/documents/DocumentUpload.tsx:88 | The error shown is the truthy `err.detail`, else the translated upload-failed key. |
| DocumentUpload.ServerRejectionShowsDetail | components/documents/DocumentUpload.tsx:82-88 | An upload rejected by the server shows the classified detail, never the generic key. |
| DocumentUpload.Uploader.constructor | components/documents/DocumentUpload.tsx:28-32 | The component starts with no file, no error, no task and nothing uploading. |
| DocumentUpload.Uploader.ShowsDropZone | components/documents/DocumentUpload.tsx:109 | The drop zone is shown exactly when the task progress panel is not, that is, while the task id is missing or empty. |
| DocumentUpload.Uploader.ShowsUploadButton | components/documents/DocumentUpload.tsx:173 | The upload button is shown exactly when a file is chosen and the drop zone is shown, and never together with the task progress panel. |
| DocumentUpload.Uploader.HandleFileSelect | components/documents/DocumentUpload.tsx:45-53 | A rejected file sets only the validation error. An accepted file replaces the file and clears the error. |
| DocumentUpload.Uploader.RemoveFile | components/documents/DocumentUpload.tsx:153-154 | The remove button clears only the file. |
| DocumentUpload.Uploader.HandleUpload | components/documents/DocumentUpload.tsx:74-91 | Without a file nothing happens. Otherwise the client uploads, then requests embeddings for the returned file id. Both succeeding set the task id and keep `uploading`. The task progress panel is shown exactly when that id is non-empty. A failure at either step shows `err.detail` or the key, and clears `uploading`. |
| DocumentUpload.Uploader.HandleTaskComplete | components/documents/DocumentUpload.tsx:93-98 | The component resets file, task and uploading, and notifies the parent once. The drop zone is shown again, without the upload button. |
| DocumentUpload.Uploader.HandleTaskError | components/documents/DocumentUpload.tsx:100-104 | The component shows the error and clears the task and uploading, but keeps the file. |
| DocumentUpload.Uploader.FollowTask | components/documents/DocumentUpload.tsx:186-188 | The component follows the task with a progress panel. Resolution runs the complete handler, rejection runs the error handler with the panel's text, and an unfinished poll changes nothing. |
| TaskProgress.Progress | components/documents/TaskProgress.tsx:51-54 | Progress is 0 while the total is not positive, and otherwise processed/total·100. |
| TaskProgress.ProgressWithinBounds | components/documents/TaskProgress.tsx:51-54 | With 0 ≤ processed ≤ total, progress lies in [0, 100]. |
| TaskProgress.RatioAtMostOne | components/documents/TaskProgress.tsx:53 | A ratio of a part to a positive whole lies in [0, 1]. |
| TaskProgress.ShowsProgressBar | components/documents/TaskProgress.tsx:84 | The bar is shown only for a processing status, which is neither completed nor failed and so never ends the polling. |
| TaskProgress.ResolvedTaskHidesProgressBar | components/documents/TaskProgress.tsx:84 | When polling resolves, the last status handed to the panel is the completed one, so the panel ends without a progress bar. |
| TaskProgress.ErrorText | components/documents/TaskProgress.tsx:33 | The error text is an `Error`'s non-empty message. An `ApiError`, which has no message, or an empty message gives "Failed to process document". |
| TaskProgress.NoticesFor | components/documents/TaskProgress.tsx:24-34 | Resolution calls `onComplete` once, rejection calls `onError` once with the error text, and a poll still running calls neither. |
| TaskProgress.TaskProgressView.constructor | components/documents/TaskProgress.tsx:19 | The panel starts with no status. |
| TaskProgress.TaskProgressView.RunEffect | components/documents/TaskProgress.tsx:21-38 | The effect polls `/tasks/<id>` with the poller's delays, each of them 2000 units. It keeps the last reported status and appends exactly the notices of the outcome. |
| TaskProgress.TransportFailureShowsFallback | components/documents/TaskProgress.tsx:32-33 | A failed status request surfaces as "Failed to process document". |
| TaskProgress.FailedTaskShowsItsMessage | components/documents/TaskProgress.tsx:32-33 | A failed task surfaces with the server's non-empty message. |
| DocumentList.TotalPages | components/documents/DocumentList.tsx:28 | The page count p satisfies 12·(p−1) < total ≤ 12·p, which is the ceiling of total/12. |
| DocumentList.TotalPagesExamples | components/documents/DocumentList.tsx:26-28 | 0, 1, 12 and 13 documents give 0, 1, 1 and 2 pages. |
| DocumentList.PrevPage | components/documents/DocumentList.tsx:129 | The previous page is p−1 above page 1, and never below 1. |
| DocumentList.NextPage | components/documents/DocumentList.tsx:146 | The next page is p+1 while it exists, and otherwise the last page. |
| DocumentList.SteppingStaysInRange | components/documents/DocumentList.tsx:126-151 | Stepping from a page in 1..pages stays in 1..pages. |
| DocumentList.DisabledButtonsAreNoOps | components/documents/DocumentList.tsx:129-147 | The updaters of the disabled buttons would not move the page. |
| DocumentList.NextFromBeyondTheEnd | components/documents/DocumentList.tsx:146 | From a page beyond the last, "next" moves back to the last page. |
| DocumentList.DisplayError | components/documents/DocumentList.tsx:66-70 | The sentinel is shown translated, and any other error verbatim. |
| DocumentList.View | components/documents/DocumentList.tsx:58-153 | Loading shows the spinner. A truthy error shows the error panel. Otherwise no documents show the empty state, and documents show the grid. The grid has a pager exactly when there is more than one page, showing the page, the page count and the total. Prev is enabled iff the page is not 1, and next iff the page is not the last. |
| DocumentList.EmptyPageHidesPagination | components/documents/DocumentList.tsx:104-114 | An empty page shows the empty state with no pager, whatever the total. |
| DocumentList.DocumentListState.constructor | components/documents/DocumentList.tsx:21-25 | The list starts loading, on page 1, with no documents, a total of 0 and no error. |
| DocumentList.DocumentListState.Shown | components/documents/DocumentList.tsx:58-153 | The rendered panel: the spinner while loading, the translated key for the service-unavailable sentinel, any other truthy error verbatim, the empty state exactly when no documents are loaded, and a grid of the loaded documents. |
| DocumentList.DocumentListState.FetchDocuments | components/documents/DocumentList.tsx:30-43 | The page is requested with size 12. Success replaces documents and total. Failure keeps them and sets `detail` or "Failed to load documents". Loading ends either way. |
| DocumentList.DocumentListState.HandleDelete | components/documents/DocumentList.tsx:49-56 | A successful delete refetches the current page. A failed one only sets `detail` or "Failed to delete document". |
| DocumentList.DocumentListState.GoPrev | components/documents/DocumentList.tsx:128-134 | The previous-page button applies `PrevPage` and changes nothing else. |
| DocumentList.DocumentListState.GoNext | components/documents/DocumentList.tsx:145-151 | The next-page button applies `NextPage` and changes nothing else. |
| ChatHistory.DisplayTitle | components/chat/ChatHistory.tsx:62-67 | "", "New Chat" and "Новый чат" show the translated new-chat label (iff), and any other title is shown verbatim. |
| ChatHistory.SessionList | components/chat/ChatHistory.tsx:43-74 | No sessions show the history placeholder (iff). Otherwise there is one entry per session, in order, with its id, displayed title, highlight and message count. |
| ChatHistory.AtMostOneHighlighted | components/chat/ChatHistory.tsx:53-55 | With distinct ids at most one entry is highlighted, and none without a current session. |
| ChatHistory.CurrentIsHighlighted | components/chat/ChatHistory.tsx:53-55 | The listed current session is highlighted. |
| ChatInput.TrimStart | components/chat/ChatInput.tsx:31 | The leading JavaScript white space is removed: the result is a suffix, what was dropped is white space, and the result does not start with white space. |
| ChatInput.TrimEnd | components/chat/ChatInput.tsx:31 | The trailing JavaScript white space is removed: the result is a prefix, what was dropped is white space, and the result does not end with white space. |
| ChatInput.TrimEmptyIffBlank | components/chat/ChatInput.tsx:31 | A trimmed message is empty iff every character is white space. |
| ChatInput.TrimIsInnerPiece | components/chat/ChatInput.tsx:32 | The text sent is a contiguous piece of the message with no white space at either end. |
| ChatInput.TrimIdempotent | components/chat/ChatInput.tsx:31-32 | Trimming twice equals trimming once. |
| ChatInput.TrimSurrounded | components/chat/ChatInput.tsx:31-32 | A leading space and a trailing newline are dropped, and the text between is kept. |
| ChatInput.ButtonMatchesSubmitGuard | components/chat/ChatInput.tsx:29-67 | The send button is enabled iff `handleSubmit` would send, i.e. iff input is enabled and some character is not white space. |
| ChatInput.Counter | components/chat/ChatInput.tsx:60-62 | The counter appears iff the message is non-empty, and shows its length in decimal. |
| ChatInput.ChatInputBox.constructor | components/chat/ChatInput.tsx:12-17 | The box starts empty, with nothing sent. |
| ChatInput.ChatInputBox.Change | components/chat/ChatInput.tsx:53 | Typing replaces the message and nothing else. |
| ChatInput.ChatInputBox.HandleSubmit | components/chat/ChatInput.tsx:29-35 | A send happens iff the trimmed message is non-empty and input is enabled. It hands over the trimmed text and clears the box. Otherwise nothing changes. |
| ChatInput.ChatInputBox.HandleKeyDown | components/chat/ChatInput.tsx:37-42 | Enter without Shift submits as above. Any other key, Shift+Enter included, changes nothing. |
| Strings.FirstOccurrence | lib/api.ts:35 | Substring search finds the first index where the pattern occurs, or reports that there is none. |
| Strings.ContainsIffOccurs | lib/api.ts:40 | `includes` holds iff the pattern occurs at some index. |
| Strings.MissingFirstCharNotContained | lib/api.ts:40 | A pattern whose first character is absent from the text is not contained. |
| Strings.RemoveFirst | components/ui/LanguageSwitcher.tsx:15 | Without an occurrence the text is unchanged. Otherwise the result is shorter by the pattern's length. |
| Strings.RemoveFirstReinsert | components/ui/LanguageSwitcher.tsx:15 | Putting the pattern back at its first occurrence restores the text. |
| Strings.RemoveFirstOfPrefix | components/ui/LanguageSwitcher.tsx:15 | A pattern that is a prefix is removed from the front. |
| Strings.Decimal | lib/api.ts:132 | A number renders as non-empty digits with no leading zero. |
| Strings.DecimalRoundTrip | lib/api.ts:132 | Parsing the rendering of n gives back n. |
| Strings.DecimalInjective | lib/api.ts:132 | Different numbers render differently. |

## Left out

- Rendering: JSX, class names, styles, icons, drag-over highlighting, textarea auto-resize and the presentation-only components are not modelled. They are markup and DOM work with no client logic.
- Real I/O is not modelled. This covers `fetch`, `FormData`, `Response.json()` and `text()`, `localStorage`, the dynamic import of message catalogues, `router.push`, and the `console.error` logging of `storage` failures. Exchanges, codecs and the store are parameters or values instead.
- Timing is not modelled. `setTimeout` is recorded only as the list of delays requested, and a script that runs out leaves the poller in `StillPolling`. The source has no cancellation and no request ceiling, so none is modelled.
- Interleavings at `await` points are not modelled, and each handler runs to completion. React's batching of state updates and the re-run of effects when `taskId`, `page` or `refreshTrigger` change are not modelled either. `GoPrev` and `GoNext` only update the page, and a later `FetchDocuments` stands for the re-fetch.
- `formatFileSize`, `formatDate`, `generateId` and `cn` are not modelled. They involve floating point, locale-dependent date formatting, randomness and the clock, or a class-name library. Dates are opaque integers.
- Translations are opaque message keys. Interpolated parameters such as the size in `errors.tooLarge` are not modelled.
- Utils.Truncate: lengths and cut positions count characters, while the source's `length` and `substring` count UTF-16 code units, so a string with characters outside the Basic Multilingual Plane (such as emoji) is cut at a different place.
- Utils.ReadItem: the value is a `T` from a codec, and JSON values of a different type than `T` are not modelled.
- ApiClient.ClassifyFailure: a JSON `detail` or `message` that is not a string is not modelled. In the source a truthy non-string value (such as a list of validation errors) becomes the detail as it is, and a falsy one falls through to `message`.
- ApiClient.RequestHeaders: header names are merged as exact strings, and the case-insensitive merging of `Headers` is not modelled.
- ApiClient.Request: the request body (`JSON.stringify` of a query) and the HTTP method are not inputs of the model. `MethodOf` records each operation's method without a contract.
- LanguageSwitcher.LanguageName: keys inherited from `Object.prototype` (such as "constructor") are not modelled, and they would yield a non-string in the source.
- ChatInput.Counter: `message.length` counts UTF-16 code units in the source, while the model counts characters (code points).
- DocumentList.DocumentListState.FetchDocuments: the intermediate `loading = true` render is not observable in the model, and only the final state is stated.
- The chat session store and the send-message flow that feed `ChatHistory` and `ChatInput` are not modelled. They are not in the modelled files.
