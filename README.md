# S3Ducky client state, modelled in Dafny

S3Ducky's frontend lets a user enter cloud-storage credentials, browse the
objects of a bucket, select some of them and download them, one file at a
time or as one archive. Everything behind it is a mock client that returns a
fixed list of four objects. The logic worth stating is the client-side state:

- the shared store (`lib/store.ts`): credentials, the listed files, the set
  of selected keys, the connected/loading/error flags and the session
  expiry, with the actions that replace some of those fields
  (`store.dfy`, class `Store.AppStore`);
- the session-timeout component (`components/session-timeout.tsx`): a
  once-a-second tick computing the time left, raising a warning in the last
  minutes and clearing the session at expiry, and the `M:SS` countdown it
  shows (`session_timeout.dfy`);
- the file browser (`app/browser/page.tsx`): the case-insensitive search
  filter, the select-all checkbox's states, select-all, loading the listing
  and downloading the selection (`browser_page.dfy`);
- the mock client (`lib/s3-client.ts`): the prefix filter of the listing and
  a validation that accepts everything (`s3_client.dfy`);
- the connect form (`app/page.tsx`): when it may be submitted, the
  credentials it builds and the store updates of a submit
  (`connect_page.dfy`).

`text.dfy` models the JavaScript string built-ins used (`toLowerCase` on
ASCII, `startsWith`, `includes`, `split("/").pop()`, `toString`,
`padStart`), `sequences.dfy` models `Array.prototype.filter`, and
`wrappers.dfy` holds `Option` and the outcome of an awaited call.

Time is an explicit parameter `now` in milliseconds. Each awaited call
(listing, download, validation) is a parameter of type `Awaited<T>`: the
value it resolved to, or what it threw (an `Error` with its message, or any
other value, which the `catch` blocks replace by a fixed message). The
component state of each page (`searchTerm`, `isDownloading`, the form, the
timer's `timeLeft`/`showWarning` and its running interval) lives in a class
beside a reference to the one store.

Some behaviours of the code that one might expect otherwise, which the
model follows as written:

- `setFiles` does not drop selected keys that are no longer listed, and
  neither does a listing refresh; the selection survives both
  (`Store.AppStore.SetFiles`, `Browser.BrowserPage.LoadFiles`).
- The warning is up while `floor(remaining / 60000) <= 5`, i.e. while less
  than six minutes are left: from 24 minutes after the session starts, not
  25 (`SessionTimeout.WarningWindow`, `SessionTimeout.SessionLifecycle`).
- `clearSession` leaves `isLoading` as it is.
- A submit connects whenever validation resolves, whatever boolean it
  resolves to; only a thrown error fails it.
- The select-all loop tests the selection as it was when the loop began, so
  a key listed twice is toggled twice and ends unselected
  (`Browser.DuplicateKeyToggledTwice`). The mock listing never has two equal
  keys (`S3Client.ListingKeysDistinct`), and under distinct keys select-all
  selects every shown file (`Browser.SelectAllSelectsShown`).
- "Logout Now" calls `clearSession` directly. The effect then re-runs and
  cancels the interval, but nothing resets `showWarning` or `timeLeft`, so
  wherever the component stays mounted (the connect form) the warning stays
  on screen with the countdown frozen at its last value
  (`SessionTimeout.FrozenCountdownAfterLogout`).

## Model

| member | source | states |
|---|---|---|
| Store.AppStore.constructor | lib/store.ts:40-47 | a new store has no credentials, no files, no selection, is not connected, not loading, has no error and no expiry |
| Store.AppStore.SetCredentials | lib/store.ts:49 | only the credentials change |
| Store.AppStore.SetFiles | lib/store.ts:51 | only the file list changes; the selection is kept, keys no longer listed included |
| Store.Toggled | lib/store.ts:53-62 | toggling flips the membership of the key and keeps every other key's membership |
| Store.AppStore.ToggleFileSelection | lib/store.ts:53-62 | the selection becomes the toggled selection and nothing else changes |
| Store.ToggleTwice | lib/store.ts:53-62 | toggling the same key twice restores the selection |
| Store.ToggleEachParity | lib/store.ts:53-62 | after any sequence of toggles a key is selected iff it was selected before XOR it was toggled an odd number of times |
| Store.Keys | lib/store.ts:66 | the key set of a list holds the key of every listed file and nothing else |
| Store.AppStore.SelectAllFiles | lib/store.ts:64-67 | the selection becomes exactly the keys of the current files; nothing else changes |
| Store.AppStore.DeselectAllFiles | lib/store.ts:69 | the selection becomes empty; nothing else changes |
| Store.SelectAllThenDeselectAll | lib/store.ts:64-69 | select-all then deselect-all leaves an empty selection whatever the file list, and changes nothing else |
| Store.AppStore.SetLoading | lib/store.ts:71 | only the loading flag changes |
| Store.AppStore.SetError | lib/store.ts:73 | only the error changes |
| Store.AppStore.SetConnected | lib/store.ts:75 | only the connected flag changes |
| Store.Cleared | lib/store.ts:77-85 | a cleared state is the initial state except that the loading flag is kept |
| Store.AppStore.ClearSession | lib/store.ts:77-85 | the store becomes the cleared state of what it was |
| Store.ClearedIdempotent | lib/store.ts:77-85 | clearing twice is clearing once |
| Store.AppStore.InitSession | lib/store.ts:87-90 | the expiry becomes now plus 30 minutes; nothing else changes |
| S3Client.ValidateCredentials | lib/s3-client.ts:11-25 | validation accepts every credential value; the key-length check is never applied |
| S3Client.ListObjects | lib/s3-client.ts:27-69 | no or an empty prefix gives all four mock files in order; otherwise exactly the mock files whose key starts with the prefix (case-sensitive); always an order-preserving subsequence of the mock list, at most 4 files |
| S3Client.ListingKeysDistinct | lib/s3-client.ts:33-58 | the mock keys, and so every listing's keys, are pairwise distinct |
| S3Client.DocumentsPrefix | lib/s3-client.ts:33-63 | prefix "documents/" lists only the report |
| Sequences.Filter | app/browser/page.tsx:68 | `filter` keeps every occurrence of each element satisfying the test and no other element, in their order |
| Text.ToLower | app/browser/page.tsx:68 | `toLowerCase` keeps the length and lowers each character on its own |
| Text.StartsWith | lib/s3-client.ts:62 | `startsWith` holds exactly when the prefix fits and agrees with the string position by position |
| Text.PadStart | components/session-timeout.tsx:44 | `padStart` leaves a string at least as long as the width alone, otherwise fills on the left up to the width and keeps the string as the suffix |
| Wrappers.MessageOf | app/browser/page.tsx:61 | `err instanceof Error ? err.message : fallback`: an Error gives its message, any other thrown value the fallback (also app/browser/page.tsx:117, app/page.tsx:56) |
| Text.ContainsIff | app/browser/page.tsx:68 | `includes` holds exactly when the term occurs at some position of the string |
| Text.LastSegment | app/browser/page.tsx:101 | `split("/").pop()` is the longest suffix without a `/` |
| Text.NatToString | components/session-timeout.tsx:44 | `toString` gives decimal digits that denote the number, with no leading zero, one digit exactly below 10 |
| Text.TwoDigits | components/session-timeout.tsx:44 | a number below 100 padded to two places is its tens digit then its units digit |
| SessionTimeout.Remaining | components/session-timeout.tsx:19 | the time left is never negative; it is zero exactly when the expiry is not after now, and otherwise expiry minus now |
| SessionTimeout.WarningWindow | components/session-timeout.tsx:20-23 | the warning condition holds exactly when 0 < remaining < 360000 ms |
| SessionTimeout.TickAt | components/session-timeout.tsx:18-28 | a tick expires the session exactly when now is at or past the expiry, with time left 0; otherwise the time left is expiry minus now; the warning is up exactly when less than six minutes remain |
| SessionTimeout.SessionLifecycle | components/session-timeout.tsx:17-28 | a session started at T is active at every tick before T+30min, expired at every tick from then on, and warns exactly between T+24min and T+30min |
| SessionTimeout.CountdownOf | components/session-timeout.tsx:34-44 | nothing is shown when the warning is off or no time is left; otherwise seconds are in 0..59, minutes·60000 + seconds·1000 ≤ timeLeft < that + 1000, and the text is minutes, a colon and two zero-padded second digits |
| SessionTimeout.SessionTimer.constructor | components/session-timeout.tsx:11-12 | the component starts with no time left, no warning and no interval |
| SessionTimeout.SessionTimer.SyncWithExpiry | components/session-timeout.tsx:14-32 | an interval runs exactly when the store has an expiry, and it holds that expiry |
| SessionTimeout.SessionTimer.Tick | components/session-timeout.tsx:17-29 | with no interval nothing happens; otherwise the time left and warning become those of the tick, and at expiry the store is cleared and the interval stops, else the store is untouched; the warning never shows without time left |
| SessionTimeout.SessionTimer.Display | components/session-timeout.tsx:34-44 | a countdown is shown exactly when the warning is up, and then shows at most 5 minutes and under 60 seconds |
| SessionTimeout.FrozenCountdownAfterLogout | components/session-timeout.tsx:14-46 | after a tick at T+27min, "Logout Now" clears the expiry and stops the interval, yet the warning stays shown with its countdown unchanged, even at a later clock reading |
| SessionTimeout.ExpiryAfterThirtyMinutes | components/session-timeout.tsx:17-28 | a session begun at T is still set after a tick at T+29min, and cleared, with the interval stopped, after a tick at T+30min |
| Browser.FilteredFiles | app/browser/page.tsx:68 | the shown files are the files whose lowercased key includes the lowercased term, each as often as it is listed, in their order |
| Browser.EmptyTermKeepsAll | app/browser/page.tsx:68 | an empty search shows every file |
| Browser.FilteredKeepsDistinct | app/browser/page.tsx:68 | filtering a list with distinct keys keeps them distinct |
| Browser.AllSelected | app/browser/page.tsx:71 | `allSelected` holds exactly when the set of shown keys is non-empty and contained in the selection |
| Browser.SomeSelected | app/browser/page.tsx:72 | `allSelected` and `someSelected` never hold together, and neither holds exactly when the selection is empty |
| Browser.SelectMissingKeeps | app/browser/page.tsx:79-83 | the select-all loop (`SelectMissing`) keeps every key selected when it began and adds only shown keys |
| Browser.BrowserPage.ToggleMissing | app/browser/page.tsx:79-83 | the loop toggles each shown key not selected when it began; the selection becomes SelectMissing of the old selection and nothing else changes |
| Browser.SelectMissingDistinct | app/browser/page.tsx:79-83 | with distinct keys, the loop adds exactly the shown keys not yet selected |
| Browser.SelectAllSelectsShown | app/browser/page.tsx:79-83 | with distinct keys, select-all leaves the old selection plus all shown keys, so every shown file is then selected |
| Browser.DuplicateKeyToggledTwice | app/browser/page.tsx:79-83 | a key shown twice is toggled twice by the loop and ends unselected |
| Browser.BrowserPage.HandleSelectAll | app/browser/page.tsx:74-85 | when all shown files are selected the whole selection empties, keys outside the filter included; otherwise the selection becomes the loop's result; nothing else changes |
| Browser.DownloadName | app/browser/page.tsx:101 | a single download is named by the text after the key's last `/`, or "download" when that text is empty; the name is never empty and has no `/` |
| Browser.SelectionToSeq | app/browser/page.tsx:93 | the array of selected keys holds each selected key exactly once |
| Browser.BrowserPage.HandleDownloadSelected | app/browser/page.tsx:87-121 | nothing happens with an empty selection or no credentials; one key takes the single-file path with its file name, more than one the archive path with all keys; success empties the selection, failure keeps it and sets the error; the downloading flag is on while the download is pending and off afterwards |
| Browser.BrowserPage.constructor | app/browser/page.tsx:36-37 | the page starts with an empty search term and not downloading |
| Browser.BrowserPage.SetSearchTerm | app/browser/page.tsx:171 | typing replaces the search term and nothing else |
| Browser.BrowserPage.LoadFiles | app/browser/page.tsx:48-66 | without credentials nothing changes and there is no pending state; otherwise, while the listing is awaited, the error is cleared and loading is on; then success stores the listing and failure sets the error and empties the files; loading is off at the end; the selection is kept |
| Browser.BrowserPage.OnMount | app/browser/page.tsx:39-46 | without a connection or credentials the page redirects and changes nothing; otherwise it stores the mock listing for the stored credentials |
| Connect.IsFormValid | app/page.tsx:62 | the form is valid exactly when none of access key, secret key, region and bucket name is empty |
| Connect.FormValidity | app/page.tsx:62 | the prefix never affects validity, and the initial form (region "us-east-1", other fields empty) is not valid |
| Connect.BuildCredentials | app/page.tsx:40-46 | the credentials copy the four fields; the prefix is absent exactly when the form's prefix is empty |
| Connect.BuildCredentialsRoundTrip | app/page.tsx:40-46 | the form can be recovered from the credentials it built |
| Connect.ConnectPage.constructor | app/page.tsx:26-32 | the form starts as the initial form |
| Connect.ConnectPage.SetForm | app/page.tsx:97-167 | an edit replaces the form with the edited one |
| Connect.ConnectPage.HandleSubmit | app/page.tsx:34-60 | while validation is awaited the error is cleared and loading is on; then a resolved validation stores the credentials, connects and sets the expiry to now + 30 min; a thrown one sets the error and leaves credentials and connection alone; loading is off at the end |
| Connect.ConnectPage.SubmitToMock | app/page.tsx:48-53 | against the mock client a submit always connects |

## Left out

- Rendering, styling, the theme toggle, the landing page and the download cards: presentation only.
- `lib/utils.ts` (`formatFileSize`, `formatDate`, `cn`, the region list): floating point, `Intl` formatting and styling libraries.
- `setInterval`/`setTimeout` scheduling, the simulated delays and `Date.now()`: time is the parameter `now` and a tick is a method call.
- Actions interleaved with an awaited call: each handler is modelled as one step from its start to its `finally`. LoadFiles and HandleSubmit state the pending state (error cleared, loading on) as a ghost result, and HandleDownloadSelected the downloading flag while its download is pending.
- `downloadFile` and `downloadMultipleFiles` return fixed placeholder blobs; blob creation, object URLs, the anchor click and the date-stamped archive name (wall-clock formatting) are not modelled. The download is the returned `DownloadRequest` and its outcome is a parameter.
- Browser.SelectionToSeq: `Array.from` follows the insertion order of the JavaScript `Set`; the model's selection is an unordered set, so the order of the keys is not stated.
- The `catch` of `validateCredentials` and `listObjects` turns any failure into a fixed message, but nothing in their mock bodies can fail; the pages' outcomes are parameters instead.
- `toLowerCase` is modelled for ASCII letters only, not full Unicode case folding.
- zustand subscriptions, React re-rendering and `router.push` redirects (OnMount only reports the redirect).
- The `router.push` to the connect form after the browser page's logout button calls `clearSession`; the call itself is Store.AppStore.ClearSession.
