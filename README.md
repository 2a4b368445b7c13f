# Download-job protocol: client controller and server job table

This project models the two state machines on either side of a video
downloader's job protocol and proves properties of them in Dafny.

- **Client job controller** (`static/js/main.js`): the page's four handlers.
  They are the format-fetch click handler, the form submit handler, one tick
  of the progress-polling interval, and `resetForm`. The page is a record
  (`JobClient.Page`) of the URL field, the format select box and its panel,
  the two buttons, the progress bar, the status line and the history list.
  `JobClient.JobController` holds that record. It also holds the closure
  variable `currentDownloadId`, the download id each scheduled interval
  polls, and logs of the requests sent and the alerts shown. Each handler
  takes the backend's reply as an input: a body without a truthy `error`
  field, a body with one, or a thrown exception. The pure functions
  `AfterFetchFormats`, `AfterSubmit`, `AfterTick` and `AfterReset` say what
  each handler leaves behind. Each controller method is proved to make
  exactly that change, and the lemmas state the handlers' promises about
  those functions.
- **Server job table** (`downloader.py`): `Downloader.VideoDownloader` holds
  `downloads`, a map from download id to `{progress, status, error}`.
  `start_download` inserts an entry. The progress hook's `downloading` and
  `finished` branches update it in place, and so does the failure branch of
  `_download`. `get_progress` looks an entry up. The filter-and-convert loop
  of `get_formats` is `GetFormats`, proved against the specification
  function `KeptFormats`.
- **Both sides together** (`Protocol`): how the client reads the server's
  progress reply. The client treats any non-empty `error` text as fatal
  before it looks at `status`. The server always stores the error text
  together with status `error`. So the tick's `status === 'error'` branch
  runs only when the stored text is empty, and its alert then has no detail
  (`StatusErrorBranchNeedsEmptyMessage`).

`JsText` states exactly the JavaScript and DOM behaviour the handlers rely on:
- `String.prototype.trim` with ECMAScript's white-space set;
- `Math.round` as floor(x + 1/2);
- the text `null` gives when `+` appends it to a string;
- the HTML standard's "strip and collapse ASCII whitespace", which an
  `<option>`'s `text` getter applies to the option's text content.

Where the protocol's documented intent and the code differ, the model follows
the code:
- A submission shows the progress panel but does not reset the bar to 0%.
- A failed format fetch leaves the download button as it was. A button
  enabled by an earlier successful fetch stays enabled.
- Job statuses are the server's `starting`, `downloading`, `finished` and
  `error`.
- An accepted submission leaves the download button disabled. Only a
  successful format fetch or `resetForm` enables it again. So while a job is
  polled, the only route to a second job is to fetch the formats again,
  choose one and submit. That route starts a second interval, and finishing
  either job then clears the active id (`NextJobStarts`,
  `OverlappingJobsClearActiveId`).

## Model

| member | source | states |
|---|---|---|
| JsText.Trim | static/js/main.js:16 | `s.trim()`: the result is never longer than the input; the lemmas below give its full characterisation |
| JsText.TrimEmptyIff | static/js/main.js:16-17 | the trimmed URL is empty exactly when the field is empty or all white space, which is when `!url` rejects it |
| JsText.TrimIsInner | static/js/main.js:16 | `trim` keeps one contiguous run of the input; what it drops is white space, and the run neither starts nor ends with white space |
| JsText.TrimStartIsSuffix | static/js/main.js:16 | leading white space is removed up to the first other character, and nothing else |
| JsText.TrimEndIsPrefix | static/js/main.js:16 | trailing white space is removed back to the last other character, and nothing else |
| JsText.MathRound | static/js/main.js:121 | `Math.round` gives the integer within one half of the value, halves rounded up |
| JsText.MathRoundOfInt | static/js/main.js:121 | a whole percentage is shown unchanged |
| JsText.JsString | static/js/main.js:136 | the text `+` appends for the reply's `error`: the string itself, or `null` |
| JsText.StripAndCollapse | static/js/main.js:98 | the `text` getter of the selected option: whitespace runs dropped at the ends and collapsed to one space inside |
| JsText.StripAndCollapseShape | static/js/main.js:98 | the label read back has no whitespace at either end, only single spaces between words, and every other character of the content in order |
| JsText.StripAndCollapseJoin | static/js/main.js:98 | a whitespace run of any length between two parts that each hold a word becomes exactly one space, so a word break in a description is kept as one space |
| JsText.StripAndCollapseFixed | static/js/main.js:98 | a content already in that shape is read back unchanged, so reading a label a second time changes nothing |
| Downloader.ToFormat | downloader.py:26-31 | the dictionary built for a kept format copies `ext` (one of the allowed ones) and `format_id` (None when absent), copies `quality`, and takes `description` from `format_note`, each of the last two 'unknown' when absent |
| Downloader.KeptFormats | downloader.py:23-32 | the filter-and-convert of the format list, as a function: never longer than its input; the lemmas below characterise it |
| Downloader.KeptFormatsSingle | downloader.py:25-31 | one format is kept, as its converted dictionary, exactly when its `ext` is mp4, webm, m4a or mp3 |
| Downloader.KeptFormatsAppend | downloader.py:23-32 | the filter distributes over concatenation, so kept formats stay in input order |
| Downloader.KeptFormatsMembers | downloader.py:24-31 | the output holds a format exactly when some input format with an allowed extension converts to it |
| Downloader.GetFormats | downloader.py:20-35 | the loop's result is `KeptFormats` of the extractor's list (empty when absent); any extraction failure becomes 'Failed to get video formats' |
| Downloader.HookTotal | downloader.py:55-56 | the total is `total_bytes` when truthy, else the estimate, and is non-zero exactly when one of them is truthy |
| Downloader.HookEffect | downloader.py:53-63 | a hook event never touches `error` and only ever sets status `downloading` or `finished`; a result with status `error` is the record unchanged (a `finished` event does overwrite an `error` status) |
| Downloader.HookDownloading | downloader.py:54-60 | a `downloading` event with a non-zero total sets progress to downloaded*100/total and status to `downloading` |
| Downloader.HookFinished | downloader.py:61-63 | a `finished` event sets status `finished` and progress 100, whatever came before |
| Downloader.HookIgnored | downloader.py:54-63 | a `downloading` event without a total, and any other event, changes nothing |
| Downloader.Lookup | downloader.py:79-82 | the reply is not-found exactly for an id the table lacks, with the text 'Download not found'; otherwise it is the stored entry |
| Downloader.VideoDownloader.constructor | downloader.py:10-11 | the table starts empty |
| Downloader.VideoDownloader.StartDownload | downloader.py:37-43 | a fresh id gains exactly one entry `{0, 'starting', None}`; every other entry is unchanged and the id is returned |
| Downloader.VideoDownloader.OnDownloading | downloader.py:56-60 | only the job's own entry changes: progress and status `downloading`; no key is added or removed |
| Downloader.VideoDownloader.OnFinished | downloader.py:61-63 | only the job's own entry changes: status `finished`, progress 100 |
| Downloader.VideoDownloader.ProgressHook | downloader.py:53-63 | the hook applies `HookEffect` to its own entry only, keeps the key set and keeps every `error` status paired with its error text |
| Downloader.VideoDownloader.FailDownload | downloader.py:74-77 | the failure sets status `error` and stores the message, keeps progress, and touches no other entry |
| Downloader.VideoDownloader.GetProgress | downloader.py:79-82 | the method returns `Lookup`'s reply and only reads the table |
| JobClient.OptionsFor | static/js/main.js:40-46 | the option list a successful fetch installs; characterised by the next two rows |
| JobClient.OptionsForAt | static/js/main.js:40-46 | the option list is the placeholder with value "", then one option per format in reply order, value `format_id`, text `description (ext)` |
| JobClient.OptionsForAppend | static/js/main.js:41-46 | each step of the `forEach` appends exactly that format's option |
| JobClient.SelectedValue | static/js/main.js:63 | `formatSelect.value`: the selected option's value, or "" with nothing selected |
| JobClient.SelectedLabel | static/js/main.js:98 | the history row's format label: the selected option's text content after `StripAndCollapse` |
| JobClient.WithBadge | static/js/main.js:126-129 | the history after the badge update: same length; characterised by the next three rows |
| JobClient.WithBadgeAt | static/js/main.js:126-129 | only the first history row with the job's badge id (the one `getElementById` finds) gets the new percentage; all other rows are unchanged |
| JobClient.WithBadgeAbsent | static/js/main.js:126-129 | with no badge for the id, the badge update is skipped |
| JobClient.WithBadgeKeepsIds | static/js/main.js:126-129 | the badge update keeps every row's id |
| JobClient.AfterReset | static/js/main.js:149-156 | the state `resetForm` leaves |
| JobClient.AfterFetchFormats | static/js/main.js:15-57 | the state the fetch-formats handler leaves, given how its request settles |
| JobClient.AfterSubmit | static/js/main.js:59-109 | the state the submit handler leaves, given how its request settles |
| JobClient.TickStops | static/js/main.js:117-145 | the tick clears its interval exactly on an error field, an exception, or status `finished` or `error` |
| JobClient.TickAlert | static/js/main.js:135-143 | the alert a stopping tick shows: 'Error monitoring progress: msg', 'Download error: ' and the error value, or none |
| JobClient.AfterTick | static/js/main.js:112-146 | the state one tick of interval `k` leaves, given how its request settles |
| JobClient.ResetIdempotent | static/js/main.js:149-156 | `resetForm` applied twice gives the same state as once |
| JobClient.ResetSettles | static/js/main.js:149-156 | `resetForm` leaves submission enabled, progress hidden at 0%, status 'Preparing download...', no active id, and nothing else changed |
| JobClient.FetchFormatsBlankUrl | static/js/main.js:16-20 | a blank URL sends no request and changes nothing but one alert |
| JobClient.FetchFormatsSuccess | static/js/main.js:22-56 | a successful reply replaces the options wholesale, selects the placeholder, shows the panel, enables download and clears the busy flag, with one request for the trimmed URL; nothing else in the state changes |
| JobClient.FetchFormatsFailure | static/js/main.js:36-55 | an error field or exception shows 'Error: msg', clears the busy flag and leaves options and the download button untouched |
| JobClient.SubmitMissingFields | static/js/main.js:62-68 | a blank URL or unselected format sends no request and changes nothing but one alert |
| JobClient.SubmitSuccess | static/js/main.js:70-103 | an accepted submission sets the active id, starts one interval for it, and puts exactly one row with badge 0 at the head of the history, older rows following in order; download is left disabled, the bar and status line are not reset, and nothing else changes |
| JobClient.SubmitFailure | static/js/main.js:84-108 | a rejected submission shows 'Error: msg', runs `resetForm`, and adds no history row and no interval |
| JobClient.HistoryMostRecentFirst | static/js/main.js:92-103 | jobs A, B, C started in turn (each by a format fetch, a choice and a submission) are listed C, B, A above the older rows |
| JobClient.TickContinues | static/js/main.js:121-131 | a non-terminal tick shows round(progress) on the bar and the job's badge, shows the raw status, keeps its interval, and changes nothing else |
| JobClient.TickStopsIff | static/js/main.js:117-145 | a tick stops its own interval, and no other, exactly on status `finished` or `error`, a truthy error field or an exception, and then leaves the form reset |
| JobClient.TickTerminalKeepsBadge | static/js/main.js:126-139 | on a terminal status the badge keeps the final percentage; `finished` alerts nothing, and `error` alerts 'Download error: null' or 'Download error: ', because a truthy error text never reaches that branch; the interval is removed, then the state is exactly `resetForm` of that |
| JobClient.TickFatal | static/js/main.js:113-145 | a fatal tick reports 'Error monitoring progress: msg', removes its interval, touches no badge, and leaves exactly `resetForm` of that state |
| JobClient.NextJobStarts | static/js/main.js:40-103 | after an accepted submission a successful fetch re-enables download, and the job then submitted becomes the active one, gets one more interval, and heads the history with the chosen format's normalised label |
| JobClient.OverlappingJobsClearActiveId | static/js/main.js:49-89 | an accepted submission disables download; after a format fetch re-enables it and a second job is accepted, two intervals run, and the first job's finish clears the active id while the second is still polled |
| JobClient.TickUpdatesBadge | static/js/main.js:126-129 | under the page invariant (which the constructor establishes and every controller method keeps) a tick that reads a status always finds its job's badge and writes the rounded percentage into the first such row |
| JobClient.ResetKeepsInv | static/js/main.js:149-156 | `resetForm` keeps the page invariant |
| JobClient.FetchFormatsKeepsInv | static/js/main.js:15-57 | the fetch handler keeps the page invariant (valid selection, busy flag clear) |
| JobClient.SubmitKeepsInv | static/js/main.js:59-109 | the submit handler keeps every interval's badge present and the active id among the intervals |
| JobClient.TickKeepsInv | static/js/main.js:112-146 | a tick keeps every remaining interval's badge present and the active id among the intervals |
| JobClient.JobController.constructor | static/js/main.js:13 | the page starts with no formats, submission disabled, progress hidden and no active id, and the page invariant holds |
| JobClient.JobController.ResetForm | static/js/main.js:149-156 | the method makes exactly the change `AfterReset` describes and keeps the page invariant when it held |
| JobClient.JobController.ReplaceOptions | static/js/main.js:40-46 | the loop leaves exactly `OptionsFor` of the reply in the select box with the placeholder selected, changes nothing else, and keeps the page invariant |
| JobClient.JobController.FetchFormats | static/js/main.js:15-57 | the handler makes exactly the change `AfterFetchFormats` describes and keeps the page invariant |
| JobClient.JobController.Submit | static/js/main.js:59-109 | the handler, delivered only while download is enabled, makes exactly the change `AfterSubmit` describes and keeps the page invariant |
| JobClient.JobController.Tick | static/js/main.js:112-146 | one interval callback makes exactly the change `AfterTick` describes and keeps the page invariant |
| Protocol.ClientView | static/js/main.js:115-119 | the client's reading of the progress body: an error text the client treats as true (the not-found text, or a non-empty stored error) becomes an error field carrying that text; otherwise progress, status and the `null`/"" error are carried over unchanged |
| Protocol.UnknownIdIsFatal | downloader.py:79-81 | the not-found reply is a truthy error, so the tick stops and reports 'Error monitoring progress: Download not found' |
| Protocol.StatusErrorBranchNeedsEmptyMessage | static/js/main.js:117-137 | against a table where every `error` status carries its text, the `status === 'error'` branch runs exactly when that text is empty, and its alert has no detail |
| Protocol.TickStopsOnServerState | static/js/main.js:117-138 | polling ends exactly on an unknown id, a terminal status or a non-empty error text |
| Protocol.FirstTickAfterStart | downloader.py:39-43 | the first poll of a just-started job shows 0% and `starting` and keeps polling |
| Protocol.FinishedJobEndsPolling | downloader.py:61-63 | a finished job that never failed ends polling without an alert, its badge at 100 |

## Left out

- Presentation is left out: the option and history markup, CSS `display` values, button captions and icons, and the URL inserted into history HTML. Each display property is a field, and the progress texts are the integers they show (`${n}%`).
- A progress body whose `error` field is truthy never reaches the reading of progress and status (main.js:117-119). `StatusPayload` therefore admits only `null` or "" as its `error`.
- `alert` is not modelled as a dialog. Each alert is appended to the `alerts` log.
- `fetch` and JSON parsing are inputs. Each handler takes how its request settled as a parameter, and the request it would send is appended to `requests`.
- The await is not modelled: each handler and each interval tick runs as one atomic step. So the window where the fetch button is disabled is not observable, because `fetchBusy` is set and cleared within one step. Ticks that overlap because a request outlasts the 1-second interval are not modelled either.
- The timing of `setInterval` is not modelled. Which scheduled interval fires next is the parameter `k` of `Tick`.
- The page template is not part of this model. The download button is taken to be the form's submit button, so a submit event arrives only while that button is enabled.
- The initial page comes from a template that is not part of this model. The constructor starts with an empty select box, download disabled, progress hidden and status 'Preparing download...'.
- `formatSelect.options[-1].text` would throw with nothing selected. That is unreachable after the empty-format check, and the model reads it as "".
- Floating point is left out: progress is an exact `real`, and `Math.round` is floor(x + 1/2).
- Server concurrency is left out: the worker thread, the `yt_dlp` calls, `uuid4` (a fresh-id parameter), and logging.
- Downloader.VideoDownloader.FailDownload: the failure branch writes status and error text as two statements on a worker thread. A progress request between them would see status `error` with error None. The model makes both writes one step, so that state is not modelled.
- A hook event whose `downloaded_bytes` is present but None (a `TypeError` in the hook) is not modelled. An absent value reads as 0.
- Values other than numbers for byte counts are not modelled.
- Downloader.GetFormats: a `formats` key that is present but None raises `TypeError` in the source, which becomes the generic failure. The model has one `None` for absent and None, and treats both as an empty list.
- The JSON rendering of a server `Format` into the client's `FormatInfo` is not modelled. A `format_id` of None becomes the text `null` in the option. `FormatInfo` holds the strings the client sees.
- `app.py`'s Flask routing and its server-side validation are not part of this model.
