/**
 * The browser-side job controller: the format-fetch click handler, the form
 * submit handler, one tick of the progress-polling interval, and the form
 * reset. The page is an abstract record of the parts the handlers read and
 * write; each backend reply is an input of the handler that awaits it.
 *
 * `Ui` is a snapshot of that state and the `After...` functions say what each
 * handler leaves behind; `JobController` holds the same state in fields and
 * its methods are proved to make exactly those changes.
 */
module JobClient {
  import opened Wrappers
  import opened JsText

  /** One `<option>` of the format select box: its value and the text content it was given. */
  datatype SelectOption = SelectOption(value: string, textContent: string)

  /** One format of a format-discovery reply. */
  datatype FormatInfo = FormatInfo(formatId: string, description: string, ext: string)

  /** One history row: the job id of its badge, the URL, the format label and the badge's percentage. */
  datatype HistoryEntry = HistoryEntry(id: string, url: string, formatLabel: string, badge: int)

  /** A value of `error` that JavaScript reads as false: `null` or the empty string. */
  type FalsyError = e: Option<string> | e.None? || e.value == "" witness None

  /** A progress reply whose `error` field is not truthy (a truthy one is thrown before the body is read). */
  datatype StatusPayload = StatusPayload(progress: real, status: string, error: FalsyError)

  /**
   * How an awaited request settles: a body without a truthy `error` field, a
   * body whose `error` field is truthy, or a thrown exception (network
   * failure, unparsable body).
   */
  datatype Reply<T> = Ok(payload: T) | ErrorField(msg: string) | Exception(msg: string)

  /** The requests the client issues, with their bodies or path parameters. */
  datatype Request =
    | FormatsRequest(url: string)
    | DownloadRequest(url: string, format: string)
    | ProgressRequest(id: string)

  /**
   * The parts of the page the handlers read and write: the URL field, the
   * format select box and its panel, the two buttons, the progress bar and
   * status line, and the history list (most recent first).
   */
  datatype Page = Page(
    urlInput: string,
    formatOptions: seq<SelectOption>,
    selectedIndex: int,
    formatPanelVisible: bool,
    fetchBusy: bool,
    downloadEnabled: bool,
    progressVisible: bool,
    progressPct: int,
    statusText: string,
    history: seq<HistoryEntry>)

  /**
   * The whole client state: the page, the closure variable
   * `currentDownloadId`, the download id polled by each interval still
   * scheduled, and the requests sent and alerts shown so far, oldest first.
   */
  datatype Ui = Ui(
    page: Page,
    currentDownloadId: Option<string>,
    intervals: seq<string>,
    requests: seq<Request>,
    alerts: seq<string>)

  const Placeholder: SelectOption := SelectOption("", "Choose format...")
  const PreparingText: string := "Preparing download..."
  const InvalidUrlAlert: string := "Please enter a valid URL"
  const MissingFieldsAlert: string := "Please fill in all fields"

  /** The text of an option for one returned format: `description (ext)`. */
  function FormatLabel(f: FormatInfo): string {
    f.description + " (" + f.ext + ")"
  }

  /** The option list a successful format reply installs: the placeholder, then one option per format. */
  function OptionsFor(fs: seq<FormatInfo>): seq<SelectOption> {
    [Placeholder] + seq(|fs|, i requires 0 <= i < |fs| => SelectOption(fs[i].formatId, FormatLabel(fs[i])))
  }

  /** The placeholder comes first, then the option for each format in reply order, and nothing else. */
  lemma OptionsForAt(fs: seq<FormatInfo>)
    ensures |OptionsFor(fs)| == |fs| + 1 && OptionsFor(fs)[0] == Placeholder
    ensures forall i :: 0 <= i < |fs| ==> OptionsFor(fs)[i + 1] == SelectOption(fs[i].formatId, FormatLabel(fs[i]))
  {
  }

  /** Appending one format appends its option: the step of the handler's `forEach` loop. */
  lemma OptionsForAppend(fs: seq<FormatInfo>, f: FormatInfo)
    ensures OptionsFor(fs + [f]) == OptionsFor(fs) + [SelectOption(f.formatId, FormatLabel(f))]
  {
    var a, b := OptionsFor(fs + [f]), OptionsFor(fs) + [SelectOption(f.formatId, FormatLabel(f))];
    assert |a| == |b|;
    forall i | 0 <= i < |a| ensures a[i] == b[i] {
      if 0 < i < |a| - 1 {
        assert (fs + [f])[i - 1] == fs[i - 1];
      }
    }
  }

  /** `formatSelect.value`: the selected option's value, or "" when nothing is selected. */
  function SelectedValue(p: Page): string {
    if 0 <= p.selectedIndex < |p.formatOptions| then p.formatOptions[p.selectedIndex].value else ""
  }

  /**
   * `options[selectedIndex].text`: the selected option's text content with
   * ASCII whitespace stripped and collapsed (only read once a non-empty value
   * is known to be selected).
   */
  function SelectedLabel(p: Page): string {
    if 0 <= p.selectedIndex < |p.formatOptions| then StripAndCollapse(p.formatOptions[p.selectedIndex].textContent) else ""
  }

  /** The sequence without its `k`-th element: the interval that `clearInterval` stops. */
  function RemoveAt(s: seq<string>, k: nat): (r: seq<string>)
    requires k < |s|
    ensures |r| == |s| - 1
    ensures forall i :: 0 <= i < k ==> r[i] == s[i]
    ensures forall i :: k <= i < |r| ==> r[i] == s[i + 1]
  {
    s[..k] + s[k + 1..]
  }

  /** Some history row carries a badge for `id`. */
  predicate HasEntry(h: seq<HistoryEntry>, id: string) {
    exists i :: 0 <= i < |h| && h[i].id == id
  }

  /** Index of the first row with badge id `id`: the element `getElementById` finds. */
  predicate IsFirstMatch(h: seq<HistoryEntry>, id: string, j: int) {
    0 <= j < |h| && h[j].id == id && forall i :: 0 <= i < j ==> h[i].id != id
  }

  /** The history with the badge of `id` set to `pct`, when such a badge exists. */
  function WithBadge(h: seq<HistoryEntry>, id: string, pct: int): (r: seq<HistoryEntry>)
    ensures |r| == |h|
  {
    if h == [] then []
    else if h[0].id == id then [h[0].(badge := pct)] + h[1..]
    else [h[0]] + WithBadge(h[1..], id, pct)
  }

  /**
   * Only the first row whose id matches gets the new badge; every other row,
   * and every id, URL and label, is unchanged.
   */
  lemma {:induction false} WithBadgeAt(h: seq<HistoryEntry>, id: string, pct: int, j: int)
    requires 0 <= j < |h|
    ensures WithBadge(h, id, pct)[j] == if IsFirstMatch(h, id, j) then h[j].(badge := pct) else h[j]
  {
    if h[0].id != id && j > 0 {
      WithBadgeAt(h[1..], id, pct, j - 1);
      if IsFirstMatch(h[1..], id, j - 1) {
        assert IsFirstMatch(h, id, j);
      }
    }
  }

  /** Without a matching badge, the badge update is skipped. */
  lemma {:induction false} WithBadgeAbsent(h: seq<HistoryEntry>, id: string, pct: int)
    requires !HasEntry(h, id)
    ensures WithBadge(h, id, pct) == h
  {
    if h != [] {
      forall i | 0 <= i < |h[1..]| ensures h[1..][i].id != id {
        assert h[1..][i] == h[i + 1];
      }
      WithBadgeAbsent(h[1..], id, pct);
    }
  }

  /** The badge update keeps every row's id, so the set of badges present is unchanged. */
  lemma WithBadgeKeepsIds(h: seq<HistoryEntry>, id: string, pct: int)
    ensures forall j :: 0 <= j < |h| ==> WithBadge(h, id, pct)[j].id == h[j].id
  {
    forall j | 0 <= j < |h| ensures WithBadge(h, id, pct)[j].id == h[j].id {
      WithBadgeAt(h, id, pct, j);
    }
  }

  /** A row with badge id `id` has a first one, the element `getElementById` returns. */
  lemma {:induction false} FirstMatch(h: seq<HistoryEntry>, id: string) returns (j: int)
    requires HasEntry(h, id)
    ensures IsFirstMatch(h, id, j)
  {
    if h[0].id == id {
      j := 0;
    } else {
      assert HasEntry(h[1..], id) by {
        var i :| 0 <= i < |h| && h[i].id == id;
        assert h[1..][i - 1] == h[i];
      }
      var j1 := FirstMatch(h[1..], id);
      j := j1 + 1;
      forall i | 0 < i < j ensures h[i].id != id {
        assert h[i] == h[1..][i - 1];
      }
    }
  }

  // ---------------------------------------------------------------------
  // The handlers, as functions of the state
  // ---------------------------------------------------------------------

  /** `resetForm()`. */
  function AfterReset(u: Ui): Ui {
    u.(page := u.page.(downloadEnabled := true, progressVisible := false, progressPct := 0,
                       statusText := PreparingText),
       currentDownloadId := None)
  }

  /** The fetch-formats click handler, given how its request settles. */
  function AfterFetchFormats(u: Ui, reply: Reply<seq<FormatInfo>>): Ui {
    var url := Trim(u.page.urlInput);
    if url == [] then u.(alerts := u.alerts + [InvalidUrlAlert])
    else
      var sent := u.(requests := u.requests + [FormatsRequest(url)]);
      if reply.Ok? then
        sent.(page := sent.page.(formatOptions := OptionsFor(reply.payload), selectedIndex := 0,
                                 formatPanelVisible := true, downloadEnabled := true, fetchBusy := false))
      else
        sent.(page := sent.page.(fetchBusy := false), alerts := sent.alerts + ["Error: " + reply.msg])
  }

  /** The submit handler, given how its request settles. */
  function AfterSubmit(u: Ui, reply: Reply<string>): Ui {
    var url := Trim(u.page.urlInput);
    var format := SelectedValue(u.page);
    if url == [] || format == [] then u.(alerts := u.alerts + [MissingFieldsAlert])
    else
      var sent := u.(page := u.page.(downloadEnabled := false, progressVisible := true),
                     requests := u.requests + [DownloadRequest(url, format)]);
      if reply.Ok? then
        var id := reply.payload;
        sent.(page := sent.page.(history := [HistoryEntry(id, url, SelectedLabel(u.page), 0)] + sent.page.history),
              currentDownloadId := Some(id), intervals := sent.intervals + [id])
      else AfterReset(sent.(alerts := sent.alerts + ["Error: " + reply.msg]))
  }

  /** A tick stops its interval exactly on a terminal status, a truthy error field or an exception. */
  predicate TickStops(reply: Reply<StatusPayload>) {
    !reply.Ok? || reply.payload.status == "finished" || reply.payload.status == "error"
  }

  /** The alert a stopping tick shows, if any. */
  function TickAlert(reply: Reply<StatusPayload>): seq<string> {
    if !reply.Ok? then ["Error monitoring progress: " + reply.msg]
    else if reply.payload.status == "error" then ["Download error: " + JsString(reply.payload.error)]
    else []
  }

  /** One tick of polling interval `k`, given how its status request settles. */
  function AfterTick(u: Ui, k: nat, reply: Reply<StatusPayload>): Ui
    requires k < |u.intervals|
  {
    var id := u.intervals[k];
    var sent := u.(requests := u.requests + [ProgressRequest(id)]);
    var shown :=
      if reply.Ok? then
        var pct := MathRound(reply.payload.progress);
        sent.(page := sent.page.(progressPct := pct, history := WithBadge(sent.page.history, id, pct),
                                 statusText := reply.payload.status))
      else sent;
    if TickStops(reply) then
      AfterReset(shown.(intervals := RemoveAt(shown.intervals, k), alerts := shown.alerts + TickAlert(reply)))
    else shown
  }

  // ---------------------------------------------------------------------
  // What the handlers promise
  // ---------------------------------------------------------------------

  /** The state the page keeps between events. */
  predicate Inv(u: Ui) {
    && (u.page.formatOptions == [] ==> u.page.selectedIndex == -1)
    && (u.page.formatOptions != [] ==> 0 <= u.page.selectedIndex < |u.page.formatOptions|)
    && !u.page.fetchBusy
    && (forall k :: 0 <= k < |u.intervals| ==> HasEntry(u.page.history, u.intervals[k]))
    && (u.currentDownloadId.Some? ==> u.currentDownloadId.value in u.intervals)
  }

  /** Resetting twice is resetting once. */
  lemma ResetIdempotent(u: Ui)
    ensures AfterReset(AfterReset(u)) == AfterReset(u)
  {
  }

  /** The reset re-enables submission, hides the progress panel at 0%, and clears the active job. */
  lemma ResetSettles(u: Ui)
    ensures var r := AfterReset(u);
      && r.page.downloadEnabled && !r.page.progressVisible && r.page.progressPct == 0
      && r.page.statusText == PreparingText && r.currentDownloadId == None
      && r.page.history == u.page.history && r.page.formatOptions == u.page.formatOptions
      && r.page.urlInput == u.page.urlInput && r.page.selectedIndex == u.page.selectedIndex
      && r.page.formatPanelVisible == u.page.formatPanelVisible && r.page.fetchBusy == u.page.fetchBusy
      && r.intervals == u.intervals && r.requests == u.requests && r.alerts == u.alerts
  {
  }

  /** A blank URL makes no request and changes nothing except showing one alert. */
  lemma FetchFormatsBlankUrl(u: Ui, reply: Reply<seq<FormatInfo>>)
    requires AllSpace(u.page.urlInput)
    ensures AfterFetchFormats(u, reply) == u.(alerts := u.alerts + [InvalidUrlAlert])
  {
    TrimEmptyIff(u.page.urlInput);
  }

  /**
   * A successful reply replaces the options wholesale (placeholder first, then
   * one per format in reply order), shows the panel, enables submission and
   * clears the busy flag; exactly one request, with the trimmed URL, is sent.
   */
  lemma FetchFormatsSuccess(u: Ui, fs: seq<FormatInfo>)
    requires !AllSpace(u.page.urlInput)
    ensures var r := AfterFetchFormats(u, Ok(fs));
      && |r.page.formatOptions| == |fs| + 1 && r.page.formatOptions[0] == Placeholder
      && (forall i :: 0 <= i < |fs| ==>
            r.page.formatOptions[i + 1] == SelectOption(fs[i].formatId, FormatLabel(fs[i])))
      && SelectedValue(r.page) == ""
      && r.page.formatPanelVisible && r.page.downloadEnabled && !r.page.fetchBusy
      && r.requests == u.requests + [FormatsRequest(Trim(u.page.urlInput))]
      && r == u.(page := u.page.(formatOptions := OptionsFor(fs), selectedIndex := 0, formatPanelVisible := true,
                                 downloadEnabled := true, fetchBusy := false),
                 requests := u.requests + [FormatsRequest(Trim(u.page.urlInput))])
  {
    TrimEmptyIff(u.page.urlInput);
    OptionsForAt(fs);
  }

  /** A failed format request shows the message, clears the busy flag and leaves options and submission alone. */
  lemma FetchFormatsFailure(u: Ui, reply: Reply<seq<FormatInfo>>)
    requires !AllSpace(u.page.urlInput) && !reply.Ok?
    ensures AfterFetchFormats(u, reply)
         == u.(page := u.page.(fetchBusy := false),
               requests := u.requests + [FormatsRequest(Trim(u.page.urlInput))],
               alerts := u.alerts + ["Error: " + reply.msg])
  {
    TrimEmptyIff(u.page.urlInput);
  }

  /** A blank URL or an unselected format makes no request and changes nothing except one alert. */
  lemma SubmitMissingFields(u: Ui, reply: Reply<string>)
    requires AllSpace(u.page.urlInput) || SelectedValue(u.page) == ""
    ensures AfterSubmit(u, reply) == u.(alerts := u.alerts + [MissingFieldsAlert])
  {
    TrimEmptyIff(u.page.urlInput);
  }

  /**
   * An accepted submission makes its id the active one, starts one more
   * polling interval for it, and puts exactly one row at the head of the
   * history, with badge 0%, the older rows following in their old order. It
   * leaves submission disabled, and it does not reset the bar or the status
   * line: those still show what they showed before.
   */
  lemma SubmitSuccess(u: Ui, id: string)
    requires !AllSpace(u.page.urlInput) && SelectedValue(u.page) != ""
    ensures var r := AfterSubmit(u, Ok(id));
      && r.currentDownloadId == Some(id)
      && r.intervals == u.intervals + [id]
      && |r.page.history| == |u.page.history| + 1
      && r.page.history[0] == HistoryEntry(id, Trim(u.page.urlInput), SelectedLabel(u.page), 0)
      && r.page.history[1..] == u.page.history
      && !r.page.downloadEnabled && r.page.progressVisible
      && r.page.progressPct == u.page.progressPct && r.page.statusText == u.page.statusText
      && r.requests == u.requests + [DownloadRequest(Trim(u.page.urlInput), SelectedValue(u.page))]
      && r == u.(page := u.page.(downloadEnabled := false, progressVisible := true,
                                 history := [r.page.history[0]] + u.page.history),
                 currentDownloadId := Some(id), intervals := u.intervals + [id],
                 requests := u.requests + [DownloadRequest(Trim(u.page.urlInput), SelectedValue(u.page))])
  {
    TrimEmptyIff(u.page.urlInput);
  }

  /** A rejected submission shows the message, resets the form, and adds no history row and no interval. */
  lemma SubmitFailure(u: Ui, reply: Reply<string>)
    requires !AllSpace(u.page.urlInput) && SelectedValue(u.page) != "" && !reply.Ok?
    ensures var r := AfterSubmit(u, reply);
      && r == AfterReset(u.(page := u.page.(progressVisible := true),
                            requests := u.requests + [DownloadRequest(Trim(u.page.urlInput), SelectedValue(u.page))],
                            alerts := u.alerts + ["Error: " + reply.msg]))
      && r.page.history == u.page.history && r.intervals == u.intervals
      && r.page.downloadEnabled && !r.page.progressVisible && r.currentDownloadId == None
  {
    TrimEmptyIff(u.page.urlInput);
  }

  /** The badge ids of the history rows, top to bottom. */
  function Ids(h: seq<HistoryEntry>): seq<string> {
    seq(|h|, i requires 0 <= i < |h| => h[i].id)
  }

  function Reversed(s: seq<string>): seq<string> {
    if s == [] then [] else Reversed(s[1..]) + [s[0]]
  }

  /** The user picks option `i` of the select box, between two handlers. */
  function AfterChoose(u: Ui, i: int): Ui {
    u.(page := u.page.(selectedIndex := i))
  }

  /**
   * Another job from the same page: fetch the formats (the successful fetch
   * re-enables submission), pick format `j` of the reply, and submit; the
   * server accepts it under download id `id`.
   */
  function NextJob(u: Ui, fs: seq<FormatInfo>, j: nat, id: string): Ui
    requires j < |fs|
  {
    AfterSubmit(AfterChoose(AfterFetchFormats(u, Ok(fs)), j + 1), Ok(id))
  }

  /**
   * An accepted submission leaves submission disabled, and a successful fetch
   * enables it again; the job submitted after it becomes the active one, gets
   * one more interval, and heads the history with the chosen format's label.
   */
  lemma NextJobStarts(u: Ui, fs: seq<FormatInfo>, j: nat, id: string)
    requires !AllSpace(u.page.urlInput) && j < |fs| && fs[j].formatId != ""
    ensures AfterFetchFormats(u, Ok(fs)).page.downloadEnabled
    ensures var r := NextJob(u, fs, j, id);
      && r.intervals == u.intervals + [id] && r.currentDownloadId == Some(id)
      && r.page.history
         == [HistoryEntry(id, Trim(u.page.urlInput), StripAndCollapse(FormatLabel(fs[j])), 0)] + u.page.history
      && r.requests == u.requests + [FormatsRequest(Trim(u.page.urlInput)),
                                     DownloadRequest(Trim(u.page.urlInput), fs[j].formatId)]
      && !r.page.downloadEnabled && r.page.urlInput == u.page.urlInput
  {
    TrimEmptyIff(u.page.urlInput);
    OptionsForAt(fs);
  }

  /** Jobs started one after another by `NextJob`, one per download id in `ids`, in that order. */
  function NextJobs(u: Ui, fs: seq<FormatInfo>, j: nat, ids: seq<string>): Ui
    requires j < |fs|
    decreases |ids|
  {
    if ids == [] then u else NextJobs(NextJob(u, fs, j, ids[0]), fs, j, ids[1..])
  }

  /** Submitting jobs A, B, C in turn lists them C, B, A above the older rows. */
  lemma {:induction false} HistoryMostRecentFirst(u: Ui, fs: seq<FormatInfo>, j: nat, ids: seq<string>)
    requires !AllSpace(u.page.urlInput) && j < |fs| && fs[j].formatId != ""
    ensures Ids(NextJobs(u, fs, j, ids).page.history) == Reversed(ids) + Ids(u.page.history)
    decreases |ids|
  {
    if ids != [] {
      var u1 := NextJob(u, fs, j, ids[0]);
      NextJobStarts(u, fs, j, ids[0]);
      HistoryMostRecentFirst(u1, fs, j, ids[1..]);
      assert Ids(u1.page.history) == [ids[0]] + Ids(u.page.history);
    }
  }

  /**
   * A tick that keeps polling shows the rounded percentage on the bar and on
   * the job's badge, and the raw status as the status line; its interval stays.
   */
  lemma TickContinues(u: Ui, k: nat, p: StatusPayload)
    requires k < |u.intervals| && p.status != "finished" && p.status != "error"
    ensures var r := AfterTick(u, k, Ok(p));
      && r.intervals == u.intervals
      && r.page.progressPct == MathRound(p.progress)
      && r.page.statusText == p.status
      && r.page.history == WithBadge(u.page.history, u.intervals[k], MathRound(p.progress))
      && r.requests == u.requests + [ProgressRequest(u.intervals[k])]
      && r == u.(page := u.page.(progressPct := MathRound(p.progress), statusText := p.status,
                                 history := WithBadge(u.page.history, u.intervals[k], MathRound(p.progress))),
                 requests := u.requests + [ProgressRequest(u.intervals[k])])
  {
  }

  /**
   * A tick stops its own interval, and no other, exactly when `TickStops`
   * holds; a stopping tick leaves the form reset.
   */
  lemma TickStopsIff(u: Ui, k: nat, reply: Reply<StatusPayload>)
    requires k < |u.intervals|
    ensures var r := AfterTick(u, k, reply);
      && (TickStops(reply) ==> r.intervals == RemoveAt(u.intervals, k) && r == AfterReset(r))
      && (!TickStops(reply) ==> r.intervals == u.intervals)
  {
  }

  /**
   * On a terminal status the rounded percentage stays on the job's badge even
   * though the bar is reset; only `error` alerts, and its alert can only end in
   * `null` or nothing, since a truthy error text never reaches this branch.
   */
  lemma TickTerminalKeepsBadge(u: Ui, k: nat, p: StatusPayload)
    requires k < |u.intervals| && (p.status == "finished" || p.status == "error")
    ensures var r := AfterTick(u, k, Ok(p));
      && r.page.history == WithBadge(u.page.history, u.intervals[k], MathRound(p.progress))
      && (p.status == "finished" ==> r.alerts == u.alerts)
      && (p.status == "error" ==>
            r.alerts == u.alerts + [if p.error.None? then "Download error: null" else "Download error: "])
      && r == AfterReset(u.(page := u.page.(history := WithBadge(u.page.history, u.intervals[k], MathRound(p.progress))),
                            intervals := RemoveAt(u.intervals, k),
                            requests := u.requests + [ProgressRequest(u.intervals[k])],
                            alerts := r.alerts))
  {
    assert "Download error: " + JsString(None) == "Download error: null";
    assert "Download error: " + JsString(Some("")) == "Download error: ";
  }

  /** A fatal tick (truthy error field or exception) stops, resets and reports the message, and touches no badge. */
  lemma TickFatal(u: Ui, k: nat, reply: Reply<StatusPayload>)
    requires k < |u.intervals| && !reply.Ok?
    ensures var r := AfterTick(u, k, reply);
      && r.page.history == u.page.history
      && r.alerts == u.alerts + ["Error monitoring progress: " + reply.msg]
      && r.currentDownloadId == None && r.page.downloadEnabled
      && r == AfterReset(u.(intervals := RemoveAt(u.intervals, k),
                            requests := u.requests + [ProgressRequest(u.intervals[k])],
                            alerts := u.alerts + ["Error monitoring progress: " + reply.msg]))
  {
  }

  /**
   * Nothing stops a second job while one is still polled, once a fetch has
   * re-enabled submission: both intervals then run, and when the first job
   * finishes the reset clears the active id although the second is still polled.
   */
  lemma OverlappingJobsClearActiveId(u: Ui, a: string, fs: seq<FormatInfo>, j: nat, b: string, p: StatusPayload)
    requires !AllSpace(u.page.urlInput) && SelectedValue(u.page) != "" && u.page.downloadEnabled
    requires u.intervals == [] && j < |fs| && fs[j].formatId != "" && p.status == "finished"
    ensures !AfterSubmit(u, Ok(a)).page.downloadEnabled
    ensures var both := NextJob(AfterSubmit(u, Ok(a)), fs, j, b);
      && both.intervals == [a, b] && both.currentDownloadId == Some(b)
      && AfterTick(both, 0, Ok(p)).intervals == [b]
      && AfterTick(both, 0, Ok(p)).currentDownloadId == None
  {
    var one := AfterSubmit(u, Ok(a));
    SubmitSuccess(u, a);
    NextJobStarts(one, fs, j, b);
  }

  /**
   * Between events every polling interval still has its history badge, so a
   * tick that reads a status never skips the badge update: the first row with
   * the job's badge id gets the rounded percentage.
   */
  lemma TickUpdatesBadge(u: Ui, k: nat, p: StatusPayload)
    requires Inv(u) && k < |u.intervals|
    ensures exists j :: && IsFirstMatch(u.page.history, u.intervals[k], j)
                        && AfterTick(u, k, Ok(p)).page.history[j] == u.page.history[j].(badge := MathRound(p.progress))
  {
    var j := FirstMatch(u.page.history, u.intervals[k]);
    WithBadgeAt(u.page.history, u.intervals[k], MathRound(p.progress), j);
  }

  lemma ResetKeepsInv(u: Ui)
    requires Inv(u)
    ensures Inv(AfterReset(u))
  {
  }

  lemma FetchFormatsKeepsInv(u: Ui, reply: Reply<seq<FormatInfo>>)
    requires Inv(u)
    ensures Inv(AfterFetchFormats(u, reply))
  {
  }

  lemma SubmitKeepsInv(u: Ui, reply: Reply<string>)
    requires Inv(u)
    ensures Inv(AfterSubmit(u, reply))
  {
    var r := AfterSubmit(u, reply);
    if r.page.history != u.page.history {
      forall k | 0 <= k < |r.intervals| ensures HasEntry(r.page.history, r.intervals[k]) {
        if k < |u.intervals| {
          assert HasEntry(u.page.history, u.intervals[k]);
          var i :| 0 <= i < |u.page.history| && u.page.history[i].id == u.intervals[k];
          assert r.page.history[i + 1].id == u.intervals[k];
        } else {
          assert r.page.history[0].id == r.intervals[k];
        }
      }
    }
  }

  lemma TickKeepsInv(u: Ui, k: nat, reply: Reply<StatusPayload>)
    requires Inv(u) && k < |u.intervals|
    ensures Inv(AfterTick(u, k, reply))
  {
    var r := AfterTick(u, k, reply);
    var id := u.intervals[k];
    WithBadgeKeepsIds(u.page.history, id, if reply.Ok? then MathRound(reply.payload.progress) else 0);
    forall j | 0 <= j < |r.intervals| ensures HasEntry(r.page.history, r.intervals[j]) {
      var j0 := if r.intervals == u.intervals || j < k then j else j + 1;
      assert r.intervals[j] == u.intervals[j0];
      var i :| 0 <= i < |u.page.history| && u.page.history[i].id == u.intervals[j0];
      assert r.page.history[i].id == u.page.history[i].id;
    }
  }

  // ---------------------------------------------------------------------
  // The controller
  // ---------------------------------------------------------------------

  /**
   * The page's handlers and the state they share: the page itself, the
   * closure variable `currentDownloadId`, the scheduled polling intervals and
   * the log of requests and alerts.
   */
  class JobController {
    var page: Page
    var currentDownloadId: Option<string>
    var intervals: seq<string>
    var requests: seq<Request>
    var alerts: seq<string>

    /** The state as one value. */
    function View(): Ui
      reads this
    {
      Ui(page, currentDownloadId, intervals, requests, alerts)
    }

    /** A freshly loaded page: no formats yet, submission disabled, progress hidden. */
    constructor ()
      ensures Inv(View())
      ensures View() == Ui(Page("", [], -1, false, false, false, false, 0, PreparingText, []), None, [], [], [])
    {
      page := Page("", [], -1, false, false, false, false, 0, PreparingText, []);
      currentDownloadId, intervals, requests, alerts := None, [], [], [];
    }

    /** The user types into the URL field. */
    method EnterUrl(s: string)
      requires Inv(View())
      modifies this
      ensures Inv(View())
      ensures View() == old(View()).(page := old(page).(urlInput := s))
    {
      page := page.(urlInput := s);
    }

    /** The user picks an option of the format select box (see `AfterChoose`). */
    method ChooseFormat(i: int)
      requires Inv(View()) && 0 <= i < |page.formatOptions|
      modifies this
      ensures Inv(View())
      ensures View() == AfterChoose(old(View()), i)
    {
      page := page.(selectedIndex := i);
    }

    /** `resetForm()`. */
    method ResetForm()
      modifies this
      ensures View() == AfterReset(old(View()))
      ensures old(Inv(View())) ==> Inv(View())
    {
      if Inv(View()) {
        ResetKeepsInv(View());
      }
      page := page.(downloadEnabled := true);
      page := page.(progressVisible := false, progressPct := 0);
      page := page.(statusText := PreparingText);
      currentDownloadId := None;
    }

    /**
     * `formatSelect.innerHTML = placeholder`, which leaves the placeholder
     * selected, then one `appendChild` per returned format.
     */
    method ReplaceOptions(fs: seq<FormatInfo>)
      modifies this
      ensures View() == old(View()).(page := old(page).(formatOptions := OptionsFor(fs), selectedIndex := 0))
      ensures old(Inv(View())) ==> Inv(View())
    {
      page := page.(formatOptions := [Placeholder], selectedIndex := 0);
      var i := 0;
      while i < |fs|
        invariant 0 <= i <= |fs|
        invariant View() == old(View()).(page := old(page).(formatOptions := OptionsFor(fs[..i]), selectedIndex := 0))
      {
        assert fs[..i + 1] == fs[..i] + [fs[i]];
        OptionsForAppend(fs[..i], fs[i]);
        page := page.(formatOptions := page.formatOptions + [SelectOption(fs[i].formatId, FormatLabel(fs[i]))]);
        i := i + 1;
      }
      assert fs[..i] == fs;
    }

    /** The fetch-formats click handler. */
    method FetchFormats(reply: Reply<seq<FormatInfo>>)
      requires Inv(View())
      modifies this
      ensures Inv(View())
      ensures View() == AfterFetchFormats(old(View()), reply)
    {
      FetchFormatsKeepsInv(View(), reply);
      var url := Trim(page.urlInput);
      if url == [] {
        alerts := alerts + [InvalidUrlAlert];
        return;
      }
      page := page.(fetchBusy := true);
      requests := requests + [FormatsRequest(url)];
      if reply.Ok? {
        ReplaceOptions(reply.payload);
        page := page.(formatPanelVisible := true, downloadEnabled := true);
      } else {
        alerts := alerts + ["Error: " + reply.msg];
      }
      page := page.(fetchBusy := false);
    }

    /** The submit handler; the form's submit event only arrives while its submit button is enabled. */
    method Submit(reply: Reply<string>)
      requires Inv(View()) && page.downloadEnabled
      modifies this
      ensures Inv(View())
      ensures View() == AfterSubmit(old(View()), reply)
    {
      SubmitKeepsInv(View(), reply);
      var url := Trim(page.urlInput);
      var format := SelectedValue(page);
      if url == [] || format == [] {
        alerts := alerts + [MissingFieldsAlert];
        return;
      }
      var formatLabel := SelectedLabel(page);
      page := page.(downloadEnabled := false, progressVisible := true);
      requests := requests + [DownloadRequest(url, format)];
      if reply.Ok? {
        currentDownloadId := Some(reply.payload);
        intervals := intervals + [reply.payload];
        page := page.(history := [HistoryEntry(reply.payload, url, formatLabel, 0)] + page.history);
      } else {
        alerts := alerts + ["Error: " + reply.msg];
        ResetForm();
      }
    }

    /** One run of the callback of polling interval `k`. */
    method Tick(k: nat, reply: Reply<StatusPayload>)
      requires Inv(View()) && k < |intervals|
      modifies this
      ensures Inv(View())
      ensures View() == AfterTick(old(View()), k, reply)
    {
      ghost var before := View();
      var downloadId := intervals[k];
      requests := requests + [ProgressRequest(downloadId)];
      if reply.Ok? {
        var progress := MathRound(reply.payload.progress);
        page := page.(progressPct := progress, history := WithBadge(page.history, downloadId, progress),
                      statusText := reply.payload.status);
        if reply.payload.status == "finished" || reply.payload.status == "error" {
          intervals := RemoveAt(intervals, k);
          if reply.payload.status == "error" {
            alerts := alerts + ["Download error: " + JsString(reply.payload.error)];
          }
          ResetForm();
        }
      } else {
        intervals := RemoveAt(intervals, k);
        alerts := alerts + ["Error monitoring progress: " + reply.msg];
        ResetForm();
      }
      TickKeepsInv(before, k, reply);
    }
  }
}
