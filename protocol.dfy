/**
 * The two sides of the progress endpoint put together: how the client reads
 * the server's `get_progress` reply, and what that implies for the branches
 * of the polling tick.
 */
module Protocol {
  import opened Wrappers
  import opened JsText
  import opened Downloader
  import opened JobClient

  /**
   * The client's reading of a progress reply: a truthy `error` field (any
   * non-empty string) is fatal; otherwise the body is read as progress and
   * status, with the falsy `error` value (null or "") carried along.
   */
  function ClientView(r: ProgressReply): (v: Reply<StatusPayload>)
    ensures !v.Exception?
    ensures v.Ok? <==> r.Found? && (r.entry.error.None? || r.entry.error.value == "")
    ensures v.Ok? ==> && v.payload.progress == r.entry.progress && v.payload.status == r.entry.status
                      && v.payload.error == r.entry.error
    ensures v.ErrorField? ==> v.msg == if r.NotFound? then r.error else r.entry.error.value
  {
    match r
    case NotFound(e) => ErrorField(e)
    case Found(e) =>
      if e.error.Some? && e.error.value != "" then ErrorField(e.error.value)
      else Ok(StatusPayload(e.progress, e.status, e.error))
  }

  /** The server's not-found reply is read as a fatal error naming the missing download. */
  lemma UnknownIdIsFatal(downloads: map<string, Entry>, id: string, u: Ui, k: nat)
    requires id !in downloads && k < |u.intervals|
    ensures ClientView(Lookup(downloads, id)) == ErrorField(NotFoundMessage)
    ensures var r := AfterTick(u, k, ClientView(Lookup(downloads, id)));
      && r.intervals == RemoveAt(u.intervals, k)
      && r.alerts == u.alerts + ["Error monitoring progress: " + NotFoundMessage]
  {
  }

  /**
   * Against a table in which every `error` status carries its error value, the
   * tick's `status === 'error'` branch is taken exactly when the stored error
   * text is empty; the alert it shows then has no detail.
   */
  lemma StatusErrorBranchNeedsEmptyMessage(downloads: map<string, Entry>, id: string)
    requires AllErrorsRecorded(downloads)
    ensures var v := ClientView(Lookup(downloads, id));
      && (v.Ok? && v.payload.status == "error"
          <==> id in downloads && downloads[id].status == "error" && downloads[id].error == Some(""))
      && (v.Ok? && v.payload.status == "error" ==> TickAlert(v) == ["Download error: "])
  {
    if id in downloads && downloads[id].status == "error" {
      assert ErrorRecorded(downloads[id]);
      assert "Download error: " + JsString(Some("")) == "Download error: ";
    }
  }

  /**
   * Which server states end the client's polling: an unknown id, a terminal
   * status, or a non-empty error text; anything else keeps the interval.
   */
  lemma TickStopsOnServerState(downloads: map<string, Entry>, id: string)
    ensures TickStops(ClientView(Lookup(downloads, id)))
        <==> || id !in downloads
             || downloads[id].status == "finished" || downloads[id].status == "error"
             || (downloads[id].error.Some? && downloads[id].error.value != "")
  {
  }

  /**
   * The first poll of a job that has only been started reads 0% and
   * `starting`, keeps polling, and puts 0 on the job's badge.
   */
  lemma FirstTickAfterStart(downloads: map<string, Entry>, id: string, u: Ui, k: nat)
    requires k < |u.intervals| && u.intervals[k] == id
    ensures var r := AfterTick(u, k, ClientView(Lookup(downloads[id := Starting], id)));
      && r.intervals == u.intervals
      && r.page.progressPct == 0 && r.page.statusText == "starting"
      && r.page.history == WithBadge(u.page.history, id, 0)
  {
    MathRoundOfInt(0);
  }

  /** A job the hook has marked finished, and that never failed, ends the polling without an alert. */
  lemma FinishedJobEndsPolling(downloads: map<string, Entry>, id: string, d: HookEvent, u: Ui, k: nat)
    requires id in downloads && downloads[id].error == None && d.status == "finished"
    requires k < |u.intervals| && u.intervals[k] == id
    ensures var r := AfterTick(u, k, ClientView(Lookup(downloads[id := HookEffect(downloads[id], d)], id)));
      && r.intervals == RemoveAt(u.intervals, k) && r.alerts == u.alerts
      && r.page.history == WithBadge(u.page.history, id, 100)
      && r.currentDownloadId == None && r.page.downloadEnabled
  {
    MathRoundOfInt(100);
  }
}
