/**
 * The server side of the download-job protocol: the `VideoDownloader` job
 * table (`downloads`), the progress hook and failure path that update it in
 * place, the lookup behind the progress endpoint, and the filter that turns
 * the extractor's format list into the list offered to the client.
 *
 * The extractor and downloader library, the worker thread and `uuid4` are
 * not modelled: their outcomes (the format list, each hook event, the
 * failure message, the fresh id) are parameters.
 */
module Downloader {
  import opened Wrappers

  // ---------------------------------------------------------------------
  // Formats
  // ---------------------------------------------------------------------

  /** A value read out of one of the extractor's format dictionaries. */
  datatype Value = Null | Str(s: string) | Num(n: real)

  /** One format dictionary as the extractor reports it; absent keys are absent from the map. */
  type RawFormat = map<string, Value>

  /** One entry of the list returned to the client. */
  datatype Format = Format(formatId: Value, ext: string, quality: Value, description: Value)

  /** What the extractor call produced: its `formats` list (absent when the info has none), or a failure. */
  datatype Extraction = Info(formats: Option<seq<RawFormat>>) | ExtractError(message: string)

  /** The container extensions offered to the client. */
  const AllowedExts: seq<string> := ["mp4", "webm", "m4a", "mp3"]

  /** The single message raised whenever extraction fails, whatever its cause. */
  const FormatsFailure: string := "Failed to get video formats"

  /** Python's `f.get(key, default)`. */
  function Get(f: RawFormat, key: string, default: Value): Value {
    if key in f then f[key] else default
  }

  /** The format's extension is one of the allowed ones. */
  predicate IsKept(f: RawFormat) {
    "ext" in f && f["ext"].Str? && f["ext"].s in AllowedExts
  }

  /**
   * The dictionary built for one kept format: `format_id` and `ext` copied
   * (`format_id` is None when absent), `quality` copied, and `description`
   * taken from `format_note`, each of these two 'unknown' when absent.
   */
  function ToFormat(f: RawFormat): (r: Format)
    requires IsKept(f)
    ensures r.ext in AllowedExts && r.ext == f["ext"].s
    ensures "format_id" in f ==> r.formatId == f["format_id"]
    ensures "format_id" !in f ==> r.formatId == Null
    ensures "quality" in f ==> r.quality == f["quality"]
    ensures "quality" !in f ==> r.quality == Str("unknown")
    ensures "format_note" in f ==> r.description == f["format_note"]
    ensures "format_note" !in f ==> r.description == Str("unknown")
  {
    Format(Get(f, "format_id", Null), f["ext"].s,
           Get(f, "quality", Str("unknown")), Get(f, "format_note", Str("unknown")))
  }

  /** The kept formats, converted, in input order: the specification of the loop in `GetFormats`. */
  function KeptFormats(fs: seq<RawFormat>): (r: seq<Format>)
    ensures |r| <= |fs|
  {
    if fs == [] then []
    else (if IsKept(fs[0]) then [ToFormat(fs[0])] else []) + KeptFormats(fs[1..])
  }

  /** Filtering distributes over concatenation: kept formats stay in input order. */
  lemma {:induction false} KeptFormatsAppend(a: seq<RawFormat>, b: seq<RawFormat>)
    ensures KeptFormats(a + b) == KeptFormats(a) + KeptFormats(b)
  {
    if a != [] {
      assert (a + b)[1..] == a[1..] + b;
      KeptFormatsAppend(a[1..], b);
    } else {
      assert a + b == b;
    }
  }

  /** A single format is kept, as its converted dictionary, exactly when its extension is allowed. */
  lemma KeptFormatsSingle(f: RawFormat)
    ensures KeptFormats([f]) == if IsKept(f) then [ToFormat(f)] else []
  {
  }

  /**
   * The output holds a format exactly when some input format with an allowed
   * extension converts to it.
   */
  lemma {:induction false} KeptFormatsMembers(fs: seq<RawFormat>, x: Format)
    ensures x in KeptFormats(fs) <==> exists f :: f in fs && IsKept(f) && x == ToFormat(f)
  {
    if fs != [] {
      KeptFormatsMembers(fs[1..], x);
      assert fs == [fs[0]] + fs[1..];
      if x in KeptFormats(fs) && x !in KeptFormats(fs[1..]) {
        assert fs[0] in fs;
      }
      if exists f :: f in fs && IsKept(f) && x == ToFormat(f) {
        var f :| f in fs && IsKept(f) && x == ToFormat(f);
        if f != fs[0] {
          assert f in fs[1..];
        }
      }
    }
  }

  /**
   * `get_formats` after the extractor call: a missing `formats` list counts as
   * empty; any extraction failure becomes the one generic failure message.
   */
  method GetFormats(x: Extraction) returns (r: Result<seq<Format>, string>)
    ensures x.ExtractError? ==> r == Failure(FormatsFailure)
    ensures x.Info? && x.formats.None? ==> r == Success([])
    ensures x.Info? && x.formats.Some? ==> r == Success(KeptFormats(x.formats.value))
  {
    if x.ExtractError? {
      return Failure(FormatsFailure);
    }
    var all := if x.formats.Some? then x.formats.value else [];
    var formats: seq<Format> := [];
    var i := 0;
    while i < |all|
      invariant 0 <= i <= |all|
      invariant formats == KeptFormats(all[..i])
    {
      var f := all[i];
      assert all[..i + 1] == all[..i] + [f];
      KeptFormatsAppend(all[..i], [f]);
      if IsKept(f) {
        formats := formats + [ToFormat(f)];
      }
      i := i + 1;
    }
    assert all[..i] == all;
    return Success(formats);
  }

  // ---------------------------------------------------------------------
  // The job table
  // ---------------------------------------------------------------------

  /** One job's record: `{progress, status, error}`. */
  datatype Entry = Entry(progress: real, status: string, error: Option<string>)

  /** The record `start_download` stores for a new job. */
  const Starting: Entry := Entry(0.0, "starting", None)

  /** One call of the progress hook: the fields of the dictionary the downloader passes. */
  datatype HookEvent = HookEvent(
    status: string,
    totalBytes: Option<real>,          // None: absent or None
    totalBytesEstimate: Option<real>,  // None: absent or None
    downloadedBytes: real)             // 0 when absent

  /** Python truthiness of an optional number. */
  predicate Truthy(v: Option<real>) {
    v.Some? && v.value != 0.0
  }

  /** `d.get('total_bytes', 0) or d.get('total_bytes_estimate', 0)`, with a falsy result read as 0. */
  function HookTotal(d: HookEvent): (t: real)
    ensures t != 0.0 <==> Truthy(d.totalBytes) || Truthy(d.totalBytesEstimate)
    ensures Truthy(d.totalBytes) ==> t == d.totalBytes.value
    ensures !Truthy(d.totalBytes) && Truthy(d.totalBytesEstimate) ==> t == d.totalBytesEstimate.value
  {
    if Truthy(d.totalBytes) then d.totalBytes.value
    else if Truthy(d.totalBytesEstimate) then d.totalBytesEstimate.value
    else 0.0
  }

  /** What one hook event does to a job's record; specifies `VideoDownloader.ProgressHook`. */
  function HookEffect(e: Entry, d: HookEvent): (r: Entry)
    ensures r.error == e.error
    ensures r.status == e.status || r.status == "downloading" || r.status == "finished"
    ensures r.status == "error" ==> r == e
  {
    if d.status == "downloading" then
      var total := HookTotal(d);
      if total != 0.0 then e.(progress := d.downloadedBytes / total * 100.0, status := "downloading")
      else e
    else if d.status == "finished" then e.(status := "finished", progress := 100.0)
    else e
  }

  /** A `downloading` event with a known, non-zero total sets the percentage and the status. */
  lemma HookDownloading(e: Entry, d: HookEvent)
    requires d.status == "downloading" && HookTotal(d) != 0.0
    ensures HookEffect(e, d) == Entry(d.downloadedBytes * 100.0 / HookTotal(d), "downloading", e.error)
  {
  }

  /** A `finished` event completes the job at 100 per cent, whatever came before. */
  lemma HookFinished(e: Entry, d: HookEvent)
    requires d.status == "finished"
    ensures HookEffect(e, d) == Entry(100.0, "finished", e.error)
  {
  }

  /** A `downloading` event without a total, and any other kind of event, leaves the record alone. */
  lemma HookIgnored(e: Entry, d: HookEvent)
    requires (d.status == "downloading" && HookTotal(d) == 0.0)
          || (d.status != "downloading" && d.status != "finished")
    ensures HookEffect(e, d) == e
  {
  }

  /** An `error` status always comes with a recorded error value. */
  predicate ErrorRecorded(e: Entry) {
    e.status == "error" ==> e.error.Some?
  }

  /** Every job of the table that has status `error` carries its error value. */
  predicate AllErrorsRecorded(downloads: map<string, Entry>) {
    forall id :: id in downloads ==> ErrorRecorded(downloads[id])
  }

  /** The reply behind the progress endpoint. */
  datatype ProgressReply = NotFound(error: string) | Found(entry: Entry)

  /** The message returned for an id the table does not hold. */
  const NotFoundMessage: string := "Download not found"

  /** `get_progress` as a function of the table: a lookup with a not-found reply. */
  function Lookup(downloads: map<string, Entry>, id: string): (r: ProgressReply)
    ensures r.NotFound? <==> id !in downloads
    ensures r.NotFound? ==> r.error == NotFoundMessage
    ensures r.Found? ==> r.entry == downloads[id]
  {
    if id !in downloads then NotFound(NotFoundMessage) else Found(downloads[id])
  }

  /** `VideoDownloader`: the table of jobs keyed by download id. */
  class VideoDownloader {
    var downloads: map<string, Entry>

    /** Every recorded `error` status carries its error value. */
    ghost predicate Valid()
      reads this
    {
      AllErrorsRecorded(downloads)
    }

    constructor ()
      ensures Valid() && downloads == map[]
    {
      downloads := map[];
    }

    /** `start_download` without its thread: `id` stands for the fresh `uuid4`. */
    method StartDownload(id: string) returns (r: string)
      requires Valid() && id !in downloads
      modifies this
      ensures Valid()
      ensures r == id
      ensures downloads == old(downloads)[id := Starting]
      ensures downloads.Keys == old(downloads).Keys + {id}
    {
      downloads := downloads[id := Starting];
      r := id;
    }

    /** The hook's `downloading` branch once a non-zero total is known. */
    method OnDownloading(id: string, downloaded: real, total: real)
      requires Valid() && id in downloads && total != 0.0
      modifies this
      ensures Valid()
      ensures downloads == old(downloads)[id := old(downloads)[id].(progress := downloaded / total * 100.0, status := "downloading")]
      ensures downloads.Keys == old(downloads).Keys
    {
      var progress := downloaded / total * 100.0;
      downloads := downloads[id := downloads[id].(progress := progress)];
      downloads := downloads[id := downloads[id].(status := "downloading")];
    }

    /** The hook's `finished` branch. */
    method OnFinished(id: string)
      requires Valid() && id in downloads
      modifies this
      ensures Valid()
      ensures downloads == old(downloads)[id := old(downloads)[id].(status := "finished", progress := 100.0)]
      ensures downloads.Keys == old(downloads).Keys
    {
      downloads := downloads[id := downloads[id].(status := "finished")];
      downloads := downloads[id := downloads[id].(progress := 100.0)];
    }

    /** `progress_hook`: dispatches on the event's status; other statuses are ignored. */
    method ProgressHook(id: string, d: HookEvent)
      requires Valid() && id in downloads
      modifies this
      ensures Valid()
      ensures downloads == old(downloads)[id := HookEffect(old(downloads)[id], d)]
      ensures downloads.Keys == old(downloads).Keys
    {
      if d.status == "downloading" {
        var total := HookTotal(d);
        if total != 0.0 {
          OnDownloading(id, d.downloadedBytes, total);
        }
      } else if d.status == "finished" {
        OnFinished(id);
      }
    }

    /** The `except` branch of `_download`: status `error`, the exception text stored, progress kept. */
    method FailDownload(id: string, message: string)
      requires Valid() && id in downloads
      modifies this
      ensures Valid()
      ensures downloads == old(downloads)[id := Entry(old(downloads)[id].progress, "error", Some(message))]
      ensures downloads.Keys == old(downloads).Keys
    {
      downloads := downloads[id := downloads[id].(status := "error")];
      downloads := downloads[id := downloads[id].(error := Some(message))];
    }

    /** `get_progress`: the stored record, or the not-found reply; the table is only read. */
    method GetProgress(id: string) returns (r: ProgressReply)
      ensures r == Lookup(downloads, id)
    {
      if id !in downloads {
        return NotFound(NotFoundMessage);
      }
      return Found(downloads[id]);
    }
  }
}
