/** The Flask application's job tracking (web_app.py): the upload checks, the
    status record written at upload, the merge performed by `update_status`,
    and the sequence of status writes made by `process_file_background`.

    The status files form a store from job id to record. Clock readings are
    parameters; elapsed wall-clock time is kept as the pair of timestamps it
    is computed from. */
module JobStatus {
  import opened Common
  import opened Text
  import Chunking

  const AllowedExtensions: set<string> :=
    {"mp3", "wav", "ogg", "flac", "m4a", "mp4", "mov", "avi", "mkv", "webm"}

  /** The list the worker compares the upload's extension against. */
  const VideoExtensions: set<string> := {"mp4", "mov", "avi", "mkv", "webm"}

  // ---------------------------------------------------------------------------
  // File names
  // ---------------------------------------------------------------------------

  /** Index `i` holds the last '.' of `filename`. */
  predicate LastDot(filename: string, i: int) {
    0 <= i < |filename| && filename[i] == '.' && forall j :: i < j < |filename| ==> filename[j] != '.'
  }

  /** `allowed_file`: a '.' is present and the lower-cased text after the last
      '.' is one of the allowed extensions. */
  function AllowedFile(filename: string): (ok: bool)
    ensures ok <==> exists i :: LastDot(filename, i) && Lower(filename[i + 1..]) in AllowedExtensions
  {
    match LastIndexOf(filename, '.')
    case None => false
    case Some(i) =>
      assert LastDot(filename, i);
      assert forall k :: LastDot(filename, k) ==> k == i;
      Lower(filename[i + 1..]) in AllowedExtensions
  }

  /** Some character of `s[from..to]` is not a dot. */
  predicate HasNonDot(s: string, from: nat, to: nat)
    requires from <= to <= |s|
  {
    exists k :: from <= k < to && s[k] != '.'
  }

  /** POSIX `os.path.splitext`: the extension starts at the last '.' of the
      last path component, unless only dots precede it in that component. */
  function SplitExt(p: string): (r: (string, string))
    ensures r.0 + r.1 == p
    ensures r.1 == "" || (r.1[0] == '.' && '.' !in r.1[1..] && '/' !in r.1)
  {
    match LastIndexOf(p, '.')
    case None => (p, "")
    case Some(dot) =>
      var sepEnd := match LastIndexOf(p, '/') case None => 0 case Some(s) => s + 1;
      if dot >= sepEnd && HasNonDot(p, sepEnd, dot) then
        assert p[..dot] + p[dot..] == p;
        assert forall j :: 1 <= j < |p[dot..]| ==> p[dot..][j] == p[dot + j];
        (p[..dot], p[dot..])
      else (p, "")
  }

  // ---------------------------------------------------------------------------
  // Status records
  // ---------------------------------------------------------------------------

  /** What `process_file_background` stores as `result` on completion. */
  datatype JobResult = JobResult(text: string, language: string, hasNotes: bool)

  /** The seconds between two `"%Y-%m-%d %H:%M:%S"` readings; date arithmetic
      is not part of this model. */
  datatype Elapsed = Elapsed(from: string, to: string)

  /** One status file. Absent keys are `None`. */
  datatype StatusRecord = StatusRecord(
    id: string,
    status: string,
    progress: int,
    updatedAt: Option<string>,
    createdAt: Option<string>,
    originalFilename: Option<string>,
    error: Option<string>,
    result: Option<JobResult>,
    processingTime: Option<Elapsed>,
    modelSize: Option<string>,
    language: Option<string>)

  type Store = map<string, StatusRecord>

  function Digits(s: string, from: nat, to: nat): bool
    requires from <= to <= |s|
  {
    forall k :: from <= k < to ==> IsDigit(s[k])
  }

  /** The shape `strptime(s, "%Y-%m-%d %H:%M:%S")` accepts, in its
      zero-padded form. */
  predicate IsStatusTimestamp(s: string) {
    && |s| == 19
    && Digits(s, 0, 4) && s[4] == '-' && Digits(s, 5, 7) && s[7] == '-' && Digits(s, 8, 10)
    && s[10] == ' '
    && Digits(s, 11, 13) && s[13] == ':' && Digits(s, 14, 16) && s[16] == ':' && Digits(s, 17, 19)
  }

  /** The shape of `datetime.now().isoformat()`: a 'T' between date and time. */
  predicate IsIsoTimestamp(s: string) {
    |s| >= 19 && Digits(s, 0, 4) && s[4] == '-' && s[10] == 'T'
  }

  /** A non-empty string: Python's truthiness of `error`. */
  function Truthy(e: Option<string>): Option<string> {
    if e.Some? && e.value != "" then e else None
  }

  /** The record `update_status` writes, given the record already on disk (if
      any). Only `created_at` and `original_filename` are carried over;
      `processing_time` is added on completion when the stored `created_at`
      parses in the status-file format. */
  function UpdatedRecord(prior: Option<StatusRecord>, id: string, status: string, progress: int,
                         error: Option<string>, result: Option<JobResult>, now: string)
    : (r: StatusRecord)
    ensures r.id == id && r.status == status && r.progress == progress && r.updatedAt == Some(now)
    ensures r.error.Some? <==> error.Some? && error.value != ""
    ensures r.error.Some? ==> r.error == error
    ensures r.result == result
    ensures prior.None? ==> r.createdAt == Some(now) && r.originalFilename.None?
    ensures prior.Some? ==> r.createdAt == prior.value.createdAt
    ensures prior.Some? ==> r.originalFilename == prior.value.originalFilename
    ensures r.modelSize.None? && r.language.None?
    ensures r.processingTime.Some? <==>
      prior.Some? && status == "completed" && prior.value.createdAt.Some?
      && IsStatusTimestamp(prior.value.createdAt.value) && IsStatusTimestamp(now)
  {
    var base := StatusRecord(id, status, progress, Some(now), None, None,
                             Truthy(error), result, None, None, None);
    match prior
    case None => base.(createdAt := Some(now))
    case Some(prev) =>
      var elapsed :=
        if status == "completed" && prev.createdAt.Some?
           && IsStatusTimestamp(prev.createdAt.value) && IsStatusTimestamp(now)
        then Some(Elapsed(prev.createdAt.value, now))
        else None;
      base.(createdAt := prev.createdAt, originalFilename := prev.originalFilename,
            processingTime := elapsed)
  }

  /** `update_status(id, status, progress, error, result)` at time `now`. */
  function UpdateStatus(store: Store, id: string, status: string, progress: int,
                        error: Option<string>, result: Option<JobResult>, now: string)
    : (r: Store)
    ensures r.Keys == store.Keys + {id}
    ensures forall other :: other in store && other != id ==> r[other] == store[other]
  {
    var prior := if id in store then Some(store[id]) else None;
    store[id := UpdatedRecord(prior, id, status, progress, error, result, now)]
  }

  // ---------------------------------------------------------------------------
  // Upload
  // ---------------------------------------------------------------------------

  /** What `upload_file` hands to the background worker. */
  datatype Upload = Upload(store: Store, record: StatusRecord, extension: string)

  /** `upload_file`: the request checks, then the initial status record. The
      worker is handed the lower-cased extension, dot included. */
  function UploadFile(store: Store, id: string, filename: Option<string>,
                      modelSize: string, language: string, nowIso: string)
    : (r: Result<Upload, HttpError>)
    ensures filename.None? ==> r == Failure(HttpError(400, "No file part"))
    ensures filename == Some("") ==> r == Failure(HttpError(400, "No selected file"))
    ensures r.Success? <==> filename.Some? && filename.value != "" && AllowedFile(filename.value)
    ensures r.Success? ==>
      && r.value.store == store[id := r.value.record]
      && r.value.record.status == "uploaded" && r.value.record.progress == 0
      && r.value.record.createdAt == Some(nowIso)
      && r.value.record.originalFilename == Some(SplitExt(filename.value).0)
      && r.value.record.modelSize == Some(modelSize) && r.value.record.language == Some(language)
      && r.value.extension == WorkerExtension(filename.value)
  {
    if filename.None? then Failure(HttpError(400, "No file part"))
    else if filename.value == "" then Failure(HttpError(400, "No selected file"))
    else if !AllowedFile(filename.value) then Failure(HttpError(400, "File type not allowed"))
    else
      var (root, ext) := SplitExt(filename.value);
      var record := StatusRecord(id, "uploaded", 0, None, Some(nowIso), Some(root),
                                 None, None, None, Some(modelSize), Some(language));
      Success(Upload(store[id := record], record, WorkerExtension(filename.value)))
  }

  /** The extension as the worker receives it: `splitext(name)[1].lower()`,
      which keeps the dot. */
  function WorkerExtension(filename: string): (ext: string)
    ensures ext == "" || ext[0] == '.'
    ensures |ext| <= |filename| && Lower(filename[|filename| - |ext|..]) == ext
  {
    var ext := Lower(SplitExt(filename).1);
    assert |ext| > 0 ==> ext[0] == LowerChar(SplitExt(filename).1[0]);
    assert filename[|filename| - |ext|..] == SplitExt(filename).1;
    ext
  }

  /** `GET /status/<id>`. */
  function GetStatus(store: Store, id: string): (r: Result<StatusRecord, HttpError>)
    ensures r.Success? <==> id in store
    ensures r.Success? ==> r.value == store[id]
    ensures r.Failure? ==> r.error.code == 404
  {
    if id in store then Success(store[id])
    else Failure(HttpError(404, "Transcription job not found"))
  }

  // ---------------------------------------------------------------------------
  // The background worker
  // ---------------------------------------------------------------------------

  /** One call of `update_status` made by the worker. */
  datatype StatusWrite = StatusWrite(status: string, progress: int, error: Option<string>,
                                     result: Option<JobResult>)

  const ExtractionFailed: string := "Failed to extract audio from video"

  /** The status writes `process_file_background` makes, in order, given
      whether it takes the video path, whether audio extraction then
      succeeds, and the outcome of transcription. */
  function WorkerWrites(video: bool, extracted: bool,
                        transcription: Result<Chunking.EngineResult, string>)
    : (ws: seq<StatusWrite>)
    ensures |ws| >= 2 && ws[0] == StatusWrite("processing", 10, None, None)
    ensures ws[|ws| - 1].status in {"completed", "failed"}
    ensures ws[|ws| - 1].progress == (if ws[|ws| - 1].status == "completed" then 100 else 0)
    ensures ws[|ws| - 1].status == "completed" <==> (!video || extracted) && transcription.Success?
    ensures (exists k :: 0 <= k < |ws| && ws[k].status == "extracting_audio") <==> video
  {
    var start := [StatusWrite("processing", 10, None, None)];
    var middle := [StatusWrite("transcribing", 30, None, None)] +
      match transcription
      case Failure(e) => [StatusWrite("failed", 0, Some(e), None)]
      case Success(r) =>
        [StatusWrite("saving", 80, None, None),
         StatusWrite("completed", 100, None,
                     Some(JobResult(r.text, r.language.GetOr(""), true)))];
    if video then
      var extracting := [StatusWrite("extracting_audio", 20, None, None)];
      assert (start + extracting)[1].status == "extracting_audio";
      if extracted then
        assert (start + extracting + middle)[1].status == "extracting_audio";
        start + extracting + middle
      else
        var failed := [StatusWrite("failed", 0, Some(ExtractionFailed), None)];
        assert (start + extracting + failed)[1].status == "extracting_audio";
        start + extracting + failed
    else
      assert forall k :: 0 <= k < |start + middle| ==> (start + middle)[k].status != "extracting_audio";
      start + middle
  }

  /** The video test as the worker evidently means it: the extension it is
      handed is a dot followed by one of the video formats. The source
      compares the dotted extension with the bare names instead. */
  function IsVideoExtension(extension: string): (b: bool)
    ensures b <==> exists v :: v in VideoExtensions && extension == "." + v
  {
    if |extension| > 0 && extension[0] == '.' && extension[1..] in VideoExtensions then
      assert extension == "." + extension[1..];
      true
    else
      assert forall v :: ("." + v)[0] == '.' && ("." + v)[1..] == v;
      false
  }

  /** Performs the writes in order; write `k` happens at `clock(k)`. */
  function ApplyWrites(store: Store, id: string, ws: seq<StatusWrite>, clock: nat -> string, k: nat)
    : Store
    decreases |ws|
  {
    if |ws| == 0 then store
    else
      var w := ws[0];
      ApplyWrites(UpdateStatus(store, id, w.status, w.progress, w.error, w.result, clock(k)),
                  id, ws[1..], clock, k + 1)
  }

  /** The job for an upload once the worker has decided whether it is a
      video: its status writes applied to the store. */
  function JobWith(upload: Upload, id: string, video: bool, extracted: bool, lenMs: nat,
                   chunkMinutes: int, language: Option<string>, engine: Chunking.Engine,
                   clock: nat -> string)
    : Store
  {
    var outcome := Chunking.TranscribeAudio(lenMs, chunkMinutes, language, engine);
    ApplyWrites(upload.store, id, WorkerWrites(video, extracted, outcome), clock, 0)
  }

  /** The job for an upload as the worker runs it: the video test is
      `extension in VideoExtensions` on the dotted extension, which never
      holds, so a job whose extension came from `splitext` ends completed(100)
      exactly when transcription succeeds and failed(0) otherwise, video or
      not; the upload's `model_size` and `language` are gone. */
  function RunJob(upload: Upload, id: string, extracted: bool, lenMs: nat, chunkMinutes: int,
                  language: Option<string>, engine: Chunking.Engine, clock: nat -> string)
    : (after: Store)
    ensures id in after
    ensures (after[id].status == "completed" && after[id].progress == 100)
         || (after[id].status == "failed" && after[id].progress == 0)
    ensures upload.extension == "" || upload.extension[0] == '.' ==>
      (after[id].status == "completed" <==>
         Chunking.TranscribeAudio(lenMs, chunkMinutes, language, engine).Success?)
    ensures after[id].modelSize.None? && after[id].language.None?
  {
    var outcome := Chunking.TranscribeAudio(lenMs, chunkMinutes, language, engine);
    var ws := WorkerWrites(upload.extension in VideoExtensions, extracted, outcome);
    LastWriteWins(upload.store, id, ws, clock, 0);
    DottedNotVideo(upload.extension);
    JobWith(upload, id, upload.extension in VideoExtensions, extracted, lenMs, chunkMinutes,
            language, engine, clock)
  }

  /** The job with the corrected video test: a video upload is extracted
      first, and the job completes exactly when the extraction (for a
      video) and the transcription both succeed. */
  function CorrectedRunJob(upload: Upload, id: string, extracted: bool, lenMs: nat, chunkMinutes: int,
                           language: Option<string>, engine: Chunking.Engine, clock: nat -> string)
    : (after: Store)
    ensures id in after
    ensures (after[id].status == "completed" && after[id].progress == 100)
         || (after[id].status == "failed" && after[id].progress == 0)
    ensures after[id].status == "completed" <==>
      (!IsVideoExtension(upload.extension) || extracted)
      && Chunking.TranscribeAudio(lenMs, chunkMinutes, language, engine).Success?
  {
    var outcome := Chunking.TranscribeAudio(lenMs, chunkMinutes, language, engine);
    var ws := WorkerWrites(IsVideoExtension(upload.extension), extracted, outcome);
    LastWriteWins(upload.store, id, ws, clock, 0);
    JobWith(upload, id, IsVideoExtension(upload.extension), extracted, lenMs, chunkMinutes,
            language, engine, clock)
  }

  /** As written, the worker tests `extension in VideoExtensions` on the
      dotted extension, so every upload, video or not, passes through
      processing(10), transcribing(30), then saving(80) and completed(100),
      or failed(0) carrying the exception's message. */
  lemma WorkerSequence(filename: string, extracted: bool,
                       transcription: Result<Chunking.EngineResult, string>)
    ensures var ws := WorkerWrites(WorkerExtension(filename) in VideoExtensions, extracted, transcription);
      match transcription
      case Success(r) => ws == [
        StatusWrite("processing", 10, None, None),
        StatusWrite("transcribing", 30, None, None),
        StatusWrite("saving", 80, None, None),
        StatusWrite("completed", 100, None, Some(JobResult(r.text, r.language.GetOr(""), true)))]
      case Failure(e) => ws == [
        StatusWrite("processing", 10, None, None),
        StatusWrite("transcribing", 30, None, None),
        StatusWrite("failed", 0, Some(e), None)]
  {
    DottedNotVideo(WorkerExtension(filename));
  }

  /** No video extension starts with a dot, so a dotted extension never
      selects the extraction step. */
  lemma DottedNotVideo(ext: string)
    ensures ext == "" || ext[0] == '.' ==> ext !in VideoExtensions
  {
    forall v | v in VideoExtensions ensures v != "" && v[0] != '.' {
    }
  }

  /** A name of the form `<stem>.<video format>`: the worker is handed the
      dotted format, which the test as written misses and the corrected test
      catches, so the job then extracts the audio first (and fails with the
      extraction message when that fails). */
  lemma VideoNameExtracts(stem: string, v: string, extracted: bool,
                          transcription: Result<Chunking.EngineResult, string>)
    requires v in VideoExtensions
    requires '/' !in stem && exists k :: 0 <= k < |stem| && stem[k] != '.'
    ensures WorkerExtension(stem + "." + v) == "." + v
    ensures WorkerExtension(stem + "." + v) !in VideoExtensions
    ensures IsVideoExtension(WorkerExtension(stem + "." + v))
    ensures var ws := WorkerWrites(IsVideoExtension(WorkerExtension(stem + "." + v)), extracted, transcription);
      && ws[1] == StatusWrite("extracting_audio", 20, None, None)
      && (!extracted ==> ws == [ws[0], ws[1], StatusWrite("failed", 0, Some(ExtractionFailed), None)])
  {
    DottedVideoExtension(stem, v);
    DottedNotVideo("." + v);
    VideoWritesExtract(extracted, transcription);
  }

  /** The worker's extension for `<stem>.<video format>` is the dotted format,
      which the corrected test recognises. */
  lemma DottedVideoExtension(stem: string, v: string)
    requires v in VideoExtensions
    requires '/' !in stem && exists k :: 0 <= k < |stem| && stem[k] != '.'
    ensures WorkerExtension(stem + "." + v) == "." + v
    ensures IsVideoExtension("." + v)
  {
    var name := stem + "." + v;
    BareFormat(v);
    DottedName(stem, v);
    LowerDotted(v);
    assert WorkerExtension(name) == Lower(SplitExt(name).1);
  }

  /** Lower-casing leaves a dot in front of a lower-case word alone. */
  lemma LowerDotted(v: string)
    requires Lower(v) == v
    ensures Lower("." + v) == "." + v
  {
    forall i | 0 <= i < |v| ensures Lower("." + v)[i + 1] == v[i] {
      assert ("." + v)[i + 1] == v[i];
      assert LowerChar(v[i]) == Lower(v)[i];
    }
  }

  /** For a video, the second write is the extraction step, and a failed
      extraction ends the job right after it. */
  lemma VideoWritesExtract(extracted: bool, transcription: Result<Chunking.EngineResult, string>)
    ensures var ws := WorkerWrites(true, extracted, transcription);
      && ws[1] == StatusWrite("extracting_audio", 20, None, None)
      && (!extracted ==> ws == [ws[0], ws[1], StatusWrite("failed", 0, Some(ExtractionFailed), None)])
  {
  }

  /** `splitext` cuts `<stem>.<ext>` at the dot when the stem is a single
      path component with a character other than '.', and the extension
      holds neither '.' nor '/'. */
  lemma DottedName(stem: string, ext: string)
    requires '.' !in ext && '/' !in ext
    requires '/' !in stem && exists k :: 0 <= k < |stem| && stem[k] != '.'
    ensures SplitExt(stem + "." + ext) == (stem, "." + ext)
  {
    var name := stem + "." + ext;
    assert name[|stem|] == '.';
    assert forall j :: |stem| < j < |name| ==> name[j] == ext[j - |stem| - 1];
    assert LastIndexOf(name, '.') == Some(|stem|);
    assert forall j :: 0 <= j < |stem| ==> name[j] == stem[j];
    assert '/' !in name;
    var k :| 0 <= k < |stem| && stem[k] != '.';
    assert name[k] != '.';
    assert name[..|stem|] == stem && name[|stem|..] == "." + ext;
  }

  /** The video formats are bare, lower-case, and free of '.' and '/'. */
  lemma BareFormat(v: string)
    requires v in VideoExtensions
    ensures '.' !in v && '/' !in v && Lower(v) == v
  {
  }

  /** Once a job's record has `created_at` and `original_filename`, every later
      status write keeps them. */
  lemma {:induction false} PreservedAcrossWrites(store: Store, id: string, ws: seq<StatusWrite>,
                                                 clock: nat -> string, k: nat)
    requires id in store
    ensures var after := ApplyWrites(store, id, ws, clock, k);
      id in after
      && after[id].createdAt == store[id].createdAt
      && after[id].originalFilename == store[id].originalFilename
    decreases |ws|
  {
    if |ws| > 0 {
      var w := ws[0];
      var next := UpdateStatus(store, id, w.status, w.progress, w.error, w.result, clock(k));
      PreservedAcrossWrites(next, id, ws[1..], clock, k + 1);
    }
  }

  /** After at least one write, the record no longer has the upload's
      `model_size` and `language`, and it reflects the last write. */
  lemma {:induction false} LastWriteWins(store: Store, id: string, ws: seq<StatusWrite>,
                                         clock: nat -> string, k: nat)
    requires |ws| > 0
    ensures var after := ApplyWrites(store, id, ws, clock, k);
      id in after
      && after[id].status == ws[|ws| - 1].status
      && after[id].progress == ws[|ws| - 1].progress
      && after[id].result == ws[|ws| - 1].result
      && after[id].modelSize.None? && after[id].language.None?
    decreases |ws|
  {
    var w := ws[0];
    var next := UpdateStatus(store, id, w.status, w.progress, w.error, w.result, clock(k));
    if |ws| > 1 {
      LastWriteWins(next, id, ws[1..], clock, k + 1);
    }
  }

  /** While `created_at` does not parse in the status-file format, no write
      ever records a processing time. */
  lemma {:induction false} NoElapsedWithoutParsableStart(store: Store, id: string, ws: seq<StatusWrite>,
                                                         clock: nat -> string, k: nat)
    requires id in store && store[id].createdAt.Some?
    requires !IsStatusTimestamp(store[id].createdAt.value)
    requires store[id].processingTime.None?
    ensures var after := ApplyWrites(store, id, ws, clock, k);
      id in after && after[id].processingTime.None?
    decreases |ws|
  {
    if |ws| > 0 {
      var w := ws[0];
      var next := UpdateStatus(store, id, w.status, w.progress, w.error, w.result, clock(k));
      NoElapsedWithoutParsableStart(next, id, ws[1..], clock, k + 1);
    }
  }

  /** The worker's writes, for either video decision, applied to a freshly
      uploaded record whose `created_at` is in ISO format. */
  lemma WritesFromUpload(up: Upload, id: string, iso: string, video: bool, extracted: bool,
                         outcome: Result<Chunking.EngineResult, string>, clock: nat -> string)
    requires id in up.store && up.store[id].createdAt == Some(iso) && IsIsoTimestamp(iso)
    requires up.store[id].processingTime.None?
    ensures var after := ApplyWrites(up.store, id, WorkerWrites(video, extracted, outcome), clock, 0);
      && id in after
      && ((after[id].status == "completed" && after[id].progress == 100)
          || (after[id].status == "failed" && after[id].progress == 0))
      && (after[id].status == "completed" <==> (!video || extracted) && outcome.Success?)
      && after[id].createdAt == Some(iso)
      && after[id].originalFilename == up.store[id].originalFilename
      && after[id].modelSize.None? && after[id].language.None?
      && after[id].processingTime.None?
  {
    var ws := WorkerWrites(video, extracted, outcome);
    PreservedAcrossWrites(up.store, id, ws, clock, 0);
    LastWriteWins(up.store, id, ws, clock, 0);
    assert !IsStatusTimestamp(iso);
    NoElapsedWithoutParsableStart(up.store, id, ws, clock, 0);
  }

  /** The worker's writes as written applied to a freshly uploaded record
      whose `created_at` is in ISO format: the dotted extension never passes
      the video test, so the record ends completed exactly when the
      transcription succeeds. */
  lemma JobFromUpload(up: Upload, id: string, iso: string, extracted: bool,
                      outcome: Result<Chunking.EngineResult, string>, clock: nat -> string)
    requires id in up.store && up.store[id].createdAt == Some(iso) && IsIsoTimestamp(iso)
    requires up.store[id].processingTime.None?
    requires up.extension == "" || up.extension[0] == '.'
    ensures var ws := WorkerWrites(up.extension in VideoExtensions, extracted, outcome);
      var after := ApplyWrites(up.store, id, ws, clock, 0);
      && id in after
      && ((after[id].status == "completed" && after[id].progress == 100)
          || (after[id].status == "failed" && after[id].progress == 0))
      && (after[id].status == "completed" <==> outcome.Success?)
      && after[id].createdAt == Some(iso)
      && after[id].originalFilename == up.store[id].originalFilename
      && after[id].modelSize.None? && after[id].language.None?
      && after[id].processingTime.None?
  {
    DottedNotVideo(up.extension);
    WritesFromUpload(up, id, iso, up.extension in VideoExtensions, extracted, outcome, clock);
  }

  /** A whole job as written, from a successful upload to the last write: the
      record ends completed(100) exactly when the transcription succeeds,
      video or not, and failed(0) otherwise; the upload's `created_at` (ISO
      format) and original file name survive; `model_size` and `language`
      are gone; and no processing time is ever recorded, because the ISO
      `created_at` never parses in the status-file format. */
  lemma JobOutcome(store: Store, id: string, filename: Option<string>, modelSize: string,
                   language: string, nowIso: string, extracted: bool, lenMs: nat,
                   chunkMinutes: int, engine: Chunking.Engine, clock: nat -> string)
    requires IsIsoTimestamp(nowIso)
    requires UploadFile(store, id, filename, modelSize, language, nowIso).Success?
    ensures var up := UploadFile(store, id, filename, modelSize, language, nowIso).value;
      var after := RunJob(up, id, extracted, lenMs, chunkMinutes, Some(language), engine, clock);
      && id in after
      && ((after[id].status == "completed" && after[id].progress == 100)
          || (after[id].status == "failed" && after[id].progress == 0))
      && (after[id].status == "completed" <==>
            Chunking.TranscribeAudio(lenMs, chunkMinutes, Some(language), engine).Success?)
      && after[id].createdAt == Some(nowIso)
      && after[id].originalFilename == up.record.originalFilename
      && after[id].modelSize.None? && after[id].language.None?
      && after[id].processingTime.None?
  {
    var up := UploadFile(store, id, filename, modelSize, language, nowIso).value;
    var outcome := Chunking.TranscribeAudio(lenMs, chunkMinutes, Some(language), engine);
    JobFromUpload(up, id, nowIso, extracted, outcome, clock);
  }

  /** A whole job with the corrected video test: as `JobOutcome`, except that
      a video upload completes only when its audio was also extracted. */
  lemma CorrectedJobOutcome(store: Store, id: string, filename: Option<string>, modelSize: string,
                            language: string, nowIso: string, extracted: bool, lenMs: nat,
                            chunkMinutes: int, engine: Chunking.Engine, clock: nat -> string)
    requires IsIsoTimestamp(nowIso)
    requires UploadFile(store, id, filename, modelSize, language, nowIso).Success?
    ensures var up := UploadFile(store, id, filename, modelSize, language, nowIso).value;
      var after := CorrectedRunJob(up, id, extracted, lenMs, chunkMinutes, Some(language), engine, clock);
      && id in after
      && (after[id].status == "completed" <==>
            (!IsVideoExtension(up.extension) || extracted)
            && Chunking.TranscribeAudio(lenMs, chunkMinutes, Some(language), engine).Success?)
      && after[id].createdAt == Some(nowIso)
      && after[id].originalFilename == up.record.originalFilename
      && after[id].modelSize.None? && after[id].language.None?
      && after[id].processingTime.None?
  {
    var up := UploadFile(store, id, filename, modelSize, language, nowIso).value;
    var outcome := Chunking.TranscribeAudio(lenMs, chunkMinutes, Some(language), engine);
    WritesFromUpload(up, id, nowIso, IsVideoExtension(up.extension), extracted, outcome, clock);
  }
}
